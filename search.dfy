/** The `search` endpoint's pipeline: normalize the query, answer from the
    cache, or fan out to 3 global pages and 20 artists, gather the results
    in completion order, rank, truncate and store. The HTTP layer, the
    thread pool and the clock are not part of this model: the responses,
    the completion order and the cache expiry are inputs. */
module Search {
  import opened Text
  import opened Tracks
  import opened Scoring
  import opened Fetchers
  import opened Gathering
  import opened Ranking

  const MinQueryLength: nat := 2
  const GlobalPages: nat := 3
  const ArtistFanout: nat := 20

  /** The artist accounts searched; the process shuffles them once at
      start-up and each search uses the first `ArtistFanout`. */
  const KnownArtists: seq<string> := [
    "aidm", "allindiandjsclub", "djnyk", "djo2srk", "djshadowdubai", "desitech",
    "djshree", "djchetas", "djaqueel", "djlemon", "djparoma",
    "djkawal", "djbteja", "djrix", "djsmita", "djnotorious",
    "djsyrah", "djsarfaraz", "djasif", "djsubham", "djtejas",
    "djakhil", "djyogi", "djamit", "djruanon", "djkwid",
    "remix", "bollywood", "clubmirchi", "midnight", "bdes",
    "djremix", "mashup", "desiremix", "hindiremix", "punjabiremix",
    "djdalal", "djshouki", "djshaan", "djshadow", "djrink"
  ]

  /** `KNOWN_ARTISTS[:20]`. */
  function Targets(artists: seq<string>): (r: seq<string>)
    ensures |r| == Min(|artists|, ArtistFanout)
    ensures r == artists[..|r|]
  {
    if |artists| <= ArtistFanout then artists else artists[..ArtistFanout]
  }

  /** Whatever order the start-up shuffle produced, a search submits 23
      fetches: 3 global pages and 20 artists. */
  lemma FanOut(shuffled: seq<string>, q: string)
    requires multiset(shuffled) == multiset(KnownArtists)
    ensures |Targets(shuffled)| == ArtistFanout
    ensures |Requests(q, Targets(shuffled))| == 23
  {
    assert |KnownArtists| == 41;
    assert |shuffled| == |multiset(shuffled)|;
  }

  /** One outbound request: a page of the global search, or an artist's
      track list. */
  datatype Request = GlobalPage(query: string, page: nat) | ArtistTracks(artist: string)

  /** The remote service as the pipeline sees it: the parsed body each
      request obtained (`OtherPayload` when it failed). */
  type Network = Request -> Payload

  /** What the endpoint answers: a JSON list of tracks, or an exception
      that escaped the handler. */
  datatype Reply = Found(tracks: seq<Track>) | Crashed

  /** The requests one search submits, in submission order: global pages
      1 to 3, then one per target artist. */
  function Requests(q: string, targets: seq<string>): (rs: seq<Request>)
    ensures |rs| == GlobalPages + |targets|
    ensures forall i :: 0 <= i < GlobalPages ==> rs[i] == GlobalPage(q, i + 1)
    ensures forall i :: 0 <= i < |targets| ==> rs[GlobalPages + i] == ArtistTracks(targets[i])
  {
    [GlobalPage(q, 1), GlobalPage(q, 2), GlobalPage(q, 3)]
    + seq(|targets|, i requires 0 <= i < |targets| => ArtistTracks(targets[i]))
  }

  function AsElements(ts: seq<Track>): seq<Element>
  {
    seq(|ts|, i requires 0 <= i < |ts| => Obj(ts[i]))
  }

  /** The list the fetcher for request `r` hands to the gather loop when
      its response parsed to `p`. */
  function FetchResult(r: Request, p: Payload, q: string, ratio: Ratio): seq<Element>
  {
    match r
    case GlobalPage(_, _) => FetchGlobal(p)
    case ArtistTracks(_) => AsElements(ArtistMatches(p, ScorerFor(q, ratio)))
  }

  /** Runs the fetcher that request `r` calls for. */
  method Fetch(r: Request, p: Payload, q: string, ratio: Ratio) returns (es: seq<Element>)
    ensures es == FetchResult(r, p, q, ratio)
  {
    match r
    case GlobalPage(_, _) =>
      es := FetchGlobal(p);
    case ArtistTracks(_) =>
      var matches := FetchArtist(p, q, ratio);
      es := AsElements(matches);
  }

  /** `order` lists each of the `n` submitted requests exactly once: the
      order in which `as_completed` yields their futures. */
  predicate IsCompletionOrder(order: seq<nat>, n: nat)
  {
    |order| == n && (forall i :: 0 <= i < n ==> order[i] < n) &&
    forall i, j :: 0 <= i < j < n ==> order[i] != order[j]
  }

  /** The fetchers' result lists in completion order. */
  function Batches(q: string, targets: seq<string>, net: Network, order: seq<nat>, ratio: Ratio): seq<seq<Element>>
    requires IsCompletionOrder(order, GlobalPages + |targets|)
  {
    var rs := Requests(q, targets);
    seq(|order|, i requires 0 <= i < |order| => FetchResult(rs[order[i]], net(rs[order[i]]), q, ratio))
  }

  /** Submits the requests and collects each fetcher's list as its future
      completes, in `order`. */
  method FetchAll(q: string, targets: seq<string>, net: Network, order: seq<nat>, ratio: Ratio)
    returns (batches: seq<seq<Element>>)
    requires IsCompletionOrder(order, GlobalPages + |targets|)
    ensures batches == Batches(q, targets, net, order, ratio)
  {
    var requests := Requests(q, targets);
    ghost var spec := Batches(q, targets, net, order, ratio);
    batches := [];
    for i := 0 to |order|
      invariant batches == spec[..i]
    {
      var r := requests[order[i]];
      var tracks := Fetch(r, net(r), q, ratio);
      assert tracks == spec[i];
      batches := batches + [tracks];
    }
  }

  /** A search that missed the cache: the gathered tracks, ranked and
      truncated; `None` when the handler raised. */
  function Aggregate(q: string, targets: seq<string>, net: Network, order: seq<nat>, ratio: Ratio): (r: Option<seq<Track>>)
    requires IsCompletionOrder(order, GlobalPages + |targets|)
    ensures r.Some? ==> |r.value| <= MaxResults
  {
    match Collect(Flatten(Batches(q, targets, net, order, ratio)), ScorerFor(q, ratio))
    case None => None
    case Some(admitted) => Rank(admitted)
  }

  /** The tracks the gather loop admits for one search. */
  ghost function AdmittedFor(q: string, targets: seq<string>, net: Network, order: seq<nat>, ratio: Ratio): seq<Track>
    requires IsCompletionOrder(order, GlobalPages + |targets|)
  {
    Admitted(Flatten(Batches(q, targets, net, order, ratio)), ScorerFor(q, ratio))
  }

  lemma AggregateIsRank(q: string, targets: seq<string>, net: Network, order: seq<nat>, ratio: Ratio)
    requires IsCompletionOrder(order, GlobalPages + |targets|)
    requires Aggregate(q, targets, net, order, ratio).Some?
    ensures Aggregate(q, targets, net, order, ratio) == Rank(AdmittedFor(q, targets, net, order, ratio))
  {
    CollectCases(Flatten(Batches(q, targets, net, order, ratio)), ScorerFor(q, ratio));
  }

  /** An answer of a search that missed the cache has the first
      min(n, 150) of the n admitted tracks in the order of their stable
      sort, so it is non-increasing by (score, plays). */
  lemma AggregateRanked(q: string, targets: seq<string>, net: Network, order: seq<nat>, ratio: Ratio)
    requires IsCompletionOrder(order, GlobalPages + |targets|)
    requires Aggregate(q, targets, net, order, ratio).Some?
    ensures var r := Aggregate(q, targets, net, order, ratio).value;
            var admitted := AdmittedFor(q, targets, net, order, ratio);
            && |r| == Min(|admitted|, MaxResults)
            && Sorted(r)
            && AllParse(admitted)
            && |r| <= |admitted|
            && r == SortDesc(admitted)[..|r|]
  {
    AggregateIsRank(q, targets, net, order, ratio);
    RankSorted(AdmittedFor(q, targets, net, order, ratio));
  }

  /** Every track of an answer has a truthy id that no other track of the
      answer shares, and a score above the floor. */
  lemma AggregateFiltered(q: string, targets: seq<string>, net: Network, order: seq<nat>, ratio: Ratio)
    requires IsCompletionOrder(order, GlobalPages + |targets|)
    requires Aggregate(q, targets, net, order, ratio).Some?
    ensures var r := Aggregate(q, targets, net, order, ratio).value;
            && DistinctIds(r)
            && forall t :: t in r ==> Truthy(t.id) && t.score.Some? && t.score.value > RelevanceFloor
  {
    AggregateIsRank(q, targets, net, order, ratio);
    var admitted := AdmittedFor(q, targets, net, order, ratio);
    AdmittedDistinct(Flatten(Batches(q, targets, net, order, ratio)), ScorerFor(q, ratio));
    RankDistinct(admitted);
    RankKeepsTop(admitted);
    var r := Rank(admitted).value;
    forall t | t in r ensures t in admitted {
      assert t in multiset(r);
    }
  }

  /** The handler raises exactly when a global page returned a JSON array
      holding something other than a dictionary, or when an admitted
      track's `playback_count` is not an integer. */
  lemma AggregateRaises(q: string, targets: seq<string>, net: Network, order: seq<nat>, ratio: Ratio)
    requires IsCompletionOrder(order, GlobalPages + |targets|)
    ensures var es := Flatten(Batches(q, targets, net, order, ratio));
            Aggregate(q, targets, net, order, ratio).None? <==>
              NonObj in es || !AllParse(Admitted(es, ScorerFor(q, ratio)))
  {
    CollectCases(Flatten(Batches(q, targets, net, order, ratio)), ScorerFor(q, ratio));
  }

  lemma {:induction false} FlattenEmpty(batches: seq<seq<Element>>)
    requires forall i :: 0 <= i < |batches| ==> batches[i] == []
    ensures Flatten(batches) == []
  {
    if batches != [] {
      FlattenEmpty(batches[..|batches| - 1]);
    }
  }

  /** When every fetch fails, the search answers an empty list without
      raising. */
  lemma AllFetchesFail(q: string, targets: seq<string>, net: Network, order: seq<nat>, ratio: Ratio)
    requires IsCompletionOrder(order, GlobalPages + |targets|)
    requires forall r :: net(r) == OtherPayload
    ensures Aggregate(q, targets, net, order, ratio) == Some([])
  {
    var batches := Batches(q, targets, net, order, ratio);
    FlattenEmpty(batches);
  }

  /** What every answer of `search` satisfies: at most 150 tracks,
      non-increasing by (score, plays), distinct truthy ids, and scores
      above the floor. */
  ghost predicate GoodAnswer(r: seq<Track>)
  {
    && |r| <= MaxResults
    && Sorted(r)
    && DistinctIds(r)
    && forall t :: t in r ==> Truthy(t.id) && t.score.Some? && t.score.value > RelevanceFloor
  }

  /** A search that missed the cache and did not raise answers a
      `GoodAnswer`. */
  lemma AggregateGood(q: string, targets: seq<string>, net: Network, order: seq<nat>, ratio: Ratio)
    requires IsCompletionOrder(order, GlobalPages + |targets|)
    requires Aggregate(q, targets, net, order, ratio).Some?
    ensures GoodAnswer(Aggregate(q, targets, net, order, ratio).value)
  {
    AggregateRanked(q, targets, net, order, ratio);
    AggregateFiltered(q, targets, net, order, ratio);
  }

  /** Every entry of cache `m` is a `GoodAnswer`. */
  ghost predicate AllGood(m: map<string, seq<Track>>)
  {
    forall k :: k in m ==> GoodAnswer(m[k])
  }

  /** Storing an answer keeps every cache entry an answer. */
  lemma StoreKeepsGood(m: map<string, seq<Track>>, q: string, r: seq<Track>)
    requires AllGood(m) && GoodAnswer(r)
    ensures AllGood(m[q := r])
  {
  }

  /** The search engine: the shuffled artist list, fixed for the process's
      lifetime, and the result cache keyed by normalized query. */
  class SearchEngine {
    const targets: seq<string>
    var cache: map<string, seq<Track>>

    /** Only answers of `search` are ever stored in the cache. */
    ghost predicate Valid()
      reads this
    {
      AllGood(cache)
    }

    /** Start-up: `shuffled` is the order `random.shuffle` left
        `KnownArtists` in (see `FanOut`); each search uses its first
        `ArtistFanout` names. */
    constructor (shuffled: seq<string>)
      ensures targets == Targets(shuffled)
      ensures cache == map[]
      ensures Valid()
    {
      targets := Targets(shuffled);
      cache := map[];
    }

    /** Entries leave the cache when they expire or are evicted; which keys
        go depends on the clock and the cache's policy, so they are an
        input here. */
    method Expire(keys: set<string>)
      requires Valid()
      modifies this
      ensures cache == old(cache) - keys
      ensures Valid()
    {
      cache := cache - keys;
    }

    /** `search(raw)`: `net` gives each request's parsed response and
        `order` the order in which the fetches complete. */
    method Search(raw: string, net: Network, order: seq<nat>, ratio: Ratio) returns (reply: Reply)
      requires Valid()
      requires IsCompletionOrder(order, GlobalPages + |targets|)
      modifies this
      ensures Valid()
      ensures reply.Found? ==> GoodAnswer(reply.tracks)
      ensures var q := Normalize(raw);
              if |q| < MinQueryLength then
                reply == Found([]) && cache == old(cache)
              else if q in old(cache) then
                reply == Found(old(cache)[q]) && cache == old(cache)
              else
                match Aggregate(q, targets, net, order, ratio)
                case Some(r) => reply == Found(r) && cache == old(cache)[q := r]
                case None => reply == Crashed && cache == old(cache)
    {
      var q := Normalize(raw);
      if |q| < MinQueryLength {
        return Found([]);
      }
      if q in cache {
        return Found(cache[q]);
      }
      var ranked := Compute(q, net, order, ratio);
      if ranked.None? {
        return Crashed;
      }
      StoreKeepsGood(cache, q, ranked.value);
      cache := cache[q := ranked.value];
      reply := Found(ranked.value);
    }

    /** The part of `search` that runs on a cache miss: fetch, gather, sort
        and truncate; `None` when the handler raised. */
    method Compute(q: string, net: Network, order: seq<nat>, ratio: Ratio) returns (ranked: Option<seq<Track>>)
      requires IsCompletionOrder(order, GlobalPages + |targets|)
      ensures ranked == Aggregate(q, targets, net, order, ratio)
      ensures ranked.Some? ==> GoodAnswer(ranked.value)
    {
      var batches := FetchAll(q, targets, net, order, ratio);
      var admitted := Gather(batches, q, ratio);
      if admitted.None? {
        return None;
      }
      ranked := Rank(admitted.value);
      if ranked.Some? {
        AggregateGood(q, targets, net, order, ratio);
      }
    }

    /** Two searches for the same query with no expiry in between give the
        same answer, whatever the network does the second time. */
    method SearchTwice(raw: string, net1: Network, order1: seq<nat>, net2: Network, order2: seq<nat>, ratio: Ratio)
      returns (first: Reply, second: Reply)
      requires Valid()
      requires IsCompletionOrder(order1, GlobalPages + |targets|)
      requires IsCompletionOrder(order2, GlobalPages + |targets|)
      modifies this
      ensures Valid()
      ensures first.Found? ==> second == first
    {
      first := Search(raw, net1, order1, ratio);
      second := Search(raw, net2, order2, ratio);
    }
  }
}
