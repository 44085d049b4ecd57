/** What the two fetchers (`fetch_global`, `fetch_artist`) do once the
    response body has been parsed. The HTTP request itself is not part of
    this model: its parsed body arrives as a `Payload`. */
module Fetchers {
  import opened Tracks
  import opened Scoring

  /** The dictionary-valued elements of `vs`, in order. */
  function Objects(vs: seq<Element>): (r: seq<Element>)
    ensures forall e :: e in r <==> e in vs && e.Obj?
  {
    if vs == [] then [] else (if vs[0].Obj? then [vs[0]] else []) + Objects(vs[1..])
  }

  /** `Objects` keeps order: filtering a concatenation concatenates the
      filtered parts. */
  lemma {:induction false} ObjectsAppend(a: seq<Element>, b: seq<Element>)
    ensures Objects(a + b) == Objects(a) + Objects(b)
  {
    if a == [] {
      assert a + b == b;
    } else {
      assert (a + b)[1..] == a[1..] + b;
      ObjectsAppend(a[1..], b);
    }
  }

  /** `fetch_global` after parsing: a JSON array is returned as it is, with
      whatever elements it holds; of a JSON object only the values that are
      themselves objects are kept, in order; anything else gives `[]`. */
  function FetchGlobal(p: Payload): (r: seq<Element>)
    ensures p.ListPayload? ==> r == p.elems
    ensures p.DictPayload? ==> r == Objects(p.values) && |r| <= |p.values|
    ensures p.DictPayload? ==> forall e :: e in r ==> e.Obj?
    ensures p.OtherPayload? ==> r == []
  {
    match p
    case ListPayload(elems) => elems
    case DictPayload(values) => ObjectsLength(values); Objects(values)
    case OtherPayload => []
  }

  lemma {:induction false} ObjectsLength(vs: seq<Element>)
    ensures |Objects(vs)| <= |vs|
  {
    if vs != [] {
      ObjectsLength(vs[1..]);
    }
  }

  /** The track as `fetch_artist` keeps it: `_score` overwritten with the
      score it computed. */
  function Tagged(t: Track, scoreOf: Scorer): Track
  {
    t.(score := Some(scoreOf(t)))
  }

  /** Whether `fetch_artist` keeps element `e` of a list payload. */
  predicate ArtistKeeps(e: Element, scoreOf: Scorer)
  {
    e.Obj? && scoreOf(e.track) > RelevanceFloor
  }

  /** The tracks `fetch_artist` keeps from the elements `es` of a list
      payload, in order, each tagged with its score. */
  function ArtistKeep(es: seq<Element>, scoreOf: Scorer): (r: seq<Track>)
    ensures forall t :: t in r ==> t.score.Some? && t.score.value > RelevanceFloor
    ensures |r| <= |es|
  {
    if es == [] then []
    else
      ArtistKeep(es[..|es| - 1], scoreOf) + Kept(es[|es| - 1], scoreOf)
  }

  /** What `fetch_artist` appends for one element. */
  function Kept(e: Element, scoreOf: Scorer): (r: seq<Track>)
    ensures forall t :: t in r ==> t.score.Some? && t.score.value > RelevanceFloor
    ensures |r| <= 1
  {
    if ArtistKeeps(e, scoreOf) then [Tagged(e.track, scoreOf)] else []
  }

  /** Element `k` of `es` is kept by `fetch_artist` and becomes `t`. */
  ghost predicate KeptAt(es: seq<Element>, k: int, t: Track, scoreOf: Scorer)
  {
    0 <= k < |es| && ArtistKeeps(es[k], scoreOf) && t == Tagged(es[k].track, scoreOf)
  }

  /** A kept track is exactly a tagged dictionary element of the payload
      whose score is above the floor. */
  lemma {:induction false} ArtistKeepMembers(es: seq<Element>, scoreOf: Scorer, t: Track)
    ensures t in ArtistKeep(es, scoreOf) <==> exists k :: KeptAt(es, k, t, scoreOf)
  {
    if es != [] {
      var init, last := es[..|es| - 1], es[|es| - 1];
      ArtistKeepMembers(init, scoreOf, t);
      assert t in ArtistKeep(es, scoreOf) <==> t in ArtistKeep(init, scoreOf) || t in Kept(last, scoreOf);
      assert forall k :: KeptAt(init, k, t, scoreOf) <==> KeptAt(es, k, t, scoreOf) && k < |init|;
      assert t in Kept(last, scoreOf) <==> KeptAt(es, |init|, t, scoreOf);
    }
  }

  /** `ArtistKeep` keeps order: filtering a concatenation concatenates the
      filtered parts. */
  lemma {:induction false} ArtistKeepAppend(a: seq<Element>, b: seq<Element>, scoreOf: Scorer)
    ensures ArtistKeep(a + b, scoreOf) == ArtistKeep(a, scoreOf) + ArtistKeep(b, scoreOf)
  {
    if b == [] {
      assert a + b == a;
    } else {
      var ab, init, last := a + b, b[..|b| - 1], b[|b| - 1];
      assert ab[..|ab| - 1] == a + init;
      assert ab[|ab| - 1] == last;
      calc {
        ArtistKeep(ab, scoreOf);
        ArtistKeep(a + init, scoreOf) + Kept(last, scoreOf);
        { ArtistKeepAppend(a, init, scoreOf); }
        ArtistKeep(a, scoreOf) + ArtistKeep(init, scoreOf) + Kept(last, scoreOf);
        ArtistKeep(a, scoreOf) + ArtistKeep(b, scoreOf);
      }
    }
  }

  /** `fetch_artist` on a parsed payload: only a JSON array yields tracks. */
  function ArtistMatches(p: Payload, scoreOf: Scorer): (r: seq<Track>)
    ensures !p.ListPayload? ==> r == []
    ensures forall t :: t in r ==> t.score.Some? && t.score.value > RelevanceFloor
  {
    if p.ListPayload? then ArtistKeep(p.elems, scoreOf) else []
  }

  /** The loop of `fetch_artist`: walk the array, skip what is not a
      dictionary, score the rest and append, with `_score` set, those that
      score above the floor. */
  method FetchArtist(p: Payload, q: string, ratio: Ratio) returns (matches: seq<Track>)
    ensures matches == ArtistMatches(p, ScorerFor(q, ratio))
    ensures forall t :: t in matches ==> t.score.Some? && t.score.value > RelevanceFloor
    ensures !p.ListPayload? ==> matches == []
  {
    matches := [];
    if p.ListPayload? {
      var data := p.elems;
      ghost var scoreOf := ScorerFor(q, ratio);
      var i := 0;
      while i < |data|
        invariant 0 <= i <= |data|
        invariant matches == ArtistKeep(data[..i], scoreOf)
      {
        ArtistKeepStep(data, i, scoreOf);
        if data[i].Obj? {
          var t := data[i].track;
          var score := Score(q, t, ratio);
          assert score == scoreOf(t);
          if score > RelevanceFloor {
            matches := matches + [t.(score := Some(score))];
          }
        }
        i := i + 1;
      }
      assert data[..i] == data;
    }
  }

  /** One step of the `fetch_artist` loop: the prefix grows by what element
      `i` contributes. */
  lemma ArtistKeepStep(es: seq<Element>, i: int, scoreOf: Scorer)
    requires 0 <= i < |es|
    ensures ArtistKeep(es[..i + 1], scoreOf) == ArtistKeep(es[..i], scoreOf) + Kept(es[i], scoreOf)
  {
    assert es[..i + 1][..i] == es[..i];
  }
}
