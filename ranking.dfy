/** Ranking and truncation in `search`:
    `results.sort(key=lambda x: (x.get('_score', 0), int(x.get('playback_count', 0))), reverse=True)`
    followed by `results[:150]`. Python's sort is stable, also with
    `reverse=True`: tracks with equal keys keep their arrival order. */
module Ranking {
  import opened Tracks

  const MaxResults: nat := 150

  /** `int()` accepts the track's `playback_count`. */
  predicate Parses(t: Track)
  {
    t.plays != Unparsable
  }

  ghost predicate AllParse(s: seq<Track>)
  {
    forall t :: t in s ==> Parses(t)
  }

  /** `int(x.get('playback_count', 0))`. */
  function Plays(t: Track): (n: int)
    requires Parses(t)
    ensures t.plays.NoCount? ==> n == 0
    ensures t.plays.Count? ==> n == t.plays.n
  {
    match t.plays
    case NoCount => 0
    case Count(n) => n
  }

  /** `x.get('_score', 0)`. */
  function ScoreKey(t: Track): (s: real)
    ensures t.score.None? ==> s == 0.0
    ensures t.score.Some? ==> s == t.score.value
  {
    if t.score.Some? then t.score.value else 0.0
  }

  /** `a`'s key is at least `b`'s in the lexicographic order on
      (score, plays): `a` may come before `b` in the descending order. */
  predicate RanksAtLeast(a: Track, b: Track)
    requires Parses(a) && Parses(b)
  {
    ScoreKey(a) > ScoreKey(b) || (ScoreKey(a) == ScoreKey(b) && Plays(a) >= Plays(b))
  }

  /** `t` may precede `u` in the ranked list. */
  ghost predicate RankedAbove(t: Track, u: Track)
  {
    Parses(t) && Parses(u) && RanksAtLeast(t, u)
  }

  /** Non-increasing by (score, plays). */
  ghost predicate Sorted(s: seq<Track>)
  {
    AllParse(s) && forall i, j :: 0 <= i < j < |s| ==> RanksAtLeast(s[i], s[j])
  }

  /** Where a stable descending sort puts `x` after the sorted `xs`: past
      every track whose key is at least `x`'s. */
  function InsertPos(xs: seq<Track>, x: Track): (k: nat)
    requires AllParse(xs) && Parses(x)
    ensures k <= |xs|
    ensures forall i :: 0 <= i < k ==> RanksAtLeast(xs[i], x)
    ensures k < |xs| ==> !RanksAtLeast(xs[k], x)
  {
    if xs == [] || !RanksAtLeast(xs[0], x) then 0 else 1 + InsertPos(xs[1..], x)
  }

  function Insert(xs: seq<Track>, x: Track): (r: seq<Track>)
    requires AllParse(xs) && Parses(x)
    ensures |r| == |xs| + 1
  {
    var k := InsertPos(xs, x);
    xs[..k] + [x] + xs[k..]
  }

  /** Inserting adds `x` and loses nothing. */
  lemma InsertMultiset(xs: seq<Track>, x: Track)
    requires AllParse(xs) && Parses(x)
    ensures multiset(Insert(xs, x)) == multiset(xs) + multiset{x}
  {
    var k := InsertPos(xs, x);
    assert xs == xs[..k] + xs[k..];
  }

  /** The stable descending sort: the tracks inserted one by one in
      arrival order. */
  function SortDesc(s: seq<Track>): (r: seq<Track>)
    requires AllParse(s)
    ensures multiset(r) == multiset(s)
    ensures |r| == |s|
  {
    if s == [] then []
    else
      var init, last := s[..|s| - 1], s[|s| - 1];
      assert s == init + [last];
      var sorted := SortDesc(init);
      assert forall t :: t in sorted ==> t in multiset(init);
      InsertMultiset(sorted, last);
      Insert(sorted, last)
  }

  /** Every track after the insertion point ranks strictly below `x`. */
  lemma BelowInsertPos(xs: seq<Track>, x: Track)
    requires Sorted(xs) && Parses(x)
    ensures forall j :: InsertPos(xs, x) <= j < |xs| ==> !RanksAtLeast(xs[j], x)
  {
  }

  lemma SortedInsert(xs: seq<Track>, x: Track)
    requires Sorted(xs) && Parses(x)
    ensures Sorted(Insert(xs, x))
  {
    var k := InsertPos(xs, x);
    var r := Insert(xs, x);
    assert r == xs[..k] + [x] + xs[k..];
    assert |r| == |xs| + 1;
    assert forall i :: 0 <= i < k ==> r[i] == xs[i];
    assert r[k] == x;
    assert forall i :: k < i < |r| ==> r[i] == xs[i - 1];
    forall t | t in r ensures Parses(t) {
      assert t in multiset(r);
    }
    BelowInsertPos(xs, x);
    forall i, j | 0 <= i < j < |r| ensures RanksAtLeast(r[i], r[j]) {
      if j < k {
        assert RanksAtLeast(xs[i], xs[j]);
      } else if j == k {
        assert RanksAtLeast(xs[i], x);
      } else if i < k {
        assert RanksAtLeast(xs[i], xs[j - 1]);
      } else if i == k {
        assert !RanksAtLeast(xs[j - 1], x);
      } else {
        assert RanksAtLeast(xs[i - 1], xs[j - 1]);
      }
    }
  }

  /** The result of the sort is non-increasing by (score, plays). */
  lemma {:induction false} SortDescSorted(s: seq<Track>)
    requires AllParse(s)
    ensures Sorted(SortDesc(s))
  {
    if s != [] {
      var init := s[..|s| - 1];
      assert forall t :: t in init ==> t in s;
      SortDescSorted(init);
      SortedInsert(SortDesc(init), s[|s| - 1]);
    }
  }

  // ---------------------------------------------------------------------
  // Stability: for every key, the tracks with that key appear in the sorted
  // list in the order they arrived.

  /** The sort key of a track: `(_score, playback_count)`. */
  datatype Key = Key(score: real, plays: int)

  function KeyOf(t: Track): Key
    requires Parses(t)
  {
    Key(ScoreKey(t), Plays(t))
  }

  predicate HasKey(t: Track, key: Key)
  {
    Parses(t) && KeyOf(t) == key
  }

  /** The tracks of `s` whose sort key is `key`, in order. */
  function WithKey(s: seq<Track>, key: Key): seq<Track>
  {
    if s == [] then [] else (if HasKey(s[0], key) then [s[0]] else []) + WithKey(s[1..], key)
  }

  lemma {:induction false} WithKeyAppend(a: seq<Track>, b: seq<Track>, key: Key)
    ensures WithKey(a + b, key) == WithKey(a, key) + WithKey(b, key)
  {
    if a == [] {
      assert a + b == b;
    } else {
      assert (a + b)[1..] == a[1..] + b;
      WithKeyAppend(a[1..], b, key);
    }
  }

  lemma {:induction false} WithKeyNone(s: seq<Track>, key: Key)
    requires forall i :: 0 <= i < |s| ==> !HasKey(s[i], key)
    ensures WithKey(s, key) == []
  {
    if s != [] {
      WithKeyNone(s[1..], key);
    }
  }

  lemma WithKeySplice(front: seq<Track>, x: Track, back: seq<Track>, key: Key)
    ensures WithKey(front + [x] + back, key) ==
              WithKey(front, key) + WithKey([x], key) + WithKey(back, key)
  {
    WithKeyAppend(front + [x], back, key);
    WithKeyAppend(front, [x], key);
  }

  lemma SwapEmpty(a: seq<Track>, m: seq<Track>, b: seq<Track>)
    requires m == [] || b == []
    ensures a + m + b == a + b + m
  {
  }

  lemma WithKeySingle(x: Track, key: Key)
    ensures WithKey([x], key) == if HasKey(x, key) then [x] else []
  {
    assert [x][1..] == [];
  }

  /** No track after the insertion point of `x` shares its key. */
  lemma NoKeyPastInsertPos(xs: seq<Track>, x: Track, key: Key)
    requires Sorted(xs) && Parses(x) && HasKey(x, key)
    ensures WithKey(xs[InsertPos(xs, x)..], key) == []
  {
    var k := InsertPos(xs, x);
    var back := xs[k..];
    BelowInsertPos(xs, x);
    forall i | 0 <= i < |back| ensures !HasKey(back[i], key) {
      assert !RanksAtLeast(xs[k + i], x);
    }
    WithKeyNone(back, key);
  }

  lemma WithKeySplit(xs: seq<Track>, k: nat, key: Key)
    requires k <= |xs|
    ensures WithKey(xs, key) == WithKey(xs[..k], key) + WithKey(xs[k..], key)
  {
    assert xs == xs[..k] + xs[k..];
    WithKeyAppend(xs[..k], xs[k..], key);
  }

  /** Inserting `x` into a sorted list puts it after every track with the
      same key. */
  lemma InsertStable(xs: seq<Track>, x: Track, key: Key)
    requires Sorted(xs) && Parses(x)
    ensures WithKey(Insert(xs, x), key) == WithKey(xs, key) + WithKey([x], key)
  {
    var k := InsertPos(xs, x);
    WithKeySplice(xs[..k], x, xs[k..], key);
    WithKeySplit(xs, k, key);
    WithKeySingle(x, key);
    if HasKey(x, key) {
      NoKeyPastInsertPos(xs, x, key);
    }
    SwapEmpty(WithKey(xs[..k], key), WithKey([x], key), WithKey(xs[k..], key));
  }

  /** The sort is stable: for every key, the tracks with that key keep their
      relative order. */
  lemma {:induction false} SortDescStable(s: seq<Track>, key: Key)
    requires AllParse(s)
    ensures WithKey(SortDesc(s), key) == WithKey(s, key)
  {
    if s != [] {
      var init, last := s[..|s| - 1], s[|s| - 1];
      assert forall t :: t in init ==> t in s;
      assert s == init + [last];
      SortDescStable(init, key);
      SortDescSorted(init);
      InsertStable(SortDesc(init), last, key);
      WithKeyAppend(init, [last], key);
    }
  }

  // ---------------------------------------------------------------------
  // Distinct ids survive the sort.

  lemma InsertDistinct(xs: seq<Track>, x: Track)
    requires AllParse(xs) && Parses(x)
    requires DistinctIds(xs) && forall t :: t in xs ==> t.id != x.id
    ensures DistinctIds(Insert(xs, x))
  {
    var k := InsertPos(xs, x);
    var r := Insert(xs, x);
    assert r == xs[..k] + [x] + xs[k..];
    forall i, j | 0 <= i < j < |r| ensures r[i].id != r[j].id {
      var a := if i < k then i else if i == k then -1 else i - 1;
      var b := if j < k then j else if j == k then -1 else j - 1;
      assert a == -1 ==> r[i] == x;
      assert a != -1 ==> 0 <= a < |xs| && r[i] == xs[a];
      assert b == -1 ==> r[j] == x;
      assert b != -1 ==> 0 <= b < |xs| && r[j] == xs[b];
      if a != -1 && b != -1 {
        assert a < b;
      } else if a != -1 {
        assert xs[a] in xs;
      } else if b != -1 {
        assert xs[b] in xs;
      }
    }
  }

  lemma {:induction false} SortDescDistinct(s: seq<Track>)
    requires AllParse(s) && DistinctIds(s)
    ensures DistinctIds(SortDesc(s))
  {
    if s != [] {
      var init, last := s[..|s| - 1], s[|s| - 1];
      assert forall t :: t in init ==> t in s;
      SortDescDistinct(init);
      var sorted := SortDesc(init);
      assert forall t :: t in sorted ==> t in multiset(init);
      forall t | t in sorted ensures t.id != last.id {
        assert t in multiset(init);
        var i :| 0 <= i < |init| && init[i] == t;
        assert s[i] == t;
      }
      InsertDistinct(sorted, last);
    }
  }

  // ---------------------------------------------------------------------
  // Ranking and truncation.

  function Min(a: int, b: int): int
  {
    if a <= b then a else b
  }

  /** Sort and keep the first `MaxResults`; `None` when some admitted
      track's `playback_count` makes `int()` raise. */
  function Rank(admitted: seq<Track>): (r: Option<seq<Track>>)
    ensures r.Some? <==> AllParse(admitted)
    ensures r.Some? ==> |r.value| == Min(|admitted|, MaxResults)
  {
    if forall t :: t in admitted ==> Parses(t) then
      var sorted := SortDesc(admitted);
      assert |sorted| == |multiset(sorted)| == |admitted|;
      Some(sorted[..Min(|sorted|, MaxResults)])
    else
      None
  }

  /** The ranked list is non-increasing by (score, plays) and is a prefix
      of the stable sort of everything admitted. */
  lemma RankSorted(admitted: seq<Track>)
    requires AllParse(admitted)
    ensures var r := Rank(admitted).value;
            Sorted(r) && r == SortDesc(admitted)[..|r|]
  {
    SortDescSorted(admitted);
  }

  /** The ranked list holds only admitted tracks, all of them when there are
      at most `MaxResults`, and no dropped track ranks above a kept one. */
  lemma RankKeepsTop(admitted: seq<Track>)
    requires AllParse(admitted)
    ensures var r := Rank(admitted).value;
            multiset(r) <= multiset(admitted) &&
            (|admitted| <= MaxResults ==> multiset(r) == multiset(admitted)) &&
            forall t, u :: t in r && u in multiset(admitted) - multiset(r) ==> RankedAbove(t, u)
  {
    var sorted := SortDesc(admitted);
    var r := Rank(admitted).value;
    var n := |r|;
    SortDescSorted(admitted);
    assert sorted == r + sorted[n..];
    assert multiset(sorted) == multiset(r) + multiset(sorted[n..]);
    forall t, u | t in r && u in multiset(admitted) - multiset(r) ensures RankedAbove(t, u) {
      assert u in sorted[n..];
      var i :| 0 <= i < n && r[i] == t;
      var j :| 0 <= j < |sorted[n..]| && sorted[n..][j] == u;
      assert sorted[i] == t && sorted[n + j] == u;
    }
  }

  /** Ranking keeps ids distinct. */
  lemma RankDistinct(admitted: seq<Track>)
    requires AllParse(admitted) && DistinctIds(admitted)
    ensures DistinctIds(Rank(admitted).value)
  {
    SortDescDistinct(admitted);
  }
}
