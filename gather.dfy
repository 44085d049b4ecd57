/** The gather loop of `search`: the result lists of the fetchers are
    drained in completion order; every dictionary with a truthy, not yet
    admitted `id` gets a score if it has none, and is admitted when that
    score is above the floor. Only admission records the id. */
module Gathering {
  import opened Tracks
  import opened Scoring

  /** The track as the gather loop leaves it: an existing `_score` is kept,
      a missing one is computed. */
  function WithScore(t: Track, scoreOf: Scorer): (r: Track)
    ensures r.(score := t.score) == t
    ensures t.score.Some? ==> r == t
    ensures t.score.None? ==> r.score == Some(scoreOf(t))
  {
    if t.score.Some? then t else t.(score := Some(scoreOf(t)))
  }

  /** Element `e` passes the checks that do not depend on what came before:
      a dictionary with a truthy `id` whose score is above the floor. */
  predicate Eligible(e: Element, scoreOf: Scorer)
  {
    e.Obj? && Truthy(e.track.id) && WithScore(e.track, scoreOf).score.value > RelevanceFloor
  }

  /** The loop's state: the `results` list and the `seen_ids` set. */
  datatype Gathered = Gathered(results: seq<Track>, seen: set<Id>)

  /** One iteration of the inner loop. `None` is the state after an
      element that is not a dictionary made `t.get` raise. */
  function Step(g: Option<Gathered>, e: Element, scoreOf: Scorer): (r: Option<Gathered>)
    ensures g.None? || e.NonObj? <==> r.None?
    ensures r.Some? && r != g ==>
              && Eligible(e, scoreOf)
              && e.track.id !in g.value.seen
              && r.value.results == g.value.results + [WithScore(e.track, scoreOf)]
              && r.value.seen == g.value.seen + {e.track.id}
    ensures g.Some? && Eligible(e, scoreOf) && e.track.id !in g.value.seen ==> r.Some? && r != g
  {
    match g
    case None => None
    case Some(st) =>
      match e
      case NonObj => None
      case Obj(t) =>
        if Truthy(t.id) && t.id !in st.seen then
          var scored := WithScore(t, scoreOf);
          if scored.score.value > RelevanceFloor then Some(Gathered(st.results + [scored], st.seen + {t.id}))
          else g
        else g
  }

  /** The loop run over the elements `es` in order. */
  function Run(es: seq<Element>, scoreOf: Scorer): Option<Gathered>
  {
    if es == [] then Some(Gathered([], {})) else Step(Run(es[..|es| - 1], scoreOf), es[|es| - 1], scoreOf)
  }

  /** One step of the inner loop: running one more element of the current
      batch applies `Step` to the state reached so far. */
  lemma RunStep(done: seq<Element>, tracks: seq<Element>, j: int, scoreOf: Scorer)
    requires 0 <= j < |tracks|
    ensures Run(done + tracks[..j + 1], scoreOf) == Step(Run(done + tracks[..j], scoreOf), tracks[j], scoreOf)
  {
    var next := done + tracks[..j + 1];
    assert next[..|next| - 1] == done + tracks[..j] && next[|next| - 1] == tracks[j];
  }

  /** The elements of all batches, batch after batch. */
  function Flatten(batches: seq<seq<Element>>): seq<Element>
  {
    if batches == [] then [] else Flatten(batches[..|batches| - 1]) + batches[|batches| - 1]
  }

  /** The admitted list, or `None` when the loop raised. */
  function Collect(es: seq<Element>, scoreOf: Scorer): Option<seq<Track>>
  {
    match Run(es, scoreOf)
    case None => None
    case Some(g) => Some(g.results)
  }

  // ---------------------------------------------------------------------
  // An independent description of what the loop admits.

  /** Element `k` is the first eligible arrival of its id: it is eligible
      and no earlier ELIGIBLE element has the same id. Earlier elements
      with that id that were rejected do not count. */
  ghost predicate FirstEligible(es: seq<Element>, k: int, scoreOf: Scorer)
  {
    0 <= k < |es| && Eligible(es[k], scoreOf) &&
    forall j :: 0 <= j < k && Eligible(es[j], scoreOf) ==> es[j].track.id != es[k].track.id
  }

  /** The ids of the eligible elements of `es`. */
  ghost function EligibleIds(es: seq<Element>, scoreOf: Scorer): set<Id>
  {
    set k | 0 <= k < |es| && Eligible(es[k], scoreOf) :: es[k].track.id
  }

  /** The first eligible arrivals, scored, in arrival order. */
  ghost function Admitted(es: seq<Element>, scoreOf: Scorer): (r: seq<Track>)
    ensures forall t :: t in r ==> Truthy(t.id) && t.score.Some? && t.score.value > RelevanceFloor
  {
    if es == [] then []
    else
      Admitted(es[..|es| - 1], scoreOf) +
      (if FirstEligible(es, |es| - 1, scoreOf) then [WithScore(es[|es| - 1].track, scoreOf)] else [])
  }

  lemma EligibleIdsSnoc(es: seq<Element>, scoreOf: Scorer)
    requires es != []
    ensures var init, last := es[..|es| - 1], es[|es| - 1];
            EligibleIds(es, scoreOf) ==
              EligibleIds(init, scoreOf) + (if Eligible(last, scoreOf) then {last.track.id} else {})
  {
    var init, last := es[..|es| - 1], es[|es| - 1];
    forall id | id in EligibleIds(es, scoreOf)
      ensures id in EligibleIds(init, scoreOf) || (Eligible(last, scoreOf) && id == last.track.id)
    {
      var k :| 0 <= k < |es| && Eligible(es[k], scoreOf) && es[k].track.id == id;
      if k < |init| {
        assert init[k] == es[k];
      }
    }
    forall id | id in EligibleIds(init, scoreOf) ensures id in EligibleIds(es, scoreOf) {
      var k :| 0 <= k < |init| && Eligible(init[k], scoreOf) && init[k].track.id == id;
      assert es[k] == init[k];
    }
    if Eligible(last, scoreOf) {
      assert es[|es| - 1] == last;
    }
  }

  /** The last element is a first eligible arrival exactly when it is
      eligible and its id is not among the earlier eligible ids. */
  lemma FirstEligibleLast(es: seq<Element>, scoreOf: Scorer)
    requires es != []
    ensures var init, last := es[..|es| - 1], es[|es| - 1];
            FirstEligible(es, |es| - 1, scoreOf) <==>
              Eligible(last, scoreOf) && last.track.id !in EligibleIds(init, scoreOf)
  {
    var init, last := es[..|es| - 1], es[|es| - 1];
    if Eligible(last, scoreOf) && last.track.id in EligibleIds(init, scoreOf) {
      var k :| 0 <= k < |init| && Eligible(init[k], scoreOf) && init[k].track.id == last.track.id;
      assert es[k] == init[k];
    }
  }

  /** Running the loop over dictionaries only admits exactly the first
      eligible arrivals and records exactly the eligible ids. */
  lemma {:induction false} RunAdmits(es: seq<Element>, scoreOf: Scorer)
    requires forall k :: 0 <= k < |es| ==> es[k].Obj?
    ensures Run(es, scoreOf) == Some(Gathered(Admitted(es, scoreOf), EligibleIds(es, scoreOf)))
  {
    if es != [] {
      var init, last := es[..|es| - 1], es[|es| - 1];
      assert forall k :: 0 <= k < |init| ==> init[k] == es[k];
      RunAdmits(init, scoreOf);
      EligibleIdsSnoc(es, scoreOf);
      FirstEligibleLast(es, scoreOf);
      var g := Gathered(Admitted(init, scoreOf), EligibleIds(init, scoreOf));
      assert Run(es, scoreOf) == Step(Some(g), last, scoreOf);
      var t := last.track;
      if Eligible(last, scoreOf) && t.id !in g.seen {
        assert Admitted(es, scoreOf) == g.results + [WithScore(t, scoreOf)];
      } else {
        assert Admitted(es, scoreOf) == g.results;
        assert EligibleIds(es, scoreOf) == g.seen;
        assert Step(Some(g), last, scoreOf) == Some(g);
      }
    } else {
      assert EligibleIds(es, scoreOf) == {};
    }
  }

  /** Once an element that is not a dictionary is reached, the loop has
      raised, whatever follows. */
  lemma {:induction false} RunRaises(es: seq<Element>, scoreOf: Scorer)
    requires NonObj in es
    ensures Run(es, scoreOf) == None
  {
    var init, last := es[..|es| - 1], es[|es| - 1];
    assert es == init + [last];
    if last != NonObj {
      RunRaises(init, scoreOf);
    }
  }

  lemma {:induction false} FlattenHas(batches: seq<seq<Element>>, i: int, j: int)
    requires 0 <= i < |batches| && 0 <= j < |batches[i]|
    ensures batches[i][j] in Flatten(batches)
  {
    var init := batches[..|batches| - 1];
    if i < |init| {
      assert init[i] == batches[i];
      FlattenHas(init, i, j);
    }
  }

  /** A track is admitted exactly when it is the scored form of a first
      eligible arrival. */
  lemma {:induction false} AdmittedMembers(es: seq<Element>, scoreOf: Scorer, t: Track)
    ensures t in Admitted(es, scoreOf) <==>
              exists k :: FirstEligible(es, k, scoreOf) && t == WithScore(es[k].track, scoreOf)
  {
    if es != [] {
      var init, last := es[..|es| - 1], es[|es| - 1];
      AdmittedMembers(init, scoreOf, t);
      assert forall k :: 0 <= k < |init| ==> init[k] == es[k];
      assert forall k :: FirstEligible(init, k, scoreOf) <==> FirstEligible(es, k, scoreOf) && k < |init|;
    }
  }

  /** Every admitted id is the id of an eligible element. */
  lemma AdmittedIds(es: seq<Element>, scoreOf: Scorer)
    ensures forall t :: t in Admitted(es, scoreOf) ==> t.id in EligibleIds(es, scoreOf)
  {
    forall t | t in Admitted(es, scoreOf) ensures t.id in EligibleIds(es, scoreOf) {
      AdmittedMembers(es, scoreOf, t);
      var k :| FirstEligible(es, k, scoreOf) && t == WithScore(es[k].track, scoreOf);
    }
  }

  /** No two admitted tracks share an id. */
  lemma {:induction false} AdmittedDistinct(es: seq<Element>, scoreOf: Scorer)
    ensures DistinctIds(Admitted(es, scoreOf))
  {
    if es != [] {
      var init, last := es[..|es| - 1], es[|es| - 1];
      AdmittedDistinct(init, scoreOf);
      if FirstEligible(es, |es| - 1, scoreOf) {
        FirstEligibleLast(es, scoreOf);
        AdmittedIds(init, scoreOf);
        var a := Admitted(init, scoreOf);
        assert forall i :: 0 <= i < |a| ==> a[i] in a;
      }
    }
  }

  /** An element that is eligible is admitted unless an earlier ELIGIBLE
      element had its id: earlier elements with the same id that were
      rejected (no score above the floor) do not block it. */
  lemma RejectedDoNotBlock(es: seq<Element>, k: nat, scoreOf: Scorer)
    requires k < |es| && Eligible(es[k], scoreOf)
    requires forall j :: 0 <= j < k && es[j].Obj? && es[j].track.id == es[k].track.id ==> !Eligible(es[j], scoreOf)
    ensures WithScore(es[k].track, scoreOf) in Admitted(es, scoreOf)
  {
    AdmittedMembers(es, scoreOf, WithScore(es[k].track, scoreOf));
  }

  /** An admitted track that arrived with a `_score` keeps it unchanged. */
  lemma AdmittedKeepsScore(es: seq<Element>, k: nat, scoreOf: Scorer)
    requires FirstEligible(es, k, scoreOf) && es[k].track.score.Some?
    ensures es[k].track in Admitted(es, scoreOf)
  {
    AdmittedMembers(es, scoreOf, es[k].track);
  }

  /** The loop raises exactly when some element is not a dictionary;
      otherwise it returns the first eligible arrivals. */
  lemma CollectCases(es: seq<Element>, scoreOf: Scorer)
    ensures Collect(es, scoreOf) == if NonObj in es then None else Some(Admitted(es, scoreOf))
  {
    if NonObj in es {
      RunRaises(es, scoreOf);
    } else {
      RunAdmits(es, scoreOf);
    }
  }

  /** The gather loop over the batches in completion order; `None` when an
      element that is not a dictionary makes it raise. */
  method Gather(batches: seq<seq<Element>>, q: string, ratio: Ratio) returns (admitted: Option<seq<Track>>)
    ensures admitted == Collect(Flatten(batches), ScorerFor(q, ratio))
  {
    ghost var scoreOf := ScorerFor(q, ratio);
    var results: seq<Track> := [];
    var seen: set<Id> := {};
    for i := 0 to |batches|
      invariant Run(Flatten(batches[..i]), scoreOf) == Some(Gathered(results, seen))
    {
      var tracks := batches[i];
      ghost var done := Flatten(batches[..i]);
      assert done + tracks[..0] == done;
      for j := 0 to |tracks|
        invariant Run(done + tracks[..j], scoreOf) == Some(Gathered(results, seen))
      {
        RunStep(done, tracks, j, scoreOf);
        if tracks[j].NonObj? {
          FlattenHas(batches, i, j);
          RunRaises(Flatten(batches), scoreOf);
          return None;
        }
        var t := tracks[j].track;
        var tid := t.id;
        if Truthy(tid) && tid !in seen {
          if t.score.None? {
            var score := Score(q, t, ratio);
            assert score == scoreOf(t);
            t := t.(score := Some(score));
          }
          if t.score.value > RelevanceFloor {
            seen := seen + {tid};
            results := results + [t];
          }
        }
      }
      assert batches[..i + 1][..i] == batches[..i];
      assert tracks[..|tracks|] == tracks;
    }
    assert batches[..|batches|] == batches;
    admitted := Some(results);
  }
}
