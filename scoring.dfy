/** The relevance scorer (`calculate_score`). */
module Scoring {
  import opened Text
  import opened Tracks

  /** `fuzz.token_set_ratio` from the foreign rapidfuzz library: the model
      takes it as an arbitrary function and assumes nothing about it. */
  type Ratio = (string, string) -> real

  const ExactScore: real := 100.0
  const SplitScore: real := 95.0
  const DownloadBonus: real := 5.0

  /** Tracks must score strictly above this to be kept, both by the artist
      fetcher and by the gather loop. */
  const RelevanceFloor: real := 45.0

  /** The text rule 2 and rule 3 search: lower-cased title, a space, and
      the lower-cased username. */
  function Combined(t: Track): (r: string)
    ensures |r| == |t.title| + 1 + |t.username|
    ensures r[..|t.title|] == Lower(t.title) && r[|t.title|] == ' '
    ensures r[|t.title| + 1..] == Lower(t.username)
  {
    Lower(t.title) + " " + Lower(t.username)
  }

  /** The words of the combined text are the title's words followed by the
      username's: the joining space never glues two words together. */
  lemma CombinedWords(t: Track)
    ensures Words(Combined(t)) == Words(Lower(t.title)) + Words(Lower(t.username))
  {
    assert Combined(t) == Lower(t.title) + [' '] + Lower(t.username);
    WordsSep(Lower(t.title), ' ', Lower(t.username));
  }

  /** Rule 1: the query occurs in the lower-cased title. */
  ghost predicate ExactMatch(q: string, t: Track)
  {
    Occurs(Lower(t.title), q)
  }

  /** Rule 2: the query has at least two words and each of them occurs in
      the combined text, in any order and not necessarily adjacent. */
  ghost predicate SplitMatch(q: string, t: Track)
  {
    |Words(q)| > 1 && forall w :: w in Words(q) ==> Occurs(Combined(t), w)
  }

  /** Python's `all(part in s for part in parts)`. */
  function ContainsAll(s: string, parts: seq<string>): (b: bool)
    ensures b <==> forall w :: w in parts ==> Occurs(s, w)
  {
    if parts == [] then true else Contains(s, parts[0]) && ContainsAll(s, parts[1..])
  }

  /** Relevance of track `t` to the normalized query `q`. The first two
      rules return early, so the download bonus reaches only the fuzzy
      score of rule 3. */
  function Score(q: string, t: Track, ratio: Ratio): (r: real)
    ensures ExactMatch(q, t) ==> r == ExactScore
    ensures !ExactMatch(q, t) && SplitMatch(q, t) ==> r == SplitScore
    ensures !ExactMatch(q, t) && !SplitMatch(q, t) ==>
              r == ratio(q, Combined(t)) + (if t.hasDownload then DownloadBonus else 0.0)
  {
    var combined := Combined(t);
    if Contains(Lower(t.title), q) then ExactScore
    else
      var parts := Words(q);
      if |parts| > 1 && ContainsAll(combined, parts) then
        SplitScore
      else
        var score := ratio(q, combined);
        if t.hasDownload then score + DownloadBonus else score
  }

  /** A relevance function on tracks, as the pipeline applies it. */
  type Scorer = Track -> real

  /** `calculate_score` with the query (and the fuzzy ratio) fixed. */
  function ScorerFor(q: string, ratio: Ratio): Scorer
  {
    t => Score(q, t, ratio)
  }

  /** Setting `download_url` changes the score by exactly the bonus when
      neither early rule fires, and not at all otherwise. */
  lemma DownloadBonusOnlyFuzzy(q: string, t: Track, ratio: Ratio)
    ensures var with := Score(q, t.(hasDownload := true), ratio);
            var without := Score(q, t.(hasDownload := false), ratio);
            with == without + (if ExactMatch(q, t) || SplitMatch(q, t) then 0.0 else DownloadBonus)
  {
    assert Combined(t.(hasDownload := true)) == Combined(t) == Combined(t.(hasDownload := false));
  }

  /** A one-word query never takes rule 2: it scores 100 when it occurs in
      the title and the fuzzy score otherwise. */
  lemma OneWordQuery(q: string, t: Track, ratio: Ratio)
    requires q != []
    requires forall k :: 0 <= k < |q| ==> !IsSpace(q[k])
    ensures Score(q, t, ratio) ==
              if ExactMatch(q, t) then ExactScore
              else ratio(q, Combined(t)) + (if t.hasDownload then DownloadBonus else 0.0)
  {
    SingleWord(q);
  }

  // The scenario of a downloadable track "Wakhra Swag Remix" by "djX"
  // searched with the scrambled query "swag wakhra": rule 2 fires and the
  // score is 95, with no download bonus. The lemmas below evaluate the
  // string operations on these literals one step at a time.

  lemma WordsWakhra()
    ensures Words("wakhra") == ["wakhra"]
  {
    SingleWord("wakhra");
  }
  lemma WordsLeadingSpace()
    ensures Words(" wakhra") == Words("wakhra")
  {
    assert " wakhra"[1..] == "wakhra";
  }
  lemma WordsSwagFirst()
    ensures Words("swag wakhra") == ["swag"] + Words(" wakhra")
  {
    var q := "swag wakhra";
    assert WordLength(" wakhra") == 0;
    assert "g wakhra"[1..] == " wakhra";
    assert WordLength("g wakhra") == 1;
    assert WordLength(q) == 4;
    assert q[..4] == "swag" && q[4..] == " wakhra";
  }
  lemma NotInTitle()
    ensures !Occurs("wakhra swag remix", "swag wakhra")
  {
    var title, q := "wakhra swag remix", "swag wakhra";
    forall i ensures !OccursAt(title, q, i) {
      if 0 <= i && i + |q| <= |title| {
        assert title[i..i + |q|][0] == title[i] != q[0];
      }
    }
  }
  lemma SplitQuery()
    ensures Words("swag wakhra") == ["swag", "wakhra"]
  {
    WordsWakhra(); WordsLeadingSpace(); WordsSwagFirst();
  }
  lemma LowerTitle()
    ensures Lower("Wakhra Swag Remix") == "wakhra swag remix"
  {
  }
  lemma LowerUser()
    ensures Lower("djX") == "djx"
  {
  }
  lemma CombinedExample()
    ensures Combined(Track(IntId(42), "Wakhra Swag Remix", "djX", true, Count(1000), None)) == "wakhra swag remix djx"
  {
    LowerTitle(); LowerUser();
  }
  lemma OccursSwag()
    ensures Occurs("wakhra swag remix djx", "swag")
  {
    var c := "wakhra swag remix djx";
    assert c[7..11] == "swag";
    assert OccursAt(c, "swag", 7);
  }
  lemma OccursWakhra()
    ensures Occurs("wakhra swag remix djx", "wakhra")
  {
    var c := "wakhra swag remix djx";
    assert c[0..6] == "wakhra";
    assert OccursAt(c, "wakhra", 0);
  }
  lemma AllWordsExample()
    ensures forall w :: w in Words("swag wakhra") ==> Occurs("wakhra swag remix djx", w)
  {
    SplitQuery();
    OccursSwag();
    OccursWakhra();
  }
  lemma WakhraSwagExample(ratio: Ratio)
    ensures Score("swag wakhra", Track(IntId(42), "Wakhra Swag Remix", "djX", true, Count(1000), None), ratio) == SplitScore
  {
    var t := Track(IntId(42), "Wakhra Swag Remix", "djX", true, Count(1000), None);
    LowerTitle(); NotInTitle(); CombinedExample();
    AllWordsExample(); SplitQuery();
  }
}
