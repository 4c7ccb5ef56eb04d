/**
 * `KanbanBoard.find_best_match`: fuzzy resolution of a typed name against a
 * list of candidates. The similarity measure (fuzzywuzzy's `fuzz.ratio`,
 * including its own preprocessing) is not modelled: it is passed in as a
 * `Scorer`, any function whose values lie in 0..100.
 */
module Fuzzy {
  import opened Wrappers
  import opened Tokens

  type Scorer = f: (string, string) -> int | forall a, b :: 0 <= f(a, b) <= 100
    witness (a: string, b: string) => 0

  /** The threshold every caller in the source uses (the parameter's default). */
  const DefaultThreshold: int := 90

  /** Score of candidate `k`; both sides are lower-cased before scoring. */
  function ScoreAt(score: Scorer, target: string, cands: seq<string>, k: nat): int
    requires k < |cands|
  {
    score(Lower(target), Lower(cands[k]))
  }

  /**
   * The position `process.extractOne` picks: a candidate of highest score,
   * the first one among equal maxima.
   */
  function BestIndex(score: Scorer, target: string, cands: seq<string>): (k: nat)
    requires |cands| > 0
    ensures k < |cands|
    ensures forall j :: 0 <= j < |cands| ==> ScoreAt(score, target, cands, j) <= ScoreAt(score, target, cands, k)
    ensures forall j :: 0 <= j < k ==> ScoreAt(score, target, cands, j) < ScoreAt(score, target, cands, k)
    decreases |cands|
  {
    if |cands| == 1 then 0
    else
      var n := |cands| - 1;
      var k := BestIndex(score, target, cands[..n]);
      assert forall j :: 0 <= j < n ==> ScoreAt(score, target, cands[..n], j) == ScoreAt(score, target, cands, j);
      if ScoreAt(score, target, cands, n) > ScoreAt(score, target, cands, k) then n else k
  }

  /**
   * `find_best_match(target, cands, threshold)`: the lower-cased best
   * candidate when its score reaches the threshold, otherwise None. The
   * source crashes on an empty candidate list (it unpacks the None that
   * `extractOne` returns), hence the precondition.
   */
  function BestMatch(score: Scorer, target: string, cands: seq<string>, threshold: int): (r: Option<string>)
    requires |cands| > 0
  {
    var k := BestIndex(score, target, cands);
    if ScoreAt(score, target, cands, k) >= threshold then Some(Lower(cands[k])) else None
  }

  /**
   * `find_best_match` returns None exactly when every candidate scores below
   * the threshold; otherwise it returns a lower-cased candidate whose score is
   * maximal and reaches the threshold.
   */
  lemma BestMatchSpec(score: Scorer, target: string, cands: seq<string>, threshold: int)
    requires |cands| > 0
    ensures BestMatch(score, target, cands, threshold).None? <==>
      forall j :: 0 <= j < |cands| ==> ScoreAt(score, target, cands, j) < threshold
    ensures BestMatch(score, target, cands, threshold).Some? ==>
      exists k :: (0 <= k < |cands| && BestMatch(score, target, cands, threshold).value == Lower(cands[k])
        && threshold <= ScoreAt(score, target, cands, k)
        && forall j :: 0 <= j < |cands| ==> ScoreAt(score, target, cands, j) <= ScoreAt(score, target, cands, k))
  {
  }
}
