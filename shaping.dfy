/** The reward-shaping bonus added to the agent's reward during training: a
    few hand-written nudges towards basic strategy and towards doubling at a
    high true count, summed and clamped to [-0.5, 0.5]. Amounts are exact
    reals. */
module Shaping {

  /** Python's `int(x)` on a float: the integer part, truncated toward zero. */
  function TruncToInt(x: real): (n: int)
    ensures x >= 0.0 ==> n as real <= x < n as real + 1.0
    ensures x < 0.0 ==> n as real - 1.0 < x <= n as real
  {
    if x >= 0.0 then x.Floor else -((-x).Floor)
  }

  /** The first six observation features, each read as an integer. */
  datatype Features = Features(numCards: int, score: int, isSoft: int, dealer: int, canSplit: int, canDouble: int)

  function ReadFeatures(state: seq<real>): Features
    requires |state| >= 6
  {
    Features(TruncToInt(state[0]), TruncToInt(state[1]), TruncToInt(state[2]),
             TruncToInt(state[3]), TruncToInt(state[4]), TruncToInt(state[5]))
  }

  const HitAction: int := 0
  const DoubleAction: int := 2
  const SplitAction: int := 3

  /** Splitting a pair of tens (a splittable 20). */
  predicate SplitsTens(f: Features, action: int) {
    f.canSplit != 0 && action == SplitAction && f.score == 20
  }

  /** Splitting a pair of aces (a splittable soft 12). */
  predicate SplitsAces(f: Features, action: int) {
    f.canSplit != 0 && f.score == 12 && f.isSoft == 1 && action == SplitAction
  }

  /** Hitting a hard 17 or more. */
  predicate HitsHardSeventeen(f: Features, action: int) {
    f.isSoft == 0 && f.score >= 17 && action == HitAction
  }

  /** A two-card 10 or 11 that may double against a dealer 2..9, at a true count of 3 or more. */
  predicate HighCountDoubleSpot(f: Features, trueCount: real) {
    trueCount >= 3.0 && f.canDouble != 0 && f.numCards == 2 && f.score in {10, 11} && 2 <= f.dealer <= 9
  }

  /** Doubling at a true count of 0 or less. */
  predicate LowCountDouble(action: int, trueCount: real) {
    trueCount <= 0.0 && action == DoubleAction
  }

  /** The unclamped bonus: each rule that fires adds its amount. */
  function RawBonus(f: Features, action: int, trueCount: real): real {
    (if SplitsTens(f, action) then -0.4 else 0.0)
    + (if SplitsAces(f, action) then 0.2 else 0.0)
    + (if HitsHardSeventeen(f, action) then -0.4 else 0.0)
    + (if HighCountDoubleSpot(f, trueCount) then (if action == DoubleAction then 0.2 else -0.1) else 0.0)
    + (if LowCountDouble(action, trueCount) then -0.05 else 0.0)
  }

  function Clamp(x: real): (r: real)
    ensures -0.5 <= r <= 0.5
    ensures -0.5 <= x <= 0.5 ==> r == x
  {
    if x > 0.5 then 0.5 else if x < -0.5 then -0.5 else x
  }

  /** `shaping_bonus(state, action, true_count)`; the source unpacks the
      first six features, so it needs at least six. */
  function ShapingBonus(state: seq<real>, action: int, trueCount: real): (r: real)
    requires |state| >= 6
    ensures -0.5 <= r <= 0.5
  {
    Clamp(RawBonus(ReadFeatures(state), action, trueCount))
  }

  /** When no rule fires, the bonus is zero. */
  lemma NoRuleNoBonus(state: seq<real>, action: int, trueCount: real)
    requires |state| >= 6
    requires var f := ReadFeatures(state);
      !SplitsTens(f, action) && !SplitsAces(f, action) && !HitsHardSeventeen(f, action)
      && !HighCountDoubleSpot(f, trueCount) && !LowCountDouble(action, trueCount)
    ensures ShapingBonus(state, action, trueCount) == 0.0
  {
  }

  /** Splitting a splittable 20 costs exactly 0.4, and splitting a splittable soft 12 earns exactly 0.2. */
  lemma SplitRules(state: seq<real>, trueCount: real)
    requires |state| >= 6
    ensures SplitsTens(ReadFeatures(state), SplitAction) ==> ShapingBonus(state, SplitAction, trueCount) == -0.4
    ensures SplitsAces(ReadFeatures(state), SplitAction) ==> ShapingBonus(state, SplitAction, trueCount) == 0.2
  {
  }

  /** Hitting a hard 17 or more costs exactly 0.4. */
  lemma HitHardSeventeenRule(state: seq<real>, trueCount: real)
    requires |state| >= 6 && HitsHardSeventeen(ReadFeatures(state), HitAction)
    ensures ShapingBonus(state, HitAction, trueCount) == -0.4
  {
  }

  /** At a high count with a two-card 10 or 11 against 2..9, doubling earns
      0.2 and every other action costs 0.1. */
  lemma HighCountDoubleRule(state: seq<real>, action: int, trueCount: real)
    requires |state| >= 6 && HighCountDoubleSpot(ReadFeatures(state), trueCount)
    ensures ShapingBonus(state, action, trueCount) == if action == DoubleAction then 0.2 else -0.1
  {
  }

  /** Doubling at a count of 0 or less costs exactly 0.05. */
  lemma LowCountDoubleRule(state: seq<real>, trueCount: real)
    requires |state| >= 6 && LowCountDouble(DoubleAction, trueCount)
    ensures ShapingBonus(state, DoubleAction, trueCount) == -0.05
  {
  }

  /** The two true-count rules never fire together. */
  lemma CountRulesExclusive(f: Features, action: int, trueCount: real)
    ensures !(HighCountDoubleSpot(f, trueCount) && LowCountDouble(action, trueCount))
  {
  }

  /** Features are truncated toward zero, not floored: a feature of -0.5 reads as 0. */
  lemma TruncationTowardZero(x: real)
    requires -1.0 < x < 1.0
    ensures TruncToInt(x) == 0
  {
  }
}
