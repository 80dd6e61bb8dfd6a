/** Cards and hands as every blackjack model in this project sees them: a card
    is an ace or a pip carrying its face value (all ten-valued cards are the
    pip 10, as the source writes them), and a hand is the sequence of its
    cards in the order they were dealt. */
module Cards {

  datatype Card = Ace | Pip(rank: int)

  /** A card of the six-deck and two-deck shoes: an ace or a pip 2..10. */
  predicate IsShoeCard(c: Card) {
    c.Ace? || 2 <= c.rank <= 10
  }

  predicate AllShoeCards(s: seq<Card>) {
    forall i :: 0 <= i < |s| ==> IsShoeCard(s[i])
  }

  /** The value of a card with an ace counted high, as every hand-value loop first counts it. */
  function HighValue(c: Card): int {
    if c.Ace? then 11 else c.rank
  }

  /** Sum of the hand with every ace counted as 11. */
  function RawSum(hand: seq<Card>): int {
    if hand == [] then 0 else RawSum(hand[..|hand| - 1]) + HighValue(hand[|hand| - 1])
  }

  function AceCount(hand: seq<Card>): (n: nat)
    ensures n <= |hand|
  {
    if hand == [] then 0 else AceCount(hand[..|hand| - 1]) + (if hand[|hand| - 1].Ace? then 1 else 0)
  }

  /** The ace-reducing loop: while the total is over 21 and some ace is still
      counted high, take `step` off the total. The result is the final total
      and the number of aces still counted high. It takes off exactly one
      `step` per reduced ace, it only stops early when the total is at most
      21, and it never reduces an ace once the total has reached 21 or less. */
  function Reduce(score: int, aces: nat, step: int): (r: (int, nat))
    ensures r.1 <= aces
    ensures r.0 + step * (aces - r.1) == score
    ensures r.0 > 21 ==> r.1 == 0
    ensures r.1 < aces ==> r.0 + step > 21
    decreases aces
  {
    if score > 21 && aces > 0 then
      var r := Reduce(score - step, aces - 1, step);
      assert step * (aces - r.1) == step + step * (aces - 1 - r.1);
      r
    else
      (score, aces)
  }

  /** Hand total with aces reduced by `step` (10 in a correct count). */
  function Total(hand: seq<Card>, step: int): int {
    Reduce(RawSum(hand), AceCount(hand), step).0
  }

  /** Number of aces still counted as 11 once the total is reduced: the soft flag is this being positive. */
  function HighAces(hand: seq<Card>, step: int): nat {
    Reduce(RawSum(hand), AceCount(hand), step).1
  }

  /** The blackjack hand value: aces count 11, reduced to 1 while the hand is over 21. */
  function HandValue(hand: seq<Card>): int {
    Total(hand, 10)
  }

  predicate IsBust(hand: seq<Card>) {
    HandValue(hand) > 21
  }

  /** The loop every hand-value routine runs: sum the cards with aces high,
      then reduce aces one at a time while the total is over 21. */
  method ReducedTotal(hand: seq<Card>, step: int) returns (score: int, aces: nat)
    ensures (score, aces) == Reduce(RawSum(hand), AceCount(hand), step)
  {
    score, aces := 0, 0;
    var i := 0;
    while i < |hand|
      invariant 0 <= i <= |hand|
      invariant score == RawSum(hand[..i]) && aces == AceCount(hand[..i])
    {
      assert hand[..i + 1][..i] == hand[..i];
      if hand[i] == Ace {
        score, aces := score + 11, aces + 1;
      } else {
        score := score + hand[i].rank;
      }
      i := i + 1;
    }
    assert hand[..i] == hand;
    while score > 21 && aces > 0
      invariant Reduce(score, aces, step) == Reduce(RawSum(hand), AceCount(hand), step)
      decreases aces
    {
      score, aces := score - step, aces - 1;
    }
  }

  /** With a reduction of 10, a hand whose all-aces-low count is at most 21 never reads as bust. */
  lemma HandValueAtMost21(hand: seq<Card>)
    requires RawSum(hand) - 10 * AceCount(hand) <= 21
    ensures HandValue(hand) <= 21
  {
  }

  /** A total over 21 means every ace is already counted as 1. */
  lemma BustMeansAllAcesLow(hand: seq<Card>)
    requires HandValue(hand) > 21
    ensures HighAces(hand, 10) == 0 && HandValue(hand) == RawSum(hand) - 10 * AceCount(hand)
  {
  }

  /** The pair the source compares hands with, as a set: a ten and an ace. */
  const BlackjackSet: set<Card> := {Pip(10), Ace}

  /** The set of distinct cards in a hand (`set(hand)` in the source). */
  function CardSet(hand: seq<Card>): set<Card> {
    set i | 0 <= i < |hand| :: hand[i]
  }

  /** A natural: exactly two cards whose set is {10, ace}. */
  predicate IsNatural(hand: seq<Card>) {
    |hand| == 2 && CardSet(hand) == BlackjackSet
  }

  /** A natural is one ten and one ace, and is worth 21. */
  lemma {:induction false} NaturalIsTwentyOne(hand: seq<Card>)
    requires IsNatural(hand)
    ensures (hand[0] == Ace && hand[1] == Pip(10)) || (hand[0] == Pip(10) && hand[1] == Ace)
    ensures HandValue(hand) == 21
  {
    assert CardSet(hand) == {hand[0], hand[1]};
    assert Ace in CardSet(hand) && Pip(10) in CardSet(hand);
    assert hand[..1][..0] == [] && hand[..|hand| - 1] == hand[..1];
    assert RawSum(hand[..1]) == HighValue(hand[0]) && AceCount(hand[..1]) == (if hand[0].Ace? then 1 else 0);
    assert RawSum(hand) == 21 && AceCount(hand) == 1;
  }

  /** The first k cards popped from the end of `deck`, in the order they come off. */
  function Popped(deck: seq<Card>, k: nat): (r: seq<Card>)
    requires k <= |deck|
    ensures |r| == k
    ensures forall j :: 0 <= j < k ==> r[j] == deck[|deck| - 1 - j]
  {
    if k == 0 then [] else Popped(deck, k - 1) + [deck[|deck| - k]]
  }
}
