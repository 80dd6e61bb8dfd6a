/** The six-deck shoe of the round environment: its construction, the
    penetration rule that regenerates it, and the statistics read off the
    cards that remain (per-value fractions, the Hi-Lo running count and the
    true count). The top of the shoe is the LAST element of the sequence. */
module Shoe {
  import opened Cards
  import opened Wrappers

  const NumDecks: nat := 6
  const Penetration: real := 0.25

  /** One suit as the source lists it: ace, 2..9 and four ten-valued cards. */
  const Suit: seq<Card> := [Ace] + PipRun(2, 9) + Tens

  const Tens: seq<Card> := [Pip(10), Pip(10), Pip(10), Pip(10)]

  /** The pips lo, lo+1, ..., hi in ascending order. */
  function PipRun(lo: int, hi: int): (r: seq<Card>)
    ensures |r| == if lo <= hi then hi - lo + 1 else 0
    decreases hi - lo
  {
    if lo > hi then [] else [Pip(lo)] + PipRun(lo + 1, hi)
  }

  /** `s * n` on a list: n copies of s, one after the other. */
  function Repeat(s: seq<Card>, n: nat): seq<Card> {
    if n == 0 then [] else s + Repeat(s, n - 1)
  }

  /** The unshuffled shoe of `decks` decks: the suit four times, that deck `decks` times. */
  function Decks(decks: nat): seq<Card> {
    Repeat(Repeat(Suit, 4), decks)
  }

  function Count(s: seq<Card>, c: Card): nat {
    multiset(s)[c]
  }

  lemma {:induction false} RepeatCount(s: seq<Card>, n: nat, c: Card)
    ensures Count(Repeat(s, n), c) == n * Count(s, c)
    ensures |Repeat(s, n)| == n * |s|
  {
    if n > 0 {
      RepeatCount(s, n - 1, c);
      assert multiset(s + Repeat(s, n - 1)) == multiset(s) + multiset(Repeat(s, n - 1));
      assert Count(Repeat(s, n), c) == Count(s, c) + (n - 1) * Count(s, c);
      assert |Repeat(s, n)| == |s| + (n - 1) * |s|;
    }
  }

  lemma RepeatAllShoeCards(s: seq<Card>, n: nat)
    requires AllShoeCards(s)
    ensures AllShoeCards(Repeat(s, n))
  {
    if n > 0 {
      RepeatAllShoeCards(s, n - 1);
      var r := Repeat(s, n);
      forall i | 0 <= i < |r| ensures IsShoeCard(r[i]) {
        if i >= |s| { assert r[i] == Repeat(s, n - 1)[i - |s|]; }
      }
    }
  }

  lemma {:induction false} PipRunContents(lo: int, hi: int, c: Card)
    ensures Count(PipRun(lo, hi), c) == if c.Pip? && lo <= c.rank <= hi then 1 else 0
    ensures forall i :: 0 <= i < |PipRun(lo, hi)| ==> PipRun(lo, hi)[i] == Pip(lo + i)
    decreases hi - lo
  {
    if lo <= hi {
      PipRunContents(lo + 1, hi, c);
      assert multiset(PipRun(lo, hi)) == multiset{Pip(lo)} + multiset(PipRun(lo + 1, hi));
    }
  }

  /** How often a card occurs in one suit: the ace and each pip 2..9 once, the ten four times. */
  function SuitMultiplicity(c: Card): nat {
    if c == Ace then 1 else if c == Pip(10) then 4 else if c.Pip? && 2 <= c.rank <= 9 then 1 else 0
  }

  lemma CountConcat(a: seq<Card>, b: seq<Card>, c: Card)
    ensures Count(a + b, c) == Count(a, c) + Count(b, c)
  {
    assert multiset(a + b) == multiset(a) + multiset(b);
  }

  /** A suit laid out as an ace, a run of pips and four tens counts each part. */
  lemma SuitLayoutCount(pips: seq<Card>, c: Card)
    ensures Count([Ace] + pips + Tens, c)
      == (if c == Ace then 1 else 0) + Count(pips, c) + (if c == Pip(10) then 4 else 0)
  {
    CountConcat([Ace], pips, c);
    CountConcat([Ace] + pips, Tens, c);
    assert Count([Ace], c) == if c == Ace then 1 else 0;
    assert Count(Tens, c) == if c == Pip(10) then 4 else 0;
  }

  lemma SuitCount(c: Card)
    ensures Count(Suit, c) == SuitMultiplicity(c)
  {
    var pips := PipRun(2, 9);
    PipRunContents(2, 9, c);
    assert Count(pips, c) == if c.Pip? && 2 <= c.rank <= 9 then 1 else 0;
    SuitLayoutCount(pips, c);
    assert Suit == [Ace] + pips + Tens;
  }

  lemma SuitShoeCards()
    ensures |Suit| == 13 && AllShoeCards(Suit)
  {
    PipRunContents(2, 9, Ace);
    forall i | 0 <= i < 13 ensures IsShoeCard(Suit[i]) {
      if 1 <= i < 9 { assert Suit[i] == PipRun(2, 9)[i - 1]; }
    }
  }

  /** `d` decks hold 52d cards, each card 4d times per occurrence in the suit. */
  lemma {:induction false} DecksContents(d: nat, c: Card)
    ensures |Decks(d)| == d * 52 && AllShoeCards(Decks(d))
    ensures Count(Decks(d), c) == d * (4 * SuitMultiplicity(c))
  {
    SuitShoeCards();
    SuitCount(c);
    RepeatAllShoeCards(Suit, 4);
    RepeatAllShoeCards(Repeat(Suit, 4), d);
    RepeatCount(Suit, 4, c);
    RepeatCount(Repeat(Suit, 4), d, c);
  }

  /** A fresh six-deck shoe has 312 cards: 24 aces, 24 of each pip 2..9 and 96 tens. */
  lemma FreshShoeContents()
    ensures |Decks(NumDecks)| == 312 && AllShoeCards(Decks(NumDecks))
    ensures forall c :: Count(Decks(NumDecks), c) == 24 * SuitMultiplicity(c)
  {
    DecksContents(NumDecks, Ace);
    forall c ensures Count(Decks(NumDecks), c) == 24 * SuitMultiplicity(c) {
      DecksContents(NumDecks, c);
    }
  }

  /** The regeneration test `len(deck) <= penetration * 52 * num_deck`. */
  predicate NeedsReshuffle(deck: seq<Card>) {
    (|deck| as real) <= Penetration * 52.0 * (NumDecks as real)
  }

  /** The penetration threshold is 78 cards. */
  lemma ReshuffleThreshold(deck: seq<Card>)
    ensures NeedsReshuffle(deck) <==> |deck| <= 78
  {
  }

  /** Hi-Lo running count of the cards that remain: tens and aces count +1, pips 2..6 count -1. */
  function RunningCount(s: seq<Card>): int {
    Count(s, Ace) + Count(s, Pip(10))
    - (Count(s, Pip(2)) + Count(s, Pip(3)) + Count(s, Pip(4)) + Count(s, Pip(5)) + Count(s, Pip(6)))
  }

  /** The running count divided by the decks that remain (0 for an empty shoe). */
  function TrueCount(s: seq<Card>): real {
    if |s| > 0 then (RunningCount(s) as real) / ((|s| as real) / 52.0) else 0.0
  }

  /** A shuffle of the fresh six-deck shoe, stated card by card: every card
      occurs 24 times for each time it occurs in a suit. This is how the
      model receives `random.shuffle`'s result: as any such arrangement. */
  ghost predicate IsShuffledShoe(s: seq<Card>) {
    forall c :: Count(s, c) == 24 * SuitMultiplicity(c)
  }

  /** Being a shuffled shoe is being a permutation of the unshuffled six decks. */
  lemma ShuffledShoeIsPermutation(s: seq<Card>)
    ensures IsShuffledShoe(s) <==> multiset(s) == multiset(Decks(NumDecks))
  {
    FreshShoeContents();
    if IsShuffledShoe(s) {
      assert forall c :: multiset(s)[c] == multiset(Decks(NumDecks))[c] by {
        forall c ensures multiset(s)[c] == multiset(Decks(NumDecks))[c] {
          assert Count(s, c) == Count(Decks(NumDecks), c);
        }
      }
    }
  }

  /** A shuffled shoe has 312 shoe cards and a Hi-Lo count of zero. */
  lemma ShuffledShoeFacts(s: seq<Card>)
    requires IsShuffledShoe(s)
    ensures |s| == 312 && AllShoeCards(s) && RunningCount(s) == 0
    ensures Count(s, Ace) == 24 && Count(s, Pip(10)) == 96
  {
    ShuffledShoeSize(s);
    assert Count(s, Ace) == 24 && Count(s, Pip(10)) == 96;
    assert Count(s, Pip(2)) == 24 && Count(s, Pip(3)) == 24 && Count(s, Pip(4)) == 24;
    assert Count(s, Pip(5)) == 24 && Count(s, Pip(6)) == 24;
  }

  lemma ShuffledShoeSize(s: seq<Card>)
    requires IsShuffledShoe(s)
    ensures |s| == 312 && AllShoeCards(s)
  {
    ShuffledShoeIsPermutation(s);
    FreshShoeContents();
    PermutedShoeCards(s, Decks(NumDecks));
    assert |s| == |multiset(s)| == |multiset(Decks(NumDecks))| == |Decks(NumDecks)|;
  }

  /** `create_deck`: a fresh shoe (the caller's shuffle of the six decks) when
      at most 78 cards remain, the current shoe otherwise. */
  function CreateDeck(deck: seq<Card>, shuffled: seq<Card>): (r: seq<Card>)
    requires IsShuffledShoe(shuffled)
    ensures |deck| <= 78 ==> IsShuffledShoe(r) && |r| == 312 && AllShoeCards(r)
    ensures |deck| <= 78 ==> Count(r, Ace) == 24 && Count(r, Pip(10)) == 96 && RunningCount(r) == 0
    ensures |deck| > 78 ==> r == deck
  {
    ReshuffleThreshold(deck);
    if NeedsReshuffle(deck) then
      ShuffledShoeFacts(shuffled);
      shuffled
    else
      deck
  }

  /** A permutation of a deck of shoe cards holds only shoe cards. */
  lemma PermutedShoeCards(s: seq<Card>, t: seq<Card>)
    requires multiset(s) == multiset(t) && AllShoeCards(t)
    ensures AllShoeCards(s)
  {
    forall i | 0 <= i < |s| ensures IsShoeCard(s[i]) {
      assert s[i] in multiset(t);
      var j :| 0 <= j < |t| && t[j] == s[i];
    }
  }

  /** The card counted under value v (2..11; 11 is the ace). */
  function CardOfValue(v: int): Card {
    if v == 11 then Ace else Pip(v)
  }

  /** Number of remaining cards counted under value v. */
  function CountValue(s: seq<Card>, v: int): nat {
    Count(s, CardOfValue(v))
  }

  lemma CountSnoc(init: seq<Card>, last: Card, c: Card)
    ensures Count(init + [last], c) == Count(init, c) + (if c == last then 1 else 0)
  {
    assert multiset(init + [last]) == multiset(init) + multiset{last};
  }

  /** Cards counted under the values v..11. */
  function CountValuesFrom(s: seq<Card>, v: int): nat
    decreases 12 - v
  {
    if v > 11 then 0 else CountValue(s, v) + CountValuesFrom(s, v + 1)
  }

  lemma {:induction false} CountValuesFromSnoc(init: seq<Card>, last: Card, v: int)
    requires IsShoeCard(last) && 2 <= v
    ensures CountValuesFrom(init + [last], v)
            == CountValuesFrom(init, v) + (if v <= HighValue(last) then 1 else 0)
    decreases 12 - v
  {
    if v <= 11 {
      CountSnoc(init, last, CardOfValue(v));
      assert CardOfValue(v) == last <==> v == HighValue(last);
      CountValuesFromSnoc(init, last, v + 1);
    }
  }

  /** Every shoe card is counted under exactly one value, so the counts add up to the shoe size. */
  lemma {:induction false} ValueCountsCoverShoe(s: seq<Card>)
    requires AllShoeCards(s)
    ensures CountValuesFrom(s, 2) == |s|
  {
    if s == [] {
      ZeroCountsFrom(s, 2);
    } else {
      var init, last := s[..|s| - 1], s[|s| - 1];
      assert s == init + [last];
      ValueCountsCoverShoe(init);
      CountValuesFromSnoc(init, last, 2);
    }
  }

  lemma {:induction false} ZeroCountsFrom(s: seq<Card>, v: int)
    requires s == []
    ensures CountValuesFrom(s, v) == 0
    decreases 12 - v
  {
    if v <= 11 { ZeroCountsFrom(s, v + 1); }
  }

  lemma DivAdd(a: real, b: real, n: real)
    requires n > 0.0
    ensures a / n + b / n == (a + b) / n
  {
  }

  /** Fractions of the remaining cards counted under the values v..11. */
  function FractionsFrom(s: seq<Card>, v: int): real
    requires s != []
    decreases 12 - v
  {
    if v > 11 then 0.0 else (CountValue(s, v) as real) / (|s| as real) + FractionsFrom(s, v + 1)
  }

  lemma {:induction false} FractionsFromIsRatio(s: seq<Card>, v: int)
    requires s != []
    ensures FractionsFrom(s, v) == (CountValuesFrom(s, v) as real) / (|s| as real)
    decreases 12 - v
  {
    if v <= 11 {
      FractionsFromIsRatio(s, v + 1);
      DivAdd(CountValue(s, v) as real, CountValuesFrom(s, v + 1) as real, |s| as real);
    }
  }

  /** The ten per-value fractions of a non-empty shoe sum to one. */
  lemma FractionsSumToOne(s: seq<Card>)
    requires AllShoeCards(s) && s != []
    ensures FractionsFrom(s, 2) == 1.0
  {
    ValueCountsCoverShoe(s);
    FractionsFromIsRatio(s, 2);
    SelfRatio(CountValuesFrom(s, 2), |s|);
  }

  lemma SelfRatio(a: nat, n: nat)
    requires a == n && n > 0
    ensures (a as real) / (n as real) == 1.0
  {
  }

  /** The counting loop of `get_deck_distribution`: how many remaining cards have each value 2..11. */
  method CountByValue(deck: seq<Card>) returns (counts: seq<nat>)
    requires AllShoeCards(deck)
    ensures |counts| == 10
    ensures forall j :: 0 <= j < 10 ==> counts[j] == CountValue(deck, j + 2)
  {
    counts := [0, 0, 0, 0, 0, 0, 0, 0, 0, 0];
    var i := 0;
    while i < |deck|
      invariant 0 <= i <= |deck| && |counts| == 10
      invariant forall j :: 0 <= j < 10 ==> counts[j] == CountValue(deck[..i], j + 2)
    {
      var v := HighValue(deck[i]);
      forall w | 2 <= w <= 11
        ensures CountValue(deck[..i + 1], w) == CountValue(deck[..i], w) + (if w == v then 1 else 0)
      {
        assert deck[..i + 1] == deck[..i] + [deck[i]];
        CountSnoc(deck[..i], deck[i], CardOfValue(w));
      }
      counts := counts[v - 2 := counts[v - 2] + 1];
      i := i + 1;
    }
    assert deck[..i] == deck;
  }

  /** `get_deck_distribution`: the fraction of each value 2..11 among the
      remaining cards and, for betting, the running count, the true count,
      the decks remaining and the card count. An empty shoe raises
      (division by zero) and gives None. */
  method GetDeckDistribution(deck: seq<Card>, betting: bool) returns (r: Option<seq<real>>)
    requires AllShoeCards(deck)
    ensures r.None? <==> deck == []
    ensures r.Some? ==> |r.value| == (if betting then 14 else 10)
    ensures r.Some? ==> forall j :: 0 <= j < 10 ==>
      r.value[j] == (CountValue(deck, j + 2) as real) / (|deck| as real)
    ensures r.Some? && betting ==>
      r.value[10] == RunningCount(deck) as real && r.value[11] == TrueCount(deck)
      && r.value[12] == (|deck| as real) / 52.0 && r.value[13] == |deck| as real
  {
    var counts := CountByValue(deck);
    if |deck| == 0 {
      return None;
    }
    var total := |deck| as real;
    var percentages := seq(10, j requires 0 <= j < 10 => counts[j] as real / total);
    var low: int := counts[0] + counts[1] + counts[2] + counts[3] + counts[4];
    var high: int := counts[8] + counts[9];
    var runningCount: int := -(low - high);
    assert runningCount == RunningCount(deck);
    var decksRemaining := total / 52.0;
    var trueCount := if decksRemaining > 0.0 then runningCount as real / decksRemaining else 0.0;
    if betting {
      r := Some(percentages + [runningCount as real, trueCount, decksRemaining, total]);
    } else {
      r := Some(percentages);
    }
  }
}
