/** The dealer's fixed drawing rule and the comparison of a finished player
    hand against the dealer, shared by the single-hand and the split-hand
    settlements of the environment. */
module Showdown {
  import opened Cards

  /** The dealer's draw: while the dealer's total (aces reduced by `step`) is
      under 17, take the top card of the deck. The result is the final dealer
      hand, the remaining deck, and whether the dealer finished; it is false
      only when the deck ran out first, where the source's `pop` raises. */
  function DealerPlay(dealer: seq<Card>, deck: seq<Card>, step: int): (seq<Card>, seq<Card>, bool)
    decreases |deck|
  {
    if Total(dealer, step) >= 17 then (dealer, deck, true)
    else if deck == [] then (dealer, deck, false)
    else DealerPlay(dealer + [deck[|deck| - 1]], deck[..|deck| - 1], step)
  }

  /** The dealer draws the top cards of the deck, in order, and nothing else;
      it stops at the first total of 17 or more, and it stops early only on
      an empty deck. */
  lemma {:induction false} DealerPlayFacts(dealer: seq<Card>, deck: seq<Card>, step: int)
    ensures var r := DealerPlay(dealer, deck, step);
      && |r.1| <= |deck| && r.1 == deck[..|r.1|]
      && |r.0| == |dealer| + (|deck| - |r.1|) && r.0[..|dealer|] == dealer
      && (forall j :: |dealer| <= j < |r.0| ==> r.0[j] == deck[|deck| - 1 - (j - |dealer|)])
      && (r.2 <==> Total(r.0, step) >= 17)
      && (!r.2 ==> r.1 == [])
      && (forall j :: |dealer| <= j < |r.0| ==> Total(r.0[..j], step) < 17)
    decreases |deck|
  {
    var r := DealerPlay(dealer, deck, step);
    if Total(dealer, step) < 17 && deck != [] {
      var d', k' := dealer + [deck[|deck| - 1]], deck[..|deck| - 1];
      DealerPlayFacts(d', k', step);
      assert r == DealerPlay(d', k', step);
      assert r.0[..|d'|] == d';
      assert r.0[..|dealer|] == d'[..|dealer|] == dealer;
      forall j | |dealer| <= j < |r.0|
        ensures r.0[j] == deck[|deck| - 1 - (j - |dealer|)]
        ensures Total(r.0[..j], step) < 17
      {
        if j == |dealer| {
          assert r.0[j] == d'[j];
          assert r.0[..j] == dealer;
        }
      }
    }
  }

  /** The dealer's draw moves cards from the deck to the dealer's hand, losing none and making none. */
  lemma {:induction false} DealerPlayConserves(dealer: seq<Card>, deck: seq<Card>, step: int)
    ensures var r := DealerPlay(dealer, deck, step);
      multiset(r.0) + multiset(r.1) == multiset(dealer) + multiset(deck)
    ensures AllShoeCards(dealer) && AllShoeCards(deck) ==>
      AllShoeCards(DealerPlay(dealer, deck, step).0) && AllShoeCards(DealerPlay(dealer, deck, step).1)
    decreases |deck|
  {
    if Total(dealer, step) < 17 && deck != [] {
      var d', k' := dealer + [deck[|deck| - 1]], deck[..|deck| - 1];
      DealerPlayConserves(d', k', step);
      assert deck == k' + [deck[|deck| - 1]];
      assert multiset(d') + multiset(k') == multiset(dealer) + multiset(deck);
    }
  }

  /** The comparison of a finished player hand with the dealer's: a natural
      is paid `naturalPays` unless the dealer also holds one (a push); then a
      dealer bust wins, a higher total wins, a lower one loses and equal
      totals push. */
  function Showdown(player: seq<Card>, dealer: seq<Card>, naturalPays: real): real {
    if IsNatural(player) then (if IsNatural(dealer) then 0.0 else naturalPays)
    else if HandValue(dealer) > 21 then 1.0
    else if HandValue(player) > HandValue(dealer) then 1.0
    else if HandValue(player) < HandValue(dealer) then -1.0
    else 0.0
  }

  /** `compare_hands`: a natural on a single hand pays 3 to 2. */
  function HandOutcome(player: seq<Card>, dealer: seq<Card>): real {
    Showdown(player, dealer, 1.5)
  }

  /** The per-hand result of `compare_split_hands`: a busted hand loses, and a
      natural after a split pays only even money. */
  function SplitResult(hand: seq<Card>, dealer: seq<Card>): real {
    if IsBust(hand) then -1.0 else Showdown(hand, dealer, 1.0)
  }

  /** A showdown yields a loss, a push, a win or the natural payment, nothing else. */
  lemma ShowdownRange(player: seq<Card>, dealer: seq<Card>, naturalPays: real)
    ensures var r := Showdown(player, dealer, naturalPays);
      r == -1.0 || r == 0.0 || r == 1.0 || r == naturalPays
    ensures IsNatural(player) ==> Showdown(player, dealer, naturalPays) == (if IsNatural(dealer) then 0.0 else naturalPays)
    ensures IsNatural(player) && naturalPays >= 0.0 ==> Showdown(player, dealer, naturalPays) >= 0.0
  {
  }

  /** Between two ordinary hands that are both standing, the comparison is
      zero-sum: swapping player and dealer negates the result. */
  lemma ShowdownAntisymmetric(a: seq<Card>, b: seq<Card>, x: real, y: real)
    requires !IsNatural(a) && !IsNatural(b) && !IsBust(a) && !IsBust(b)
    ensures Showdown(a, b, x) == -Showdown(b, a, y)
  {
  }

  /** A player who does not hold a natural wins exactly when the dealer busts
      or the player's total is higher, and loses exactly when the dealer stands
      on a higher total. */
  lemma ShowdownOrdinary(player: seq<Card>, dealer: seq<Card>, naturalPays: real)
    requires !IsNatural(player)
    ensures Showdown(player, dealer, naturalPays) == 1.0 <==> IsBust(dealer) || HandValue(player) > HandValue(dealer)
    ensures Showdown(player, dealer, naturalPays) == -1.0 <==> !IsBust(dealer) && HandValue(player) < HandValue(dealer)
    ensures Showdown(player, dealer, naturalPays) == 0.0 <==> !IsBust(dealer) && HandValue(player) == HandValue(dealer)
  {
  }

  /** A dealer natural only pushes against a player's multi-card 21: the
      natural is compared by total like any other hand. */
  lemma DealerNaturalPushesTwentyOne(player: seq<Card>, dealer: seq<Card>, naturalPays: real)
    requires !IsNatural(player) && HandValue(player) == 21 && IsNatural(dealer)
    ensures Showdown(player, dealer, naturalPays) == 0.0
  {
    NaturalIsTwentyOne(dealer);
  }

  /** A split hand's result is a loss, push or win, and a loss whenever it busted, whatever the dealer holds. */
  lemma SplitResultRange(hand: seq<Card>, dealer: seq<Card>)
    ensures var r := SplitResult(hand, dealer); r == -1.0 || r == 0.0 || r == 1.0
    ensures IsBust(hand) ==> SplitResult(hand, dealer) == -1.0
  {
  }

  /** How the per-hand results of a split round are turned into the agent's reward. */
  datatype RewardMode = Avg | Sum | SumClip

  const SplitClip: real := 2.0

  /** The agent-facing reward of a split round from the true sum over `hands` hands. */
  function Aggregate(mode: RewardMode, sum: real, hands: nat): real {
    var k := if hands > 1 then hands else 1;
    match mode
    case Avg => sum / (k as real)
    case Sum => sum
    case SumClip => if sum > SplitClip then SplitClip else if sum < -SplitClip then -SplitClip else sum
  }

  lemma AverageBounds(sum: real, k: real)
    requires k >= 1.0 && -k <= sum <= k
    ensures -1.0 <= sum / k <= 1.0
    ensures (sum / k > 0.0 <==> sum > 0.0) && (sum / k < 0.0 <==> sum < 0.0)
  {
    var q := sum / k;
    assert q * k == sum;
    if q > 0.0 { assert q * k > 0.0; }
    if q < 0.0 { assert (-q) * k > 0.0; }
  }

  /** Each mode keeps the sign of the true sum; averaging keeps a sum of
      per-hand results in [-1, 1]; clipping keeps every sum in [-2, 2] and
      leaves sums already inside that range unchanged. */
  lemma AggregateBounds(mode: RewardMode, sum: real, hands: nat)
    requires -(hands as real) <= sum <= hands as real
    ensures (Aggregate(mode, sum, hands) > 0.0 <==> sum > 0.0) && (Aggregate(mode, sum, hands) < 0.0 <==> sum < 0.0)
    ensures mode == Avg ==> -1.0 <= Aggregate(mode, sum, hands) <= 1.0
    ensures mode == SumClip ==> -2.0 <= Aggregate(mode, sum, hands) <= 2.0
    ensures mode == SumClip && -2.0 <= sum <= 2.0 ==> Aggregate(mode, sum, hands) == sum
  {
    if mode == Avg && hands > 1 {
      AverageBounds(sum, hands as real);
    }
  }
}
