/** What every step of a round keeps: the table invariant, every card
    (cards only move from the shoe to the hands), the stake-per-hand
    alignment, the range of rewards, and the agreement between the reward
    of a single-hand round and what the ledger pays. */
module RoundLaws {
  import opened Cards
  import opened Shoe
  import opened Payout
  import opened Showdown
  import opened Round

  lemma {:induction false} AllCardsConcat(a: seq<seq<Card>>, b: seq<seq<Card>>)
    ensures AllCards(a + b) == AllCards(a) + AllCards(b)
    decreases |b|
  {
    if b == [] {
      assert a + b == a;
    } else {
      var b' := b[..|b| - 1];
      assert (a + b)[..|a + b| - 1] == a + b';
      AllCardsConcat(a, b');
    }
  }

  lemma Cancel(a: multiset<Card>, b: multiset<Card>, m: multiset<Card>)
    requires a + m == b + m
    ensures a == b
  {
    assert forall x :: a[x] == (a + m)[x] - m[x] && b[x] == (b + m)[x] - m[x];
  }

  /** Replacing the hand at i by the hands `mid` trades that hand's cards for theirs. */
  lemma AllCardsSplice(hands: seq<seq<Card>>, i: nat, mid: seq<seq<Card>>)
    requires i < |hands|
    ensures AllCards(hands[..i] + mid + hands[i + 1..]) + multiset(hands[i]) == AllCards(hands) + AllCards(mid)
  {
    var pre, post := hands[..i], hands[i + 1..];
    assert hands == pre + [hands[i]] + post;
    AllCardsConcat(pre + [hands[i]], post);
    AllCardsConcat(pre, [hands[i]]);
    AllCardsConcat(pre + mid, post);
    AllCardsConcat(pre, mid);
    assert AllCards([hands[i]]) == multiset(hands[i]) by { assert [hands[i]][..0] == []; }
  }

  /** Trading the cards of two parts of a sum for others with the same total leaves the sum. */
  lemma SumSwap(a: multiset<Card>, b: multiset<Card>, c: multiset<Card>, a': multiset<Card>, c': multiset<Card>)
    requires c' + a' == c + a
    ensures a' + b + c' == a + b + c
  {
    forall x ensures (a' + b + c')[x] == (a + b + c)[x] {
      assert (c' + a')[x] == (c + a)[x];
    }
  }

  /** Moving the cards m from one part of a sum to another leaves the sum. */
  lemma Move(a: multiset<Card>, b: multiset<Card>, c: multiset<Card>, a': multiset<Card>, b': multiset<Card>, m: multiset<Card>)
    requires a == a' + m && b' == b + m
    ensures a' + b' + c == a + b + c
  {
    forall x ensures (a' + b' + c)[x] == (a + b + c)[x] {
      assert a[x] == a'[x] + m[x] && b'[x] == b[x] + m[x];
    }
  }

  /** A card added to one hand adds exactly that card to the hands. */
  lemma AllCardsDraw(hands: seq<seq<Card>>, i: nat, c: Card)
    requires i < |hands|
    ensures AllCards(hands[i := hands[i] + [c]]) == AllCards(hands) + multiset{c}
  {
    var h := hands[i] + [c];
    assert hands[i := h] == hands[..i] + [h] + hands[i + 1..];
    AllCardsSplice(hands, i, [h]);
    assert AllCards([h]) == multiset(h) by { assert [h][..0] == []; }
    assert multiset(h) == multiset(hands[i]) + multiset{c};
    Cancel(AllCards(hands[i := h]), AllCards(hands) + multiset{c}, multiset(hands[i]));
  }

  lemma AllCardsPair(h1: seq<Card>, h2: seq<Card>)
    ensures AllCards([h1, h2]) == multiset(h1) + multiset(h2)
  {
    assert [h1, h2][..1] == [h1];
    assert [h1][..0] == [];
    assert AllCards([h1]) == multiset(h1);
  }

  lemma PairCards(a: Card, b: Card, x: Card, y: Card)
    ensures multiset([a, x]) + multiset([b, y]) == multiset([a, b]) + multiset{x, y}
  {
  }

  /** The last four cards of a deck, popped two by two. */
  lemma LastFour(d: seq<Card>)
    requires |d| >= 4
    ensures multiset(d) == multiset(d[..|d| - 4]) + multiset([d[|d| - 1], d[|d| - 2]]) + multiset([d[|d| - 3], d[|d| - 4]])
  {
    var n := |d|;
    assert d == d[..n - 4] + [d[n - 4], d[n - 3]] + [d[n - 2], d[n - 1]];
  }

  lemma CancelTrade(n: multiset<Card>, m: multiset<Card>, h: multiset<Card>, mid: multiset<Card>, added: multiset<Card>)
    requires n + m == h + mid && mid == m + added
    ensures n == h + added
  {
    forall z ensures n[z] == (h + added)[z] {
      assert (n + m)[z] == (h + mid)[z];
    }
  }

  /** Splitting the pair at i into two hands completed by x and y adds exactly x and y. */
  lemma AllCardsSplitPair(hands: seq<seq<Card>>, i: nat, x: Card, y: Card)
    requires i < |hands| && |hands[i]| == 2
    ensures AllCards(hands[..i] + [[hands[i][0], x], [hands[i][1], y]] + hands[i + 1..]) == AllCards(hands) + multiset{x, y}
  {
    var h1, h2 := [hands[i][0], x], [hands[i][1], y];
    AllCardsSplice(hands, i, [h1, h2]);
    AllCardsPair(h1, h2);
    assert hands[i] == [hands[i][0], hands[i][1]];
    PairCards(hands[i][0], hands[i][1], x, y);
    CancelTrade(AllCards(hands[..i] + [h1, h2] + hands[i + 1..]), multiset(hands[i]), AllCards(hands), AllCards([h1, h2]), multiset{x, y});
  }

  /** A transition from t keeps the invariant, every card, and the alignment of stakes. */
  predicate Keeps(t: Table, o: Outcome) {
    o.result.Reward? ==>
      && Consistent(o.table)
      && InPlay(o.table) == InPlay(t)
      && (Aligned(t) ==> Aligned(o.table))
  }

  lemma DealerPlayKeeps(dealer: seq<Card>, deck: seq<Card>)
    requires AllShoeCards(dealer) && AllShoeCards(deck)
    ensures var p := DealerPlay(dealer, deck, AceStep);
      && |p.0| >= |dealer| && AllShoeCards(p.0) && AllShoeCards(p.1)
      && multiset(p.0) + multiset(p.1) == multiset(dealer) + multiset(deck)
  {
    DealerPlayFacts(dealer, deck, AceStep);
    DealerPlayConserves(dealer, deck, AceStep);
  }

  /** The table a settlement leaves: new ledger with the same stakes, the
      dealer's draw applied, split play over and the round done. */
  lemma SettledTableKeeps(t: Table, l: Ledger, dealer: seq<Card>, deck: seq<Card>)
    requires Consistent(t)
    requires l.bets == t.ledger.bets && l.baseBet == t.ledger.baseBet
    requires |dealer| >= |t.dealer| && AllShoeCards(dealer) && AllShoeCards(deck)
    requires multiset(dealer) + multiset(deck) == multiset(t.dealer) + multiset(t.deck)
    ensures var t' := t.(ledger := l, dealer := dealer, deck := deck, splitActive := false, done := true);
      Consistent(t') && InPlay(t') == InPlay(t) && (Aligned(t) ==> Aligned(t'))
  {
    SumSwap(multiset(t.deck), AllCards(t.hands), multiset(t.dealer), multiset(deck), multiset(dealer));
  }

  lemma CompareSplitHandsKeeps(t: Table)
    requires Consistent(t)
    ensures Keeps(t, CompareSplitHands(t))
  {
    if t.splitActive && t.index > 0 {
      var n := |t.hands|;
      var l1 := SettleHands(t.ledger, t.hands, t.dealer, n, true);
      if AllBust(t.hands) {
        SettledTableKeeps(t, l1, t.dealer, t.deck);
      } else {
        var p := DealerPlay(t.dealer, t.deck, AceStep);
        DealerPlayKeeps(t.dealer, t.deck);
        if p.2 {
          var l2 := SettleHands(l1, t.hands, p.0, n, false);
          SettledTableKeeps(t, l2, p.0, p.1);
        }
      }
    }
  }

  lemma SplitTransitionKeeps(t: Table)
    requires Consistent(t) && t.splitActive
    ensures Keeps(t, SplitTransition(t))
  {
    if t.index >= |t.hands| - 1 {
      CompareSplitHandsKeeps(t);
    }
  }

  lemma DealerThenCompareKeeps(t: Table)
    requires Consistent(t)
    ensures Keeps(t, DealerThenCompare(t))
  {
    var p := DealerPlay(t.dealer, t.deck, AceStep);
    DealerPlayKeeps(t.dealer, t.deck);
    if p.2 {
      var t' := t.(dealer := p.0, deck := p.1);
      var r := HandOutcome(Hand(t'), t'.dealer);
      var l := AfterSettle(t'.ledger, 0, r);
      SettleLaw(t'.ledger, 0, r);
      assert DealerThenCompare(t).table == t.(ledger := l, dealer := p.0, deck := p.1, done := true);
      SumSwap(multiset(t.deck), AllCards(t.hands), multiset(t.dealer), multiset(p.1), multiset(p.0));
    }
  }

  /** The table right after the top card joins the current hand. */
  lemma DrawKeeps(t: Table, t': Table)
    requires Consistent(t) && t.deck != []
    requires t' == t.(deck := Rest(t.deck), hands := t.hands[t.index := Hand(t) + [Top(t.deck)]])
    ensures InPlay(t') == InPlay(t)
    ensures AllShoeCards(t'.deck) && HandsOfShoeCards(t'.hands)
  {
    AllCardsDraw(t.hands, t.index, Top(t.deck));
    assert t.deck == Rest(t.deck) + [Top(t.deck)];
    assert multiset(t.deck) == multiset(Rest(t.deck)) + multiset{Top(t.deck)};
    forall j | 0 <= j < |t'.hands| ensures AllShoeCards(t'.hands[j]) {
      if j == t.index {
        assert IsShoeCard(Top(t.deck));
      }
    }
  }

  lemma HitKeeps(t: Table)
    requires Consistent(t) && !t.done
    ensures Keeps(t, Hit(t))
  {
    if t.deck != [] {
      var hand := Hand(t) + [Top(t.deck)];
      var t0 := t.(deck := Rest(t.deck), hands := t.hands[t.index := hand]);
      DrawKeeps(t, t0);
      var t' := t0.(done := IsBust(hand));
      if IsBust(hand) && t'.splitActive {
        SplitTransitionKeeps(t');
      }
    }
  }

  lemma StandKeeps(t: Table)
    requires Consistent(t)
    ensures Keeps(t, Stand(t))
  {
    if t.splitActive {
      SplitTransitionKeeps(t);
    } else {
      DealerThenCompareKeeps(t);
    }
  }

  lemma DoubleKeeps(t: Table)
    requires Consistent(t)
    ensures Keeps(t, Double(t))
  {
    if |Hand(t)| == 2 && t.deck != [] {
      var t0 := t.(deck := Rest(t.deck), hands := t.hands[t.index := Hand(t) + [Top(t.deck)]]);
      DrawKeeps(t, t0);
      var t' := t0.(ledger := AfterDouble(t.ledger, t.index));
      assert InPlay(t') == InPlay(t);
      if t'.splitActive {
        SplitTransitionKeeps(t');
      } else if !IsBust(Hand(t')) {
        DealerThenCompareKeeps(t');
      }
    }
  }

  /** The table a split with at least two cards in the shoe leaves. */
  function SplitTable(t: Table): Table
    requires WellFormed(t) && |t.deck| >= 2 && |Hand(t)| == 2
  {
    var n := |t.deck|;
    t.(ledger := AfterSplit(t.ledger), splitActive := true, splits := t.splits + 1, deck := t.deck[..n - 2],
       hands := t.hands[..t.index] + [[Hand(t)[0], t.deck[n - 1]], [Hand(t)[1], t.deck[n - 2]]] + t.hands[t.index + 1..])
  }

  lemma LastTwo(d: seq<Card>)
    requires |d| >= 2
    ensures multiset(d) == multiset(d[..|d| - 2]) + multiset{d[|d| - 1], d[|d| - 2]}
  {
    assert d == d[..|d| - 2] + [d[|d| - 2], d[|d| - 1]];
  }

  lemma SplitTableCards(t: Table)
    requires WellFormed(t) && |t.deck| >= 2 && |Hand(t)| == 2
    ensures InPlay(SplitTable(t)) == InPlay(t)
  {
    var n := |t.deck|;
    var x, y := t.deck[n - 1], t.deck[n - 2];
    var t' := SplitTable(t);
    assert t'.hands == t.hands[..t.index] + [[t.hands[t.index][0], x], [t.hands[t.index][1], y]] + t.hands[t.index + 1..];
    AllCardsSplitPair(t.hands, t.index, x, y);
    LastTwo(t.deck);
    Move(multiset(t.deck), AllCards(t.hands), multiset(t.dealer), multiset(t'.deck), AllCards(t'.hands), multiset{x, y});
  }

  lemma SplitTableShoeCards(t: Table)
    requires Consistent(t) && |t.deck| >= 2 && |Hand(t)| == 2
    ensures AllShoeCards(SplitTable(t).deck) && HandsOfShoeCards(SplitTable(t).hands)
  {
    var n := |t.deck|;
    var i := t.index;
    var hands' := SplitTable(t).hands;
    forall j | 0 <= j < |hands'| ensures AllShoeCards(hands'[j]) {
      if j < i {
        assert hands'[j] == t.hands[j];
      } else if j > i + 1 {
        assert hands'[j] == t.hands[j - 1];
      } else {
        assert IsShoeCard(t.deck[n - 1]) && IsShoeCard(t.deck[n - 2]);
      }
    }
  }

  lemma SplitTableStakes(t: Table)
    requires WellFormed(t) && |t.deck| >= 2 && |Hand(t)| == 2 && Aligned(t)
    ensures Aligned(SplitTable(t))
  {
    SplitLaw(t.ledger);
  }

  lemma SplitKeeps(t: Table)
    requires Consistent(t)
    ensures Keeps(t, Split(t))
  {
    if !SplitRejected(t) && |t.deck| >= 2 {
      assert Split(t).table == SplitTable(t);
      SplitTableCards(t);
      SplitTableShoeCards(t);
      if Aligned(t) {
        SplitTableStakes(t);
      }
    }
  }

  /** `step`'s guards: a finished round answers 0, terminal, and nothing
      changes; an unknown action code answers -1, terminal, and the table is
      left as it was (the round is not even marked finished). */
  lemma StepGuards(t: Table, action: int)
    requires WellFormed(t)
    ensures t.done ==> Step(t, action) == Outcome(t, Reward(0.0, true))
    ensures !t.done && !(0 <= action <= 3) ==> Step(t, action) == Outcome(t, Reward(-1.0, true))
  {
  }

  /** Every step that returns a reward keeps the invariant, keeps every card
      on the table, and keeps each hand's stake attached to that hand. */
  lemma StepKeeps(t: Table, action: int)
    requires Consistent(t)
    ensures Keeps(t, Step(t, action))
  {
    if !t.done {
      if action == 0 {
        HitKeeps(t);
      } else if action == 1 {
        StandKeeps(t);
      } else if action == 2 {
        DoubleKeeps(t);
      } else if action == 3 && SplitAsserted(t) {
        SplitKeeps(t);
      }
    }
  }

  lemma ResetCards(t: Table, shuffled: seq<Card>)
    requires IsShuffledShoe(shuffled)
    ensures InPlay(Reset(t, shuffled)) == multiset(CreateDeck(t.deck, shuffled))
  {
    var d := CreateDeck(t.deck, shuffled);
    var n := |d|;
    var r := Reset(t, shuffled);
    var h := [d[n - 1], d[n - 2]];
    assert r.hands == [h];
    assert AllCards([h]) == multiset(h) by {
      assert [h][..0] == [];
    }
    assert r.deck == d[..n - 4];
    LastFour(d);
  }

  /** A reset (with the ledger of an earlier round) deals a consistent table
      whose cards are exactly those of the shoe it dealt from. */
  lemma ResetDeals(t: Table, shuffled: seq<Card>)
    requires IsShuffledShoe(shuffled) && AllShoeCards(t.deck)
    requires |t.ledger.bets| >= 1 && t.ledger.baseBet == t.baseBet
    ensures Consistent(Reset(t, shuffled))
    ensures InPlay(Reset(t, shuffled)) == multiset(CreateDeck(t.deck, shuffled))
  {
    ResetCards(t, shuffled);
    var d := CreateDeck(t.deck, shuffled);
    assert AllShoeCards(d);
  }

  /** The first (bust) pass only loses, one stake-unit per busted hand; with
      the survivors' pass the true sum of a split round lies in [-k, k]. */
  lemma {:induction false} ScoreHandsBound(hands: seq<seq<Card>>, d1: seq<Card>, d2: seq<Card>, k: nat)
    requires k <= |hands|
    ensures -(k as real) <= ScoreHands(hands, d1, k, true) <= 0.0
    ensures -(k as real) <= ScoreHands(hands, d1, k, true) + ScoreHands(hands, d2, k, false) <= k as real
  {
    if k > 0 {
      ScoreHandsBound(hands, d1, d2, k - 1);
      SplitResultRange(hands[k - 1], d1);
      SplitResultRange(hands[k - 1], d2);
    }
  }

  /** When every hand busted, each loses one unit and no hand is compared. */
  lemma {:induction false} AllBustScore(hands: seq<seq<Card>>, d: seq<Card>, k: nat)
    requires k <= |hands| && AllBust(hands)
    ensures ScoreHands(hands, d, k, true) == -(k as real)
    ensures ScoreHands(hands, d, k, false) == 0.0
  {
    if k > 0 {
      AllBustScore(hands, d, k - 1);
    }
  }

  /** The stake-weighted sum of the results that `SettleHands` pays. */
  function Weighted(hands: seq<seq<Card>>, dealer: seq<Card>, bets: seq<real>, k: nat, busted: bool): real
    requires k <= |hands| <= |bets|
  {
    if k == 0 then 0.0
    else
      var settled := IsBust(hands[k - 1]) == busted;
      Weighted(hands, dealer, bets, k - 1, busted) + (if settled then SplitResult(hands[k - 1], dealer) * bets[k - 1] else 0.0)
  }

  /** Settling split hands moves the ledger's profit by each settled hand's result times its stake. */
  lemma {:induction false} SettleHandsProfit(l: Ledger, hands: seq<seq<Card>>, dealer: seq<Card>, k: nat, busted: bool)
    requires k <= |hands| <= |l.bets|
    ensures Profit(SettleHands(l, hands, dealer, k, busted)) == Profit(l) + Weighted(hands, dealer, l.bets, k, busted)
  {
    if k > 0 {
      SettleHandsProfit(l, hands, dealer, k - 1, busted);
      var l' := SettleHands(l, hands, dealer, k - 1, busted);
      if IsBust(hands[k - 1]) == busted {
        var r := SplitResult(hands[k - 1], dealer);
        SettleLaw(l', k - 1, r);
        SplitResultRange(hands[k - 1], dealer);
        assert Factor(r) == r;
      }
    }
  }

  /** Settling a split round: the agent's reward is the mode's aggregate of
      the true sum of the hands' results, and the ledger's profit moves by the
      stake-weighted results. */
  lemma CompareSplitHandsSettles(t: Table)
    requires Consistent(t) && t.splitActive && t.index > 0
    requires CompareSplitHands(t).result.Reward?
    ensures var o := CompareSplitHands(t);
      var n := |t.hands|;
      var sum := ScoreHands(t.hands, t.dealer, n, true) + ScoreHands(t.hands, o.table.dealer, n, false);
      && o.result == Reward(Aggregate(t.mode, sum, n), true)
      && Profit(o.table.ledger) == Profit(t.ledger)
           + Weighted(t.hands, t.dealer, t.ledger.bets, n, true) + Weighted(t.hands, o.table.dealer, t.ledger.bets, n, false)
    ensures var o := CompareSplitHands(t);
      && (AllBust(t.hands) ==> o.table.dealer == t.dealer && o.table.deck == t.deck)
      && (!AllBust(t.hands) ==> Total(o.table.dealer, AceStep) >= 17)
  {
    var n := |t.hands|;
    var l1 := SettleHands(t.ledger, t.hands, t.dealer, n, true);
    SettleHandsProfit(t.ledger, t.hands, t.dealer, n, true);
    if AllBust(t.hands) {
      AllBustScore(t.hands, t.dealer, n);
      SettleHandsZero(l1, t.hands, t.dealer, n);
    } else {
      var p := DealerPlay(t.dealer, t.deck, AceStep);
      SettleHandsProfit(l1, t.hands, p.0, n, false);
      DealerPlayFacts(t.dealer, t.deck, AceStep);
    }
  }

  /** When every hand busted, the survivors' pass would settle nothing. */
  lemma {:induction false} SettleHandsZero(l: Ledger, hands: seq<seq<Card>>, dealer: seq<Card>, k: nat)
    requires k <= |hands| <= |l.bets| && AllBust(hands)
    ensures SettleHands(l, hands, dealer, k, false) == l
    ensures Weighted(hands, dealer, l.bets, k, false) == 0.0
  {
    if k > 0 {
      SettleHandsZero(l, hands, dealer, k - 1);
    }
  }

  predicate RewardBounded(mode: RewardMode, r: StepResult) {
    r.Reward? ==> -5.0 <= r.value <= 5.0 && (mode != Sum ==> -2.0 <= r.value <= 2.0)
  }

  lemma CompareSplitHandsBounded(t: Table)
    requires WellFormed(t) && |t.hands| <= AllowedSplits + 1
    ensures RewardBounded(t.mode, CompareSplitHands(t).result)
  {
    var n := |t.hands|;
    var p := DealerPlay(t.dealer, t.deck, AceStep);
    ScoreHandsBound(t.hands, t.dealer, p.0, n);
    ScoreHandsBound(t.hands, t.dealer, t.dealer, n);
    AggregateBounds(t.mode, ScoreHands(t.hands, t.dealer, n, true), n);
    AggregateBounds(t.mode, ScoreHands(t.hands, t.dealer, n, true) + ScoreHands(t.hands, p.0, n, false), n);
  }

  lemma SplitTransitionBounded(t: Table)
    requires WellFormed(t) && |t.hands| <= AllowedSplits + 1
    ensures RewardBounded(t.mode, SplitTransition(t).result)
  {
    CompareSplitHandsBounded(t);
  }

  lemma DealerThenCompareBounded(t: Table)
    requires WellFormed(t)
    ensures RewardBounded(t.mode, DealerThenCompare(t).result)
  {
    var p := DealerPlay(t.dealer, t.deck, AceStep);
    ShowdownRange(Hand(t), p.0, 1.5);
  }

  /** Every reward a step hands out lies in [-5, 5], and in [-2, 2] unless
      split rounds are rewarded by the raw sum. */
  lemma StepRewardBounded(t: Table, action: int)
    requires Consistent(t)
    ensures RewardBounded(t.mode, Step(t, action).result)
  {
    if !t.done {
      if action == 0 && t.deck != [] {
        var t' := t.(deck := Rest(t.deck), hands := t.hands[t.index := Hand(t) + [Top(t.deck)]], done := true);
        SplitTransitionBounded(t');
      } else if action == 1 {
        SplitTransitionBounded(t);
        DealerThenCompareBounded(t);
      } else if action == 2 && |Hand(t)| == 2 && t.deck != [] {
        var t' := t.(deck := Rest(t.deck), hands := t.hands[t.index := Hand(t) + [Top(t.deck)]],
                     ledger := AfterDouble(t.ledger, t.index));
        SplitTransitionBounded(t');
        DealerThenCompareBounded(t');
      }
    }
  }

  /** A single-hand round pays what it reports: when hit, stand or double
      ends a round without a split on a fresh stake, the ledger's profit moves
      by the reward times the hand's final stake, which is the base stake,
      or twice it after a double. */
  lemma SingleHandSettles(t: Table, action: int)
    requires Consistent(t) && !t.done && !t.splitActive && 0 <= action <= 2
    requires t.ledger.bets[0] == t.baseBet
    ensures var o := Step(t, action);
      o.result.Reward? && o.result.terminal ==>
        && |o.table.ledger.bets| == |t.ledger.bets|
        && o.table.ledger.bets[0] == (if action == 2 && |Hand(t)| == 2 then 2.0 * t.baseBet else t.baseBet)
        && Profit(o.table.ledger) == Profit(t.ledger) + o.result.value * o.table.ledger.bets[0]
  {
    assert t.index == 0;
    var p := DealerPlay(t.dealer, t.deck, AceStep);
    ShowdownRange(Hand(t), p.0, 1.5);
    SettleLaw(t.ledger, 0, -1.0);
    SettleLaw(t.ledger, 0, HandOutcome(Hand(t), p.0));
    if action == 2 && |Hand(t)| == 2 && t.deck != [] {
      var l := AfterDouble(t.ledger, 0);
      DoubleLaw(t.ledger, 0);
      var t' := t.(deck := Rest(t.deck), hands := t.hands[0 := Hand(t) + [Top(t.deck)]], ledger := l);
      var p' := DealerPlay(t'.dealer, t'.deck, AceStep);
      ShowdownRange(Hand(t'), p'.0, 1.5);
      SettleLaw(l, 0, -1.0);
      SettleLaw(l, 0, HandOutcome(Hand(t'), p'.0));
    }
  }

  /** `legal_actions` offers hit and stand always, double exactly on two
      cards, and split exactly when the assertion in `step` would pass. */
  lemma LegalActionsMeaning(t: Table)
    requires t.index < |t.hands|
    ensures 0 in LegalActions(t) && 1 in LegalActions(t)
    ensures 2 in LegalActions(t) <==> |Hand(t)| == 2
    ensures 3 in LegalActions(t) <==> SplitAsserted(t)
    ensures forall a :: a in LegalActions(t) ==> 0 <= a <= 3
  {
  }

  /** On a consistent table a split that the assertion lets through is never refused by the guard. */
  lemma LegalSplitAccepted(t: Table)
    requires Consistent(t) && SplitAsserted(t)
    ensures !SplitRejected(t)
  {
  }

  /** As written, every split that gets past the assertion raises before
      touching the table: the ledger has no `on_split_at`. */
  lemma SplitAsWrittenRaises(t: Table)
    requires Consistent(t) && SplitAsserted(t)
    ensures SplitAsWritten(t) == Outcome(t, Raised(MissingSplitHook))
  {
    LegalSplitAccepted(t);
  }

  /** With the ledger's `on_split` hook, a legal split with two cards in the
      shoe replaces the pair by two hands, each completed from the top, keeps
      playing the first of them, and gives the second a base stake right
      after the first's, so every later hand keeps its own stake. */
  lemma SplitDealsTwoHands(t: Table)
    requires Consistent(t) && Aligned(t) && SplitAsserted(t) && |t.deck| >= 2
    ensures var o := Split(t); var i := t.index; var n := |t.deck|;
      && o.result == Reward(0.0, false)
      && |o.table.hands| == |t.hands| + 1 && o.table.index == i && o.table.splitActive
      && o.table.hands[i] == [Hand(t)[0], t.deck[n - 1]] && o.table.hands[i + 1] == [Hand(t)[1], t.deck[n - 2]]
      && o.table.ledger.bets == t.ledger.bets[..i + 1] + [t.baseBet] + t.ledger.bets[i + 1..]
      && o.table.hands[..i] == t.hands[..i] && o.table.hands[i + 2..] == t.hands[i + 1..]
      && o.table.splits == t.splits + 1
      && o.table.deck == t.deck[..n - 2] && o.table.dealer == t.dealer
  {
    LegalSplitAccepted(t);
    AppendIsInsertAfter(t.ledger.bets, t.baseBet, t.index);
    var i, n := t.index, |t.deck|;
    var h1, h2 := [Hand(t)[0], t.deck[n - 1]], [Hand(t)[1], t.deck[n - 2]];
    var hs := t.hands[..i] + [h1, h2] + t.hands[i + 1..];
    assert hs[..i] == t.hands[..i];
    assert hs[i + 2..] == t.hands[i + 1..];
  }
}
