/** The training environment as an object: the shoe, the player's hands,
    the dealer's hand, the round's flags and a stake ledger, changed in place
    by each agent action. Every method is proved to make exactly the
    transition the round model describes. */
module Environment {
  import opened Wrappers
  import opened Cards
  import opened Shoe
  import opened Payout
  import opened Showdown
  import opened Round
  import RoundLaws

  class BlackjackEnv {
    var deck: seq<Card>
    var playerHands: seq<seq<Card>>
    var dealerHand: seq<Card>
    var done: bool
    var splitActive: bool
    var currentHandIndex: nat
    var splitsNumber: nat
    var baseBet: real
    var payoutTracker: PayoutTracker
    var splitRewardMode: RewardMode

    /** The environment's state as a table value. */
    function Snapshot(): Table
      reads this, payoutTracker
    {
      Table(deck, playerHands, dealerHand, done, splitActive, currentHandIndex, splitsNumber,
            baseBet, payoutTracker.State(), splitRewardMode)
    }

    ghost predicate Valid()
      reads this, payoutTracker
    {
      Consistent(Snapshot())
    }

    /** `__init__` followed by `set_bet`: the first deal comes from a fresh shoe. */
    constructor (bet: real, shuffled: seq<Card>)
      requires IsShuffledShoe(shuffled)
      ensures Snapshot() == Round.SetBet(Round.Reset(Table([], [], [], false, false, 0, 0, bet, Opened(bet), SumClip), shuffled), bet)
      ensures Valid() && Aligned(Snapshot())
      ensures fresh(payoutTracker)
    {
      var d := CreateDeck([], shuffled);
      var n := |d|;
      deck := d[..n - 4];
      playerHands := [[d[n - 1], d[n - 2]]];
      dealerHand := [d[n - 3], d[n - 4]];
      done := false;
      splitActive := false;
      currentHandIndex := 0;
      splitsNumber := 0;
      splitRewardMode := SumClip;
      baseBet := bet;
      payoutTracker := new PayoutTracker(bet);
      new;
      RoundLaws.ResetDeals(Table([], [], [], false, false, 0, 0, bet, Opened(bet), SumClip), shuffled);
    }

    /** `reset`: reshuffle a low shoe and deal a new round; the ledger is kept. */
    method Reset(shuffled: seq<Card>)
      requires IsShuffledShoe(shuffled)
      modifies this
      ensures Snapshot() == Round.Reset(old(Snapshot()), shuffled)
      ensures payoutTracker == old(payoutTracker)
      ensures old(Valid()) ==> Valid()
    {
      if Valid() {
        RoundLaws.ResetDeals(Snapshot(), shuffled);
      }
      deck := CreateDeck(deck, shuffled);
      var n := |deck|;
      var p1, p2 := deck[n - 1], deck[n - 2];
      var d1, d2 := deck[n - 3], deck[n - 4];
      deck := deck[..n - 4];
      playerHands := [[p1, p2]];
      dealerHand := [d1, d2];
      done := false;
      splitsNumber := 0;
      currentHandIndex := 0;
      splitActive := false;
    }

    /** `set_bet`: a new base stake and a new ledger. */
    method SetBet(bet: real)
      modifies this
      ensures Snapshot() == Round.SetBet(old(Snapshot()), bet)
      ensures fresh(payoutTracker)
      ensures old(Valid()) && old(splitsNumber) == 0 ==> Valid() && Aligned(Snapshot())
    {
      baseBet := bet;
      payoutTracker := new PayoutTracker(bet);
    }

    /** `calculate_hand_value`. */
    static method CalculateHandValue(hand: seq<Card>) returns (v: int)
      ensures v == HandValue(hand)
    {
      var aces;
      v, aces := ReducedTotal(hand, AceStep);
    }

    static method CheckBust(hand: seq<Card>) returns (bust: bool)
      ensures bust == IsBust(hand)
    {
      var v := CalculateHandValue(hand);
      bust := v > 21;
    }

    /** `dealer_hits`: draw from the top while the dealer is under 17. */
    method DealerHits() returns (finished: bool)
      modifies this
      ensures var p := DealerPlay(old(dealerHand), old(deck), AceStep);
        Snapshot() == old(Snapshot()).(dealer := p.0, deck := p.1) && finished == p.2
      ensures payoutTracker == old(payoutTracker)
    {
      var v := CalculateHandValue(dealerHand);
      while v < 17
        invariant v == HandValue(dealerHand)
        invariant DealerPlay(dealerHand, deck, AceStep) == DealerPlay(old(dealerHand), old(deck), AceStep)
        invariant Snapshot() == old(Snapshot()).(dealer := dealerHand, deck := deck)
        invariant payoutTracker == old(payoutTracker)
        decreases |deck|
      {
        if deck == [] {
          return false;
        }
        dealerHand := dealerHand + [deck[|deck| - 1]];
        deck := deck[..|deck| - 1];
        v := CalculateHandValue(dealerHand);
      }
      return true;
    }

    /** Action 0, `handle_player_hit`. */
    method HandlePlayerHit() returns (r: StepResult)
      requires WellFormed(Snapshot())
      modifies this, payoutTracker
      ensures Outcome(Snapshot(), r) == Hit(old(Snapshot()))
      ensures payoutTracker == old(payoutTracker)
    {
      if deck == [] {
        return Raised(EmptyShoe);
      }
      var card := deck[|deck| - 1];
      deck := deck[..|deck| - 1];
      playerHands := playerHands[currentHandIndex := playerHands[currentHandIndex] + [card]];
      done := CheckBust(playerHands[currentHandIndex]);
      if done {
        if splitActive {
          r := HandleSplitTransition();
          return;
        }
        payoutTracker.CalculatePayout(currentHandIndex, -1.0);
        return Reward(-1.0, true);
      }
      return Reward(0.0, false);
    }

    /** Action 1, `handle_player_stand`. */
    method HandlePlayerStand() returns (r: StepResult)
      requires WellFormed(Snapshot())
      modifies this, payoutTracker
      ensures Outcome(Snapshot(), r) == Stand(old(Snapshot()))
      ensures payoutTracker == old(payoutTracker)
    {
      if splitActive {
        r := HandleSplitTransition();
        return;
      }
      r := DealerThenCompare();
    }

    /** `dealer_hits` followed by `compare_hands`, as stand and double do it. */
    method DealerThenCompare() returns (r: StepResult)
      requires WellFormed(Snapshot())
      modifies this, payoutTracker
      ensures Outcome(Snapshot(), r) == Round.DealerThenCompare(old(Snapshot()))
      ensures payoutTracker == old(payoutTracker)
    {
      var finished := DealerHits();
      if !finished {
        return Raised(EmptyShoe);
      }
      r := CompareHands();
    }

    /** Action 2, `handle_player_double`. */
    method HandlePlayerDouble() returns (r: StepResult)
      requires WellFormed(Snapshot())
      modifies this, payoutTracker
      ensures Outcome(Snapshot(), r) == Double(old(Snapshot()))
      ensures payoutTracker == old(payoutTracker)
    {
      if |playerHands[currentHandIndex]| != 2 {
        done := true;
        payoutTracker.CalculatePayout(currentHandIndex, -1.0);
        return Reward(-1.0, true);
      }
      if deck == [] {
        return Raised(EmptyShoe);
      }
      var card := deck[|deck| - 1];
      deck := deck[..|deck| - 1];
      playerHands := playerHands[currentHandIndex := playerHands[currentHandIndex] + [card]];
      payoutTracker.OnDouble(currentHandIndex);
      if splitActive {
        r := HandleSplitTransition();
        return;
      }
      var bust := CheckBust(playerHands[currentHandIndex]);
      if bust {
        done := true;
        payoutTracker.CalculatePayout(currentHandIndex, -1.0);
        return Reward(-1.0, true);
      }
      r := DealerThenCompare();
    }

    /** The guard shared by both split handlers. */
    method SplitGuard() returns (rejected: bool)
      requires currentHandIndex < |playerHands|
      ensures rejected == SplitRejected(Snapshot())
    {
      var hand := playerHands[currentHandIndex];
      rejected := |playerHands| == MaxHands || |hand| != 2 || hand[0] != hand[1] || splitsNumber == AllowedSplits;
    }

    /** Action 3, `handle_player_split`, with the ledger's `on_split` hook. */
    method HandlePlayerSplit() returns (r: StepResult)
      requires WellFormed(Snapshot())
      modifies this, payoutTracker
      ensures Outcome(Snapshot(), r) == Split(old(Snapshot()))
      ensures payoutTracker == old(payoutTracker)
    {
      var rejected := SplitGuard();
      if rejected {
        done := true;
        return Reward(-1.0, true);
      }
      payoutTracker.OnSplit();
      splitActive := true;
      splitsNumber := splitsNumber + 1;
      var hand := playerHands[currentHandIndex];
      if deck == [] {
        return Raised(EmptyShoe);
      }
      var c1 := deck[|deck| - 1];
      deck := deck[..|deck| - 1];
      if deck == [] {
        return Raised(EmptyShoe);
      }
      var c2 := deck[|deck| - 1];
      deck := deck[..|deck| - 1];
      var i := currentHandIndex;
      playerHands := playerHands[..i] + [[hand[0], c1], [hand[1], c2]] + playerHands[i + 1..];
      return Reward(0.0, false);
    }

    /** Action 3, `handle_player_split`, as written: past the guard it calls the
        ledger's `on_split_at`, which does not exist, and raises. */
    method HandlePlayerSplitAsWritten() returns (r: StepResult)
      requires WellFormed(Snapshot())
      modifies this
      ensures Outcome(Snapshot(), r) == SplitAsWritten(old(Snapshot()))
      ensures payoutTracker == old(payoutTracker)
    {
      var rejected := SplitGuard();
      if rejected {
        done := true;
        return Reward(-1.0, true);
      }
      return Raised(MissingSplitHook);
    }

    method AdvanceToNextSplitHand() returns (r: StepResult)
      modifies this
      ensures Outcome(Snapshot(), r) == Round.AdvanceToNextSplitHand(old(Snapshot()))
      ensures payoutTracker == old(payoutTracker)
    {
      done := false;
      currentHandIndex := currentHandIndex + 1;
      return Reward(0.0, false);
    }

    method HandleSplitTransition() returns (r: StepResult)
      requires WellFormed(Snapshot())
      modifies this, payoutTracker
      ensures Outcome(Snapshot(), r) == SplitTransition(old(Snapshot()))
      ensures payoutTracker == old(payoutTracker)
    {
      if currentHandIndex < |playerHands| - 1 {
        r := AdvanceToNextSplitHand();
      } else {
        r := CompareSplitHands();
      }
    }

    /** `compare_hands` with its default hand index 0. */
    method CompareHands() returns (r: StepResult)
      requires WellFormed(Snapshot())
      modifies this, payoutTracker
      ensures Outcome(Snapshot(), r) == Round.CompareHands(old(Snapshot()))
      ensures payoutTracker == old(payoutTracker)
    {
      var hand := playerHands[currentHandIndex];
      var playerTotal := CalculateHandValue(hand);
      var dealerTotal := CalculateHandValue(dealerHand);
      done := true;
      var isNatural := |hand| == 2 && CardSet(hand) == BlackjackSet;
      var dealerNatural := |dealerHand| == 2 && CardSet(dealerHand) == BlackjackSet;
      var reward: real;
      if isNatural {
        reward := if dealerNatural then 0.0 else 1.5;
      } else if dealerTotal > 21 {
        reward := 1.0;
      } else if playerTotal > dealerTotal {
        reward := 1.0;
      } else if playerTotal < dealerTotal {
        reward := -1.0;
      } else {
        reward := 0.0;
      }
      payoutTracker.CalculatePayout(0, reward);
      return Reward(reward, true);
    }

    /** The per-hand result of the second pass of `compare_split_hands`. */
    static method SplitHandResult(hand: seq<Card>, dealerHand: seq<Card>, dealerTotal: int) returns (reward: real)
      requires !IsBust(hand) && dealerTotal == HandValue(dealerHand)
      ensures reward == SplitResult(hand, dealerHand)
    {
      var playerTotal := CalculateHandValue(hand);
      var isNatural := |hand| == 2 && CardSet(hand) == BlackjackSet;
      var dealerNatural := |dealerHand| == 2 && CardSet(dealerHand) == BlackjackSet;
      if isNatural {
        reward := if dealerNatural then 0.0 else 1.0;
      } else if dealerTotal > 21 {
        reward := 1.0;
      } else if playerTotal > dealerTotal {
        reward := 1.0;
      } else if playerTotal < dealerTotal {
        reward := -1.0;
      } else {
        reward := 0.0;
      }
    }

    /** One pass of `compare_split_hands` over every hand, settling the hands
        whose bust status is `busted`; returns the sum of their results and
        whether every hand busted. */
    method SettlePass(busted: bool) returns (sum: real, allBust: bool)
      requires WellFormed(Snapshot())
      modifies payoutTracker
      ensures payoutTracker.State() == SettleHands(old(payoutTracker.State()), playerHands, dealerHand, |playerHands|, busted)
      ensures sum == ScoreHands(playerHands, dealerHand, |playerHands|, busted)
      ensures allBust == AllBust(playerHands)
    {
      var dealerTotal := CalculateHandValue(dealerHand);
      sum, allBust := 0.0, true;
      var i := 0;
      while i < |playerHands|
        invariant 0 <= i <= |playerHands|
        invariant |payoutTracker.bets| == |old(payoutTracker.bets)|
        invariant payoutTracker.State() == SettleHands(old(payoutTracker.State()), playerHands, dealerHand, i, busted)
        invariant sum == ScoreHands(playerHands, dealerHand, i, busted)
        invariant allBust == AllBust(playerHands[..i])
      {
        var bust := CheckBust(playerHands[i]);
        if bust == busted {
          var reward := -1.0;
          if !bust {
            reward := SplitHandResult(playerHands[i], dealerHand, dealerTotal);
          }
          payoutTracker.CalculatePayout(i, reward);
          sum := sum + reward;
        }
        if !bust {
          allBust := false;
        }
        assert playerHands[..i + 1] == playerHands[..i] + [playerHands[i]];
        i := i + 1;
      }
      assert playerHands[..i] == playerHands;
    }

    /** `compare_split_hands`. */
    method CompareSplitHands() returns (r: StepResult)
      requires WellFormed(Snapshot())
      modifies this, payoutTracker
      ensures Outcome(Snapshot(), r) == Round.CompareSplitHands(old(Snapshot()))
      ensures payoutTracker == old(payoutTracker)
    {
      if splitActive && currentHandIndex > 0 {
        var n := |playerHands|;
        var scoreSum, allBust := SettlePass(true);
        if !allBust {
          var finished := DealerHits();
          if !finished {
            return Raised(EmptyShoe);
          }
          var survivors, _ := SettlePass(false);
          scoreSum := scoreSum + survivors;
        }
        splitActive := false;
        done := true;
        var k := if n > 1 then n else 1;
        var training: real;
        match splitRewardMode {
          case Avg => training := scoreSum / (k as real);
          case Sum => training := scoreSum;
          case SumClip =>
            training := if scoreSum < SplitClip then scoreSum else SplitClip;
            training := if training > -SplitClip then training else -SplitClip;
        }
        return Reward(training, true);
      }
      done := true;
      return Reward(0.0, true);
    }

    /** `step`. Every step that returns a reward keeps the invariant and every card on the table. */
    method Step(action: int) returns (r: StepResult)
      requires Valid()
      modifies this, payoutTracker
      ensures Outcome(Snapshot(), r) == Round.Step(old(Snapshot()), action)
      ensures payoutTracker == old(payoutTracker)
      ensures r.Reward? ==> Valid() && InPlay(Snapshot()) == old(InPlay(Snapshot()))
      ensures r.Reward? && old(Aligned(Snapshot())) ==> Aligned(Snapshot())
    {
      RoundLaws.StepKeeps(Snapshot(), action);
      if done {
        return Reward(0.0, true);
      }
      if action == 0 {
        r := HandlePlayerHit();
      } else if action == 1 {
        r := HandlePlayerStand();
      } else if action == 2 {
        r := HandlePlayerDouble();
      } else if action == 3 {
        var hand := playerHands[currentHandIndex];
        if !(|hand| == 2 && hand[0] == hand[1] && splitsNumber < AllowedSplits) {
          return Raised(SplitAssertion);
        }
        r := HandlePlayerSplit();
      } else {
        return Reward(-1.0, true);
      }
    }

    /** `legal_actions`. */
    method GetLegalActions() returns (legal: seq<int>)
      requires currentHandIndex < |playerHands|
      ensures legal == LegalActions(Snapshot())
    {
      legal := [0, 1];
      var hand := playerHands[currentHandIndex];
      if |hand| == 2 {
        legal := legal + [2];
      }
      if |hand| == 2 && hand[0] == hand[1] && splitsNumber < AllowedSplits {
        legal := legal + [3];
      }
    }

    /** `get_state`: hand size, total, soft flag, dealer up-card value, split
        and double flags, the ten value fractions of the shoe and the clipped
        true count; an empty shoe raises (division by zero) and gives None. */
    method GetState() returns (obs: Option<seq<real>>)
      requires Valid()
      ensures obs.None? <==> deck == []
      ensures obs.Some? ==>
        var hand := playerHands[currentHandIndex];
        && |obs.value| == 17
        && obs.value[0] == |hand| as real
        && obs.value[1] == HandValue(hand) as real
        && obs.value[2] == (if HighAces(hand, AceStep) > 0 then 1.0 else 0.0)
        && obs.value[3] == HighValue(dealerHand[0]) as real
        && obs.value[4] == (if |hand| == 2 && hand[1] == hand[0] then 1.0 else 0.0)
        && obs.value[5] == (if |hand| == 2 then 1.0 else 0.0)
        && (forall v :: 2 <= v <= 11 ==> obs.value[4 + v] == (CountValue(deck, v) as real) / (|deck| as real))
        && obs.value[16] == ClipTc(TrueCount(deck))
        && -1.0 <= obs.value[16] <= 1.0
    {
      var hand := playerHands[currentHandIndex];
      var score, aces := ReducedTotal(hand, AceStep);
      var isSoft := if aces > 0 then 1.0 else 0.0;
      var dealerValue := HighValue(dealerHand[0]);
      var percentages := GetDeckDistribution(deck, false);
      if percentages.None? {
        return None;
      }
      var betting := GetDeckDistribution(deck, true);
      var tc := ClipTc(betting.value[11]);
      var canSplit := if |hand| == 2 && hand[1] == hand[0] then 1.0 else 0.0;
      var canDouble := if |hand| == 2 then 1.0 else 0.0;
      obs := Some([|hand| as real, score as real, isSoft, dealerValue as real, canSplit, canDouble] + percentages.value + [tc]);
    }
  }
}
