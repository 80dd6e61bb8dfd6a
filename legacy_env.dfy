/** The earlier two-deck environment as an object, its fields changed in
    place by each handler. Every method is proved to make exactly the
    transition the legacy round functions describe. */
module LegacyEnvironment {
  import opened Wrappers
  import opened Cards
  import opened Shoe
  import opened Showdown
  import opened Legacy

  class LegacyEnv {
    var deck: seq<Card>
    var playerHand: seq<Card>
    /** Which entry of `playerHands` the list `playerHand` is, if any. */
    var slot: Option<nat>
    var dealerHand: seq<Card>
    var done: bool
    var splitActive: bool
    var playerHands: seq<seq<Card>>
    var currentHandIndex: nat
    var splitsNumber: nat

    function Snapshot(): State
      reads this
    {
      State(deck, playerHand, slot, dealerHand, done, splitActive, playerHands, currentHandIndex, splitsNumber)
    }

    ghost predicate Valid()
      reads this
    {
      LegacyConsistent(Snapshot())
    }

    /** `__init__`: empty fields, then the first `reset`. */
    constructor (shuffled: seq<Card>)
      requires IsLegacyShoe(shuffled)
      ensures Snapshot() == Legacy.Reset(Initial, shuffled)
      ensures Valid()
    {
      LegacyShoeContents(shuffled);
      playerHand := [shuffled[103], shuffled[102]];
      slot := None;
      dealerHand := [shuffled[101], shuffled[100]];
      deck := shuffled[..100];
      done := false;
      splitActive := false;
      playerHands := [];
      currentHandIndex := 0;
      splitsNumber := 0;
      new;
      ResetDeals(Initial, shuffled);
    }

    /** `reset`. */
    method Reset(shuffled: seq<Card>)
      requires IsLegacyShoe(shuffled)
      modifies this
      ensures Snapshot() == Legacy.Reset(old(Snapshot()), shuffled)
      ensures Valid()
    {
      LegacyShoeContents(shuffled);
      ResetDeals(Snapshot(), shuffled);
      var d := shuffled;
      var n := |d|;
      playerHand := [d[n - 1], d[n - 2]];
      slot := None;
      dealerHand := [d[n - 3], d[n - 4]];
      deck := d[..n - 4];
      done := false;
    }

    /** `calculate_hand_value`, taking 11 off per reduced ace. */
    static method CalculateHandValue(hand: seq<Card>) returns (v: int)
      ensures v == LegacyValue(hand)
    {
      var aces;
      v, aces := ReducedTotal(hand, LegacyAceStep);
    }

    static method CheckBust(hand: seq<Card>) returns (bust: bool)
      ensures bust == LegacyBust(hand)
    {
      var v := CalculateHandValue(hand);
      bust := v > 21;
    }

    /** `add_card`; false when the deck is empty (the `pop` raises). */
    method AddCard() returns (ok: bool)
      modifies this
      ensures ok == Legacy.AddCard(old(Snapshot())).Some?
      ensures ok ==> Snapshot() == Legacy.AddCard(old(Snapshot())).value
      ensures !ok ==> Snapshot() == old(Snapshot())
    {
      if deck == [] {
        return false;
      }
      var card := deck[|deck| - 1];
      deck := deck[..|deck| - 1];
      playerHand := playerHand + [card];
      if slot.Some? && slot.value < |playerHands| {
        playerHands := playerHands[slot.value := playerHand];
      }
      return true;
    }

    /** Action 0, `handle_player_hit`. */
    method HandlePlayerHit() returns (r: StepResult)
      modifies this
      ensures Outcome(Snapshot(), r) == Hit(old(Snapshot()))
    {
      var ok := AddCard();
      if !ok {
        return Raised(EmptyShoe);
      }
      done := CheckBust(playerHand);
      if done {
        if splitActive {
          r := HandleSplitTransition();
          return;
        }
        return Reward(-1.0, true);
      }
      return Reward(0.0, false);
    }

    /** `dealer_hits`: draw from the top while the dealer is under 17. */
    method DealerHits() returns (finished: bool)
      modifies this
      ensures var p := DealerPlay(old(dealerHand), old(deck), LegacyAceStep);
        Snapshot() == old(Snapshot()).(dealer := p.0, deck := p.1) && finished == p.2
    {
      var v := CalculateHandValue(dealerHand);
      while v < 17
        invariant v == LegacyValue(dealerHand)
        invariant DealerPlay(dealerHand, deck, LegacyAceStep) == DealerPlay(old(dealerHand), old(deck), LegacyAceStep)
        invariant Snapshot() == old(Snapshot()).(dealer := dealerHand, deck := deck)
        decreases |deck|
      {
        if deck == [] {
          return false;
        }
        dealerHand := dealerHand + [deck[|deck| - 1]];
        deck := deck[..|deck| - 1];
        v := CalculateHandValue(dealerHand);
      }
      return true;
    }

    /** Action 1, `handle_player_stand`. */
    method HandlePlayerStand() returns (r: StepResult)
      modifies this
      ensures Outcome(Snapshot(), r) == Stand(old(Snapshot()))
    {
      if splitActive {
        r := HandleSplitTransition();
        return;
      }
      r := DealerThenCompare();
    }

    method DealerThenCompare() returns (r: StepResult)
      modifies this
      ensures Outcome(Snapshot(), r) == Legacy.DealerThenCompare(old(Snapshot()))
    {
      var finished := DealerHits();
      if !finished {
        return Raised(EmptyShoe);
      }
      r := CompareHands();
    }

    /** Action 2, `handle_player_double`. */
    method HandlePlayerDouble() returns (r: StepResult)
      modifies this
      ensures Outcome(Snapshot(), r) == Double(old(Snapshot()))
    {
      if |playerHand| != 2 {
        done := true;
        return Reward(-1.0, true);
      }
      var ok := AddCard();
      if !ok {
        return Raised(EmptyShoe);
      }
      if splitActive {
        var t := HandleSplitTransition();
        if t.Raised? {
          return t;
        }
      }
      var bust := CheckBust(playerHand);
      if bust {
        done := true;
        return Reward(-1.0, true);
      }
      r := DealerThenCompare();
    }

    /** Action 3, `handle_player_split`. */
    method HandlePlayerSplit() returns (r: StepResult)
      modifies this
      ensures Outcome(Snapshot(), r) == Split(old(Snapshot()))
    {
      if |playerHands| == LegacyMaxHands || |playerHand| != 2 || playerHand[0] != playerHand[1]
         || splitsNumber == LegacyAllowedSplits {
        done := true;
        return Reward(-1.0, true);
      }
      ghost var s0 := Snapshot();
      splitActive := true;
      splitsNumber := splitsNumber + 1;
      if deck == [] {
        return Raised(EmptyShoe);
      }
      var c1 := deck[|deck| - 1];
      deck := deck[..|deck| - 1];
      if deck == [] {
        return Raised(EmptyShoe);
      }
      var c2 := deck[|deck| - 1];
      deck := deck[..|deck| - 1];
      PlaceSplitHands([playerHand[0], c1], [playerHand[1], c2]);
      assert deck == s0.deck[..|s0.deck| - 2];
      return Reward(0.0, false);
    }

    /** The list surgery of a split: pop the current entry (if there is one),
        insert the two new hands at its place, and point `player_hand` at entry 0. */
    method PlaceSplitHands(h1: seq<Card>, h2: seq<Card>)
      modifies this
      ensures playerHands == ReplaceAt(old(playerHands), currentHandIndex, h1, h2)
      ensures playerHand == playerHands[0] && slot == Some(0)
      ensures deck == old(deck) && dealerHand == old(dealerHand) && done == old(done)
      ensures splitActive == old(splitActive) && currentHandIndex == old(currentHandIndex)
      ensures splitsNumber == old(splitsNumber)
    {
      var i := currentHandIndex;
      if i < |playerHands| {
        playerHands := playerHands[..i] + playerHands[i + 1..];
      }
      playerHands := Insert(playerHands, i, h1);
      playerHands := Insert(playerHands, i + 1, h2);
      PopInsertInsert(old(playerHands), i, h1, h2);
      playerHand := playerHands[0];
      slot := Some(0);
    }

    method AdvanceToNextSplitHand() returns (r: StepResult)
      requires currentHandIndex + 1 < |playerHands|
      modifies this
      ensures Outcome(Snapshot(), r) == Legacy.AdvanceToNextSplitHand(old(Snapshot()))
    {
      done := false;
      currentHandIndex := currentHandIndex + 1;
      playerHand := playerHands[currentHandIndex];
      slot := Some(currentHandIndex);
      return Reward(0.0, false);
    }

    method HandleSplitTransition() returns (r: StepResult)
      modifies this
      ensures Outcome(Snapshot(), r) == Transition(old(Snapshot()))
    {
      if currentHandIndex < |playerHands| - 1 {
        r := AdvanceToNextSplitHand();
        return;
      }
      r := CompareSplitHands();
    }

    /** `compare_hands`. */
    method CompareHands() returns (r: StepResult)
      modifies this
      ensures Outcome(Snapshot(), r) == Legacy.CompareHands(old(Snapshot()))
    {
      var playerTotal := CalculateHandValue(playerHand);
      var dealerTotal := CalculateHandValue(dealerHand);
      done := true;
      var p := CardSet(playerHand) == BlackjackSet;
      var d := CardSet(dealerHand) == BlackjackSet;
      if p && !d && |playerHand| == 2 {
        return Reward(1.5, true);
      } else if !p && d && |dealerHand| == 2 {
        return Reward(-1.5, true);
      } else if p && d && |playerHand| == 2 && |dealerHand| == 2 {
        return Reward(0.0, true);
      }
      if dealerTotal > 21 {
        return Reward(1.0, true);
      } else if playerTotal > dealerTotal {
        return Reward(1.0, true);
      } else if playerTotal < dealerTotal {
        return Reward(-1.0, true);
      }
      return Reward(0.0, true);
    }

    /** `compare_split_hands`: the dealer plays, then `is_bust` raises. */
    method CompareSplitHands() returns (r: StepResult)
      modifies this
      ensures Outcome(Snapshot(), r) == Legacy.CompareSplitHands(old(Snapshot()))
    {
      if splitActive && currentHandIndex > 0 {
        var finished := DealerHits();
        if !finished {
          return Raised(EmptyShoe);
        }
        if |playerHands| > 0 {
          return Raised(MissingIsBust);
        }
        return Raised(NoHands);
      }
      return Reward(-1.0, false);
    }

    /** `step`. */
    method Step(action: int) returns (r: StepResult)
      requires Valid()
      modifies this
      ensures Outcome(Snapshot(), r) == Legacy.Step(old(Snapshot()), action)
      ensures Valid()
    {
      StepKeeps(Snapshot(), action);
      if done {
        return Reward(0.0, true);
      }
      if action == 0 {
        r := HandlePlayerHit();
      } else if action == 1 {
        r := HandlePlayerStand();
      } else if action == 2 {
        r := HandlePlayerDouble();
      } else if action == 3 {
        r := HandlePlayerSplit();
      } else {
        r := Reward(-1.0, true);
      }
    }

    /** `get_state`: the player's total and soft flag, the dealer's up-card
        (ace as 11) and the fraction of each value 2..11 among the remaining
        cards; an empty deck divides by zero and gives None. */
    method GetState() returns (r: Option<seq<real>>)
      requires Valid()
      ensures r.None? <==> deck == []
      ensures r.Some? ==> |r.value| == 13
      ensures r.Some? ==>
        && r.value[0] == LegacyValue(playerHand) as real
        && r.value[1] == (if HighAces(playerHand, LegacyAceStep) > 0 then 1.0 else 0.0)
        && r.value[2] == HighValue(dealerHand[0]) as real
        && forall j :: 3 <= j < 13 ==> r.value[j] == (CountValue(deck, j - 1) as real) / (|deck| as real)
    {
      var score, aces := ReducedTotal(playerHand, LegacyAceStep);
      var isSoft := if aces > 0 then 1.0 else 0.0;
      var dealerValue := HighValue(dealerHand[0]);
      var counts := CountByValue(deck);
      if |deck| == 0 {
        return None;
      }
      var total := |deck| as real;
      var percentages := seq(10, j requires 0 <= j < 10 => counts[j] as real / total);
      r := Some([score as real, isSoft, dealerValue as real] + percentages);
    }
  }
}
