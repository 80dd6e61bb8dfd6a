/** The earlier two-deck environment, modelled as written: its hand value
    takes 11 off per reduced ace, every reset deals from a fresh shuffled
    two-deck shoe, the split bookkeeping survives a reset, a dealer natural
    costs 1.5, and settling split hands calls a method the class does not
    have. As in the source, `player_hand` is a list object of its own that
    may also be one of the entries of `player_hands`; `slot` records which. */
module Legacy {
  import opened Wrappers
  import opened Cards
  import opened Shoe
  import opened Showdown
  import Round
  import RoundLaws

  const LegacyAllowedSplits: nat := 4
  const LegacyMaxHands: nat := 8
  /** What this version takes off the total for each reduced ace. */
  const LegacyAceStep: int := 11
  const LegacyDecks: nat := 2

  function LegacyValue(hand: seq<Card>): int {
    Total(hand, LegacyAceStep)
  }

  predicate LegacyBust(hand: seq<Card>) {
    LegacyValue(hand) > 21
  }

  /** Two aces read 11 here, where a correct count gives 12; ace, ace, ten
      reads 21, where a correct count gives 12. */
  lemma {:induction false} LegacyAceQuirk()
    ensures LegacyValue([Ace, Ace]) == 11 && HandValue([Ace, Ace]) == 12
    ensures LegacyValue([Ace, Ace, Pip(10)]) == 21 && HandValue([Ace, Ace, Pip(10)]) == 12
  {
    assert [Ace, Ace][..1] == [Ace] && [Ace][..0] == [];
    assert [Ace, Ace, Pip(10)][..2] == [Ace, Ace];
    assert RawSum([Ace, Ace]) == 22 && AceCount([Ace, Ace]) == 2;
    assert RawSum([Ace, Ace, Pip(10)]) == 32 && AceCount([Ace, Ace, Pip(10)]) == 2;
  }

  /** A shuffle of two decks: every card twice as often as in one deck's four suits. */
  ghost predicate IsLegacyShoe(s: seq<Card>) {
    forall c :: Count(s, c) == 8 * SuitMultiplicity(c)
  }

  /** The unshuffled two decks: 104 shoe cards, each 8 times per occurrence in a suit. */
  lemma TwoDecks(c: Card)
    ensures |Decks(LegacyDecks)| == 104 && AllShoeCards(Decks(LegacyDecks))
    ensures Count(Decks(LegacyDecks), c) == 8 * SuitMultiplicity(c)
  {
    DecksContents(LegacyDecks, c);
  }

  /** A legacy shoe is a permutation of the two unshuffled decks. */
  lemma LegacyShoeIsPermutation(s: seq<Card>)
    requires IsLegacyShoe(s)
    ensures multiset(s) == multiset(Decks(LegacyDecks))
  {
    forall c ensures Count(s, c) == Count(Decks(LegacyDecks), c) {
      TwoDecks(c);
    }
    SameCounts(s, Decks(LegacyDecks));
  }

  lemma SameCounts(a: seq<Card>, b: seq<Card>)
    requires forall c :: Count(a, c) == Count(b, c)
    ensures multiset(a) == multiset(b)
  {
    assert forall c :: multiset(a)[c] == multiset(b)[c] by {
      forall c ensures multiset(a)[c] == multiset(b)[c] {
        assert Count(a, c) == Count(b, c);
      }
    }
  }

  /** A legacy shoe has 104 shoe cards, 8 aces and 32 tens. */
  lemma LegacyShoeContents(s: seq<Card>)
    requires IsLegacyShoe(s)
    ensures |s| == 104 && AllShoeCards(s)
    ensures Count(s, Ace) == 8 && Count(s, Pip(10)) == 32
  {
    forall i | 0 <= i < |s| ensures IsShoeCard(s[i]) {
      assert Count(s, s[i]) > 0;
    }
    ValueCountsCoverShoe(s);
    assert CountValuesFrom(s, 2) == 104;
  }

  /** Exceptions a legacy step raises. */
  datatype Fault =
    | EmptyShoe      // `pop` from an empty deck
    | MissingIsBust  // split settlement calls `is_bust`, which the class does not define
    | NoHands        // the split average divides by an empty hand list

  datatype StepResult = Reward(value: real, terminal: bool) | Raised(fault: Fault)

  /** The legacy environment's fields as a value. `slot` is Some(k) when
      `player_hand` is the very list stored at `player_hands[k]`. */
  datatype State = State(
    deck: seq<Card>,
    playerHand: seq<Card>,
    slot: Option<nat>,
    dealer: seq<Card>,
    done: bool,
    splitActive: bool,
    hands: seq<seq<Card>>,
    index: nat,
    splits: nat)

  datatype Outcome = Outcome(state: State, result: StepResult)

  /** `__init__` before its call to `reset`. */
  const Initial: State := State([], [], None, [], false, false, [], 0, 0)

  /** `player_hand` being a list shared with an entry of `player_hands`. */
  predicate SlotAgrees(s: State) {
    s.slot.Some? ==> s.slot.value < |s.hands| && s.hands[s.slot.value] == s.playerHand
  }

  /** What every state after the first reset satisfies. */
  predicate LegacyConsistent(s: State) {
    SlotAgrees(s) && |s.dealer| >= 1 && AllShoeCards(s.dealer) && AllShoeCards(s.deck)
  }

  /** Changing `player_hand` in place changes the shared list entry too. */
  function SetHand(s: State, h: seq<Card>): (r: State)
    ensures SlotAgrees(s) ==> SlotAgrees(r)
  {
    var hs := if s.slot.Some? && s.slot.value < |s.hands| then s.hands[s.slot.value := h] else s.hands;
    s.(playerHand := h, hands := hs)
  }

  /** `reset`: a fresh shuffled two-deck shoe every time; two cards each from
      the top; only the deck, both hands and `done` are reassigned. */
  function Reset(s: State, shuffled: seq<Card>): State
    requires IsLegacyShoe(shuffled)
  {
    LegacyShoeContents(shuffled);
    s.(deck := shuffled[..100], playerHand := [shuffled[103], shuffled[102]], slot := None,
       dealer := [shuffled[101], shuffled[100]], done := false)
  }

  /** `add_card`: the top card onto `player_hand`; None when the deck is empty. */
  function AddCard(s: State): Option<State> {
    if s.deck == [] then None
    else Some(SetHand(s.(deck := Round.Rest(s.deck)), s.playerHand + [Round.Top(s.deck)]))
  }

  /** Action 0: draw; a bust ends the hand, moving on inside a split and losing otherwise. */
  function Hit(s: State): Outcome {
    match AddCard(s)
    case None => Outcome(s, Raised(EmptyShoe))
    case Some(s1) =>
      var bust := LegacyBust(s1.playerHand);
      var s2 := s1.(done := bust);
      if !bust then Outcome(s2, Reward(0.0, false))
      else if s2.splitActive then Transition(s2)
      else Outcome(s2, Reward(-1.0, true))
  }

  /** Action 1: inside a split move on, otherwise the dealer plays and the hands are compared. */
  function Stand(s: State): Outcome {
    if s.splitActive then Transition(s) else DealerThenCompare(s)
  }

  /** `dealer_hits` then `compare_hands`; an empty shoe on the way raises. */
  function DealerThenCompare(s: State): Outcome {
    var p := DealerPlay(s.dealer, s.deck, LegacyAceStep);
    var s1 := s.(dealer := p.0, deck := p.1);
    if !p.2 then Outcome(s1, Raised(EmptyShoe)) else CompareHands(s1)
  }

  /** Action 2: without two cards the round is lost; otherwise draw, run the
      split transition (its reward is dropped, its changes stay), then a bust
      loses and anything else is played out against the dealer. */
  function Double(s: State): Outcome {
    if |s.playerHand| != 2 then Outcome(s.(done := true), Reward(-1.0, true))
    else
      match AddCard(s)
      case None => Outcome(s, Raised(EmptyShoe))
      case Some(s1) =>
        var o := if s1.splitActive then Transition(s1) else Outcome(s1, Reward(0.0, false));
        if o.result.Raised? then o
        else if LegacyBust(o.state.playerHand) then Outcome(o.state.(done := true), Reward(-1.0, true))
        else DealerThenCompare(o.state)
  }

  /** The refusal test of `handle_player_split`, read off `player_hand`. */
  predicate SplitRefused(s: State) {
    |s.hands| == LegacyMaxHands || |s.playerHand| != 2 || s.playerHand[0] != s.playerHand[1]
    || s.splits == LegacyAllowedSplits
  }

  /** Popping entry i (when there is one) and inserting the two new hands at
      i and i + 1; past the end, `insert` appends. */
  function ReplaceAt(hands: seq<seq<Card>>, i: nat, h1: seq<Card>, h2: seq<Card>): (r: seq<seq<Card>>)
    ensures |r| == if i < |hands| then |hands| + 1 else |hands| + 2
    ensures i < |hands| ==> r[i] == h1 && r[i + 1] == h2
  {
    if i < |hands| then hands[..i] + [h1, h2] + hands[i + 1..] else hands + [h1, h2]
  }

  /** Action 3: a refused split loses; otherwise split mode is on, the count
      goes up, each card of the pair gets a card from the top, the pair's
      entry is replaced by the two hands, and `player_hand` becomes entry 0. */
  function Split(s: State): Outcome {
    if SplitRefused(s) then Outcome(s.(done := true), Reward(-1.0, true))
    else
      var s1 := s.(splitActive := true, splits := s.splits + 1);
      if |s.deck| < 2 then Outcome(s1.(deck := []), Raised(EmptyShoe))
      else
        var n := |s.deck|;
        var hs := ReplaceAt(s.hands, s.index, [s.playerHand[0], s.deck[n - 1]], [s.playerHand[1], s.deck[n - 2]]);
        Outcome(s1.(deck := s.deck[..n - 2], hands := hs, playerHand := hs[0], slot := Some(0)), Reward(0.0, false))
  }

  function AdvanceToNextSplitHand(s: State): Outcome
    requires s.index + 1 < |s.hands|
  {
    Outcome(s.(done := false, index := s.index + 1, playerHand := s.hands[s.index + 1], slot := Some(s.index + 1)),
            Reward(0.0, false))
  }

  function Transition(s: State): Outcome {
    if s.index < |s.hands| - 1 then AdvanceToNextSplitHand(s) else CompareSplitHands(s)
  }

  /** `compare_hands` as a table: naturals are read from card sets, so a
      natural against a dealer whose cards are also just tens and aces pays
      nothing extra, and a dealer natural costs 1.5 against a player whose
      cards are not just tens and aces. Then dealer bust, higher and lower. */
  function LegacyOutcome(player: seq<Card>, dealer: seq<Card>): real {
    var p := CardSet(player) == BlackjackSet;
    var d := CardSet(dealer) == BlackjackSet;
    if p && !d && |player| == 2 then 1.5
    else if !p && d && |dealer| == 2 then -1.5
    else if p && d && |player| == 2 && |dealer| == 2 then 0.0
    else
      var pt, dt := LegacyValue(player), LegacyValue(dealer);
      if dt > 21 then 1.0 else if pt > dt then 1.0 else if pt < dt then -1.0 else 0.0
  }

  function CompareHands(s: State): Outcome {
    Outcome(s.(done := true), Reward(LegacyOutcome(s.playerHand, s.dealer), true))
  }

  /** `compare_split_hands`: past the first hand of a split the dealer plays,
      and the first hand's `is_bust` call raises; otherwise -1, not terminal. */
  function CompareSplitHands(s: State): Outcome {
    if s.splitActive && s.index > 0 then
      var p := DealerPlay(s.dealer, s.deck, LegacyAceStep);
      var s1 := s.(dealer := p.0, deck := p.1);
      if !p.2 then Outcome(s1, Raised(EmptyShoe))
      else if |s.hands| > 0 then Outcome(s1, Raised(MissingIsBust))
      else Outcome(s1, Raised(NoHands))
    else Outcome(s, Reward(-1.0, false))
  }

  /** `step`: a finished round answers 0; unknown codes answer -1 as terminal but change nothing. */
  function Step(s: State, action: int): Outcome {
    if s.done then Outcome(s, Reward(0.0, true))
    else if action == 0 then Hit(s)
    else if action == 1 then Stand(s)
    else if action == 2 then Double(s)
    else if action == 3 then Split(s)
    else Outcome(s, Reward(-1.0, true))
  }

  /** After `reset` 100 cards remain and each side holds two, all from the
      shuffled shoe; the split bookkeeping of the previous round is kept. */
  lemma ResetDeals(s: State, shuffled: seq<Card>)
    requires IsLegacyShoe(shuffled)
    ensures var r := Reset(s, shuffled);
      && |r.deck| == 100 && |r.playerHand| == 2 && |r.dealer| == 2 && !r.done && r.slot.None?
      && multiset(r.deck) + multiset(r.playerHand) + multiset(r.dealer) == multiset(shuffled)
      && r.hands == s.hands && r.index == s.index && r.splits == s.splits && r.splitActive == s.splitActive
      && LegacyConsistent(r)
  {
    LegacyShoeContents(shuffled);
    var r := Reset(s, shuffled);
    RoundLaws.LastFour(shuffled);
    assert AllShoeCards(r.deck) by {
      forall i | 0 <= i < |r.deck| ensures IsShoeCard(r.deck[i]) {
        assert r.deck[i] == shuffled[i];
      }
    }
    assert IsShoeCard(shuffled[100]) && IsShoeCard(shuffled[101]);
  }

  /** `compare_hands`: a natural (two cards, a ten and an ace) against a
      dealer whose cards are not just tens and aces pays 1.5; a dealer natural
      against a player whose cards are not just tens and aces costs 1.5; two
      naturals push; in every other case, including a natural against three
      or more tens and aces, the dealer's bust wins, then the higher total
      wins and equal totals push. */
  lemma LegacyOutcomeTable(player: seq<Card>, dealer: seq<Card>)
    ensures IsNatural(player) && CardSet(dealer) != BlackjackSet ==> LegacyOutcome(player, dealer) == 1.5
    ensures CardSet(player) != BlackjackSet && IsNatural(dealer) ==> LegacyOutcome(player, dealer) == -1.5
    ensures IsNatural(player) && IsNatural(dealer) ==> LegacyOutcome(player, dealer) == 0.0
    ensures !IsNatural(player) && !IsNatural(dealer) ==>
      LegacyOutcome(player, dealer) == (if LegacyBust(dealer) then 1.0
        else if LegacyValue(player) > LegacyValue(dealer) then 1.0
        else if LegacyValue(player) < LegacyValue(dealer) then -1.0 else 0.0)
    ensures IsNatural(player) && CardSet(dealer) == BlackjackSet && |dealer| != 2 ==>
      LegacyOutcome(player, dealer) == (if LegacyBust(dealer) then 1.0
        else if LegacyValue(player) > LegacyValue(dealer) then 1.0
        else if LegacyValue(player) < LegacyValue(dealer) then -1.0 else 0.0)
    ensures CardSet(player) == BlackjackSet && |player| != 2 && IsNatural(dealer) ==>
      LegacyOutcome(player, dealer) == (if LegacyBust(dealer) then 1.0
        else if LegacyValue(player) > LegacyValue(dealer) then 1.0
        else if LegacyValue(player) < LegacyValue(dealer) then -1.0 else 0.0)
    ensures LegacyOutcome(player, dealer) in {1.5, -1.5, 1.0, -1.0, 0.0}
  {
  }

  /** With aces reduced by 11, ace, ace, ten reads 21, so against a dealer
      natural it pushes; its card set is that of a natural, so only the
      totals decide, and read as 12 it would lose. */
  lemma QuirkTwentyOnePushesNatural()
    ensures LegacyOutcome([Ace, Ace, Pip(10)], [Pip(10), Ace]) == 0.0
  {
    LegacyAceQuirk();
    assert CardSet([Ace, Ace, Pip(10)]) == BlackjackSet;
    var natural := [Pip(10), Ace];
    assert natural[0] == Pip(10) && natural[1] == Ace;
    assert CardSet(natural) == BlackjackSet;
    assert natural[..1] == [Pip(10)] && [Pip(10)][..0] == [];
    assert RawSum(natural) == 21 && AceCount(natural) == 1;
    LegacyOutcomeTable([Ace, Ace, Pip(10)], [Pip(10), Ace]);
  }

  /** A refused split loses at once; an accepted one, with two cards to draw,
      counts the split, puts the two new two-card hands in place of the pair
      (appending them when the current index is past the list), keeps the
      index, and leaves `player_hand` on the first entry, whichever hand was
      split. The split count never passes four. */
  lemma SplitLaws(s: State)
    ensures SplitRefused(s) ==> Split(s) == Outcome(s.(done := true), Reward(-1.0, true))
    ensures s.splits <= LegacyAllowedSplits ==> Split(s).state.splits <= LegacyAllowedSplits
    ensures !SplitRefused(s) && |s.deck| >= 2 ==>
      var o := Split(s);
      var n := |s.deck|;
      && o.result == Reward(0.0, false)
      && o.state.splits == s.splits + 1 && o.state.splitActive && o.state.index == s.index
      && o.state.deck == s.deck[..n - 2]
      && (s.index < |s.hands| ==>
            && |o.state.hands| == |s.hands| + 1
            && o.state.hands[s.index] == [s.playerHand[0], s.deck[n - 1]]
            && o.state.hands[s.index + 1] == [s.playerHand[1], s.deck[n - 2]]
            && o.state.hands[..s.index] == s.hands[..s.index]
            && o.state.hands[s.index + 2..] == s.hands[s.index + 1..])
      && (s.index >= |s.hands| ==>
            o.state.hands == s.hands + [[s.playerHand[0], s.deck[n - 1]], [s.playerHand[1], s.deck[n - 2]]])
      && o.state.playerHand == o.state.hands[0] && o.state.slot == Some(0)
  {
    if !SplitRefused(s) && |s.deck| >= 2 && s.index < |s.hands| {
      var n := |s.deck|;
      var h1, h2 := [s.playerHand[0], s.deck[n - 1]], [s.playerHand[1], s.deck[n - 2]];
      var hs := ReplaceAt(s.hands, s.index, h1, h2);
      assert hs[..s.index] == s.hands[..s.index];
      assert hs[s.index + 2..] == s.hands[s.index + 1..];
    }
  }

  /** A finished round answers 0, terminal, and nothing changes; an unknown
      action code answers -1, terminal, and nothing changes either (not even `done`). */
  lemma StepGuards(s: State, action: int)
    ensures s.done ==> Step(s, action) == Outcome(s, Reward(0.0, true))
    ensures !s.done && !(0 <= action <= 3) ==> Step(s, action) == Outcome(s, Reward(-1.0, true))
  {
  }

  /** Settling split hands never yields a reward past the first hand: the
      dealer plays and then the missing `is_bust` raises. Before that the
      fallback answers -1, not terminal, and changes nothing. */
  lemma SplitSettlementRaises(s: State)
    ensures s.splitActive && s.index > 0 ==> CompareSplitHands(s).result.Raised?
    ensures s.splitActive && s.index > 0 && |s.hands| > 0 && DealerPlay(s.dealer, s.deck, LegacyAceStep).2 ==>
      CompareSplitHands(s).result == Raised(MissingIsBust)
    ensures !(s.splitActive && s.index > 0) ==> CompareSplitHands(s) == Outcome(s, Reward(-1.0, false))
  {
  }

  /** So a split round can never be settled: standing on the last hand of a
      split that has moved past its first hand raises. */
  lemma {:induction false} StandOnLastSplitHandRaises(s: State)
    requires !s.done && s.splitActive && 0 < s.index && s.index == |s.hands| - 1
    ensures Step(s, 1).result.Raised?
  {
    SplitSettlementRaises(s);
  }

  lemma AddCardKeeps(s: State)
    requires LegacyConsistent(s)
    ensures AddCard(s).Some? ==> LegacyConsistent(AddCard(s).value)
    ensures AddCard(s).Some? ==> |AddCard(s).value.deck| == |s.deck| - 1
  {
    if s.deck != [] {
      var d := Round.Rest(s.deck);
      assert forall i :: 0 <= i < |d| ==> d[i] == s.deck[i];
    }
  }

  lemma DealerKeeps(s: State)
    requires LegacyConsistent(s)
    ensures var p := DealerPlay(s.dealer, s.deck, LegacyAceStep);
      LegacyConsistent(s.(dealer := p.0, deck := p.1))
  {
    DealerPlayConserves(s.dealer, s.deck, LegacyAceStep);
    DealerPlayFacts(s.dealer, s.deck, LegacyAceStep);
  }

  lemma TransitionKeeps(s: State)
    requires LegacyConsistent(s)
    ensures LegacyConsistent(Transition(s).state)
  {
    if !(s.index < |s.hands| - 1) && s.splitActive && s.index > 0 {
      DealerKeeps(s);
    }
  }

  lemma DealerThenCompareKeeps(s: State)
    requires LegacyConsistent(s)
    ensures LegacyConsistent(DealerThenCompare(s).state)
  {
    DealerKeeps(s);
  }

  lemma SplitKeeps(s: State)
    requires LegacyConsistent(s)
    ensures LegacyConsistent(Split(s).state)
  {
    if !SplitRefused(s) && |s.deck| >= 2 {
      var n := |s.deck|;
      var d := s.deck[..n - 2];
      assert forall i :: 0 <= i < |d| ==> d[i] == s.deck[i];
    }
  }

  /** Every step keeps `player_hand` in agreement with the entry it shares,
      a dealer hand of shoe cards, and a deck of shoe cards. */
  lemma StepKeeps(s: State, action: int)
    requires LegacyConsistent(s)
    ensures LegacyConsistent(Step(s, action).state)
  {
    if !s.done {
      if action == 0 || action == 2 {
        AddCardKeeps(s);
        if AddCard(s).Some? {
          var s1 := AddCard(s).value;
          TransitionKeeps(s1.(done := LegacyBust(s1.playerHand)));
          TransitionKeeps(s1);
          if s1.splitActive {
            DealerThenCompareKeeps(Transition(s1).state);
          } else {
            DealerThenCompareKeeps(s1);
          }
        }
      } else if action == 1 {
        TransitionKeeps(s);
        DealerThenCompareKeeps(s);
      } else if action == 3 {
        SplitKeeps(s);
      }
    }
  }

  /** Python's `list.insert` at a non-negative index: past the end it appends. */
  function Insert(xs: seq<seq<Card>>, i: nat, x: seq<Card>): (r: seq<seq<Card>>)
    ensures |r| == |xs| + 1
  {
    if i <= |xs| then xs[..i] + [x] + xs[i..] else xs + [x]
  }

  /** Popping entry i (when it exists) and inserting at i and i + 1 replaces
      the entry by the two hands, or appends both past the end. */
  lemma {:induction false} PopInsertInsert(hands: seq<seq<Card>>, i: nat, h1: seq<Card>, h2: seq<Card>)
    ensures var popped := if i < |hands| then hands[..i] + hands[i + 1..] else hands;
      Insert(Insert(popped, i, h1), i + 1, h2) == ReplaceAt(hands, i, h1, h2)
  {
    if i < |hands| {
      var popped := hands[..i] + hands[i + 1..];
      assert popped[..i] == hands[..i] && popped[i..] == hands[i + 1..];
      var once := Insert(popped, i, h1);
      assert once == hands[..i] + [h1] + hands[i + 1..];
      assert once[..i + 1] == hands[..i] + [h1] && once[i + 1..] == hands[i + 1..];
    }
  }
}
