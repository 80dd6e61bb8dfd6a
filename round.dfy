/** One round of the training environment, as a value: the table (shoe, the
    player's hands, the dealer's hand, the round's flags and the stake
    ledger) and the transition each agent action makes on it. The
    environment class mirrors these functions step for step. */
module Round {
  import opened Wrappers
  import opened Cards
  import opened Shoe
  import opened Payout
  import opened Showdown

  const AllowedSplits: nat := 4
  /** The hand count at which a split is refused outright. */
  const MaxHands: nat := 8
  /** Aces are reduced by 10 everywhere in the environment. */
  const AceStep: int := 10

  /** Exceptions the source raises out of a step. */
  datatype Fault =
    | EmptyShoe         // `pop` from an empty deck
    | MissingSplitHook  // the split handler calls a ledger method that does not exist
    | SplitAssertion    // the assertion guarding action 3 in `step`

  /** What a step hands back to the agent: a reward and the terminal flag, or an exception. */
  datatype StepResult = Reward(value: real, terminal: bool) | Raised(fault: Fault)

  /** The player's hands are one list; the hand being played is the one at
      `index` (the source's `player_hand` always refers to that list entry). */
  datatype Table = Table(
    deck: seq<Card>,
    hands: seq<seq<Card>>,
    dealer: seq<Card>,
    done: bool,
    splitActive: bool,
    index: nat,
    splits: nat,
    baseBet: real,
    ledger: Ledger,
    mode: RewardMode)

  datatype Outcome = Outcome(table: Table, result: StepResult)

  /** What every transition needs: a current hand, and a stake for each hand. */
  predicate WellFormed(t: Table) {
    t.index < |t.hands| <= |t.ledger.bets|
  }

  function Hand(t: Table): seq<Card>
    requires t.index < |t.hands|
  {
    t.hands[t.index]
  }

  /** The card `pop` takes: the last one. */
  function Top(deck: seq<Card>): Card
    requires deck != []
  {
    deck[|deck| - 1]
  }

  function Rest(deck: seq<Card>): seq<Card>
    requires deck != []
  {
    deck[..|deck| - 1]
  }

  /** `reset`: reshuffle when the shoe is low, then deal two cards to the
      player and two to the dealer from the top; the split bookkeeping starts
      over while the stake ledger is kept. */
  function Reset(t: Table, shuffled: seq<Card>): Table
    requires IsShuffledShoe(shuffled)
  {
    var d := CreateDeck(t.deck, shuffled);
    var n := |d|;
    Table(d[..n - 4], [[d[n - 1], d[n - 2]]], [d[n - 3], d[n - 4]], false, false, 0, 0, t.baseBet, t.ledger, t.mode)
  }

  /** `set_bet`: a new base stake and a fresh ledger. */
  function SetBet(t: Table, bet: real): Table {
    t.(baseBet := bet, ledger := Opened(bet))
  }

  /** Action 0. The top card goes to the current hand; a bust ends the hand:
      inside a split play moves on, otherwise the hand's stake is lost. */
  function Hit(t: Table): Outcome
    requires WellFormed(t)
  {
    if t.deck == [] then Outcome(t, Raised(EmptyShoe))
    else
      var hand := Hand(t) + [Top(t.deck)];
      var bust := IsBust(hand);
      var t' := t.(deck := Rest(t.deck), hands := t.hands[t.index := hand], done := bust);
      if !bust then Outcome(t', Reward(0.0, false))
      else if t'.splitActive then SplitTransition(t')
      else Outcome(t'.(ledger := AfterSettle(t'.ledger, t'.index, -1.0)), Reward(-1.0, true))
  }

  /** Action 1. Inside a split, move on; otherwise the dealer plays and the hand is compared. */
  function Stand(t: Table): Outcome
    requires WellFormed(t)
  {
    if t.splitActive then SplitTransition(t) else DealerThenCompare(t)
  }

  /** Action 2. Without exactly two cards the stake is lost; otherwise one
      card is drawn and the stake doubled, then the hand ends like a stand,
      except that a bust outside a split loses at once. */
  function Double(t: Table): Outcome
    requires WellFormed(t)
  {
    if |Hand(t)| != 2 then
      Outcome(t.(done := true, ledger := AfterSettle(t.ledger, t.index, -1.0)), Reward(-1.0, true))
    else if t.deck == [] then Outcome(t, Raised(EmptyShoe))
    else
      var t' := t.(deck := Rest(t.deck), hands := t.hands[t.index := Hand(t) + [Top(t.deck)]],
                   ledger := AfterDouble(t.ledger, t.index));
      if t'.splitActive then SplitTransition(t')
      else if IsBust(Hand(t')) then
        Outcome(t'.(done := true, ledger := AfterSettle(t'.ledger, t'.index, -1.0)), Reward(-1.0, true))
      else DealerThenCompare(t')
  }

  /** The guard of `handle_player_split`: eight hands, a hand that is not a
      pair, or the split limit reached, and the split is refused. */
  predicate SplitRejected(t: Table)
    requires t.index < |t.hands|
  {
    |t.hands| == MaxHands || |Hand(t)| != 2 || Hand(t)[0] != Hand(t)[1] || t.splits == AllowedSplits
  }

  /** Action 3, with the ledger's `on_split` hook: a refused split ends the
      round at -1; otherwise one base stake is added, and the pair becomes two
      hands, each completed with a card from the top, in place of the pair. */
  function Split(t: Table): Outcome
    requires WellFormed(t)
  {
    if SplitRejected(t) then Outcome(t.(done := true), Reward(-1.0, true))
    else
      var t1 := t.(ledger := AfterSplit(t.ledger), splitActive := true, splits := t.splits + 1);
      if |t.deck| < 2 then Outcome(t1.(deck := []), Raised(EmptyShoe))
      else
        var n := |t.deck|;
        var h1 := [Hand(t)[0], t.deck[n - 1]];
        var h2 := [Hand(t)[1], t.deck[n - 2]];
        Outcome(t1.(deck := t.deck[..n - 2], hands := t.hands[..t.index] + [h1, h2] + t.hands[t.index + 1..]),
                Reward(0.0, false))
  }

  /** Action 3 as the source has it: once past the guard it calls the
      ledger's `on_split_at`, which the ledger does not define. */
  function SplitAsWritten(t: Table): Outcome
    requires WellFormed(t)
  {
    if SplitRejected(t) then Outcome(t.(done := true), Reward(-1.0, true))
    else Outcome(t, Raised(MissingSplitHook))
  }

  function AdvanceToNextSplitHand(t: Table): Outcome {
    Outcome(t.(done := false, index := t.index + 1), Reward(0.0, false))
  }

  /** After a split hand ends: play the next hand, or settle them all after the last. */
  function SplitTransition(t: Table): Outcome
    requires WellFormed(t)
  {
    if t.index < |t.hands| - 1 then AdvanceToNextSplitHand(t) else CompareSplitHands(t)
  }

  /** The dealer plays out, then the single hand is compared; an empty shoe on the way raises. */
  function DealerThenCompare(t: Table): Outcome
    requires WellFormed(t)
  {
    var p := DealerPlay(t.dealer, t.deck, AceStep);
    var t' := t.(dealer := p.0, deck := p.1);
    if !p.2 then Outcome(t', Raised(EmptyShoe)) else CompareHands(t')
  }

  /** `compare_hands`: the round ends and the first stake is settled with the outcome. */
  function CompareHands(t: Table): Outcome
    requires WellFormed(t)
  {
    var r := HandOutcome(Hand(t), t.dealer);
    Outcome(t.(done := true, ledger := AfterSettle(t.ledger, 0, r)), Reward(r, true))
  }

  predicate AllBust(hands: seq<seq<Card>>) {
    forall j :: 0 <= j < |hands| ==> IsBust(hands[j])
  }

  /** Settle, in hand order, every hand among the first k whose bust status is `busted`. */
  function SettleHands(l: Ledger, hands: seq<seq<Card>>, dealer: seq<Card>, k: nat, busted: bool): (r: Ledger)
    requires k <= |hands| <= |l.bets|
    ensures r.bets == l.bets && r.totalBet == l.totalBet && r.baseBet == l.baseBet
  {
    if k == 0 then l
    else
      var l' := SettleHands(l, hands, dealer, k - 1, busted);
      if IsBust(hands[k - 1]) == busted then AfterSettle(l', k - 1, SplitResult(hands[k - 1], dealer)) else l'
  }

  /** The sum of the results of those same hands. */
  function ScoreHands(hands: seq<seq<Card>>, dealer: seq<Card>, k: nat, busted: bool): real
    requires k <= |hands|
  {
    if k == 0 then 0.0
    else ScoreHands(hands, dealer, k - 1, busted) + (if IsBust(hands[k - 1]) == busted then SplitResult(hands[k - 1], dealer) else 0.0)
  }

  /** `compare_split_hands`: busted hands lose first; unless every hand
      busted, the dealer plays once and every other hand is compared with the
      dealer; the reward is the mode's aggregate of the summed results. */
  function CompareSplitHands(t: Table): Outcome
    requires WellFormed(t)
  {
    if t.splitActive && t.index > 0 then
      var n := |t.hands|;
      var l1 := SettleHands(t.ledger, t.hands, t.dealer, n, true);
      var s1 := ScoreHands(t.hands, t.dealer, n, true);
      if AllBust(t.hands) then
        Outcome(t.(ledger := l1, splitActive := false, done := true), Reward(Aggregate(t.mode, s1, n), true))
      else
        var p := DealerPlay(t.dealer, t.deck, AceStep);
        if !p.2 then Outcome(t.(ledger := l1, dealer := p.0, deck := p.1), Raised(EmptyShoe))
        else
          var l2 := SettleHands(l1, t.hands, p.0, n, false);
          var s := s1 + ScoreHands(t.hands, p.0, n, false);
          Outcome(t.(ledger := l2, dealer := p.0, deck := p.1, splitActive := false, done := true),
                  Reward(Aggregate(t.mode, s, n), true))
    else Outcome(t.(done := true), Reward(0.0, true))
  }

  /** The condition `step` asserts before a split. */
  predicate SplitAsserted(t: Table)
    requires t.index < |t.hands|
  {
    |Hand(t)| == 2 && Hand(t)[0] == Hand(t)[1] && t.splits < AllowedSplits
  }

  /** `step`: a finished round answers 0 and stays finished; an unknown
      action answers -1 as terminal without touching the table. */
  function Step(t: Table, action: int): Outcome
    requires WellFormed(t)
  {
    if t.done then Outcome(t, Reward(0.0, true))
    else if action == 0 then Hit(t)
    else if action == 1 then Stand(t)
    else if action == 2 then Double(t)
    else if action == 3 then (if SplitAsserted(t) then Split(t) else Outcome(t, Raised(SplitAssertion)))
    else Outcome(t, Reward(-1.0, true))
  }

  /** `legal_actions`: hit and stand always, double on two cards, split on a pair under the limit. */
  function LegalActions(t: Table): seq<int>
    requires t.index < |t.hands|
  {
    [0, 1] + (if |Hand(t)| == 2 then [2] else []) + (if SplitAsserted(t) then [3] else [])
  }

  /** Every card of a list of hands. */
  function AllCards(hands: seq<seq<Card>>): multiset<Card> {
    if hands == [] then multiset{} else AllCards(hands[..|hands| - 1]) + multiset(hands[|hands| - 1])
  }

  /** The cards on the table: those left in the shoe, in the player's hands and in the dealer's. */
  function InPlay(t: Table): multiset<Card> {
    multiset(t.deck) + AllCards(t.hands) + multiset(t.dealer)
  }

  predicate HandsOfShoeCards(hands: seq<seq<Card>>) {
    forall j :: 0 <= j < |hands| ==> AllShoeCards(hands[j])
  }

  /** The invariant every completed step keeps: one hand more than splits
      made, at most four splits, a split in play whenever a split round is
      unfinished, play at the first hand until a split, a dealer up-card,
      only shoe cards on the table, and the ledger's base stake being the
      table's. */
  predicate Consistent(t: Table) {
    && WellFormed(t)
    && |t.hands| == t.splits + 1 && t.splits <= AllowedSplits
    && (t.splitActive ==> t.splits > 0)
    && (t.splits > 0 && !t.done ==> t.splitActive)
    && (t.splits == 0 ==> t.index == 0)
    && |t.dealer| >= 1
    && AllShoeCards(t.deck) && AllShoeCards(t.dealer) && HandsOfShoeCards(t.hands)
    && t.ledger.baseBet == t.baseBet
  }

  /** Stakes follow hands: one stake per hand, and every hand after the
      current one (not played yet) still carries the base stake. */
  predicate Aligned(t: Table) {
    && |t.ledger.bets| == |t.hands|
    && forall j :: t.index < j < |t.ledger.bets| ==> t.ledger.bets[j] == t.ledger.baseBet
  }

  /** The observation's true-count feature: the true count clamped to [-8, 8] and scaled by 1/8. */
  function ClipTc(tc: real): (r: real)
    ensures -1.0 <= r <= 1.0
    ensures -8.0 <= tc <= 8.0 ==> r * 8.0 == tc
    ensures tc >= 8.0 ==> r == 1.0
    ensures tc <= -8.0 ==> r == -1.0
  {
    var m := if tc < 8.0 then tc else 8.0;
    (if m > -8.0 then m else -8.0) / 8.0
  }
}
