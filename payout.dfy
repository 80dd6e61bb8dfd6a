/** The per-round stake ledger. It follows a "money already on the table"
    convention: the opening stake is counted both as staked and as paid out,
    so the net result starts at zero and every later event moves it by what
    that event wins or loses. */
module Payout {
  import opened Wrappers

  /** The ledger's state: base stake, one stake per hand, total staked, total paid out. */
  datatype Ledger = Ledger(baseBet: real, bets: seq<real>, totalBet: real, payout: real)

  function Opened(base: real): Ledger {
    Ledger(base, [base], base, base)
  }

  function Profit(l: Ledger): real {
    l.payout - l.totalBet
  }

  /** `on_split`: one more base stake at the end, staked and counted as paid. */
  function AfterSplit(l: Ledger): Ledger {
    l.(bets := l.bets + [l.baseBet], totalBet := l.totalBet + l.baseBet, payout := l.payout + l.baseBet)
  }

  /** `on_double`: the old stake of the hand is added to the payout, the
      stake is doubled and one base stake is added to the total staked. */
  function AfterDouble(l: Ledger, i: nat): Ledger
    requires i < |l.bets|
  {
    l.(payout := l.payout + l.bets[i], bets := l.bets[i := 2.0 * l.bets[i]], totalBet := l.totalBet + l.baseBet)
  }

  /** `calculate_payout`: a reward of exactly 1 pays the stake, exactly 1.5
      pays one and a half stakes, exactly 0 pays nothing, and anything else
      takes the stake. */
  function AfterSettle(l: Ledger, i: nat, reward: real): Ledger
    requires i < |l.bets|
  {
    var bet := l.bets[i];
    if reward == 1.0 then l.(payout := l.payout + bet)
    else if reward == 1.5 then l.(payout := l.payout + 1.5 * bet)
    else if reward == 0.0 then l
    else l.(payout := l.payout - bet)
  }

  /** The multiple of its stake that a settlement moves the payout by. */
  function Factor(reward: real): (f: real)
    ensures f == 1.0 || f == 1.5 || f == 0.0 || f == -1.0
    ensures (reward == 1.0 || reward == 1.5 || reward == 0.0) ==> f == reward
    ensures !(reward == 1.0 || reward == 1.5 || reward == 0.0) ==> f == -1.0
  {
    if reward == 1.0 || reward == 1.5 || reward == 0.0 then reward else -1.0
  }

  /** A new ledger holds exactly the base stake and nets zero. */
  lemma OpenedNetsZero(base: real)
    ensures Opened(base).bets == [base] && Opened(base).totalBet == base && Opened(base).payout == base
    ensures Profit(Opened(base)) == 0.0
  {
  }

  /** A split appends one base stake, keeps the other stakes, and leaves the profit as it was. */
  lemma SplitLaw(l: Ledger)
    ensures |AfterSplit(l).bets| == |l.bets| + 1
    ensures AfterSplit(l).bets[..|l.bets|] == l.bets && AfterSplit(l).bets[|l.bets|] == l.baseBet
    ensures AfterSplit(l).totalBet == l.totalBet + l.baseBet
    ensures Profit(AfterSplit(l)) == Profit(l)
  {
  }

  /** A double changes only the doubled hand's stake; the profit moves by that
      hand's old stake minus the base stake, so not at all on a base stake. */
  lemma DoubleLaw(l: Ledger, i: nat)
    requires i < |l.bets|
    ensures |AfterDouble(l, i).bets| == |l.bets|
    ensures AfterDouble(l, i).bets[i] == 2.0 * l.bets[i]
    ensures forall j :: 0 <= j < |l.bets| && j != i ==> AfterDouble(l, i).bets[j] == l.bets[j]
    ensures Profit(AfterDouble(l, i)) == Profit(l) + l.bets[i] - l.baseBet
    ensures Profit(AfterDouble(l, i)) == Profit(l) <==> l.bets[i] == l.baseBet
  {
  }

  /** A settlement leaves the stakes and the total staked alone and moves the
      payout by the reward's factor times that hand's stake. */
  lemma SettleLaw(l: Ledger, i: nat, reward: real)
    requires i < |l.bets|
    ensures AfterSettle(l, i, reward).bets == l.bets
    ensures AfterSettle(l, i, reward).totalBet == l.totalBet
    ensures AfterSettle(l, i, reward).payout == l.payout + Factor(reward) * l.bets[i]
    ensures Profit(AfterSettle(l, i, reward)) == Profit(l) + Factor(reward) * l.bets[i]
  {
  }

  /** The events a round sends to the ledger. */
  datatype Event = Splitting | Doubling(hand: nat) | Settling(hand: nat, reward: real)

  /** One event; a hand index outside the stakes raises (None). */
  function Apply(l: Ledger, e: Event): Option<Ledger> {
    match e
    case Splitting => Some(AfterSplit(l))
    case Doubling(i) => if i < |l.bets| then Some(AfterDouble(l, i)) else None
    case Settling(i, r) => if i < |l.bets| then Some(AfterSettle(l, i, r)) else None
  }

  function Run(l: Ledger, evs: seq<Event>): Option<Ledger>
    decreases |evs|
  {
    if evs == [] then Some(l)
    else match Apply(l, evs[0])
      case None => None
      case Some(l') => Run(l', evs[1..])
  }

  /** What one event wins or loses, in money, measured on the ledger it is applied to. */
  function Gain(l: Ledger, e: Event): real {
    match e
    case Splitting => 0.0
    case Doubling(i) => if i < |l.bets| then l.bets[i] - l.baseBet else 0.0
    case Settling(i, r) => if i < |l.bets| then Factor(r) * l.bets[i] else 0.0
  }

  /** The sum of the gains of a run of events, each measured on the ledger it meets. */
  function Realized(l: Ledger, evs: seq<Event>): real
    decreases |evs|
  {
    if evs == [] then 0.0
    else match Apply(l, evs[0])
      case None => 0.0
      case Some(l') => Gain(l, evs[0]) + Realized(l', evs[1..])
  }

  /** The ledger's profit after any run of splits, doubles and settlements is
      the sum of what each event realized: stake times outcome for each
      settlement, and the extra stake for each double of a non-base stake. */
  lemma {:induction false} ProfitLaw(l: Ledger, evs: seq<Event>)
    requires Run(l, evs).Some?
    ensures Profit(Run(l, evs).value) == Profit(l) + Realized(l, evs)
    decreases |evs|
  {
    if evs != [] {
      var l' := Apply(l, evs[0]).value;
      ProfitLaw(l', evs[1..]);
      match evs[0]
      case Splitting => SplitLaw(l);
      case Doubling(i) => DoubleLaw(l, i);
      case Settling(i, r) => SettleLaw(l, i, r);
    }
  }

  /** Base 10, double, then a win: the doubled stake of 20 is won. */
  lemma DoubleThenWin()
    ensures Run(Opened(10.0), [Doubling(0), Settling(0, 1.0)]).Some?
    ensures Profit(Run(Opened(10.0), [Doubling(0), Settling(0, 1.0)]).value) == 20.0
  {
    var evs := [Doubling(0), Settling(0, 1.0)];
    assert evs[1..] == [Settling(0, 1.0)] && evs[1..][1..] == [];
    ProfitLaw(Opened(10.0), evs);
  }

  /** When every stake after hand i is still the base stake, appending a base
      stake gives the same stakes as inserting it right after hand i. */
  lemma {:induction false} AppendIsInsertAfter(bets: seq<real>, base: real, i: nat)
    requires i < |bets|
    requires forall j :: i < j < |bets| ==> bets[j] == base
    ensures bets + [base] == bets[..i + 1] + [base] + bets[i + 1..]
  {
    var a, b := bets + [base], bets[..i + 1] + [base] + bets[i + 1..];
    assert |a| == |b|;
    forall j | 0 <= j < |a| ensures a[j] == b[j] {
      if j > i + 1 { assert b[j] == bets[j - 1]; }
    }
  }

  /** The `get_info` summary. */
  datatype Info = Info(totalBet: real, totalPayout: real, netResult: real)

  class PayoutTracker {
    var baseBet: real
    var totalBet: real
    var bets: seq<real>
    var payout: real

    function State(): Ledger
      reads this
    {
      Ledger(baseBet, bets, totalBet, payout)
    }

    constructor (base: real)
      ensures State() == Opened(base)
    {
      baseBet := base;
      totalBet := base;
      bets := [base];
      payout := base;
    }

    method OnSplit()
      modifies this
      ensures State() == AfterSplit(old(State()))
    {
      bets := bets + [baseBet];
      totalBet := totalBet + baseBet;
      payout := payout + baseBet;
    }

    method OnDouble(handIndex: nat)
      requires handIndex < |bets|
      modifies this
      ensures State() == AfterDouble(old(State()), handIndex)
    {
      payout := payout + bets[handIndex];
      bets := bets[handIndex := bets[handIndex] * 2.0];
      totalBet := totalBet + baseBet;
    }

    method CalculatePayout(handIndex: nat, reward: real)
      requires handIndex < |bets|
      modifies this
      ensures State() == AfterSettle(old(State()), handIndex, reward)
    {
      var bet := bets[handIndex];
      if reward == 1.0 {
        payout := payout + bet;
      } else if reward == 1.5 {
        payout := payout + 1.5 * bet;
      } else if reward == 0.0 {
      } else {
        payout := payout - bet;
      }
    }

    function CalculateProfit(): real
      reads this
    {
      payout - totalBet
    }

    /** The summary; its net result is always the payout less the total staked. */
    function GetInfo(): (info: Info)
      reads this
      ensures info.totalBet == totalBet && info.totalPayout == payout
      ensures info.netResult == info.totalPayout - info.totalBet == Profit(State())
    {
      Info(totalBet, payout, CalculateProfit())
    }
  }
}
