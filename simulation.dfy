/** The stand-alone console game: one shuffled 56-card deck, a player who
    hits on request until standing or busting, and a dealer who draws to 17.
    The deck's top card is the LAST element of the sequence. */
module Simulation {
  import opened Wrappers
  import opened Cards
  import Shoe
  import Showdown

  /** One suit of the game's deck as listed: an ace, a card worth 1, the pips 2..9 and four tens. */
  const SimSuit: seq<Card> := [Ace] + Shoe.PipRun(1, 9) + Shoe.Tens

  /** The game's deck: the suit four times. */
  const SimulationDeck: seq<Card> := Shoe.Repeat(SimSuit, 4)

  /** How often a card occurs in the suit: ace and pips 1..9 once, the ten four times. */
  function SimMultiplicity(c: Card): nat {
    if c == Ace then 1 else if c == Pip(10) then 4 else if c.Pip? && 1 <= c.rank <= 9 then 1 else 0
  }

  /** Each card occurs in the suit as often as its multiplicity says. */
  lemma SimSuitCount(c: Card)
    ensures |SimSuit| == 14
    ensures Shoe.Count(SimSuit, c) == SimMultiplicity(c)
  {
    var pips := Shoe.PipRun(1, 9);
    Shoe.PipRunContents(1, 9, c);
    assert Shoe.Count(pips, c) == if c.Pip? && 1 <= c.rank <= 9 then 1 else 0;
    Shoe.SuitLayoutCount(pips, c);
    assert SimSuit == [Ace] + pips + Shoe.Tens;
  }

  /** The deck holds 56 cards: 4 aces, 4 cards worth 1, 4 of each pip 2..9 and 16 tens. */
  lemma SimulationDeckContents(c: Card)
    ensures |SimulationDeck| == 56
    ensures Shoe.Count(SimulationDeck, c) == 4 * SimMultiplicity(c)
  {
    SimSuitCount(c);
    Shoe.RepeatCount(SimSuit, 4, c);
  }

  /** `cal_hand_val`: the card sum with aces as 11, reduced by 10 per ace
      while over 21. A value over 21 has every ace already counted as 1. */
  method CalHandVal(hand: seq<Card>) returns (value: int)
    ensures value == HandValue(hand)
    ensures value > 21 ==> value == RawSum(hand) - 10 * AceCount(hand)
  {
    var aces;
    value, aces := ReducedTotal(hand, 10);
    if value > 21 {
      BustMeansAllAcesLow(hand);
    }
  }

  /** `is_bust`: the hand's value is over 21. */
  method CheckBust(hand: seq<Card>) returns (bust: bool)
    ensures bust <==> IsBust(hand)
  {
    var score := CalHandVal(hand);
    bust := score > 21;
  }

  /** How a game ends, in the order the source tests the cases. */
  datatype Verdict = PlayerBusts | DealerBusts | PlayerHigher | DealerHigher | Push

  /** The classification at the end of `play_game`. */
  function Classify(player: seq<Card>, dealer: seq<Card>): Verdict {
    if IsBust(player) then PlayerBusts
    else if IsBust(dealer) then DealerBusts
    else if HandValue(player) > HandValue(dealer) then PlayerHigher
    else if HandValue(player) < HandValue(dealer) then DealerHigher
    else Push
  }

  /** Each verdict holds exactly in its own case: a player bust loses first,
      then a dealer bust wins, then the higher total wins and equal totals push. */
  lemma ClassifyLaws(player: seq<Card>, dealer: seq<Card>)
    ensures Classify(player, dealer) == PlayerBusts <==> IsBust(player)
    ensures Classify(player, dealer) == DealerBusts <==> !IsBust(player) && IsBust(dealer)
    ensures Classify(player, dealer) == PlayerHigher <==> !IsBust(player) && !IsBust(dealer) && HandValue(player) > HandValue(dealer)
    ensures Classify(player, dealer) == DealerHigher <==> !IsBust(player) && !IsBust(dealer) && HandValue(player) < HandValue(dealer)
    ensures Classify(player, dealer) == Push <==> !IsBust(player) && !IsBust(dealer) && HandValue(player) == HandValue(dealer)
  {
  }

  /** The game's globals: the deck and the two hands. */
  datatype Table = Table(deck: seq<Card>, player: seq<Card>, dealer: seq<Card>)

  /** The player's turn, with the player's answers given as the number of
      "h" answers before the first other one: draw while not bust and hits
      are left. The flag is false when the deck runs out on a hit. */
  function PlayerDraws(player: seq<Card>, deck: seq<Card>, hits: nat): (seq<Card>, seq<Card>, bool)
    decreases hits
  {
    if IsBust(player) || hits == 0 then (player, deck, true)
    else if deck == [] then (player, deck, false)
    else PlayerDraws(player + [deck[|deck| - 1]], deck[..|deck| - 1], hits - 1)
  }

  /** The player takes cards off the top of the deck in order and nothing
      else, never more than the hits asked for, and stops early only on a
      bust or an empty deck. */
  lemma {:induction false} PlayerDrawsFacts(player: seq<Card>, deck: seq<Card>, hits: nat)
    ensures var r := PlayerDraws(player, deck, hits);
      var k := |r.0| - |player|;
      && 0 <= k <= hits && k <= |deck|
      && r.0 == player + Popped(deck, k) && r.1 == deck[..|deck| - k]
      && (r.2 ==> IsBust(r.0) || k == hits)
      && (!r.2 ==> r.1 == [] && !IsBust(r.0))
    decreases hits
  {
    var r := PlayerDraws(player, deck, hits);
    if !IsBust(player) && hits > 0 && deck != [] {
      var p', d' := player + [deck[|deck| - 1]], deck[..|deck| - 1];
      PlayerDrawsFacts(p', d', hits - 1);
      var k := |r.0| - |player|;
      assert [deck[|deck| - 1]] + Popped(d', k - 1) == Popped(deck, k);
      assert d'[..|d'| - (k - 1)] == deck[..|deck| - k];
    }
  }

  /** `play_game` from a given table: two cards to the player, two to the
      dealer, the player's turn, and unless the player busted the dealer's
      turn, then the verdict. None when a pop meets an empty deck. */
  function PlayGameSpec(t: Table, hits: nat): (Table, Option<Verdict>) {
    if |t.deck| < 2 then (t.(deck := []), None)
    else if |t.deck| < 4 then (Table([], Popped(t.deck, 2), t.dealer), None)
    else
      var n := |t.deck|;
      var player, dealer, deck := Popped(t.deck, 2), [t.deck[n - 3], t.deck[n - 4]], t.deck[..n - 4];
      var (p, d, ok) := PlayerDraws(player, deck, hits);
      if !ok then (Table(d, p, dealer), None)
      else if IsBust(p) then (Table(d, p, dealer), Some(PlayerBusts))
      else
        var (dh, d', done) := Showdown.DealerPlay(dealer, d, 10);
        if !done then (Table(d', p, dh), None)
        else (Table(d', p, dh), Some(Classify(p, dh)))
  }

  /** What a completed game guarantees: the player was dealt the top two
      cards; a busted player loses while the dealer keeps the two dealt
      cards; otherwise the dealer stands on 17 or more and the verdict
      compares the two final hands. A game fails only for want of cards. */
  lemma PlayGameLaws(t: Table, hits: nat)
    ensures var (t', r) := PlayGameSpec(t, hits);
      && (r.None? ==> t'.deck == [])
      && (|t.deck| >= 4 && r.Some? ==>
            && |t'.player| >= 2 && t'.player[..2] == [t.deck[|t.deck| - 1], t.deck[|t.deck| - 2]]
            && (r == Some(PlayerBusts) <==> IsBust(t'.player))
            && (r == Some(PlayerBusts) ==> t'.dealer == [t.deck[|t.deck| - 3], t.deck[|t.deck| - 4]])
            && (r != Some(PlayerBusts) ==> HandValue(t'.dealer) >= 17 && r == Some(Classify(t'.player, t'.dealer))))
  {
    var n := |t.deck|;
    if n >= 4 {
      var player, dealer, deck := Popped(t.deck, 2), [t.deck[n - 3], t.deck[n - 4]], t.deck[..n - 4];
      PlayerDrawsFacts(player, deck, hits);
      var (p, d, ok) := PlayerDraws(player, deck, hits);
      assert p[..2] == player;
      if ok && !IsBust(p) {
        Showdown.DealerPlayFacts(dealer, d, 10);
      }
    }
  }

  /** The console game's state: the module-level deck and the two hand lists. */
  class Game {
    var deck: seq<Card>
    var playerHand: seq<Card>
    var dealerHand: seq<Card>

    function Snapshot(): Table
      reads this
    {
      Table(deck, playerHand, dealerHand)
    }

    /** Module load: the deck is the caller's shuffle of the 56 cards, the hands are empty. */
    constructor(shuffled: seq<Card>)
      requires multiset(shuffled) == multiset(SimulationDeck)
      ensures Snapshot() == Table(shuffled, [], [])
      ensures |deck| == 56
    {
      deck, playerHand, dealerHand := shuffled, [], [];
      new;
      SimulationDeckContents(Ace);
      assert |multiset(shuffled)| == |multiset(SimulationDeck)|;
    }

    /** `deal(HAND)`: move the deck's top card to the end of the player's or
        the dealer's hand; on an empty deck the source's pop raises and
        nothing changes. */
    method Deal(toDealer: bool) returns (ok: bool)
      modifies this
      ensures ok <==> old(deck) != []
      ensures ok ==> deck == old(deck)[..|old(deck)| - 1]
      ensures ok && toDealer ==> dealerHand == old(dealerHand) + [old(deck)[|old(deck)| - 1]] && playerHand == old(playerHand)
      ensures ok && !toDealer ==> playerHand == old(playerHand) + [old(deck)[|old(deck)| - 1]] && dealerHand == old(dealerHand)
      ensures !ok ==> Snapshot() == old(Snapshot())
    {
      if deck == [] {
        return false;
      }
      var top := deck[|deck| - 1];
      deck := deck[..|deck| - 1];
      if toDealer {
        dealerHand := dealerHand + [top];
      } else {
        playerHand := playerHand + [top];
      }
      ok := true;
    }

    /** `player_turn`, the answers given as the number of hits asked for before standing. */
    method PlayerTurn(hits: nat) returns (ok: bool)
      modifies this
      ensures (playerHand, deck, ok) == PlayerDraws(old(playerHand), old(deck), hits)
      ensures dealerHand == old(dealerHand)
    {
      var asked := 0;
      var bust := CheckBust(playerHand);
      while !bust && asked < hits
        invariant 0 <= asked <= hits
        invariant bust <==> IsBust(playerHand)
        invariant dealerHand == old(dealerHand)
        invariant PlayerDraws(playerHand, deck, hits - asked) == PlayerDraws(old(playerHand), old(deck), hits)
        decreases hits - asked
      {
        ok := Deal(false);
        if !ok {
          return;
        }
        asked := asked + 1;
        bust := CheckBust(playerHand);
      }
      ok := true;
    }

    /** `dealer_turn`: draw while the dealer's value is under 17. On a normal
        exit the dealer's value is at least 17; the flag is false when the
        deck ran out first. */
    method DealerTurn() returns (ok: bool)
      modifies this
      ensures (dealerHand, deck, ok) == Showdown.DealerPlay(old(dealerHand), old(deck), 10)
      ensures ok ==> HandValue(dealerHand) >= 17
      ensures playerHand == old(playerHand)
    {
      var score := CalHandVal(dealerHand);
      while score < 17
        invariant score == HandValue(dealerHand)
        invariant playerHand == old(playerHand)
        invariant Showdown.DealerPlay(dealerHand, deck, 10) == Showdown.DealerPlay(old(dealerHand), old(deck), 10)
        decreases |deck|
      {
        ok := Deal(true);
        if !ok {
          return;
        }
        score := CalHandVal(dealerHand);
      }
      ok := true;
    }

    /** `play_game`: the opening deal, the player's turn, the dealer's turn
        unless the player busted, and the verdict; None when the deck ran out. */
    method PlayGame(hits: nat) returns (r: Option<Verdict>)
      modifies this
      ensures (Snapshot(), r) == PlayGameSpec(old(Snapshot()), hits)
    {
      if |deck| < 2 {
        deck := [];
        return None;
      }
      var n := |deck|;
      playerHand := [deck[n - 1], deck[n - 2]];
      deck := deck[..n - 2];
      assert playerHand == Popped(old(deck), 2);
      if n < 4 {
        deck := [];
        return None;
      }
      dealerHand := [deck[n - 3], deck[n - 4]];
      deck := deck[..n - 4];
      assert deck == old(deck)[..n - 4];
      var ok := PlayerTurn(hits);
      if !ok {
        return None;
      }
      var bust := CheckBust(playerHand);
      if bust {
        return Some(PlayerBusts);
      }
      ok := DealerTurn();
      if !ok {
        return None;
      }
      r := Some(Classify(playerHand, dealerHand));
    }
  }
}
