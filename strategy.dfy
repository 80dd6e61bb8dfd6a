/** The basic-strategy table used as a supervised baseline: a map from
    (player total, soft flag, dealer upcard) to 0 (hit) or 1 (stand). Hard
    totals 5..17 and soft totals 13..20 are listed against every dealer
    upcard 2..11 (11 stands for the ace). */
module BasicStrategy {
  import opened Wrappers

  /** A table key: the player's total, 0 for a hard and 1 for a soft total, the dealer's upcard. */
  type Key = (int, int, int)

  const Hit: int := 0
  const Stand: int := 1

  /** The rule for a hard total, branch for branch as the table builder
      tries them; its last branch is a fallback no integer total reaches. */
  function HardAction(total: int, dealer: int): int {
    if total >= 17 then Stand
    else if total <= 11 then Hit
    else if total == 12 then (if dealer in {4, 5, 6} then Stand else Hit)
    else if total in {13, 14, 15, 16} then (if dealer in {2, 3, 4, 5, 6} then Stand else Hit)
    else Hit
  }

  /** The rule for a soft total. */
  function SoftAction(total: int, dealer: int): int {
    if total <= 17 then Hit
    else if total == 18 then (if dealer in {2, 7, 8} then Stand else Hit)
    else Stand
  }

  predicate IsHardKey(k: Key) {
    k.1 == 0 && 5 <= k.0 <= 17 && 2 <= k.2 <= 11
  }

  predicate IsSoftKey(k: Key) {
    k.1 == 1 && 13 <= k.0 <= 20 && 2 <= k.2 <= 11
  }

  /** The table as a lookup: the action listed for a key, or None for a key the table does not hold. */
  function Lookup(k: Key): Option<int> {
    if IsHardKey(k) then Some(HardAction(k.0, k.2))
    else if IsSoftKey(k) then Some(SoftAction(k.0, k.2))
    else None
  }

  /** The action the loop body computes for a total of the given softness. */
  function RowAction(total: int, soft: int, dealer: int): int {
    if soft == 0 then HardAction(total, dealer) else SoftAction(total, dealer)
  }

  /** The inner loop: one entry per dealer upcard 2..11 for a fixed total,
      each written to a key not yet in the table. */
  method AddRow(table: map<Key, int>, total: int, soft: int) returns (table': map<Key, int>)
    requires forall d :: 2 <= d <= 11 ==> (total, soft, d) !in table
    ensures forall k :: k in table' <==> k in table || (k.0 == total && k.1 == soft && 2 <= k.2 <= 11)
    ensures forall k :: k in table' ==> table'[k] == if k in table then table[k] else RowAction(total, soft, k.2)
    ensures |table'| == |table| + 10
  {
    table' := table;
    var dealer := 2;
    while dealer < 12
      invariant 2 <= dealer <= 12
      invariant forall k :: k in table' <==> k in table || (k.0 == total && k.1 == soft && 2 <= k.2 < dealer)
      invariant forall k :: k in table' ==> table'[k] == if k in table then table[k] else RowAction(total, soft, k.2)
      invariant |table'| == |table| + (dealer - 2)
    {
      assert (total, soft, dealer) !in table';
      table' := table'[(total, soft, dealer) := RowAction(total, soft, dealer)];
      dealer := dealer + 1;
    }
  }

  /** The two nested loops that fill the table, hard totals first, then soft
      ones. The result holds exactly the keys the lookup knows, each with the
      lookup's action, and 210 entries: every step writes a key not yet in
      the table. */
  method BuildTable() returns (table: map<Key, int>)
    ensures forall k :: k in table <==> Lookup(k).Some?
    ensures forall k :: k in table ==> Lookup(k) == Some(table[k])
    ensures |table| == 210
  {
    table := map[];
    var total := 5;
    while total < 18
      invariant 5 <= total <= 18
      invariant forall k :: k in table <==> IsHardKey(k) && k.0 < total
      invariant forall k :: k in table ==> Lookup(k) == Some(table[k])
      invariant |table| == (total - 5) * 10
    {
      table := AddRow(table, total, 0);
      total := total + 1;
    }
    total := 13;
    while total < 21
      invariant 13 <= total <= 21
      invariant forall k :: k in table <==> IsHardKey(k) || (IsSoftKey(k) && k.0 < total)
      invariant forall k :: k in table ==> Lookup(k) == Some(table[k])
      invariant |table| == 130 + (total - 13) * 10
    {
      table := AddRow(table, total, 1);
      total := total + 1;
    }
  }

  /** Every listed action is a hit or a stand. */
  lemma ActionsAreHitOrStand(k: Key)
    requires Lookup(k).Some?
    ensures Lookup(k).value == Hit || Lookup(k).value == Stand
  {
  }

  /** Hard 17 stands and hard totals of 11 or less hit, against every upcard;
      hard 12 stands exactly against 4, 5 and 6; hard 13 to 16 stand exactly
      against 2 to 6. */
  lemma HardRules(total: int, dealer: int)
    requires IsHardKey((total, 0, dealer))
    ensures total == 17 ==> Lookup((total, 0, dealer)) == Some(Stand)
    ensures total <= 11 ==> Lookup((total, 0, dealer)) == Some(Hit)
    ensures total == 12 ==> (Lookup((total, 0, dealer)) == Some(Stand) <==> 4 <= dealer <= 6)
    ensures 13 <= total <= 16 ==> (Lookup((total, 0, dealer)) == Some(Stand) <==> dealer <= 6)
  {
  }

  /** The fallback branch of the hard rule is dead: every integer total is
      caught by one of the four branches before it. */
  lemma HardFallbackUnreachable(total: int)
    ensures total >= 17 || total <= 11 || total == 12 || total in {13, 14, 15, 16}
  {
  }

  /** Soft 17 and below hit; soft 18 stands exactly against 2, 7 and 8; soft 19 and 20 stand. */
  lemma SoftRules(total: int, dealer: int)
    requires IsSoftKey((total, 1, dealer))
    ensures total <= 17 ==> Lookup((total, 1, dealer)) == Some(Hit)
    ensures total == 18 ==> (Lookup((total, 1, dealer)) == Some(Stand) <==> dealer in {2, 7, 8})
    ensures total >= 19 ==> Lookup((total, 1, dealer)) == Some(Stand)
  {
  }

  /** Against a given upcard the table never asks for a stand on one hard
      total and a hit on a higher one: standing is monotone in the hard total. */
  lemma HardStandMonotone(t1: int, t2: int, dealer: int)
    requires IsHardKey((t1, 0, dealer)) && IsHardKey((t2, 0, dealer)) && t1 <= t2
    requires Lookup((t1, 0, dealer)) == Some(Stand)
    ensures Lookup((t2, 0, dealer)) == Some(Stand)
  {
  }
}
