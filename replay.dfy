/** The experience ring buffer: a fixed-capacity array of transitions with a
    write cursor and a fill count, overwriting the oldest slot once full,
    plus three index sets that bucket the stored transitions by the true
    count found in their state. */
module Replay {
  import opened Wrappers
  import Round
  import Cards
  import Shoe

  /** One stored experience: state, action, reward, next state, done flag. */
  datatype Transition = Transition(state: seq<real>, action: int, reward: real, nextState: seq<real>, done: bool)

  const Lo: int := 0
  const Mid: int := 1
  const Hi: int := 2
  /** The bin value of an empty slot. */
  const Empty: int := -1

  /** `_bin_for_tc`: hi from a true count of 3 up, lo at -2 and below, mid in between. */
  function BinForTc(tc: real): (b: int)
    ensures b == Hi <==> tc >= 3.0
    ensures b == Lo <==> tc <= -2.0
    ensures b == Mid <==> -2.0 < tc < 3.0
  {
    if tc >= 3.0 then Hi else if tc <= -2.0 then Lo else Mid
  }

  /** Python indexing, where a negative index counts from the end. */
  predicate ValidTcIndex(len: nat, idx: int) {
    -(len as int) <= idx < len
  }

  function TcAt(state: seq<real>, idx: int): real
    requires ValidTcIndex(|state|, idx)
  {
    if idx >= 0 then state[idx] else state[|state| + idx]
  }

  /** How many of the transitions carry action a. */
  function ActionCount(ts: seq<Transition>, a: int): nat {
    if ts == [] then 0 else ActionCount(ts[..|ts| - 1], a) + (if ts[|ts| - 1].action == a then 1 else 0)
  }

  /** The action codes the action-mix counter tracks. */
  const TrackedActions: set<int> := {0, 1, 2, 3, 4, 5}

  /** Python's `round` on an exact value: to the nearest integer, ties to the even one. */
  function RoundHalfEven(x: real): int {
    var f := x.Floor;
    var frac := x - f as real;
    if frac < 0.5 then f
    else if frac > 0.5 then f + 1
    else if f % 2 == 0 then f else f + 1
  }

  /** Rounding moves a value by at most one half, and a value within [0, b] stays within [0, b]. */
  lemma RoundHalfEvenBounds(x: real, b: nat)
    ensures -0.5 <= RoundHalfEven(x) as real - x <= 0.5
    ensures 0.0 <= x <= b as real ==> 0 <= RoundHalfEven(x) <= b
  {
  }

  /** The number of hi-bucket picks `sample_weighted` aims for. */
  function HiTarget(batchSize: nat, mix: real): int {
    RoundHalfEven(batchSize as real * mix)
  }

  /** How many picks come from the hi bucket: min(target, bucket size), or none
      when the bucket is empty or the target is not positive. */
  function HiTake(target: int, hiCount: nat): nat {
    if hiCount > 0 && target > 0 then (if target < hiCount then target else hiCount) else 0
  }

  /** How many picks are then drawn uniformly. */
  function UniformNeed(batchSize: nat, take: nat): nat {
    if batchSize > take then batchSize - take else 0
  }

  /** With a mix between 0 and 1 the weighted sample has exactly the batch
      size, at most min(target, bucket size) from the hi bucket, and an
      empty hi bucket makes the whole batch uniform. */
  lemma WeightedBatchSize(batchSize: nat, mix: real, hiCount: nat)
    requires 0.0 <= mix <= 1.0
    ensures var take := HiTake(HiTarget(batchSize, mix), hiCount);
      && take + UniformNeed(batchSize, take) == batchSize
      && take <= hiCount
      && (hiCount == 0 ==> take == 0 && UniformNeed(batchSize, take) == batchSize)
  {
    HiTargetBounds(batchSize, mix);
  }

  /** With a mix between 0 and 1 the hi target lies between 0 and the batch size. */
  lemma HiTargetBounds(batchSize: nat, mix: real)
    requires 0.0 <= mix <= 1.0
    ensures 0 <= HiTarget(batchSize, mix) <= batchSize
  {
    var x := batchSize as real * mix;
    ScaledMixBounds(batchSize, mix);
    assert 0.0 <= x <= batchSize as real;
    RoundHalfEvenBounds(x, batchSize);
    assert 0 <= RoundHalfEven(x) <= batchSize;
  }

  /** A mix between 0 and 1 scales a batch size to somewhere between 0 and
      that size, one batch slot at a time. */
  lemma {:induction false} ScaledMixBounds(b: nat, mix: real)
    requires 0.0 <= mix <= 1.0
    ensures 0.0 <= b as real * mix <= b as real
  {
    if b == 0 {
      assert b as real * mix == 0.0 * mix;
    } else {
      ScaledMixBounds(b - 1, mix);
      assert b as real * mix == (b - 1) as real * mix + mix;
    }
  }

  /** Every state the environment produces ends with the clipped true count,
      which lies in [-1, 1]; read at the default index -1 it always falls in
      the mid bucket, so a buffer fed by the environment never fills lo or hi. */
  lemma EnvironmentStatesLandInMid(prefix: seq<real>, tc: real)
    ensures BinForTc(TcAt(prefix + [Round.ClipTc(tc)], -1)) == Mid
  {
  }

  /** The betting agent stores `get_deck_distribution()` with the default
      index -1, so the feature it bins is the ace fraction: a count of at most
      the deck size over the deck size, in [0, 1], and so mid as well. */
  lemma DeckDistributionsLandInMid(prefix: seq<real>, deck: seq<Cards.Card>)
    requires deck != []
    ensures BinForTc(TcAt(prefix + [(Shoe.CountValue(deck, 11) as real) / (|deck| as real)], -1)) == Mid
  {
    var c, n := Shoe.CountValue(deck, 11), |deck|;
    assert c <= n by {
      assert multiset(deck)[Shoe.CardOfValue(11)] <= |multiset(deck)|;
    }
    FractionAtMostOne(c, n);
  }

  lemma FractionAtMostOne(c: nat, n: nat)
    requires 0 < n && c <= n
    ensures 0.0 <= (c as real) / (n as real) <= 1.0
  {
  }

  /** The buffer's contents as values: slot array, bin array, cursor, fill
      count, the lo/mid/hi index sets and the action counters. */
  datatype Slots = Slots(buf: seq<Option<Transition>>, bins: seq<int>, pos: nat, size: nat,
                         lo: set<int>, mid: set<int>, hi: set<int>, counts: map<int, nat>)

  /** `_remove_from_bucket` on values: slot i leaves the bucket its bin names and its bin becomes empty. */
  function RemoveStep(s: Slots, i: int): (r: Slots)
    requires 0 <= i < |s.bins|
    ensures |r.bins| == |s.bins| && r.bins[i] == Empty && r.buf == s.buf && r.pos == s.pos && r.size == s.size && r.counts == s.counts
    ensures forall j :: j != i ==> (j in r.lo <==> j in s.lo) && (j in r.mid <==> j in s.mid) && (j in r.hi <==> j in s.hi)
    ensures i !in r.lo || s.bins[i] != Lo
    ensures i !in r.mid || s.bins[i] != Mid
    ensures i !in r.hi || s.bins[i] != Hi
  {
    var b := s.bins[i];
    s.(bins := s.bins[i := Empty],
       lo := if b == Lo then s.lo - {i} else s.lo,
       mid := if b == Mid then s.mid - {i} else s.mid,
       hi := if b == Hi then s.hi - {i} else s.hi)
  }

  /** `_add_to_bucket` on values: slot i gets bin b and joins that bucket. */
  function AddBucketStep(s: Slots, i: int, b: int): (r: Slots)
    requires 0 <= i < |s.bins|
    ensures |r.bins| == |s.bins| && r.bins[i] == b && r.buf == s.buf && r.pos == s.pos && r.size == s.size && r.counts == s.counts
    ensures forall j :: j != i ==> (j in r.lo <==> j in s.lo) && (j in r.mid <==> j in s.mid) && (j in r.hi <==> j in s.hi)
    ensures b == Lo ==> i in r.lo
    ensures b == Mid ==> i in r.mid
    ensures b == Hi ==> i in r.hi
  {
    s.(bins := s.bins[i := b],
       lo := if b == Lo then s.lo + {i} else s.lo,
       mid := if b == Mid then s.mid + {i} else s.mid,
       hi := if b == Hi then s.hi + {i} else s.hi)
  }

  /** The transition goes into the slot at the cursor, and its action is
      counted when it is one of the tracked codes. */
  function StoreStep(s: Slots, t: Transition): Slots
    requires s.pos < |s.buf|
  {
    s.(buf := s.buf[s.pos := Some(t)],
       counts := if t.action in s.counts then s.counts[t.action := s.counts[t.action] + 1] else s.counts)
  }

  /** The cursor moves on modulo the capacity and the fill count grows up to it. */
  function AdvanceStep(s: Slots, cap: nat): Slots
    requires cap >= 1
  {
    s.(pos := (s.pos + 1) % cap, size := if s.size + 1 < cap then s.size + 1 else cap)
  }

  /** `add` on values, for a buffer of capacity `cap` reading the true count at `tcIdx`. */
  function AddStep(cap: nat, tcIdx: int, s: Slots, t: Transition): Slots
    requires cap >= 1 && |s.buf| == cap && |s.bins| == cap && s.pos < cap
    requires ValidTcIndex(|t.state|, tcIdx)
  {
    var s1 := if s.size == cap && s.buf[s.pos].Some? then RemoveStep(s, s.pos) else s;
    var s2 := StoreStep(s1, t);
    var s3 := AddBucketStep(s2, s.pos, BinForTc(TcAt(t.state, tcIdx)));
    AdvanceStep(s3, cap)
  }

  /** The position in `added` of the transition held in occupied slot i:
      slots before the cursor were written in the current lap, the others
      in the previous one. */
  function Stamp(cap: nat, pos: nat, start: nat, i: int): int {
    if i < pos then start + i else start - cap + i
  }

  /** A whole number of laps round a ring of `cap` slots. */
  ghost predicate IsLapStart(start: nat, cap: nat)
    decreases start
  {
    start == 0 || (cap > 0 && start >= cap && IsLapStart(start - cap, cap))
  }

  /** Cursor and fill count after `n` adds, the current lap having begun at add number `start`. */
  ghost predicate Shape(cap: nat, s: Slots, n: nat, start: nat) {
    && |s.buf| == cap && |s.bins| == cap
    && (cap > 0 ==> s.pos < cap) && (cap == 0 ==> s.pos == 0)
    && IsLapStart(start, cap)
    && n == start + s.pos
    && s.size <= cap
    && (start == 0 ==> s.size == s.pos)
    && (start > 0 ==> s.size == cap)
  }

  /** Exactly the first `size` slots are occupied, each holding one of the
      last `size` transitions added and marked with the bin of its true count. */
  ghost predicate Occupancy(cap: nat, tcIdx: int, s: Slots, added: seq<Transition>, start: nat)
    requires Shape(cap, s, |added|, start)
  {
    && (forall i :: 0 <= i < cap ==> (s.buf[i].Some? <==> i < s.size))
    && (forall i :: 0 <= i < cap ==> (s.bins[i] == Empty <==> s.buf[i].None?))
    && (forall k :: 0 <= k < |added| ==> ValidTcIndex(|added[k].state|, tcIdx))
    && (forall i :: 0 <= i < s.size ==>
          var k := Stamp(cap, s.pos, start, i);
          && |added| - s.size <= k < |added|
          && s.buf[i] == Some(added[k])
          && s.bins[i] == BinForTc(TcAt(added[k].state, tcIdx)))
  }

  /** Each index set holds exactly the slots whose bin names it. */
  ghost predicate Buckets(s: Slots) {
    && (forall i :: i in s.lo <==> 0 <= i < |s.bins| && s.bins[i] == Lo)
    && (forall i :: i in s.mid <==> 0 <= i < |s.bins| && s.bins[i] == Mid)
    && (forall i :: i in s.hi <==> 0 <= i < |s.bins| && s.bins[i] == Hi)
  }

  /** The counters cover actions 0..5 and count how often each was added. */
  ghost predicate Counted(s: Slots, added: seq<Transition>) {
    && s.counts.Keys == TrackedActions
    && (forall a :: a in s.counts ==> s.counts[a] == ActionCount(added, a))
  }

  ghost predicate Inv(cap: nat, tcIdx: int, s: Slots, added: seq<Transition>, start: nat) {
    && Shape(cap, s, |added|, start)
    && Occupancy(cap, tcIdx, s, added, start)
    && Buckets(s)
    && Counted(s, added)
  }

  /** Where the current lap began after one more add. */
  function NextStart(cap: nat, pos: nat, start: nat): nat {
    if pos + 1 == cap then start + cap else start
  }

  /** Advancing the cursor modulo the capacity wraps to 0 exactly at the last slot. */
  lemma CursorStep(p: nat, cap: nat)
    requires p < cap
    ensures (p + 1) % cap == if p + 1 == cap then 0 else p + 1
  {
  }

  lemma AddShape(cap: nat, tcIdx: int, s: Slots, t: Transition, n: nat, start: nat)
    requires cap >= 1 && Shape(cap, s, n, start) && ValidTcIndex(|t.state|, tcIdx)
    ensures Shape(cap, AddStep(cap, tcIdx, s, t), n + 1, NextStart(cap, s.pos, start))
  {
    CursorStep(s.pos, cap);
  }

  lemma AddOccupancy(cap: nat, tcIdx: int, s: Slots, t: Transition, added: seq<Transition>, start: nat)
    requires cap >= 1 && Shape(cap, s, |added|, start) && Occupancy(cap, tcIdx, s, added, start)
    requires ValidTcIndex(|t.state|, tcIdx)
    ensures Shape(cap, AddStep(cap, tcIdx, s, t), |added| + 1, NextStart(cap, s.pos, start))
    ensures Occupancy(cap, tcIdx, AddStep(cap, tcIdx, s, t), added + [t], NextStart(cap, s.pos, start))
  {
    AddShape(cap, tcIdx, s, t, |added|, start);
    CursorStep(s.pos, cap);
    var r := AddStep(cap, tcIdx, s, t);
    var added' := added + [t];
    var start' := NextStart(cap, s.pos, start);
    forall i | 0 <= i < r.size
      ensures var k := Stamp(cap, r.pos, start', i);
        && |added'| - r.size <= k < |added'|
        && r.buf[i] == Some(added'[k])
        && r.bins[i] == BinForTc(TcAt(added'[k].state, tcIdx))
    {
      if i != s.pos {
        assert Stamp(cap, r.pos, start', i) == Stamp(cap, s.pos, start, i);
      }
    }
  }

  lemma AddBuckets(cap: nat, tcIdx: int, s: Slots, t: Transition)
    requires cap >= 1 && |s.buf| == cap && |s.bins| == cap && s.pos < cap && ValidTcIndex(|t.state|, tcIdx)
    requires Buckets(s)
    requires (s.size == cap && s.buf[s.pos].Some?) || s.bins[s.pos] == Empty
    ensures Buckets(AddStep(cap, tcIdx, s, t))
  {
  }

  lemma AddCounted(cap: nat, tcIdx: int, s: Slots, t: Transition, added: seq<Transition>)
    requires cap >= 1 && |s.buf| == cap && |s.bins| == cap && s.pos < cap && ValidTcIndex(|t.state|, tcIdx)
    requires Counted(s, added)
    ensures Counted(AddStep(cap, tcIdx, s, t), added + [t])
  {
    AddedCounts(added, t);
  }

  /** `add` keeps every invariant of the buffer, with one more transition recorded. */
  lemma AddKeeps(cap: nat, tcIdx: int, s: Slots, t: Transition, added: seq<Transition>, start: nat)
    requires cap >= 1 && Inv(cap, tcIdx, s, added, start) && ValidTcIndex(|t.state|, tcIdx)
    ensures Inv(cap, tcIdx, AddStep(cap, tcIdx, s, t), added + [t], NextStart(cap, s.pos, start))
  {
    AddOccupancy(cap, tcIdx, s, t, added, start);
    AddBuckets(cap, tcIdx, s, t);
    AddCounted(cap, tcIdx, s, t, added);
  }

  class ReplayBuffer {
    const capacity: nat
    const tcIdx: int
    const buffer: array<Option<Transition>>
    const bins: array<int>
    var pos: nat
    var size: nat
    var idxLo: set<int>
    var idxMid: set<int>
    var idxHi: set<int>
    var actionsCount: map<int, nat>
    /** Every transition ever added, oldest first. */
    ghost var added: seq<Transition>
    /** The add number at which the cursor last wrapped to slot 0. */
    ghost var start: nat

    function Snapshot(): Slots
      reads this, buffer, bins
    {
      Slots(buffer[..], bins[..], pos, size, idxLo, idxMid, idxHi, actionsCount)
    }

    ghost predicate Valid()
      reads this, buffer, bins
    {
      Inv(capacity, tcIdx, Snapshot(), added, start)
    }

    /** The last `size` transitions added. */
    ghost function Window(): seq<Transition>
      reads this
      requires size <= |added|
    {
      added[|added| - size..]
    }

    /** `__init__`: every slot empty, cursor and count at zero, buckets empty, action counts zero. */
    constructor (capacity: nat, tcIdx: int)
      ensures Valid()
      ensures this.capacity == capacity && this.tcIdx == tcIdx
      ensures added == [] && size == 0 && pos == 0
      ensures fresh(buffer) && fresh(bins)
    {
      this.capacity := capacity;
      this.tcIdx := tcIdx;
      buffer := new Option<Transition>[capacity](_ => None);
      bins := new int[capacity](_ => Empty);
      pos, size := 0, 0;
      idxLo, idxMid, idxHi := {}, {}, {};
      actionsCount := map[0 := 0, 1 := 0, 2 := 0, 3 := 0, 4 := 0, 5 := 0];
      added, start := [], 0;
    }

    /** `_remove_from_bucket`. */
    method RemoveFromBucket(i: int)
      requires 0 <= i < bins.Length
      modifies this, bins
      ensures Snapshot() == RemoveStep(old(Snapshot()), i)
      ensures added == old(added) && start == old(start)
    {
      var b := bins[i];
      if b == Lo {
        idxLo := idxLo - {i};
      } else if b == Mid {
        idxMid := idxMid - {i};
      } else if b == Hi {
        idxHi := idxHi - {i};
      }
      bins[i] := Empty;
    }

    /** `_add_to_bucket`. */
    method AddToBucket(i: int, b: int)
      requires 0 <= i < bins.Length
      modifies this, bins
      ensures Snapshot() == AddBucketStep(old(Snapshot()), i, b)
      ensures added == old(added) && start == old(start)
    {
      bins[i] := b;
      if b == Lo {
        idxLo := idxLo + {i};
      } else if b == Mid {
        idxMid := idxMid + {i};
      } else if b == Hi {
        idxHi := idxHi + {i};
      }
    }

    /** `add`: write the transition at the cursor (evicting the slot's old
        transition from its bucket once the buffer is full), count its action,
        bucket it by the true count in its state, and advance. */
    method Add(t: Transition)
      requires Valid() && capacity >= 1 && ValidTcIndex(|t.state|, tcIdx)
      modifies this, buffer, bins
      ensures Snapshot() == AddStep(capacity, tcIdx, old(Snapshot()), t)
      ensures added == old(added) + [t]
      ensures Valid()
    {
      ghost var s0 := Snapshot();
      if size == capacity && buffer[pos].Some? {
        RemoveFromBucket(pos);
      }
      Store(t);
      AddToBucket(pos, BinForTc(TcAt(t.state, tcIdx)));
      Advance();
      AddKeeps(capacity, tcIdx, s0, t, added, start);
      added := added + [t];
      start := NextStart(capacity, s0.pos, start);
    }

    /** Write the transition at the cursor and count its action. */
    method Store(t: Transition)
      requires pos < buffer.Length
      modifies this, buffer
      ensures Snapshot() == StoreStep(old(Snapshot()), t)
      ensures added == old(added) && start == old(start)
    {
      buffer[pos] := Some(t);
      if t.action in actionsCount {
        actionsCount := actionsCount[t.action := actionsCount[t.action] + 1];
      }
    }

    /** Move the cursor on and grow the fill count. */
    method Advance()
      requires capacity >= 1
      modifies this
      ensures Snapshot() == AdvanceStep(old(Snapshot()), capacity)
      ensures added == old(added) && start == old(start)
    {
      pos := (pos + 1) % capacity;
      size := if size + 1 < capacity then size + 1 else capacity;
    }

    function Length(): (n: nat)
      reads this, buffer, bins
      requires Valid()
      ensures n <= capacity
    {
      size
    }

    /** The fill count is min(adds, capacity) and the cursor is adds modulo capacity. */
    lemma FillAndCursor()
      requires Valid() && capacity >= 1
      ensures size == if |added| < capacity then |added| else capacity
      ensures pos == |added| % capacity
    {
      LapStartMod(start, capacity, pos);
    }

    /** A buffer of three slots that has taken five transitions keeps the last
        three: the fourth and fifth overwrote slots 0 and 1, the third sits in slot 2. */
    lemma ThreeSlotsAfterFiveAdds()
      requires Valid() && capacity == 3 && |added| == 5
      ensures buffer[0] == Some(added[3]) && buffer[1] == Some(added[4]) && buffer[2] == Some(added[2])
    {
      assert start == 3 && pos == 2;
      assert buffer[..][0] == Some(added[Stamp(3, 2, 3, 0)]);
      assert buffer[..][1] == Some(added[Stamp(3, 2, 3, 1)]);
      assert buffer[..][2] == Some(added[Stamp(3, 2, 3, 2)]);
    }

    /** The lo, mid and hi index sets partition the occupied slots. */
    lemma BucketsCoverStored()
      requires Valid()
      ensures idxLo !! idxMid && idxLo !! idxHi && idxMid !! idxHi
      ensures forall i :: i in idxLo + idxMid + idxHi <==> 0 <= i < size
    {
      BucketsPartition(capacity, tcIdx, Snapshot(), added, start);
    }

    /** Every occupied slot holds one of the last `size` transitions added. */
    lemma StoredInWindow(i: int)
      requires Valid() && 0 <= i < size
      ensures buffer[i].Some? && buffer[i].value in Window()
    {
      var k := Stamp(capacity, pos, start, i);
      assert buffer[..][i] == Some(added[k]);
      assert Window()[k - (|added| - size)] == added[k];
    }

    /** `sample`: an under-filled buffer raises; otherwise the caller's draws,
        each in [0, size), pick the batch. An empty batch also raises, when
        the picked transitions are unzipped into their five fields. */
    method Sample(batchSize: nat, draws: seq<int>) returns (r: Option<seq<Transition>>)
      requires Valid()
      requires size >= batchSize ==> |draws| == batchSize && forall j :: 0 <= j < |draws| ==> 0 <= draws[j] < size
      ensures r.None? <==> size < batchSize || batchSize == 0
      ensures r.Some? ==> |r.value| == batchSize
      ensures r.Some? ==> forall j :: 0 <= j < batchSize ==> buffer[draws[j]] == Some(r.value[j]) && r.value[j] in Window()
    {
      if size < batchSize {
        return None;
      }
      r := Pick(draws);
      if batchSize == 0 {
        return None;
      }
    }

    /** The transitions at the picked slots, all occupied. */
    method Pick(picks: seq<int>) returns (r: Option<seq<Transition>>)
      requires Valid()
      requires forall j :: 0 <= j < |picks| ==> 0 <= picks[j] < size
      ensures r.Some? && |r.value| == |picks|
      ensures forall j :: 0 <= j < |picks| ==> buffer[picks[j]] == Some(r.value[j]) && r.value[j] in Window()
    {
      var batch: seq<Transition> := [];
      var j := 0;
      while j < |picks|
        invariant 0 <= j <= |picks| && |batch| == j
        invariant forall m :: 0 <= m < j ==> buffer[picks[m]] == Some(batch[m]) && batch[m] in Window()
      {
        StoredInWindow(picks[j]);
        batch := batch + [buffer[picks[j]].value];
        j := j + 1;
      }
      return Some(batch);
    }

    /** Every index in the hi bucket is an occupied slot. */
    lemma HiBucketOccupied()
      requires Valid()
      ensures forall i :: i in idxHi ==> 0 <= i < size
    {
      forall i | i in idxHi
        ensures 0 <= i < size
      {
        assert bins[..][i] == Hi;
        assert buffer[..][i].Some?;
      }
    }

    /** `sample_weighted`: an under-filled buffer raises; otherwise
        min(target, bucket size) caller-chosen members of the hi bucket are
        picked (none when it is empty or the target is not positive), then the
        rest of the batch uniformly from [0, size). Every pick is an occupied
        slot. */
    method SampleWeighted(batchSize: nat, mix: real, hiPicks: seq<int>, uniformPicks: seq<int>)
      returns (r: Option<seq<Transition>>)
      requires Valid()
      requires size >= batchSize ==>
        && |hiPicks| == HiTake(HiTarget(batchSize, mix), |idxHi|)
        && (forall j :: 0 <= j < |hiPicks| ==> hiPicks[j] in idxHi)
        && |uniformPicks| == UniformNeed(batchSize, |hiPicks|)
        && (forall j :: 0 <= j < |uniformPicks| ==> 0 <= uniformPicks[j] < size)
      ensures r.None? <==> size < batchSize || |hiPicks| + |uniformPicks| == 0
      ensures r.Some? ==> |r.value| == |hiPicks| + |uniformPicks|
      ensures r.Some? ==> forall j :: 0 <= j < |r.value| ==>
        var p := (hiPicks + uniformPicks)[j];
        0 <= p < size && buffer[p] == Some(r.value[j]) && r.value[j] in Window()
    {
      if size < batchSize {
        return None;
      }
      HiBucketOccupied();
      var picks := hiPicks + uniformPicks;
      r := Pick(picks);
      if |picks| == 0 {
        return None;
      }
    }
  }

  /** Euclidean division has one remainder: n = q * cap + r with 0 <= r < cap fixes r. */
  lemma ModUnique(n: int, cap: int, q: int, r: int)
    requires cap > 0 && 0 <= r < cap && n == q * cap + r
    ensures n % cap == r
  {
    var q', r' := n / cap, n % cap;
    assert n == q' * cap + r';
    assert (q - q') * cap == r' - r;
    SmallMultiple(q - q', cap);
  }

  /** A multiple of cap strictly between -cap and cap is zero. */
  lemma SmallMultiple(d: int, cap: int)
    requires cap > 0 && -cap < d * cap < cap
    ensures d == 0
  {
  }

  /** The number of adds at the start of a lap, plus a cursor below the capacity. */
  ghost function Laps(start: nat, cap: nat): (q: nat)
    requires IsLapStart(start, cap)
    ensures start == q * cap
    decreases start
  {
    if start == 0 then 0 else Laps(start - cap, cap) + 1
  }

  /** The cursor sits at the number of adds modulo the capacity. */
  lemma LapStartMod(start: nat, cap: nat, pos: nat)
    requires IsLapStart(start, cap) && pos < cap
    ensures (start + pos) % cap == pos
  {
    ModUnique(start + pos, cap, Laps(start, cap), pos);
  }

  /** The three buckets are disjoint and together hold exactly the occupied slots. */
  lemma BucketsPartition(cap: nat, tcIdx: int, s: Slots, added: seq<Transition>, start: nat)
    requires Inv(cap, tcIdx, s, added, start)
    ensures s.lo !! s.mid && s.lo !! s.hi && s.mid !! s.hi
    ensures forall i :: i in s.lo + s.mid + s.hi <==> 0 <= i < s.size
  {
    forall i | i in s.lo
      ensures i !in s.mid && i !in s.hi
    {
    }
    forall i | i in s.mid
      ensures i !in s.hi
    {
    }
    forall i | 0 <= i < s.size
      ensures i in s.lo + s.mid + s.hi
    {
      var k := Stamp(cap, s.pos, start, i);
      assert s.bins[i] == BinForTc(TcAt(added[k].state, tcIdx));
    }
  }

  lemma AddedCounts(ts: seq<Transition>, t: Transition)
    ensures forall a :: ActionCount(ts + [t], a) == ActionCount(ts, a) + (if t.action == a then 1 else 0)
  {
    assert (ts + [t])[..|ts + [t]| - 1] == ts;
  }
}
