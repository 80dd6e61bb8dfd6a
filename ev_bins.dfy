/** The evaluation that reports the agent's expected value per hand by the
    true count before the deal: counts are bucketed into eleven labelled
    bins, hands are tallied per bin, and each bin's mean result is reported. */
module EvByTrueCount {
  import Shaping

  /** The bin labels, lowest count first. */
  const Bins: seq<string> := ["≤-5", "-4", "-3", "-2", "-1", "0", "1", "2", "3", "4", "≥5"]

  /** Python's `str` on an integer of one digit. */
  function DigitLabel(n: int): (s: string)
    requires -9 <= n <= 9
    ensures |s| == if n < 0 then 2 else 1
  {
    if n < 0 then "-" + [('0' as int - n) as char] else [('0' as int + n) as char]
  }

  /** `tc_to_bin`: counts of -5 and below and of 5 and above share an end
      bin; every other count is labelled by its integer part, truncated
      toward zero. */
  function TcToBin(tc: real): string {
    if tc <= -5.0 then "≤-5"
    else if tc >= 5.0 then "≥5"
    else DigitLabel(Shaping.TruncToInt(tc))
  }

  /** The position in `Bins` a count falls into. */
  function BinIndex(tc: real): (i: nat)
    ensures i < |Bins|
  {
    if tc <= -5.0 then 0
    else if tc >= 5.0 then 10
    else Shaping.TruncToInt(tc) + 5
  }

  predicate Listed(b: string) {
    b in Bins
  }

  /** No label is listed twice. */
  lemma BinsDistinct()
    ensures forall i, j :: 0 <= i < j < |Bins| ==> Bins[i] != Bins[j]
  {
  }

  /** Every count lands on a listed label, namely the one at its bin index. */
  lemma TcToBinListed(tc: real)
    ensures TcToBin(tc) == Bins[BinIndex(tc)]
    ensures TcToBin(tc) in Bins
  {
    if -5.0 < tc < 5.0 {
      var n := Shaping.TruncToInt(tc);
      assert -4 <= n <= 4;
      if n == -4 { assert DigitLabel(n) == "-4"; }
      else if n == -3 { assert DigitLabel(n) == "-3"; }
      else if n == -2 { assert DigitLabel(n) == "-2"; }
      else if n == -1 { assert DigitLabel(n) == "-1"; }
      else if n == 0 { assert DigitLabel(n) == "0"; }
      else if n == 1 { assert DigitLabel(n) == "1"; }
      else if n == 2 { assert DigitLabel(n) == "2"; }
      else if n == 3 { assert DigitLabel(n) == "3"; }
      else { assert DigitLabel(n) == "4"; }
    }
  }

  /** The end bins catch everything beyond -5 and 5, and truncation toward
      zero sends the whole open interval (-1, 1) to "0". */
  lemma EndAndMiddleBins(tc: real)
    ensures tc <= -5.0 ==> TcToBin(tc) == "≤-5"
    ensures tc >= 5.0 ==> TcToBin(tc) == "≥5"
    ensures -1.0 < tc < 1.0 ==> TcToBin(tc) == "0"
  {
    if -1.0 < tc < 1.0 {
      assert Shaping.TruncToInt(tc) == 0;
    }
  }

  /** A larger count never gets an earlier label in `Bins`. */
  lemma BinMonotone(tc1: real, tc2: real, i1: nat, i2: nat)
    requires tc1 <= tc2
    requires i1 < |Bins| && i2 < |Bins| && Bins[i1] == TcToBin(tc1) && Bins[i2] == TcToBin(tc2)
    ensures i1 <= i2
  {
    TcToBinListed(tc1);
    TcToBinListed(tc2);
    BinsDistinct();
    assert i1 == BinIndex(tc1) && i2 == BinIndex(tc2);
  }

  /** One evaluated hand: the true count before the deal and the hand's net result. */
  datatype Sample = Sample(tc: real, pnl: real)

  /** A bin's tally: the number of hands and their summed net result. */
  datatype Bucket = Bucket(n: nat, pnl: real)

  /** The number of samples whose count falls into bin `b`. */
  function BinCount(samples: seq<Sample>, b: string): nat {
    if samples == [] then 0
    else BinCount(samples[..|samples| - 1], b) + (if TcToBin(samples[|samples| - 1].tc) == b then 1 else 0)
  }

  /** The summed net result of the samples whose count falls into bin `b`. */
  function BinPnl(samples: seq<Sample>, b: string): real {
    if samples == [] then 0.0
    else BinPnl(samples[..|samples| - 1], b) + (if TcToBin(samples[|samples| - 1].tc) == b then samples[|samples| - 1].pnl else 0.0)
  }

  /** Extending the samples by one moves only the tally of that sample's bin. */
  lemma TallySnoc(samples: seq<Sample>, i: nat, b: string)
    requires i < |samples|
    ensures BinCount(samples[..i + 1], b) == BinCount(samples[..i], b) + (if TcToBin(samples[i].tc) == b then 1 else 0)
    ensures BinPnl(samples[..i + 1], b) == BinPnl(samples[..i], b) + (if TcToBin(samples[i].tc) == b then samples[i].pnl else 0.0)
  {
    assert samples[..i + 1][..i] == samples[..i];
  }

  /** A bin nobody fell into sums to nothing. */
  lemma {:induction false} EmptyBinNoPnl(samples: seq<Sample>, b: string)
    requires BinCount(samples, b) == 0
    ensures BinPnl(samples, b) == 0.0
  {
    if samples != [] {
      EmptyBinNoPnl(samples[..|samples| - 1], b);
    }
  }

  /** The tally loop: each hand's bin is created on first use and its count
      and sum grow by that hand. The tally holds exactly the bins some hand
      fell into, each with that bin's count and sum. */
  method CollectStats(samples: seq<Sample>) returns (stats: map<string, Bucket>)
    ensures forall b :: b in stats <==> BinCount(samples, b) > 0
    ensures forall b :: b in stats ==> stats[b] == Bucket(BinCount(samples, b), BinPnl(samples, b))
  {
    stats := map[];
    var i := 0;
    while i < |samples|
      invariant 0 <= i <= |samples|
      invariant forall b :: b in stats <==> BinCount(samples[..i], b) > 0
      invariant forall b :: b in stats ==> stats[b] == Bucket(BinCount(samples[..i], b), BinPnl(samples[..i], b))
    {
      forall b {
        TallySnoc(samples, i, b);
      }
      var b := TcToBin(samples[i].tc);
      if b !in stats {
        EmptyBinNoPnl(samples[..i], b);
      }
      var bucket := if b in stats then stats[b] else Bucket(0, 0.0);
      stats := stats[b := Bucket(bucket.n + 1, bucket.pnl + samples[i].pnl)];
      i := i + 1;
    }
    assert samples[..i] == samples;
  }

  /** The conversion loop over the bin labels: a label gets a mean only
      when its bin was tallied, and the mean is the bin's sum over its count. */
  method ExpectedValues(stats: map<string, Bucket>, labels: seq<string>) returns (evs: map<string, real>)
    requires forall b :: b in stats ==> stats[b].n > 0
    ensures forall b :: b in evs <==> b in stats && b in labels
    ensures forall b :: b in evs ==> evs[b] == stats[b].pnl / (stats[b].n as real)
  {
    evs := map[];
    var j := 0;
    while j < |labels|
      invariant 0 <= j <= |labels|
      invariant forall b :: b in evs <==> b in stats && b in labels[..j]
      invariant forall b :: b in evs ==> evs[b] == stats[b].pnl / (stats[b].n as real)
    {
      var b := labels[j];
      assert labels[..j + 1] == labels[..j] + [b];
      if b in stats {
        evs := evs[b := stats[b].pnl / (stats[b].n as real)];
      }
      j := j + 1;
    }
    assert labels[..j] == labels;
  }

  /** The per-bin expected value of a run: a bin is reported exactly when at
      least one hand fell into it, and its value is the bin's summed net
      result over its hand count. */
  method EvByBin(samples: seq<Sample>) returns (evs: map<string, real>)
    ensures forall b :: b in evs <==> BinCount(samples, b) > 0
    ensures forall b :: b in evs ==> evs[b] == BinPnl(samples, b) / (BinCount(samples, b) as real)
  {
    var stats := CollectStats(samples);
    forall b | b in stats
      ensures Listed(b)
    {
      CountedBinListed(samples, b);
    }
    evs := ExpectedValues(stats, Bins);
  }

  /** Only listed labels are ever counted. */
  lemma {:induction false} CountedBinListed(samples: seq<Sample>, b: string)
    requires BinCount(samples, b) > 0
    ensures Listed(b)
  {
    var last := samples[|samples| - 1];
    if TcToBin(last.tc) == b {
      TcToBinListed(last.tc);
    } else {
      CountedBinListed(samples[..|samples| - 1], b);
    }
  }

  /** The bins' counts added up along a list of labels. */
  function SumCounts(samples: seq<Sample>, labels: seq<string>): nat {
    if labels == [] then 0 else SumCounts(samples, labels[..|labels| - 1]) + BinCount(samples, labels[|labels| - 1])
  }

  /** One more sample adds one to the sum of counts over any list of labels
      holding its bin once, and nothing over a list not holding it. */
  lemma {:induction false} SumCountsSnoc(samples: seq<Sample>, s: Sample, labels: seq<string>)
    requires forall i, j :: 0 <= i < j < |labels| ==> labels[i] != labels[j]
    ensures SumCounts(samples + [s], labels) == SumCounts(samples, labels) + (if TcToBin(s.tc) in labels then 1 else 0)
  {
    if labels != [] {
      var init := labels[..|labels| - 1];
      SumCountsSnoc(samples, s, init);
      assert (samples + [s])[..|samples + [s]| - 1] == samples;
      if TcToBin(s.tc) == labels[|labels| - 1] {
        assert TcToBin(s.tc) !in init;
      }
      assert TcToBin(s.tc) in labels <==> TcToBin(s.tc) in init || TcToBin(s.tc) == labels[|labels| - 1];
    }
  }

  /** Every hand is tallied in exactly one bin: the counts over all bins add up to the number of hands. */
  lemma {:induction false} CountsCoverSamples(samples: seq<Sample>)
    ensures SumCounts(samples, Bins) == |samples|
  {
    BinsDistinct();
    if samples == [] {
      ZeroCounts(Bins);
    } else {
      var init, last := samples[..|samples| - 1], samples[|samples| - 1];
      CountsCoverSamples(init);
      SumCountsSnoc(init, last, Bins);
      TcToBinListed(last.tc);
      assert init + [last] == samples;
    }
  }

  lemma {:induction false} ZeroCounts(labels: seq<string>)
    ensures SumCounts([], labels) == 0
  {
    if labels != [] {
      ZeroCounts(labels[..|labels| - 1]);
    }
  }
}
