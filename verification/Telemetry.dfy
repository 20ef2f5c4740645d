/**
  The latency histogram of src/telemetry.rs: sixteen buckets with fixed upper limits, and the
  upper bound of a percentile read off them.
*/
module Telemetry {
  import opened Words

  /** The upper limit of bucket `i`, in microseconds. */
  function Limit(i: nat): u32
    requires i < 16
  {
    if i == 0 then 50 else if i == 1 then 100 else if i == 2 then 200 else if i == 3 then 500 else if i == 4 then 1000
    else if i == 5 then 2000 else if i == 6 then 3000 else if i == 7 then 4000 else if i == 8 then 5000 else if i == 9 then 7500
    else if i == 10 then 10000 else if i == 11 then 20000 else if i == 12 then 50000 else if i == 13 then 100000 else if i == 14 then 1000000
    else U32_MAX
  }

  lemma Limits()
    ensures seq(16, i requires 0 <= i < 16 => Limit(i))
            == [50, 100, 200, 500, 1000, 2000, 3000, 4000, 5000, 7500, 10000, 20000, 50000, 100000, 1000000, 0xFFFF_FFFF]
  {
  }

  function Clamp(us: nat): u32 { if us > U32_MAX then U32_MAX else us }

  /** The first bucket whose limit `us` does not exceed. */
  function Bucket(us: int, from: nat): (i: nat)
    requires from < 16
    ensures from <= i < 16 && (i == 15 || us <= Limit(i))
    ensures forall j :: from <= j < i ==> us > Limit(j)
    decreases 16 - from
  {
    if from == 15 || us <= Limit(from) then from else Bucket(us, from + 1)
  }

  /** How many samples fell into bucket `i`. */
  function InBucket(samples: seq<int>, i: nat): (n: nat)
    ensures n <= |samples|
  {
    if samples == [] then 0
    else InBucket(samples[..|samples| - 1], i) + (if Bucket(samples[|samples| - 1], 0) == i then 1 else 0)
  }

  /** How many samples do not exceed `limit`. */
  function AtMost(samples: seq<int>, limit: int): (n: nat)
    ensures n <= |samples|
  {
    if samples == [] then 0
    else AtMost(samples[..|samples| - 1], limit) + (if samples[|samples| - 1] <= limit then 1 else 0)
  }

  lemma BucketOfLimit(us: int, i: nat)
    requires i < 16 && us <= U32_MAX
    ensures Bucket(us, 0) <= i <==> us <= Limit(i)
    ensures i > 0 ==> Limit(i - 1) < Limit(i)
  {
    LimitsRise(i);
    if Bucket(us, 0) <= i { LimitsUpTo(Bucket(us, 0), i); }
  }

  lemma LimitsRise(i: nat)
    requires i < 16
    ensures i > 0 ==> Limit(i - 1) < Limit(i)
  {
  }

  lemma {:induction false} LimitsUpTo(i: nat, j: nat)
    requires i <= j < 16
    ensures Limit(i) <= Limit(j)
    decreases j
  {
    if i < j { LimitsUpTo(i, j - 1); LimitsRise(j); }
  }

  /** The buckets up to `i` hold exactly the samples that do not exceed limit `i`. */
  predicate Clamped(samples: seq<int>) { forall i :: 0 <= i < |samples| ==> samples[i] <= U32_MAX }

  lemma {:induction false} BucketsCount(samples: seq<int>, i: nat)
    requires i < 16 && Clamped(samples)
    ensures AtMost(samples, Limit(i)) == (if i == 0 then 0 else AtMost(samples, Limit(i - 1))) + InBucket(samples, i)
  {
    if samples != [] {
      var last := samples[|samples| - 1];
      BucketsCount(samples[..|samples| - 1], i);
      BucketOfLimit(last, i);
      if i > 0 { BucketOfLimit(last, i - 1); }
    }
  }

  lemma {:induction false} EverySampleCounts(samples: seq<int>)
    requires Clamped(samples)
    ensures AtMost(samples, U32_MAX) == |samples|
  {
    if samples != [] {
      EverySampleCounts(samples[..|samples| - 1]);
    }
  }

  /** The rank asked for: the given share of the samples, rounded up, and at least one. */
  function Target(count: nat, percent: nat): (t: nat)
    ensures t >= 1
    ensures count > 0 ==> t <= count
  {
    var p := if percent > 100 then 100 else percent;
    var t := (count * p + 99) / 100;
    assert count * p <= count * 100 by { Monotone(count, p); }
    if t < 1 then 1 else t
  }

  /** The least number of samples, but one at least, that is the share asked for or more. */
  lemma TargetIsLeastShare(count: nat, percent: nat, t: nat)
    requires t >= 1 && percent <= 100
    ensures t >= Target(count, percent) <==> 100 * t >= count * percent
  {
  }

  lemma ShareIsCapped(count: nat, percent: nat)
    requires percent > 100
    ensures Target(count, percent) == if count == 0 then 1 else count
  {
  }

  lemma Monotone(n: nat, p: nat)
    requires p <= 100
    ensures n * p <= n * 100
  {
    assert n * 100 == n * p + n * (100 - p);
  }

  predicate Counted(bins: seq<u32>, samples: seq<int>) {
    |bins| == 16 && forall i :: 0 <= i < 16 ==> bins[i] == InBucket(samples, i)
  }

  lemma CountOne(bins: seq<u32>, samples: seq<int>, us: int)
    requires Counted(bins, samples) && |samples| < U32_MAX
    ensures var b := Bucket(us, 0); Counted(bins[b := SaturatingAdd(bins[b], 1)], samples + [us])
  {
    assert (samples + [us])[..|samples|] == samples;
  }

  /** Until the counters saturate they count exactly. */
  predicate Exact(count: u32, bins: seq<u32>, samples: seq<int>) {
    && (|samples| <= U32_MAX ==> count == |samples| && Counted(bins, samples))
    && (samples != [] ==> count > 0)
  }

  lemma ExactOneMore(count: u32, bins: seq<u32>, samples: seq<int>, us: int)
    requires Exact(count, bins, samples) && |bins| == 16
    ensures var b := Bucket(us, 0); Exact(SaturatingAdd(count, 1), bins[b := SaturatingAdd(bins[b], 1)], samples + [us])
  {
    if |samples| < U32_MAX { CountOne(bins, samples, us); }
  }

  /** The largest sample, and 0 without any. */
  predicate IsPeak(peak: int, samples: seq<int>) {
    (forall i :: 0 <= i < |samples| ==> samples[i] <= peak) && (peak == 0 || peak in samples)
  }

  lemma PeakOfOneMore(peak: int, samples: seq<int>, us: int)
    requires IsPeak(peak, samples)
    ensures IsPeak(if us > peak then us else peak, samples + [us])
  {
  }

  /** Limit `i` covers `target` samples, and the limit before it does not. */
  predicate IsLeast(samples: seq<int>, i: nat, target: nat)
    requires i < 16
  {
    AtMost(samples, Limit(i)) >= target && (i > 0 ==> AtMost(samples, Limit(i - 1)) < target)
  }

  lemma {:induction false} AtMostGrows(samples: seq<int>, a: int, b: int)
    requires a <= b
    ensures AtMost(samples, a) <= AtMost(samples, b)
  {
    if samples != [] { AtMostGrows(samples[..|samples| - 1], a, b); }
  }

  /** So no earlier limit covers them either. */
  lemma LeastOfAll(samples: seq<int>, i: nat, target: nat, j: nat)
    requires i < 16 && IsLeast(samples, i, target) && j < 16
    ensures AtMost(samples, Limit(j)) >= target <==> j >= i
  {
    if j < i {
      LimitsUpTo(j, i - 1);
      AtMostGrows(samples, Limit(j), Limit(i - 1));
    } else {
      LimitsUpTo(i, j);
      AtMostGrows(samples, Limit(i), Limit(j));
    }
  }

  class Histogram {
    const bins: array<u32>
    var count: u32
    var peak: u32
    ghost var samples: seq<int>

    ghost predicate Valid()
      reads this, bins
    {
      && bins.Length == 16
      && Exact(count, bins[..], samples)
      && IsPeak(peak, samples)
    }

    constructor ()
      ensures Valid() && fresh(bins) && samples == []
    {
      bins := new u32[16](_ => 0);
      count, peak := 0, 0;
      samples := [];
      new;
      assert Counted(bins[..], []);
    }

    method FindBucket(sample: u32) returns (index: nat)
      ensures index == Bucket(sample, 0)
    {
      index := 0;
      while index < 15 && sample > Limit(index)
        invariant index < 16 && forall j :: 0 <= j < index ==> sample > Limit(j)
      {
        index := index + 1;
      }
      FirstFit(sample, index);
    }

    method Record(us: nat)
      requires Valid()
      modifies this, bins
      ensures Valid() && samples == old(samples) + [Clamp(us)]
    {
      var sample := Clamp(us);
      var index := FindBucket(sample);
      ExactOneMore(count, bins[..], samples, sample);
      ghost var before := bins[..];
      bins[index] := SaturatingAdd(bins[index], 1);
      assert bins[..] == before[index := SaturatingAdd(before[index], 1)];
      PeakOfOneMore(peak, samples, sample);
      samples := samples + [sample];
      count := SaturatingAdd(count, 1);
      if sample > peak { peak := sample; }
    }

    /** The first limit that at least `target` samples do not exceed. */
    method LeastLimit(target: nat) returns (i: nat)
      requires Valid() && target >= 1 && (|samples| <= U32_MAX ==> target <= |samples|)
      ensures i < 16
      ensures |samples| <= U32_MAX ==> IsLeast(samples, i, target)
    {
      i := 0;
      var sum: nat := bins[0];
      BucketsCount(samples, 0);
      assert |samples| <= U32_MAX ==> bins[..][0] == InBucket(samples, 0);
      while sum < target && i < 15
        invariant i < 16
        invariant |samples| <= U32_MAX ==> sum == AtMost(samples, Limit(i))
        invariant |samples| <= U32_MAX && i > 0 ==> AtMost(samples, Limit(i - 1)) < target
      {
        i := i + 1;
        BucketsCount(samples, i);
        assert |samples| <= U32_MAX ==> bins[..][i] == InBucket(samples, i);
        sum := sum + bins[i];
      }
      EverySampleCounts(samples);
      assert Limit(15) == U32_MAX;
    }

    /** The least limit that the asked share of the samples does not exceed. */
    method PercentileUpper(percent: nat) returns (upper: u32)
      requires Valid()
      ensures samples == [] ==> upper == 0
      ensures 0 < |samples| <= U32_MAX ==>
                exists i :: 0 <= i < 16 && upper == Limit(i) && IsLeast(samples, i, Target(|samples|, percent))
    {
      if count == 0 { return 0; }
      var i := LeastLimit(Target(count, percent));
      upper := Limit(i);
    }
  }

  lemma FirstFit(us: int, i: nat)
    requires us <= U32_MAX && i < 16 && (i == 15 || us <= Limit(i)) && forall j :: 0 <= j < i ==> us > Limit(j)
    ensures Bucket(us, 0) == i
  {
    BucketOfLimit(us, i);
  }

  /** The bound for 100 percent is never below the largest sample. */
  lemma {:induction false} AllWithin(samples: seq<int>, limit: int)
    requires AtMost(samples, limit) >= Target(|samples|, 100)
    ensures forall s :: s in samples ==> s <= limit
  {
    if samples != [] {
      var rest := samples[..|samples| - 1];
      assert Target(|samples|, 100) == |samples|;
      assert samples == rest + [samples[|samples| - 1]];
      if rest != [] {
        assert Target(|rest|, 100) == |rest|;
        AllWithin(rest, limit);
      }
    }
  }
}
