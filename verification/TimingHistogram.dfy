/** The scheduler's duration histogram: 64 buckets per power of two, quantiles reported
    as bucket upper bounds. */
module TimingHistogram {
  import opened Common

  const BUCKETS: nat := 4096

  function Pow2(e: nat): (p: nat)
    ensures p >= 1
  {
    if e == 0 then 1 else 2 * Pow2(e - 1)
  }

  /** `63 - leading_zeros`: the exponent of the power of two at or below a positive number. */
  function Exponent(ns: nat): (e: nat)
    requires ns >= 1
    ensures Pow2(e) <= ns < 2 * Pow2(e)
  {
    if ns < 2 then 0 else 1 + Exponent(ns / 2)
  }

  function CeilDiv(a: nat, b: nat): (c: nat)
    requires b > 0
    ensures c * b >= a && (c > 0 ==> (c - 1) * b < a)
  {
    (a + b - 1) / b
  }

  function FloorDiv(a: nat, b: nat): nat
    requires b > 0
  {
    a / b
  }

  function Bucket(ns: nat): nat {
    var exponent := Exponent(Max(ns, 1));
    var base := Pow2(exponent);
    exponent * 64 + Min(FloorDiv(SatSub(ns, base) * 64, base), 63)
  }

  function UpperBound(index: nat): nat {
    var base := Pow2(index / 64);
    Min(base + CeilDiv(base * (index % 64 + 1), 64) - 1, U64_MAX)
  }

  lemma {:induction false} Pow2Monotone(a: nat, b: nat)
    requires a <= b
    ensures Pow2(a) <= Pow2(b)
    decreases b
  {
    if a < b { Pow2Monotone(a, b - 1); }
  }

  lemma MulMonotone(a: nat, b: nat, c: nat)
    requires a <= b
    ensures a * c <= b * c
  {
  }

  lemma DivBounds(x: nat, b: nat)
    requires b > 0
    ensures x / b * b <= x < x / b * b + b
  {
  }

  lemma DivMonotone(x: nat, y: nat, b: nat)
    requires x <= y && b > 0
    ensures x / b <= y / b
  {
    DivBounds(x, b);
    DivBounds(y, b);
    var p, q := x / b, y / b;
    if p > q { MulMonotone(q + 1, p, b); }
  }

  /** The position of a duration inside its power of two. */
  lemma Fraction(ns: nat)
    requires ns >= 1
    ensures var base := Pow2(Exponent(ns));
            var f := (ns - base) * 64 / base;
            Bucket(ns) == Exponent(ns) * 64 + f && f < 64 && f * base <= (ns - base) * 64 < f * base + base
  {
    var base := Pow2(Exponent(ns));
    var x := (ns - base) * 64;
    DivBounds(x, base);
    var f := x / base;
    if f >= 64 { MulMonotone(64, f, base); }
  }

  lemma {:induction false} Pow2Plus(a: nat, b: nat)
    ensures Pow2(a + b) == Pow2(a) * Pow2(b)
    decreases b
  {
    if b > 0 {
      Pow2Plus(a, b - 1);
      assert Pow2(a) * (2 * Pow2(b - 1)) == 2 * (Pow2(a) * Pow2(b - 1));
    }
  }

  lemma Pow2Twice(e: nat, p: nat)
    requires Pow2(e) == p
    ensures Pow2(e + e) == p * p
  {
    Pow2Plus(e, e);
  }

  lemma Pow2Of64()
    ensures Pow2(64) == U64_MAX + 1
  {
    assert Pow2(4) == 16 by { assert Pow2(2) == 4; }
    Pow2Twice(4, 0x10);
    Pow2Twice(8, 0x100);
    Pow2Twice(16, 0x1_0000);
    Pow2Twice(32, 0x1_0000_0000);
  }

  /** Larger durations never fall in a lower bucket, and a u64 duration always falls in
      one of the 4096. */
  lemma BucketMonotone(v: nat, w: nat)
    requires v <= w
    ensures Bucket(v) <= Bucket(w)
  {
    if v >= 1 {
      Fraction(v);
      Fraction(w);
      var ev, ew := Exponent(v), Exponent(w);
      if ev == ew {
        DivMonotone((v - Pow2(ev)) * 64, (w - Pow2(ev)) * 64, Pow2(ev));
      } else if ev > ew {
        Pow2Monotone(ew + 1, ev);
      }
    }
  }

  lemma BucketInRange(ns: nat)
    requires ns <= U64_MAX
    ensures Bucket(ns) < BUCKETS
  {
    if ns >= 1 {
      Fraction(ns);
      if Exponent(ns) >= 64 {
        Pow2Monotone(64, Exponent(ns));
        Pow2Of64();
      }
    }
  }

  /** Rounding b * (f + 1) / 64 up overshoots a position x in the f-th of 64 parts of b by
      less than one part. */
  lemma RoundUp(b: nat, f: nat, x: nat)
    requires f * b <= x * 64 < f * b + b
    ensures var c := CeilDiv(b * (f + 1), 64);
            x <= c - 1 && 64 * (c - 1 - x) < b
  {
    var q := b * (f + 1);
    assert q == f * b + b;
    var c := CeilDiv(q, 64);
  }

  lemma Split64(e: nat, f: nat)
    requires f < 64
    ensures (e * 64 + f) / 64 == e && (e * 64 + f) % 64 == f
  {
  }

  lemma UpperBoundIs(index: nat, e: nat, f: nat)
    requires index / 64 == e && index % 64 == f
    ensures UpperBound(index) == Min(Pow2(e) + CeilDiv(Pow2(e) * (f + 1), 64) - 1, U64_MAX)
  {
  }

  /** The bucket's upper bound is at or above every positive duration in it, by less than
      one sixty-fourth of the duration's power of two. */
  lemma BoundIsTight(v: nat)
    requires 1 <= v <= U64_MAX
    ensures v <= UpperBound(Bucket(v))
    ensures 64 * (UpperBound(Bucket(v)) - v) < Pow2(Exponent(v))
  {
    Fraction(v);
    var e := Exponent(v);
    var base := Pow2(e);
    var f := (v - base) * 64 / base;
    RoundUp(base, f, v - base);
    Split64(e, f);
    UpperBoundIs(Bucket(v), e, f);
  }

  /** How many samples are at most v. */
  function AtMost(samples: seq<nat>, v: nat): nat {
    if samples == [] then 0 else (if samples[0] <= v then 1 else 0) + AtMost(samples[1..], v)
  }

  /** How many samples are strictly below v. */
  function Below(samples: seq<nat>, v: nat): nat {
    if v == 0 then 0 else AtMost(samples, v - 1)
  }

  /** How many samples fall in a bucket before `index`. */
  function Before(samples: seq<nat>, index: nat): (n: nat)
    ensures n <= |samples|
  {
    if samples == [] then 0 else (if Bucket(samples[0]) < index then 1 else 0) + Before(samples[1..], index)
  }

  function InBucket(samples: seq<nat>, index: nat): nat {
    if samples == [] then 0 else (if Bucket(samples[0]) == index then 1 else 0) + InBucket(samples[1..], index)
  }

  /** v is the r-th smallest sample, counted from one. */
  predicate IsRank(samples: seq<nat>, r: nat, v: nat) {
    Below(samples, v) < r <= AtMost(samples, v)
  }

  function Largest(samples: seq<nat>): nat {
    if samples == [] then 0 else Max(samples[0], Largest(samples[1..]))
  }

  lemma {:induction false} AllAtMostLargest(samples: seq<nat>, v: nat)
    requires v >= Largest(samples)
    ensures AtMost(samples, v) == |samples|
  {
    if samples != [] { AllAtMostLargest(samples[1..], v); }
  }

  /** The exact rank value exists for every rank from one to the number of samples. */
  lemma {:induction false} RankExists(samples: seq<nat>, r: nat, v: nat) returns (exact: nat)
    requires 1 <= r <= AtMost(samples, v)
    ensures IsRank(samples, r, exact) && exact <= v
    decreases v
  {
    if Below(samples, v) < r { exact := v; } else { exact := RankExists(samples, r, v - 1); }
  }

  lemma {:induction false} BeforeNext(samples: seq<nat>, index: nat)
    ensures Before(samples, index + 1) == Before(samples, index) + InBucket(samples, index)
  {
    if samples != [] { BeforeNext(samples[1..], index); }
  }

  lemma {:induction false} BeforeAppend(samples: seq<nat>, ns: nat, index: nat)
    ensures InBucket(samples + [ns], index) == InBucket(samples, index) + if Bucket(ns) == index then 1 else 0
  {
    if samples != [] {
      assert (samples + [ns])[1..] == samples[1..] + [ns];
      BeforeAppend(samples[1..], ns, index);
    }
  }

  lemma {:induction false} LargestAppend(samples: seq<nat>, ns: nat)
    ensures Largest(samples + [ns]) == Max(Largest(samples), ns)
  {
    if samples != [] {
      assert (samples + [ns])[1..] == samples[1..] + [ns];
      LargestAppend(samples[1..], ns);
    }
  }

  lemma {:induction false} BeforeAll(samples: seq<nat>)
    requires forall i :: 0 <= i < |samples| ==> samples[i] <= U64_MAX
    ensures Before(samples, BUCKETS) == |samples|
  {
    if samples != [] {
      BucketInRange(samples[0]);
      BeforeAll(samples[1..]);
    }
  }

  /** Samples at most v lie in buckets before any index above v's bucket. */
  lemma {:induction false} AtMostWithin(samples: seq<nat>, v: nat, index: nat)
    requires Bucket(v) < index
    ensures AtMost(samples, v) <= Before(samples, index)
  {
    if samples != [] {
      if samples[0] <= v { BucketMonotone(samples[0], v); }
      AtMostWithin(samples[1..], v, index);
    }
  }

  /** Samples in buckets up to v's own, excluded, are strictly below v. */
  lemma {:induction false} BeforeWithin(samples: seq<nat>, v: nat, index: nat)
    requires index <= Bucket(v)
    ensures Before(samples, index) <= Below(samples, v)
  {
    if samples != [] {
      if Bucket(samples[0]) < index && samples[0] >= v { BucketMonotone(v, samples[0]); }
      BeforeWithin(samples[1..], v, index);
    }
  }

  /** The bucket where the cumulative count first reaches a rank is the rank value's own. */
  lemma RankBucket(samples: seq<nat>, r: nat, v: nat, index: nat)
    requires IsRank(samples, r, v)
    requires Before(samples, index) < r <= Before(samples, index + 1)
    ensures Bucket(v) == index
  {
    if Bucket(v) < index { AtMostWithin(samples, v, index); }
    if Bucket(v) > index { BeforeWithin(samples, v, index + 1); }
  }

  lemma {:induction false} RankAtMostLargest(samples: seq<nat>, r: nat, v: nat)
    requires IsRank(samples, r, v)
    ensures v <= Largest(samples)
  {
    if v > Largest(samples) {
      AllAtMostLargest(samples, v - 1);
      AllAtMostLargest(samples, v);
    }
  }

  /** What `upper_quantile` promises of a report for the rank value v: never below it,
      exact for 1..127, otherwise within one sixty-fourth of its power of two; a zero may
      be reported as one, with which it shares a bucket. */
  predicate Reports(report: nat, v: nat) {
    && v <= report
    && (v == 0 ==> report <= 1)
    && (1 <= v < 128 ==> report == v)
    && (v >= 1 ==> 64 * (report - v) < Pow2(Exponent(v)))
  }

  lemma ReportOf(samples: seq<nat>, r: nat, v: nat, index: nat)
    requires IsRank(samples, r, v) && Largest(samples) <= U64_MAX
    requires Before(samples, index) < r <= Before(samples, index + 1)
    ensures Reports(Min(UpperBound(index), Largest(samples)), v)
  {
    RankBucket(samples, r, v, index);
    RankAtMostLargest(samples, r, v);
    if v >= 1 {
      BoundIsTight(v);
      if v < 128 && Exponent(v) >= 7 { Pow2Monotone(7, Exponent(v)); }
      if v < 128 { Pow2Monotone(Exponent(v), 6); }
    } else {
      assert Pow2(0) == 1;
    }
  }

  class TimingHistogram {
    const buckets: array<nat>
    var count: nat
    var maximumNs: nat
    ghost var samples: seq<nat>

    ghost predicate Valid()
      reads this, buckets
    {
      && buckets.Length == BUCKETS
      && count == |samples| && maximumNs == Largest(samples) && maximumNs <= U64_MAX
      && (forall i :: 0 <= i < |samples| ==> samples[i] <= U64_MAX)
      && forall b :: 0 <= b < BUCKETS ==> buckets[b] == InBucket(samples, b)
    }

    constructor ()
      ensures Valid() && fresh(buckets) && samples == []
    {
      buckets := new nat[BUCKETS](_ => 0);
      count, maximumNs, samples := 0, 0, [];
    }

    method Record(ns: nat)
      requires Valid() && ns <= U64_MAX
      modifies this, buckets
      ensures Valid() && samples == old(samples) + [ns]
    {
      var exponent := Exponent(Max(ns, 1));
      var base := Pow2(exponent);
      var fraction := SatSub(ns, base) * 64 / base;
      BucketInRange(ns);
      buckets[exponent * 64 + Min(fraction, 63)] := buckets[exponent * 64 + Min(fraction, 63)] + 1;
      count := count + 1;
      maximumNs := Max(maximumNs, ns);
      samples := samples + [ns];
      LargestAppend(old(samples), ns);
      forall b | 0 <= b < BUCKETS ensures buckets[b] == InBucket(samples, b) {
        BeforeAppend(old(samples), ns, b);
      }
    }

    /** For every non-empty set of recorded durations and every quantile in (0, 1], the
        report brackets the exact rank value from above within the stated error. */
    method UpperQuantile(numerator: nat, denominator: nat) returns (report: nat)
      requires Valid() && denominator > 0
      ensures count == 0 ==> report == 0
      ensures var target := CeilDiv(count * numerator, denominator);
              && (count > 0 && 1 <= numerator <= denominator ==> 1 <= target <= count)
              && (forall v :: 1 <= target <= count && IsRank(samples, target, v) ==> Reports(report, v))
              && (target > count > 0 ==> report == maximumNs)
    {
      var target := CeilDiv(count * numerator, denominator);
      assert count > 0 && 1 <= numerator <= denominator ==> 1 <= target <= count by {
        if count > 0 && 1 <= numerator <= denominator { TargetInRange(count, numerator, denominator); }
      }
      if count == 0 || maximumNs == 0 {
        forall v | 1 <= target <= count && IsRank(samples, target, v) ensures Reports(0, v) {
          RankAtMostLargest(samples, target, v);
        }
        return 0;
      }
      BeforeZero(samples);
      var cumulative := 0;
      for index := 0 to BUCKETS
        invariant cumulative == Before(samples, index)
        invariant target > 0 ==> cumulative < target
      {
        BeforeNext(samples, index);
        cumulative := cumulative + buckets[index];
        if cumulative >= target {
          forall v | 1 <= target <= count && IsRank(samples, target, v)
            ensures Reports(Min(UpperBound(index), maximumNs), v)
          {
            ReportOf(samples, target, v, index);
          }
          return Min(UpperBound(index), maximumNs);
        }
      }
      BeforeAll(samples);
      return maximumNs;
    }
  }

  lemma {:induction false} BeforeZero(samples: seq<nat>)
    ensures Before(samples, 0) == 0
  {
    if samples != [] { BeforeZero(samples[1..]); }
  }

  lemma TargetInRange(count: nat, numerator: nat, denominator: nat)
    requires count > 0 && 1 <= numerator <= denominator
    ensures 1 <= CeilDiv(count * numerator, denominator) <= count
  {
    var x := count * numerator;
    MulMonotone(1, numerator, count);
    MulMonotone(numerator, denominator, count);
    var c := CeilDiv(x, denominator);
    if c > count { MulMonotone(count, c - 1, denominator); }
  }
}
