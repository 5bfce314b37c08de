/** Comparing a chain with the obligations a mandate declares (pkg/validation/compliance_checker.go). */
module Compliance {
  import opened Common
  import opened Chain

  const SECOND: int := 1_000_000_000
  const MAX_INT64: int := 0x7FFF_FFFF_FFFF_FFFF
  const MAX_DEFERRAL_SEC: int := MAX_INT64 / SECOND

  type Int64 = x: int | -MAX_INT64 - 1 <= x <= MAX_INT64

  datatype Rule = Rule(eventClass: string, mandatory: bool, requiredFields: seq<string>, maxDeferralSec: nat)

  datatype Window = Window(start: Int64, end: Int64, startCycle: nat, endCycle: nat)

  /** One interval [start, end) in which a matching event must be anchored. */
  datatype Expectation = Expectation(start: int, end: int)

  datatype Status = Missing | MissingFields

  datatype Gap = Gap(ruleIndex: nat, eventClass: string, exp: Expectation, status: Status, missingFields: seq<string>)

  datatype Report = Report(totalExpected: nat, totalAnchored: nat, gaps: seq<Gap>)

  // ---------------------------------------------------------------- windows and buckets

  /** Both timestamps positive; an empty interval is allowed. */
  predicate WindowOk(w: Window)
  {
    0 < w.start <= w.end && w.startCycle <= w.endCycle
  }

  /** No deferral, or one too long to express in nanoseconds, makes the whole window one expectation. */
  predicate WholeWindow(rule: Rule)
  {
    rule.maxDeferralSec == 0 || rule.maxDeferralSec > MAX_DEFERRAL_SEC
  }

  function StepOf(rule: Rule): (step: Int64)
    requires !WholeWindow(rule)
    ensures SECOND <= step
  {
    rule.maxDeferralSec * SECOND
  }

  function Buckets(start: int, end: int, step: int): seq<Expectation>
    requires step > 0
    decreases end - start
  {
    if start >= end then []
    else [Expectation(start, if start + step > end then end else start + step)] + Buckets(start + step, end, step)
  }

  function CeilDiv(n: nat, d: int): nat
    requires d > 0
  {
    (n + d - 1) / d
  }

  lemma CeilDivUnique(n: nat, d: int, q: nat)
    requires d > 0 && q * d < n + d && n <= q * d
    ensures CeilDiv(n, d) == q
  {
    var r := n + d - 1 - q * d;
    assert 0 <= r < d;
    DivUnique(n + d - 1, d, q, r);
  }

  lemma DivUnique(x: int, d: int, q: int, r: int)
    requires d > 0 && x == q * d + r && 0 <= r < d
    ensures x / d == q
  {
    var q', r' := x / d, x % d;
    assert (q - q') * d == r' - r;
    assert q - q' >= 1 ==> (q - q') * d >= d;
    assert q - q' <= -1 ==> (q - q') * d <= -d;
  }

  /** The window is cut into exactly ceil((end - start) / step) buckets. */
  lemma BucketCount(start: int, end: int, step: int)
    requires step > 0 && start <= end
    ensures |Buckets(start, end, step)| == CeilDiv(end - start, step)
  {
    CountBounds(start, end, step);
    CeilDivUnique(end - start, step, |Buckets(start, end, step)|);
  }

  lemma {:induction false} CountBounds(start: int, end: int, step: int)
    requires step > 0
    ensures var n := |Buckets(start, end, step)|;
            start <= end ==> n * step < end - start + step && end - start <= n * step
    ensures start >= end ==> Buckets(start, end, step) == []
    decreases end - start
  {
    if start < end {
      CountBounds(start + step, end, step);
      var n := |Buckets(start + step, end, step)|;
      assert (n + 1) * step == n * step + step;
    }
  }

  /** Bucket i starts i steps in and ends a step later or at the window's end; so they abut and are not empty. */
  lemma {:induction false} BucketAt(start: int, end: int, step: int, i: nat)
    requires step > 0 && i < |Buckets(start, end, step)|
    ensures var b := Buckets(start, end, step)[i];
            && b.start == start + i * step < end
            && b.end == (if b.start + step > end then end else b.start + step)
    decreases i
  {
    if i > 0 {
      BucketAt(start + step, end, step, i - 1);
      assert (i - 1) * step + step == i * step;
    }
  }

  /** Every instant of the window lies in exactly one bucket. */
  lemma BucketsPartition(start: int, end: int, step: int, t: int)
    requires step > 0 && start <= t < end
    ensures var bs, k := Buckets(start, end, step), (t - start) / step;
            && 0 <= k < |bs|
            && forall i :: 0 <= i < |bs| ==> (bs[i].start <= t < bs[i].end <==> i == k)
  {
    var bs, k := Buckets(start, end, step), (t - start) / step;
    QuotientBounds(t - start, step);
    CountBounds(start, end, step);
    if k >= |bs| {
      MulMonotone(|bs|, k, step);
      assert false;
    }
    forall i | 0 <= i < |bs|
      ensures bs[i].start <= t < bs[i].end <==> i == k
    {
      OneBucket(start, end, step, t, k, i);
    }
  }

  lemma QuotientBounds(x: nat, d: int)
    requires d > 0
    ensures 0 <= x / d && (x / d) * d <= x < (x / d) * d + d
  {
  }

  lemma OneBucket(start: int, end: int, step: int, t: int, k: nat, i: nat)
    requires step > 0 && t < end && i < |Buckets(start, end, step)|
    requires k * step <= t - start < k * step + step
    ensures var b := Buckets(start, end, step)[i]; b.start <= t < b.end <==> i == k
  {
    BucketAt(start, end, step, i);
    if i < k {
      MulMonotone(i + 1, k, step);
    } else if i > k {
      MulMonotone(k + 1, i, step);
    }
  }

  lemma MulMonotone(a: int, b: int, d: int)
    requires a <= b && d > 0
    ensures a * d <= b * d && (a + 1) * d == a * d + d && (b + 1) * d == b * d + d
  {
    assert (b - a) * d >= 0;
  }

  // ---------------------------------------------------------------- the bucket loop in int64 arithmetic

  const TWO_TO_64: int := 0x1_0000_0000_0000_0000

  /** int64 addition. */
  function Add64(a: Int64, b: Int64): Int64
  {
    if a + b > MAX_INT64 then a + b - TWO_TO_64 else if a + b < -MAX_INT64 - 1 then a + b + TWO_TO_64 else a + b
  }

  /** The bucket of one round; its end may have wrapped, and is clipped to the window. */
  function RoundBucket(from: Int64, end: Int64, step: Int64): Expectation
  {
    Expectation(from, if Add64(from, step) > end then end else Add64(from, step))
  }

  /** Standing at `from`, the loop is done after exactly n more rounds. */
  predicate EndsAfter(from: Int64, end: Int64, step: Int64, n: nat)
    decreases n
  {
    if n == 0 then from >= end else from < end && EndsAfter(Add64(from, step), end, step, n - 1)
  }

  function RoundsFrom(from: Int64, end: Int64, step: Int64, n: nat): seq<Expectation>
    decreases n
  {
    if n == 0 then [] else [RoundBucket(from, end, step)] + RoundsFrom(Add64(from, step), end, step, n - 1)
  }

  ghost predicate LoopEnds(start: Int64, end: Int64, step: Int64)
  {
    exists n :: EndsAfter(start, end, step, n)
  }

  lemma {:induction false} EndsOnce(from: Int64, end: Int64, step: Int64, n: nat, m: nat)
    requires EndsAfter(from, end, step, n) && EndsAfter(from, end, step, m)
    ensures n == m
    decreases n
  {
    if n > 0 && m > 0 { EndsOnce(Add64(from, step), end, step, n - 1, m - 1); }
  }

  ghost function LoopBuckets(start: Int64, end: Int64, step: Int64): seq<Expectation>
    requires LoopEnds(start, end, step)
  {
    var n :| EndsAfter(start, end, step, n);
    RoundsFrom(start, end, step, n)
  }

  /** The bucket loop, both additions in int64. */
  method CutBuckets(start: Int64, end: Int64, step: Int64) returns (out: seq<Expectation>)
    requires LoopEnds(start, end, step)
    ensures out == LoopBuckets(start, end, step)
  {
    ghost var n: nat :| EndsAfter(start, end, step, n)
                        && LoopBuckets(start, end, step) == RoundsFrom(start, end, step, n);
    out := [];
    var bucketStart: Int64 := start;
    while bucketStart < end
      invariant EndsAfter(bucketStart, end, step, n)
      invariant out + RoundsFrom(bucketStart, end, step, n) == LoopBuckets(start, end, step)
      decreases n
    {
      var bucketEnd := Add64(bucketStart, step);
      if bucketEnd > end {
        bucketEnd := end;
      }
      out := out + [Expectation(bucketStart, bucketEnd)];
      bucketStart := Add64(bucketStart, step);
      n := n - 1;
    }
  }

  // ---------------------------------------------------------------- when the loop ends

  /** The representative of x modulo 2^64 that is an int64. */
  function Wrap64(x: int): int
  {
    (x + MAX_INT64 + 1) % TWO_TO_64 - MAX_INT64 - 1
  }

  lemma WrapShift(x: int, carry: int)
    ensures Wrap64(x + carry * TWO_TO_64) == Wrap64(x)
  {
    var a := x + MAX_INT64 + 1;
    DivUnique(a + carry * TWO_TO_64, TWO_TO_64, a / TWO_TO_64 + carry, a % TWO_TO_64);
  }

  /** After n rounds from `from` the loop stands at from + n * step, wrapped. */
  ghost predicate Reaches(from: Int64, end: Int64, step: Int64, n: nat)
  {
    end <= Wrap64(from + n * step)
  }

  lemma ReachesNext(from: Int64, end: Int64, step: Int64, n: nat)
    ensures Reaches(from, end, step, n + 1) <==> Reaches(Add64(from, step), end, step, n)
  {
    var carry := if from + step > MAX_INT64 then -1 else if from + step < -MAX_INT64 - 1 then 1 else 0;
    assert from + (n + 1) * step + carry * TWO_TO_64 == Add64(from, step) + n * step;
    WrapShift(from + (n + 1) * step, carry);
  }

  /** So the loop ends iff some start + n * step, wrapped, reaches the window's end. */
  lemma LoopEndsIff(start: Int64, end: Int64, step: Int64)
    ensures LoopEnds(start, end, step) <==> exists n: nat :: Reaches(start, end, step, n)
  {
    if n: nat :| Reaches(start, end, step, n) {
      var m := FirstReach(start, end, step, n);
    }
    if n: nat :| EndsAfter(start, end, step, n) {
      EndReaches(start, end, step, n);
    }
  }

  lemma {:induction false} EndReaches(from: Int64, end: Int64, step: Int64, n: nat)
    requires EndsAfter(from, end, step, n)
    ensures Reaches(from, end, step, n)
    decreases n
  {
    if n > 0 {
      EndReaches(Add64(from, step), end, step, n - 1);
      ReachesNext(from, end, step, n - 1);
    }
  }

  lemma {:induction false} FirstReach(from: Int64, end: Int64, step: Int64, n: nat) returns (m: nat)
    requires Reaches(from, end, step, n)
    ensures EndsAfter(from, end, step, m)
    decreases n
  {
    if from >= end {
      m := 0;
    } else {
      ReachesNext(from, end, step, n - 1);
      m := FirstReach(Add64(from, step), end, step, n - 1);
      m := m + 1;
    }
  }

  // ---- the same in closed form

  function Pow2(k: nat): nat
  {
    if k == 0 then 1 else 2 * Pow2(k - 1)
  }

  lemma {:induction false} Pow2Add(a: nat, b: nat)
    ensures Pow2(a + b) == Pow2(a) * Pow2(b)
  {
    if a == 0 {
      assert 1 * Pow2(b) == Pow2(b);
    } else {
      Pow2Add(a - 1, b);
      TwiceProduct(Pow2(a - 1), Pow2(b));
      assert Pow2(a + b) == 2 * Pow2(a - 1 + b);
    }
  }

  lemma TwiceProduct(x: nat, y: nat)
    ensures 2 * (x * y) == (2 * x) * y
  {
  }

  lemma Pow2Of64()
    ensures Pow2(63) == MAX_INT64 + 1 && Pow2(64) == TWO_TO_64
  {
    Pow2Of32();
    Pow2Add(31, 32);
    Pow2Add(32, 32);
  }

  lemma Pow2Of32()
    ensures Pow2(31) == 0x8000_0000 && Pow2(32) == 0x1_0000_0000
  {
    Pow2Of16();
    Pow2Add(15, 16);
    Pow2Add(16, 16);
  }

  lemma Pow2Of16()
    ensures Pow2(15) == 0x8000 && Pow2(16) == 0x1_0000
  {
    assert Pow2(4) == 16;
    Pow2Add(4, 4);
    assert Pow2(7) == 128 && Pow2(8) == 256;
    Pow2Add(7, 8);
    Pow2Add(8, 8);
  }

  lemma {:induction false} Pow2Monotone(a: nat, b: nat)
    requires a <= b
    ensures 1 <= Pow2(a) <= Pow2(b)
  {
    if b > a { Pow2Monotone(a, b - 1); } else if a > 0 { Pow2Monotone(a - 1, b - 1); }
  }

  /** The number of times two divides a step. */
  function Twos(step: nat): nat
    requires step > 0
  {
    if step % 2 == 1 then 0 else 1 + Twos(step / 2)
  }

  lemma {:induction false} OddPart(step: nat) returns (odd: nat)
    requires step > 0
    ensures odd % 2 == 1 && step == Pow2(Twos(step)) * odd
  {
    if step % 2 == 1 {
      odd := step;
    } else {
      odd := OddPart(step / 2);
      assert 2 * (Pow2(Twos(step / 2)) * odd) == (2 * Pow2(Twos(step / 2))) * odd;
    }
  }

  /** An odd number has an inverse modulo every power of two. */
  lemma {:induction false} OddInverse(a: nat, k: nat) returns (x: nat, t: nat)
    requires a % 2 == 1
    ensures a * x == 1 + Pow2(k) * t
    decreases k
  {
    if k == 0 {
      x, t := 1, a - 1;
    } else {
      x, t := OddInverse(a, k - 1);
      x, t := InverseStep(a, Pow2(k - 1), x, t);
    }
  }

  lemma InverseStep(a: nat, p: nat, x: nat, t: nat) returns (x': nat, t': nat)
    requires a % 2 == 1 && a * x == 1 + p * t
    ensures a * x' == 1 + (2 * p) * t'
  {
    if t % 2 == 0 {
      x', t' := x, t / 2;
      DoubleHalf(p, t');
    } else {
      x', t' := x + p, (t + a) / 2;
      ShiftInverse(a, p, x, t, t');
    }
  }

  lemma ShiftInverse(a: nat, p: nat, x: nat, t: nat, h: nat)
    requires a * x == 1 + p * t && t + a == 2 * h
    ensures a * (x + p) == 1 + (2 * p) * h
  {
    Distribute(a, x, p);
    Distribute(p, t, a);
    DoubleHalf(p, h);
  }

  lemma Distribute(a: int, b: int, c: int)
    ensures a * (b + c) == a * b + a * c && a * c == c * a
  {
  }

  lemma DoubleHalf(p: nat, h: nat)
    ensures (2 * p) * h == p * (2 * h)
  {
  }

  /** g is the power of two in a step: the rest is odd, and 2^64 is a multiple of g. */
  ghost predicate TwoPart(step: Int64, g: nat, odd: nat, m: nat)
  {
    g > 0 && odd % 2 == 1 && step == g * odd && TWO_TO_64 == g * m
  }

  lemma TwoPartOf(step: Int64) returns (odd: nat, m: nat)
    requires step > 0
    ensures TwoPart(step, Pow2(Twos(step)), odd, m)
  {
    var k := Twos(step);
    odd := OddPart(step);
    Pow2Of64();
    Pow2Monotone(0, k);
    FewTwos(k, odd);
    Pow2Add(k, 64 - k);
    m := Pow2(64 - k);
  }

  lemma FewTwos(k: nat, odd: nat)
    requires odd % 2 == 1 && Pow2(k) * odd <= MAX_INT64
    ensures k < 63
  {
    Pow2Of64();
    if k >= 63 {
      Pow2Monotone(63, k);
      MulMonotone(1, odd, Pow2(k));
      assert false;
    }
  }

  /** The latest instant the loop ever stands at. */
  function LastStand(start: Int64, g: nat): int
    requires g > 0
  {
    MAX_INT64 - (MAX_INT64 - start) % g
  }

  lemma ModShift(x: int, g: int, z: int)
    requires g > 0
    ensures (x - g * z) % g == x % g
  {
    Distribute(g, x / g, -z);
    assert x == g * (x / g) + x % g;
    DivUnique(x - g * z, g, x / g - z, x % g);
  }

  lemma ModAtMost(x: int, g: int)
    requires g > 0 && x >= 0
    ensures 0 <= x % g <= x
  {
  }

  lemma WrapIs(x: int) returns (carry: int)
    ensures Wrap64(x) == x - carry * TWO_TO_64 && -MAX_INT64 - 1 <= Wrap64(x) <= MAX_INT64
  {
    carry := (x + MAX_INT64 + 1) / TWO_TO_64;
  }

  lemma CommonFactor(g: int, n: int, odd: int, carry: int, m: int)
    ensures n * (g * odd) - carry * (g * m) == g * (n * odd - carry * m)
  {
    assert n * (g * odd) == g * (n * odd) && carry * (g * m) == g * (carry * m);
    Distribute(g, n * odd, -(carry * m));
  }

  /** The loop never stands later than that. */
  lemma NeverLater(start: Int64, step: Int64, n: nat, g: nat, odd: nat, m: nat)
    requires TwoPart(step, g, odd, m)
    ensures Wrap64(start + n * step) <= LastStand(start, g)
  {
    var carry := WrapIs(start + n * step);
    CommonFactor(g, n, odd, carry, m);
    AtMostLast(start, g, n * odd - carry * m, Wrap64(start + n * step));
  }

  lemma AtMostLast(start: Int64, g: nat, z: int, w: int)
    requires g > 0 && w == start + g * z <= MAX_INT64
    ensures w <= LastStand(start, g)
  {
    ModShift(MAX_INT64 - start, g, z);
    ModAtMost(MAX_INT64 - w, g);
  }

  /** And it comes to stand there. */
  lemma StandsLast(start: Int64, step: Int64, g: nat, odd: nat, m: nat) returns (n: nat)
    requires TwoPart(step, g, odd, m)
    ensures Wrap64(start + n * step) == LastStand(start, g)
  {
    var x, t := OddInverse(odd, 64);
    Pow2Of64();
    n := StandsAt(start, step, g, odd, x, t);
  }

  lemma StandsAt(start: Int64, step: Int64, g: nat, odd: nat, x: nat, t: nat) returns (n: nat)
    requires step == g * odd && odd * x == 1 + TWO_TO_64 * t && g > 0
    ensures Wrap64(start + n * step) == LastStand(start, g)
  {
    var q := (MAX_INT64 - start) / g;
    n := q * x;
    InverseSteps(g, odd, x, t, q);
    var last := LastStand(start, g);
    ModAtMost(MAX_INT64 - start, g);
    assert last == start + g * q;
    WrapShift(last, g * q * t);
    assert Wrap64(last) == last;
  }

  lemma InverseSteps(g: nat, odd: nat, x: nat, t: nat, q: nat)
    requires odd * x == 1 + TWO_TO_64 * t
    ensures (q * x) * (g * odd) == g * q + (g * q * t) * TWO_TO_64
  {
    assert (q * x) * (g * odd) == (g * q) * (odd * x);
    Distribute(g * q, 1, TWO_TO_64 * t);
    assert (g * q) * (TWO_TO_64 * t) == (g * q * t) * TWO_TO_64;
  }

  lemma ReachedByThen(start: Int64, end: Int64, step: Int64, n: nat)
    requires step > 0 && Reaches(start, end, step, n)
    ensures Pow2(Twos(step)) > 0 && end <= LastStand(start, Pow2(Twos(step)))
  {
    var odd, m := TwoPartOf(step);
    NeverLater(start, step, n, Pow2(Twos(step)), odd, m);
  }

  lemma LastIsReached(start: Int64, end: Int64, step: Int64) returns (n: nat)
    requires step > 0
    ensures Pow2(Twos(step)) > 0 && (end <= LastStand(start, Pow2(Twos(step))) ==> Reaches(start, end, step, n))
  {
    var odd, m := TwoPartOf(step);
    n := StandsLast(start, step, Pow2(Twos(step)), odd, m);
  }

  /** So the loop ends iff the window does by then: a condition on window and deferral alone. */
  lemma LoopEndsClosed(start: Int64, end: Int64, step: Int64)
    requires step > 0
    ensures Pow2(Twos(step)) > 0 && (LoopEnds(start, end, step) <==> end <= LastStand(start, Pow2(Twos(step))))
  {
    LoopEndsIff(start, end, step);
    if n: nat :| Reaches(start, end, step, n) { ReachedByThen(start, end, step, n); }
    var n := LastIsReached(start, end, step);
  }

  /** It need not: up to the last instant an int64 holds, an even start is never done, for any deferral. */
  lemma NeverEnds(rule: Rule, w: Window)
    requires !WholeWindow(rule) && w.end == MAX_INT64 && w.start % 2 == 0
    ensures !Stops(rule, w)
  {
    LoopEndsClosed(w.start, w.end, StepOf(rule));
    OddMod(MAX_INT64 - w.start, Pow2(Twos(StepOf(rule))));
  }

  lemma OddMod(x: int, g: int)
    requires x % 2 == 1 && g > 0 && g % 2 == 0
    ensures x % g != 0
  {
    var q := x / g;
    assert x == g * q + x % g;
    assert g * q == 2 * ((g / 2) * q);
  }

  // ---------------------------------------------------------------- exact buckets and the loop

  /** The end of the last bucket, before it is clipped to the window, still is an int64. */
  predicate Fits(start: int, end: int, step: int)
    requires step > 0
  {
    var bs := Buckets(start, end, step);
    bs == [] || bs[|bs| - 1].start + step <= MAX_INT64
  }

  /** In closed form, from the window and the deferral alone. */
  lemma FitsIff(start: int, end: int, step: int)
    requires step > 0 && start <= end <= MAX_INT64
    ensures Fits(start, end, step) <==> start + CeilDiv(end - start, step) * step <= MAX_INT64
  {
    var n := |Buckets(start, end, step)|;
    BucketCount(start, end, step);
    if n > 0 {
      BucketAt(start, end, step, n - 1);
      assert (n - 1) * step + step == n * step;
    }
  }

  /** Then the loop ends, with exactly the exact buckets. */
  lemma FitsExact(start: Int64, end: Int64, step: Int64)
    requires 0 < start && 0 < step && Fits(start, end, step)
    ensures LoopEnds(start, end, step) && LoopBuckets(start, end, step) == Buckets(start, end, step)
  {
    var m := |Buckets(start, end, step)|;
    FitsRounds(start, end, step);
    var n: nat :| EndsAfter(start, end, step, n) && LoopBuckets(start, end, step) == RoundsFrom(start, end, step, n);
    EndsOnce(start, end, step, n, m);
  }

  lemma {:induction false} FitsRounds(start: Int64, end: Int64, step: Int64)
    requires 0 < start && 0 < step && Fits(start, end, step)
    ensures var bs := Buckets(start, end, step);
            EndsAfter(start, end, step, |bs|) && RoundsFrom(start, end, step, |bs|) == bs
    decreases end - start
  {
    if start < end {
      var bs, rest := Buckets(start, end, step), Buckets(start + step, end, step);
      if start + step < end {
        assert rest[|rest| - 1] == bs[|bs| - 1];
        FitsRounds(start + step, end, step);
      } else {
        assert bs[|bs| - 1].start == start;
      }
    }
  }

  /** Otherwise, if the loop ends at all, one of its buckets ends before it starts. */
  lemma WrappedBucket(start: Int64, end: Int64, step: Int64) returns (k: nat)
    requires 0 < start && 0 < step && !Fits(start, end, step) && LoopEnds(start, end, step)
    ensures var bs := LoopBuckets(start, end, step); k < |bs| && bs[k].end < 0 < bs[k].start
  {
    var n: nat :| EndsAfter(start, end, step, n) && LoopBuckets(start, end, step) == RoundsFrom(start, end, step, n);
    k := WrappedRound(start, end, step, n);
  }

  lemma {:induction false} WrappedRound(start: Int64, end: Int64, step: Int64, n: nat) returns (k: nat)
    requires 0 < start && 0 < step && !Fits(start, end, step) && EndsAfter(start, end, step, n)
    ensures var bs := RoundsFrom(start, end, step, n); k < |bs| && bs[k].end < 0 < bs[k].start
    decreases n
  {
    var bs, rest := Buckets(start, end, step), Buckets(start + step, end, step);
    if start + step < end {
      assert rest[|rest| - 1] == bs[|bs| - 1];
      k := WrappedRound(start + step, end, step, n - 1);
      k := k + 1;
    } else {
      assert rest == [] && bs[|bs| - 1].start == start;
      k := 0;
    }
  }

  /** Every expectation of a rule over a window, as the code computes it where it stops. */
  ghost function Expected(rule: Rule, w: Window): seq<Expectation>
  {
    if WholeWindow(rule) then [Expectation(w.start, w.end)]
    else if Stops(rule, w) then LoopBuckets(w.start, w.end, StepOf(rule))
    else []
  }

  ghost predicate Stops(rule: Rule, w: Window)
  {
    WholeWindow(rule) || LoopEnds(w.start, w.end, StepOf(rule))
  }

  method ExpectedEvents(rule: Rule, w: Window) returns (exps: seq<Expectation>)
    requires WindowOk(w) && Stops(rule, w)
    ensures exps == Expected(rule, w)
    ensures rule.maxDeferralSec == 0 || rule.maxDeferralSec > MAX_INT64 / 1_000_000_000 ==>
              exps == [Expectation(w.start, w.end)]
    ensures var step := rule.maxDeferralSec * 1_000_000_000;
      0 < rule.maxDeferralSec <= MAX_INT64 / 1_000_000_000 && Fits(w.start, w.end, step) ==>
        exps == Buckets(w.start, w.end, step)
  {
    if WholeWindow(rule) {
      return [Expectation(w.start, w.end)];
    }
    exps := CutBuckets(w.start, w.end, StepOf(rule));
    if Fits(w.start, w.end, StepOf(rule)) { FitsExact(w.start, w.end, StepOf(rule)); }
  }

  // ---------------------------------------------------------------- entries against one expectation

  predicate EntryMatchesRule(e: Entry, rule: Rule)
  {
    rule.eventClass == "" || e.lbl == rule.eventClass
  }

  predicate AllZero(b: Bytes)
  {
    forall i :: 0 <= i < |b| ==> b[i] == 0
  }

  /** A field name the entry schema does not know counts as present. */
  predicate EntryHasField(e: Entry, field: string)
  {
    if field == "Approver" then e.approver.Some?
    else if field == "Reference" then e.reference.Some?
    else if field == "Signature" then |e.signature| > 0
    else if field == "MandateRef" then e.mandateRef.Some?
    else if field == "Label" then e.lbl != ""
    else if field == "Submitter" then !AllZero(e.submitter)
    else if field == "Hash" then !AllZero(e.hash)
    else true
  }

  predicate InBucket(rule: Rule, exp: Expectation, e: Entry)
  {
    EntryMatchesRule(e, rule) && exp.start <= e.timestamp < exp.end
  }

  predicate Complete(rule: Rule, e: Entry)
  {
    forall f :: f in rule.requiredFields ==> EntryHasField(e, f)
  }

  predicate Present(rule: Rule, exp: Expectation, entries: seq<Entry>)
  {
    exists e :: e in entries && InBucket(rule, exp, e)
  }

  predicate Anchored(rule: Rule, exp: Expectation, entries: seq<Entry>)
  {
    exists e :: e in entries && InBucket(rule, exp, e) && Complete(rule, e)
  }

  function Lacking(fields: seq<string>, e: Entry): (lacking: seq<string>)
    ensures lacking == [] <==> forall f :: f in fields ==> EntryHasField(e, f)
  {
    if fields == [] then []
    else
      var init, last := Lacking(fields[..|fields| - 1], e), fields[|fields| - 1];
      assert forall f :: f in fields <==> f in fields[..|fields| - 1] || f == last;
      if EntryHasField(e, last) then init else init + [last]
  }

  lemma LackingNext(fields: seq<string>, e: Entry, i: nat)
    requires i < |fields|
    ensures Lacking(fields[..i + 1], e) ==
            Lacking(fields[..i], e) + if EntryHasField(e, fields[i]) then [] else [fields[i]]
  {
    assert fields[..i + 1][..i] == fields[..i];
  }

  /** The first entry of the class in the bucket. */
  function FirstIn(rule: Rule, exp: Expectation, entries: seq<Entry>): (first: Option<Entry>)
    ensures first.Some? <==> Present(rule, exp, entries)
    ensures first.Some? ==> first.value in entries && InBucket(rule, exp, first.value)
  {
    if entries == [] then None
    else if InBucket(rule, exp, entries[0]) then Some(entries[0])
    else
      assert forall e :: e in entries <==> e == entries[0] || e in entries[1..];
      FirstIn(rule, exp, entries[1..])
  }

  method MissingFieldsOf(rule: Rule, e: Entry) returns (missing: seq<string>)
    ensures missing == Lacking(rule.requiredFields, e)
  {
    missing := [];
    var fields := rule.requiredFields;
    for i := 0 to |fields|
      invariant missing == Lacking(fields[..i], e)
    {
      LackingNext(fields, e, i);
      if !EntryHasField(e, fields[i]) {
        missing := missing + [fields[i]];
      }
    }
    assert fields[..|fields|] == fields;
  }

  /** A complete entry wins wherever it stands; failing that, the first incomplete one is reported. */
  method FindMatchingEntry(rule: Rule, exp: Expectation, entries: seq<Entry>)
    returns (found: Option<Entry>, incomplete: seq<string>)
    ensures found.Some? && incomplete == [] <==> Anchored(rule, exp, entries)
    ensures found.Some? ==> found.value in entries && InBucket(rule, exp, found.value)
    ensures !Anchored(rule, exp, entries) ==> found == FirstIn(rule, exp, entries)
    ensures found.Some? ==> incomplete == Lacking(rule.requiredFields, found.value)
  {
    found, incomplete := None, [];
    for i := 0 to |entries|
      invariant found.None? ==> FirstIn(rule, exp, entries) == FirstIn(rule, exp, entries[i..])
      invariant found.Some? ==>
                  && found == FirstIn(rule, exp, entries)
                  && incomplete == Lacking(rule.requiredFields, found.value) != []
      invariant forall k :: 0 <= k < i && InBucket(rule, exp, entries[k]) ==> !Complete(rule, entries[k])
    {
      var e := entries[i];
      assert entries[i..][1..] == entries[i + 1..];
      if !EntryMatchesRule(e, rule) || e.timestamp < exp.start || e.timestamp >= exp.end {
        continue;
      }
      var missing := MissingFieldsOf(rule, e);
      assert InBucket(rule, exp, e) && (missing == [] <==> Complete(rule, e));
      if missing == [] {
        return Some(e), [];
      }
      if found.None? {
        found, incomplete := Some(e), missing;
      }
    }
  }

  // ---------------------------------------------------------------- the report

  datatype Obligation = Obligation(ruleIndex: nat, rule: Rule, exp: Expectation)

  function Tagged(index: nat, rule: Rule, exps: seq<Expectation>): seq<Obligation>
  {
    seq(|exps|, k requires 0 <= k < |exps| => Obligation(index, rule, exps[k]))
  }

  /** Every expectation of every mandatory rule, in order. */
  ghost function Obligations(rules: seq<Rule>, w: Window): seq<Obligation>
  {
    if rules == [] then []
    else
      var n := |rules| - 1;
      Obligations(rules[..n], w) + if rules[n].mandatory then Tagged(n, rules[n], Expected(rules[n], w)) else []
  }

  lemma ObligationsNext(rules: seq<Rule>, w: Window, i: nat)
    requires i < |rules|
    ensures Obligations(rules[..i + 1], w) == Obligations(rules[..i], w)
              + if rules[i].mandatory then Tagged(i, rules[i], Expected(rules[i], w)) else []
    ensures !rules[i].mandatory ==> Obligations(rules[..i + 1], w) == Obligations(rules[..i], w)
  {
    assert rules[..i + 1][..i] == rules[..i];
  }

  predicate Met(ob: Obligation, entries: seq<Entry>)
  {
    Anchored(ob.rule, ob.exp, entries)
  }

  function GapFor(ob: Obligation, entries: seq<Entry>): Gap
  {
    match FirstIn(ob.rule, ob.exp, entries)
    case None => Gap(ob.ruleIndex, ob.rule.eventClass, ob.exp, Missing, [])
    case Some(e) => Gap(ob.ruleIndex, ob.rule.eventClass, ob.exp, MissingFields, Lacking(ob.rule.requiredFields, e))
  }

  function Extend(r: Report, ob: Obligation, entries: seq<Entry>): Report
  {
    if Met(ob, entries) then Report(r.totalExpected + 1, r.totalAnchored + 1, r.gaps)
    else Report(r.totalExpected + 1, r.totalAnchored, r.gaps + [GapFor(ob, entries)])
  }

  /** The report on a list of obligations. */
  function Tally(obs: seq<Obligation>, entries: seq<Entry>): Report
  {
    if obs == [] then Report(0, 0, []) else Extend(Tally(obs[..|obs| - 1], entries), obs[|obs| - 1], entries)
  }

  lemma TallyNext(obs: seq<Obligation>, ob: Obligation, entries: seq<Entry>)
    ensures Tally(obs + [ob], entries) == Extend(Tally(obs, entries), ob, entries)
  {
    assert (obs + [ob])[..|obs|] == obs;
  }

  /** The code returns: no mandatory rule's bucket loop runs for ever. */
  ghost predicate AllStop(rules: seq<Rule>, w: Window)
  {
    forall i :: 0 <= i < |rules| && rules[i].mandatory ==> Stops(rules[i], w)
  }

  datatype Outcome = InvalidWindow | MandateNotFound | Checked(report: Report, rate: real)

  /** What one expectation adds to the report: an anchored event or a gap. */
  method AssessOne(ob: Obligation, entries: seq<Entry>, before: Report) returns (report: Report)
    ensures report == Extend(before, ob, entries)
  {
    var matched, missing := FindMatchingEntry(ob.rule, ob.exp, entries);
    if matched.Some? && missing == [] {
      return Report(before.totalExpected + 1, before.totalAnchored + 1, before.gaps);
    }
    var gap := Gap(ob.ruleIndex, ob.rule.eventClass, ob.exp, Missing, []);
    if matched.Some? {
      gap := gap.(status := MissingFields, missingFields := missing);
    }
    return Report(before.totalExpected + 1, before.totalAnchored, before.gaps + [gap]);
  }

  method AssessRule(index: nat, rule: Rule, exps: seq<Expectation>, entries: seq<Entry>,
                    before: Report, ghost obs: seq<Obligation>) returns (report: Report)
    requires before == Tally(obs, entries)
    ensures report == Tally(obs + Tagged(index, rule, exps), entries)
  {
    report := before;
    ghost var tagged := Tagged(index, rule, exps);
    assert obs + tagged[..0] == obs;
    for k := 0 to |exps|
      invariant report == Tally(obs + tagged[..k], entries)
    {
      assert obs + tagged[..k + 1] == obs + tagged[..k] + [tagged[k]];
      TallyNext(obs + tagged[..k], tagged[k], entries);
      report := AssessOne(Obligation(index, rule, exps[k]), entries, report);
    }
    assert obs + tagged[..|exps|] == obs + tagged;
  }

  /** Rule i: nothing if it is only recommended, otherwise all its expectations. */
  method AssessNext(rules: seq<Rule>, i: nat, w: Window, entries: seq<Entry>, before: Report) returns (report: Report)
    requires WindowOk(w) && i < |rules| && before == Tally(Obligations(rules[..i], w), entries)
    requires rules[i].mandatory ==> Stops(rules[i], w)
    ensures report == Tally(Obligations(rules[..i + 1], w), entries)
  {
    ObligationsNext(rules, w, i);
    if !rules[i].mandatory {
      return before;
    }
    var exps := ExpectedEvents(rules[i], w);
    report := AssessRule(i, rules[i], exps, entries, before, Obligations(rules[..i], w));
  }

  method AssessRules(rules: seq<Rule>, w: Window, entries: seq<Entry>) returns (report: Report)
    requires WindowOk(w) && AllStop(rules, w)
    ensures report == Tally(Obligations(rules, w), entries)
  {
    report := Report(0, 0, []);
    for i := 0 to |rules|
      invariant report == Tally(Obligations(rules[..i], w), entries)
    {
      report := AssessNext(rules, i, w, entries, report);
    }
    assert rules[..|rules|] == rules;
  }

  /** The anchored share of the expected events, 0 if none are expected. */
  predicate IsRate(anchored: nat, expected: nat, rate: real)
  {
    rate * expected as real == anchored as real && 0.0 <= rate <= 1.0 && (expected == 0 ==> rate == 0.0)
  }

  lemma Share(a: nat, n: nat)
    requires a <= n && n > 0
    ensures var rate := a as real / n as real; IsRate(a, n, rate) && (rate == 1.0 <==> a == n)
  {
  }

  method ComplianceRate(anchored: nat, expected: nat) returns (rate: real)
    requires anchored <= expected
    ensures IsRate(anchored, expected, rate) && (rate == 1.0 <==> expected > 0 && anchored == expected)
  {
    rate := 0.0;
    if expected > 0 {
      Share(anchored, expected);
      rate := anchored as real / expected as real;
    }
  }

  /** `mandate` holds the rules the resolver has for the mandate asked about, if any. */
  method CheckComplianceMandate(mandate: Option<seq<Rule>>, w: Window, entries: seq<Entry>) returns (out: Outcome)
    requires WindowOk(w) && mandate.Some? ==> AllStop(mandate.value, w)
    ensures out.InvalidWindow? <==> !(0 < w.start <= w.end && w.startCycle <= w.endCycle)
    ensures out.MandateNotFound? <==> 0 < w.start <= w.end && w.startCycle <= w.endCycle && mandate.None?
    ensures out.Checked? ==>
              && out.report == Tally(Obligations(mandate.value, w), entries)
              && IsRate(out.report.totalAnchored, out.report.totalExpected, out.rate)
              && (out.rate == 1.0 <==> out.report.totalExpected > 0 && out.report.gaps == [])
  {
    if !WindowOk(w) {
      return InvalidWindow;
    }
    if mandate.None? {
      return MandateNotFound;
    }
    var report := AssessRules(mandate.value, w, entries);
    Accounting(Obligations(mandate.value, w), entries);
    var rate := ComplianceRate(report.totalAnchored, report.totalExpected);
    return Checked(report, rate);
  }

  // ---------------------------------------------------------------- what the report means

  /** Every expectation is either anchored or a gap, and there is no gap exactly when all are met. */
  lemma {:induction false} Accounting(obs: seq<Obligation>, entries: seq<Entry>)
    ensures var r := Tally(obs, entries);
            && r.totalExpected == |obs| == r.totalAnchored + |r.gaps|
            && (r.gaps == [] <==> forall i :: 0 <= i < |obs| ==> Met(obs[i], entries))
  {
    if obs != [] {
      Accounting(obs[..|obs| - 1], entries);
    }
  }

  /** Two entry lists no expectation can tell apart. */
  ghost predicate SameEvidence(ob: Obligation, a: seq<Entry>, b: seq<Entry>)
  {
    && (Met(ob, a) <==> Met(ob, b))
    && (Present(ob.rule, ob.exp, a) <==> Present(ob.rule, ob.exp, b))
  }

  predicate SameShape(g: seq<Gap>, h: seq<Gap>)
  {
    |g| == |h| && forall i :: 0 <= i < |g| ==> g[i].(missingFields := []) == h[i].(missingFields := [])
  }

  lemma {:induction false} TallySame(obs: seq<Obligation>, a: seq<Entry>, b: seq<Entry>)
    requires forall i :: 0 <= i < |obs| ==> SameEvidence(obs[i], a, b)
    ensures var r, q := Tally(obs, a), Tally(obs, b);
            r.totalExpected == q.totalExpected && r.totalAnchored == q.totalAnchored && SameShape(r.gaps, q.gaps)
  {
    if obs != [] {
      TallySame(obs[..|obs| - 1], a, b);
      assert SameEvidence(obs[|obs| - 1], a, b);
    }
  }

  /** Totals, gaps and statuses depend on which entries there are, not on their order or repetition. */
  lemma OrderIrrelevant(obs: seq<Obligation>, a: seq<Entry>, b: seq<Entry>)
    requires forall e :: e in a <==> e in b
    ensures var r, q := Tally(obs, a), Tally(obs, b);
            r.totalExpected == q.totalExpected && r.totalAnchored == q.totalAnchored && SameShape(r.gaps, q.gaps)
  {
    TallySame(obs, a, b);
  }

  /** More entries never unmeet an expectation. */
  lemma {:induction false} EntriesOnlyHelp(obs: seq<Obligation>, a: seq<Entry>, b: seq<Entry>)
    requires forall e :: e in a ==> e in b
    ensures Tally(obs, a).totalAnchored <= Tally(obs, b).totalAnchored
  {
    if obs != [] {
      EntriesOnlyHelp(obs[..|obs| - 1], a, b);
      if Met(obs[|obs| - 1], a) {
        assert Met(obs[|obs| - 1], b);
      }
    }
  }

  /** The same entries, but each may claim a different mandate or none. */
  ghost predicate SameButRefs(a: seq<Entry>, b: seq<Entry>)
  {
    |a| == |b| && forall i :: 0 <= i < |a| ==> a[i].(mandateRef := None) == b[i].(mandateRef := None)
  }

  lemma RefIrrelevantTo(rule: Rule, exp: Expectation, a: seq<Entry>, b: seq<Entry>)
    requires "MandateRef" !in rule.requiredFields && SameButRefs(a, b)
    ensures Anchored(rule, exp, a) ==> Anchored(rule, exp, b)
    ensures Present(rule, exp, a) ==> Present(rule, exp, b)
  {
    if Present(rule, exp, a) {
      var e :| e in a && InBucket(rule, exp, e) && (Anchored(rule, exp, a) ==> Complete(rule, e));
      var i :| 0 <= i < |a| && a[i] == e;
      assert b[i] in b && a[i].(mandateRef := None) == b[i].(mandateRef := None);
      forall f | f in rule.requiredFields
        ensures EntryHasField(a[i], f) <==> EntryHasField(b[i], f)
      {
      }
    }
  }

  /** An operator changes nothing by omitting or altering MandateRef, unless a rule asks for that very field. */
  lemma MandateRefIrrelevant(rules: seq<Rule>, w: Window, a: seq<Entry>, b: seq<Entry>)
    requires forall i :: 0 <= i < |rules| && rules[i].mandatory ==> "MandateRef" !in rules[i].requiredFields
    requires SameButRefs(a, b)
    ensures var r, q := Tally(Obligations(rules, w), a), Tally(Obligations(rules, w), b);
            r.totalExpected == q.totalExpected && r.totalAnchored == q.totalAnchored && SameShape(r.gaps, q.gaps)
  {
    var obs := Obligations(rules, w);
    forall i | 0 <= i < |obs|
      ensures SameEvidence(obs[i], a, b)
    {
      ObligationSource(rules, w, i);
      RefIrrelevantTo(obs[i].rule, obs[i].exp, a, b);
      RefIrrelevantTo(obs[i].rule, obs[i].exp, b, a);
    }
    TallySame(obs, a, b);
  }

  /** Obligations come from mandatory rules, and all expectations of a mandatory rule are obligations. */
  lemma {:induction false} ObligationSource(rules: seq<Rule>, w: Window, i: nat)
    requires i < |Obligations(rules, w)|
    ensures var ob := Obligations(rules, w)[i];
            && ob.ruleIndex < |rules| && ob.rule == rules[ob.ruleIndex]
            && ob.rule.mandatory && ob.exp in Expected(ob.rule, w)
  {
    var n := |rules| - 1;
    if i < |Obligations(rules[..n], w)| {
      ObligationSource(rules[..n], w, i);
    }
  }

  lemma {:induction false} ExpectationsObliged(rules: seq<Rule>, w: Window, r: nat, k: nat)
    requires r < |rules| && rules[r].mandatory && k < |Expected(rules[r], w)|
    ensures Obligation(r, rules[r], Expected(rules[r], w)[k]) in Obligations(rules, w)
  {
    var n := |rules| - 1;
    if r < n {
      ExpectationsObliged(rules[..n], w, r, k);
    } else {
      var before := |Obligations(rules[..n], w)|;
      assert Obligations(rules, w)[before + k] == Tagged(n, rules[n], Expected(rules[n], w))[k];
    }
  }

  /** An entry of the rule's class at time t that carries every field. */
  function FullEntry(rule: Rule, t: int): Entry
  {
    var lbl := if rule.eventClass == "" then "event" else rule.eventClass;
    Entry(seq(32, _ => 1), seq(16, _ => 1), t, lbl, Some([]), Some([]), [1], Some([]))
  }

  lemma FullEntryComplete(rule: Rule, t: int)
    ensures Complete(rule, FullEntry(rule, t)) && EntryMatchesRule(FullEntry(rule, t), rule)
  {
    var e := FullEntry(rule, t);
    assert e.hash[0] != 0 && e.submitter[0] != 0;
  }

  /** The entry without one of the fields a rule can ask for. */
  function Blanked(e: Entry, field: string): Entry
  {
    if field == "Approver" then e.(approver := None)
    else if field == "Reference" then e.(reference := None)
    else if field == "Signature" then e.(signature := [])
    else if field == "MandateRef" then e.(mandateRef := None)
    else if field == "Label" then e.(lbl := "")
    else if field == "Submitter" then e.(submitter := seq(16, _ => 0))
    else if field == "Hash" then e.(hash := seq(32, _ => 0))
    else e
  }

  const KNOWN_FIELDS := {"Approver", "Reference", "Signature", "MandateRef", "Label", "Submitter", "Hash"}

  /** A required field is about that part of the entry and no other; a name the schema does not know is about none. */
  lemma FieldsExact(rule: Rule, t: int, blank: string)
    ensures Complete(rule, Blanked(FullEntry(rule, t), blank)) <==>
            blank !in KNOWN_FIELDS || blank !in rule.requiredFields
  {
    var e := FullEntry(rule, t);
    assert e.hash[0] != 0 && e.submitter[0] != 0;
    forall f | f in rule.requiredFields
      ensures EntryHasField(Blanked(e, blank), f) <==> f != blank || f !in KNOWN_FIELDS
    {
      BlankedField(e, blank, f);
    }
  }

  lemma BlankedField(e: Entry, blank: string, f: string)
    requires e.approver.Some? && e.reference.Some? && e.mandateRef.Some? && |e.signature| > 0 && e.lbl != ""
    requires !AllZero(e.submitter) && !AllZero(e.hash)
    ensures EntryHasField(Blanked(e, blank), f) <==> f != blank || f !in KNOWN_FIELDS
  {
    assert AllZero(seq(16, _ => 0)) && AllZero(seq(32, _ => 0));
  }

  /** Entries of other classes leave a bucket empty, whatever they carry; a rule without a class takes any. */
  lemma ClassDecides(ob: Obligation, entries: seq<Entry>)
    ensures ob.rule.eventClass != "" && (forall e :: e in entries ==> e.lbl != ob.rule.eventClass) ==>
              !Met(ob, entries) && GapFor(ob, entries).status == Missing
    ensures GapFor(ob, entries).status == MissingFields <==>
            exists e :: e in entries && ob.exp.start <= e.timestamp < ob.exp.end
                        && (ob.rule.eventClass == "" || e.lbl == ob.rule.eventClass)
    ensures GapFor(ob, entries).exp == ob.exp && GapFor(ob, entries).ruleIndex == ob.ruleIndex
  {
    assert Present(ob.rule, ob.exp, entries) <==>
      exists e :: e in entries && ob.exp.start <= e.timestamp < ob.exp.end
                  && (ob.rule.eventClass == "" || e.lbl == ob.rule.eventClass)
    by {
      if e :| e in entries && InBucket(ob.rule, ob.exp, e) { assert Present(ob.rule, ob.exp, entries); }
    }
  }

  /** And the exception is exact: a rule's verdict ignores MandateRef iff it does not require the field. */
  lemma RefMattersIffRequired(rule: Rule, exp: Expectation)
    requires exp.start < exp.end
    ensures (forall a, b :: SameButRefs(a, b) ==> (Anchored(rule, exp, a) <==> Anchored(rule, exp, b)))
       <==> "MandateRef" !in rule.requiredFields
  {
    if "MandateRef" in rule.requiredFields {
      var e := FullEntry(rule, exp.start);
      var a, b := [e], [e.(mandateRef := None)];
      FullEntryComplete(rule, exp.start);
      assert SameButRefs(a, b) && e in a && InBucket(rule, exp, e);
      assert Anchored(rule, exp, a);
      assert forall x :: x in b ==> !EntryHasField(x, "MandateRef");
    } else {
      forall a, b | SameButRefs(a, b)
        ensures Anchored(rule, exp, a) <==> Anchored(rule, exp, b)
      {
        RefIrrelevantTo(rule, exp, a, b);
        RefIrrelevantTo(rule, exp, b, a);
      }
    }
  }

  // ---------------------------------------------------------------- what a gap-free report promises

  /** Inside the window, any stretch of 2 * step - 1 instants holds a whole bucket. */
  lemma StretchHoldsBucket(start: int, end: int, step: int, t: int) returns (k: nat)
    requires step > 0 && start <= t && t + 2 * step - 1 <= end
    ensures var bs := Buckets(start, end, step);
            k < |bs| && t <= bs[k].start && bs[k].end <= t + 2 * step - 1
  {
    var q := CeilDiv(t - start, step);
    assert q * step < t - start + step && t - start <= q * step;
    CountBounds(start, end, step);
    k := q;
    if k >= |Buckets(start, end, step)| {
      MulMonotone(|Buckets(start, end, step)|, k, step);
      assert false;
    }
    BucketAt(start, end, step, k);
  }

  lemma UnfillableGap(rules: seq<Rule>, w: Window, entries: seq<Entry>, r: nat, k: nat)
    requires r < |rules| && rules[r].mandatory && k < |Expected(rules[r], w)|
    requires Expected(rules[r], w)[k].end < Expected(rules[r], w)[k].start
    ensures Tally(Obligations(rules, w), entries).gaps != []
  {
    ExpectationsObliged(rules, w, r, k);
    Accounting(Obligations(rules, w), entries);
    assert !Met(Obligation(r, rules[r], Expected(rules[r], w)[k]), entries);
  }

  /** A bucket that wrapped can never be filled, so a gap-free report also means exact buckets. */
  lemma GapFreeFits(rules: seq<Rule>, w: Window, entries: seq<Entry>, r: nat)
    requires WindowOk(w) && AllStop(rules, w) && r < |rules| && rules[r].mandatory && !WholeWindow(rules[r])
    requires Tally(Obligations(rules, w), entries).gaps == []
    ensures Fits(w.start, w.end, StepOf(rules[r]))
    ensures Expected(rules[r], w) == Buckets(w.start, w.end, StepOf(rules[r]))
  {
    var rule := rules[r];
    var step := StepOf(rule);
    if !Fits(w.start, w.end, step) {
      var k := WrappedBucket(w.start, w.end, step);
      UnfillableGap(rules, w, entries, r, k);
      assert false;
    }
    FitsExact(w.start, w.end, step);
  }

  /** A gap-free report leaves no stretch of 2 * deferral - 1 nanoseconds without complete evidence. */
  lemma GapFreeBound(rules: seq<Rule>, w: Window, entries: seq<Entry>, r: nat, t: int)
    requires WindowOk(w) && AllStop(rules, w) && r < |rules| && rules[r].mandatory && !WholeWindow(rules[r])
    requires Tally(Obligations(rules, w), entries).gaps == []
    requires w.start <= t && t + 2 * StepOf(rules[r]) - 1 <= w.end
    ensures Anchored(rules[r], Expectation(t, t + 2 * StepOf(rules[r]) - 1), entries)
  {
    var rule := rules[r];
    GapFreeFits(rules, w, entries, r);
    var k := StretchHoldsBucket(w.start, w.end, StepOf(rule), t);
    var bucket := Expected(rule, w)[k];
    ExpectationsObliged(rules, w, r, k);
    Accounting(Obligations(rules, w), entries);
    assert Met(Obligation(r, rule, bucket), entries);
    var e :| e in entries && InBucket(rule, bucket, e) && Complete(rule, e);
    assert InBucket(rule, Expectation(t, t + 2 * StepOf(rule) - 1), e);
  }

  lemma TwoBuckets(start: int, step: int)
    requires step > 0
    ensures Buckets(start, start + 2 * step, step) ==
            [Expectation(start, start + step), Expectation(start + step, start + 2 * step)]
  {
    assert Buckets(start + 2 * step, start + 2 * step, step) == [];
  }

  lemma AllMet(rules: seq<Rule>, w: Window, entries: seq<Entry>)
    requires forall rule, exp :: rule in rules && rule.mandatory && exp in Expected(rule, w) ==>
               Anchored(rule, exp, entries)
    ensures Tally(Obligations(rules, w), entries).gaps == []
  {
    var obs := Obligations(rules, w);
    forall i | 0 <= i < |obs|
      ensures Met(obs[i], entries)
    {
      ObligationSource(rules, w, i);
    }
    Accounting(obs, entries);
  }

  lemma FullAnchors(rule: Rule, exp: Expectation, entries: seq<Entry>, t: int)
    requires FullEntry(rule, t) in entries && exp.start <= t < exp.end
    ensures Anchored(rule, exp, entries)
  {
    FullEntryComplete(rule, t);
    assert InBucket(rule, exp, FullEntry(rule, t));
  }

  lemma TwoExpected(rule: Rule, start: Int64)
    requires 0 < start && !WholeWindow(rule) && start + 2 * StepOf(rule) <= MAX_INT64
    ensures var step := StepOf(rule);
            var w := Window(start, start + 2 * step, 0, 0);
            Stops(rule, w) &&
            Expected(rule, w) == [Expectation(start, start + step), Expectation(start + step, start + 2 * step)]
  {
    TwoBuckets(start, StepOf(rule));
    FitsExact(start, start + 2 * StepOf(rule), StepOf(rule));
  }

  /** The bound is tight: one nanosecond less, and a gap-free report can hide an empty stretch. */
  lemma BoundTight(rule: Rule, start: Int64)
    requires 0 < start && !WholeWindow(rule) && start + 2 * StepOf(rule) <= MAX_INT64
    ensures var step := StepOf(rule);
            var w := Window(start, start + 2 * step, 0, 0);
            var entries := [FullEntry(rule, start), FullEntry(rule, start + 2 * step - 1)];
            && AllStop([rule], w) && Tally(Obligations([rule], w), entries).gaps == []
            && !Present(rule, Expectation(start + 1, start + 2 * step - 1), entries)
  {
    var step := StepOf(rule);
    var w := Window(start, start + 2 * step, 0, 0);
    var entries := [FullEntry(rule, start), FullEntry(rule, start + 2 * step - 1)];
    assert entries[0] in entries && entries[1] in entries;
    TwoExpected(rule, start);
    FullAnchors(rule, Expectation(start, start + step), entries, start);
    FullAnchors(rule, Expectation(start + step, start + 2 * step), entries, start + 2 * step - 1);
    AllMet([rule], w, entries);
  }
}
