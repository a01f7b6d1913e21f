/** The plugin's clock: each call reports the last 2048-frame boundary that has elapsed since the
    anchor, and the host time of that boundary. Doubles are modelled as reals. */
module ZeroTimestamp {
  import opened Numbers
  import opened Pacing

  const PERIOD := 2048

  /** The host clock's ticks-to-nanoseconds ratio. */
  datatype Timebase = Timebase(numer: nat, denom: nat)

  ghost predicate Running(tb: Timebase, rate: real) {
    tb.numer > 0 && tb.denom > 0 && rate > 0.0
  }

  // ----- rescaling by a positive ratio -----

  function Scaled(x: real, num: real, den: real): real
    requires den > 0.0
  {
    x * num / den
  }

  lemma Quotient(x: real, y: real, z: real)
    requires z > 0.0 && x <= y
    ensures x / z <= y / z
  {
    var p, q := x / z, y / z;
    if q < p {
      Distribute(p, -q, z);
      Negate(q, z);
      StrictProduct(p - q, z);
    }
  }

  lemma StrictProduct(x: real, y: real)
    requires 0.0 < x && 0.0 < y
    ensures 0.0 < x * y
  {
  }

  lemma ScaledMonotone(x: real, y: real, num: real, den: real)
    requires num > 0.0 && den > 0.0 && x <= y
    ensures Scaled(x, num, den) <= Scaled(y, num, den)
  {
    ProductMonotone(x, y, num);
    Quotient(x * num, y * num, den);
  }

  lemma ScaledBack(x: real, num: real, den: real)
    requires num > 0.0 && den > 0.0
    ensures Scaled(Scaled(x, num, den), den, num) == x
  {
    var p := x * num / den;
    assert p * den == x * num;
    Cancel(x, num);
  }

  lemma Cancel(x: real, y: real)
    requires y > 0.0
    ensures x * y / y == x
  {
  }

  lemma ScaledStrict(x: real, y: real, num: real, den: real)
    requires num > 0.0 && den > 0.0 && x < y
    ensures Scaled(x, num, den) < Scaled(y, num, den)
  {
    ScaledMonotone(x, y, num, den);
    ScaledBack(x, num, den);
    ScaledBack(y, num, den);
  }

  lemma ScaledAdd(x: real, y: real, num: real, den: real)
    requires num > 0.0 && den > 0.0
    ensures Scaled(x + y, num, den) == Scaled(x, num, den) + Scaled(y, num, den)
  {
    Distribute(x, y, num);
    QuotientAdd(x * num, y * num, den);
  }

  lemma QuotientAdd(x: real, y: real, z: real)
    requires z > 0.0
    ensures (x + y) / z == x / z + y / z
  {
    var p, q := x / z, y / z;
    Distribute(p, q, z);
    Cancel(p + q, z);
  }

  // ----- the clock -----

  function ElapsedNs(ticks: nat, tb: Timebase): (ns: nat)
    requires tb.denom > 0
  {
    ticks * tb.numer / tb.denom
  }

  function ElapsedFrames(ns: nat, rate: real): real {
    ns as real * rate / 1000000000.0
  }

  function SampleTime(ticks: nat, tb: Timebase, rate: real): (sample: int)
    requires Running(tb, rate)
  {
    (ElapsedFrames(ElapsedNs(ticks, tb), rate) / 2048.0).Floor * 2048
  }

  /** Nanoseconds from the anchor to a sample boundary. */
  function BoundaryNs(sample: int, rate: real): real
    requires rate > 0.0
  {
    (sample as real / rate) * 1000000000.0
  }

  /** Host ticks from the anchor to a sample boundary. */
  function HostTicks(sample: int, tb: Timebase, rate: real): int
    requires Running(tb, rate)
  {
    Scaled(BoundaryNs(sample, rate), tb.denom as real, tb.numer as real).Floor
  }

  /** GetZeroTimeStamp: the (sample, host) pair for a call at `now`. */
  function ZeroTimeStamp(now: nat, anchor: nat, tb: Timebase, rate: real): (pair: (int, int))
    requires Running(tb, rate) && anchor <= now
  {
    var sample := SampleTime(now - anchor, tb, rate);
    (sample, anchor + HostTicks(sample, tb, rate))
  }

  // ----- what it promises -----

  lemma FloorBounds(x: real)
    ensures x.Floor as real <= x < x.Floor as real + 1.0
  {
  }

  lemma FloorMonotone(x: real, y: real)
    requires x <= y
    ensures x.Floor <= y.Floor
  {
  }

  lemma FloorApart(x: real, y: real)
    requires x + 1.0 <= y
    ensures x.Floor < y.Floor
  {
    FloorMonotone(x + 1.0, y);
  }

  lemma PeriodsOf(frames: real)
    ensures var sample := (frames / 2048.0).Floor * 2048;
            sample % 2048 == 0 && sample as real <= frames < (sample + 2048) as real
  {
    FloorBounds(frames / 2048.0);
  }

  /** The sample time is the largest multiple of the period not after the elapsed time. */
  lemma SampleIsLastBoundary(ticks: nat, tb: Timebase, rate: real)
    requires Running(tb, rate)
    ensures var sample, frames := SampleTime(ticks, tb, rate), ElapsedFrames(ElapsedNs(ticks, tb), rate);
            sample >= 0 && sample % PERIOD == 0 && sample as real <= frames < (sample + PERIOD) as real
  {
    var frames := ElapsedFrames(ElapsedNs(ticks, tb), rate);
    PeriodsOf(frames);
    ProductNonNegative(ElapsedNs(ticks, tb) as real, rate);
    Quotient(0.0, ElapsedNs(ticks, tb) as real * rate, 1000000000.0);
  }

  lemma DivisionBounds(x: nat, y: nat)
    requires y > 0
    ensures x / y * y <= x < (x / y + 1) * y
  {
  }

  lemma DivisionMonotone(x: nat, y: nat, z: nat)
    requires x <= y && z > 0
    ensures x / z <= y / z
  {
    if y / z < x / z {
      DivisionBounds(x, z);
      DivisionBounds(y, z);
      TimesMonotone(y / z + 1, x / z, z);
    }
  }

  lemma TimesMonotone(x: nat, y: nat, z: nat)
    requires x <= y
    ensures x * z <= y * z
  {
  }

  /** Later calls never report an earlier boundary or an earlier host time. */
  lemma StampsAreMonotone(now: nat, later: nat, anchor: nat, tb: Timebase, rate: real)
    requires Running(tb, rate) && anchor <= now <= later
    ensures var p, q := ZeroTimeStamp(now, anchor, tb, rate), ZeroTimeStamp(later, anchor, tb, rate);
            p.0 <= q.0 && p.1 <= q.1
  {
    SampleMonotone(now - anchor, later - anchor, tb, rate);
    HostMonotone(SampleTime(now - anchor, tb, rate), SampleTime(later - anchor, tb, rate), tb, rate);
  }

  lemma SampleMonotone(ticks: nat, later: nat, tb: Timebase, rate: real)
    requires Running(tb, rate) && ticks <= later
    ensures SampleTime(ticks, tb, rate) <= SampleTime(later, tb, rate)
  {
    TimesMonotone(ticks, later, tb.numer);
    DivisionMonotone(ticks * tb.numer, later * tb.numer, tb.denom);
    var a, b := ElapsedNs(ticks, tb), ElapsedNs(later, tb);
    ScaledMonotone(a as real, b as real, rate, 1000000000.0);
    FloorMonotone(ElapsedFrames(a, rate) / 2048.0, ElapsedFrames(b, rate) / 2048.0);
  }

  /** The boundary's nanoseconds, as one rescaling. */
  lemma BoundaryScaled(sample: int, rate: real)
    requires rate > 0.0
    ensures BoundaryNs(sample, rate) == Scaled(sample as real, 1000000000.0, rate)
  {
    var p := sample as real / rate;
    assert p * 1000000000.0 * rate == sample as real * 1000000000.0;
    Cancel(p * 1000000000.0, rate);
  }

  lemma HostMonotone(sample: int, later: int, tb: Timebase, rate: real)
    requires Running(tb, rate) && sample <= later
    ensures HostTicks(sample, tb, rate) <= HostTicks(later, tb, rate)
  {
    BoundaryScaled(sample, rate);
    BoundaryScaled(later, rate);
    ScaledMonotone(sample as real, later as real, 1000000000.0, rate);
    ScaledMonotone(BoundaryNs(sample, rate), BoundaryNs(later, rate), tb.denom as real, tb.numer as real);
    FloorMonotone(Scaled(BoundaryNs(sample, rate), tb.denom as real, tb.numer as real),
                  Scaled(BoundaryNs(later, rate), tb.denom as real, tb.numer as real));
  }

  /** Two calls that report the same boundary report the same host time, and no two boundaries
      share a host time once a period lasts a tick or more. */
  lemma HostIsFunctionOfSample(now: nat, later: nat, anchor: nat, tb: Timebase, rate: real)
    requires Running(tb, rate) && anchor <= now <= later
    requires Scaled(BoundaryNs(PERIOD, rate), tb.denom as real, tb.numer as real) >= 1.0
    ensures var p, q := ZeroTimeStamp(now, anchor, tb, rate), ZeroTimeStamp(later, anchor, tb, rate);
            p.0 == q.0 <==> p.1 == q.1
  {
    var a, b := SampleTime(now - anchor, tb, rate), SampleTime(later - anchor, tb, rate);
    StampsAreMonotone(now, later, anchor, tb, rate);
    if a < b {
      SampleIsLastBoundary(now - anchor, tb, rate);
      SampleIsLastBoundary(later - anchor, tb, rate);
      assert a + PERIOD <= b;
      HostMonotone(a + PERIOD, b, tb, rate);
      NextBoundary(a, tb, rate);
    }
  }

  lemma NextBoundary(sample: int, tb: Timebase, rate: real)
    requires Running(tb, rate)
    requires Scaled(BoundaryNs(PERIOD, rate), tb.denom as real, tb.numer as real) >= 1.0
    ensures HostTicks(sample, tb, rate) < HostTicks(sample + PERIOD, tb, rate)
  {
    BoundaryAdd(sample, PERIOD, rate);
    ScaledAdd(BoundaryNs(sample, rate), BoundaryNs(PERIOD, rate), tb.denom as real, tb.numer as real);
    FloorApart(Scaled(BoundaryNs(sample, rate), tb.denom as real, tb.numer as real),
               Scaled(BoundaryNs(sample + PERIOD, rate), tb.denom as real, tb.numer as real));
  }

  lemma BoundaryAdd(sample: int, more: int, rate: real)
    requires rate > 0.0
    ensures BoundaryNs(sample + more, rate) == BoundaryNs(sample, rate) + BoundaryNs(more, rate)
  {
    BoundaryScaled(sample, rate);
    BoundaryScaled(more, rate);
    BoundaryScaled(sample + more, rate);
    ScaledAdd(sample as real, more as real, 1000000000.0, rate);
  }

  /** The boundary lies no later than the truncated elapsed nanoseconds, and less than a period before. */
  lemma BoundaryBounds(ticks: nat, tb: Timebase, rate: real)
    requires Running(tb, rate)
    ensures var sample, ns := SampleTime(ticks, tb, rate), ElapsedNs(ticks, tb);
            BoundaryNs(sample, rate) <= ns as real < BoundaryNs(sample, rate) + BoundaryNs(PERIOD, rate)
  {
    var sample, ns := SampleTime(ticks, tb, rate), ElapsedNs(ticks, tb);
    SampleIsLastBoundary(ticks, tb, rate);
    BoundaryScaled(sample, rate);
    BoundaryScaled(sample + PERIOD, rate);
    BoundaryAdd(sample, PERIOD, rate);
    ScaledBack(ns as real, rate, 1000000000.0);
    ScaledMonotone(sample as real, ElapsedFrames(ns, rate), 1000000000.0, rate);
    ScaledStrict(ElapsedFrames(ns, rate), (sample + PERIOD) as real, 1000000000.0, rate);
  }

  /** Truncating to nanoseconds loses less than one. */
  lemma ElapsedBounds(ticks: nat, tb: Timebase)
    requires tb.numer > 0 && tb.denom > 0
    ensures ElapsedNs(ticks, tb) as real <= Scaled(ticks as real, tb.numer as real, tb.denom as real)
                                         < ElapsedNs(ticks, tb) as real + 1.0
  {
    RealProduct(ticks, tb.numer);
    var x := ticks * tb.numer;
    assert Scaled(ticks as real, tb.numer as real, tb.denom as real) == x as real / tb.denom as real;
    TruncatedQuotient(x, tb.denom);
  }

  lemma RealProduct(x: nat, y: nat)
    ensures (x * y) as real == x as real * y as real
  {
  }

  lemma TruncatedQuotient(x: nat, d: nat)
    requires d > 0
    ensures (x / d) as real <= x as real / d as real < (x / d) as real + 1.0
  {
    DivisionBounds(x, d);
    LowerQuotient(x / d, x, d);
    UpperQuotient(x / d + 1, x, d);
  }

  lemma LowerQuotient(q: nat, x: nat, d: nat)
    requires d > 0 && q * d <= x
    ensures q as real <= x as real / d as real
  {
    RealProduct(q, d);
    Quotient(q as real * d as real, x as real, d as real);
    Cancel(q as real, d as real);
  }

  lemma UpperQuotient(q: nat, x: nat, d: nat)
    requires d > 0 && x < q * d
    ensures x as real / d as real < q as real
  {
    RealProduct(q, d);
    QuotientStrict(x as real, q as real * d as real, d as real);
    Cancel(q as real, d as real);
  }

  lemma QuotientStrict(x: real, y: real, z: real)
    requires z > 0.0 && x < y
    ensures x / z < y / z
  {
    Quotient(x, y, z);
  }

  /** The reported host time is never in the future and never stale by more than one period, one
      nanosecond and one tick, whatever the timebase. */
  lemma HostIsRecent(now: nat, anchor: nat, tb: Timebase, rate: real)
    requires Running(tb, rate) && anchor <= now
    ensures var host := ZeroTimeStamp(now, anchor, tb, rate).1;
            && anchor <= host <= now
            && (now - host) as real < Scaled(BoundaryNs(PERIOD, rate) + 1.0, tb.denom as real, tb.numer as real) + 1.0
  {
    var ticks := now - anchor;
    var sample, ns := SampleTime(ticks, tb, rate), ElapsedNs(ticks, tb);
    BoundaryBounds(ticks, tb, rate);
    ElapsedBounds(ticks, tb);
    SampleIsLastBoundary(ticks, tb, rate);
    BoundaryNonNegative(sample, rate);
    TicksBetween(ticks, BoundaryNs(sample, rate), BoundaryNs(PERIOD, rate), tb.numer as real, tb.denom as real);
  }

  /** A boundary `at` less than period + 1 nanoseconds before the elapsed time, in ticks. */
  lemma TicksBetween(ticks: nat, at: real, period: real, n: real, d: real)
    requires n > 0.0 && d > 0.0
    requires 0.0 <= at <= Scaled(ticks as real, n, d) < at + (period + 1.0)
    ensures var host := Scaled(at, d, n).Floor;
            0 <= host <= ticks && (ticks - host) as real < Scaled(period + 1.0, d, n) + 1.0
  {
    var elapsed := Scaled(ticks as real, n, d);
    ScaledBack(ticks as real, n, d);
    ScaledMonotone(0.0, at, d, n);
    ScaledMonotone(at, elapsed, d, n);
    ScaledMonotone(elapsed, at + (period + 1.0), d, n);
    ScaledAdd(at, period + 1.0, d, n);
    FloorBounds(Scaled(at, d, n));
  }

  lemma BoundaryNonNegative(sample: nat, rate: real)
    requires rate > 0.0
    ensures BoundaryNs(sample, rate) >= 0.0
  {
    Quotient(0.0, sample as real, rate);
  }

  // ----- changing the rate while the clock runs -----

  /** A rate set between two calls: the first at rate r1, the second, no earlier, at rate r2. */
  ghost predicate NeverGoesBack(anchor: nat, tb: Timebase, r1: real, r2: real)
    requires Running(tb, r1) && Running(tb, r2)
  {
    forall now: nat, later: nat :: anchor <= now <= later
      ==> ZeroTimeStamp(now, anchor, tb, r1).0 <= ZeroTimeStamp(later, anchor, tb, r2).0
  }

  lemma RaisedRate(ticks: nat, later: nat, tb: Timebase, r1: real, r2: real)
    requires Running(tb, r1) && Running(tb, r2) && ticks <= later && r1 <= r2
    ensures SampleTime(ticks, tb, r1) <= SampleTime(later, tb, r2)
  {
    SampleMonotone(ticks, later, tb, r1);
    var ns := ElapsedNs(later, tb) as real;
    Commutes(ns, r1);
    Commutes(ns, r2);
    ProductMonotone(r1, r2, ns);
    Quotient(ns * r1, ns * r2, 1000000000.0);
    FloorMonotone(ElapsedFrames(ElapsedNs(later, tb), r1) / 2048.0, ElapsedFrames(ElapsedNs(later, tb), r2) / 2048.0);
  }

  lemma RaisedNeverGoesBack(anchor: nat, tb: Timebase, r1: real, r2: real)
    requires Running(tb, r1) && Running(tb, r2) && r1 <= r2
    ensures NeverGoesBack(anchor, tb, r1, r2)
  {
    forall now: nat, later: nat | anchor <= now <= later
      ensures ZeroTimeStamp(now, anchor, tb, r1).0 <= ZeroTimeStamp(later, anchor, tb, r2).0
    {
      RaisedRate(now - anchor, later - anchor, tb, r1, r2);
    }
  }

  lemma Commutes(x: real, y: real)
    ensures x * y == y * x
  {
  }

  /** After denom * 10^9 ticks exactly numer seconds have passed. */
  lemma WholeSeconds(tb: Timebase)
    requires tb.denom > 0
    ensures ElapsedNs(tb.denom * 1000000000, tb) == tb.numer * 1000000000
  {
    var ns := tb.numer * 1000000000;
    assert tb.denom * 1000000000 * tb.numer == ns * tb.denom;
    ExactQuotient(ns, tb.denom);
  }

  lemma ExactQuotient(x: nat, y: nat)
    requires y > 0
    ensures x * y / y == x
  {
    DivisionBounds(x * y, y);
    if x * y / y < x {
      TimesMonotone(x * y / y + 1, x, y);
    } else if x < x * y / y {
      TimesMonotone(x + 1, x * y / y, y);
    }
  }

  /** The frames of whole seconds, and boundaries that much apart. */
  lemma FramesOfSeconds(seconds: nat, rate: nat)
    ensures ElapsedFrames(seconds * 1000000000, rate as real) == (seconds * rate) as real
  {
    RealProduct(seconds, rate);
    var x := seconds as real * rate as real;
    assert (seconds * 1000000000) as real * rate as real == x * 1000000000.0;
    Cancel(x, 1000000000.0);
  }

  lemma PeriodsOfFrames(frames: nat)
    ensures ((frames as real) / 2048.0).Floor == frames / 2048
  {
    TruncatedQuotient(frames, 2048);
  }

  /** Supported rates differ by more than a period a second, so lowering one is visible at a second. */
  lemma LoweredRate(tb: Timebase, r1: u32, r2: u32)
    requires tb.numer > 0 && tb.denom > 0 && Supported(r1) && Supported(r2) && r2 < r1
    ensures var ticks := tb.denom * 1000000000;
            SampleTime(ticks, tb, r2 as real) < SampleTime(ticks, tb, r1 as real)
  {
    WholeSeconds(tb);
    SampleOfSeconds(tb, r1);
    SampleOfSeconds(tb, r2);
    assert r2 + 2048 <= r1;
    TimesMonotone(1, tb.numer, 2048);
    Spread(tb.numer, r1, r2);
  }

  lemma SampleOfSeconds(tb: Timebase, rate: u32)
    requires tb.numer > 0 && tb.denom > 0 && Supported(rate)
    ensures SampleTime(tb.denom * 1000000000, tb, rate as real) == tb.numer * rate / 2048 * 2048
  {
    WholeSeconds(tb);
    FramesOfSeconds(tb.numer, rate);
    PeriodsOfFrames(tb.numer * rate);
  }

  lemma Spread(n: nat, r1: nat, r2: nat)
    requires n > 0 && r2 + 2048 <= r1
    ensures n * r2 / 2048 < n * r1 / 2048
  {
    assert n * (r2 + 2048) == n * r2 + 2048 * n;
    TimesMonotone(r2 + 2048, r1, n);
  }

  /** Setting the rate between two calls never moves the sample time back, whenever the calls come,
      if and only if the rate is not lowered. */
  lemma RateChangeIff(anchor: nat, tb: Timebase, r1: u32, r2: u32)
    requires tb.numer > 0 && tb.denom > 0 && Supported(r1) && Supported(r2)
    ensures NeverGoesBack(anchor, tb, r1 as real, r2 as real) <==> r1 <= r2
  {
    if r1 <= r2 {
      RaisedNeverGoesBack(anchor, tb, r1 as real, r2 as real);
    } else {
      LoweredRate(tb, r1, r2);
      var now := anchor + tb.denom * 1000000000;
      assert ZeroTimeStamp(now, anchor, tb, r2 as real).0 < ZeroTimeStamp(now, anchor, tb, r1 as real).0;
    }
  }
}
