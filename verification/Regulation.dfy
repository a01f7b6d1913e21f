/** The closed loop: the low-latency daemon reads the ring at a ratio set by the fill, while a
    producer on another clock keeps it supplied. */
module Regulation {
  import opened Numbers
  import opened Pacing
  import opened ShmRing
  import opened Resampler

  /** What one transfer sees: the fill at its snapshot and the fractional remainder. */
  datatype Level = Level(avail: nat, frac: real)

  /** One transfer of n frames; `supply` frames are produced between its snapshot and the next one,
      by a clock that runs at 1 + drift times the device's. */
  datatype Turn = Turn(n: nat, supply: nat, drift: real)

  /** Distance read by a transfer, including the remainder it started with. */
  function Reach(l: Level, setpoint: nat, n: nat): (pos: real)
    requires 0.0 <= l.frac < 1.0 && setpoint >= 1
    ensures 0.0 <= pos && pos.Floor <= l.avail
  {
    var ratio := LowLatencyRatio(l.avail, setpoint);
    NeverPassesSnapshot(l.frac, ratio, l.avail, n);
    PosAfter(l.frac, ratio, l.avail, n)
  }

  function Step(l: Level, setpoint: nat, t: Turn): (l': Level)
    requires 0.0 <= l.frac < 1.0 && setpoint >= 1
    ensures 0.0 <= l'.frac < 1.0
  {
    var pos := Reach(l, setpoint, t.n);
    Level(l.avail - pos.Floor + t.supply, pos - pos.Floor as real)
  }

  function After(l: Level, setpoint: nat, turns: seq<Turn>, k: nat): (l': Level)
    requires 0.0 <= l.frac < 1.0 && setpoint >= 1 && k <= |turns|
    ensures 0.0 <= l'.frac < 1.0
  {
    if k == 0 then l else Step(After(l, setpoint, turns, k - 1), setpoint, turns[k - 1])
  }

  /** Frames requested over k turns, at the producer's speed. */
  function Nominal(turns: seq<Turn>, k: nat): real
    requires k <= |turns|
  {
    if k == 0 then 0.0
    else Nominal(turns, k - 1) + Times(turns[k - 1].n, 1.0 + turns[k - 1].drift)
  }

  function Supplied(turns: seq<Turn>, k: nat): nat
    requires k <= |turns|
  {
    if k == 0 then 0 else Supplied(turns, k - 1) + turns[k - 1].supply
  }

  /** How far the supply is ahead of its clock. */
  function Lead(turns: seq<Turn>, k: nat): real
    requires k <= |turns|
  {
    Supplied(turns, k) as real - Nominal(turns, k)
  }

  /** The producer's clock is within 1% and its bursts within `burst` frames of that clock. */
  ghost predicate Tracks(turns: seq<Turn>, burst: real, most: nat) {
    && (forall k :: 0 <= k < |turns| ==> -0.01 <= turns[k].drift <= 0.01 && turns[k].n <= most)
    && (forall k: nat :: k <= |turns| ==> -burst <= Lead(turns, k) <= burst)
  }

  // ----- one transfer -----

  /** n frames at a correction no weaker than a quarter of r undo at most s times the distance d
      that r is short of the band's edge. */
  lemma PullBound(n: real, s: real, pull: real, d: real)
    requires 0.0 <= n <= 4.0 * s && 0.0 <= d && pull <= 0.25 * d
    ensures pull * n <= s * d
  {
    ProductMonotone(pull, 0.25 * d, n);
    ProductMonotone(0.25 * n, s, d);
    Swap(d, n);
  }

  lemma Swap(d: real, n: real)
    ensures (0.25 * d) * n == (0.25 * n) * d
  {
  }

  lemma NoPull(n: real, pull: real)
    requires 0.0 <= n && pull <= 0.0
    ensures pull * n <= 0.0
  {
    ProductMonotone(pull, 0.0, n);
  }

  lemma EdgeDistance(r: real, s: real)
    ensures s * (0.04 - r) == 0.04 * s - r * s
    ensures s * (0.04 + r) == 0.04 * s + r * s
  {
  }

  /** The relative error the control law works on. */
  function Error(avail: nat, s: nat): (r: real)
    requires 1 <= s
    ensures r * s as real == avail as real - s as real
  {
    (avail as real - s as real) / s as real
  }

  /** The correction the control law applies. */
  function Correction(avail: nat, s: nat): (adj: real)
    requires 1 <= s
    ensures -0.01 <= adj <= 0.01
  {
    Clamp(Error(avail, s) * 0.25, 0.01)
  }

  lemma RatioOfError(avail: nat, s: nat)
    requires 1 <= s
    ensures LowLatencyRatio(avail, s) == 1.0 + Correction(avail, s)
  {
  }

  /** Over the band a full transfer's drift and correction never fill the ring further, and below
      it they fill at most up to the edge. */
  lemma NetAbove(n: nat, avail: nat, s: nat, drift: real)
    requires 1 <= s && n <= 4 * s && drift <= 0.01
    ensures var net := Times(n, drift - Correction(avail, s));
            net <= 0.0 || net <= 0.04 * s as real - (avail as real - s as real)
  {
    var r := Error(avail, s);
    var pull := drift - Correction(avail, s);
    TimesIsProduct(n, pull);
    if r >= 0.04 {
      NoPull(n as real, pull);
    } else {
      PullBound(n as real, s as real, pull, 0.04 - r);
      EdgeDistance(r, s as real);
    }
  }

  /** Under the band they never drain it further, and above it they drain at most to the edge. */
  lemma NetBelow(n: nat, avail: nat, s: nat, drift: real)
    requires 1 <= s && n <= 4 * s && -0.01 <= drift
    ensures var net := Times(n, drift - Correction(avail, s));
            net >= 0.0 || -net <= 0.04 * s as real + (avail as real - s as real)
  {
    var r := Error(avail, s);
    var pull := Correction(avail, s) - drift;
    TimesIsProduct(n, -pull);
    Negate(pull, n as real);
    if r <= -0.04 {
      NoPull(n as real, pull);
    } else {
      PullBound(n as real, s as real, pull, 0.04 + r);
      EdgeDistance(r, s as real);
    }
  }

  /** Sound frames ahead of the read position. */
  function Depth(l: Level): real { l.avail as real - l.frac }

  /** A transfer reads at most n ratios, all n of them unless it ran dry, and when it ran dry at
      most one whole frame is left. */
  lemma ReachBounds(frac: real, ratio: real, avail: nat, n: nat)
    requires 0.0 <= frac < 1.0 && 0.0 <= ratio
    ensures var m, pos := RealCount(frac, ratio, avail, n), PosAfter(frac, ratio, avail, n);
            && pos - frac <= Times(n, ratio)
            && (m == n ==> pos - frac == Times(n, ratio))
            && (m < n ==> avail as real - 1.0 <= pos)
  {
    EndPosition(frac, ratio, avail, n);
    TimesMonotone(RealCount(frac, ratio, avail, n), n, ratio);
  }

  /** Fill, relative to the setpoint and to the lead the producer has. */
  function Offset(l: Level, s: nat, lead: real): real { Depth(l) - s as real - lead }

  lemma NominalBelow(n: nat, most: nat, drift: real)
    requires n <= most && -0.01 <= drift <= 0.01
    ensures Times(n, 1.0 + drift) <= 1.01 * most as real
  {
    TimesMonotone(n, most, 1.0 + drift);
    TimesIsProduct(most, 1.0 + drift);
    ProductMonotone(1.0 + drift, 1.01, most as real);
  }

  /** The arithmetic of one turn: nominal frames due, net of the correction, and the distance read. */
  lemma BandArithmetic(avail: real, frac: real, s: real, lead: real, burst: real, pos: real,
                       nominal: real, net: real, full: bool)
    requires 0.0 <= frac < 1.0 && -burst <= lead <= burst && 0.0 <= s && nominal + 1.0 <= s
    requires net <= 0.0 || net <= 0.04 * s - (avail - s)
    requires net >= 0.0 || -net <= 0.04 * s + (avail - s)
    requires pos - frac <= nominal - net
    requires full ==> pos - frac == nominal - net
    requires !full ==> avail - 1.0 <= pos
    ensures var u, u', edge := avail - frac - s - lead, avail - pos - s - lead + nominal, 0.04 * s + burst;
            && (u' <= u || u' <= edge)
            && (u' >= u || u' >= -edge - 1.0)
  {
  }

  /** One turn of the loop never carries the offset out of the band it is in. */
  lemma TurnStaysInBand(l: Level, s: nat, t: Turn, lead: real, burst: real, most: nat)
    requires 0.0 <= l.frac < 1.0 && -burst <= lead <= burst
    requires t.n <= most && -0.01 <= t.drift <= 0.01
    requires 1.01 * most as real + 1.0 <= s as real
    ensures var u := Offset(l, s, lead);
            var u' := Offset(Step(l, s, t), s, lead + t.supply as real - Times(t.n, 1.0 + t.drift));
            var edge := 0.04 * s as real + burst;
            && (u' <= u || u' <= edge)
            && (u' >= u || u' >= -edge - 1.0)
  {
    var adj := Correction(l.avail, s);
    RatioOfError(l.avail, s);
    var ratio := 1.0 + adj;
    var pos, nominal, net := Reach(l, s, t.n), Times(t.n, 1.0 + t.drift), Times(t.n, t.drift - adj);
    assert pos == PosAfter(l.frac, ratio, l.avail, t.n);
    ReachBounds(l.frac, ratio, l.avail, t.n);
    TimesAdds(t.n, ratio, t.drift - adj);
    assert ratio + (t.drift - adj) == 1.0 + t.drift;
    NominalBelow(t.n, most, t.drift);
    NetBelow(t.n, l.avail, s, t.drift);
    NetAbove(t.n, l.avail, s, t.drift);
    BandArithmetic(l.avail as real, l.frac, s as real, lead, burst, pos, nominal, net,
                   RealCount(l.frac, ratio, l.avail, t.n) == t.n);
    StepOffset(l, s, t, lead);
  }

  lemma StepOffset(l: Level, s: nat, t: Turn, lead: real)
    requires 0.0 <= l.frac < 1.0 && s >= 1
    ensures Offset(Step(l, s, t), s, lead + t.supply as real - Times(t.n, 1.0 + t.drift))
         == l.avail as real - Reach(l, s, t.n) - s as real - lead + Times(t.n, 1.0 + t.drift)
  {
  }

  /** The edge of the regulated band around the setpoint. */
  function Edge(s: nat, burst: real): real { 0.04 * s as real + burst }

  /** The loop keeps the offset between any two marks that enclose the band, turn after turn. */
  lemma {:induction false} OffsetStaysBetween(l: Level, s: nat, turns: seq<Turn>, burst: real, most: nat,
                                              low: real, high: real, k: nat)
    requires 0.0 <= l.frac < 1.0 && k <= |turns|
    requires Tracks(turns, burst, most) && 1.01 * most as real + 1.0 <= s as real
    requires low <= -Edge(s, burst) - 1.0 && Edge(s, burst) <= high
    requires low <= Depth(l) - s as real <= high
    ensures low <= Offset(After(l, s, turns, k), s, Lead(turns, k)) <= high
  {
    if k == 0 {
    } else {
      OffsetStaysBetween(l, s, turns, burst, most, low, high, k - 1);
      var t := turns[k - 1];
      TurnStaysInBand(After(l, s, turns, k - 1), s, t, Lead(turns, k - 1), burst, most);
      NextOffset(l, s, turns, k);
    }
  }

  /** Closed-loop regulation, for any clock drift up to 1% and whatever silence occurs: from any
      start the fill never gets further from the setpoint than where it started or the band edge,
      plus the producer's burst and a frame. */
  lemma FillNeverRunsAway(l: Level, s: nat, turns: seq<Turn>, burst: real, most: nat, away: real, k: nat)
    requires 0.0 <= l.frac < 1.0 && k <= |turns|
    requires Tracks(turns, burst, most) && 1.01 * most as real + 1.0 <= s as real
    requires Edge(s, burst) + 1.0 <= away && -away <= Depth(l) - s as real <= away
    ensures -away - burst <= After(l, s, turns, k).avail as real - s as real <= away + burst + 1.0
  {
    OffsetStaysBetween(l, s, turns, burst, most, -away, away, k);
  }

  ghost predicate StartsInBand(l: Level, s: nat, burst: real) {
    -Edge(s, burst) - 1.0 <= Depth(l) - s as real <= Edge(s, burst)
  }

  /** Started inside the band, the fill at every snapshot of every run stays within 4% of the
      setpoint plus twice the burst plus one frame. */
  lemma FillIsRegulated(l: Level, s: nat, turns: seq<Turn>, burst: real, most: nat, k: nat)
    requires 0.0 <= l.frac < 1.0 && k <= |turns|
    requires Tracks(turns, burst, most) && 1.01 * most as real + 1.0 <= s as real
    requires StartsInBand(l, s, burst)
    ensures var bound := 0.04 * s as real + 2.0 * burst + 1.0;
            -bound <= After(l, s, turns, k).avail as real - s as real <= bound
  {
    OffsetStaysBetween(l, s, turns, burst, most, -Edge(s, burst) - 1.0, Edge(s, burst), k);
  }

  lemma {:induction false} EnoughIsAudible(frac: real, ratio: real, avail: nat, n: nat, most: nat)
    requires 0.0 <= frac < 1.0 && 0.0 <= ratio <= 1.01 && n <= most
    requires 1.01 * most as real + 2.0 <= avail as real
    ensures RealCount(frac, ratio, avail, n) == n
    ensures PosAfter(frac, ratio, avail, n) <= frac + 1.01 * n as real
  {
    if n == 0 {
    } else {
      EnoughIsAudible(frac, ratio, avail, n - 1, most);
    }
  }

  /** The band and one transfer on either side of it fit between an empty and a full ring. */
  ghost predicate RoomForTurn(s: nat, burst: real, most: nat) {
    && 1.01 * most as real + 2.0 <= s as real - (0.04 * s as real + 2.0 * burst + 1.0)
    && s as real + (0.04 * s as real + 2.0 * burst + 1.0) + 1.01 * most as real + 1.0 <= RING_FRAMES as real
  }

  ghost predicate Near(avail: nat, s: nat, burst: real) {
    -(0.04 * s as real + 2.0 * burst + 1.0) <= avail as real - s as real <= 0.04 * s as real + 2.0 * burst + 1.0
  }

  /** A turn from inside the band into it is all sound, and its supply fits even if it all arrives
      before the transfer publishes its tail. */
  lemma QuietTurn(now: Level, s: nat, t: Turn, burst: real, most: nat)
    requires 0.0 <= now.frac < 1.0 && s >= 1 && t.n <= most && RoomForTurn(s, burst, most)
    requires Near(now.avail, s, burst) && Near(Step(now, s, t).avail, s, burst)
    ensures RealCount(now.frac, LowLatencyRatio(now.avail, s), now.avail, t.n) == t.n
    ensures now.avail + t.supply <= RING_FRAMES
  {
    EnoughIsAudible(now.frac, LowLatencyRatio(now.avail, s), now.avail, t.n, most);
    assert Reach(now, s, t.n) < 1.0 + 1.01 * most as real;
  }

  /** When the band leaves one transfer's worth of frames below it and of free slots above it, no
      run ever emits a frame of silence, and the producer never finds the ring full, not even if
      all its frames arrive before the transfer in progress publishes its tail. */
  lemma NoSilenceNoRefusal(l: Level, s: nat, turns: seq<Turn>, burst: real, most: nat, k: nat)
    requires 0.0 <= l.frac < 1.0 && k < |turns|
    requires Tracks(turns, burst, most) && 1.01 * most as real + 1.0 <= s as real
    requires StartsInBand(l, s, burst) && RoomForTurn(s, burst, most)
    ensures var now, t := After(l, s, turns, k), turns[k];
            && RealCount(now.frac, LowLatencyRatio(now.avail, s), now.avail, t.n) == t.n
            && now.avail + t.supply <= RING_FRAMES
  {
    FillIsRegulated(l, s, turns, burst, most, k);
    FillIsRegulated(l, s, turns, burst, most, k + 1);
    QuietTurn(After(l, s, turns, k), s, turns[k], burst, most);
  }

  // ----- settling from any start -----

  lemma RatioAbove(r: real, m: real, x: real)
    requires r * m == x && 0.04 * m <= x && m > 0.0
    ensures r >= 0.04
  {
    Unscale(0.04, r, m);
  }

  lemma RatioBelow(r: real, m: real, x: real)
    requires r * m == x && x <= -0.04 * m && m > 0.0
    ensures r <= -0.04
  {
    Unscale(r, -0.04, m);
  }

  lemma ErrorAbove(avail: nat, s: nat)
    requires 1 <= s && 0.04 * s as real <= avail as real - s as real
    ensures Error(avail, s) >= 0.04
  {
    RatioAbove(Error(avail, s), s as real, avail as real - s as real);
  }

  lemma ErrorBelow(avail: nat, s: nat)
    requires 1 <= s && avail as real - s as real <= -0.04 * s as real
    ensures Error(avail, s) <= -0.04
  {
    RatioBelow(Error(avail, s), s as real, avail as real - s as real);
  }

  /** Past the band's edge the error is at least 4% and the correction is the full one. */
  lemma FullCorrection(avail: nat, s: nat)
    requires 1 <= s
    ensures 0.04 * s as real <= avail as real - s as real ==> Correction(avail, s) == 0.01
    ensures avail as real - s as real <= -0.04 * s as real ==> Correction(avail, s) == -0.01
  {
    if 0.04 * s as real <= avail as real - s as real {
      ErrorAbove(avail, s);
    }
    if avail as real - s as real <= -0.04 * s as real {
      ErrorBelow(avail, s);
    }
  }

  lemma Unscale(x: real, y: real, m: real)
    requires x * m <= y * m && m > 0.0
    ensures x <= y
  {
    if y < x {
      StrictScale(y, x, m);
    }
  }

  lemma StrictScale(x: real, y: real, m: real)
    requires x < y && m > 0.0
    ensures x * m < y * m
  {
    Distribute(y, -x, m);
    Negate(x, m);
    PositiveProduct(y - x, m);
  }

  lemma PositiveProduct(x: real, y: real)
    requires x > 0.0 && y > 0.0
    ensures x * y > 0.0
  {
  }

  /** Outside the band a turn of n frames closes in by at least n times what the full correction has
      left over the drift, unless it lands in the band. */
  lemma TurnApproaches(l: Level, s: nat, t: Turn, lead: real, burst: real, most: nat, d: real)
    requires 0.0 <= l.frac < 1.0 && -burst <= lead <= burst
    requires t.n <= most && -d <= t.drift <= d < 0.01
    requires 1.01 * most as real + 1.0 <= s as real
    ensures var u := Offset(l, s, lead);
            var u' := Offset(Step(l, s, t), s, lead + t.supply as real - Times(t.n, 1.0 + t.drift));
            && (u > Edge(s, burst) ==> u' <= u - Times(t.n, 0.01 - d) || u' <= Edge(s, burst))
            && (u < -Edge(s, burst) - 1.0 ==> u' >= u + Times(t.n, 0.01 - d))
  {
    var adj := Correction(l.avail, s);
    var nominal, net := Times(t.n, 1.0 + t.drift), Times(t.n, t.drift - adj);
    RatioOfError(l.avail, s);
    FullCorrection(l.avail, s);
    ReachBounds(l.frac, 1.0 + adj, l.avail, t.n);
    NominalBelow(t.n, most, t.drift);
    StepOffset(l, s, t, lead);
    NetOf(t.n, t.drift, adj);
    var pos := Reach(l, s, t.n);
    assert pos == PosAfter(l.frac, 1.0 + adj, l.avail, t.n);
    if Offset(l, s, lead) > Edge(s, burst) {
      PullFromAbove(t.n, t.drift, d);
      ClosesFromAbove(l.avail as real, l.frac, s as real, lead, burst, pos, nominal, net, Times(t.n, 0.01 - d),
                      RealCount(l.frac, 1.0 + adj, l.avail, t.n) == t.n);
    } else if Offset(l, s, lead) < -Edge(s, burst) - 1.0 {
      TimesGrows(t.n, 0.01 - d, t.drift + 0.01);
    }
  }

  /** The nominal frames less the distance of a full read are the drift less the correction. */
  lemma NetOf(n: nat, drift: real, adj: real)
    ensures Times(n, 1.0 + drift) - Times(n, 1.0 + adj) == Times(n, drift - adj)
  {
    TimesAdds(n, 1.0 + adj, drift - adj);
    assert (1.0 + adj) + (drift - adj) == 1.0 + drift;
  }

  lemma PullFromAbove(n: nat, drift: real, d: real)
    requires drift <= d
    ensures Times(n, drift - 0.01) <= -Times(n, 0.01 - d)
  {
    TimesGrows(n, drift - 0.01, -(0.01 - d));
    TimesNegates(n, 0.01 - d);
  }

  lemma ClosesFromAbove(avail: real, frac: real, s: real, lead: real, burst: real, pos: real,
                        nominal: real, net: real, gain: real, full: bool)
    requires -burst <= lead <= burst && 0.0 <= s && nominal + 1.0 <= s && net <= -gain
    requires full ==> pos - frac == nominal - net
    requires !full ==> avail - 1.0 <= pos
    ensures var u, u' := avail - frac - s - lead, avail - pos - s - lead + nominal;
            u' <= u - gain || u' <= 0.04 * s + burst
  {
  }

  lemma TimesNegates(k: nat, a: real)
    ensures Times(k, -a) == -Times(k, a)
  {
    TimesIsProduct(k, a);
    TimesIsProduct(k, -a);
    Negate(a, k as real);
  }

  /** Every turn asks for `least` frames or more and drifts by at most d. */
  ghost predicate Steady(turns: seq<Turn>, least: nat, d: real) {
    forall k :: 0 <= k < |turns| ==> least <= turns[k].n && -d <= turns[k].drift <= d
  }

  /** k turns of closing in. */
  function Gain(least: nat, d: real, k: nat): real {
    Times(k, Times(least, 0.01 - d))
  }

  /** The offset is in the band, or nearer to it than `away` by the gain so far. */
  ghost predicate Settling(u: real, edge: real, away: real, gain: real) {
    && (u <= edge || u <= away - gain)
    && (u >= -edge - 1.0 || u >= -away + gain)
  }

  lemma SettleTurn(l: Level, s: nat, t: Turn, lead: real, burst: real, most: nat, least: nat, d: real,
                   away: real, gain: real)
    requires 0.0 <= l.frac < 1.0 && -burst <= lead <= burst
    requires least <= t.n <= most && -d <= t.drift <= d < 0.01
    requires 1.01 * most as real + 1.0 <= s as real
    requires Settling(Offset(l, s, lead), Edge(s, burst), away, gain)
    ensures Settling(Offset(Step(l, s, t), s, lead + t.supply as real - Times(t.n, 1.0 + t.drift)), Edge(s, burst),
                     away, gain + Times(least, 0.01 - d))
  {
    TurnStaysInBand(l, s, t, lead, burst, most);
    TurnApproaches(l, s, t, lead, burst, most, d);
    TimesMonotone(least, t.n, 0.01 - d);
    Settle(Offset(l, s, lead), Offset(Step(l, s, t), s, lead + t.supply as real - Times(t.n, 1.0 + t.drift)),
           Edge(s, burst), away, gain, Times(t.n, 0.01 - d), Times(least, 0.01 - d));
  }

  lemma {:induction false} OffsetSettles(l: Level, s: nat, turns: seq<Turn>, burst: real, most: nat,
                                         least: nat, d: real, away: real, k: nat)
    requires 0.0 <= l.frac < 1.0 && k <= |turns| && d < 0.01
    requires Tracks(turns, burst, most) && Steady(turns, least, d) && 1.01 * most as real + 1.0 <= s as real
    requires -away <= Depth(l) - s as real <= away
    ensures s >= 1
    ensures Settling(Offset(After(l, s, turns, k), s, Lead(turns, k)), Edge(s, burst), away, Gain(least, d, k))
  {
    if k == 0 {
    } else {
      OffsetSettles(l, s, turns, burst, most, least, d, away, k - 1);
      SettleTurn(After(l, s, turns, k - 1), s, turns[k - 1], Lead(turns, k - 1), burst, most, least, d, away,
                 Gain(least, d, k - 1));
      NextOffset(l, s, turns, k);
    }
  }

  lemma NextOffset(l: Level, s: nat, turns: seq<Turn>, k: nat)
    requires 0.0 <= l.frac < 1.0 && s >= 1 && 0 < k <= |turns|
    ensures Offset(After(l, s, turns, k), s, Lead(turns, k))
         == Offset(Step(After(l, s, turns, k - 1), s, turns[k - 1]), s,
                   Lead(turns, k - 1) + turns[k - 1].supply as real - Times(turns[k - 1].n, 1.0 + turns[k - 1].drift))
  {
  }

  lemma Settle(u: real, u': real, edge: real, away: real, gain: real, moved: real, step: real)
    requires Settling(u, edge, away, gain) && step <= moved
    requires u' <= u || u' <= edge
    requires u' >= u || u' >= -edge - 1.0
    requires u > edge ==> u' <= u - moved || u' <= edge
    requires u < -edge - 1.0 ==> u' >= u + moved
    ensures Settling(u', edge, away, gain + step)
  {
  }

  /** So from any start, an empty ring included, the fill is regulated after as many turns as the
      gain needs to make up the distance, and from then on for ever. */
  lemma FillSettles(l: Level, s: nat, turns: seq<Turn>, burst: real, most: nat, least: nat, d: real,
                    away: real, enough: nat, k: nat)
    requires 0.0 <= l.frac < 1.0 && enough <= k <= |turns| && d < 0.01
    requires Tracks(turns, burst, most) && Steady(turns, least, d) && 1.01 * most as real + 1.0 <= s as real
    requires -away <= Depth(l) - s as real <= away
    requires enough as real * (least as real * (0.01 - d)) >= away
    ensures Near(After(l, s, turns, k).avail, s, burst)
  {
    OffsetSettles(l, s, turns, burst, most, least, d, away, k);
    GainIsProduct(least, d, enough, k);
    assert Tracks(turns, burst, most) ==> -burst <= Lead(turns, k) <= burst;
  }

  lemma GainIsProduct(least: nat, d: real, enough: nat, k: nat)
    requires enough <= k && d < 0.01
    ensures Gain(least, d, k) >= enough as real * (least as real * (0.01 - d))
  {
    TimesIsProduct(least, 0.01 - d);
    ProductNonNegative(least as real, 0.01 - d);
    TimesIsProduct(enough, Times(least, 0.01 - d));
    TimesMonotone(enough, k, Times(least, 0.01 - d));
  }

  /** And from then on no frame is silent or refused. */
  lemma SettledIsQuiet(l: Level, s: nat, turns: seq<Turn>, burst: real, most: nat, least: nat, d: real,
                       away: real, enough: nat, k: nat)
    requires 0.0 <= l.frac < 1.0 && enough <= k < |turns| && d < 0.01
    requires Tracks(turns, burst, most) && Steady(turns, least, d) && 1.01 * most as real + 1.0 <= s as real
    requires -away <= Depth(l) - s as real <= away && RoomForTurn(s, burst, most)
    requires enough as real * (least as real * (0.01 - d)) >= away
    ensures var now, t := After(l, s, turns, k), turns[k];
            && RealCount(now.frac, LowLatencyRatio(now.avail, s), now.avail, t.n) == t.n
            && now.avail + t.supply <= RING_FRAMES
  {
    FillSettles(l, s, turns, burst, most, least, d, away, enough, k);
    FillSettles(l, s, turns, burst, most, least, d, away, enough, k + 1);
    QuietTurn(After(l, s, turns, k), s, turns[k], burst, most);
  }

  /** The sizes the low-latency daemon runs at: at every supported rate and every buffer setting
      whose setpoint fits the ring, one transfer is small against the setpoint. */
  lemma TransferIsSmall(rate: u32, bufferMs: u32, accum: u32)
    requires Supported(rate) && accum < 8000
    requires bufferMs * rate / 1000 <= RING_FRAMES
    ensures 44 <= TotalFrames(accum, rate, 8) <= 96
    ensures 1.01 * 96.0 + 1.0 <= LowLatencySetpoint(bufferMs, rate) as real
  {
    TransferFrames(rate, accum);
    SetpointFrames(rate, bufferMs);
  }

  lemma TransferFrames(rate: u32, accum: u32)
    requires Supported(rate) && accum < 8000
    ensures 44 <= TotalFrames(accum, rate, 8) <= 96
  {
    PacingIsExact(accum, rate, 8);
  }

  lemma SetpointFrames(rate: u32, bufferMs: u32)
    requires Supported(rate)
    requires bufferMs * rate / 1000 <= RING_FRAMES
    ensures 4410 <= LowLatencySetpoint(bufferMs, rate)
  {
    var ms := if bufferMs < 100 then 512 else bufferMs;
    var frames := ms * rate / 1000;
    assert frames < 0x1_0000_0000;
    assert 4410000 <= 100 * rate <= ms * rate;
    assert 4410 <= frames;
  }
}
