/** The interpolating read of the playback ring, as a function of one snapshot of the ring: the
    frames readable at that moment, a fractional position among them and a read ratio. */
module Resampler {
  import opened Numbers
  import opened DeviceFrames

  /** Both neighbours of the position are inside the snapshot. */
  predicate Audible(pos: real, avail: nat) {
    pos.Floor + 1 < avail
  }

  function Advance(pos: real, ratio: real, avail: nat): real {
    if Audible(pos, avail) then pos + ratio else pos
  }

  /** The read position after n output frames: it moves by the ratio, or is held on silence. */
  function PosAfter(pos: real, ratio: real, avail: nat, n: nat): real {
    if n == 0 then pos else Advance(PosAfter(pos, ratio, avail, n - 1), ratio, avail)
  }

  /** How many of the first n output frames carry sound. */
  function RealCount(pos: real, ratio: real, avail: nat, n: nat): (m: nat)
    ensures m <= n
  {
    if n == 0 then 0
    else RealCount(pos, ratio, avail, n - 1) + if Audible(PosAfter(pos, ratio, avail, n - 1), avail) then 1 else 0
  }

  type fraction = x: real | 0.0 <= x < 1.0 witness 0.0

  /** What one output frame is made of: nothing, or two neighbouring frames and a fraction. */
  datatype Cell = Silent | Mixture(a: Frame, b: Frame, mu: fraction)

  /** The device frame a cell turns into. */
  function Voice(cell: Cell): Frame {
    match cell
    case Silent => SILENCE
    case Mixture(a, b, mu) => MixFrame(a, b, mu)
  }

  function Voices(cells: seq<Cell>): (frames: seq<Frame>)
    ensures |frames| == |cells|
  {
    seq(|cells|, i requires 0 <= i < |cells| => Voice(cells[i]))
  }

  lemma VoicesAppend(cells: seq<Cell>, cell: Cell)
    ensures Voices(cells + [cell]) == Voices(cells) + [Voice(cell)]
  {
  }

  /** Linear interpolation of a stream at a fractional position. */
  function SampleAt(stream: seq<Frame>, pos: real): Cell
    requires 0.0 <= pos && pos.Floor + 1 < |stream|
  {
    Mixture(stream[pos.Floor], stream[pos.Floor + 1], pos - pos.Floor as real)
  }

  function OutputAt(window: seq<Frame>, pos: real): Cell
    requires 0.0 <= pos
  {
    if Audible(pos, |window|) then SampleAt(window, pos) else Silent
  }

  lemma {:induction false} PosStaysNonNegative(pos: real, ratio: real, avail: nat, n: nat)
    requires 0.0 <= pos && 0.0 <= ratio
    ensures pos <= PosAfter(pos, ratio, avail, n)
  {
    if n == 0 {
    } else {
      PosStaysNonNegative(pos, ratio, avail, n - 1);
    }
  }

  /** The n frames a transfer carries. */
  function Rendered(window: seq<Frame>, pos: real, ratio: real, n: nat): (out: seq<Cell>)
    requires 0.0 <= pos && 0.0 <= ratio
    ensures |out| == n
  {
    if n == 0 then []
    else
      PosStaysNonNegative(pos, ratio, |window|, n - 1);
      Rendered(window, pos, ratio, n - 1) + [OutputAt(window, PosAfter(pos, ratio, |window|, n - 1))]
  }

  /** k steps of one ratio. */
  function Times(k: nat, ratio: real): real {
    if k == 0 then 0.0 else Times(k - 1, ratio) + ratio
  }

  lemma {:induction false} TimesIsProduct(k: nat, ratio: real)
    ensures Times(k, ratio) == k as real * ratio
  {
    if k == 0 {
    } else {
      TimesIsProduct(k - 1, ratio);
      Distribute((k - 1) as real, 1.0, ratio);
    }
  }

  lemma {:induction false} TimesAdds(k: nat, a: real, b: real)
    ensures Times(k, a + b) == Times(k, a) + Times(k, b)
  {
    if k == 0 {
    } else {
      TimesAdds(k - 1, a, b);
    }
  }

  lemma {:induction false} TimesMonotone(j: nat, k: nat, a: real)
    requires j <= k && 0.0 <= a
    ensures Times(j, a) <= Times(k, a)
  {
    if j == k {
    } else {
      TimesMonotone(j, k - 1, a);
    }
  }

  lemma {:induction false} TimesGrows(k: nat, a: real, b: real)
    requires a <= b
    ensures Times(k, a) <= Times(k, b)
  {
    if k == 0 {
    } else {
      TimesGrows(k - 1, a, b);
    }
  }

  /** Silence is always a suffix of a transfer, the sounding frames are evenly spaced by the
      ratio, and the position ends exactly `real frames * ratio` further on. */
  lemma {:induction false} SilenceIsSuffix(pos: real, ratio: real, avail: nat, n: nat)
    ensures var m := RealCount(pos, ratio, avail, n);
            && PosAfter(pos, ratio, avail, n) == pos + Times(m, ratio)
            && (forall i: nat :: i < n ==> (Audible(PosAfter(pos, ratio, avail, i), avail) <==> i < m))
            && (forall i: nat :: i <= m ==> PosAfter(pos, ratio, avail, i) == pos + Times(i, ratio))
            && (m < n ==> !Audible(PosAfter(pos, ratio, avail, n), avail))
  {
    if n == 0 {
    } else {
      SilenceIsSuffix(pos, ratio, avail, n - 1);
      var m := RealCount(pos, ratio, avail, n - 1);
      if m < n - 1 {
        assert !Audible(PosAfter(pos, ratio, avail, n - 1), avail);
      }
    }
  }

  /** What it says of the position a transfer ends on. */
  lemma EndPosition(pos: real, ratio: real, avail: nat, n: nat)
    ensures var m := RealCount(pos, ratio, avail, n);
            && PosAfter(pos, ratio, avail, n) == pos + Times(m, ratio)
            && (m < n ==> !Audible(PosAfter(pos, ratio, avail, n), avail))
  {
    SilenceIsSuffix(pos, ratio, avail, n);
  }

  /** And of the i-th frame. */
  lemma FramePosition(pos: real, ratio: real, avail: nat, n: nat, i: nat)
    requires i < n
    ensures Audible(PosAfter(pos, ratio, avail, i), avail) <==> i < RealCount(pos, ratio, avail, n)
    ensures i < RealCount(pos, ratio, avail, n) ==> PosAfter(pos, ratio, avail, i) == pos + Times(i, ratio)
  {
    SilenceIsSuffix(pos, ratio, avail, n);
  }

  /** A transfer that starts with less than one frame of remainder and reads at less than twice
      the nominal speed never moves past its snapshot, so the `consumed > avail` clamp is dead. */
  lemma {:induction false} NeverPassesSnapshot(frac: real, ratio: real, avail: nat, n: nat)
    requires 0.0 <= frac < 1.0
    requires 0.0 <= ratio <= 2.0
    ensures 0.0 <= PosAfter(frac, ratio, avail, n)
    ensures PosAfter(frac, ratio, avail, n).Floor <= avail
  {
    if n == 0 {
    } else {
      NeverPassesSnapshot(frac, ratio, avail, n - 1);
    }
  }

  /** m is the stream heard at pos: its two neighbours there, linearly interpolated in each channel. */
  ghost predicate Heard(stream: seq<Frame>, pos: real, m: Frame)
    requires 0.0 <= pos && pos.Floor + 1 < |stream|
  {
    InterpolatesFrame(stream[pos.Floor], stream[pos.Floor + 1], pos - pos.Floor as real, m)
  }

  lemma SampleIsHeard(stream: seq<Frame>, pos: real)
    requires 0.0 <= pos && pos.Floor + 1 < |stream|
    ensures Heard(stream, pos, Voice(SampleAt(stream, pos)))
  {
    var a, b, mu := stream[pos.Floor], stream[pos.Floor + 1], pos - pos.Floor as real;
    MixInterpolates(a.left, b.left, mu);
    MixInterpolates(a.right, b.right, mu);
  }

  /** The window heard at pos, or six zero bytes past its end. */
  ghost predicate ResampledAt(out: Frame, window: seq<Frame>, pos: real)
    requires 0.0 <= pos
  {
    if pos.Floor + 1 < |window| then Heard(window, pos, out) else out == Frame(Dev3(0, 0, 0), Dev3(0, 0, 0))
  }

  /** Frame i of a resampled window lies i ratios on. */
  ghost predicate ResampledFrame(out: Frame, window: seq<Frame>, pos: real, ratio: real, i: nat) {
    var x := pos + i as real * ratio;
    0.0 <= x && ResampledAt(out, window, x)
  }

  ghost predicate Resampled(out: seq<Frame>, window: seq<Frame>, pos: real, ratio: real) {
    forall i :: 0 <= i < |out| ==> ResampledFrame(out[i], window, pos, ratio, i)
  }

  lemma {:induction false} RenderedAt(window: seq<Frame>, pos: real, ratio: real, n: nat, i: nat)
    requires 0.0 <= pos && 0.0 <= ratio && i < n
    ensures 0.0 <= PosAfter(pos, ratio, |window|, i)
    ensures Rendered(window, pos, ratio, n)[i] == OutputAt(window, PosAfter(pos, ratio, |window|, i))
  {
    PosStaysNonNegative(pos, ratio, |window|, i);
    if i == n - 1 {
    } else {
      RenderedAt(window, pos, ratio, n - 1, i);
    }
  }

  /** Held on silence or moved, the read position is past the window's end when i ratios would be. */
  lemma SameSide(pos: real, ratio: real, avail: nat, n: nat, i: nat)
    requires 0.0 <= pos && 0.0 <= ratio && i < n
    ensures Audible(PosAfter(pos, ratio, avail, i), avail) <==> Audible(pos + Times(i, ratio), avail)
    ensures Audible(pos + Times(i, ratio), avail) ==> PosAfter(pos, ratio, avail, i) == pos + Times(i, ratio)
  {
    FramePosition(pos, ratio, avail, n, i);
    var m := RealCount(pos, ratio, avail, n);
    if m <= i {
      FramePosition(pos, ratio, avail, n, m);
      EndPosition(pos, ratio, avail, m);
      TimesMonotone(m, i, ratio);
    }
  }

  lemma FrameIsResampled(window: seq<Frame>, pos: real, ratio: real, n: nat, i: nat)
    requires 0.0 <= pos && 0.0 <= ratio && i < n
    ensures ResampledFrame(Voice(Rendered(window, pos, ratio, n)[i]), window, pos, ratio, i)
  {
    TimesIsProduct(i, ratio);
    TimesMonotone(0, i, ratio);
    RenderedAt(window, pos, ratio, n, i);
    SameSide(pos, ratio, |window|, n, i);
    if Audible(pos + Times(i, ratio), |window|) {
      SampleIsHeard(window, pos + Times(i, ratio));
    }
  }

  /** The n frames of a transfer are the window interpolated in steps of the ratio, then silence. */
  lemma RenderedIsResampled(window: seq<Frame>, pos: real, ratio: real, n: nat)
    requires 0.0 <= pos && 0.0 <= ratio
    ensures Resampled(Voices(Rendered(window, pos, ratio, n)), window, pos, ratio)
  {
    forall i: nat | i < n
      ensures ResampledFrame(Voices(Rendered(window, pos, ratio, n))[i], window, pos, ratio, i)
    {
      FrameIsResampled(window, pos, ratio, n, i);
    }
  }

  /** Reading a frame mixes two neighbouring frames of the stream and stays between them. */
  lemma SampleBetween(stream: seq<Frame>, pos: real)
    requires 0.0 <= pos && pos.Floor + 1 < |stream|
    ensures var a, b, m := stream[pos.Floor], stream[pos.Floor + 1], Voice(SampleAt(stream, pos));
            && Between(a.left, m.left, b.left) && Between(a.right, m.right, b.right)
            && (a == b ==> m == a)
            && (pos.Floor as real == pos ==> m == a)
            && Heard(stream, pos, m)
  {
    SampleIsHeard(stream, pos);
    var a, b, mu := stream[pos.Floor], stream[pos.Floor + 1], pos - pos.Floor as real;
    MixBetween(a.left, b.left, mu);
    MixBetween(a.right, b.right, mu);
  }

  function Clamp(x: real, bound: real): (y: real)
    requires 0.0 <= bound
    ensures -bound <= y <= bound
  {
    if x > bound then bound else if x < -bound then -bound else x
  }

  // ----- the two control laws -----

  /** Low-latency daemon: memoryless proportional control around the setpoint, at most 1%. */
  function LowLatencyRatio(avail: nat, setpoint: nat): (ratio: real)
    requires setpoint >= 1
    ensures 0.99 <= ratio <= 1.01
  {
    1.0 + Clamp((avail as real - setpoint as real) / setpoint as real * 0.25, 0.01)
  }

  /** Setpoint in frames: an unusable buffer_ms falls back to the default, nothing bounds it from
      above, and the 64-bit product is cut to 32 bits. */
  function LowLatencySetpoint(bufferMs: u32, rate: u32): (setpoint: nat)
    ensures setpoint >= 1
  {
    var ms := if bufferMs < 100 then 512 else bufferMs;
    Max(Wrap(ms * rate / 1000), 1)
  }

  /** libusb daemon: the target is clamped, and the ratio moves a twentieth of the way to it. */
  function SlewedRatio(ratio: real, fill: nat, setpoint: real): (r: real)
    requires setpoint > 0.0
    ensures 0.99 <= ratio <= 1.01 ==> 0.99 <= r <= 1.01
  {
    var raw := 1.0 + (fill as real - setpoint) / setpoint * 0.15;
    var target := if raw > 1.01 then 1.01 else if raw < 0.99 then 0.99 else raw;
    ratio + (target - ratio) * 0.05
  }

  /** The libusb daemon clamps buffer_ms on both sides and keeps the setpoint under 45% of the ring. */
  function ClampedSetpoint(bufferMs: u32, rate: u32): (setpoint: real)
    requires rate > 0
    ensures 0.0 < setpoint <= 131072.0 * 0.45
  {
    var ms := Min(Max(bufferMs, 100), 2000);
    var frames := (ms * rate) as real / 1000.0;
    assert ms * rate >= 1;
    if frames > 131072.0 * 0.45 then 131072.0 * 0.45 else frames
  }

  // ----- what the laws say -----

  lemma DividedBounds(e: real, s: real, q: real)
    requires s > 0.0 && q == e / s
    ensures q * s == e
  {
  }

  /** The libusb daemon's law, without division: past a fifteenth of the setpoint on either side the
      ratio moves a twentieth of the way to 1.01 or to 0.99, in between a twentieth of the way to
      one plus 0.15 of the relative error. */
  ghost predicate SlewLaw(ratio: real, fill: nat, setpoint: real, r: real) {
    var err := fill as real - setpoint;
    && (15.0 * err >= setpoint ==> 20.0 * r == 19.0 * ratio + 1.01)
    && (15.0 * err <= -setpoint ==> 20.0 * r == 19.0 * ratio + 0.99)
    && (-setpoint < 15.0 * err < setpoint ==> setpoint * (20.0 * r - 19.0 * ratio - 1.0) == 0.15 * err)
  }

  lemma ScaleUp(x: real, y: real, s: real)
    requires s > 0.0
    ensures x <= y <==> x * s <= y * s
  {
    if x <= y {
      ProductMonotone(x, y, s);
    } else {
      StrictlyScaled(y, x, s);
    }
  }

  lemma StrictlyScaled(x: real, y: real, s: real)
    requires x < y && s > 0.0
    ensures x * s < y * s
  {
    Distribute(y, -x, s);
    Negate(x, s);
    assert (y - x) * s > 0.0;
  }

  /** What the ratio is drawn to. */
  lemma SlewTarget(q: real, err: real, setpoint: real, ratio: real, r: real)
    requires setpoint > 0.0 && q * setpoint == err
    requires var raw := 1.0 + q * 0.15;
             r == ratio + ((if raw > 1.01 then 1.01 else if raw < 0.99 then 0.99 else raw) - ratio) * 0.05
    ensures 15.0 * err >= setpoint ==> 20.0 * r == 19.0 * ratio + 1.01
    ensures 15.0 * err <= -setpoint ==> 20.0 * r == 19.0 * ratio + 0.99
    ensures -setpoint < 15.0 * err < setpoint ==> 20.0 * r - 19.0 * ratio - 1.0 == 0.15 * q
  {
    ScaleUp(1.0 / 15.0, q, setpoint);
    ScaleUp(q, -1.0 / 15.0, setpoint);
  }

  lemma ScaledQuotient(q: real, setpoint: real, err: real, y: real)
    requires q * setpoint == err && y == 0.15 * q
    ensures setpoint * y == 0.15 * err
  {
  }

  lemma SlewKeepsLaw(ratio: real, fill: nat, setpoint: real)
    requires setpoint > 0.0
    ensures SlewLaw(ratio, fill, setpoint, SlewedRatio(ratio, fill, setpoint))
  {
    var err := fill as real - setpoint;
    var q, r := err / setpoint, SlewedRatio(ratio, fill, setpoint);
    DividedBounds(err, setpoint, q);
    SlewTarget(q, err, setpoint, ratio, r);
    if -setpoint < 15.0 * err < setpoint {
      ScaledQuotient(q, setpoint, err, 20.0 * r - 19.0 * ratio - 1.0);
    }
  }

  lemma SameScaled(x: real, y: real, s: real)
    requires s > 0.0 && s * x == s * y
    ensures x == y
  {
    ScaleUp(x, y, s);
    ScaleUp(y, x, s);
  }

  /** The law leaves no choice. */
  lemma SlewLawIff(ratio: real, fill: nat, setpoint: real, r: real)
    requires setpoint > 0.0
    ensures SlewLaw(ratio, fill, setpoint, r) <==> r == SlewedRatio(ratio, fill, setpoint)
  {
    SlewKeepsLaw(ratio, fill, setpoint);
    var err := fill as real - setpoint;
    if SlewLaw(ratio, fill, setpoint, r) && -setpoint < 15.0 * err < setpoint {
      SameScaled(20.0 * r - 19.0 * ratio - 1.0,
                 20.0 * SlewedRatio(ratio, fill, setpoint) - 19.0 * ratio - 1.0, setpoint);
    }
  }

  lemma DividedMonotone(x: real, y: real, s: real)
    requires s > 0.0 && x <= y
    ensures x / s <= y / s
  {
    DividedBounds(x, s, x / s);
    DividedBounds(y, s, y / s);
    ScaleUp(x / s, y / s, s);
  }

  /** A fuller ring is never read slower. */
  lemma FullerIsFaster(ratio: real, fill: nat, more: nat, setpoint: real)
    requires setpoint > 0.0 && fill <= more
    ensures SlewedRatio(ratio, fill, setpoint) <= SlewedRatio(ratio, more, setpoint)
  {
    DividedMonotone(fill as real - setpoint, more as real - setpoint, setpoint);
  }

  /** The low-latency setpoint is the whole frames of buffer_ms milliseconds, of 512 below 100, as
      long as they fit the 32-bit word. */
  lemma SetpointIsWhole(bufferMs: u32, rate: u32)
    ensures bufferMs < 100 ==> LowLatencySetpoint(bufferMs, rate) == LowLatencySetpoint(512, rate)
    ensures 100 <= bufferMs && 1000 <= bufferMs * rate < 4294967296000
        ==> 1000 * LowLatencySetpoint(bufferMs, rate) <= bufferMs * rate
                                                       < 1000 * (LowLatencySetpoint(bufferMs, rate) + 1)
  {
    if bufferMs * rate < 4294967296000 {
      WholeThousandths(bufferMs * rate);
    }
  }

  lemma WholeThousandths(x: nat)
    requires x < 4294967296000
    ensures Wrap(x / 1000) == x / 1000 && 1000 * (x / 1000) <= x < 1000 * (x / 1000 + 1)
  {
  }

  /** The libusb daemon's setpoint is buffer_ms milliseconds, held between 100 and 2000 and under 45%
      of the ring. */
  lemma ClampedSetpointIs(bufferMs: u32, rate: u32)
    requires rate > 0
    ensures bufferMs < 100 ==> ClampedSetpoint(bufferMs, rate) == ClampedSetpoint(100, rate)
    ensures bufferMs > 2000 ==> ClampedSetpoint(bufferMs, rate) == ClampedSetpoint(2000, rate)
    ensures 100 <= bufferMs <= 2000
        ==> 1000.0 * ClampedSetpoint(bufferMs, rate)
            == if bufferMs * rate <= 58982400 then (bufferMs * rate) as real else 58982400.0
  {
    var frames := (bufferMs * rate) as real;
    assert 1000.0 * (frames / 1000.0) == frames;
  }
}
