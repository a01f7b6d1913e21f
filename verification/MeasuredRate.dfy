/** The in-process engine's pacing: playback follows the device rate measured from capture, in
    thousandths of a hertz, and the rate may change between any two transfers. And what its
    transfers carry from the ring, taken here as the queue of its readable frames. */
module MeasuredRate {
  import opened Numbers
  import opened Sequences
  import opened DeviceFrames
  import opened Pacing

  const SLOWEST := 30000000
  const FASTEST := 200000000

  // ----- the measurement filter -----

  ghost predicate Sane(rateX: u32) { rateX == 0 || SLOWEST <= rateX <= FASTEST }

  /** meas * 1000 + 0.5, truncated. */
  function InThousandths(meas: real): (x: u32)
    requires 30000.0 < meas < 200000.0
    ensures SLOWEST <= x <= FASTEST
  {
    (meas * 1000.0 + 0.5).Floor
  }

  function Mixed(prev: u32, x: u32): (m: u32)
    requires SLOWEST <= prev <= FASTEST && SLOWEST <= x <= FASTEST
    ensures Min(prev, x) <= m <= Max(prev, x)
  {
    MixedBounds(prev, x);
    (0.7 * prev as real + 0.3 * x as real).Floor
  }

  lemma MixedBounds(prev: int, x: int)
    ensures Min(prev, x) <= (0.7 * prev as real + 0.3 * x as real).Floor <= Max(prev, x)
  {
  }

  /** A measurement outside the guard is ignored, the first one is taken as it is, later ones are
      mixed in. */
  function Smoothed(prev: u32, meas: real): (rateX: u32)
    requires Sane(prev)
    ensures Sane(rateX) && (prev != 0 ==> rateX != 0)
  {
    if 30000.0 < meas < 200000.0 then
      var x := InThousandths(meas);
      if prev != 0 then Mixed(prev, x) else x
    else prev
  }

  /** A measurement is taken over to the nearest thousandth. */
  lemma NearestThousandth(meas: real)
    requires 30000.0 < meas < 200000.0
    ensures 1000.0 * meas - 0.5 < InThousandths(meas) as real <= 1000.0 * meas + 0.5
  {
    var y := meas * 1000.0 + 0.5;
    assert y.Floor as real <= y < y.Floor as real + 1.0;
  }

  /** What one measurement does: nothing outside the guard; the first is taken over, later ones weigh
      three tenths, up to the truncation. */
  lemma SmoothedIs(prev: u32, meas: real)
    requires Sane(prev)
    ensures !(30000.0 < meas < 200000.0) ==> Smoothed(prev, meas) == prev
    ensures 30000.0 < meas < 200000.0 && prev == 0
        ==> 1000.0 * meas - 0.5 < Smoothed(prev, meas) as real <= 1000.0 * meas + 0.5
    ensures 30000.0 < meas < 200000.0 && prev != 0
        ==> 300.0 * meas + 0.7 * prev as real - 1.15 < Smoothed(prev, meas) as real
                                                     <= 300.0 * meas + 0.7 * prev as real + 0.15
  {
    if 30000.0 < meas < 200000.0 {
      NearestThousandth(meas);
      if prev != 0 {
        var m := 0.7 * prev as real + 0.3 * InThousandths(meas) as real;
        assert m.Floor as real <= m < m.Floor as real + 1.0;
      }
    }
  }

  /** A steady measurement draws the filter in: the distance shrinks to 7/10 plus the truncation. */
  lemma FilterContracts(prev: u32, x: u32)
    requires SLOWEST <= prev <= FASTEST && SLOWEST <= x <= FASTEST
    ensures 10 * (x - Mixed(prev, x)) <= 7 * (x - prev) + 10
    ensures 10 * (Mixed(prev, x) - x) <= 7 * (prev - x)
  {
    var m := 0.7 * prev as real + 0.3 * x as real;
    assert m.Floor as real <= m < m.Floor as real + 1.0;
  }

  // ----- one packet -----

  function DueX(accum: u32, pace: u32): nat { Wrap(accum + pace) / 8000000 }

  function NextX(accum: u32, pace: u32): u32 { Wrap(accum + pace) % 8000000 }

  function SentX(accum: u32, pace: u32): (n: nat)
    ensures n <= MAX_PACKET_FRAMES
  {
    if DueX(accum, pace) * 6 > 78 then 78 / 6 else DueX(accum, pace)
  }

  /** The accumulator never overflows its word, and a packet loses frames exactly when it is owed
      more than thirteen. */
  lemma PacketBalance(accum: u32, pace: u32)
    requires accum < 8000000 && pace <= FASTEST
    ensures accum + pace < 0x1_0000_0000 && NextX(accum, pace) < 8000000
    ensures 8000000 * SentX(accum, pace) + NextX(accum, pace) <= accum + pace
    ensures 8000000 * SentX(accum, pace) + NextX(accum, pace) == accum + pace <==> accum + pace < 112000000
  {
    var owed := accum + pace;
    assert owed == 8000000 * (owed / 8000000) + owed % 8000000;
  }

  // ----- one transfer -----

  function AccumX(accum: u32, pace: u32, k: nat): u32 {
    if k == 0 then accum else NextX(AccumX(accum, pace, k - 1), pace)
  }

  function TotalX(accum: u32, pace: u32, k: nat): nat {
    if k == 0 then 0 else TotalX(accum, pace, k - 1) + SentX(AccumX(accum, pace, k - 1), pace)
  }

  function LengthsX(accum: u32, pace: u32, k: nat): (lens: seq<nat>)
    ensures |lens| == k
  {
    if k == 0 then [] else LengthsX(accum, pace, k - 1) + [6 * SentX(AccumX(accum, pace, k - 1), pace)]
  }

  function OwedX(pace: u32, k: nat): nat {
    if k == 0 then 0 else OwedX(pace, k - 1) + pace
  }

  lemma {:induction false} TransferBalance(accum: u32, pace: u32, k: nat)
    requires accum < 8000000 && pace <= FASTEST
    ensures AccumX(accum, pace, k) < 8000000
    ensures 8000000 * TotalX(accum, pace, k) + AccumX(accum, pace, k) <= accum + OwedX(pace, k)
    ensures pace <= 104000000
        ==> 8000000 * TotalX(accum, pace, k) + AccumX(accum, pace, k) == accum + OwedX(pace, k)
  {
    if k == 0 {
    } else {
      TransferBalance(accum, pace, k - 1);
      PacketBalance(AccumX(accum, pace, k - 1), pace);
    }
  }

  // ----- what a transfer carries -----

  function Silences(n: nat): (s: seq<Frame>)
    ensures |s| == n && forall i :: 0 <= i < n ==> s[i] == SILENCE
  {
    seq(n, _ => SILENCE)
  }

  /** The buffer so far, what is readable in the ring, and the frames read from it. */
  datatype Feed = Feed(out: seq<Frame>, queue: seq<Frame>, played: seq<Frame>)

  /** A packet of n frames takes the oldest readable ones, and its 13-frame slot is padded. */
  function FeedPacket(f: Feed, arrived: seq<Frame>, n: nat): (g: Feed)
    requires n <= 13
    ensures |g.out| == |f.out| + 13
  {
    var q := f.queue + arrived;
    var got := Min(n, |q|);
    Feed(f.out + (q[..got] + Silences(13 - got)), q[got..], f.played + q[..got])
  }

  function FeedAfter(queue: seq<Frame>, arrivals: seq<seq<Frame>>, accum: u32, pace: u32, k: nat): (f: Feed)
    requires k <= |arrivals|
    ensures |f.out| == 13 * k
  {
    if k == 0 then Feed([], queue, [])
    else
      var n := SentX(AccumX(accum, pace, k - 1), pace);
      FeedPacket(FeedAfter(queue, arrivals, accum, pace, k - 1), arrivals[k - 1], n)
  }

  /** Frames leave the ring in order, none lost or played twice, whatever arrives in between. */
  lemma {:induction false} FeedIsInOrder(queue: seq<Frame>, arrivals: seq<seq<Frame>>, accum: u32, pace: u32, k: nat)
    requires k <= |arrivals|
    ensures var f := FeedAfter(queue, arrivals, accum, pace, k);
            f.played + f.queue == queue + Flat(arrivals, k) && |f.played| <= TotalX(accum, pace, k)
  {
    if k == 0 {
    } else {
      FeedIsInOrder(queue, arrivals, accum, pace, k - 1);
      var f, n := FeedAfter(queue, arrivals, accum, pace, k - 1), SentX(AccumX(accum, pace, k - 1), pace);
      Moved(f.played, f.queue, arrivals[k - 1], Min(n, |f.queue + arrivals[k - 1]|));
      Associative(queue, Flat(arrivals, k - 1), arrivals[k - 1]);
    }
  }

  lemma Moved(played: seq<Frame>, queue: seq<Frame>, more: seq<Frame>, got: nat)
    requires got <= |queue + more|
    ensures (played + (queue + more)[..got]) + (queue + more)[got..] == (played + queue) + more
  {
  }

  /** With nothing arriving, a transfer plays all it is due or all there is. */
  lemma {:induction false} QuietFeed(queue: seq<Frame>, arrivals: seq<seq<Frame>>, accum: u32, pace: u32, k: nat)
    requires k <= |arrivals| && forall i :: 0 <= i < |arrivals| ==> arrivals[i] == []
    ensures var f, m := FeedAfter(queue, arrivals, accum, pace, k), Min(TotalX(accum, pace, k), |queue|);
            f.played == queue[..m] && f.queue == queue[m..]
  {
    if k == 0 {
    } else {
      QuietFeed(queue, arrivals, accum, pace, k - 1);
      var n, m := SentX(AccumX(accum, pace, k - 1), pace), Min(TotalX(accum, pace, k - 1), |queue|);
      TakeOn(queue, m, Min(n, |queue| - m));
    }
  }

  lemma TakeOn(queue: seq<Frame>, m: nat, got: nat)
    requires m + got <= |queue|
    ensures queue[m..] + [] == queue[m..]
    ensures queue[..m] + queue[m..][..got] == queue[..m + got] && queue[m..][got..] == queue[m + got..]
  {
  }

  /** A packet's slot: its frames, then silence. */
  function Padded(frames: seq<Frame>): (slot: seq<Frame>)
    requires |frames| <= 13
    ensures |slot| == 13
  {
    frames + Silences(13 - |frames|)
  }

  /** The frames that leave the ring for packet i. */
  function TakenBy(queue: seq<Frame>, arrivals: seq<seq<Frame>>, accum: u32, pace: u32, i: nat): (frames: seq<Frame>)
    requires i < |arrivals|
    ensures |frames| <= 13
  {
    var q := FeedAfter(queue, arrivals, accum, pace, i).queue + arrivals[i];
    q[..Min(SentX(AccumX(accum, pace, i), pace), |q|)]
  }

  /** They are what packet i adds to the frames played, and what its slot begins with. */
  lemma PacketAdds(queue: seq<Frame>, arrivals: seq<seq<Frame>>, accum: u32, pace: u32, i: nat)
    requires i < |arrivals|
    ensures var f, g := FeedAfter(queue, arrivals, accum, pace, i), FeedAfter(queue, arrivals, accum, pace, i + 1);
            var taken := TakenBy(queue, arrivals, accum, pace, i);
            g.played == f.played + taken && g.out == f.out + Padded(taken)
  {
  }

  lemma SliceStays(out: seq<Frame>, more: seq<Frame>, a: nat, b: nat)
    requires a <= b <= |out|
    ensures (out + more)[a..b] == out[a..b]
  {
  }

  lemma LastSlice(out: seq<Frame>, slot: seq<Frame>)
    ensures (out + slot)[|out|..|out| + |slot|] == slot
  {
  }

  lemma NewSlot(queue: seq<Frame>, arrivals: seq<seq<Frame>>, accum: u32, pace: u32, k: nat)
    requires k < |arrivals|
    ensures FeedAfter(queue, arrivals, accum, pace, k + 1).out[13 * k..13 * k + 13]
         == Padded(TakenBy(queue, arrivals, accum, pace, k))
  {
    PacketAdds(queue, arrivals, accum, pace, k);
    LastSlice(FeedAfter(queue, arrivals, accum, pace, k).out, Padded(TakenBy(queue, arrivals, accum, pace, k)));
  }

  lemma OldSlot(queue: seq<Frame>, arrivals: seq<seq<Frame>>, accum: u32, pace: u32, i: nat, k: nat, slot: seq<Frame>)
    requires i < k < |arrivals| && FeedAfter(queue, arrivals, accum, pace, k).out[13 * i..13 * i + 13] == slot
    ensures FeedAfter(queue, arrivals, accum, pace, k + 1).out[13 * i..13 * i + 13] == slot
  {
    PacketAdds(queue, arrivals, accum, pace, k);
    SliceStays(FeedAfter(queue, arrivals, accum, pace, k).out, Padded(TakenBy(queue, arrivals, accum, pace, k)),
               13 * i, 13 * i + 13);
  }

  /** Slot i of a transfer holds the frames that left the ring for packet i, and is silent behind them. */
  lemma {:induction false} SlotsPlay(queue: seq<Frame>, arrivals: seq<seq<Frame>>, accum: u32, pace: u32, i: nat,
                                     k: nat, slot: seq<Frame>)
    requires i < k <= |arrivals| && slot == Padded(TakenBy(queue, arrivals, accum, pace, i))
    ensures FeedAfter(queue, arrivals, accum, pace, k).out[13 * i..13 * i + 13] == slot
    decreases k
  {
    if i == k - 1 {
      NewSlot(queue, arrivals, accum, pace, i);
    } else {
      SlotsPlay(queue, arrivals, accum, pace, i, k - 1, slot);
      OldSlot(queue, arrivals, accum, pace, i, k - 1, slot);
    }
  }

  lemma FillsSlot(out: seq<Frame>, q: seq<Frame>, got: nat, i: nat)
    requires got <= |q| && got <= 13 && i < 8 && |out| == 13 * i
    ensures var buf := out + Silences(13 * (8 - i));
            buf[..13 * i] + q[..got] + buf[13 * i + got..]
            == (out + (q[..got] + Silences(13 - got))) + Silences(13 * (8 - (i + 1)))
  {
  }

  /** The engine's pacing state and its playback ring, oldest readable frame first. */
  class Engine {
    var rate: u32       // nominal, Hz
    var devRateX: u32   // measured, thousandths; 0 until measured
    var accum: u32
    var queue: seq<Frame>
    var pbRead: int
    var pbUnderrun: int

    constructor (rate: u32)
      requires Supported(rate)
      ensures Valid() && devRateX == 0 && accum == 0 && this.rate == rate
      ensures queue == [] && pbRead == pbUnderrun == 0
    {
      this.rate := rate;
      devRateX, accum := 0, 0;
      queue, pbRead, pbUnderrun := [], 0, 0;
    }

    ghost predicate Valid()
      reads this
    {
      Supported(rate) && Sane(devRateX) && accum < 8000000
    }

    /** The once-a-second measurement. */
    method Measure(meas: real)
      requires Valid()
      modifies this`devRateX
      ensures Valid() && devRateX == Smoothed(old(devRateX), meas)
    {
      if 30000.0 < meas < 200000.0 {
        var prev := devRateX;
        var measX: u32 := (meas * 1000.0 + 0.5).Floor;
        if prev != 0 {
          MixedBounds(prev, measX);
          devRateX := (0.7 * prev as real + 0.3 * measX as real).Floor;
        } else {
          devRateX := measX;
        }
      }
    }

    /** The measured rate, or the nominal one until there is a measurement. */
    function Pace(): (pace: u32)
      requires Valid()
      reads this
      ensures SLOWEST <= pace <= FASTEST
    {
      if devRateX != 0 then devRateX else rate * 1000
    }

    method NextPacket(pace: u32) returns (bytes: nat)
      requires pace <= FASTEST
      modifies this`accum
      ensures accum == NextX(old(accum), pace) && bytes == 6 * SentX(old(accum), pace)
    {
      accum := Wrap(accum + pace);
      var frames := accum / 8000000;
      accum := accum % 8000000;
      bytes := frames * 6;
      if bytes > 78 {
        frames := 78 / 6;
        bytes := frames * 6;
      }
    }

    method SetLength(lengths: array<nat>, i: nat, bytes: nat)
      requires i < lengths.Length
      modifies lengths
      ensures lengths[..i + 1] == old(lengths[..i]) + [bytes]
    {
      lengths[i] := bytes;
    }

    /** The whole buffer is zeroed first, so what no packet fills is silence. */
    method Clear(buf: array<Frame>)
      modifies buf
      ensures buf[..] == Silences(buf.Length)
    {
      forall k | 0 <= k < buf.Length {
        buf[k] := SILENCE;
      }
    }

    /** The oldest readable frames, as many as asked for or there are, copied to a slot. */
    method ReadRing(buf: array<Frame>, at: nat, frames: nat) returns (got: nat)
      requires at + frames <= buf.Length
      modifies this`queue, buf
      ensures got == Min(frames, |old(queue)|) && queue == old(queue)[got..]
      ensures buf[..] == old(buf[..])[..at] + old(queue)[..got] + old(buf[..])[at + got..]
    {
      got := if frames > |queue| then |queue| else frames;
      forall k | 0 <= k < got {
        buf[at + k] := queue[k];
      }
      queue := queue[got..];
    }

    /** A packet's slot, filled from the ring, the shortfall counted. */
    method FillSlot(buf: array<Frame>, i: nat, frames: nat, arrived: seq<Frame>, ghost f: Feed)
      requires i < 8 && frames <= 13 && |f.out| == 13 * i
      requires buf[..] == f.out + Silences(13 * (8 - i)) && queue == f.queue
      modifies this`queue, this`pbRead, this`pbUnderrun, buf
      ensures var g := FeedPacket(f, arrived, frames);
              && buf[..] == g.out + Silences(13 * (8 - (i + 1))) && queue == g.queue
              && pbRead == old(pbRead) + |g.played| - |f.played|
              && pbUnderrun == old(pbUnderrun) + frames - (|g.played| - |f.played|)
    {
      queue := queue + arrived;
      var got := ReadRing(buf, 13 * i, frames);
      FillsSlot(f.out, f.queue + arrived, got, i);
      pbRead := pbRead + got;
      if frames > got {
        pbUnderrun := pbUnderrun + frames - got;
      }
    }

    /** One packet: paced, filled, and its length set. */
    method FillPacket(lengths: array<nat>, buf: array<Frame>, i: nat, pace: u32, arrived: seq<Frame>, ghost f: Feed)
      requires Valid() && pace <= FASTEST && lengths.Length == 8 && i < 8
      requires buf[..] == f.out + Silences(13 * (8 - i)) && |f.out| == 13 * i && queue == f.queue
      modifies this`accum, this`queue, this`pbRead, this`pbUnderrun, lengths, buf
      ensures Valid() && accum == NextX(old(accum), pace)
      ensures lengths[..i + 1] == old(lengths[..i]) + [6 * SentX(old(accum), pace)]
      ensures var g := FeedPacket(f, arrived, SentX(old(accum), pace));
              && buf[..] == g.out + Silences(13 * (8 - (i + 1))) && queue == g.queue
              && pbRead == old(pbRead) + |g.played| - |f.played|
              && pbUnderrun == old(pbUnderrun) + SentX(old(accum), pace) - (|g.played| - |f.played|)
    {
      PacketBalance(accum, pace);
      var bytes := NextPacket(pace);
      FillSlot(buf, i, bytes / 6, arrived, f);
      SetLength(lengths, i, bytes);
    }

    /** Buffer, lengths, ring, clock and counters after i packets. */
    ghost predicate Feeding(lengths: array<nat>, buf: array<Frame>, i: nat, pace: u32, accum0: u32, f: Feed,
                            read0: int, underrun0: int)
      requires i <= 8
      reads this, lengths, buf
    {
      && Valid() && lengths.Length == 8 && accum == AccumX(accum0, pace, i)
      && lengths[..i] == LengthsX(accum0, pace, i)
      && |f.out| == 13 * i && buf[..] == f.out + Silences(13 * (8 - i)) && queue == f.queue
      && pbRead == read0 + |f.played| && pbUnderrun == underrun0 + TotalX(accum0, pace, i) - |f.played|
    }

    method FillNext(lengths: array<nat>, buf: array<Frame>, i: nat, pace: u32, arrived: seq<Frame>,
                    ghost accum0: u32, ghost f: Feed, ghost read0: int, ghost underrun0: int)
      requires i < 8 && pace <= FASTEST && Feeding(lengths, buf, i, pace, accum0, f, read0, underrun0)
      modifies this`accum, this`queue, this`pbRead, this`pbUnderrun, lengths, buf
      ensures Feeding(lengths, buf, i + 1, pace, accum0,
                      FeedPacket(f, arrived, SentX(AccumX(accum0, pace, i), pace)), read0, underrun0)
    {
      FillPacket(lengths, buf, i, pace, arrived, f);
    }

    method FillAll(lengths: array<nat>, buf: array<Frame>, pace: u32, arrivals: seq<seq<Frame>>,
                   ghost accum0: u32, ghost queue0: seq<Frame>, ghost read0: int, ghost underrun0: int)
      requires pace <= FASTEST && |arrivals| == 8
      requires Feeding(lengths, buf, 0, pace, accum0, Feed([], queue0, []), read0, underrun0)
      modifies this`accum, this`queue, this`pbRead, this`pbUnderrun, lengths, buf
      ensures Feeding(lengths, buf, 8, pace, accum0, FeedAfter(queue0, arrivals, accum0, pace, |arrivals|), read0,
                      underrun0)
    {
      var i := 0;
      while i < 8
        invariant i <= 8
        invariant Feeding(lengths, buf, i, pace, accum0, FeedAfter(queue0, arrivals, accum0, pace, i), read0, underrun0)
      {
        FillNext(lengths, buf, i, pace, arrivals[i], accum0, FeedAfter(queue0, arrivals, accum0, pace, i), read0,
                 underrun0);
        i := i + 1;
      }
    }

    /** A whole transfer. The plugin may write between packets: arrivals[i] is what the ring has
        accepted since the packet before packet i. */
    method FillTransfer(lengths: array<nat>, buf: array<Frame>, arrivals: seq<seq<Frame>>)
      requires Valid() && lengths.Length == 8 && buf.Length == 13 * 8 && |arrivals| == 8
      modifies this`accum, this`queue, this`pbRead, this`pbUnderrun, lengths, buf
      ensures Valid() && accum == AccumX(old(accum), Pace(), |arrivals|)
      ensures Pace() == if devRateX == 0 then 1000 * rate else devRateX
      ensures lengths[..] == LengthsX(old(accum), Pace(), |arrivals|)
      ensures var f := FeedAfter(old(queue), arrivals, old(accum), Pace(), |arrivals|);
              && buf[..] == f.out && queue == f.queue
              && pbRead == old(pbRead) + |f.played|
              && pbUnderrun == old(pbUnderrun) + TotalX(old(accum), Pace(), |arrivals|) - |f.played|
    {
      var pace := Pace();
      ghost var accum0, queue0, read0, underrun0 := accum, queue, pbRead, pbUnderrun;
      Clear(buf);
      FillAll(lengths, buf, pace, arrivals, accum0, queue0, read0, underrun0);
      assert lengths[..|arrivals|] == lengths[..];
    }
  }

  // ----- whole runs -----

  datatype Event = Measured(meas: real) | Filled

  /** sent and owed are totals over the run, in frames and in 8000000ths. */
  datatype Clock = Clock(rate: u32, devRateX: u32, accum: u32, sent: nat, owed: nat)

  function PaceOf(c: Clock): (pace: u32)
    requires Supported(c.rate) && Sane(c.devRateX)
    ensures SLOWEST <= pace <= FASTEST
  {
    if c.devRateX != 0 then c.devRateX else c.rate * 1000
  }

  function Step(c: Clock, e: Event): Clock
    requires Supported(c.rate) && Sane(c.devRateX)
  {
    match e
    case Measured(meas) => c.(devRateX := Smoothed(c.devRateX, meas))
    case Filled =>
      var pace := PaceOf(c);
      c.(accum := AccumX(c.accum, pace, 8), sent := c.sent + TotalX(c.accum, pace, 8), owed := c.owed + OwedX(pace, 8))
  }

  ghost predicate Inv(c: Clock) {
    && Supported(c.rate) && Sane(c.devRateX) && c.accum < 8000000
    && 8000000 * c.sent + c.accum <= c.owed
  }

  ghost predicate Run(clocks: seq<Clock>, events: seq<Event>) {
    && |clocks| == |events| + 1
    && Supported(clocks[0].rate) && clocks[0] == Clock(clocks[0].rate, 0, 0, 0, 0)
    && forall k :: 0 <= k < |events|
         ==> Supported(clocks[k].rate) && Sane(clocks[k].devRateX) && clocks[k + 1] == Step(clocks[k], events[k])
  }

  lemma StepKeepsInv(c: Clock, e: Event)
    requires Inv(c)
    ensures Inv(Step(c, e))
    ensures c.devRateX != 0 ==> Step(c, e).devRateX != 0
    ensures 8000000 * c.sent + c.accum == c.owed && PaceOf(c) <= 104000000
        ==> 8000000 * Step(c, e).sent + Step(c, e).accum == Step(c, e).owed
  {
    if e == Filled {
      TransferBalance(c.accum, PaceOf(c), 8);
    }
  }

  /** A fill owes eight packets of the measured rate, or of the nominal one until there is one. */
  lemma FillOwes(c: Clock)
    requires Inv(c)
    ensures Step(c, Filled).owed == c.owed + 8 * if c.devRateX == 0 then 1000 * c.rate else c.devRateX
    ensures Step(c, Filled).devRateX == c.devRateX
  {
    OwedIsProduct(PaceOf(c), 8);
  }

  lemma {:induction false} OwedIsProduct(pace: u32, k: nat)
    ensures OwedX(pace, k) == k * pace
  {
    if k == 0 {
    } else {
      OwedIsProduct(pace, k - 1);
      assert k * pace == (k - 1) * pace + pace;
    }
  }

  /** For any measurements, the rate once set stays within its guard and the accumulator within its
      word, and the clock never sends more than it owes. */
  lemma RateStaysSane(clocks: seq<Clock>, events: seq<Event>, k: nat)
    requires Run(clocks, events) && k < |clocks|
    ensures clocks[k].devRateX == 0 || SLOWEST <= clocks[k].devRateX <= FASTEST
    ensures Supported(clocks[k].rate) && clocks[k].accum + PaceOf(clocks[k]) < 0x1_0000_0000
    ensures 8000000 * clocks[k].sent <= clocks[k].owed
  {
    RunKeepsInv(clocks, events, k);
  }

  lemma {:induction false} RunKeepsInv(clocks: seq<Clock>, events: seq<Event>, k: nat)
    requires Run(clocks, events) && k < |clocks|
    ensures Inv(clocks[k])
  {
    if k == 0 {
    } else {
      RunKeepsInv(clocks, events, k - 1);
      StepKeepsInv(clocks[k - 1], events[k - 1]);
    }
  }

  lemma {:induction false} OnceSetStaysSet(clocks: seq<Clock>, events: seq<Event>, j: nat, k: nat)
    requires Run(clocks, events) && j <= k < |clocks|
    requires clocks[j].devRateX != 0
    ensures SLOWEST <= clocks[k].devRateX <= FASTEST
    decreases k
  {
    RunKeepsInv(clocks, events, k);
    if j == k {
    } else {
      OnceSetStaysSet(clocks, events, j, k - 1);
      RunKeepsInv(clocks, events, k - 1);
      StepKeepsInv(clocks[k - 1], events[k - 1]);
    }
  }

  /** While the pace stays at or below 104000 Hz the frames sent are exactly the whole part of the
      sum of all paces, however the pace changed between transfers. */
  lemma {:induction false} TotalsAreExact(clocks: seq<Clock>, events: seq<Event>, k: nat)
    requires Run(clocks, events) && k < |clocks|
    requires forall i :: 0 <= i < k ==> clocks[i].devRateX <= 104000000
    ensures clocks[k].sent == clocks[k].owed / 8000000
    ensures 8000000 * clocks[k].sent + clocks[k].accum == clocks[k].owed
  {
    RunKeepsInv(clocks, events, k);
    if k == 0 {
    } else {
      TotalsAreExact(clocks, events, k - 1);
      RunKeepsInv(clocks, events, k - 1);
      StepKeepsInv(clocks[k - 1], events[k - 1]);
    }
    WholePart(clocks[k].owed, clocks[k].sent, clocks[k].accum);
  }

  lemma WholePart(owed: nat, sent: nat, accum: nat)
    requires 8000000 * sent + accum == owed && accum < 8000000
    ensures sent == owed / 8000000
  {
  }
}
