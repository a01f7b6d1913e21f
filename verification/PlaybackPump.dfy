/** The two playback fills: the low-latency daemon's fill_pb and the libusb daemon's
    fill_playback. Both snapshot the ring once, pace and pack the packets contiguously, resample
    into them and publish tail last, while the plugin may be producing into the same ring. */
module PlaybackPump {
  import opened Numbers
  import opened DeviceFrames
  import opened Pacing
  import opened ShmRing
  import opened Resampler

  datatype Packet = Packet(length: nat, actual: nat, status: int)

  /** The packet list of a paced transfer: byte counts of the frames due, status fields cleared. */
  function PacketList(accum: u32, rate: u32, k: nat): (list: seq<Packet>)
    ensures |list| == k
    ensures forall i :: 0 <= i < k ==> list[i] == Packet(6 * FramesOf(accum, rate, i), 0, 0)
  {
    if k == 0 then [] else PacketList(accum, rate, k - 1) + [Packet(6 * FramesOf(accum, rate, k - 1), 0, 0)]
  }

  /** What a ring with `level` readable frames accepts of the first k offers, one call each, while
      its tail stands still. */
  function Arrived(level: nat, offers: seq<seq<Frame>>, k: nat): (frames: seq<Frame>)
    requires level <= RING_FRAMES && k <= |offers|
    ensures level + |frames| <= RING_FRAMES
  {
    if k == 0 then []
    else
      var before := Arrived(level, offers, k - 1);
      before + offers[k - 1][..Min(|offers[k - 1]|, RING_FRAMES - level - |before|)]
  }

  /** One isochronous transfer: its data buffer, in frames, and its packet list. */
  class Transfer {
    const buf: array<Frame>
    const packets: array<Packet>

    constructor (count: nat)
      ensures buf.Length == 13 * count && packets.Length == count
      ensures fresh(buf) && fresh(packets)
    {
      buf := new Frame[13 * count](_ => SILENCE);
      packets := new Packet[count](_ => Packet(0, 0, 0));
    }

    ghost predicate Holds(count: nat)
    {
      buf.Length == 13 * count && packets.Length == count
    }
  }

  lemma Joined(base: seq<Frame>, more: seq<Frame>, last: seq<Frame>, taken: nat)
    requires taken <= |base|
    ensures (base + more) + last == base + (more + last)
    ensures (base + (more + last))[taken..taken + |base[taken..]|] == base[taken..]
  {
  }

  /** Pacing and resampling state that survives from one transfer to the next. */
  class Pump {
    const ring: Ring
    var accum: u32
    var frac: real
    var ratio: real
    var underruns: nat
    var devFrames: nat

    constructor (ring: Ring)
      ensures Ready() && this.ring == ring
      ensures accum == 0 && frac == 0.0 && ratio == 1.0
    {
      this.ring := ring;
      accum, frac, ratio, underruns, devFrames := 0, 0.0, 1.0, 0, 0;
    }

    ghost predicate Ready()
      reads this
    {
      accum < 8000 && 0.0 <= frac < 1.0 && 0.99 <= ratio <= 1.01
    }

    /** Slots from tail0 on hold the snapshot. */
    ghost predicate Snapshot(window: seq<Frame>, tail0: u32)
      reads ring.data
    {
      ring.data.Length == RING_FRAMES && window == ring.Slots(tail0, |window|)
    }

    /** Since the snapshot the ring has gained what it accepted of k offers, and tail has not moved. */
    ghost predicate Fed(window: seq<Frame>, base: seq<Frame>, tail0: u32, offers: seq<seq<Frame>>, k: nat)
      reads ring, ring.data
    {
      && ring.Valid() && ring.tail == tail0 && ring.taken <= |base| <= ring.taken + RING_FRAMES && k <= |offers|
      && window == base[ring.taken..] && ring.stream == base + Arrived(|window|, offers, k)
    }

    /** The plugin produces while a fill is in progress: the snapshot stays where it was. */
    method Arrive(offers: seq<seq<Frame>>, k: nat, ghost window: seq<Frame>, ghost base: seq<Frame>, tail0: u32)
      requires k < |offers| && Calls(offers) && Fed(window, base, tail0, offers, k)
      modifies ring`head, ring`stream, ring.data
      ensures Fed(window, base, tail0, offers, k + 1) && Snapshot(window, tail0)
    {
      var n := ring.Produce(offers[k]);
      Joined(base, Arrived(|window|, offers, k), offers[k][..n], ring.taken);
      ring.SlotsHoldPrefix(|window|);
    }

    /** The two ring frames around a position. */
    method ReadPair(ghost window: seq<Frame>, tail0: u32, base: nat) returns (a: Frame, b: Frame)
      requires Snapshot(window, tail0) && base + 1 < |window|
      ensures a == window[base] && b == window[base + 1]
    {
      a := ring.data[Place(tail0, base)];
      b := ring.data[Place(tail0, base + 1)];
    }

    /** n frames of the transfer are rendered, the read position has moved with them, and every
        silent one was counted on top of u0. */
    ghost predicate Progress(x: Transfer, window: seq<Frame>, n: nat, pos: real, u0: nat)
      requires 0.0 <= frac && 0.0 <= ratio
      reads this, x.buf
    {
      && n <= x.buf.Length
      && pos == PosAfter(frac, ratio, |window|, n)
      && x.buf[..n] == Voices(Rendered(window, frac, ratio, n))
      && underruns == u0 + n - RealCount(frac, ratio, |window|, n)
    }

    /** Converts a cell and stores it behind the frames already rendered. */
    method Put(x: Transfer, k: nat, cell: Cell, ghost cells: seq<Cell>)
      requires k < x.buf.Length && x.buf[..k] == Voices(cells)
      modifies x.buf
      ensures x.buf[..k + 1] == Voices(cells + [cell])
    {
      var frame := Voice(cell);
      x.buf[k] := frame;
      VoicesAppend(cells, cell);
      assert x.buf[..k + 1] == old(x.buf[..k]) + [frame];
    }

    /** One output frame: silence, or the mix of the two neighbours of pos. */
    method RenderFrame(x: Transfer, ghost window: seq<Frame>, tail0: u32, avail: nat, pos: real, k: nat, ghost u0: nat)
      returns (next: real)
      requires |window| == avail && Snapshot(window, tail0) && x.buf != ring.data
      requires Ready() && k < x.buf.Length && Progress(x, window, k, pos, u0)
      modifies this`underruns, x.buf
      ensures Snapshot(window, tail0) && Ready() && Progress(x, window, k + 1, next, u0)
    {
      PosStaysNonNegative(frac, ratio, avail, k);
      next := pos;
      var base := pos.Floor;
      var mu := pos - base as real;
      var cell := Silent;
      if base + 1 >= avail {
        underruns := underruns + 1;
      } else {
        var a, b := ReadPair(window, tail0, base);
        cell := Mixture(a, b, mu);
        next := next + ratio;
      }
      assert cell == OutputAt(window, pos);
      Put(x, k, cell, Rendered(window, frac, ratio, k));
    }

    /** One packet: `frames` output frames behind the `sent` ones already in the buffer. */
    method RenderPacket(x: Transfer, ghost window: seq<Frame>, tail0: u32, avail: nat, pos: real,
                        sent: nat, frames: nat, ghost u0: nat) returns (next: real)
      requires |window| == avail && Snapshot(window, tail0) && x.buf != ring.data
      requires Ready() && sent + frames <= x.buf.Length && Progress(x, window, sent, pos, u0)
      modifies this`underruns, x.buf
      ensures Snapshot(window, tail0) && Ready() && Progress(x, window, sent + frames, next, u0)
    {
      next := pos;
      var f := 0;
      while f < frames
        invariant 0 <= f <= frames
        invariant Snapshot(window, tail0) && Ready() && Progress(x, window, sent + f, next, u0)
      {
        next := RenderFrame(x, window, tail0, avail, next, sent + f, u0);
        f := f + 1;
      }
    }

    /** The accumulator step and the 78-byte clamp of one packet. */
    method PacePacket(rate: u32) returns (frames: nat, bytes: nat)
      modifies this`accum
      ensures accum == NextAccum(old(accum), rate) < 8000
      ensures frames == PacketFrames(old(accum), rate) && bytes == 6 * frames
    {
      accum := Wrap(accum + rate);
      frames := accum / 8000;
      accum := accum % 8000;
      bytes := frames * 6;
      if bytes > 78 {
        frames := 78 / 6;
        bytes := frames * 6;
      }
    }

    /** The packet's entry in the transfer's list. */
    method Describe(x: Transfer, i: nat, bytes: nat)
      requires i < x.packets.Length
      modifies x.packets
      ensures x.packets[..i + 1] == old(x.packets[..i]) + [Packet(bytes, 0, 0)]
    {
      x.packets[i] := Packet(bytes, 0, 0);
    }

    /** i packets are paced, rendered and described since the transfer began. */
    ghost predicate Rendering(x: Transfer, window: seq<Frame>, rate: u32, accum0: u32, u0: nat,
                              i: nat, sent: nat, next: real)
      reads this, x.buf, x.packets
    {
      && Ready() && Progress(x, window, sent, next, u0)
      && i <= x.packets.Length && x.packets[..i] == PacketList(accum0, rate, i)
      && accum == AccumAfter(accum0, rate, i)
      && sent == TotalFrames(accum0, rate, i)
    }

    method RenderNext(x: Transfer, i: nat, rate: u32, ghost window: seq<Frame>, tail0: u32, avail: nat, pos: real,
                      before: nat, ghost accum0: u32, ghost u0: nat)
      returns (next: real, sent: nat)
      requires |window| == avail && x.buf != ring.data && Snapshot(window, tail0)
      requires i < x.packets.Length && before + 13 <= x.buf.Length
      requires Rendering(x, window, rate, accum0, u0, i, before, pos)
      modifies this`accum, this`underruns, x.buf, x.packets
      ensures Rendering(x, window, rate, accum0, u0, i + 1, sent, next)
      ensures sent <= before + 13
    {
      var frames, bytes := PacePacket(rate);
      next := RenderPacket(x, window, tail0, avail, pos, before, frames, u0);
      Describe(x, i, bytes);
      sent := before + frames;
    }

    /** The plugin's i-th call, then packet i. */
    method ServePacket(x: Transfer, i: nat, rate: u32, ghost window: seq<Frame>, tail0: u32, avail: nat, pos: real,
                       before: nat, offers: seq<seq<Frame>>, ghost base: seq<Frame>, ghost accum0: u32, ghost u0: nat)
      returns (next: real, sent: nat)
      requires |window| == avail && x.buf != ring.data && i < |offers| && Calls(offers)
      requires i < x.packets.Length && before + 13 <= x.buf.Length
      requires Fed(window, base, tail0, offers, i) && Rendering(x, window, rate, accum0, u0, i, before, pos)
      modifies this`accum, this`underruns, ring`head, ring`stream, ring.data, x.buf, x.packets
      ensures Fed(window, base, tail0, offers, i + 1) && Rendering(x, window, rate, accum0, u0, i + 1, sent, next)
      ensures sent <= before + 13
    {
      Arrive(offers, i, window, base, tail0);
      next, sent := RenderNext(x, i, rate, window, tail0, avail, pos, before, accum0, u0);
    }

    /** All packets of a transfer, back to back in the buffer; offers[i] reaches the ring before
        packet i. */
    method RenderTransfer(x: Transfer, count: nat, rate: u32, ghost window: seq<Frame>, tail0: u32, avail: nat,
                          offers: seq<seq<Frame>>, ghost base: seq<Frame>)
      returns (next: real, sent: nat)
      requires Ready() && x.Holds(count) && count < |offers| && Calls(offers)
      requires |window| == avail && Fed(window, base, tail0, offers, 0) && x.buf != ring.data
      modifies this`accum, this`underruns, ring`head, ring`stream, ring.data, x.buf, x.packets
      ensures Ready() && Fed(window, base, tail0, offers, count)
      ensures accum == AccumAfter(old(accum), rate, count)
      ensures sent == TotalFrames(old(accum), rate, count)
      ensures Progress(x, window, sent, next, old(underruns)) && Resampled(x.buf[..sent], window, frac, ratio)
      ensures x.packets[..count] == PacketList(old(accum), rate, count)
    {
      next, sent := frac, 0;
      ghost var accum0, u0 := accum, underruns;
      var i := 0;
      while i < count
        invariant 0 <= i <= count && sent <= 13 * i
        invariant Rendering(x, window, rate, accum0, u0, i, sent, next)
        invariant Fed(window, base, tail0, offers, i)
      {
        next, sent := ServePacket(x, i, rate, window, tail0, avail, next, sent, offers, base, accum0, u0);
        i := i + 1;
      }
      RenderedIsResampled(window, frac, ratio, sent);
    }

    /** Publishes the frames fully read and keeps the fractional remainder. */
    method Publish(tail0: u32, avail: nat, pos: real)
      requires ring.Valid() && tail0 == ring.tail && avail <= ring.Level()
      requires 0.0 <= pos && pos.Floor <= avail
      modifies this`frac, ring`tail, ring`taken
      ensures ring.Valid()
      ensures 0.0 <= frac < 1.0
      ensures ring.taken as real + frac == old(ring.taken) as real + pos
    {
      var consumed := pos.Floor;
      if consumed > avail {
        consumed := avail;
      }
      WrapAdd(ring.taken, consumed);
      if consumed > 0 {
        ring.tail := Wrap(tail0 + consumed);
        ring.taken := ring.taken + consumed;
      }
      frac := pos - consumed as real;
    }

    /** What both fills promise, for a transfer of `count` packets read at the new ratio from a
        snapshot of `avail` frames, offers[i] reaching the ring before packet i and the last one
        before the publication: the packets carry the paced frame counts back to back, their
        sound is the snapshot interpolated in steps of the ratio, the ring gains what fitted and moves by exactly the
        distance read. */
    twostate predicate Filled(x: Transfer, count: nat, rate: u32, avail: nat, offers: seq<seq<Frame>>)
      requires x.Holds(count) && old(0.0 <= frac) && 0.0 <= ratio && avail <= RING_FRAMES
      reads this, ring, ring.data, x.buf, x.packets
    {
      var n := TotalFrames(old(accum), rate, count);
      && ring.Valid() && old(ring.Valid()) && avail == old(ring.Level())
      && ring.stream == old(ring.stream) + Arrived(avail, offers, |offers|)
      && n <= x.buf.Length
      && x.buf[..n] == Voices(Rendered(old(ring.stream[ring.taken..]), old(frac), ratio, n))
      && Resampled(x.buf[..n], old(ring.stream[ring.taken..]), old(frac), ratio)
      && x.packets[..] == PacketList(old(accum), rate, count)
      && accum == AccumAfter(old(accum), rate, count)
      && ring.taken as real + frac == old(ring.taken) as real + PosAfter(old(frac), ratio, avail, n)
      && underruns == old(underruns) + n - RealCount(old(frac), ratio, avail, n)
    }

    /** Render from the snapshot, then publish: the part the two fills share. */
    method Resample(x: Transfer, count: nat, rate: u32, avail: nat, offers: seq<seq<Frame>>) returns (clocked: nat)
      requires Ready() && ring.Valid() && x.Holds(count) && x.buf != ring.data
      requires avail == ring.Level() && |offers| == count + 1 && Calls(offers)
      modifies this`accum, this`frac, this`underruns, ring, ring.data, x.buf, x.packets
      ensures Ready()
      ensures Filled(x, count, rate, avail, offers)
      ensures clocked == TotalFrames(old(accum), rate, count)
    {
      var tail0 := ring.tail;
      ghost var window := ring.stream[ring.taken..];
      ghost var base := ring.stream;
      var pos;
      pos, clocked := RenderTransfer(x, count, rate, window, tail0, avail, offers, base);
      Arrive(offers, count, window, base, tail0);
      NeverPassesSnapshot(frac, ratio, avail, clocked);
      Publish(tail0, avail, pos);
      assert x.packets[..] == x.packets[..count];
    }

    /** Low-latency daemon: the ratio depends on this snapshot alone. */
    method SetRatio(avail: nat, bufferMs: u32, rate: u32)
      modifies this`ratio
      ensures ratio == LowLatencyRatio(avail, LowLatencySetpoint(bufferMs, rate))
    {
      var ms := bufferMs;
      if ms < 100 {
        ms := 512;
      }
      var setpoint := Wrap(ms * rate / 1000);
      if setpoint < 1 {
        setpoint := 1;
      }
      var err := avail as real - setpoint as real;
      var adj := err / setpoint as real * 0.25;
      if adj > 0.01 {
        adj := 0.01;
      } else if adj < -0.01 {
        adj := -0.01;
      }
      ratio := 1.0 + adj;
    }

    /** Low-latency daemon, 8 packets a transfer. */
    method FillPb(x: Transfer, bufferMs: u32, rate: u32, offers: seq<seq<Frame>>)
      requires Ready() && ring.Valid() && x.Holds(8) && x.buf != ring.data
      requires |offers| == 9 && Calls(offers)
      modifies this, ring, ring.data, x.buf, x.packets
      ensures Ready()
      ensures ratio == LowLatencyRatio(old(ring.Level()), LowLatencySetpoint(bufferMs, rate))
      ensures Filled(x, 8, rate, old(ring.Level()), offers)
      ensures devFrames == old(devFrames) + TotalFrames(old(accum), rate, 8)
    {
      var avail := ring.Fill();
      SetRatio(avail, bufferMs, rate);
      var clocked := Resample(x, 8, rate, avail, offers);
      devFrames := devFrames + clocked;
    }

    /** libusb daemon, first half: slew the ratio from one reading of the fill. */
    method UpdateRatio(setpoint: real)
      requires Ready() && ring.Valid() && setpoint > 0.0
      modifies this`ratio
      ensures Ready()
      ensures ratio == SlewedRatio(old(ratio), ring.Level(), setpoint)
      ensures SlewLaw(old(ratio), ring.Level(), setpoint, ratio)
    {
      SlewKeepsLaw(ratio, ring.Level(), setpoint);
      var fill := ring.Fill();
      var err := fill as real - setpoint;
      var target := 1.0 + err / setpoint * 0.15;
      if target > 1.01 {
        target := 1.01;
      }
      if target < 0.99 {
        target := 0.99;
      }
      ratio := ratio + (target - ratio) * 0.05;
    }

    /** libusb daemon, second half, 16 packets a transfer. The fill is read again, so frames that
        arrived since UpdateRatio are part of this snapshot. */
    method FillPlayback(x: Transfer, rate: u32, offers: seq<seq<Frame>>)
      requires Ready() && ring.Valid() && x.Holds(16) && x.buf != ring.data
      requires |offers| == 17 && Calls(offers)
      modifies this`accum, this`frac, this`underruns, ring, ring.data, x.buf, x.packets
      ensures Ready()
      ensures Filled(x, 16, rate, old(ring.Level()), offers)
    {
      var avail := ring.Fill();
      var _ := Resample(x, 16, rate, avail, offers);
    }
  }
}
