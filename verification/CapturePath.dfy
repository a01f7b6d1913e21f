/** What a capture callback does with a transfer: it pushes what each packet really carried, while
    the plugin may be consuming from the same ring. */
module CapturePath {
  import opened Numbers
  import opened Sequences
  import opened DeviceFrames
  import opened ShmRing

  /** What the consumer publishes during one packet: frames asked for before the producer reads the
      room, and between that and its own publication. */
  datatype Visit = Visit(before: nat, between: nat)

  /** Frames pushed so far and frames readable now. */
  datatype Fate = Fate(frames: seq<Frame>, level: nat)

  /** What is readable when the producer looks. */
  function Seen(level: nat, v: Visit): (seen: nat)
    ensures seen <= level
  {
    level - Min(v.before, level)
  }

  /** A packet is cut to the room there is at that moment. */
  function Pushes(level: nat, packet: seq<Frame>, v: Visit): (n: nat)
    requires level <= RING_FRAMES
    ensures n <= |packet| && Seen(level, v) + n <= RING_FRAMES
  {
    Min(|packet|, RING_FRAMES - Seen(level, v))
  }

  function LevelAfter(level: nat, packet: seq<Frame>, v: Visit): (after: nat)
    requires level <= RING_FRAMES
    ensures after <= RING_FRAMES
  {
    Seen(level, v) - Min(v.between, Seen(level, v)) + Pushes(level, packet, v)
  }

  function PacketFate(f: Fate, packet: seq<Frame>, v: Visit): (r: Fate)
    requires f.level <= RING_FRAMES
    ensures r.level <= RING_FRAMES
  {
    Fate(f.frames + packet[..Pushes(f.level, packet, v)], LevelAfter(f.level, packet, v))
  }

  /** The first i packets, one after another. */
  function After(level: nat, packets: seq<seq<Frame>>, visits: seq<Visit>, i: nat): (f: Fate)
    requires level <= RING_FRAMES && i <= |packets| && i <= |visits|
    ensures f.level <= RING_FRAMES
  {
    if i == 0 then Fate([], level)
    else PacketFate(After(level, packets, visits, i - 1), packets[i - 1], visits[i - 1])
  }

  ghost predicate Quiet(visits: seq<Visit>) {
    forall i :: 0 <= i < |visits| ==> visits[i] == Visit(0, 0)
  }

  /** With no consumer in the way the packets make up the longest prefix of the transfer's frames
      that fits. */
  lemma {:induction false} QuietIsLongestPrefix(level: nat, packets: seq<seq<Frame>>, visits: seq<Visit>, i: nat)
    requires level <= RING_FRAMES && i <= |packets| && i <= |visits| && Quiet(visits)
    ensures var f, all := After(level, packets, visits, i), Flat(packets, i);
            f.frames == all[..Min(|all|, RING_FRAMES - level)] && f.level == level + |f.frames|
  {
    if i == 0 {
    } else {
      QuietIsLongestPrefix(level, packets, visits, i - 1);
      QuietPacket(After(level, packets, visits, i - 1), packets[i - 1]);
      PrefixGrows(Flat(packets, i - 1), packets[i - 1], RING_FRAMES - level);
    }
  }

  lemma QuietPacket(f: Fate, packet: seq<Frame>)
    requires f.level <= RING_FRAMES
    ensures var n := Min(|packet|, RING_FRAMES - f.level);
            PacketFate(f, packet, Visit(0, 0)) == Fate(f.frames + packet[..n], f.level + n)
  {
  }

  lemma PrefixGrows(all: seq<Frame>, packet: seq<Frame>, space: nat)
    ensures var k := Min(|all|, space);
            all[..k] + packet[..Min(|packet|, space - k)] == (all + packet)[..Min(|all + packet|, space)]
  {
  }

  /** The whole frames each packet carries, in its 13-frame slot. */
  function PacketsOf(buf: seq<Frame>, received: seq<nat>): (packets: seq<seq<Frame>>)
    requires |buf| == 13 * |received| && forall i :: 0 <= i < |received| ==> received[i] <= 78
    ensures |packets| == |received|
  {
    seq(|received|, i requires 0 <= i < |received| => PacketAt(buf, received, i))
  }

  function PacketAt(buf: seq<Frame>, received: seq<nat>, i: nat): seq<Frame>
    requires |buf| == 13 * |received| && i < |received| && received[i] <= 78
  {
    buf[13 * i..13 * i + received[i] / 6]
  }

  lemma PacketOf(buf: seq<Frame>, received: seq<nat>, i: nat)
    requires |buf| == 13 * |received| && forall j :: 0 <= j < |received| ==> received[j] <= 78
    requires i < |received|
    ensures PacketsOf(buf, received)[i] == PacketAt(buf, received, i)
  {
  }

  /** The whole frames received, each from its place in the packet's slot. */
  lemma PacketHolds(buf: seq<Frame>, received: seq<nat>, i: nat)
    requires |buf| == 13 * |received| && forall j :: 0 <= j < |received| ==> received[j] <= 78
    requires i < |received|
    ensures var packet := PacketsOf(buf, received)[i];
            && 6 * |packet| <= received[i] < 6 * |packet| + 6
            && forall j :: 0 <= j < |packet| ==> packet[j] == buf[13 * i + j]
  {
  }

  /** A capture transfer: fixed 13-frame slots and the byte count each packet really received. */
  class CaptureTransfer {
    const buf: array<Frame>
    const requested: array<nat>
    const received: array<nat>

    constructor ()
      ensures buf.Length == 13 * 8 && requested.Length == received.Length == 8 && requested != received
      ensures fresh(buf) && fresh(requested) && fresh(received)
    {
      buf := new Frame[13 * 8](_ => SILENCE);
      requested := new nat[8](_ => 78);
      received := new nat[8](_ => 0);
    }

    /** Asks for full packets again, before the transfer is resubmitted. */
    method Rearm()
      requires requested.Length == received.Length == 8 && requested != received
      modifies requested, received
      ensures forall i :: 0 <= i < 8 ==> requested[i] == 78 && received[i] == 0
    {
      forall i | 0 <= i < 8 {
        requested[i] := 78;
      }
      forall i | 0 <= i < 8 {
        received[i] := 0;
      }
    }

    /** The isochronous contract: never more than the 78 bytes requested per packet. */
    ghost predicate Delivered()
      reads received
    {
      buf.Length == 13 * 8 && received.Length == 8 && forall i :: 0 <= i < 8 ==> received[i] <= 78
    }

    ghost function Packets(): seq<seq<Frame>>
      requires Delivered()
      reads buf, received
    {
      PacketsOf(buf[..], received[..])
    }
  }

  /** The ring after a callback met it with the given contents: emptied if it was full. */
  ghost predicate Collected(ring: Ring, stream: seq<Frame>, taken: nat, packets: seq<seq<Frame>>, visits: seq<Visit>)
    requires taken <= |stream| <= taken + RING_FRAMES && |packets| <= |visits|
    reads ring
  {
    if |stream| - taken == RING_FRAMES then ring.stream == stream && ring.taken == |stream|
    else Matches(ring, stream, After(|stream| - taken, packets, visits, |packets|))
  }

  /** The ring has gained f's frames behind base, and f's level is what is readable. */
  ghost predicate Matches(ring: Ring, base: seq<Frame>, f: Fate)
    reads ring
  {
    ring.stream == base + f.frames && |ring.stream| - ring.taken == f.level
  }

  /** The capture side of a daemon: it produces into the capture ring. */
  class Capture {
    const ring: Ring
    var overruns: nat

    constructor (ring: Ring)
      ensures this.ring == ring && overruns == 0
    {
      this.ring := ring;
      overruns := 0;
    }

    /** As many frames as there is room for. */
    method Fitting(wanted: nat) returns (frames: nat)
      requires ring.Valid()
      ensures frames == Min(wanted, RING_FRAMES - ring.Level())
    {
      frames := wanted;
      var space := ring.Space();
      if space < frames {
        frames := space;
      }
    }

    /** Produces the first n frames of a packet; there is room, and the consumer only makes more. */
    method Publish(x: CaptureTransfer, i: nat, n: nat, ghost packet: seq<Frame>)
      requires ring.Valid() && x.Delivered() && i < 8
      requires packet == PacketAt(x.buf[..], x.received[..], i)
      requires n <= |packet| && ring.Level() + n <= RING_FRAMES
      modifies ring`head, ring`stream, ring.data
      ensures ring.Valid() && ring.stream == old(ring.stream) + packet[..n]
    {
      if n > 0 {
        var src := x.buf[13 * i..13 * i + n];
        SliceOfSlice(x.buf[..], 13 * i, x.received[i] / 6, n);
        var m := ring.Produce(src);
        assert src[..m] == src;
      }
    }

    /** One packet: as much of its frames as the ring has room for. */
    method PushPacket(x: CaptureTransfer, i: nat, v: Visit, ghost packet: seq<Frame>, ghost base: seq<Frame>,
                      ghost f: Fate)
      requires ring.Valid() && x.Delivered() && i < 8
      requires packet == PacketAt(x.buf[..], x.received[..], i)
      requires f.level <= RING_FRAMES && Matches(ring, base, f)
      modifies ring`head, ring`tail, ring`stream, ring`taken, ring.data
      ensures ring.Valid() && Matches(ring, base, PacketFate(f, packet, v))
    {
      var _ := ring.Take(v.before);
      var frames := Fitting(x.received[i] / 6);
      var _ := ring.Take(v.between);
      Publish(x, i, frames, packet);
      Associative(base, f.frames, packet[..frames]);
    }

    /** Every packet in turn. */
    method PushPackets(x: CaptureTransfer, visits: seq<Visit>, ghost packets: seq<seq<Frame>>)
      requires ring.Valid() && x.Delivered() && x.buf != ring.data && packets == x.Packets() && |visits| == 8
      modifies ring`head, ring`tail, ring`stream, ring`taken, ring.data
      ensures ring.Valid() && Matches(ring, old(ring.stream), After(old(ring.Level()), packets, visits, 8))
    {
      ghost var base, level, buf, received := ring.stream, ring.Level(), x.buf[..], x.received[..];
      var i := 0;
      while i < 8
        invariant i <= 8 && ring.Valid()
        invariant x.buf[..] == buf && x.received[..] == received
        invariant Matches(ring, base, After(level, packets, visits, i))
      {
        PacketOf(buf, received, i);
        PushPacket(x, i, visits[i], packets[i], base, After(level, packets, visits, i));
        i := i + 1;
      }
    }

    /** A full ring means nobody is recording: it is emptied cheaply and the transfer's frames are
        dropped. Otherwise they are pushed, packet by packet, while the plugin may read:
        visits[i] is what it consumes around packet i. */
    method Collect(x: CaptureTransfer, visits: seq<Visit>)
      requires ring.Valid() && x.Delivered() && x.buf != ring.data && |visits| == 8
      modifies this, ring, ring.data
      ensures ring.Valid()
      ensures Collected(ring, old(ring.stream), old(ring.taken), old(x.Packets()), visits)
      ensures overruns == old(overruns) + if old(ring.Level()) == RING_FRAMES then 1 else 0
    {
      ghost var packets := x.Packets();
      var space := ring.Space();
      if space == 0 {
        ring.Discard();
        overruns := overruns + 1;
      } else {
        PushPackets(x, visits, packets);
      }
    }
  }
}
