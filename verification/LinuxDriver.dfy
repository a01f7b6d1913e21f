/** The Linux reference driver: the ALSA buffers are circular, and each packet is copied in at most
    two straight segments. */
module LinuxDriver {
  import opened Numbers
  import opened Sequences
  import opened DeviceFrames
  import opened Pacing
  import opened Circular

  const NUM_URBS := 4

  /** An ALSA S32 stereo frame. */
  datatype Wide = Wide(left: u32, right: u32)

  /** Three device bytes at bits 8..31 of a word. */
  function Widen(p: Dev3): u32 { p.b0 * 0x100 + p.b1 * 0x1_0000 + p.b2 * 0x100_0000 }

  /** Bits 8..31 of a word, a byte at a time. */
  function Narrow(w: u32): Dev3 {
    Dev3((w / 0x100) % 0x100, (w / 0x1_0000) % 0x100, (w / 0x100_0000) % 0x100)
  }

  /** Widening loses nothing of a device sample. */
  lemma NarrowWiden(p: Dev3)
    ensures Narrow(Widen(p)) == p
  {
    var hi := p.b1 + 0x100 * p.b2;
    var mid := p.b0 + 0x100 * hi;
    assert Widen(p) == 0x100 * mid;
    assert Widen(p) / 0x100 == mid && Widen(p) / 0x1_0000 == hi && Widen(p) / 0x100_0000 == p.b2;
  }

  /** The word is the device sample's 32-bit value. */
  lemma WidenIsSample(p: Dev3)
    ensures Widen(p) == Wrap(Dev3ToI32(p))
  {
    if p.b2 >= 0x80 {
      assert Dev3ToI32(p) == Widen(p) - 0x1_0000_0000;
    }
  }

  function WidenFrame(f: Frame): Wide { Wide(Widen(f.left), Widen(f.right)) }

  function NarrowFrame(w: Wide): Frame { Frame(Narrow(w.left), Narrow(w.right)) }

  /** Widening keeps the sample's 32-bit value in its own channel, and narrowing undoes it. */
  lemma NarrowWidenFrame(f: Frame)
    ensures WidenFrame(f) == Wide(Wrap(Dev3ToI32(f.left)), Wrap(Dev3ToI32(f.right)))
    ensures NarrowFrame(WidenFrame(f)) == f
  {
    WidenIsSample(f.left);
    WidenIsSample(f.right);
    NarrowWiden(f.left);
    NarrowWiden(f.right);
  }

  // ----- circular copies -----

  /** n frames read from the circular buffer at absolute position k: the modular copy. */
  function Played(dma: seq<Wide>, k: nat, n: nat): (frames: seq<Frame>)
    requires |dma| > 0
    ensures |frames| == n && forall f :: 0 <= f < n ==> frames[f] == NarrowFrame(dma[Place(k + f, |dma|)])
  {
    seq(n, f requires 0 <= f < n => NarrowFrame(dma[Place(k + f, |dma|)]))
  }

  function Narrowed(words: seq<Wide>): (frames: seq<Frame>)
    ensures |frames| == |words| && forall f :: 0 <= f < |words| ==> frames[f] == NarrowFrame(words[f])
  {
    seq(|words|, f requires 0 <= f < |words| => NarrowFrame(words[f]))
  }

  function Widened(frames: seq<Frame>): (words: seq<Wide>)
    ensures |words| == |frames| && forall f :: 0 <= f < |frames| ==> words[f] == WidenFrame(frames[f])
  {
    seq(|frames|, f requires 0 <= f < |frames| => WidenFrame(frames[f]))
  }

  /** The length of the first segment: up to the end of the buffer. */
  function FirstSegment(p: nat, n: nat, size: nat): nat
    requires p < size
  {
    if p + n > size then size - p else n
  }

  /** Two straight segments make up the modular copy. */
  lemma TwoSegments(dma: seq<Wide>, k: nat, n: nat)
    requires 0 < |dma| && n <= |dma|
    ensures var p := Place(k, |dma|);
            var first := FirstSegment(p, n, |dma|);
            Narrowed(dma[p..p + first]) + Narrowed(dma[..n - first]) == Played(dma, k, n)
  {
    var p := Place(k, |dma|);
    var first := FirstSegment(p, n, |dma|);
    var both := Narrowed(dma[p..p + first]) + Narrowed(dma[..n - first]);
    forall f | 0 <= f < n
      ensures both[f] == NarrowFrame(dma[Place(k + f, |dma|)])
    {
      PlaceAhead(k, f, |dma|);
    }
  }

  function Overwrite(dma: seq<Wide>, at: nat, words: seq<Wide>): (out: seq<Wide>)
    requires at + |words| <= |dma|
    ensures |out| == |dma|
    ensures forall s :: 0 <= s < |dma| ==> out[s] == if at <= s < at + |words| then words[s - at] else dma[s]
  {
    dma[..at] + words + dma[at + |words|..]
  }

  /** Both segments of a captured packet. */
  function Recorded(dma: seq<Wide>, p: nat, frames: seq<Frame>): (out: seq<Wide>)
    requires p < |dma| && |frames| <= |dma|
    ensures |out| == |dma|
  {
    var first := FirstSegment(p, |frames|, |dma|);
    Overwrite(Overwrite(dma, p, Widened(frames[..first])), 0, Widened(frames[first..]))
  }

  /** The f-th slot from p on, once around, holds the f-th frame or what it held before. */
  lemma RecordedSlot(dma: seq<Wide>, p: nat, frames: seq<Frame>, f: nat)
    requires p < |dma| && |frames| <= |dma| && f < |dma|
    ensures var s := if p + f >= |dma| then p + f - |dma| else p + f;
            Recorded(dma, p, frames)[s] == if f < |frames| then WidenFrame(frames[f]) else dma[s]
  {
    if p + f >= |dma| {
      WrappedSlot(dma, p, frames, f);
    } else {
      StraightSlot(dma, p, frames, f);
    }
  }

  lemma WrappedSlot(dma: seq<Wide>, p: nat, frames: seq<Frame>, f: nat)
    requires p < |dma| && |frames| <= |dma| && f < |dma| && |dma| <= p + f
    ensures Recorded(dma, p, frames)[p + f - |dma|]
         == if f < |frames| then WidenFrame(frames[f]) else dma[p + f - |dma|]
  {
    var first, s := FirstSegment(p, |frames|, |dma|), p + f - |dma|;
    var once := Overwrite(dma, p, Widened(frames[..first]));
    assert once[s] == dma[s];
    if f < |frames| {
      assert Widened(frames[first..])[s] == WidenFrame(frames[f]);
    }
  }

  lemma StraightSlot(dma: seq<Wide>, p: nat, frames: seq<Frame>, f: nat)
    requires p < |dma| && |frames| <= |dma| && p + f < |dma|
    ensures Recorded(dma, p, frames)[p + f] == if f < |frames| then WidenFrame(frames[f]) else dma[p + f]
  {
    var first := FirstSegment(p, |frames|, |dma|);
    var once := Overwrite(dma, p, Widened(frames[..first]));
    assert p + f >= |frames| - first;
    assert Recorded(dma, p, frames)[p + f] == once[p + f];
  }

  /** Frame k is at its modular place. */
  ghost predicate Kept(dma: seq<Wide>, captured: seq<Frame>, k: nat)
    requires |dma| > 0 && k < |captured|
  {
    dma[Place(k, |dma|)] == WidenFrame(captured[k])
  }

  /** The buffer holds the last |dma| frames captured since prepare. */
  ghost predicate Holds(dma: seq<Wide>, captured: seq<Frame>)
    requires |dma| > 0
  {
    forall k: nat :: k < |captured| && |captured| - |dma| <= k ==> Kept(dma, captured, k)
  }

  /** Recording a packet at the write position keeps the buffer the modular copy of the capture. */
  lemma RecordKeepsHolds(dma: seq<Wide>, captured: seq<Frame>, frames: seq<Frame>)
    requires 0 < |dma| && |frames| <= |dma| && Holds(dma, captured)
    ensures Holds(Recorded(dma, Place(|captured|, |dma|), frames), captured + frames)
  {
    forall k: nat | k < |captured + frames| && |captured + frames| - |dma| <= k
      ensures Kept(Recorded(dma, Place(|captured|, |dma|), frames), captured + frames, k)
    {
      if |captured| <= k {
        NewFrameKept(dma, captured, frames, k - |captured|);
      } else {
        OldFrameKept(dma, captured, frames, k);
      }
    }
  }

  lemma NewFrameKept(dma: seq<Wide>, captured: seq<Frame>, frames: seq<Frame>, f: nat)
    requires 0 < |dma| && f < |frames| <= |dma|
    ensures Kept(Recorded(dma, Place(|captured|, |dma|), frames), captured + frames, |captured| + f)
  {
    PlaceAhead(|captured|, f, |dma|);
    NewFrameAt(dma, Place(|captured|, |dma|), frames, f, Place(|captured| + f, |dma|));
    assert (captured + frames)[|captured| + f] == frames[f];
  }

  lemma NewFrameAt(dma: seq<Wide>, p: nat, frames: seq<Frame>, f: nat, slot: nat)
    requires p < |dma| && f < |frames| <= |dma|
    requires slot == if p + f >= |dma| then p + f - |dma| else p + f
    ensures Recorded(dma, p, frames)[slot] == WidenFrame(frames[f])
  {
    RecordedSlot(dma, p, frames, f);
  }

  lemma OldFrameKept(dma: seq<Wide>, captured: seq<Frame>, frames: seq<Frame>, k: nat)
    requires 0 < |dma| && |frames| <= |dma|
    requires k < |captured| && |captured| + |frames| - |dma| <= k && Kept(dma, captured, k)
    ensures Kept(Recorded(dma, Place(|captured|, |dma|), frames), captured + frames, k)
  {
    var f := k + |dma| - |captured|;
    SamePlace(|captured|, k, |dma|);
    RecordedSlot(dma, Place(|captured|, |dma|), frames, f);
  }

  lemma ReplayedFrame(dma: seq<Wide>, captured: seq<Frame>, k: nat)
    requires |dma| > 0 && k < |captured| && Kept(dma, captured, k)
    ensures NarrowFrame(dma[Place(k, |dma|)]) == captured[k]
  {
    NarrowWidenFrame(captured[k]);
  }

  /** Captured frames replayed from the same buffer come back byte for byte. */
  lemma {:induction false} Loopback(dma: seq<Wide>, captured: seq<Frame>, k: nat, n: nat)
    requires |dma| > 0 && Holds(dma, captured)
    requires |captured| - |dma| <= k && k + n <= |captured|
    ensures Played(dma, k, n) == captured[k..k + n]
  {
    if n == 0 {
    } else {
      Loopback(dma, captured, k, n - 1);
      ReplayedFrame(dma, captured, k + n - 1);
      PlayedSnoc(dma, k, n - 1);
      assert captured[k..k + n] == captured[k..k + n - 1] + [captured[k + n - 1]];
    }
  }

  lemma PlayedSnoc(dma: seq<Wide>, k: nat, n: nat)
    requires |dma| > 0
    ensures Played(dma, k, n + 1) == Played(dma, k, n) + [NarrowFrame(dma[Place(k + n, |dma|)])]
  {
  }

  // ----- the driver -----

  /** An URB: eight 13-frame slots and a byte count for each. */
  class Urb {
    const buf: array<Frame>
    const length: array<nat>

    constructor ()
      ensures Shaped() && fresh(buf) && fresh(length)
    {
      buf := new Frame[13 * 8](_ => SILENCE);
      length := new nat[8](_ => 0);
    }

    ghost predicate Shaped() { buf.Length == 13 * 8 && length.Length == 8 }
  }

  datatype Stream = Capture | Playback

  datatype Status = Done | Killed

  datatype SetRateResult = Set | Unchanged | Busy | Invalid | UsbError

  /** Copies words to device frames, one straight segment. */
  method NarrowSegment(src: array<Wide>, from: nat, dst: array<Frame>, at: nat, n: nat)
    requires from + n <= src.Length && at + n <= dst.Length
    modifies dst
    ensures dst[..at + n] == old(dst[..at]) + Narrowed(src[from..from + n])
  {
    var f := 0;
    while f < n
      invariant 0 <= f <= n
      invariant dst[..at + f] == old(dst[..at]) + Narrowed(src[from..from + f])
    {
      dst[at + f] := NarrowFrame(src[from + f]);
      NarrowedSnoc(src[from..from + f + 1]);
      assert src[from..from + f + 1][..f] == src[from..from + f];
      assert dst[..at + f + 1] == dst[..at + f] + [dst[at + f]];
      f := f + 1;
    }
  }

  lemma NarrowedSnoc(words: seq<Wide>)
    requires words != []
    ensures Narrowed(words) == Narrowed(words[..|words| - 1]) + [NarrowFrame(words[|words| - 1])]
  {
  }

  /** Copies device frames to words, one straight segment. */
  method WidenSegment(src: seq<Frame>, dst: array<Wide>, at: nat)
    requires at + |src| <= dst.Length
    modifies dst
    ensures dst[..] == Overwrite(old(dst[..]), at, Widened(src))
  {
    ghost var before := dst[..];
    var f := 0;
    while f < |src|
      invariant 0 <= f <= |src|
      invariant dst[..] == Overwrite(before, at, Widened(src[..f]))
    {
      dst[at + f] := WidenFrame(src[f]);
      OverwriteSnoc(before, at, src[..f + 1]);
      assert src[..f + 1][..f] == src[..f];
      f := f + 1;
    }
    assert src[..f] == src;
  }

  lemma OverwriteSnoc(dma: seq<Wide>, at: nat, frames: seq<Frame>)
    requires frames != [] && at + |frames| <= |dma|
    ensures var f := |frames| - 1;
            Overwrite(dma, at, Widened(frames))
              == Overwrite(dma, at, Widened(frames[..f]))[at + f := WidenFrame(frames[f])]
  {
  }

  /** What the host controller takes from the first k slots of a buffer: each slot's leading frames,
      in packet order. */
  function Unpacked(buf: seq<Frame>, lens: seq<nat>, k: nat): seq<Frame>
    requires k <= |lens| && 13 * k <= |buf| && forall i :: 0 <= i < |lens| ==> lens[i] <= 13
  {
    if k == 0 then []
    else Unpacked(buf, lens, k - 1) + buf[13 * (k - 1)..13 * (k - 1) + lens[k - 1]]
  }

  /** Only those slots matter. */
  lemma {:induction false} UnpackedPrefix(a: seq<Frame>, b: seq<Frame>, lens: seq<nat>, k: nat)
    requires k <= |lens| && 13 * k <= |a| && 13 * k <= |b| && forall i :: 0 <= i < |lens| ==> lens[i] <= 13
    requires a[..13 * k] == b[..13 * k]
    ensures Unpacked(a, lens, k) == Unpacked(b, lens, k)
  {
    if k == 0 {
    } else {
      var from, n := 13 * (k - 1), lens[k - 1];
      SamePrefix(a, b, 13 * k, from, n);
      UnpackedPrefix(a, b, lens, k - 1);
      UnpackedLast(a, lens, k, a[from..from + n]);
      UnpackedLast(b, lens, k, a[from..from + n]);
    }
  }

  lemma UnpackedLast(buf: seq<Frame>, lens: seq<nat>, k: nat, last: seq<Frame>)
    requires 0 < k <= |lens| && 13 * k <= |buf| && forall i :: 0 <= i < |lens| ==> lens[i] <= 13
    requires last == buf[13 * (k - 1)..13 * (k - 1) + lens[k - 1]]
    ensures Unpacked(buf, lens, k) == Unpacked(buf, lens, k - 1) + last
  {
  }

  lemma SamePrefix(a: seq<Frame>, b: seq<Frame>, size: nat, from: nat, n: nat)
    requires size <= |a| && size <= |b| && a[..size] == b[..size] && from + n <= size
    ensures a[..from] == b[..from] && a[from..from + n] == b[from..from + n]
  {
    assert a[..size][..from] == a[..from] && b[..size][..from] == b[..from];
    assert a[..size][from..from + n] == a[from..from + n] && b[..size][from..from + n] == b[from..from + n];
  }

  /** The frame counts the pacing clock asks for. */
  function Lens(accum: u32, rate: u32): (lens: seq<nat>)
    ensures |lens| == 8 && forall i :: 0 <= i < 8 ==> lens[i] <= 13
  {
    seq(8, i requires 0 <= i => FramesOf(accum, rate, i))
  }

  lemma LensAt(accum: u32, rate: u32, i: nat)
    requires i < 8
    ensures Lens(accum, rate)[i] == FramesOf(accum, rate, i)
  {
  }

  /** What a packet plays: the modular copy while the stream runs, silence otherwise. */
  function Voiced(running: bool, dma: seq<Wide>, k: nat, n: nat): (frames: seq<Frame>)
    requires |dma| > 0
    ensures |frames| == n
  {
    if running then Played(dma, k, n) else seq(n, f => SILENCE)
  }

  lemma PlayedAppend(dma: seq<Wide>, k: nat, a: nat, b: nat)
    requires |dma| > 0
    ensures Played(dma, k, a) + Played(dma, k + a, b) == Played(dma, k, a + b)
  {
    var first, second, all := Played(dma, k, a), Played(dma, k + a, b), Played(dma, k, a + b);
    assert first == all[..a];
    assert second == all[a..] by {
      forall f | 0 <= f < b
        ensures second[f] == all[a..][f]
      {
        assert k + a + f == k + (a + f);
      }
    }
  }

  lemma SilenceAppend(a: nat, b: nat)
    ensures seq(a, f => SILENCE) + seq(b, f => SILENCE) == seq(a + b, f => SILENCE)
  {
  }

  lemma VoicedAppend(running: bool, dma: seq<Wide>, k: nat, a: nat, b: nat)
    requires |dma| > 0
    ensures Voiced(running, dma, k, a) + Voiced(running, dma, if running then k + a else k, b)
         == Voiced(running, dma, k, a + b)
  {
    if running {
      PlayedAppend(dma, k, a, b);
    } else {
      SilenceAppend(a, b);
    }
  }

  /** The two-segment copy out of a circular buffer. */
  method CopyOut(dma: array<Wide>, ghost k: nat, p: nat, dst: array<Frame>, at: nat, n: nat)
    requires 0 < dma.Length && n <= dma.Length && p == Place(k, dma.Length) && at + n <= dst.Length
    modifies dst
    ensures dst[..at + n] == old(dst[..at]) + Played(dma[..], k, n)
  {
    var first := n;
    if p + n > dma.Length {
      first := dma.Length - p;
    }
    NarrowSegment(dma, p, dst, at, first);
    NarrowSegment(dma, 0, dst, at + first, n - first);
    SegmentsJoin(dma[..], k, p, n, first, old(dst[..at]));
  }

  lemma SegmentsJoin(dma: seq<Wide>, k: nat, p: nat, n: nat, first: nat, before: seq<Frame>)
    requires 0 < |dma| && n <= |dma| && p == Place(k, |dma|) && first == FirstSegment(p, n, |dma|)
    ensures (before + Narrowed(dma[p..p + first])) + Narrowed(dma[0..n - first]) == before + Played(dma, k, n)
  {
    TwoSegments(dma, k, n);
    Associative(before, Narrowed(dma[p..p + first]), Narrowed(dma[..n - first]));
  }

  /** The two-segment copy into a circular buffer. */
  method CopyIn(src: seq<Frame>, dma: array<Wide>, p: nat)
    requires p < dma.Length && |src| <= dma.Length
    modifies dma
    ensures dma[..] == Recorded(old(dma[..]), p, src)
  {
    var first := |src|;
    if p + |src| > dma.Length {
      first := dma.Length - p;
    }
    WidenSegment(src[..first], dma, p);
    WidenSegment(src[first..], dma, 0);
  }

  /** One conditional subtraction brings the pointer back into the buffer. */
  method Advance(ghost k: nat, p: nat, n: nat, size: nat) returns (next: nat)
    requires 0 < size && n <= size && p == Place(k, size)
    ensures next == Place(k + n, size) < size
  {
    PlaceAhead(k, n, size);
    next := p + n;
    if next >= size {
      next := next - size;
    }
  }

  /** The first k slots of a transfer carry `total` frames of the stream, from frame `start` on without
      a gap. */
  ghost predicate Carries(buf: seq<Frame>, lens: seq<nat>, k: nat, total: nat, running: bool, dma: seq<Wide>,
                          start: nat)
    requires k <= |lens| && |buf| == 13 * |lens| && |dma| > 0
    requires forall i :: 0 <= i < |lens| ==> lens[i] <= 13
  {
    Unpacked(buf, lens, k) == Voiced(running, dma, start, total)
  }

  /** Filling one more slot appends its frames to what the transfer carries. */
  lemma PacketNext(before: seq<Frame>, after: seq<Frame>, lens: seq<nat>, k: nat, packet: seq<Frame>)
    requires |before| == |after| == 13 * |lens| && k < |lens| && forall i :: 0 <= i < |lens| ==> lens[i] <= 13
    requires after[..13 * k + lens[k]] == before[..13 * k] + packet
    ensures Unpacked(after, lens, k + 1) == Unpacked(before, lens, k) + packet
  {
    var a, n := 13 * k, lens[k];
    assert after[..a] == after[..a + n][..a] == before[..a];
    assert after[a..a + n] == after[..a + n][a..] == packet;
    UnpackedPrefix(before, after, lens, k);
  }

  lemma CarriesNext(before: seq<Frame>, after: seq<Frame>, lens: seq<nat>, k: nat, total: nat, running: bool,
                    dma: seq<Wide>, start: nat, first: nat)
    requires k < |lens| && |before| == |after| == 13 * |lens| && |dma| > 0
    requires forall i :: 0 <= i < |lens| ==> lens[i] <= 13
    requires Carries(before, lens, k, total, running, dma, start)
    requires first == if running then start + total else start
    requires after[..13 * k + lens[k]] == before[..13 * k] + Voiced(running, dma, first, lens[k])
    ensures Carries(after, lens, k + 1, total + lens[k], running, dma, start)
  {
    PacketNext(before, after, lens, k, Voiced(running, dma, first, lens[k]));
    VoicedAppend(running, dma, start, total, lens[k]);
  }

  /** k packets paced by the clock since accum0, described by their byte counts, and carrying the
      stream from frame `start` on. */
  ghost predicate Progress(buf: seq<Frame>, bytes: seq<nat>, accum: u32, played: nat, accum0: u32, rate: u32, k: nat,
                           running: bool, dma: seq<Wide>, start: nat)
    requires k <= 8 && |buf| == 13 * 8 && |dma| > 0
  {
    && accum == AccumAfter(accum0, rate, k)
    && played == start + (if running then TotalFrames(accum0, rate, k) else 0)
    && bytes == ByteCounts(accum0, rate, k)
    && Carries(buf, Lens(accum0, rate), k, TotalFrames(accum0, rate, k), running, dma, start)
  }

  lemma ProgressNext(before: seq<Frame>, after: seq<Frame>, bytes: seq<nat>, accum: u32, played: nat,
                     accum0: u32, rate: u32, k: nat, running: bool, dma: seq<Wide>, start: nat)
    requires k < 8 && |before| == |after| == 13 * 8 && |dma| > 0
    requires Progress(before, bytes, accum, played, accum0, rate, k, running, dma, start)
    requires var n := PacketFrames(accum, rate);
             after[..13 * k + n] == before[..13 * k] + Voiced(running, dma, played, n)
    ensures var n := PacketFrames(accum, rate);
            Progress(after, bytes + [6 * n], NextAccum(accum, rate), played + (if running then n else 0),
                     accum0, rate, k + 1, running, dma, start)
  {
    LensAt(accum0, rate, k);
    CarriesNext(before, after, Lens(accum0, rate), k, TotalFrames(accum0, rate, k), running, dma, start, played);
  }

  /** The k-th URB of a start, in the order playback 0, capture 0, playback 1, ...; 0 to 3 play. */
  function UrbAt(k: nat): nat { if k % 2 == 0 then k / 2 else NUM_URBS + k / 2 }

  ghost function FirstUrbs(n: nat): set<nat> {
    if n == 0 then {} else FirstUrbs(n - 1) + {UrbAt(n - 1)}
  }

  lemma FirstPair(i: nat)
    ensures FirstUrbs(2 * i + 1) == FirstUrbs(2 * i) + {i}
    ensures FirstUrbs(2 * (i + 1)) == FirstUrbs(2 * i + 1) + {NUM_URBS + i}
  {
    assert UrbAt(2 * i) == i && UrbAt(2 * i + 1) == NUM_URBS + i;
  }

  class Card {
    var currentRate: u32
    var accum: u32
    var streamRunning: bool
    var captureOpen: bool
    var captureRunning: bool
    var captureDma: array<Wide>
    var capturePtr: nat
    var playbackOpen: bool
    var playbackRunning: bool
    var playbackDma: array<Wide>
    var playbackPtr: nat

    /** Everything moved since the stream was prepared. */
    ghost var captured: seq<Frame>
    ghost var played: nat

    /** The URBs that USB holds. */
    ghost var flight: set<nat>

    ghost predicate Paced()
      reads this
    {
      (currentRate == 0 || Supported(currentRate)) && accum < 8000
    }

    ghost predicate PlaybackValid()
      reads this
    {
      && playbackDma.Length >= 16
      && playbackPtr == Place(played, playbackDma.Length)
    }

    ghost predicate CaptureValid()
      reads this, captureDma
    {
      && captureDma.Length >= 16
      && capturePtr == Place(|captured|, captureDma.Length)
      && Holds(captureDma[..], captured)
    }

    /** frames / 8000 of the pacing step; no packet of a supported rate exceeds 13 frames. */
    method Pace() returns (frames: nat)
      requires Paced()
      modifies this`accum
      ensures Paced() && accum == NextAccum(old(accum), currentRate)
      ensures frames == PacketFrames(old(accum), currentRate) <= 13
    {
      OnePacketUnclamped(accum, currentRate);
      accum := Wrap(accum + currentRate);
      frames := accum / 8000;
      accum := accum % 8000;
    }

    /** A packet's frames of the stream, and the pointer update. */
    method PlayFrames(urb: Urb, at: nat, frames: nat)
      requires PlaybackValid() && frames <= 13 && at + frames <= urb.buf.Length
      modifies this`playbackPtr, this`played, urb.buf
      ensures PlaybackValid() && played == old(played) + frames
      ensures urb.buf[..at + frames] == old(urb.buf[..at]) + Played(playbackDma[..], old(played), frames)
    {
      CopyOut(playbackDma, played, playbackPtr, urb.buf, at, frames);
      playbackPtr := Advance(played, playbackPtr, frames, playbackDma.Length);
      played := played + frames;
    }

    /** Zeroes a packet that has no stream behind it. */
    method Clear(urb: Urb, at: nat, frames: nat)
      requires at + frames <= urb.buf.Length
      modifies urb.buf
      ensures urb.buf[..at + frames] == old(urb.buf[..at]) + seq(frames, f => SILENCE)
    {
      forall s | at <= s < at + frames {
        urb.buf[s] := SILENCE;
      }
    }

    predicate Playing()
      reads this
    {
      playbackRunning && playbackOpen
    }

    predicate Capturing()
      reads this
    {
      captureRunning && captureOpen
    }

    /** A packet's slot: zeroed, then the stream's frames if there is one. */
    method FillSlot(urb: Urb, at: nat, frames: nat)
      requires PlaybackValid() && frames <= 13 && at + frames <= urb.buf.Length
      modifies this`playbackPtr, this`played, urb.buf
      ensures PlaybackValid() && played == old(played) + if Playing() then frames else 0
      ensures urb.buf[..at + frames] == old(urb.buf[..at]) + Voiced(Playing(), playbackDma[..], old(played), frames)
    {
      ghost var before := urb.buf[..at];
      Clear(urb, at, frames);
      if Playing() {
        assert urb.buf[..at] == before;
        PlayFrames(urb, at, frames);
      }
    }

    method Describe(urb: Urb, i: nat, bytes: nat)
      requires i < urb.length.Length
      modifies urb.length
      ensures urb.length[..i + 1] == old(urb.length[..i]) + [bytes]
    {
      urb.length[i] := bytes;
    }

    /** One playback packet: paced, then filled. */
    method PlayPacket(urb: Urb, i: nat) returns (frames: nat)
      requires Paced() && PlaybackValid() && urb.Shaped() && i < 8
      modifies this`accum, this`playbackPtr, this`played, urb.buf, urb.length
      ensures Paced() && PlaybackValid()
      ensures accum == NextAccum(old(accum), currentRate) && frames == PacketFrames(old(accum), currentRate) <= 13
      ensures played == old(played) + if Playing() then frames else 0
      ensures urb.length[..i + 1] == old(urb.length[..i]) + [6 * frames]
      ensures urb.buf[..13 * i + frames]
           == old(urb.buf[..13 * i]) + Voiced(Playing(), playbackDma[..], old(played), frames)
    {
      frames := Pace();
      Describe(urb, i, 6 * frames);
      FillSlot(urb, 13 * i, frames);
    }

    /** i packets of a transfer are done, carrying the stream from frame `start` on. */
    ghost predicate Filled(urb: Urb, i: nat, accum0: u32, start: nat)
      requires playbackDma.Length > 0
      reads this, urb, urb.buf, urb.length, playbackDma
    {
      && Paced() && PlaybackValid() && urb.Shaped() && i <= 8
      && Progress(urb.buf[..], urb.length[..i], accum, played,
                  accum0, currentRate, i, Playing(), playbackDma[..], start)
    }

    method FillNext(urb: Urb, i: nat, ghost accum0: u32, ghost start: nat)
      requires playbackDma.Length > 0 && Filled(urb, i, accum0, start) && i < 8
      modifies this`accum, this`playbackPtr, this`played, urb.buf, urb.length
      ensures Filled(urb, i + 1, accum0, start)
    {
      ghost var first, before, accum1, bytes := played, urb.buf[..], accum, urb.length[..i];
      var frames := PlayPacket(urb, i);
      assert urb.buf[..][..13 * i + frames] == urb.buf[..13 * i + frames];
      ProgressNext(before, urb.buf[..], bytes, accum1, first, accum0, currentRate, i, Playing(), playbackDma[..],
                   start);
    }

    /** The playback completion handler. A killed transfer, or one that returns after the stream
        stopped, is left alone; otherwise it is refilled and resubmitted. */
    method PlaybackComplete(urb: Urb, status: Status, ghost id: nat, ghost accepted: bool) returns (resubmit: bool)
      requires Paced() && PlaybackValid() && urb.Shaped() && id in flight
      modifies this`accum, this`playbackPtr, this`played, this`flight, urb.buf, urb.length
      ensures Paced() && PlaybackValid()
      ensures resubmit <==> status == Done && streamRunning
      ensures flight == if resubmit && accepted then old(flight) else old(flight) - {id}
      ensures !resubmit ==> accum == old(accum) && played == old(played) && unchanged(urb.buf) && unchanged(urb.length)
      ensures resubmit ==> Filled(urb, 8, old(accum), old(played))
      ensures resubmit && Playing()
          ==> Unpacked(urb.buf[..], Lens(old(accum), currentRate), 8)
              == Played(playbackDma[..], old(played), TotalFrames(old(accum), currentRate, 8))
      ensures resubmit && !Playing()
          ==> forall i :: 0 <= i < TotalFrames(old(accum), currentRate, 8)
                ==> Unpacked(urb.buf[..], Lens(old(accum), currentRate), 8)[i] == SILENCE
    {
      resubmit := status == Done && streamRunning;
      flight := if resubmit && accepted then flight else flight - {id};
      if !resubmit {
        return;
      }
      ghost var accum0, start := accum, played;
      var i := 0;
      while i < 8
        invariant i <= 8 && Filled(urb, i, accum0, start)
        modifies this`accum, this`playbackPtr, this`played, urb.buf, urb.length
      {
        FillNext(urb, i, accum0, start);
        i := i + 1;
      }
    }

    /** One captured packet, written at the pointer. */
    method Record(frames: seq<Frame>)
      requires CaptureValid() && |frames| <= 13
      modifies this`capturePtr, this`captured, captureDma
      ensures CaptureValid() && captured == old(captured) + frames
    {
      RecordKeepsHolds(captureDma[..], captured, frames);
      CopyIn(frames, captureDma, capturePtr);
      capturePtr := Advance(|captured|, capturePtr, |frames|, captureDma.Length);
      captured := captured + frames;
    }

    method RecordPacket(urb: Urb, i: nat)
      requires CaptureValid() && urb.Shaped() && i < 8 && urb.length[i] <= 78
      modifies this`capturePtr, this`captured, captureDma
      ensures CaptureValid() && captured == old(captured) + urb.buf[13 * i..13 * i + urb.length[i] / 6]
    {
      var len := urb.length[i];
      if len >= 6 {
        Record(urb.buf[13 * i..13 * i + len / 6]);
      }
    }

    method RecordPackets(urb: Urb, ghost buf: seq<Frame>, ghost bytes: seq<nat>)
      requires CaptureValid() && Received(urb) && urb.buf[..] == buf && urb.length[..] == bytes
      modifies this`capturePtr, this`captured, captureDma
      ensures CaptureValid() && Received(urb)
      ensures captured == old(captured) + Unpacked(buf, FrameCounts(bytes), 8)
    {
      ghost var before := captured;
      var i := 0;
      while i < 8
        invariant i <= 8 && CaptureValid() && Received(urb) && urb.buf[..] == buf && urb.length[..] == bytes
        invariant captured == before + Unpacked(buf, FrameCounts(bytes), i)
      {
        Associative(before, Unpacked(buf, FrameCounts(bytes), i), buf[13 * i..13 * i + bytes[i] / 6]);
        RecordPacket(urb, i);
        i := i + 1;
      }
    }

    /** The isochronous contract: no packet exceeds the 78 bytes asked for. */
    ghost predicate Received(urb: Urb)
      reads urb.length
    {
      urb.Shaped() && forall i :: 0 <= i < 8 ==> urb.length[i] <= 78
    }

    /** Asks for full packets again. */
    method Rearm(urb: Urb)
      requires urb.Shaped()
      modifies urb.length
      ensures forall i :: 0 <= i < 8 ==> urb.length[i] == 78
    {
      forall i | 0 <= i < 8 {
        urb.length[i] := 78;
      }
    }

    /** The capture completion handler: the whole frames of every packet join the capture. */
    method CaptureComplete(urb: Urb, status: Status, ghost id: nat, ghost accepted: bool) returns (resubmit: bool)
      requires CaptureValid() && Received(urb) && id in flight
      modifies this`capturePtr, this`captured, this`flight, captureDma, urb.length
      ensures CaptureValid() && Received(urb)
      ensures resubmit <==> status == Done && streamRunning
      ensures flight == if resubmit && accepted then old(flight) else old(flight) - {id}
      ensures resubmit && Capturing()
          ==> captured == old(captured) + Unpacked(old(urb.buf[..]), FrameCounts(old(urb.length[..])), 8)
      ensures !(resubmit && Capturing()) ==> captured == old(captured)
      ensures forall i :: 0 <= i < 8 ==> urb.length[i] == if resubmit then 78 else old(urb.length[i])
    {
      resubmit := status == Done && streamRunning;
      flight := if resubmit && accepted then flight else flight - {id};
      if !resubmit {
        return;
      }
      if Capturing() {
        RecordPackets(urb, urb.buf[..], urb.length[..]);
      }
      Rearm(urb);
    }

    /** The rate is refused while the stream runs, and changes only when the device took it. */
    method SetRate(rate: u32, usbOk: bool) returns (result: SetRateResult)
      requires Paced()
      modifies this`currentRate, this`accum
      ensures Paced()
      ensures streamRunning ==> result == if rate == old(currentRate) then Unchanged else Busy
      ensures !streamRunning
          ==> (result == Invalid <==> rate != 44100 && rate != 48000 && rate != 88200 && rate != 96000)
      ensures !streamRunning && result != Invalid ==> result == if usbOk then Set else UsbError
      ensures result == Set ==> currentRate == rate && accum == 0
      ensures result != Set ==> currentRate == old(currentRate) && accum == old(accum)
    {
      if streamRunning {
        return if currentRate == rate then Unchanged else Busy;
      }
      if !(rate == 44100 || rate == 48000 || rate == 88200 || rate == 96000) {
        return Invalid;
      }
      if !usbOk {
        return UsbError;
      }
      currentRate, accum := rate, 0;
      return Set;
    }

    /** Opening a substream; its circular buffer arrives with the hardware parameters. */
    method Open(stream: Stream)
      modifies this`captureOpen, this`playbackOpen
      ensures captureOpen == (old(captureOpen) || stream == Capture)
      ensures playbackOpen == (old(playbackOpen) || stream == Playback)
    {
      if stream == Capture {
        captureOpen := true;
      } else {
        playbackOpen := true;
      }
    }

    /** Preparing a stream restarts its position in the given buffer, of two periods or more. */
    method PrepareCapture(dma: array<Wide>)
      requires dma.Length >= 16
      modifies this`captureDma, this`capturePtr, this`captured
      ensures CaptureValid() && captureDma == dma && capturePtr == 0 && captured == []
    {
      PlaceZero(dma.Length);
      captureDma, capturePtr, captured := dma, 0, [];
    }

    method PreparePlayback(dma: array<Wide>)
      requires dma.Length >= 16 && Paced()
      modifies this`playbackDma, this`playbackPtr, this`played, this`accum
      ensures PlaybackValid() && Paced() && playbackDma == dma && playbackPtr == 0 && played == 0
      ensures accum == if streamRunning then old(accum) else 0
    {
      PlaceZero(dma.Length);
      playbackDma, playbackPtr, played := dma, 0, 0;
      if !streamRunning {
        accum := 0;
      }
    }

    /** Starting a stream submits all eight URBs if the transfers are not running; the first
        `accepted` of them succeed, and stay in flight even when the next one is refused. */
    method Start(stream: Stream, accepted: nat) returns (ok: bool)
      modifies this`streamRunning, this`captureRunning, this`playbackRunning, this`flight
      ensures flight == old(flight) + if old(streamRunning) then {} else FirstUrbs(Min(accepted, 8))
      ensures captureRunning == (old(captureRunning) || stream == Capture)
      ensures playbackRunning == (old(playbackRunning) || stream == Playback)
      ensures ok == streamRunning == (old(streamRunning) || accepted >= 8)
    {
      if stream == Capture {
        captureRunning := true;
      } else {
        playbackRunning := true;
      }
      if !streamRunning {
        streamRunning := true;
        var i := 0;
        while i < 4
          invariant i <= 4 && 2 * i <= accepted && streamRunning
          invariant flight == old(flight) + FirstUrbs(2 * i)
          modifies this`streamRunning, this`flight
        {
          FirstPair(i);
          if accepted == 2 * i {  // the playback URB is refused
            streamRunning := false;
            return false;
          }
          flight := flight + {i};
          if accepted == 2 * i + 1 {  // the capture URB is refused
            streamRunning := false;
            return false;
          }
          flight := flight + {4 + i};
          i := i + 1;
        }
      }
      ok := true;
    }

    method Stop(stream: Stream)
      modifies this`captureRunning, this`playbackRunning
      ensures captureRunning == (old(captureRunning) && stream != Capture)
      ensures playbackRunning == (old(playbackRunning) && stream != Playback)
    {
      if stream == Capture {
        captureRunning := false;
      } else {
        playbackRunning := false;
      }
    }

    /** The transfers stop only once both substreams are closed; what is in flight then comes back
        through the completion handlers. */
    method Close(stream: Stream)
      modifies this`streamRunning, this`captureOpen, this`captureRunning, this`playbackOpen, this`playbackRunning
      ensures captureOpen == (old(captureOpen) && stream != Capture)
      ensures captureRunning == (old(captureRunning) && stream != Capture)
      ensures playbackOpen == (old(playbackOpen) && stream != Playback)
      ensures playbackRunning == (old(playbackRunning) && stream != Playback)
      ensures streamRunning == (old(streamRunning) && (captureOpen || playbackOpen))
    {
      if stream == Capture {
        captureOpen, captureRunning := false, false;
      } else {
        playbackOpen, playbackRunning := false, false;
      }
      if !captureOpen && !playbackOpen {
        streamRunning := false;
      }
    }

    /** The hardware pointer is the total moved since prepare, modulo the buffer size. */
    method Pointer(stream: Stream) returns (p: nat)
      requires CaptureValid() && PlaybackValid()
      ensures stream == Capture ==> p == Place(|captured|, captureDma.Length)
      ensures stream == Playback ==> p == Place(played, playbackDma.Length)
    {
      p := if stream == Capture then capturePtr else playbackPtr;
    }
  }

  /** Whole frames in each packet's byte count. */
  function FrameCounts(bytes: seq<nat>): (lens: seq<nat>)
    requires forall i :: 0 <= i < |bytes| ==> bytes[i] <= 78
    ensures |lens| == |bytes| && forall i :: 0 <= i < |lens| ==> lens[i] == bytes[i] / 6 <= 13
  {
    seq(|bytes|, i requires 0 <= i < |bytes| => bytes[i] / 6)
  }

  function ByteCounts(accum: u32, rate: u32, k: nat): (bytes: seq<nat>)
    ensures |bytes| == k
  {
    if k == 0 then [] else ByteCounts(accum, rate, k - 1) + [6 * FramesOf(accum, rate, k - 1)]
  }
}
