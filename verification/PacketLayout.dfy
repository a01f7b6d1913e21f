/** Where packet data must lie in a transfer buffer. The host controller finds packet i at the sum
    of the lengths before it; the layout experiment packs either tightly at that running sum or
    strided at 78 bytes, 13 frames, a packet. */
module PacketLayout {
  import opened Numbers
  import opened Sequences
  import opened DeviceFrames
  import opened Pacing

  /** Packet lengths in frames, each within the 78-byte limit. */
  ghost predicate Fit(lens: seq<nat>) {
    forall i :: 0 <= i < |lens| ==> lens[i] <= 13
  }

  /** Frames in the first i packets. */
  function Prefix(lens: seq<nat>, i: nat): nat
    requires i <= |lens|
  {
    if i == 0 then 0 else Prefix(lens, i - 1) + lens[i - 1]
  }

  function Offset(lens: seq<nat>, tight: bool, i: nat): nat
    requires i <= |lens|
  {
    if tight then Prefix(lens, i) else 13 * i
  }

  lemma {:induction false} PrefixBounds(lens: seq<nat>, i: nat, k: nat)
    requires i <= k <= |lens| && Fit(lens)
    ensures Prefix(lens, i) <= Prefix(lens, k) <= Prefix(lens, i) + 13 * (k - i)
  {
    if i == k {
    } else {
      PrefixBounds(lens, i, k - 1);
    }
  }

  function Write(buf: seq<Frame>, at: nat, frames: seq<Frame>): (out: seq<Frame>)
    requires at + |frames| <= |buf|
    ensures |out| == |buf|
    ensures forall s :: 0 <= s < |buf|
              ==> out[s] == if at <= s < at + |frames| then frames[s - at] else buf[s]
  {
    seq(|buf|, s requires 0 <= s < |buf| => if at <= s < at + |frames| then frames[s - at] else buf[s])
  }

  /** The frames of packet i in the payload. */
  function Frames(lens: seq<nat>, payload: seq<Frame>, i: nat): (frames: seq<Frame>)
    requires i < |lens| && Prefix(lens, i) + lens[i] <= |payload|
    ensures |frames| == lens[i]
    ensures forall f :: 0 <= f < lens[i] ==> frames[f] == payload[Prefix(lens, i) + f]
  {
    payload[Prefix(lens, i)..Prefix(lens, i) + lens[i]]
  }

  ghost predicate Sized(buf: seq<Frame>, lens: seq<nat>, payload: seq<Frame>) {
    Fit(lens) && |buf| == 13 * |lens| && |payload| == Prefix(lens, |lens|)
  }

  /** The buffer after the first k packets of the payload were placed over its old contents. */
  ghost function Packed(buf: seq<Frame>, lens: seq<nat>, tight: bool, payload: seq<Frame>, k: nat): (out: seq<Frame>)
    requires Sized(buf, lens, payload) && k <= |lens|
    ensures |out| == |buf|
  {
    if k == 0 then buf
    else
      PrefixBounds(lens, 0, k);
      PrefixBounds(lens, k, |lens|);
      Write(Packed(buf, lens, tight, payload, k - 1), Offset(lens, tight, k - 1), Frames(lens, payload, k - 1))
  }

  /** What the controller sends: packet after packet, each found at its prefix sum. */
  ghost function Decoded(buf: seq<Frame>, lens: seq<nat>, k: nat): seq<Frame>
    requires k <= |lens| && Fit(lens) && |buf| == 13 * |lens|
  {
    if k == 0 then []
    else
      PrefixBounds(lens, 0, k);
      Decoded(buf, lens, k - 1) + buf[Prefix(lens, k - 1)..Prefix(lens, k)]
  }

  lemma {:induction false} DecodedIsFront(buf: seq<Frame>, lens: seq<nat>, k: nat)
    requires k <= |lens| && Fit(lens) && |buf| == 13 * |lens|
    ensures Prefix(lens, k) <= |buf|
    ensures Decoded(buf, lens, k) == buf[..Prefix(lens, k)]
  {
    PrefixBounds(lens, 0, k);
    if k == 0 {
    } else {
      DecodedIsFront(buf, lens, k - 1);
      AdjacentSlices(buf, Prefix(lens, k - 1), lens[k - 1]);
    }
  }

  lemma {:induction false} TightSlot(buf: seq<Frame>, lens: seq<nat>, payload: seq<Frame>, k: nat, q: nat)
    requires Sized(buf, lens, payload) && k <= |lens| && q < Prefix(lens, k)
    ensures Prefix(lens, k) <= |payload| <= |buf|
    ensures Packed(buf, lens, true, payload, k)[q] == payload[q]
  {
    PrefixBounds(lens, k, |lens|);
    PrefixBounds(lens, 0, |lens|);
    if q < Prefix(lens, k - 1) {
      TightSlot(buf, lens, payload, k - 1, q);
    } else {
      assert Frames(lens, payload, k - 1)[q - Prefix(lens, k - 1)] == payload[q];
    }
  }

  /** The tight layout always round-trips: the controller sends exactly the frames packed,
      whatever the packet lengths and whatever the buffer held before. */
  lemma TightRoundTrip(buf: seq<Frame>, lens: seq<nat>, payload: seq<Frame>)
    requires Sized(buf, lens, payload)
    ensures Decoded(Packed(buf, lens, true, payload, |lens|), lens, |lens|) == payload
  {
    var out := Packed(buf, lens, true, payload, |lens|);
    DecodedIsFront(out, lens, |lens|);
    forall q | 0 <= q < |payload|
      ensures out[q] == payload[q]
    {
      TightSlot(buf, lens, payload, |lens|, q);
    }
  }

  lemma StridedStep(before: seq<Frame>, frames: seq<Frame>, i: nat, j: nat, f: nat)
    requires |frames| <= 13 && f < 13
    requires 13 * i + 13 <= |before| && 13 * j + 13 <= |before|
    ensures Write(before, 13 * i, frames)[13 * j + f]
         == if j == i && f < |frames| then frames[f] else before[13 * j + f]
  {
  }

  /** What slot f of packet j's stride holds: the packet's frame, or what was there before. */
  function StridedFrame(buf: seq<Frame>, lens: seq<nat>, payload: seq<Frame>, k: nat, j: nat, f: nat): Frame
    requires j < |lens| && f < 13 && 13 * j + f < |buf|
    requires f < lens[j] ==> Prefix(lens, j) + f < |payload|
  {
    if j < k && f < lens[j] then payload[Prefix(lens, j) + f] else buf[13 * j + f]
  }

  lemma FrameInPayload(buf: seq<Frame>, lens: seq<nat>, payload: seq<Frame>, j: nat, f: nat)
    requires Sized(buf, lens, payload) && j < |lens| && f < 13
    ensures 13 * j + f < |buf|
    ensures f < lens[j] ==> Prefix(lens, j) + f < |payload|
  {
    PrefixBounds(lens, j + 1, |lens|);
  }

  lemma NextStride(before: seq<Frame>, buf: seq<Frame>, lens: seq<nat>, payload: seq<Frame>, i: nat, j: nat, f: nat)
    requires Sized(buf, lens, payload) && i < |lens| && j < |lens| && f < 13 && |before| == |buf|
    requires Prefix(lens, i) + lens[i] <= |payload|
    requires 13 * j + f < |buf| && (f < lens[j] ==> Prefix(lens, j) + f < |payload|)
    requires before[13 * j + f] == StridedFrame(buf, lens, payload, i, j, f)
    ensures Write(before, 13 * i, Frames(lens, payload, i))[13 * j + f] == StridedFrame(buf, lens, payload, i + 1, j, f)
  {
    StridedStep(before, Frames(lens, payload, i), i, j, f);
  }

  lemma {:induction false} StridedSlot(buf: seq<Frame>, lens: seq<nat>, payload: seq<Frame>, k: nat, j: nat, f: nat)
    requires Sized(buf, lens, payload) && k <= |lens| && j < |lens| && f < 13
    ensures 13 * j + f < |buf|
    ensures f < lens[j] ==> Prefix(lens, j) + f < |payload|
    ensures Packed(buf, lens, false, payload, k)[13 * j + f] == StridedFrame(buf, lens, payload, k, j, f)
  {
    FrameInPayload(buf, lens, payload, j, f);
    if k == 0 {
    } else {
      StridedSlot(buf, lens, payload, k - 1, j, f);
      PrefixBounds(lens, k, |lens|);
      NextStride(Packed(buf, lens, false, payload, k - 1), buf, lens, payload, k - 1, j, f);
    }
  }

  /** Every non-empty packet happens to start where the controller looks for it. */
  ghost predicate Aligned(lens: seq<nat>) {
    forall i :: 0 <= i < |lens| && lens[i] > 0 ==> Prefix(lens, i) == 13 * i
  }

  function PacketOf(lens: seq<nat>, q: nat, k: nat): (i: nat)
    requires k <= |lens| && q < Prefix(lens, k)
    ensures i < k && Prefix(lens, i) <= q < Prefix(lens, i) + lens[i]
  {
    if q >= Prefix(lens, k - 1) then k - 1 else PacketOf(lens, q, k - 1)
  }

  ghost predicate StridedRoundTrips(lens: seq<nat>)
    requires Fit(lens)
  {
    forall buf, payload :: Sized(buf, lens, payload)
      ==> Decoded(Packed(buf, lens, false, payload, |lens|), lens, |lens|) == payload
  }

  lemma AlignedRoundTrip(buf: seq<Frame>, lens: seq<nat>, payload: seq<Frame>)
    requires Sized(buf, lens, payload) && Aligned(lens)
    ensures Decoded(Packed(buf, lens, false, payload, |lens|), lens, |lens|) == payload
  {
    var out := Packed(buf, lens, false, payload, |lens|);
    DecodedIsFront(out, lens, |lens|);
    PrefixBounds(lens, 0, |lens|);
    forall q | 0 <= q < |payload|
      ensures out[q] == payload[q]
    {
      AlignedSlot(buf, lens, payload, q);
    }
  }

  lemma AlignedSlot(buf: seq<Frame>, lens: seq<nat>, payload: seq<Frame>, q: nat)
    requires Sized(buf, lens, payload) && Aligned(lens) && q < |payload| && q < |buf|
    ensures Packed(buf, lens, false, payload, |lens|)[q] == payload[q]
  {
    var i := PacketOf(lens, q, |lens|);
    StridedSlot(buf, lens, payload, |lens|, i, q - 13 * i);
  }

  const TONE := Frame(Dev3(0, 0, 1), Dev3(0, 0, 1))

  function Quiet(n: nat): (frames: seq<Frame>)
    ensures |frames| == n && forall i :: 0 <= i < n ==> frames[i] == SILENCE
  {
    seq(n, _ => SILENCE)
  }

  /** A misaligned packet's first frame is never sent from its own place. */
  lemma MisalignedLosesAFrame(lens: seq<nat>, i: nat)
    requires Fit(lens) && i < |lens| && lens[i] > 0 && Prefix(lens, i) != 13 * i
    ensures Prefix(lens, i) < Prefix(lens, |lens|)
    ensures var buf, payload := Quiet(13 * |lens|), Quiet(Prefix(lens, |lens|))[Prefix(lens, i) := TONE];
            && Sized(buf, lens, payload)
            && Decoded(Packed(buf, lens, false, payload, |lens|), lens, |lens|) != payload
  {
    PrefixBounds(lens, 0, i);
    PrefixBounds(lens, i + 1, |lens|);
    PrefixBounds(lens, 0, |lens|);
    var p := Prefix(lens, i);
    var buf, payload := Quiet(13 * |lens|), Quiet(Prefix(lens, |lens|))[p := TONE];
    assert p < 13 * i;
    MisalignedSlot(lens, i, buf, payload, p / 13, p % 13);
    DecodedIsFront(Packed(buf, lens, false, payload, |lens|), lens, |lens|);
    assert Decoded(Packed(buf, lens, false, payload, |lens|), lens, |lens|)[p] == SILENCE;
  }

  /** The slot it is sent from lies in an earlier packet's stride, and holds an earlier frame or
      old contents. */
  lemma MisalignedSlot(lens: seq<nat>, i: nat, buf: seq<Frame>, payload: seq<Frame>, j: nat, f: nat)
    requires Sized(buf, lens, payload) && j < i < |lens| && f < 13
    requires Prefix(lens, i) == 13 * j + f
    requires forall s :: 0 <= s < |buf| ==> buf[s] == SILENCE
    requires forall q :: 0 <= q < |payload| && q != Prefix(lens, i) ==> payload[q] == SILENCE
    ensures Prefix(lens, i) < |buf|
    ensures Packed(buf, lens, false, payload, |lens|)[Prefix(lens, i)] == SILENCE
  {
    FrameInPayload(buf, lens, payload, j, f);
    EarlierIsSilent(lens, i, buf, payload, j, f);
    StridedSlot(buf, lens, payload, |lens|, j, f);
  }

  lemma EarlierIsSilent(lens: seq<nat>, i: nat, buf: seq<Frame>, payload: seq<Frame>, j: nat, f: nat)
    requires Fit(lens) && j < i < |lens| && f < 13 && 13 * j + f < |buf|
    requires f < lens[j] ==> Prefix(lens, j) + f < |payload|
    requires forall s :: 0 <= s < |buf| ==> buf[s] == SILENCE
    requires forall q :: 0 <= q < |payload| && q != Prefix(lens, i) ==> payload[q] == SILENCE
    ensures StridedFrame(buf, lens, payload, |lens|, j, f) == SILENCE
  {
    PrefixBounds(lens, j + 1, i);
  }

  /** The strided layout decodes correctly for all data exactly when every non-empty packet's
      prefix sum is its stride. */
  lemma StridedRoundTripsIff(lens: seq<nat>)
    requires Fit(lens)
    ensures StridedRoundTrips(lens) <==> Aligned(lens)
  {
    if Aligned(lens) {
      forall buf, payload | Sized(buf, lens, payload)
        ensures Decoded(Packed(buf, lens, false, payload, |lens|), lens, |lens|) == payload
      {
        AlignedRoundTrip(buf, lens, payload);
      }
    } else {
      var i :| 0 <= i < |lens| && lens[i] > 0 && Prefix(lens, i) != 13 * i;
      MisalignedLosesAFrame(lens, i);
    }
  }

  // ----- the layout experiment itself -----

  const RATE: u32 := 48000

  /** Frames of the next packet and the accumulator after it, in either mode. */
  function ModeFrames(constant: bool, accum: u32): (n: nat)
    ensures n <= 13
  {
    if constant then 36 / 6 else PacketFrames(accum, RATE)
  }

  function ModeAccum(constant: bool, accum: u32): u32 {
    if constant then accum else NextAccum(accum, RATE)
  }

  function AccumAt(constant: bool, accum: u32, i: nat): u32 {
    if i == 0 then accum else ModeAccum(constant, AccumAt(constant, accum, i - 1))
  }

  /** The packet lengths of a transfer of k packets. */
  function Lengths(constant: bool, accum: u32, k: nat): (lens: seq<nat>)
    ensures |lens| == k && Fit(lens)
    ensures forall i: nat :: i < k ==> lens[i] == ModeFrames(constant, AccumAt(constant, accum, i))
  {
    if k == 0 then [] else Lengths(constant, accum, k - 1) + [ModeFrames(constant, AccumAt(constant, accum, k - 1))]
  }

  /** In constant mode every packet has six frames; otherwise the packets are those of the clock at
      48000 Hz, so that k of them carry floor((accum + 48000 k) / 8000). */
  lemma LengthsFollowClock(accum: u32, k: nat)
    requires accum < 8000
    ensures forall i :: 0 <= i < k ==> Lengths(true, accum, k)[i] == 6
    ensures AccumAt(false, accum, k) == AccumAfter(accum, 48000, k)
    ensures Prefix(Lengths(false, accum, k), k) == (accum + 48000 * k) / 8000
  {
    PacingIsExact(accum, 48000, k);
    LengthsAreFrames(accum, k);
  }

  lemma {:induction false} LengthsAreFrames(accum: u32, k: nat)
    ensures AccumAt(false, accum, k) == AccumAfter(accum, 48000, k)
    ensures Prefix(Lengths(false, accum, k), k) == TotalFrames(accum, 48000, k)
  {
    if k == 0 {
    } else {
      LengthsAreFrames(accum, k - 1);
      PrefixOfMore(Lengths(false, accum, k - 1), ModeFrames(false, AccumAt(false, accum, k - 1)), k - 1);
    }
  }

  lemma {:induction false} PrefixOfMore(lens: seq<nat>, n: nat, i: nat)
    requires i <= |lens|
    ensures Prefix(lens + [n], i) == Prefix(lens, i)
  {
    if i == 0 {
    } else {
      PrefixOfMore(lens, n, i - 1);
    }
  }

  /** n consecutive frames of the tone. */
  function Tones(tone: nat -> Frame, from: nat, n: nat): (frames: seq<Frame>)
    ensures |frames| == n && forall i :: 0 <= i < n ==> frames[i] == tone(from + i)
  {
    seq(n, i requires 0 <= i < n => tone(from + i))
  }

  /** The test tone's packer: pacing accumulator and phase, counted in frames. */
  class Packer {
    const tone: nat -> Frame
    var accum: u32
    var phase: nat

    constructor (tone: nat -> Frame)
      ensures accum == 0 && phase == 0 && this.tone == tone
    {
      this.tone := tone;
      accum, phase := 0, 0;
    }

    method FramesThisPacket(constant: bool) returns (frames: nat)
      modifies this`accum
      ensures frames == if constant then 6 else Due(old(accum), RATE)
      ensures accum == ModeAccum(constant, old(accum)) == if constant then old(accum) else NextAccum(old(accum), RATE)
    {
      if constant {
        return 36 / 6;
      }
      accum := Wrap(accum + RATE);
      frames := accum / 8000;
      accum := accum % 8000;
    }

    /** The packet's frame count after the 78-byte clamp. */
    method NextPacket(constant: bool) returns (frames: nat)
      modifies this`accum
      ensures frames == ModeFrames(constant, old(accum)) && accum == ModeAccum(constant, old(accum))
    {
      frames := FramesThisPacket(constant);
      if frames * 6 > 78 {
        frames := 78 / 6;
      }
    }

    method RecordLength(lengths: array<nat>, i: nat, frames: nat)
      requires i < lengths.Length
      modifies lengths
      ensures lengths[..i + 1] == old(lengths[..i]) + [frames]
    {
      lengths[i] := frames;
    }

    /** One packet's frames of the tone, written from slot `at` on. */
    method WritePacket(buf: array<Frame>, at: nat, frames: nat)
      requires at + frames <= buf.Length
      modifies this`phase, buf
      ensures phase == old(phase) + frames
      ensures buf[..] == Write(old(buf[..]), at, Tones(tone, old(phase), frames))
    {
      ghost var before := buf[..];
      var f := 0;
      while f < frames
        invariant 0 <= f <= frames && phase == old(phase) + f
        invariant forall s :: 0 <= s < buf.Length
                    ==> buf[s] == if at <= s < at + f then tone(old(phase) + (s - at)) else before[s]
      {
        buf[at + f] := tone(phase);
        phase := phase + 1;
        f := f + 1;
      }
    }

    /** i packets of the payload are placed, their lengths recorded and the tone moved on. */
    ghost predicate Placed(buf: array<Frame>, lengths: array<nat>, old0: seq<Frame>, lens: seq<nat>, tight: bool,
                           constant: bool, accum0: u32, phase0: nat, i: nat, running: nat)
      requires |lens| == 16 && Fit(lens) && |old0| == 13 * 16
      reads this, buf, lengths
    {
      && i <= 16 && lengths.Length == 16 && accum == AccumAt(constant, accum0, i)
      && running == Prefix(lens, i) && phase == phase0 + running && lengths[..i] == lens[..i]
      && buf[..] == Packed(old0, lens, tight, Tones(tone, phase0, Prefix(lens, 16)), i)
    }

    method PlaceNext(buf: array<Frame>, lengths: array<nat>, tight: bool, constant: bool, i: nat, running: nat,
                     ghost old0: seq<Frame>, ghost lens: seq<nat>, ghost accum0: u32, ghost phase0: nat)
      returns (next: nat)
      requires i < 16 && lens == Lengths(constant, accum0, 16) && |old0| == 13 * 16
      requires Placed(buf, lengths, old0, lens, tight, constant, accum0, phase0, i, running)
      modifies this`accum, this`phase, buf, lengths
      ensures Placed(buf, lengths, old0, lens, tight, constant, accum0, phase0, i + 1, next)
    {
      var frames := NextPacket(constant);
      var at := if tight then running else 13 * i;
      PackNext(old0, lens, tight, tone, phase0, i, buf[..], at, frames, phase);
      WritePacket(buf, at, frames);
      RecordLength(lengths, i, frames);
      next := running + frames;
    }

    /** A whole transfer, tight or strided: the lengths follow the pacing clock and the buffer is
        the packed tone, continued from the last transfer. */
    method FillPlayback(buf: array<Frame>, lengths: array<nat>, tight: bool, constant: bool)
      requires buf.Length == 13 * 16 && lengths.Length == 16
      modifies this`accum, this`phase, buf, lengths
      ensures lengths[..] == Lengths(constant, old(accum), 16)
      ensures phase == old(phase) + Prefix(lengths[..], 16)
      ensures var payload := Tones(tone, old(phase), Prefix(lengths[..], 16));
              buf[..] == Packed(old(buf[..]), lengths[..], tight, payload, 16)
    {
      ghost var lens, old0, accum0, phase0 := Lengths(constant, accum, 16), buf[..], accum, phase;
      var running := 0;
      var i := 0;
      while i < 16
        invariant i <= 16 && Placed(buf, lengths, old0, lens, tight, constant, accum0, phase0, i, running)
      {
        running := PlaceNext(buf, lengths, tight, constant, i, running, old0, lens, accum0, phase0);
        i := i + 1;
      }
      assert lengths[..] == lengths[..16] == lens;
    }
  }

  /** Placing packet i of the tone is the next step of the packed buffer. */
  lemma PackNext(buf: seq<Frame>, lens: seq<nat>, tight: bool, tone: nat -> Frame, phase0: nat, i: nat,
                 now: seq<Frame>, at: nat, frames: nat, phase: nat)
    requires Fit(lens) && |buf| == 13 * |lens| && i < |lens|
    requires now == Packed(buf, lens, tight, Tones(tone, phase0, Prefix(lens, |lens|)), i)
    requires at == Offset(lens, tight, i) && frames == lens[i] && phase == phase0 + Prefix(lens, i)
    ensures at + frames <= |buf|
    ensures Write(now, at, Tones(tone, phase, frames))
         == Packed(buf, lens, tight, Tones(tone, phase0, Prefix(lens, |lens|)), i + 1)
  {
    PrefixBounds(lens, 0, i + 1);
    PrefixBounds(lens, i + 1, |lens|);
    assert Tones(tone, phase, frames) == Frames(lens, Tones(tone, phase0, Prefix(lens, |lens|)), i);
  }
}
