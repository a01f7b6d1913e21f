/** The pacing accumulator that every playback path shares: each 125 us packet adds the sample
    rate, emits the whole 8000ths as frames and keeps the remainder. */
module Pacing {
  import opened Numbers

  /** 78 bytes a packet, 6 bytes a frame. */
  const MAX_PACKET_FRAMES := 13

  /** The fastest rate whose packets always fit in 78 bytes. */
  const FASTEST_UNCLAMPED := 104000

  predicate Supported(rate: u32) {
    rate == 44100 || rate == 48000 || rate == 88200 || rate == 96000
  }

  function NextAccum(accum: u32, rate: u32): u32 { Wrap(accum + rate) % 8000 }

  /** Frames the clock asks for in one packet, before the size clamp. */
  function Due(accum: u32, rate: u32): nat { Wrap(accum + rate) / 8000 }

  function PacketFrames(accum: u32, rate: u32): (n: nat)
    ensures n <= MAX_PACKET_FRAMES
  {
    var frames := Due(accum, rate);
    if frames * 6 > 78 then 78 / 6 else frames
  }

  function AccumAfter(accum: u32, rate: u32, k: nat): u32 {
    if k == 0 then accum else NextAccum(AccumAfter(accum, rate, k - 1), rate)
  }

  /** Frames sent in packet i of a run that starts with the given accumulator. */
  function FramesOf(accum: u32, rate: u32, i: nat): (n: nat)
    ensures n <= MAX_PACKET_FRAMES
  {
    PacketFrames(AccumAfter(accum, rate, i), rate)
  }

  function TotalFrames(accum: u32, rate: u32, k: nat): nat {
    if k == 0 then 0 else TotalFrames(accum, rate, k - 1) + FramesOf(accum, rate, k - 1)
  }

  function TotalDue(accum: u32, rate: u32, k: nat): nat {
    if k == 0 then 0 else TotalDue(accum, rate, k - 1) + Due(AccumAfter(accum, rate, k - 1), rate)
  }

  lemma OnePacket(before: nat, rate: u32)
    requires rate <= 0xFFFF_E0C0
    ensures NextAccum(before % 8000, rate) == (before + rate) % 8000
    ensures before / 8000 + Due(before % 8000, rate) == (before + rate) / 8000
  {
    assert Wrap(before % 8000 + rate) == before % 8000 + rate;
  }

  /** Exact bookkeeping of the unclamped clock for any rate that cannot wrap the word. */
  lemma {:induction false} DueIsExact(accum: u32, rate: u32, k: nat)
    requires accum < 8000
    requires rate <= 0xFFFF_E0C0
    ensures AccumAfter(accum, rate, k) == (accum + k * rate) % 8000
    ensures TotalDue(accum, rate, k) == (accum + k * rate) / 8000
  {
    if k == 0 {
    } else {
      DueIsExact(accum, rate, k - 1);
      var before := accum + (k - 1) * rate;
      assert accum + k * rate == before + rate by {
        assert k * rate == (k - 1) * rate + rate;
      }
      OnePacket(before, rate);
    }
  }

  lemma OnePacketUnclamped(accum: u32, rate: u32)
    requires accum < 8000 && rate <= FASTEST_UNCLAMPED
    ensures NextAccum(accum, rate) < 8000
    ensures PacketFrames(accum, rate) == Due(accum, rate) <= MAX_PACKET_FRAMES
  {
    assert Wrap(accum + rate) < 112000;
  }

  lemma {:induction false} AccumInRange(accum: u32, rate: u32, k: nat)
    requires accum < 8000 && rate <= FASTEST_UNCLAMPED
    ensures AccumAfter(accum, rate, k) < 8000
  {
    if k == 0 {
    } else {
      AccumInRange(accum, rate, k - 1);
      OnePacketUnclamped(AccumAfter(accum, rate, k - 1), rate);
    }
  }

  /** At or below 104000 Hz the 78-byte clamp never acts, so the totals sent are the totals due. */
  lemma {:induction false} ClampNeverActs(accum: u32, rate: u32, k: nat)
    requires accum < 8000 && rate <= FASTEST_UNCLAMPED
    ensures FramesOf(accum, rate, k) == Due(AccumAfter(accum, rate, k), rate) <= MAX_PACKET_FRAMES
    ensures TotalFrames(accum, rate, k) == TotalDue(accum, rate, k)
  {
    AccumInRange(accum, rate, k);
    OnePacketUnclamped(AccumAfter(accum, rate, k), rate);
    if k == 0 {
    } else {
      ClampNeverActs(accum, rate, k - 1);
    }
  }

  /** Pacing law: k packets from any accumulator carry exactly floor((accum + k*rate) / 8000)
      frames, and the accumulator is what is left over. */
  lemma PacingIsExact(accum: u32, rate: u32, k: nat)
    requires accum < 8000
    requires rate <= FASTEST_UNCLAMPED
    ensures TotalFrames(accum, rate, k) == (accum + k * rate) / 8000
    ensures AccumAfter(accum, rate, k) == (accum + k * rate) % 8000
  {
    DueIsExact(accum, rate, k);
    ClampNeverActs(accum, rate, k);
  }

  /** Any 8000 consecutive packets, wherever they start, carry exactly one second of frames. */
  lemma AnySecondIsExact(accum: u32, rate: u32, k: nat)
    requires accum < 8000
    requires rate <= FASTEST_UNCLAMPED
    ensures TotalFrames(accum, rate, k + 8000) - TotalFrames(accum, rate, k) == rate
  {
    PacingIsExact(accum, rate, k);
    PacingIsExact(accum, rate, k + 8000);
    assert (k + 8000) * rate == k * rate + 8000 * rate;
  }

  /** No packet among the first k asks for more than one packet can carry. */
  ghost predicate Fits(accum: u32, rate: u32, k: nat) {
    forall i: nat :: i < k ==> Due(AccumAfter(accum, rate, i), rate) <= MAX_PACKET_FRAMES
  }

  lemma {:induction false} DueBounded(accum: u32, rate: u32, k: nat)
    requires Fits(accum, rate, k)
    ensures TotalDue(accum, rate, k) <= MAX_PACKET_FRAMES * k
  {
    if k == 0 {
    } else {
      DueBounded(accum, rate, k - 1);
    }
  }

  /** The clamp is idle exactly up to 104000 Hz: above it some packet of the first second is cut. */
  lemma ClampIdleIff(rate: u32)
    requires rate <= 0xFFFF_E0C0
    ensures rate <= FASTEST_UNCLAMPED <==> Fits(0, rate, 8000)
  {
    if rate <= FASTEST_UNCLAMPED {
      forall i: nat | i < 8000
        ensures Due(AccumAfter(0, rate, i), rate) <= MAX_PACKET_FRAMES
      {
        ClampNeverActs(0, rate, i);
      }
    } else if Fits(0, rate, 8000) {
      DueBounded(0, rate, 8000);
      DueIsExact(0, rate, 8000);
    }
  }
}
