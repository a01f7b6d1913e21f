/** The plugin's I/O operations: ReadInput and WriteMix move frames between the shared rings and
    Core Audio buffers in chunks of at most 256. */
module PluginIo {
  import opened Numbers
  import opened Sequences
  import opened DeviceFrames
  import opened ShmRing

  /** A Core Audio stereo frame. How device samples map to it is a parameter. */
  type FloatFrame = (real, real)

  const QUIET: FloatFrame := (0.0, 0.0)

  function Zeros(n: nat): (z: seq<FloatFrame>)
    ensures |z| == n
  {
    if n == 0 then [] else Zeros(n - 1) + [QUIET]
  }

  function Mapped(convert: Frame -> FloatFrame, frames: seq<Frame>): (out: seq<FloatFrame>)
    ensures |out| == |frames|
  {
    if frames == [] then []
    else Mapped(convert, frames[..|frames| - 1]) + [convert(frames[|frames| - 1])]
  }

  /** What one ring read put into the client's buffer: the frames it got and the zeros behind them. */
  datatype Chunk = Chunk(frames: seq<Frame>, zeros: nat)

  function Size(c: Chunk): nat { |c.frames| + c.zeros }

  /** The frames of all chunks in order. */
  ghost function Joined(chunks: seq<Chunk>): seq<Frame> {
    if chunks == [] then [] else Joined(chunks[..|chunks| - 1]) + chunks[|chunks| - 1].frames
  }

  /** The buffer contents the chunks make up. */
  ghost function Poured(convert: Frame -> FloatFrame, chunks: seq<Chunk>): seq<FloatFrame> {
    if chunks == [] then []
    else
      var c := chunks[|chunks| - 1];
      Poured(convert, chunks[..|chunks| - 1]) + Mapped(convert, c.frames) + Zeros(c.zeros)
  }

  /** Every chunk but the last asks for 256 frames, the last for what remains. */
  ghost predicate Split(chunks: seq<Chunk>, n: nat) {
    n <= 256 * |chunks| < n + 256 && Sizes(chunks, n)
  }

  ghost predicate Sizes(chunks: seq<Chunk>, n: nat) {
    forall k :: 0 <= k < |chunks| ==> Size(chunks[k]) == Min(256, n - 256 * k)
  }

  lemma SizesNext(chunks: seq<Chunk>, c: Chunk, n: nat)
    requires Sizes(chunks, n) && Size(c) == Min(256, n - 256 * |chunks|)
    ensures Sizes(chunks + [c], n)
  {
  }

  /** Place j of a chunk: its j-th frame converted, or a zero behind the last one. */
  function PlaceOf(convert: Frame -> FloatFrame, c: Chunk, j: nat): FloatFrame {
    if j < |c.frames| then convert(c.frames[j]) else (0.0, 0.0)
  }

  /** The buffer, place by place: chunk k's begin at 256 * k. */
  ghost predicate LaidAt(out: seq<FloatFrame>, convert: Frame -> FloatFrame, c: Chunk, k: nat, j: nat) {
    256 * k + j < |out| && out[256 * k + j] == PlaceOf(convert, c, j)
  }

  ghost predicate Laid(out: seq<FloatFrame>, convert: Frame -> FloatFrame, chunks: seq<Chunk>) {
    forall k: nat, j: nat :: k < |chunks| && j < Size(chunks[k]) ==> LaidAt(out, convert, chunks[k], k, j)
  }

  lemma {:induction false} PouredLength(convert: Frame -> FloatFrame, chunks: seq<Chunk>, n: nat)
    requires 256 * |chunks| < n + 256
    requires Sizes(chunks, n)
    ensures |Poured(convert, chunks)| == Min(256 * |chunks|, n)
    decreases |chunks|
  {
    if chunks == [] {
    } else {
      PouredLength(convert, chunks[..|chunks| - 1], n);
    }
  }

  lemma {:induction false} ZerosAt(n: nat, i: nat)
    requires i < n
    ensures Zeros(n)[i] == (0.0, 0.0)
  {
    if i == n - 1 {
    } else {
      ZerosAt(n - 1, i);
    }
  }

  lemma {:induction false} MappedAt(convert: Frame -> FloatFrame, frames: seq<Frame>, i: nat)
    requires i < |frames|
    ensures Mapped(convert, frames)[i] == convert(frames[i])
    decreases |frames|
  {
    if i == |frames| - 1 {
    } else {
      MappedAt(convert, frames[..|frames| - 1], i);
    }
  }

  lemma LastChunk(before: seq<FloatFrame>, convert: Frame -> FloatFrame, c: Chunk, j: nat)
    requires j < Size(c)
    ensures (before + Mapped(convert, c.frames) + Zeros(c.zeros))[|before| + j] == PlaceOf(convert, c, j)
  {
    if j < |c.frames| {
      MappedAt(convert, c.frames, j);
    } else {
      ZerosAt(c.zeros, j - |c.frames|);
    }
  }

  lemma {:induction false} PouredPlace(convert: Frame -> FloatFrame, chunks: seq<Chunk>, n: nat, k: nat, j: nat)
    requires 256 * |chunks| < n + 256
    requires Sizes(chunks, n)
    requires k < |chunks| && j < Size(chunks[k])
    ensures LaidAt(Poured(convert, chunks), convert, chunks[k], k, j)
    decreases |chunks|
  {
    var m := |chunks| - 1;
    PouredLength(convert, chunks[..m], n);
    if k == m {
      LastChunk(Poured(convert, chunks[..m]), convert, chunks[m], j);
    } else {
      PouredPlace(convert, chunks[..m], n, k, j);
    }
  }

  /** A split buffer that its chunks were poured into holds each frame at its place. */
  lemma PouredIsLaid(convert: Frame -> FloatFrame, chunks: seq<Chunk>, n: nat)
    requires Split(chunks, n)
    ensures Laid(Poured(convert, chunks), convert, chunks)
  {
    forall k: nat, j: nat | k < |chunks| && j < Size(chunks[k])
      ensures LaidAt(Poured(convert, chunks), convert, chunks[k], k, j)
    {
      PouredPlace(convert, chunks, n, k, j);
    }
  }

  /** Chunk k holds zeros only if, with it, everything up to position `readable` has been handed out,
      counting from position `start`. */
  ghost predicate DryAt(chunks: seq<Chunk>, k: nat, start: nat, readable: nat)
    requires k < |chunks|
  {
    chunks[k].zeros > 0 ==> readable <= start + |Joined(chunks[..k + 1])|
  }

  ghost predicate Dry(chunks: seq<Chunk>, start: nat, readable: nat) {
    forall k: nat :: k < |chunks| ==> DryAt(chunks, k, start, readable)
  }

  lemma DryNext(chunks: seq<Chunk>, c: Chunk, start: nat, readable: nat)
    requires Dry(chunks, start, readable)
    requires c.zeros > 0 ==> readable <= start + |Joined(chunks + [c])|
    ensures Dry(chunks + [c], start, readable)
  {
    var more := chunks + [c];
    forall k: nat | k < |more|
      ensures DryAt(more, k, start, readable)
    {
      if k < |chunks| {
        assert DryAt(chunks, k, start, readable);
        assert more[..k + 1] == chunks[..k + 1];
      } else {
        assert more[..k + 1] == more;
      }
    }
  }

  lemma NextChunk(convert: Frame -> FloatFrame, chunks: seq<Chunk>, c: Chunk)
    ensures Joined(chunks + [c]) == Joined(chunks) + c.frames
    ensures Poured(convert, chunks + [c]) == Poured(convert, chunks) + Mapped(convert, c.frames) + Zeros(c.zeros)
  {
    assert (chunks + [c])[..|chunks|] == chunks;
  }

  function Unmapped(convert: FloatFrame -> Frame, samples: seq<FloatFrame>): (frames: seq<Frame>)
    ensures |frames| == |samples| && forall i :: 0 <= i < |frames| ==> frames[i] == convert(samples[i])
  {
    seq(|samples|, i requires 0 <= i < |samples| => convert(samples[i]))
  }

  /** The size of chunk k of a buffer of the given length. */
  function ChunkSize(length: nat, k: nat): (n: nat)
    requires 256 * k <= length
    ensures n <= 256 && 256 * k + n <= length
    ensures n < 256 ==> 256 * k + n == length
  {
    Min(256, length - 256 * k)
  }

  /** WriteMix's input chunk k, converted. */
  ghost function ChunkAt(convert: FloatFrame -> Frame, mix: seq<FloatFrame>, k: nat): (frames: seq<Frame>)
    requires 256 * k <= |mix|
    ensures |frames| == ChunkSize(|mix|, k)
  {
    Unmapped(convert, mix[256 * k..256 * k + ChunkSize(|mix|, k)])
  }

  /** What reaches the ring when chunk k is cut to its first accepted[k] frames. */
  ghost predicate Cut(accepted: seq<nat>, mix: seq<FloatFrame>) {
    forall k :: 0 <= k < |accepted| ==> 256 * k <= |mix| && accepted[k] <= ChunkSize(|mix|, k)
  }

  ghost function Kept(convert: FloatFrame -> Frame, mix: seq<FloatFrame>, accepted: seq<nat>): seq<Frame>
    requires Cut(accepted, mix)
  {
    if accepted == [] then []
    else
      var k := |accepted| - 1;
      Kept(convert, mix, accepted[..k]) + ChunkAt(convert, mix, k)[..accepted[k]]
  }

  lemma NextKept(convert: FloatFrame -> Frame, mix: seq<FloatFrame>, accepted: seq<nat>, n: nat)
    requires Cut(accepted, mix) && 256 * |accepted| <= |mix| && n <= ChunkSize(|mix|, |accepted|)
    ensures Cut(accepted + [n], mix)
    ensures Kept(convert, mix, accepted + [n])
         == Kept(convert, mix, accepted) + ChunkAt(convert, mix, |accepted|)[..n]
  {
    assert (accepted + [n])[..|accepted|] == accepted;
  }

  /** Chunk k is cut only if, with it, at least the room there was at the start has been filled. */
  ghost predicate CrowdedAt(convert: FloatFrame -> Frame, mix: seq<FloatFrame>, accepted: seq<nat>, k: nat, room: nat)
    requires Cut(accepted, mix) && k < |accepted|
  {
    accepted[k] < ChunkSize(|mix|, k) ==> room <= |Kept(convert, mix, accepted[..k + 1])|
  }

  ghost predicate Crowded(convert: FloatFrame -> Frame, mix: seq<FloatFrame>, accepted: seq<nat>, room: nat)
    requires Cut(accepted, mix)
  {
    forall k: nat :: k < |accepted| ==> CrowdedAt(convert, mix, accepted, k, room)
  }

  lemma CrowdedNext(convert: FloatFrame -> Frame, mix: seq<FloatFrame>, accepted: seq<nat>, n: nat, room: nat)
    requires Cut(accepted, mix) && Cut(accepted + [n], mix) && Crowded(convert, mix, accepted, room)
    requires n < ChunkSize(|mix|, |accepted|) ==> room <= |Kept(convert, mix, accepted + [n])|
    ensures Crowded(convert, mix, accepted + [n], room)
  {
    var more := accepted + [n];
    forall k: nat | k < |more|
      ensures CrowdedAt(convert, mix, more, k, room)
    {
      if k < |accepted| {
        assert CrowdedAt(convert, mix, accepted, k, room);
        assert more[..k + 1] == accepted[..k + 1];
      } else {
        assert more[..k + 1] == more;
      }
    }
  }

  /** The chunks so far put `stream` behind base, each cut only for want of room. */
  ghost predicate Written(convert: FloatFrame -> Frame, mix: seq<FloatFrame>, accepted: seq<nat>, room: nat,
                          base: seq<Frame>, stream: seq<Frame>) {
    Cut(accepted, mix) && stream == base + Kept(convert, mix, accepted) && Crowded(convert, mix, accepted, room)
  }

  lemma WrittenNext(convert: FloatFrame -> Frame, mix: seq<FloatFrame>, accepted: seq<nat>, room: nat,
                    base: seq<Frame>, stream: seq<Frame>, n: nat)
    requires Written(convert, mix, accepted, room, base, stream)
    requires 256 * |accepted| <= |mix| && n <= ChunkSize(|mix|, |accepted|)
    requires n < ChunkSize(|mix|, |accepted|) ==> room <= |stream| + n - |base|
    ensures Written(convert, mix, accepted + [n], room, base, stream + ChunkAt(convert, mix, |accepted|)[..n])
  {
    NextKept(convert, mix, accepted, n);
    Associative(base, Kept(convert, mix, accepted), ChunkAt(convert, mix, |accepted|)[..n]);
    CrowdedNext(convert, mix, accepted, n, room);
  }

  /** How much of chunk k fits when space slots are free at the start and nothing leaves. */
  function ChunkShare(length: nat, space: nat, k: nat): (n: nat)
    requires 256 * k <= length
  {
    Max(0, Min(ChunkSize(length, k), space - 256 * k))
  }

  ghost predicate Fits(accepted: seq<nat>, length: nat, space: nat) {
    forall k :: 0 <= k < |accepted| ==> 256 * k <= length && accepted[k] == ChunkShare(length, space, k)
  }

  /** Every chunk so far met the space its predecessors left; grown frames went in. */
  ghost predicate Quiet(accepted: seq<nat>, length: nat, space: nat, grown: int) {
    Fits(accepted, length, space) && grown == Min(Min(256 * |accepted|, length), space)
  }

  lemma QuietNext(accepted: seq<nat>, length: nat, space: nat, grown: int, off: nat)
    requires 256 * |accepted| < length && Quiet(accepted, length, space, grown)
    requires off == Min(ChunkSize(length, |accepted|), space - grown)
    ensures Quiet(accepted + [off], length, space, grown + off)
  {
  }

  /** With a quiet daemon the accepted frames are the longest prefix that fits. */
  lemma {:induction false} LongestPrefix(convert: FloatFrame -> Frame, mix: seq<FloatFrame>, accepted: seq<nat>,
                                         space: nat)
    requires Cut(accepted, mix) && Fits(accepted, |mix|, space)
    ensures Kept(convert, mix, accepted) == Unmapped(convert, mix)[..Min(Min(256 * |accepted|, |mix|), space)]
    decreases |accepted|
  {
    if accepted == [] {
    } else {
      var k := |accepted| - 1;
      LongestPrefix(convert, mix, accepted[..k], space);
      ChunkIsSlice(convert, mix, k, accepted[k]);
      GrowPrefix(Unmapped(convert, mix), k, space, accepted[k]);
    }
  }

  /** Chunk k's share of the space extends the prefix that fits. */
  lemma GrowPrefix(frames: seq<Frame>, k: nat, space: nat, n: nat)
    requires 256 * k <= |frames| && n == ChunkShare(|frames|, space, k)
    ensures frames[..Min(Min(256 * k, |frames|), space)] + frames[256 * k..256 * k + n]
         == frames[..Min(Min(256 * (k + 1), |frames|), space)]
  {
    if n > 0 {
      AdjacentSlices(frames, 256 * k, n);
    }
  }

  lemma UnmappedSlice(convert: FloatFrame -> Frame, mix: seq<FloatFrame>, a: nat, b: nat)
    requires a <= b <= |mix|
    ensures Unmapped(convert, mix[a..b]) == Unmapped(convert, mix)[a..b]
  {
    forall i | 0 <= i < b - a
      ensures Unmapped(convert, mix[a..b])[i] == Unmapped(convert, mix)[a + i]
    {
      assert mix[a..b][i] == mix[a + i];
    }
  }

  lemma ChunkIsSlice(convert: FloatFrame -> Frame, mix: seq<FloatFrame>, k: nat, n: nat)
    requires 256 * k <= |mix| && n <= ChunkSize(|mix|, k)
    ensures ChunkAt(convert, mix, k)[..n] == Unmapped(convert, mix)[256 * k..256 * k + n]
  {
    var a, size := 256 * k, ChunkSize(|mix|, k);
    UnmappedSlice(convert, mix, a, a + size);
    SliceOfSlice(Unmapped(convert, mix), a, size, n);
  }

  class Plugin {
    const capture: Ring
    const playback: Ring
    const toFloat: Frame -> FloatFrame
    const fromFloat: FloatFrame -> Frame

    constructor (capture: Ring, playback: Ring, toFloat: Frame -> FloatFrame, fromFloat: FloatFrame -> Frame)
      ensures this.capture == capture && this.playback == playback
      ensures this.toFloat == toFloat && this.fromFloat == fromFloat
    {
      this.capture, this.playback := capture, playback;
      this.toFloat, this.fromFloat := toFloat, fromFloat;
    }

    /** Converts the frames read, behind what is already in the client's buffer. */
    method Convert(tmp: array<Frame>, out: array<FloatFrame>, done: nat, got: nat)
      requires got <= tmp.Length && done + got <= out.Length
      modifies out
      ensures out[..done + got] == old(out[..done]) + Mapped(toFloat, tmp[..got])
    {
      var i := 0;
      while i < got
        invariant 0 <= i <= got
        invariant out[..done + i] == old(out[..done]) + Mapped(toFloat, tmp[..i])
      {
        out[done + i] := toFloat(tmp[i]);
        assert tmp[..i + 1][..i] == tmp[..i];
        assert out[..done + i + 1] == out[..done + i] + [toFloat(tmp[i])];
        i := i + 1;
      }
    }

    /** Fills the shortfall of a chunk. */
    method ZeroFill(out: array<FloatFrame>, done: nat, n: nat)
      requires done + n <= out.Length
      modifies out
      ensures out[..done + n] == old(out[..done]) + Zeros(n)
    {
      var i := 0;
      while i < n
        invariant 0 <= i <= n
        invariant out[..done + i] == old(out[..done]) + Zeros(i)
      {
        out[done + i] := QUIET;
        assert out[..done + i + 1] == out[..done + i] + [QUIET];
        i := i + 1;
      }
    }

    /** One chunk: up to 256 frames consumed, converted, and padded with zeros. */
    method ReadChunk(tmp: array<Frame>, out: array<FloatFrame>, done: nat, chunk: nat) returns (got: nat)
      requires capture.Valid() && tmp.Length == 256 && tmp != capture.data
      requires chunk <= 256 && done + chunk <= out.Length
      modifies capture`tail, capture`taken, tmp, out
      ensures capture.Valid() && capture.taken == old(capture.taken) + got
      ensures got == Min(chunk, old(capture.Level()))
      ensures out[..done + chunk] == old(out[..done])
                + Mapped(toFloat, capture.stream[old(capture.taken)..capture.taken]) + Zeros(chunk - got)
    {
      got := capture.Consume(chunk, tmp);
      Convert(tmp, out, done, got);
      ZeroFill(out, done + got, chunk - got);
    }

    /** The daemon pushes captured frames while the plugin is between two ring calls. */
    method Arrive(arrivals: seq<seq<Frame>>, k: nat)
      requires capture.Valid()
      requires Calls(arrivals)
      modifies capture`head, capture`stream, capture.data
      ensures capture.Valid() && old(capture.stream) <= capture.stream
    {
      if k < |arrivals| {
        var _ := capture.Produce(arrivals[k]);
      }
    }

    /** The chunks so far fill the buffer and cover the stream without a gap. */
    ghost predicate Holds(out: array<FloatFrame>, done: nat, chunks: seq<Chunk>, start: nat)
      reads capture, out
    {
      && start <= capture.taken <= |capture.stream| && done <= out.Length
      && Joined(chunks) == capture.stream[start..capture.taken]
      && out[..done] == Poured(toFloat, chunks)
    }

    lemma JoinStream(start: nat, before: nat)
      requires start <= before <= capture.taken <= |capture.stream|
      ensures capture.stream[start..before] + capture.stream[before..capture.taken]
           == capture.stream[start..capture.taken]
    {
    }

    /** One turn of ReadInput: whatever arrived first, then a chunk. */
    method ReadNext(tmp: array<Frame>, out: array<FloatFrame>, done: nat, chunk: nat, arrivals: seq<seq<Frame>>, k: nat,
                    ghost chunks: seq<Chunk>, ghost start: nat)
      returns (ghost c: Chunk)
      requires capture.Valid() && tmp.Length == 256 && tmp != capture.data
      requires Calls(arrivals)
      requires chunk <= 256 && done + chunk <= out.Length
      requires Holds(out, done, chunks, start)
      modifies capture, capture.data, tmp, out
      ensures capture.Valid() && old(capture.stream) <= capture.stream
      ensures Size(c) == chunk && Holds(out, done + chunk, chunks + [c], start)
      ensures old(capture.taken) <= capture.taken
      ensures c.zeros > 0 ==> capture.taken == |capture.stream|
    {
      Arrive(arrivals, k);
      ghost var before := capture.taken;
      var got := ReadChunk(tmp, out, done, chunk);
      c := Chunk(capture.stream[before..capture.taken], chunk - got);
      NextChunk(toFloat, chunks, c);
      JoinStream(start, before);
    }

    /** ReadInput. The daemon's callbacks may push more frames between two chunks: arrivals[k] comes
        in before chunk k. Every requested frame is filled, with ring frames in FIFO order; zeros stand
        only at the end of a chunk, and behind all that was readable at the start. */
    method ReadInput(out: array<FloatFrame>, n: nat, arrivals: seq<seq<Frame>>) returns (ghost chunks: seq<Chunk>)
      requires capture.Valid() && n <= out.Length
      requires Calls(arrivals)
      modifies capture, capture.data, out
      ensures capture.Valid() && old(capture.taken) <= capture.taken <= |capture.stream|
      ensures old(capture.stream) <= capture.stream
      ensures Split(chunks, n)
      ensures Joined(chunks) == capture.stream[old(capture.taken)..capture.taken]
      ensures out[..n] == Poured(toFloat, chunks) && Laid(out[..n], toFloat, chunks)
      ensures Dry(chunks, old(capture.taken), old(|capture.stream|))
    {
      var tmp := new Frame[256](_ => SILENCE);
      chunks := [];
      ghost var start := capture.taken;
      var done, k := 0, 0;
      while done < n
        invariant k == |chunks| && done == Min(256 * k, n) && 256 * k < n + 256
        invariant Sizes(chunks, n)
        invariant capture.Valid() && old(capture.stream) <= capture.stream
        invariant Holds(out, done, chunks, start)
        invariant Dry(chunks, start, old(|capture.stream|))
        decreases n - done
      {
        var chunk := Min(n - done, 256);
        ghost var c := ReadNext(tmp, out, done, chunk, arrivals, k, chunks, start);
        DryNext(chunks, c, start, old(|capture.stream|));
        SizesNext(chunks, c, n);
        chunks := chunks + [c];
        done := done + chunk;
        k := k + 1;
      }
      PouredIsLaid(toFloat, chunks, n);
    }

    /** Converts one chunk of the client's samples. */
    method Unconvert(mix: seq<FloatFrame>, tmp: array<Frame>)
      requires |mix| <= tmp.Length
      modifies tmp
      ensures tmp[..|mix|] == Unmapped(fromFloat, mix)
    {
      var i := 0;
      while i < |mix|
        invariant 0 <= i <= |mix|
        invariant tmp[..i] == Unmapped(fromFloat, mix[..i])
      {
        tmp[i] := fromFloat(mix[i]);
        assert mix[..i + 1][..i] == mix[..i];
        assert tmp[..i + 1] == tmp[..i] + [tmp[i]];
        i := i + 1;
      }
      assert mix[..|mix|] == mix;
    }

    /** The daemon takes frames out while the plugin is between two ring calls. */
    method Depart(departures: seq<nat>, call: nat)
      requires playback.Valid()
      modifies playback`tail, playback`taken
      ensures playback.Valid() && old(playback.taken) <= playback.taken
      ensures call >= |departures| ==> playback.taken == old(playback.taken)
    {
      if call < |departures| {
        var _ := playback.Take(departures[call]);
      }
    }

    /** The push loop of one chunk: it gives up only on a full ring. departures[i] is what the
        daemon took right before the i-th ring call. */
    method PushChunk(frames: seq<Frame>, departures: seq<nat>, first: nat) returns (off: nat, calls: nat)
      requires playback.Valid() && |frames| <= 256
      modifies playback, playback.data
      ensures playback.Valid() && old(playback.taken) <= playback.taken && first <= calls
      ensures off <= |frames| && playback.stream == old(playback.stream) + frames[..off]
      ensures off < |frames| ==> playback.Level() == RING_FRAMES
      ensures first >= |departures|
          ==> playback.taken == old(playback.taken) && off == Min(|frames|, RING_FRAMES - old(playback.Level()))
    {
      off, calls := 0, first;
      while off < |frames|
        invariant off <= |frames| && first <= calls
        invariant playback.Valid() && old(playback.taken) <= playback.taken
        invariant playback.stream == old(playback.stream) + frames[..off]
        invariant first >= |departures| ==> playback.taken == old(playback.taken)
        decreases |frames| - off
      {
        Depart(departures, calls);
        calls := calls + 1;
        var w := playback.Produce(frames[off..]);
        if w == 0 {
          break;
        }
        assert frames[..off] + frames[off..][..w] == frames[..off + w];
        off := off + w;
      }
    }

    /** Converts chunk k and pushes what fits. */
    method WriteNext(mix: seq<FloatFrame>, tmp: array<Frame>, k: nat, departures: seq<nat>, first: nat)
      returns (off: nat, calls: nat)
      requires playback.Valid() && tmp.Length == 256 && tmp != playback.data && 256 * k < |mix|
      modifies playback, playback.data, tmp
      ensures playback.Valid() && old(playback.taken) <= playback.taken && first <= calls
      ensures off <= ChunkSize(|mix|, k)
      ensures playback.stream == old(playback.stream) + ChunkAt(fromFloat, mix, k)[..off]
      ensures off < ChunkSize(|mix|, k) ==> |playback.stream| == playback.taken + RING_FRAMES
      ensures first >= |departures|
          ==> && playback.taken == old(playback.taken)
              && off == Min(ChunkSize(|mix|, k), RING_FRAMES - old(playback.Level()))
    {
      var done := 256 * k;
      var chunk := ChunkSize(|mix|, k);
      Unconvert(mix[done..done + chunk], tmp);
      off, calls := PushChunk(tmp[..chunk], departures, first);
    }

    /** WriteMix. What goes into the ring is the client's buffer in order with nothing missing but
        the ends of chunks that met a full ring; if the daemon takes nothing meanwhile that is
        simply the longest prefix that fits. */
    method WriteMix(mix: seq<FloatFrame>, departures: seq<nat>) returns (ghost accepted: seq<nat>)
      requires playback.Valid()
      modifies playback, playback.data
      ensures playback.Valid() && old(playback.taken) <= playback.taken
      ensures Cut(accepted, mix) && |mix| <= 256 * |accepted| < |mix| + 256
      ensures playback.stream == old(playback.stream) + Kept(fromFloat, mix, accepted)
      ensures Crowded(fromFloat, mix, accepted, RING_FRAMES - old(playback.Level()))
      ensures departures == []
          ==> playback.stream == old(playback.stream)
                               + Unmapped(fromFloat, mix)[..Min(|mix|, RING_FRAMES - old(playback.Level()))]
    {
      accepted := [];
      var tmp := new Frame[256](_ => SILENCE);
      var k, calls := 0, 0;
      ghost var space, before, base := RING_FRAMES - playback.Level(), playback.taken, playback.stream;
      while 256 * k < |mix|
        invariant k == |accepted| && 256 * k < |mix| + 256
        invariant playback.Valid() && before <= playback.taken
        invariant Written(fromFloat, mix, accepted, space, base, playback.stream)
        invariant departures == [] ==> playback.taken == before
        invariant departures == [] ==> Quiet(accepted, |mix|, space, |playback.stream| - |base|)
        decreases |mix| - 256 * k
      {
        ghost var stream := playback.stream;
        var off;
        off, calls := WriteNext(mix, tmp, k, departures, calls);
        WrittenNext(fromFloat, mix, accepted, space, base, stream, off);
        if departures == [] {
          QuietNext(accepted, |mix|, space, |stream| - |base|, off);
        }
        accepted := accepted + [off];
        k := k + 1;
      }
      if departures == [] {
        LongestPrefix(fromFloat, mix, accepted, space);
      }
    }
  }
}
