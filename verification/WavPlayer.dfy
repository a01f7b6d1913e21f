/** The WAV player: a reader that converts file frames to device frames, a ring behind a mutex, and
    the prefill, producer and consumer that move the file through it. */
module WavPlayer {
  import opened Numbers
  import opened DeviceFrames
  import opened Circular

  // ----- sample conversion -----

  /** A 16-bit little-endian sample placed in the high half of a word. */
  function Sample16(b0: byte, b1: byte): Dev3 {
    var u := b0 + b1 * 0x100;
    var v := if u >= 0x8000 then u - 0x1_0000 else u;
    I32ToDev3(v * 0x1_0000)
  }

  /** A 24-bit little-endian sample, sign-extended and shifted up a byte. */
  function Sample24(b0: byte, b1: byte, b2: byte): Dev3 {
    var u := b0 + b1 * 0x100 + b2 * 0x1_0000;
    var v := if u >= 0x80_0000 then u - 0x100_0000 else u;
    I32ToDev3(v * 0x100)
  }

  /** 24-bit file samples reach the wire byte for byte. */
  lemma Sample24IsIdentity(b0: byte, b1: byte, b2: byte)
    ensures Sample24(b0, b1, b2) == Dev3(b0, b1, b2)
  {
    PackUnpack(Dev3(b0, b1, b2));
  }

  /** 16-bit file samples fill the two high bytes. */
  lemma Sample16IsHighBytes(b0: byte, b1: byte)
    ensures Sample16(b0, b1) == Dev3(0, b0, b1)
  {
    PackUnpack(Dev3(0, b0, b1));
  }

  // ----- the file -----

  /** Bytes of an input frame. */
  function FrameSize(wide: bool): nat { if wide then 6 else 4 }

  function Offset(wide: bool, k: nat): nat { if wide then 6 * k else 4 * k }

  function Convert(wide: bool, b: seq<byte>): Frame
    requires |b| == FrameSize(wide)
  {
    if wide then Frame(Sample24(b[0], b[1], b[2]), Sample24(b[3], b[4], b[5]))
    else Frame(Sample16(b[0], b[1]), Sample16(b[2], b[3]))
  }

  function FrameAt(file: seq<byte>, wide: bool, k: nat): Frame
    requires Offset(wide, k + 1) <= |file|
  {
    Convert(wide, file[Offset(wide, k)..Offset(wide, k + 1)])
  }

  /** The first k frames of the file, converted. */
  function FramesTo(file: seq<byte>, wide: bool, k: nat): (frames: seq<Frame>)
    requires Offset(wide, k) <= |file|
    ensures |frames| == k
  {
    if k == 0 then [] else FramesTo(file, wide, k - 1) + [FrameAt(file, wide, k - 1)]
  }

  /** Each in its place. */
  lemma {:induction false} FramesToAt(file: seq<byte>, wide: bool, k: nat, i: nat)
    requires i < k && Offset(wide, k) <= |file|
    ensures Offset(wide, i + 1) <= |file| && FramesTo(file, wide, k)[i] == FrameAt(file, wide, i)
    decreases k
  {
    if i == k - 1 {
    } else {
      FramesToAt(file, wide, k - 1, i);
    }
  }

  /** The reader's end-of-data test before frame k, in the file's 32-bit byte counters. */
  predicate More(wide: bool, dataBytes: u32, k: nat) {
    Wrap(Wrap(Offset(wide, k)) + FrameSize(wide)) <= dataBytes
  }

  predicate Readable(file: seq<byte>, wide: bool, dataBytes: u32, k: nat) {
    More(wide, dataBytes, k) && Offset(wide, k + 1) <= |file|
  }

  /** Whole frames in so many bytes. */
  function Whole(wide: bool, bytes: nat): (k: nat)
    ensures Offset(wide, k) <= bytes < Offset(wide, k + 1)
  {
    if wide then bytes / 6 else bytes / 4
  }

  lemma WrapSmall(x: nat)
    requires x < 0x1_0000_0000
    ensures Wrap(x) == x
  {
  }

  lemma WrapOnce(x: nat)
    requires 0x1_0000_0000 <= x < 0x2_0000_0000
    ensures Wrap(x) == x - 0x1_0000_0000
  {
  }

  lemma MoreInside(wide: bool, dataBytes: u32, k: nat)
    requires Offset(wide, k + 1) <= dataBytes
    ensures More(wide, dataBytes, k)
  {
    WrapSmall(Offset(wide, k));
    WrapSmall(Offset(wide, k + 1));
  }

  /** The counter wraps just past the last whole frame exactly when the data chunk is within four
      bytes of 4 GiB; below that the reader stops at the end of the chunk, above it reads on. */
  lemma StopsAtChunkEndIff(wide: bool, dataBytes: u32)
    ensures !More(wide, dataBytes, Whole(wide, dataBytes)) <==> dataBytes < 0xFFFF_FFFC
  {
    var k := Whole(wide, dataBytes);
    WrapSmall(Offset(wide, k));
    if dataBytes < 0xFFFF_FFFC {
      WrapSmall(Offset(wide, k + 1));
    } else {
      WrapOnce(Offset(wide, k + 1));
    }
  }

  /** So for every smaller chunk the readable frames are those whole in both chunk and file. */
  lemma ReadableIff(file: seq<byte>, wide: bool, dataBytes: u32, k: nat)
    requires dataBytes < 0xFFFF_FFFC
    requires k <= Whole(wide, dataBytes)
    ensures Readable(file, wide, dataBytes, k) <==> k < Min(Whole(wide, dataBytes), Whole(wide, |file|))
  {
    if k < Whole(wide, dataBytes) {
      MoreInside(wide, dataBytes, k);
    } else {
      StopsAtChunkEndIff(wide, dataBytes);
    }
  }

  ghost predicate AllReadable(file: seq<byte>, wide: bool, dataBytes: u32, k: nat) {
    forall j: nat :: j < k ==> Readable(file, wide, dataBytes, j)
  }

  /** The reader's counters after k frames; a short read leaves the position at the end of the file. */
  ghost predicate Reached(file: seq<byte>, wide: bool, dataBytes: u32, pos: nat, dataRead: u32, k: nat) {
    && Offset(wide, k) <= |file|
    && AllReadable(file, wide, dataBytes, k)
    && dataRead == Wrap(Offset(wide, k))
    && (pos == Offset(wide, k) || (pos == |file| && |file| < Offset(wide, k + 1)))
  }

  lemma NextFrame(file: seq<byte>, wide: bool, dataBytes: u32, pos: nat, dataRead: u32, k: nat)
    requires Reached(file, wide, dataBytes, pos, dataRead, k)
    requires Wrap(dataRead + FrameSize(wide)) <= dataBytes && pos + FrameSize(wide) <= |file|
    ensures Readable(file, wide, dataBytes, k)
    ensures Reached(file, wide, dataBytes, pos + FrameSize(wide), Wrap(dataRead + FrameSize(wide)), k + 1)
    ensures FramesTo(file, wide, k + 1)
         == FramesTo(file, wide, k) + [Convert(wide, file[pos..pos + FrameSize(wide)])]
  {
    WrapAdd(Offset(wide, k), FrameSize(wide));
  }

  lemma NoNextFrame(file: seq<byte>, wide: bool, dataBytes: u32, pos: nat, dataRead: u32, k: nat)
    requires Reached(file, wide, dataBytes, pos, dataRead, k)
    requires Wrap(dataRead + FrameSize(wide)) > dataBytes || pos + FrameSize(wide) > |file|
    ensures !Readable(file, wide, dataBytes, k)
    ensures pos + FrameSize(wide) > |file| ==> Reached(file, wide, dataBytes, |file|, dataRead, k)
  {
  }

  /** A reader that stops at the first unreadable frame has produced every whole frame the data
      chunk and the file share. */
  lemma ReaderTotal(file: seq<byte>, wide: bool, dataBytes: u32, k: nat)
    requires dataBytes < 0xFFFF_FFFC
    requires AllReadable(file, wide, dataBytes, k)
    requires !Readable(file, wide, dataBytes, k)
    ensures k == Min(Whole(wide, dataBytes), Whole(wide, |file|))
  {
    var total := Min(Whole(wide, dataBytes), Whole(wide, |file|));
    ReadableIff(file, wide, dataBytes, total);
    if k < total {
      ReadableIff(file, wide, dataBytes, k);
    }
  }

  /** The k-th frame of a 24-bit file is its six bytes as they stand. */
  lemma WireBytes(file: seq<byte>, k: nat)
    requires 6 * k + 6 <= |file|
    ensures FrameAt(file, true, k)
         == Frame(Dev3(file[6 * k], file[6 * k + 1], file[6 * k + 2]),
                  Dev3(file[6 * k + 3], file[6 * k + 4], file[6 * k + 5]))
  {
    var b := file[6 * k..6 * k + 6];
    Sample24IsIdentity(b[0], b[1], b[2]);
    Sample24IsIdentity(b[3], b[4], b[5]);
  }

  /** That of a 16-bit file has its four bytes over two zeros. */
  lemma WireBytes16(file: seq<byte>, k: nat)
    requires 4 * k + 4 <= |file|
    ensures FrameAt(file, false, k)
         == Frame(Dev3(0, file[4 * k], file[4 * k + 1]), Dev3(0, file[4 * k + 2], file[4 * k + 3]))
  {
    var b := file[4 * k..4 * k + 4];
    Sample16IsHighBytes(b[0], b[1]);
    Sample16IsHighBytes(b[2], b[3]);
  }

  class Wav {
    const file: seq<byte>  // from the first data byte on
    const wide: bool       // 24-bit samples, otherwise 16-bit
    const dataBytes: u32
    var pos: nat           // file position
    var dataRead: u32
    ghost var done: nat    // frames produced

    constructor (file: seq<byte>, wide: bool, dataBytes: u32)
      ensures Valid() && done == 0
      ensures this.file == file && this.wide == wide && this.dataBytes == dataBytes
    {
      this.file, this.wide, this.dataBytes := file, wide, dataBytes;
      pos, dataRead, done := 0, 0, 0;
    }

    ghost predicate Valid()
      reads this
    {
      Reached(file, wide, dataBytes, pos, dataRead, done)
    }

    ghost predicate CanRead()
      reads this
    {
      Readable(file, wide, dataBytes, done)
    }

    method Fread(n: nat) returns (ok: bool, bytes: seq<byte>)
      requires pos <= |file|
      modifies this`pos
      ensures ok == (old(pos) + n <= |file|)
      ensures ok ==> bytes == file[old(pos)..old(pos) + n] && pos == old(pos) + n
      ensures !ok ==> pos == |file|
    {
      ok := pos + n <= |file|;
      if ok {
        bytes := file[pos..pos + n];
        pos := pos + n;
      } else {
        bytes := file[pos..];
        pos := |file|;
      }
    }

    /** One turn of the reading loop. */
    method ReadFrame() returns (ok: bool, frame: Frame)
      requires Valid()
      modifies this
      ensures Valid()
      ensures ok <==> old(CanRead())
      ensures ok ==> done == old(done) + 1 && FramesTo(file, wide, done) == FramesTo(file, wide, old(done)) + [frame]
      ensures !ok ==> done == old(done)
    {
      frame := SILENCE;
      var size := FrameSize(wide);
      if Wrap(dataRead + size) > dataBytes {
        NoNextFrame(file, wide, dataBytes, pos, dataRead, done);
        return false, frame;
      }
      ghost var at := pos;
      var bytes;
      ok, bytes := Fread(size);
      if ok {
        NextFrame(file, wide, dataBytes, at, dataRead, done);
        dataRead := Wrap(dataRead + size);
        frame := Convert(wide, bytes);
        done := done + 1;
      } else {
        NoNextFrame(file, wide, dataBytes, at, dataRead, done);
      }
    }

    /** Up to `max` frames; fewer only at the end of the data. */
    method ReadFrames(out: array<Frame>, max: nat) returns (produced: nat)
      requires Valid() && max <= out.Length
      modifies this, out
      ensures Valid()
      ensures produced <= max && done == old(done) + produced
      ensures FramesTo(file, wide, done) == FramesTo(file, wide, old(done)) + out[..produced]
      ensures produced < max ==> !CanRead()
    {
      produced := 0;
      while produced < max
        invariant produced <= max && Valid() && done == old(done) + produced
        invariant FramesTo(file, wide, done) == FramesTo(file, wide, old(done)) + out[..produced]
      {
        ghost var before := out[..produced];
        var ok, frame := ReadFrame();
        if !ok {
          break;
        }
        out[produced] := frame;
        assert out[..produced + 1] == before + [frame];
        produced := produced + 1;
      }
    }
  }

  // ----- the ring -----

  /** Head, tail and count change only under the mutex, so every call is one step. */
  class MutexRing {
    const buf: array<Frame>
    var head: nat
    var tail: nat
    var count: nat
    var eof: bool
    var underruns: nat

    /** Everything ever written, and how much of it has been read. */
    ghost var written: seq<Frame>
    ghost var taken: nat

    constructor (capacity: nat)
      requires 0 < capacity
      ensures Valid() && buf.Length == capacity && fresh(buf)
      ensures written == [] && taken == 0 && !eof && underruns == 0
    {
      buf := new Frame[capacity](_ => SILENCE);
      head, tail, count, eof, underruns := 0, 0, 0, false, 0;
      written, taken := [], 0;
    }

    ghost predicate Valid()
      reads this, buf
    {
      && 0 < buf.Length
      && taken + count == |written| && count <= buf.Length
      && head == Place(|written|, buf.Length) && tail == Place(taken, buf.Length)
      && forall k :: taken <= k < |written| ==> buf[Place(k, buf.Length)] == written[k]
    }

    method Put(frame: Frame)
      requires Valid() && count < buf.Length
      modifies this`head, this`count, this`written, buf
      ensures Valid() && written == old(written) + [frame]
    {
      forall k | taken <= k < |written|
        ensures Place(k, buf.Length) != head
      {
        PlacesDiffer(k, |written|, buf.Length);
      }
      buf[head] := frame;
      NextPlace(|written|, buf.Length);
      head := (head + 1) % buf.Length;
      count := count + 1;
      written := written + [frame];
    }

    /** Writes as much of the source as fits. */
    method Write(src: seq<Frame>) returns (n: nat)
      requires Valid()
      modifies this`head, this`count, this`written, buf
      ensures Valid() && n == Min(|src|, buf.Length - old(count)) && count == old(count) + n
      ensures written == old(written) + src[..n]
    {
      n := |src|;
      var space := buf.Length - count;
      if n > space {
        n := space;
      }
      var i := 0;
      while i < n
        invariant i <= n && Valid() && count == old(count) + i
        invariant written == old(written) + src[..i]
        modifies this`head, this`count, this`written, buf
      {
        Put(src[i]);
        assert src[..i + 1] == src[..i] + [src[i]];
        i := i + 1;
      }
    }

    method Get() returns (frame: Frame)
      requires Valid() && count > 0
      modifies this`tail, this`count, this`taken
      ensures Valid() && taken == old(taken) + 1 && frame == written[old(taken)]
    {
      frame := buf[tail];
      NextPlace(taken, buf.Length);
      tail := (tail + 1) % buf.Length;
      count := count - 1;
      taken := taken + 1;
    }

    /** Reads up to n frames and fills the shortfall with silence; a shortfall before the end of
        the file is counted. */
    method Read(dst: array<Frame>, n: nat) returns (avail: nat)
      requires Valid() && n <= dst.Length && dst != buf
      modifies this`tail, this`count, this`taken, this`underruns, dst
      ensures Valid() && avail == Min(n, old(count)) && taken == old(taken) + avail
      ensures dst[..avail] == written[old(taken)..taken]
      ensures forall j :: avail <= j < n ==> dst[j] == SILENCE
      ensures underruns == old(underruns) + if avail < n && !eof then 1 else 0
    {
      avail := if count < n then count else n;
      var i := 0;
      while i < avail
        invariant i <= avail && Valid() && count == old(count) - i && taken == old(taken) + i
        invariant dst[..i] == written[old(taken)..taken]
        modifies this`tail, this`count, this`taken, dst
      {
        ghost var before := dst[..i];
        var frame := Get();
        dst[i] := frame;
        assert dst[..i + 1] == before + [frame];
        i := i + 1;
      }
      ghost var frames := dst[..avail];
      if avail < n {
        forall j | avail <= j < n {
          dst[j] := SILENCE;
        }
        if !eof {
          underruns := underruns + 1;
        }
      }
      assert dst[..avail] == frames;
    }

    method Drained() returns (done: bool)
      requires Valid()
      ensures done <==> eof && taken == |written|
    {
      done := eof && count == 0;
    }
  }

  // ----- prefill -----

  /** What the ring has been given is exactly what the reader has produced. */
  ghost predicate InStep(wav: Wav, ring: MutexRing)
    reads wav, ring, ring.buf
  {
    wav.Valid() && ring.Valid() && ring.written == FramesTo(wav.file, wav.wide, wav.done)
  }

  /** Writes until the whole chunk is in. */
  method WriteAll(ring: MutexRing, src: seq<Frame>)
    requires ring.Valid() && ring.count + |src| <= ring.buf.Length
    modifies ring`head, ring`count, ring`written, ring.buf
    ensures ring.Valid() && ring.count == old(ring.count) + |src|
    ensures ring.written == old(ring.written) + src
  {
    var off := 0;
    while off < |src|
      invariant off <= |src| && ring.Valid() && ring.count == old(ring.count) + off
      invariant ring.written == old(ring.written) + src[..off]
      modifies ring`head, ring`count, ring`written, ring.buf
    {
      var w := ring.Write(src[off..]);
      AppendSlice(old(ring.written), src, off, w);
      off := off + w;
    }
    assert src[..off] == src;
  }

  lemma AppendSlice(base: seq<Frame>, src: seq<Frame>, off: nat, w: nat)
    requires off + w <= |src|
    ensures (base + src[..off]) + src[off..][..w] == base + src[..off + w]
  {
  }

  /** One chunk from the file into a ring with room for all of it. */
  method PrefillChunk(wav: Wav, ring: MutexRing, tmp: array<Frame>) returns (got: nat)
    requires InStep(wav, ring) && tmp.Length == 1024 && tmp != ring.buf
    requires ring.count + 1024 <= ring.buf.Length
    modifies wav, ring`head, ring`count, ring`written, ring.buf, tmp
    ensures InStep(wav, ring) && wav.done == old(wav.done) + got && ring.count == old(ring.count) + got
    ensures got == 0 ==> !wav.CanRead()
  {
    got := wav.ReadFrames(tmp, 1024);
    WriteAll(ring, tmp[..got]);
  }

  /** The prefill loop ends without any consumer: below three quarters a whole chunk always fits,
      because a quarter of half a second is more than 1024 frames at every supported rate. */
  method Prefill(wav: Wav, ring: MutexRing)
    requires InStep(wav, ring) && !ring.eof
    requires ring.buf.Length >= 44100 / 2
    modifies wav, ring, ring.buf
    ensures InStep(wav, ring) && ring.taken == old(ring.taken)
    ensures ring.eof ==> !wav.CanRead()
    ensures !ring.eof ==> ring.count >= ring.buf.Length * 3 / 4
  {
    var tmp := new Frame[1024](_ => SILENCE);
    while ring.count < ring.buf.Length * 3 / 4
      invariant InStep(wav, ring) && ring.taken == old(ring.taken)
      invariant !ring.eof
      decreases ring.buf.Length - ring.count
    {
      var got := PrefillChunk(wav, ring, tmp);
      if got == 0 {
        ring.eof := true;
        break;
      }
    }
  }

  // ----- whole-file delivery -----

  const CHUNK := 1024

  /** The players' steps between mutex operations. Prefill and producer both read chunks and push
      them; Take is a playback packet. */
  datatype Step = ReadFile | Push | Take(n: nat)

  /** `file` is all the reader will ever produce; pending is what is read but not yet written. */
  datatype Player = Player(file: seq<Frame>, next: nat, pending: seq<Frame>, ring: seq<Frame>, capacity: nat, eof: bool,
                           delivered: seq<Frame>)

  function Start(file: seq<Frame>, capacity: nat): Player {
    Player(file, 0, [], [], capacity, false, [])
  }

  ghost predicate Next(s: Player, step: Step, t: Player)
    requires |s.ring| <= s.capacity && s.next <= |s.file|
  {
    match step
    case ReadFile =>
      var got := Min(CHUNK, |s.file| - s.next);
      && s.pending == []
      && t == if got == 0 then s.(eof := true) else s.(pending := s.file[s.next..s.next + got], next := s.next + got)
    case Push =>
      var w := Min(|s.pending|, s.capacity - |s.ring|);
      t == s.(ring := s.ring + s.pending[..w], pending := s.pending[w..])
    case Take(n) =>
      var avail := Min(n, |s.ring|);
      t == s.(ring := s.ring[avail..], delivered := s.delivered + s.ring[..avail])
  }

  /** Nothing is lost, repeated or reordered between the file and the wire. */
  ghost predicate Inv(s: Player) {
    && |s.ring| <= s.capacity && s.next <= |s.file|
    && s.delivered + s.ring + s.pending == s.file[..s.next]
    && (s.eof ==> s.next == |s.file| && s.pending == [])
  }

  lemma StepKeepsInv(s: Player, step: Step, t: Player)
    requires Inv(s) && Next(s, step, t)
    ensures Inv(t) && t.file == s.file && t.capacity == s.capacity
  {
    match step
    case ReadFile =>
      var got := Min(CHUNK, |s.file| - s.next);
      assert s.file[..s.next] + s.file[s.next..s.next + got] == s.file[..s.next + got];
    case Push =>
      PushKeeps(s.delivered, s.ring, s.pending, Min(|s.pending|, s.capacity - |s.ring|));
    case Take(n) =>
      TakeKeeps(s.delivered, s.ring, s.pending, Min(n, |s.ring|));
  }

  lemma PushKeeps(a: seq<Frame>, b: seq<Frame>, c: seq<Frame>, w: nat)
    requires w <= |c|
    ensures a + (b + c[..w]) + c[w..] == a + b + c
  {
  }

  lemma TakeKeeps(a: seq<Frame>, b: seq<Frame>, c: seq<Frame>, n: nat)
    requires n <= |b|
    ensures (a + b[..n]) + b[n..] + c == a + b + c
  {
  }

  /** A run from any state in which nothing has been lost so far: a fresh player, or one prefilled. */
  ghost predicate Run(states: seq<Player>, steps: seq<Step>) {
    && |states| == |steps| + 1 && Inv(states[0])
    && forall k :: 0 <= k < |steps|
         ==> && |states[k].ring| <= states[k].capacity && states[k].next <= |states[k].file|
             && Next(states[k], steps[k], states[k + 1])
  }

  lemma {:induction false} RunKeepsInv(states: seq<Player>, steps: seq<Step>, k: nat)
    requires Run(states, steps) && k < |states|
    ensures Inv(states[k]) && states[k].file == states[0].file && states[k].capacity == states[0].capacity
  {
    if k == 0 {
    } else {
      RunKeepsInv(states, steps, k - 1);
      StepKeepsInv(states[k - 1], steps[k - 1], states[k]);
    }
  }

  /** Nothing is added on the way: what is delivered is a prefix of the machine's file, and all of it
      once the file has ended and the ring is empty. */
  lemma DeliveredIsPrefix(states: seq<Player>, steps: seq<Step>, k: nat)
    requires Run(states, steps) && k < |states|
    ensures states[k].delivered <= states[0].file
    ensures states[k].eof && states[k].ring == [] ==> states[k].delivered == states[0].file
  {
    RunKeepsInv(states, steps, k);
    var s, d := states[k], |states[k].delivered|;
    assert s.delivered == (s.delivered + s.ring + s.pending)[..d] == s.file[..s.next][..d] == s.file[..d];
  }

  // ----- the machine's steps are the reader's and the ring's -----

  /** The whole frames that data chunk and file share. */
  function Total(bytes: seq<byte>, wide: bool, dataBytes: u32): (k: nat)
    ensures Offset(wide, k) <= |bytes|
  {
    Min(Whole(wide, dataBytes), Whole(wide, |bytes|))
  }

  /** The converted file. */
  function Converted(bytes: seq<byte>, wide: bool, dataBytes: u32): (frames: seq<Frame>)
    ensures |frames| == Total(bytes, wide, dataBytes)
  {
    FramesTo(bytes, wide, Total(bytes, wide, dataBytes))
  }

  lemma {:induction false} FramesPrefix(bytes: seq<byte>, wide: bool, j: nat, k: nat)
    requires j <= k && Offset(wide, k) <= |bytes|
    ensures Offset(wide, j) <= |bytes| && FramesTo(bytes, wide, k)[..j] == FramesTo(bytes, wide, j)
    decreases k
  {
    if j == k {
    } else {
      FramesPrefix(bytes, wide, j, k - 1);
    }
  }

  /** A reader never gets past the whole frames, and stops short of a chunk only on reaching them. */
  lemma ReaderBounded(bytes: seq<byte>, wide: bool, dataBytes: u32, k: nat)
    requires dataBytes < 0xFFFF_FFFC && AllReadable(bytes, wide, dataBytes, k)
    ensures k <= Total(bytes, wide, dataBytes)
    ensures !Readable(bytes, wide, dataBytes, k) ==> k == Total(bytes, wide, dataBytes)
  {
    var total := Total(bytes, wide, dataBytes);
    ReadableIff(bytes, wide, dataBytes, total);
    if !Readable(bytes, wide, dataBytes, k) {
      ReaderTotal(bytes, wide, dataBytes, k);
    }
  }

  /** What a read of up to a chunk yields is the converted file's next slice. */
  lemma ReadIsSlice(bytes: seq<byte>, wide: bool, dataBytes: u32, from: nat, to: nat, out: seq<Frame>)
    requires from <= to <= Total(bytes, wide, dataBytes) && |out| == to - from && Offset(wide, from) <= |bytes|
    requires Offset(wide, to) <= |bytes| && FramesTo(bytes, wide, to) == FramesTo(bytes, wide, from) + out
    ensures out == Converted(bytes, wide, dataBytes)[from..to]
  {
    FramesPrefix(bytes, wide, to, Total(bytes, wide, dataBytes));
    assert out == FramesTo(bytes, wide, to)[from..];
  }

  /** A machine state describes a reader, the frames read but not yet written, and a ring. */
  ghost predicate Plays(wav: Wav, ring: MutexRing, pending: seq<Frame>, s: Player)
    reads wav, ring, ring.buf
  {
    && wav.Valid() && ring.Valid() && wav.dataBytes < 0xFFFF_FFFC
    && s.file == Converted(wav.file, wav.wide, wav.dataBytes) && s.next == wav.done <= |s.file|
    && s.pending == pending && s.eof == ring.eof && s.capacity == ring.buf.Length
    && s.ring == ring.written[ring.taken..] && s.delivered == ring.written[..ring.taken]
  }

  /** A fresh reader and ring are the machine's start. */
  lemma FreshPlays(wav: Wav, ring: MutexRing)
    requires wav.Valid() && ring.Valid() && wav.dataBytes < 0xFFFF_FFFC
    requires wav.done == 0 && ring.written == [] && !ring.eof
    ensures var s := Start(Converted(wav.file, wav.wide, wav.dataBytes), ring.buf.Length);
            Plays(wav, ring, [], s) && Inv(s)
  {
  }

  /** The machine's state for a reader and a ring with nothing read that is not yet written. */
  ghost function Playing(wav: Wav, ring: MutexRing): Player
    requires ring.taken <= |ring.written|
    reads wav, ring, ring.buf
  {
    Player(Converted(wav.file, wav.wide, wav.dataBytes), wav.done, [], ring.written[ring.taken..], ring.buf.Length,
           ring.eof, ring.written[..ring.taken])
  }

  /** A reader and a ring that went through the prefill can start a run: prefill keeps them in step
      and marks the end of the file only when no frame is left to read. */
  lemma PrefilledPlays(wav: Wav, ring: MutexRing)
    requires InStep(wav, ring) && wav.dataBytes < 0xFFFF_FFFC
    requires ring.eof ==> !wav.CanRead()
    ensures Plays(wav, ring, [], Playing(wav, ring)) && Inv(Playing(wav, ring))
  {
    ReaderBounded(wav.file, wav.wide, wav.dataBytes, wav.done);
    FramesPrefix(wav.file, wav.wide, wav.done, Total(wav.file, wav.wide, wav.dataBytes));
    WholeRing(ring.written, ring.taken);
  }

  lemma WholeRing(written: seq<Frame>, taken: nat)
    requires taken <= |written|
    ensures written[..taken] + written[taken..] + [] == written
  {
  }

  /** The machine's step for a chunk that came out as `out`. */
  function AfterRead(s: Player, out: seq<Frame>): Player {
    if out == [] then s.(eof := true) else s.(pending := out, next := s.next + |out|)
  }

  lemma ReadIsStep(bytes: seq<byte>, wide: bool, dataBytes: u32, s: Player, to: nat, out: seq<Frame>)
    requires dataBytes < 0xFFFF_FFFC && s.file == Converted(bytes, wide, dataBytes)
    requires s.pending == [] && |s.ring| <= s.capacity && s.next <= |s.file|
    requires AllReadable(bytes, wide, dataBytes, to) && to == s.next + |out| && |out| <= CHUNK
    requires |out| < CHUNK ==> !Readable(bytes, wide, dataBytes, to)
    requires Offset(wide, to) <= |bytes| && FramesTo(bytes, wide, to) == FramesTo(bytes, wide, s.next) + out
    ensures Next(s, ReadFile, AfterRead(s, out)) && to <= |s.file|
  {
    ReaderBounded(bytes, wide, dataBytes, to);
    ReadIsSlice(bytes, wide, dataBytes, s.next, to, out);
  }

  /** The producer reads its next chunk, or marks the end of the file. */
  method ReadChunk(wav: Wav, ring: MutexRing, tmp: array<Frame>, ghost s: Player) returns (got: nat, ghost t: Player)
    requires Plays(wav, ring, [], s) && tmp.Length == 1024 && tmp != ring.buf
    modifies wav, ring`eof, tmp
    ensures got <= tmp.Length && wav.done == old(wav.done) + got && (got < 1024 ==> !wav.CanRead())
    ensures Next(s, ReadFile, t) && Plays(wav, ring, tmp[..got], t)
  {
    got := wav.ReadFrames(tmp, 1024);
    t := AfterRead(s, tmp[..got]);
    ReadIsStep(wav.file, wav.wide, wav.dataBytes, s, wav.done, tmp[..got]);
    if got == 0 {
      ring.eof := true;
    }
  }

  function AfterPush(s: Player, w: nat): Player
    requires w <= |s.pending|
  {
    s.(ring := s.ring + s.pending[..w], pending := s.pending[w..])
  }

  lemma GrownRing(written: seq<Frame>, taken: nat, more: seq<Frame>)
    requires taken <= |written|
    ensures (written + more)[taken..] == written[taken..] + more
    ensures (written + more)[..taken] == written[..taken]
  {
  }

  /** The producer writes what fits of the rest of its chunk. */
  method PushChunk(wav: Wav, ring: MutexRing, src: seq<Frame>, ghost s: Player) returns (w: nat, ghost t: Player)
    requires Plays(wav, ring, src, s)
    modifies ring`head, ring`count, ring`written, ring.buf
    ensures w == Min(|src|, ring.buf.Length - old(ring.count)) && ring.count == old(ring.count) + w
    ensures w <= |src| && Next(s, Push, t) && Plays(wav, ring, src[w..], t)
  {
    ghost var written := ring.written;
    w := ring.Write(src);
    GrownRing(written, ring.taken, src[..w]);
    t := AfterPush(s, w);
  }

  /** The consumer fills one packet: real frames of the file, then silence. */
  method PullPacket(wav: Wav, ring: MutexRing, dst: array<Frame>, n: nat, ghost pending: seq<Frame>, ghost s: Player)
    returns (avail: nat, ghost t: Player)
    requires Plays(wav, ring, pending, s) && n <= dst.Length && dst != ring.buf
    modifies ring`tail, ring`count, ring`taken, ring`underruns, dst
    ensures avail == Min(n, old(ring.count))
    ensures Next(s, Take(n), t) && Plays(wav, ring, pending, t)
    ensures t.delivered == s.delivered + dst[..avail]
    ensures forall j :: avail <= j < n ==> dst[j] == SILENCE
  {
    ghost var taken := ring.taken;
    avail := ring.Read(dst, n);
    t := s.(ring := s.ring[avail..], delivered := s.delivered + s.ring[..avail]);
    TakeMoves(ring.written, taken, avail);
  }

  lemma TakeMoves(written: seq<Frame>, taken: nat, n: nat)
    requires taken + n <= |written|
    ensures written[taken..][n..] == written[taken + n..]
    ensures written[taken..][..n] == written[taken..taken + n]
    ensures written[..taken] + written[taken..taken + n] == written[..taken + n]
  {
  }

  /** Whole-file delivery: in every run of the machine, from a fresh player or from a prefilled one,
      a reader and a ring it describes have handed out a prefix of the converted file, and the
      whole of it once the ring reports itself drained. */
  lemma WholeFileDelivered(wav: Wav, ring: MutexRing, pending: seq<Frame>, states: seq<Player>, steps: seq<Step>,
                           k: nat)
    requires Run(states, steps) && k < |states| && Plays(wav, ring, pending, states[k])
    ensures ring.written[..ring.taken] <= Converted(wav.file, wav.wide, wav.dataBytes)
    ensures ring.eof && ring.taken == |ring.written|
        ==> ring.written[..ring.taken] == Converted(wav.file, wav.wide, wav.dataBytes)
  {
    RunKeepsInv(states, steps, k);
    DeliveredIsPrefix(states, steps, k);
  }
}
