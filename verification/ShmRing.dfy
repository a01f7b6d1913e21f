/** The shared-memory frame ring: free-running 32-bit head and tail counters masked into a
    power-of-two buffer. The ghost stream holds every frame ever accepted; |stream| and taken
    are the counters without the wrap. */
module ShmRing {
  import opened Numbers
  import opened DeviceFrames

  const RING_FRAMES := 131072

  /** Masking a counter with RING_FRAMES - 1. */
  function Slot(counter: nat): (s: nat)
    ensures s < RING_FRAMES
  {
    counter % 131072
  }

  /** The slot i places past a wrapped counter, as the copy loops compute it. */
  function Place(counter: u32, i: nat): (s: nat)
    ensures s < RING_FRAMES
  {
    Slot(Wrap(counter + i))
  }

  /** The wrapped counter selects the slot the unwrapped one would. */
  lemma PlaceIsSlot(counter: nat, i: nat)
    ensures Place(Wrap(counter), i) == Slot(counter + i)
  {
    WrapAdd(counter, i);
    SlotOfWrap(counter + i);
  }

  lemma SlotOfWrap(x: nat)
    ensures Slot(Wrap(x)) == Slot(x)
  {
    var q := x / 0x1_0000_0000;
    assert x == Wrap(x) + 131072 * (32768 * q);
  }

  /** Counters less than a whole ring apart never share a slot. */
  lemma SlotsDiffer(a: nat, b: nat)
    requires a < b < a + RING_FRAMES
    ensures Slot(a) != Slot(b)
  {
  }

  /** Unsigned subtraction of the wrapped counters is the true fill. */
  lemma FillOfWrapped(h: nat, t: nat)
    requires t <= h <= t + RING_FRAMES
    ensures Wrap(Wrap(h) - Wrap(t)) == h - t
  {
  }

  /** Calls of ring_produce, whose count is a 32-bit word. */
  ghost predicate Calls(offers: seq<seq<Frame>>) {
    forall i :: 0 <= i < |offers| ==> |offers[i]| < 0x1_0000_0000
  }

  class Ring {
    var head: u32
    var tail: u32
    const data: array<Frame>

    ghost var stream: seq<Frame>
    ghost var taken: nat

    ghost predicate Valid()
      reads this, data
    {
      && data.Length == RING_FRAMES
      && taken <= |stream| <= taken + RING_FRAMES
      && head == Wrap(|stream|)
      && tail == Wrap(taken)
      && forall k :: taken <= k < |stream| ==> data[Slot(k)] == stream[k]
    }

    /** Frames accepted and not yet taken. */
    ghost function Level(): (n: nat)
      requires Valid()
      reads this, data
      ensures n <= RING_FRAMES
    {
      |stream| - taken
    }

    /** The slot i places past tail holds the frame i places past the last one taken. */
    lemma ReadsStream(i: nat)
      requires Valid()
      requires i < Level()
      ensures data[Place(tail, i)] == stream[taken + i]
    {
      PlaceIsSlot(taken, i);
    }

    /** The n slots from a wrapped counter on, as a sequence. */
    ghost function Slots(from: u32, n: nat): (frames: seq<Frame>)
      requires data.Length == RING_FRAMES
      reads data
      ensures |frames| == n && forall k :: 0 <= k < n ==> frames[k] == data[Place(from, k)]
    {
      seq(n, k requires 0 <= k < n reads data requires data.Length == RING_FRAMES => data[Place(from, k)])
    }

    /** Everything readable is the end of the stream. */
    lemma SlotsHoldStream()
      requires Valid()
      ensures Slots(tail, Level()) == stream[taken..]
    {
      forall k | 0 <= k < Level()
        ensures Slots(tail, Level())[k] == stream[taken + k]
      {
        ReadsStream(k);
      }
    }

    /** And so is any beginning of it. */
    lemma SlotsHoldPrefix(n: nat)
      requires Valid() && n <= Level()
      ensures Slots(tail, n) == stream[taken..taken + n]
    {
      forall k | 0 <= k < n
        ensures Slots(tail, n)[k] == stream[taken + k]
      {
        ReadsStream(k);
      }
    }

    constructor ()
      ensures Valid() && fresh(data)
      ensures stream == [] && taken == 0
    {
      head, tail := 0, 0;
      data := new Frame[131072](_ => SILENCE);
      stream, taken := [], 0;
    }

    method Fill() returns (n: u32)
      requires Valid()
      ensures n == Level()
    {
      FillOfWrapped(|stream|, taken);
      n := Wrap(head - tail);
    }

    method Space() returns (n: u32)
      requires Valid()
      ensures n == RING_FRAMES - Level()
    {
      var fill := Fill();
      n := Wrap(131072 - fill);
    }

    /** The copy loop of a producer: fills free slots behind the last frame, so that no readable
        slot is touched and the new frames are in place before they are published. */
    method CopyIn(src: seq<Frame>, n: nat)
      requires Valid()
      requires n <= |src| && Level() + n <= RING_FRAMES
      modifies data
      ensures Valid()
      ensures forall j :: 0 <= j < n ==> data[Slot(|stream| + j)] == src[j]
    {
      var i := 0;
      while i < n
        invariant 0 <= i <= n
        invariant Valid()
        invariant forall j :: 0 <= j < i ==> data[Slot(|stream| + j)] == src[j]
      {
        PlaceIsSlot(|stream|, i);
        forall k | taken <= k < |stream| + i
          ensures Slot(k) != Slot(|stream| + i)
        {
          SlotsDiffer(k, |stream| + i);
        }
        data[Place(head, i)] := src[i];
        i := i + 1;
      }
    }

    /** Producer: accepts a prefix of the source, as much as fits, behind what is already there. */
    method Produce(src: seq<Frame>) returns (n: nat)
      requires Valid()
      requires |src| < 0x1_0000_0000
      modifies this`head, this`stream, data
      ensures Valid()
      ensures n == Min(|src|, RING_FRAMES - old(Level()))
      ensures stream == old(stream) + src[..n]
    {
      n := |src|;
      var space := Space();
      if n > space {
        n := space;
      }
      CopyIn(src, n);
      ghost var top := |stream|;
      WrapAdd(top, n);
      head := Wrap(head + n);
      stream := stream + src[..n];
      forall k | taken <= k < |stream|
        ensures data[Slot(k)] == stream[k]
      {
        if top <= k {
          assert data[Slot(top + (k - top))] == src[k - top];
        }
      }
    }

    /** The copy loop of a consumer: the oldest n frames in order, nothing else in the buffer. */
    method CopyOut(n: nat, dst: array<Frame>)
      requires Valid()
      requires n <= Level() && n <= dst.Length
      requires dst != data
      modifies dst
      ensures dst[..n] == stream[taken..taken + n]
      ensures forall j :: n <= j < dst.Length ==> dst[j] == old(dst[j])
    {
      ghost var want := stream[taken..taken + n];
      forall k | 0 <= k < n
        ensures data[Place(tail, k)] == want[k]
      {
        ReadsStream(k);
      }
      var i := 0;
      while i < n
        invariant 0 <= i <= n
        invariant forall k :: 0 <= k < n ==> data[Place(tail, k)] == want[k]
        invariant dst[..i] == want[..i]
        invariant forall j :: i <= j < dst.Length ==> dst[j] == old(dst[j])
      {
        ghost var before := dst[..i];
        dst[i] := data[Place(tail, i)];
        assert dst[..i + 1] == before + [want[i]];
        assert want[..i + 1] == want[..i] + [want[i]];
        i := i + 1;
      }
    }

    /** Consumer: hands out the oldest frames in order, as many as are there. */
    method Consume(n: u32, dst: array<Frame>) returns (got: nat)
      requires Valid()
      requires n <= dst.Length
      requires dst != data
      modifies this`tail, this`taken, dst
      ensures Valid()
      ensures got == Min(n, old(Level())) && taken == old(taken) + got
      ensures dst[..got] == stream[old(taken)..taken]
      ensures forall j :: got <= j < dst.Length ==> dst[j] == old(dst[j])
    {
      got := n;
      var fill := Fill();
      if got > fill {
        got := fill;
      }
      CopyOut(got, dst);
      WrapAdd(taken, got);
      tail := Wrap(tail + got);
      taken := taken + got;
    }

    /** Consumer for a callback that must fill its buffer: real frames, then silence. */
    method ConsumeZeroFill(n: u32, dst: array<Frame>) returns (got: nat)
      requires Valid()
      requires n <= dst.Length
      requires dst != data
      modifies this`tail, this`taken, dst
      ensures Valid()
      ensures got == Min(n, old(Level())) && taken == old(taken) + got
      ensures dst[..got] == stream[old(taken)..taken]
      ensures forall j :: got <= j < n ==> dst[j] == SILENCE
      ensures forall j :: n <= j < dst.Length ==> dst[j] == old(dst[j])
    {
      got := Consume(n, dst);
      ghost var frames := dst[..got];
      forall j | got <= j < n {
        dst[j] := SILENCE;
      }
      assert dst[..got] == frames;
    }

    /** A consumer's publication: up to n of the oldest frames are gone. */
    method Take(n: nat) returns (gone: nat)
      requires Valid()
      modifies this`tail, this`taken
      ensures Valid()
      ensures gone == Min(n, old(Level())) && taken == old(taken) + gone
    {
      gone := n;
      var fill := Fill();
      if gone > fill {
        gone := fill;
      }
      WrapAdd(taken, gone);
      tail := Wrap(tail + gone);
      taken := taken + gone;
    }

    /** Setting tail to head empties the ring without touching the data. */
    method Discard()
      requires Valid()
      modifies this`tail, this`taken
      ensures Valid()
      ensures taken == |stream|
    {
      tail := head;
      taken := |stream|;
    }
  }
}
