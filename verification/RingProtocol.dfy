/** One producer and one consumer working the shared ring at the same time. Every load of a
    counter, every frame copied and every publication is a step of its own, and the two sides
    interleave freely. The producer is the ring_produce loop; the consumer is the ring_consume
    loop, or the resampler, which snapshots the fill, reads any slot below it and then advances
    tail by at most the snapshot. */
module RingProtocol {
  import opened Numbers
  import opened Sequences
  import opened DeviceFrames
  import opened ShmRing

  datatype Producer =
    | ProducerIdle
    | SizedHead(src: seq<Frame>, h: u32)                   // ring_space has loaded head
    | Filling(src: seq<Frame>, h: u32, n: nat, i: nat)     // n decided, i frames copied

  datatype Consumer =
    | ConsumerIdle
    | SeenHead(want: nat, h: u32)                          // ring_fill has loaded head
    | Draining(t: u32, n: nat, got: seq<Frame>)            // n decided, |got| frames copied
    | PumpSeenHead(h: u32)
    | Pumping(t: u32, avail: nat)

  /** head, tail and data are shared memory. accepted, taken, out, kept and skipped only record
      what happened: the stream of accepted frames, how many have left, the frames ring_consume
      copied out, their positions in the stream, and whether any frame left another way. */
  datatype State = State(
    head: u32, tail: u32, data: seq<Frame>,
    producer: Producer, consumer: Consumer,
    accepted: seq<Frame>, taken: nat, out: seq<Frame>, kept: seq<nat>, skipped: bool)

  datatype Action =
    | ProduceCall(src: seq<Frame>) | ProduceSize | ProduceCopy | ProducePublish
    | ConsumeCall(want: nat) | ConsumeSize | ConsumeCopy | ConsumePublish
    | PumpCall | PumpSnapshot | PumpPublish(count: nat)
    | Discard

  predicate Can(s: State, a: Action) {
    match a
    case ProduceCall(_) => s.producer.ProducerIdle?
    case ProduceSize => s.producer.SizedHead?
    case ProduceCopy =>
      s.producer.Filling? && s.producer.i < s.producer.n <= |s.producer.src| && |s.data| == RING_FRAMES
    case ProducePublish => s.producer.Filling? && s.producer.i == s.producer.n <= |s.producer.src|
    case ConsumeCall(_) => s.consumer.ConsumerIdle?
    case ConsumeSize => s.consumer.SeenHead?
    case ConsumeCopy => s.consumer.Draining? && |s.consumer.got| < s.consumer.n && |s.data| == RING_FRAMES
    case ConsumePublish => s.consumer.Draining? && |s.consumer.got| == s.consumer.n
    case PumpCall => s.consumer.ConsumerIdle?
    case PumpSnapshot => s.consumer.PumpSeenHead?
    case PumpPublish(count) => s.consumer.Pumping? && count <= s.consumer.avail
    // The capture callback empties a full ring from the producer's side; safe only while the
    // consumer is not inside a call.
    case Discard => s.producer.ProducerIdle? && s.consumer.ConsumerIdle? && Wrap(131072 - Wrap(s.head - s.tail)) == 0
  }

  function Do(s: State, a: Action): State
    requires Can(s, a)
  {
    match a
    case ProduceCall(src) => s.(producer := SizedHead(src, s.head))
    case ProduceSize =>
      var space := Wrap(131072 - Wrap(s.producer.h - s.tail));
      s.(producer := Filling(s.producer.src, s.head, Min(|s.producer.src|, space), 0))
    case ProduceCopy =>
      var p := s.producer;
      s.(data := s.data[Place(p.h, p.i) := p.src[p.i]], producer := p.(i := p.i + 1))
    case ProducePublish =>
      var p := s.producer;
      s.(head := Wrap(p.h + p.n), accepted := s.accepted + p.src[..p.n], producer := ProducerIdle)
    case ConsumeCall(want) => s.(consumer := SeenHead(want, s.head))
    case ConsumeSize =>
      var fill := Wrap(s.consumer.h - s.tail);
      s.(consumer := Draining(s.tail, Min(s.consumer.want, fill), []))
    case ConsumeCopy =>
      var c := s.consumer;
      s.(consumer := c.(got := c.got + [s.data[Place(c.t, |c.got|)]]))
    case ConsumePublish =>
      var c := s.consumer;
      s.(tail := Wrap(c.t + c.n), taken := s.taken + c.n,
         out := s.out + c.got, kept := s.kept + Consecutive(s.taken, c.n), consumer := ConsumerIdle)
    case PumpCall => s.(consumer := PumpSeenHead(s.head))
    case PumpSnapshot => s.(consumer := Pumping(s.tail, Wrap(s.consumer.h - s.tail)))
    case PumpPublish(count) =>
      s.(tail := Wrap(s.consumer.t + count), taken := s.taken + count, skipped := true, consumer := ConsumerIdle)
    case Discard => s.(tail := s.head, taken := |s.accepted|, skipped := true)
  }

  // ----- the invariant -----

  ghost predicate Counters(s: State) {
    && s.taken <= |s.accepted| <= s.taken + RING_FRAMES
    && s.head == Wrap(|s.accepted|)
    && s.tail == Wrap(s.taken)
  }

  /** Every slot from position lo to hi holds the frame the stream says it holds. */
  ghost predicate Holds(data: seq<Frame>, stream: seq<Frame>, lo: nat, hi: nat)
    requires hi <= |stream|
  {
    && |data| == RING_FRAMES
    && forall k :: lo <= k < hi ==> data[Slot(k)] == stream[k]
  }

  ghost predicate Backed(s: State) {
    Holds(s.data, s.accepted, s.taken, |s.accepted|)
  }

  /** The frames being written, seen as the stream they will extend. */
  ghost predicate ProducerInv(s: State) {
    match s.producer
    case ProducerIdle => true
    case SizedHead(_, h) => h == s.head
    case Filling(src, h, n, i) =>
      && h == s.head && i <= n <= |src|
      && |s.accepted| + n <= s.taken + RING_FRAMES
      && Holds(s.data, s.accepted + src, |s.accepted|, |s.accepted| + i)
  }

  ghost predicate ConsumerInv(s: State) {
    match s.consumer
    case ConsumerIdle => true
    case SeenHead(_, h) => s.taken + Wrap(h - s.tail) <= |s.accepted|
    case Draining(t, n, got) =>
      && t == s.tail && |got| <= n && s.taken + n <= |s.accepted|
      && got == s.accepted[s.taken..s.taken + |got|]
    case PumpSeenHead(h) => s.taken + Wrap(h - s.tail) <= |s.accepted|
    case Pumping(t, avail) => t == s.tail && s.taken + avail <= |s.accepted|
  }

  /** The delivered frames are the accepted ones at strictly increasing positions below taken,
      and all of those when no frame left the ring any other way. */
  ghost predicate Delivered(accepted: seq<Frame>, taken: nat, out: seq<Frame>, kept: seq<nat>, skipped: bool) {
    && |out| == |kept| && taken <= |accepted|
    && (forall i :: 0 <= i < |kept| ==> kept[i] < taken && out[i] == accepted[kept[i]])
    && Increasing(kept)
    && (!skipped ==> out == accepted[..taken])
  }

  ghost predicate LogInv(s: State) {
    Delivered(s.accepted, s.taken, s.out, s.kept, s.skipped)
  }

  ghost predicate Inv(s: State) {
    Counters(s) && Backed(s) && ProducerInv(s) && ConsumerInv(s) && LogInv(s)
  }

  ghost predicate Init(s: State) {
    && s.head == s.tail == 0 && |s.data| == RING_FRAMES
    && s.producer == ProducerIdle && s.consumer == ConsumerIdle
    && s.accepted == [] && s.taken == 0 && s.out == [] && s.kept == [] && !s.skipped
  }

  /** Writing slot |accepted| + i changes neither a readable slot nor one already filled. */
  lemma CopyLeavesOthers(s: State, k: nat)
    requires Inv(s) && Can(s, ProduceCopy)
    requires s.taken <= k < |s.accepted| + s.producer.i
    ensures Do(s, ProduceCopy).data[Slot(k)] == s.data[Slot(k)]
  {
    PlaceIsSlot(|s.accepted|, s.producer.i);
    SlotsDiffer(k, |s.accepted| + s.producer.i);
  }

  lemma CopyKeepsBacked(s: State)
    requires Inv(s) && Can(s, ProduceCopy)
    ensures Backed(Do(s, ProduceCopy))
  {
    forall k | s.taken <= k < |s.accepted|
      ensures Do(s, ProduceCopy).data[Slot(k)] == s.accepted[k]
    {
      CopyLeavesOthers(s, k);
    }
  }

  lemma CopyFills(s: State)
    requires Inv(s) && Can(s, ProduceCopy)
    ensures Holds(Do(s, ProduceCopy).data, s.accepted + s.producer.src, |s.accepted|, |s.accepted| + s.producer.i + 1)
  {
    var top, i, next := |s.accepted|, s.producer.i, s.accepted + s.producer.src;
    forall k | top <= k < top + i + 1
      ensures Do(s, ProduceCopy).data[Slot(k)] == next[k]
    {
      if k < top + i {
        CopyLeavesOthers(s, k);
      } else {
        PlaceIsSlot(top, i);
      }
    }
  }

  lemma CopyStep(s: State)
    requires Inv(s) && Can(s, ProduceCopy)
    ensures Inv(Do(s, ProduceCopy))
  {
    CopyKeepsBacked(s);
    CopyFills(s);
  }

  lemma SizeStep(s: State)
    requires Inv(s) && Can(s, ProduceSize)
    ensures Inv(Do(s, ProduceSize))
  {
    FillOfWrapped(|s.accepted|, s.taken);
  }

  lemma PublishBacked(s: State)
    requires Inv(s) && Can(s, ProducePublish)
    ensures Counters(Do(s, ProducePublish)) && Backed(Do(s, ProducePublish))
  {
    var p := s.producer;
    WrapAdd(|s.accepted|, p.n);
    var s' := Do(s, ProducePublish);
    forall k | s'.taken <= k < |s'.accepted|
      ensures s'.data[Slot(k)] == s'.accepted[k]
    {
      assert s'.accepted[k] == (s.accepted + p.src)[k];
    }
  }

  lemma PrefixKept(stream: seq<Frame>, more: seq<Frame>, lo: nat, hi: nat)
    requires lo <= hi <= |stream|
    ensures (stream + more)[lo..hi] == stream[lo..hi]
  {
  }

  lemma PublishKeepsLog(s: State)
    requires Inv(s) && Can(s, ProducePublish)
    ensures LogInv(Do(s, ProducePublish))
  {
    PrefixKept(s.accepted, s.producer.src[..s.producer.n], 0, s.taken);
  }

  lemma PublishStep(s: State)
    requires Inv(s) && Can(s, ProducePublish)
    ensures Inv(Do(s, ProducePublish))
  {
    PublishBacked(s);
    PublishKeepsLog(s);
    if s.consumer.Draining? {
      PrefixKept(s.accepted, s.producer.src[..s.producer.n], s.taken, s.taken + |s.consumer.got|);
    }
  }

  lemma ConsumeCallStep(s: State, a: Action)
    requires Inv(s) && Can(s, a)
    requires a.ConsumeCall? || a.ConsumeSize? || a.PumpCall? || a.PumpSnapshot?
    ensures Inv(Do(s, a))
  {
    FillOfWrapped(|s.accepted|, s.taken);
  }

  lemma SliceGrows(stream: seq<Frame>, lo: nat, hi: nat)
    requires lo <= hi < |stream|
    ensures stream[lo..hi + 1] == stream[lo..hi] + [stream[hi]]
  {
  }

  lemma ConsumeCopyStep(s: State)
    requires Inv(s) && Can(s, ConsumeCopy)
    ensures Inv(Do(s, ConsumeCopy))
  {
    var c, k := s.consumer, s.taken + |s.consumer.got|;
    PlaceIsSlot(s.taken, |c.got|);
    assert s.data[Place(c.t, |c.got|)] == s.accepted[k];
    SliceGrows(s.accepted, s.taken, k);
    var s' := Do(s, ConsumeCopy);
    assert s' == s.(consumer := Draining(c.t, c.n, s.accepted[s.taken..k + 1]));
  }

  lemma IncreasingGrows(p: seq<nat>, from: nat, n: nat)
    requires Increasing(p)
    requires forall i :: 0 <= i < |p| ==> p[i] < from
    ensures Increasing(p + Consecutive(from, n))
  {
  }

  /** Appending the next n stream positions keeps the delivery log an in-order selection. */
  lemma LogGrows(s: State, n: nat)
    requires LogInv(s) && s.taken + n <= |s.accepted|
    ensures Delivered(s.accepted, s.taken + n, s.out + s.accepted[s.taken..s.taken + n],
                      s.kept + Consecutive(s.taken, n), s.skipped)
  {
    IncreasingGrows(s.kept, s.taken, n);
    assert s.accepted[..s.taken + n] == s.accepted[..s.taken] + s.accepted[s.taken..s.taken + n];
  }

  lemma ConsumePublishStep(s: State)
    requires Inv(s) && Can(s, ConsumePublish)
    ensures Inv(Do(s, ConsumePublish))
  {
    WrapAdd(s.taken, s.consumer.n);
    LogGrows(s, s.consumer.n);
  }

  lemma PumpPublishStep(s: State, count: nat)
    requires Inv(s) && Can(s, PumpPublish(count))
    ensures Inv(Do(s, PumpPublish(count)))
  {
    WrapAdd(s.taken, count);
  }

  lemma DiscardStep(s: State)
    requires Inv(s) && Can(s, Discard)
    ensures Inv(Do(s, Discard))
  {
  }

  /** Every step of every interleaving keeps the invariant. */
  lemma EveryStepKeepsInv(s: State, a: Action)
    requires Inv(s) && Can(s, a)
    ensures Inv(Do(s, a))
  {
    match a
    case ProduceCall(_) =>
    case ProduceSize => SizeStep(s);
    case ProduceCopy => CopyStep(s);
    case ProducePublish => PublishStep(s);
    case ConsumeCall(_) => ConsumeCallStep(s, a);
    case ConsumeSize => ConsumeCallStep(s, a);
    case ConsumeCopy => ConsumeCopyStep(s);
    case ConsumePublish => ConsumePublishStep(s);
    case PumpCall => ConsumeCallStep(s, a);
    case PumpSnapshot => ConsumeCallStep(s, a);
    case PumpPublish(count) => PumpPublishStep(s, count);
    case Discard => DiscardStep(s);
  }

  /** A run: the states visited, one action between neighbours. */
  ghost predicate Run(states: seq<State>, actions: seq<Action>) {
    && |states| == |actions| + 1
    && Init(states[0])
    && forall i :: 0 <= i < |actions| ==> Can(states[i], actions[i]) && states[i + 1] == Do(states[i], actions[i])
  }

  lemma {:induction false} RunKeepsInv(states: seq<State>, actions: seq<Action>, i: nat)
    requires Run(states, actions)
    requires i < |states|
    ensures Inv(states[i])
  {
    if i == 0 {
    } else {
      RunKeepsInv(states, actions, i - 1);
      assert states[i - 1 + 1] == Do(states[i - 1], actions[i - 1]);
      EveryStepKeepsInv(states[i - 1], actions[i - 1]);
    }
  }

  /** Safety of the ring over whole runs, across any number of 2^32 wraps: the wrapped counters
      always give the true fill, which never exceeds the ring; ring_consume's output is an
      in-order selection of the accepted frames, and exactly their first `taken` when nothing
      but ring_consume has removed frames. */
  lemma RingSafety(states: seq<State>, actions: seq<Action>, i: nat)
    requires Run(states, actions)
    requires i < |states|
    ensures var s := states[i];
            && s.taken <= |s.accepted| <= s.taken + RING_FRAMES
            && Wrap(s.head - s.tail) == |s.accepted| - s.taken
            && LogInv(s)
  {
    RunKeepsInv(states, actions, i);
    FillOfWrapped(|states[i].accepted|, states[i].taken);
  }

  /** The slot the producer is about to write is not readable, nor part of what the consumer has
      already claimed. */
  lemma WritesOnlyFreeSlots(states: seq<State>, actions: seq<Action>, i: nat, k: nat)
    requires Run(states, actions)
    requires i < |states|
    requires Can(states[i], ProduceCopy)
    requires states[i].taken <= k < |states[i].accepted|
    ensures Slot(k) != Place(states[i].producer.h, states[i].producer.i)
  {
    RunKeepsInv(states, actions, i);
    var s := states[i];
    PlaceIsSlot(|s.accepted|, s.producer.i);
    SlotsDiffer(k, |s.accepted| + s.producer.i);
  }

  /** Anything the resampler reads below its snapshot is the stream's own frame: published,
      and not reused however far the producer has run ahead since. */
  lemma PumpReadsStream(states: seq<State>, actions: seq<Action>, i: nat, base: nat)
    requires Run(states, actions)
    requires i < |states|
    requires states[i].consumer.Pumping? && base < states[i].consumer.avail
    ensures var s := states[i];
            && s.taken + base < |s.accepted|
            && |s.data| == RING_FRAMES
            && s.data[Place(s.consumer.t, base)] == s.accepted[s.taken + base]
  {
    RunKeepsInv(states, actions, i);
    PlaceIsSlot(states[i].taken, base);
  }

  // ----- whole calls -----

  /** No call of that side ends between events i and l. */
  ghost predicate StillConsuming(actions: seq<Action>, i: nat, l: nat)
    requires l <= |actions|
  {
    forall m :: i < m < l ==> !actions[m].ConsumePublish?
  }

  ghost predicate StillProducing(actions: seq<Action>, i: nat, l: nat)
    requires l <= |actions|
  {
    forall m :: i < m < l ==> !actions[m].ProducePublish?
  }

  /** A ring_consume call in progress: what it found readable when it loaded head. */
  ghost predicate Consuming(s: State, want: nat, before: State) {
    && s.taken == before.taken && s.tail == before.tail && s.out == before.out
    && match s.consumer
       case SeenHead(w, h) => w == want && h == before.head
       case Draining(_, n, _) => n == Min(want, Wrap(before.head - before.tail))
       case _ => false
  }

  lemma {:induction false} ConsumeContinues(states: seq<State>, actions: seq<Action>, i: nat, k: nat, want: nat)
    requires Run(states, actions) && i < k <= |actions| && actions[i] == ConsumeCall(want)
    requires StillConsuming(actions, i, k)
    ensures Consuming(states[k], want, states[i])
    decreases k
  {
    assert states[k - 1 + 1] == Do(states[k - 1], actions[k - 1]);
    if k == i + 1 {
    } else {
      ConsumeContinues(states, actions, i, k - 1, want);
    }
  }

  /** Publishing a claim of n frames delivers the next n of the stream. */
  lemma PublishDelivers(s: State, n: nat)
    requires Inv(s) && Can(s, ConsumePublish) && s.consumer.n == n
    ensures var t := Do(s, ConsumePublish);
            && t.taken == s.taken + n && s.taken + n <= |t.accepted|
            && t.out == s.out + t.accepted[s.taken..s.taken + n]
  {
  }

  /** A whole ring_consume call, however the producer interleaves, delivers the oldest frames there
      were when it loaded head: as many as it wants, or all of them. */
  lemma ConsumeDelivers(states: seq<State>, actions: seq<Action>, i: nat, l: nat, want: nat)
    requires Run(states, actions) && i < l < |actions|
    requires actions[i] == ConsumeCall(want) && actions[l] == ConsumePublish && StillConsuming(actions, i, l)
    ensures var s, t, n := states[i], states[l + 1], Min(want, |states[i].accepted| - states[i].taken);
            && 0 <= n && t.taken == s.taken + n && s.taken + n <= |t.accepted|
            && t.out == s.out + t.accepted[s.taken..s.taken + n]
  {
    ConsumeContinues(states, actions, i, l, want);
    RingSafety(states, actions, i);
    RunKeepsInv(states, actions, l);
    assert Can(states[l], actions[l]) && states[l + 1] == Do(states[l], actions[l]);
    PublishDelivers(states[l], Min(want, |states[i].accepted| - states[i].taken));
  }

  /** A ring_produce call in progress, not yet sized, or sized for `space` free slots. */
  ghost predicate Producing(s: State, src: seq<Frame>, before: State, space: nat) {
    && s.accepted == before.accepted && s.head == before.head
    && match s.producer
       case SizedHead(p, h) => p == src && h == s.head
       case Filling(p, h, n, _) => p == src && h == s.head && n == Min(|src|, space)
       case _ => false
  }

  /** Event j is where the call sizes its copy. */
  ghost predicate SizedAt(actions: seq<Action>, i: nat, j: nat, l: nat)
    requires l <= |actions|
  {
    i < j < l && actions[j] == ProduceSize && forall m :: i < m < j ==> !actions[m].ProduceSize?
  }

  function SpaceAt(s: State): nat { Wrap(131072 - Wrap(s.head - s.tail)) }

  lemma {:induction false} ProduceWaits(states: seq<State>, actions: seq<Action>, i: nat, j: nat, l: nat, k: nat,
                                        src: seq<Frame>)
    requires Run(states, actions) && l <= |actions| && SizedAt(actions, i, j, l) && i < k <= j
    requires actions[i] == ProduceCall(src) && StillProducing(actions, i, l)
    ensures Producing(states[k], src, states[i], SpaceAt(states[j])) && states[k].producer.SizedHead?
    decreases k
  {
    assert states[k - 1 + 1] == Do(states[k - 1], actions[k - 1]);
    if k == i + 1 {
    } else {
      ProduceWaits(states, actions, i, j, l, k - 1, src);
    }
  }

  lemma {:induction false} ProduceContinues(states: seq<State>, actions: seq<Action>, i: nat, j: nat, l: nat, k: nat,
                                            src: seq<Frame>)
    requires Run(states, actions) && l <= |actions| && SizedAt(actions, i, j, l) && j < k <= l
    requires actions[i] == ProduceCall(src) && StillProducing(actions, i, l)
    ensures Producing(states[k], src, states[i], SpaceAt(states[j])) && states[k].producer.Filling?
    decreases k
  {
    assert states[k - 1 + 1] == Do(states[k - 1], actions[k - 1]);
    if k == j + 1 {
      ProduceWaits(states, actions, i, j, l, j, src);
    } else {
      ProduceContinues(states, actions, i, j, l, k - 1, src);
    }
  }

  /** A whole ring_produce call, however the consumer interleaves, appends the longest prefix of its
      source that fits behind tail as it stood when the call read it. */
  lemma ProduceAppends(states: seq<State>, actions: seq<Action>, i: nat, j: nat, l: nat, src: seq<Frame>)
    requires Run(states, actions) && l < |actions| && SizedAt(actions, i, j, l)
    requires actions[i] == ProduceCall(src) && actions[l] == ProducePublish && StillProducing(actions, i, l)
    ensures var n := Min(|src|, states[j].taken + RING_FRAMES - |states[i].accepted|);
            0 <= n && states[l + 1].accepted == states[i].accepted + src[..n]
  {
    ProduceWaits(states, actions, i, j, l, j, src);
    ProduceContinues(states, actions, i, j, l, l, src);
    RingSafety(states, actions, j);
    assert Can(states[l], actions[l]) && states[l + 1] == Do(states[l], actions[l]);
  }

  // ----- why Discard waits for the consumer -----

  /** The capture callback's discard without the guard on the consumer. */
  function Discarded(s: State): State {
    s.(tail := s.head, taken := |s.accepted|, skipped := true)
  }

  /** k copies of the producer. */
  function Copies(s: State, k: nat): (t: State)
    requires s.producer.Filling? && s.producer.i + k <= s.producer.n <= |s.producer.src| && |s.data| == RING_FRAMES
    ensures t == s.(data := t.data, producer := s.producer.(i := s.producer.i + k)) && |t.data| == RING_FRAMES
  {
    if k == 0 then s else Do(Copies(s, k - 1), ProduceCopy)
  }

  /** A whole ring_produce call, from its first load to its publication. */
  function Produced(s: State, src: seq<Frame>): State
    requires s.producer.ProducerIdle? && |s.data| == RING_FRAMES
  {
    var sized := Do(Do(s, ProduceCall(src)), ProduceSize);
    Do(Copies(sized, sized.producer.n), ProducePublish)
  }

  /** A ring_produce call on an empty ring takes all of up to a ring of frames. */
  lemma ProducedEmpty(s: State, src: seq<Frame>)
    requires s.producer.ProducerIdle? && |s.data| == RING_FRAMES && s.head == s.tail && |src| <= RING_FRAMES
    ensures var t := Produced(s, src);
            t.head == Wrap(s.head + |src|) && t.tail == s.tail && t.consumer == s.consumer
  {
    assert Wrap(131072 - Wrap(0)) == 131072;
  }

  /** Had the callback emptied a full ring while ring_consume still held n claimed frames, one
      ring_produce of m frames and then the consumer's publication, which moves tail back, would
      leave the ring reporting RING_FRAMES + m - n. The bound breaks exactly when the producer got
      further than the stale claim. */
  lemma OverlappingDiscardOverfills(s: State, src: seq<Frame>)
    requires Inv(s) && s.producer.ProducerIdle? && |s.accepted| == s.taken + RING_FRAMES
    requires Can(s, ConsumePublish) && |src| <= RING_FRAMES
    ensures Can(Produced(Discarded(s), src), ConsumePublish)
    ensures var t := Do(Produced(Discarded(s), src), ConsumePublish);
            && Wrap(t.head - t.tail) == RING_FRAMES + |src| - s.consumer.n
            && (Wrap(t.head - t.tail) <= RING_FRAMES <==> |src| <= s.consumer.n)
  {
    OverlapFill(s, src);
  }

  lemma OverlapFill(s: State, src: seq<Frame>)
    requires Counters(s) && s.producer.ProducerIdle? && |s.data| == RING_FRAMES && |s.accepted| == s.taken + RING_FRAMES
    requires Can(s, ConsumePublish) && s.consumer.t == s.tail && s.consumer.n <= RING_FRAMES && |src| <= RING_FRAMES
    ensures Can(Produced(Discarded(s), src), ConsumePublish)
    ensures var t := Do(Produced(Discarded(s), src), ConsumePublish);
            Wrap(t.head - t.tail) == RING_FRAMES + |src| - s.consumer.n
  {
    ProducedEmpty(Discarded(s), src);
    StaleClaim(Produced(Discarded(s), src), |s.accepted|, |src|, s.taken);
  }

  /** The consumer publishes a claim made before head moved m further. */
  lemma StaleClaim(t: State, a: nat, m: nat, b: nat)
    requires Can(t, ConsumePublish) && t.head == Wrap(Wrap(a) + m) && t.consumer.t == Wrap(b)
    requires b + t.consumer.n <= a + m < b + t.consumer.n + 0x1_0000_0000
    ensures var u := Do(t, ConsumePublish); Wrap(u.head - u.tail) == a + m - b - t.consumer.n
  {
    AdvancedDifference(a, m, b, t.consumer.n);
  }

  lemma AdvancedDifference(a: nat, m: nat, b: nat, n: nat)
    requires b + n <= a + m < b + n + 0x1_0000_0000
    ensures Wrap(Wrap(Wrap(a) + m) - Wrap(Wrap(b) + n)) == a + m - b - n
  {
    WrapAdd(a, m);
    WrapAdd(b, n);
    WrapDifference(a + m, b + n);
  }

  lemma WrapDifference(a: nat, b: nat)
    requires b <= a < b + 0x1_0000_0000
    ensures Wrap(Wrap(a) - Wrap(b)) == a - b
  {
  }
}
