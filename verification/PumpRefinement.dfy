/** The resampler inside the load-by-load ring protocol: it loads the counters, reads two slots for
    every sounding frame and publishes tail, while ring_produce copies and publishes at any moment.
    Every run of that machine is a playback run, a transfer beginning where head is loaded. */
module PumpRefinement {
  import opened Numbers
  import opened DeviceFrames
  import opened ShmRing
  import opened Resampler
  import RP = RingProtocol
  import PR = PlaybackRun

  /** The transfer in progress: its ratio and size, the frames rendered, the sounding ones among
      them, the position reached, and the slots already read for the next frame. */
  datatype Work = Work(ratio: real, n: nat, out: seq<Cell>, heard: nat, pos: real, held: seq<Frame>)

  /** What the run has added up so far, as in a playback run. */
  datatype Log = Log(sound: seq<Cell>, spots: seq<real>, ratios: seq<real>, sent: nat, silent: nat, refused: nat)

  datatype State = State(ring: RP.State, frac: real, work: Work, log: Log)

  /** LoadHead carries the ratio that the fill about to be computed leads to. */
  datatype Move =
    | Producer(a: RP.Action)
    | LoadHead(ratio: real, n: nat)
    | LoadTail
    | ReadSlot
    | Render
    | Publish

  predicate IsProducer(a: RP.Action) {
    a.ProduceCall? || a.ProduceSize? || a.ProduceCopy? || a.ProducePublish?
  }

  predicate Can(s: State, m: Move) {
    match m
    case Producer(a) => IsProducer(a) && RP.Can(s.ring, a)
    case LoadHead(ratio, _) => RP.Can(s.ring, RP.PumpCall) && 0.99 <= ratio <= 1.01
    case LoadTail => RP.Can(s.ring, RP.PumpSnapshot)
    case ReadSlot =>
      && s.ring.consumer.Pumping? && |s.ring.data| == RING_FRAMES && 0.0 <= s.work.pos
      && |s.work.out| < s.work.n && Audible(s.work.pos, s.ring.consumer.avail) && |s.work.held| < 2
    case Render =>
      && s.ring.consumer.Pumping? && 0.0 <= s.work.pos && |s.work.out| < s.work.n
      && (Audible(s.work.pos, s.ring.consumer.avail) ==> |s.work.held| == 2)
    case Publish => s.ring.consumer.Pumping? && 0.0 <= s.work.pos && |s.work.out| == s.work.n && s.log.spots != []
  }

  /** One output frame: silence, or the mix of the two slots read. */
  function Rendering(w: Work, avail: nat): Work
    requires 0.0 <= w.pos && (Audible(w.pos, avail) ==> |w.held| == 2)
  {
    if Audible(w.pos, avail) then
      var cell := Mixture(w.held[0], w.held[1], w.pos - w.pos.Floor as real);
      w.(out := w.out + [cell], heard := w.heard + 1, pos := w.pos + w.ratio, held := [])
    else w.(out := w.out + [Silent])
  }

  /** The record of a finished transfer. */
  function Logged(l: Log, w: Work): Log
    requires l.spots != [] && w.heard <= |w.out|
  {
    l.(sound := l.sound + w.out[..w.heard],
       spots := l.spots + PR.Stride(PR.Last(l.spots), w.ratio, w.heard),
       ratios := l.ratios + PR.Repeat(w.ratio, w.heard),
       sent := l.sent + |w.out|, silent := l.silent + |w.out| - w.heard)
  }

  function Do(s: State, m: Move): State
    requires Can(s, m)
  {
    match m
    case Producer(a) =>
      var p := s.ring.producer;
      var ring := RP.Do(s.ring, a);
      if a.ProducePublish? then s.(ring := ring, log := s.log.(refused := s.log.refused + |p.src| - p.n))
      else s.(ring := ring)
    case LoadHead(ratio, n) => s.(ring := RP.Do(s.ring, RP.PumpCall), work := Work(ratio, n, [], 0, s.frac, []))
    case LoadTail => s.(ring := RP.Do(s.ring, RP.PumpSnapshot))
    case ReadSlot =>
      var w, c := s.work, s.ring.consumer;
      s.(work := w.(held := w.held + [s.ring.data[Place(c.t, w.pos.Floor + |w.held|)]]))
    case Render => s.(work := Rendering(s.work, s.ring.consumer.avail))
    case Publish =>
      var count := Min(s.work.pos.Floor, s.ring.consumer.avail);
      State(RP.Do(s.ring, RP.PumpPublish(count)), s.work.pos - count as real, s.work,
            if s.work.heard <= |s.work.out| then Logged(s.log, s.work) else s.log)
  }

  // ----- the invariant -----

  /** The slots held are the stream's frames at the read position. */
  ghost predicate Holding(w: Work, stream: seq<Frame>, taken: nat, avail: nat) {
    && |w.held| <= 2 && (w.held != [] ==> Audible(w.pos, avail)) && taken + avail <= |stream| && 0.0 <= w.pos
    && forall i :: 0 <= i < |w.held|
         ==> taken + w.pos.Floor + i < |stream| && w.held[i] == stream[taken + w.pos.Floor + i]
  }

  /** What is rendered is the specification's rendering of the snapshot, so far. */
  ghost predicate Renders(w: Work, stream: seq<Frame>, taken: nat, avail: nat, frac: real) {
    && 0.0 <= frac < 1.0 && 0.99 <= w.ratio <= 1.01 && taken + avail <= |stream| && |w.out| <= w.n
    && w.pos == PosAfter(frac, w.ratio, avail, |w.out|) >= 0.0
    && w.heard == RealCount(frac, w.ratio, avail, |w.out|)
    && w.out == Rendered(stream[taken..taken + avail], frac, w.ratio, |w.out|)
  }

  ghost predicate WorkInv(s: State) {
    match s.ring.consumer
    case ConsumerIdle => true
    case PumpSeenHead(h) => 0.99 <= s.work.ratio <= 1.01 && s.work == Work(s.work.ratio, s.work.n, [], 0, s.frac, [])
    case Pumping(t, avail) =>
      && Renders(s.work, s.ring.accepted, s.ring.taken, avail, s.frac)
      && Holding(s.work, s.ring.accepted, s.ring.taken, avail)
    case _ => false
  }

  ghost predicate Inv(s: State) {
    RP.Inv(s.ring) && 0.0 <= s.frac < 1.0 && s.log.spots != [] && WorkInv(s)
  }

  /** The playback run's state: from the load of head on, the transfer is in progress. */
  function Abs(s: State): PR.State {
    var phase :=
      match s.ring.consumer
      case PumpSeenHead(h) => PR.Rendering(Wrap(h - s.ring.tail), s.work.ratio, s.work.n)
      case Pumping(t, avail) => PR.Rendering(avail, s.work.ratio, s.work.n)
      case _ => PR.Idle;
    PR.State(s.ring.accepted, s.ring.taken, s.frac, phase, s.log.sound, s.log.spots, s.log.ratios, s.log.sent,
             s.log.silent, s.log.refused)
  }

  /** The playback run's event that a move is, if it is one. */
  function EventOf(s: State, m: Move): (es: seq<PR.Event>)
    requires Can(s, m)
    ensures |es| <= 1
  {
    match m
    case Producer(a) => if a.ProducePublish? then [PR.Append(s.ring.producer.src, s.ring.producer.n)] else []
    case LoadHead(ratio, n) => [PR.Begin(ratio, n)]
    case Publish => [PR.Finish]
    case _ => []
  }

  /** The move keeps the invariant and is a step of the playback run, or none. */
  ghost predicate Simulates(s: State, m: Move)
    requires Can(s, m)
  {
    var t, es := Do(s, m), EventOf(s, m);
    && Inv(t)
    && if es == [] then Abs(t) == Abs(s) else PR.Can(Abs(s), es[0]) && Abs(t) == PR.Do(Abs(s), es[0])
  }

  // ----- the producer -----

  lemma ProducerKeeps(s: State, a: RP.Action)
    requires Inv(s) && Can(s, Producer(a)) && !a.ProducePublish?
    ensures Simulates(s, Producer(a))
  {
    RP.EveryStepKeepsInv(s.ring, a);
  }

  /** A longer stream renders the same. */
  lemma LongerStream(w: Work, stream: seq<Frame>, more: seq<Frame>, taken: nat, avail: nat, frac: real)
    requires Renders(w, stream, taken, avail, frac) && Holding(w, stream, taken, avail)
    ensures Renders(w, stream + more, taken, avail, frac) && Holding(w, stream + more, taken, avail)
  {
    assert (stream + more)[taken..taken + avail] == stream[taken..taken + avail];
  }

  lemma ProducerPublishes(s: State)
    requires Inv(s) && Can(s, Producer(RP.ProducePublish))
    ensures Simulates(s, Producer(RP.ProducePublish))
  {
    RP.EveryStepKeepsInv(s.ring, RP.ProducePublish);
    if s.ring.consumer.Pumping? {
      LongerStream(s.work, s.ring.accepted, s.ring.producer.src[..s.ring.producer.n], s.ring.taken,
                   s.ring.consumer.avail, s.frac);
    }
  }

  // ----- the resampler -----

  lemma LoadsHead(s: State, ratio: real, n: nat)
    requires Inv(s) && Can(s, LoadHead(ratio, n))
    ensures Simulates(s, LoadHead(ratio, n))
  {
    RP.EveryStepKeepsInv(s.ring, RP.PumpCall);
    FillOfWrapped(|s.ring.accepted|, s.ring.taken);
  }

  lemma LoadsTail(s: State)
    requires Inv(s) && Can(s, LoadTail)
    ensures Simulates(s, LoadTail)
  {
    RP.EveryStepKeepsInv(s.ring, RP.PumpSnapshot);
  }

  lemma SlotIsStream(r: RP.State, base: nat)
    requires RP.Inv(r) && r.consumer.Pumping? && base < r.consumer.avail
    ensures r.taken + base < |r.accepted| && |r.data| == RING_FRAMES
    ensures r.data[Place(r.consumer.t, base)] == r.accepted[r.taken + base]
  {
    PlaceIsSlot(r.taken, base);
  }

  lemma HoldsNext(w: Work, stream: seq<Frame>, taken: nat, avail: nat, frame: Frame)
    requires Holding(w, stream, taken, avail) && Audible(w.pos, avail) && |w.held| < 2
    requires frame == stream[taken + w.pos.Floor + |w.held|]
    ensures Holding(w.(held := w.held + [frame]), stream, taken, avail)
  {
  }

  lemma SlotRead(s: State) returns (frame: Frame)
    requires Inv(s) && Can(s, ReadSlot)
    ensures var k := s.ring.taken + s.work.pos.Floor + |s.work.held|;
            k < |s.ring.accepted| && frame == s.ring.accepted[k]
    ensures Do(s, ReadSlot) == s.(work := s.work.(held := s.work.held + [frame]))
  {
    var base := s.work.pos.Floor + |s.work.held|;
    SlotIsStream(s.ring, base);
    frame := s.ring.data[Place(s.ring.consumer.t, base)];
  }

  /** Work on a transfer is invisible to the playback run. */
  lemma WorkMoves(s: State, w: Work)
    requires Inv(s) && s.ring.consumer.Pumping? && w.ratio == s.work.ratio && w.n == s.work.n
    requires Renders(w, s.ring.accepted, s.ring.taken, s.ring.consumer.avail, s.frac)
    requires Holding(w, s.ring.accepted, s.ring.taken, s.ring.consumer.avail)
    ensures Inv(s.(work := w)) && Abs(s.(work := w)) == Abs(s)
  {
  }

  lemma ReadsSlot(s: State)
    requires Inv(s) && Can(s, ReadSlot)
    ensures Simulates(s, ReadSlot)
  {
    var frame := SlotRead(s);
    HoldsNext(s.work, s.ring.accepted, s.ring.taken, s.ring.consumer.avail, frame);
    WorkMoves(s, s.work.(held := s.work.held + [frame]));
  }

  lemma HeldPair(w: Work, stream: seq<Frame>, taken: nat, avail: nat)
    requires Holding(w, stream, taken, avail) && Audible(w.pos, avail) && |w.held| == 2
    ensures var window, base := stream[taken..taken + avail], w.pos.Floor;
            w.held[0] == window[base] && w.held[1] == window[base + 1]
  {
  }

  /** One more frame of the specification. */
  lemma RendersOne(w: Work, stream: seq<Frame>, taken: nat, avail: nat, frac: real)
    requires Renders(w, stream, taken, avail, frac) && Holding(w, stream, taken, avail) && |w.out| < w.n
    requires Audible(w.pos, avail) ==> |w.held| == 2
    ensures Renders(Rendering(w, avail), stream, taken, avail, frac)
    ensures Holding(Rendering(w, avail), stream, taken, avail)
  {
    if Audible(w.pos, avail) {
      HeldPair(w, stream, taken, avail);
    }
    assert Rendering(w, avail).out == w.out + [OutputAt(stream[taken..taken + avail], w.pos)];
  }

  lemma RendersFrame(s: State)
    requires Inv(s) && Can(s, Render)
    ensures Simulates(s, Render)
  {
    RendersOne(s.work, s.ring.accepted, s.ring.taken, s.ring.consumer.avail, s.frac);
    WorkMoves(s, Rendering(s.work, s.ring.consumer.avail));
  }

  /** A finished transfer is logged as the playback run's Finish logs it. */
  lemma PublishIsFinish(s: State)
    requires Can(s, Publish) && 0.0 <= s.frac < 1.0
    requires Renders(s.work, s.ring.accepted, s.ring.taken, s.ring.consumer.avail, s.frac)
    ensures PR.Can(Abs(s), PR.Finish) && Abs(Do(s, Publish)) == PR.Do(Abs(s), PR.Finish)
  {
    NeverPassesSnapshot(s.frac, s.work.ratio, s.ring.consumer.avail, s.work.n);
  }

  lemma PublishKeepsInv(s: State)
    requires Inv(s) && Can(s, Publish)
    ensures Inv(Do(s, Publish))
  {
    NeverPassesSnapshot(s.frac, s.work.ratio, s.ring.consumer.avail, s.work.n);
    RP.EveryStepKeepsInv(s.ring, RP.PumpPublish(s.work.pos.Floor));
  }

  lemma Publishes(s: State)
    requires Inv(s) && Can(s, Publish)
    ensures Simulates(s, Publish)
  {
    PublishIsFinish(s);
    PublishKeepsInv(s);
  }

  /** Every move of every interleaving is a step of the playback run, or invisible to it. */
  lemma EveryMoveSimulates(s: State, m: Move)
    requires Inv(s) && Can(s, m)
    ensures Simulates(s, m)
  {
    match m
    case Producer(a) =>
      if a.ProducePublish? {
        ProducerPublishes(s);
      } else {
        ProducerKeeps(s, a);
      }
    case LoadHead(ratio, n) => LoadsHead(s, ratio, n);
    case LoadTail => LoadsTail(s);
    case ReadSlot => ReadsSlot(s);
    case Render => RendersFrame(s);
    case Publish => Publishes(s);
  }

  // ----- whole runs -----

  ghost predicate Start(s: State) {
    RP.Init(s.ring) && s.frac == 0.0 && s.log == Log([], [0.0], [], 0, 0, 0)
  }

  ghost predicate Run(states: seq<State>, moves: seq<Move>) {
    && |states| == |moves| + 1 && Start(states[0])
    && forall i :: 0 <= i < |moves| ==> Can(states[i], moves[i]) && states[i + 1] == Do(states[i], moves[i])
  }

  lemma {:induction false} RunKeepsInv(states: seq<State>, moves: seq<Move>, k: nat)
    requires Run(states, moves) && k < |states|
    ensures Inv(states[k])
  {
    if k == 0 {
    } else {
      RunKeepsInv(states, moves, k - 1);
      assert states[k - 1 + 1] == Do(states[k - 1], moves[k - 1]);
      EveryMoveSimulates(states[k - 1], moves[k - 1]);
    }
  }

  /** The events of the playback run that the first k moves are. */
  ghost function Events(states: seq<State>, moves: seq<Move>, k: nat): seq<PR.Event>
    requires Run(states, moves) && k <= |moves|
  {
    if k == 0 then [] else Events(states, moves, k - 1) + EventOf(states[k - 1], moves[k - 1])
  }

  /** And the states it visits. */
  ghost function Trace(states: seq<State>, moves: seq<Move>, k: nat): (trace: seq<PR.State>)
    requires Run(states, moves) && k <= |moves|
    ensures trace != []
  {
    if k == 0 then [Abs(states[0])]
    else if EventOf(states[k - 1], moves[k - 1]) == [] then Trace(states, moves, k - 1)
    else Trace(states, moves, k - 1) + [Abs(states[k])]
  }

  lemma TraceNext(states: seq<State>, moves: seq<Move>, k: nat, es: seq<PR.Event>)
    requires Run(states, moves) && k < |moves| && es == EventOf(states[k], moves[k])
    ensures es == []
        ==> && Events(states, moves, k + 1) == Events(states, moves, k)
            && Trace(states, moves, k + 1) == Trace(states, moves, k)
    ensures es != []
        ==> && Events(states, moves, k + 1) == Events(states, moves, k) + [es[0]]
            && Trace(states, moves, k + 1) == Trace(states, moves, k) + [Abs(states[k + 1])]
  {
    assert es != [] ==> es == [es[0]];
  }

  lemma RunSnoc(trace: seq<PR.State>, events: seq<PR.Event>, e: PR.Event, next: PR.State)
    requires PR.Run(trace, events) && PR.Can(trace[|events|], e) && next == PR.Do(trace[|events|], e)
    ensures PR.Run(trace + [next], events + [e])
  {
  }

  /** Every run of the load-by-load machine is a playback run that ends in the same stream, position,
      sound and counts. */
  lemma {:induction false} RunRefines(states: seq<State>, moves: seq<Move>, k: nat)
    requires Run(states, moves) && k <= |moves|
    ensures var trace, events := Trace(states, moves, k), Events(states, moves, k);
            PR.Run(trace, events) && trace[|events|] == Abs(states[k])
  {
    if k == 0 {
    } else {
      RunRefines(states, moves, k - 1);
      RunKeepsInv(states, moves, k - 1);
      var s, m := states[k - 1], moves[k - 1];
      assert states[k - 1 + 1] == Do(s, m);
      EveryMoveSimulates(s, m);
      TraceNext(states, moves, k - 1, EventOf(s, m));
      if EventOf(s, m) != [] {
        RunSnoc(Trace(states, moves, k - 1), Events(states, moves, k - 1), EventOf(s, m)[0], Abs(states[k]));
      }
    }
  }

  /** So what the two processes play between them, interleaved load by load, is the produced stream
      interpolated in one pass. */
  lemma PlayedIsOneShot(states: seq<State>, moves: seq<Move>, k: nat)
    requires Run(states, moves) && k < |states|
    ensures var s, spots := states[k], PR.Walk(0.0, states[k].log.ratios);
            && PR.Reaches(s.ring.accepted, spots)
            && Voices(s.log.sound) == Voices(PR.OneShot(s.ring.accepted, spots))
            && PR.HeardAlong(s.ring.accepted, spots, Voices(s.log.sound))
            && s.ring.taken as real + s.frac == PR.Last(spots)
            && s.log.sent == |s.log.sound| + s.log.silent
  {
    RunRefines(states, moves, k);
    FirstOfTrace(states, moves, k);
    PR.BatchedIsOneShot(Trace(states, moves, k), Events(states, moves, k), |Events(states, moves, k)|);
  }

  lemma {:induction false} FirstOfTrace(states: seq<State>, moves: seq<Move>, k: nat)
    requires Run(states, moves) && k <= |moves|
    ensures Trace(states, moves, k)[0] == Abs(states[0])
  {
    if k == 0 {
    } else {
      FirstOfTrace(states, moves, k - 1);
    }
  }
}
