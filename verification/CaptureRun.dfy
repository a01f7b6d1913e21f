/** The capture path end to end: which device frames reach the plugin, over whole runs in which the
    plugin's reads fall anywhere among a callback's packets, and between sizing one and publishing
    it. Frames are tracked by their position in all the device ever sent. */
module CaptureRun {
  import opened Numbers
  import opened Sequences
  import opened DeviceFrames
  import opened ShmRing
  import opened CapturePath

  /** Where the callback stands: packets left, and how many frames of the next one it will push. */
  datatype Phase =
    | Idle
    | Pushing(rest: seq<seq<Frame>>)
    | Sized(n: nat, packet: seq<Frame>, rest: seq<seq<Frame>>)

  datatype Step =
    | Begin(packets: seq<seq<Frame>>)
    | Size
    | Publish
    | Lost(packets: seq<seq<Frame>>)  // the callback runs after the session has ended
    | Read(n: nat)

  /** What the device sent, and the positions in it of the readable and of the delivered frames. */
  datatype State = State(device: seq<Frame>, queue: seq<nat>, log: seq<nat>, phase: Phase)

  const START := State([], [], [], Idle)

  predicate Can(s: State, step: Step) {
    match step
    case Begin(_) => s.phase.Idle?
    case Size => s.phase.Pushing? && s.phase.rest != []
    case Publish => s.phase.Sized? && s.phase.n <= |s.phase.packet|
    case Lost(_) => s.phase.Idle?
    case Read(_) => true
  }

  function Room(s: State): int { RING_FRAMES - |s.queue| }

  function Left(rest: seq<seq<Frame>>): Phase { if rest == [] then Idle else Pushing(rest) }

  /** A callback on a full ring empties it and drops its frames. */
  function Next(s: State, step: Step): State
    requires |s.queue| <= RING_FRAMES && Can(s, step)
  {
    match step
    case Begin(packets) =>
      if Room(s) == 0 then s.(device := s.device + Flat(packets, |packets|), queue := [])
      else s.(phase := Left(packets))
    case Size =>
      var packet := s.phase.rest[0];
      s.(phase := Sized(Min(|packet|, Room(s)), packet, s.phase.rest[1..]))
    case Publish =>
      var Sized(n, packet, rest) := s.phase;
      State(s.device + packet, s.queue + Consecutive(|s.device|, n), s.log, Left(rest))
    case Lost(packets) => s.(device := s.device + Flat(packets, |packets|))
    case Read(n) =>
      var got := Min(n, |s.queue|);
      s.(queue := s.queue[got..], log := s.log + s.queue[..got])
  }

  // ----- order -----

  ghost predicate Below(positions: seq<nat>, bound: nat) {
    forall i :: 0 <= i < |positions| ==> positions[i] < bound
  }

  /** Delivered frames, then readable ones, are in device order and really were sent. */
  ghost predicate Ordered(positions: seq<nat>, bound: nat) {
    Increasing(positions) && Below(positions, bound)
  }

  ghost predicate Inv(s: State) {
    && |s.queue| <= RING_FRAMES
    && Ordered(s.log + s.queue, |s.device|)
    && (s.phase.Sized? ==> s.phase.n <= |s.phase.packet| && |s.queue| + s.phase.n <= RING_FRAMES)
  }

  lemma PublishKeepsOrder(log: seq<nat>, queue: seq<nat>, before: nat, n: nat, bound: nat)
    requires Ordered(log + queue, before) && before + n <= bound
    ensures Ordered(log + (queue + Consecutive(before, n)), bound)
  {
    assert log + (queue + Consecutive(before, n)) == (log + queue) + Consecutive(before, n);
  }

  lemma DropKeepsOrder(log: seq<nat>, queue: seq<nat>, bound: nat)
    requires Ordered(log + queue, bound)
    ensures Ordered(log, bound)
  {
    assert (log + queue)[..|log|] == log;
    PrefixKeepsOrder(log + queue, |log|, bound);
  }

  lemma PrefixKeepsOrder(positions: seq<nat>, n: nat, bound: nat)
    requires Ordered(positions, bound) && n <= |positions|
    ensures Ordered(positions[..n], bound)
  {
  }

  lemma StepKeepsInv(s: State, step: Step)
    requires Inv(s) && Can(s, step)
    ensures Inv(Next(s, step))
  {
    match step
    case Begin(packets) =>
      DropKeepsOrder(s.log, s.queue, |s.device|);
      assert s.log + [] == s.log;
    case Size =>
    case Publish => PublishKeepsOrder(s.log, s.queue, |s.device|, s.phase.n, |s.device + s.phase.packet|);
    case Lost(packets) =>
    case Read(n) => assert Next(s, step).log + Next(s, step).queue == s.log + s.queue;
  }

  ghost predicate Run(states: seq<State>, steps: seq<Step>) {
    && |states| == |steps| + 1
    && states[0] == START
    && forall k :: 0 <= k < |steps|
         ==> |states[k].queue| <= RING_FRAMES && Can(states[k], steps[k]) && states[k + 1] == Next(states[k], steps[k])
  }

  lemma {:induction false} RunKeepsInv(states: seq<State>, steps: seq<Step>, k: nat)
    requires Run(states, steps) && k < |states|
    ensures Inv(states[k])
  {
    if k == 0 {
    } else {
      RunKeepsInv(states, steps, k - 1);
      StepKeepsInv(states[k - 1], steps[k - 1]);
    }
  }

  /** However callbacks and reads interleave, what the plugin has been given is an in-order
      subsequence of what the device sent, and the ring never holds more than its size. */
  lemma DeliveredInOrder(states: seq<State>, steps: seq<Step>, k: nat)
    requires Run(states, steps) && k < |states|
    ensures Increasing(states[k].log) && Below(states[k].log, |states[k].device|)
    ensures |states[k].queue| <= RING_FRAMES
  {
    RunKeepsInv(states, steps, k);
    DropKeepsOrder(states[k].log, states[k].queue, |states[k].device|);
  }

  // ----- completeness -----

  /** The ring is not full when a callback looks, and has room for each packet when it is sized. */
  ghost predicate Roomy(s: State, step: Step) {
    match step
    case Begin(_) => Room(s) > 0
    case Size => Can(s, step) ==> |s.phase.rest[0]| <= Room(s)
    case Lost(_) => false
    case _ => true
  }

  ghost predicate Whole(s: State) {
    && s.log + s.queue == Consecutive(0, |s.device|)
    && (s.phase.Sized? ==> s.phase.n == |s.phase.packet|)
  }

  lemma RoomyKeepsWhole(s: State, step: Step)
    requires |s.queue| <= RING_FRAMES && Can(s, step) && Roomy(s, step) && Whole(s)
    ensures Whole(Next(s, step))
  {
    var t := Next(s, step);
    match step
    case Begin(packets) =>
    case Size =>
    case Publish => assert t.log + t.queue == (s.log + s.queue) + Consecutive(|s.device|, s.phase.n);
    case Read(n) => assert t.log + t.queue == s.log + s.queue;
  }

  /** As long as every packet finds room when it is sized, nothing at all is lost. */
  lemma {:induction false} NothingLost(states: seq<State>, steps: seq<Step>, k: nat)
    requires Run(states, steps) && k < |states|
    requires forall i :: 0 <= i < k ==> Roomy(states[i], steps[i])
    ensures Whole(states[k])
  {
    if k == 0 {
    } else {
      NothingLost(states, steps, k - 1);
      RoomyKeepsWhole(states[k - 1], steps[k - 1]);
    }
  }

  // ----- the positions stand for the ring's frames -----

  /** The positions name, in order, device frames equal to the given ones. */
  ghost predicate Names(device: seq<Frame>, positions: seq<nat>, frames: seq<Frame>) {
    && |positions| == |frames|
    && forall i :: 0 <= i < |positions| ==> positions[i] < |device| && device[positions[i]] == frames[i]
  }

  lemma NamesAppend(device: seq<Frame>, a: seq<nat>, fa: seq<Frame>, b: seq<nat>, fb: seq<Frame>)
    requires Names(device, a, fa) && Names(device, b, fb)
    ensures Names(device, a + b, fa + fb)
  {
  }

  lemma NamesSuffix(device: seq<Frame>, positions: seq<nat>, frames: seq<Frame>, from: nat)
    requires Names(device, positions, frames) && from <= |positions|
    ensures Names(device, positions[from..], frames[from..])
  {
  }

  lemma NamesPacket(device: seq<Frame>, positions: seq<nat>, frames: seq<Frame>, packet: seq<Frame>, n: nat)
    requires Names(device, positions, frames) && n <= |packet|
    ensures Names(device + packet, positions + Consecutive(|device|, n), frames + packet[..n])
  {
    assert Names(device + packet, positions, frames);
    assert Names(device + packet, Consecutive(|device|, n), packet[..n]);
    NamesAppend(device + packet, positions, frames, Consecutive(|device|, n), packet[..n]);
  }

  /** A read hands the oldest readable frames to the log and leaves the rest. */
  lemma ReadRefines(s: State, unread: seq<Frame>, n: nat)
    requires |s.queue| <= RING_FRAMES && Names(s.device, s.queue, unread)
    ensures var got := Min(n, |unread|);
            var t := Next(s, Read(n));
            && Names(t.device, t.queue, unread[got..])
            && t.log[..|s.log|] == s.log && Names(t.device, t.log[|s.log|..], unread[..got])
  {
    NamesSuffix(s.device, s.queue, unread, Min(n, |unread|));
  }

  /** A packet that was sized at n puts its first n frames behind the readable ones. */
  lemma PublishRefines(s: State, unread: seq<Frame>)
    requires |s.queue| <= RING_FRAMES && Can(s, Publish) && Names(s.device, s.queue, unread)
    ensures var t := Next(s, Publish); Names(t.device, t.queue, unread + s.phase.packet[..s.phase.n])
  {
    NamesPacket(s.device, s.queue, unread, s.phase.packet, s.phase.n);
  }

  /** From sizing a packet to publishing it, with a read in between. */
  function SizedSteps(a: State, between: nat): State
    requires |a.queue| <= RING_FRAMES && a.phase.Pushing? && a.phase.rest != []
  {
    Next(Next(Next(a, Size), Read(between)), Publish)
  }

  /** The machine's steps for one packet of a callback and the reads around it. */
  function PacketSteps(s: State, v: Visit): State
    requires |s.queue| <= RING_FRAMES && s.phase.Pushing? && s.phase.rest != []
  {
    SizedSteps(Next(s, Read(v.before)), v.between)
  }

  /** The packets that are left, and the readable frames. */
  ghost predicate Stands(s: State, unread: seq<Frame>, rest: seq<seq<Frame>>) {
    s.phase == Left(rest) && |unread| <= RING_FRAMES && Names(s.device, s.queue, unread)
  }

  lemma ReadStands(s: State, unread: seq<Frame>, rest: seq<seq<Frame>>, n: nat)
    requires Stands(s, unread, rest)
    ensures Stands(Next(s, Read(n)), unread[Min(n, |unread|)..], rest)
  {
    ReadRefines(s, unread, n);
  }

  lemma SizedRefines(a: State, unread: seq<Frame>, rest: seq<seq<Frame>>, between: nat)
    requires rest != [] && Stands(a, unread, rest)
    ensures var n, gone := Min(|rest[0]|, RING_FRAMES - |unread|), Min(between, |unread|);
            Stands(SizedSteps(a, between), unread[gone..] + rest[0][..n], rest[1..])
  {
    var b := Next(a, Size);
    ReadRefines(b, unread, between);
    PublishRefines(Next(b, Read(between)), unread[Min(between, |unread|)..]);
  }

  /** What is readable after a packet and the reads around it. */
  function UnreadAfter(unread: seq<Frame>, packet: seq<Frame>, v: Visit): seq<Frame>
    requires |unread| <= RING_FRAMES
  {
    var seen := unread[Min(v.before, |unread|)..];
    seen[Min(v.between, |seen|)..] + packet[..Min(|packet|, RING_FRAMES - |seen|)]
  }

  lemma PacketRefines(s: State, unread: seq<Frame>, rest: seq<seq<Frame>>, v: Visit)
    requires rest != [] && Stands(s, unread, rest)
    ensures Stands(PacketSteps(s, v), UnreadAfter(unread, rest[0], v), rest[1..])
  {
    ReadStands(s, unread, rest, v.before);
    SizedRefines(Next(s, Read(v.before)), unread[Min(v.before, |unread|)..], rest, v.between);
  }

  /** The last `level` frames of a sequence. */
  function Tail(all: seq<Frame>, level: nat): (frames: seq<Frame>)
    requires level <= |all|
    ensures |frames| == level
  {
    all[|all| - level..]
  }

  lemma TailMoves(all: seq<Frame>, level: nat, a: nat, b: nat, more: seq<Frame>)
    requires a + b <= level <= |all|
    ensures Tail(all, level)[a..][b..] + more == Tail(all + more, level - a - b + |more|)
  {
  }

  lemma TailAfter(all: seq<Frame>, level: nat, packet: seq<Frame>, v: Visit)
    requires level <= RING_FRAMES && level <= |all|
    ensures LevelAfter(level, packet, v) <= |all + packet[..Pushes(level, packet, v)]|
    ensures UnreadAfter(Tail(all, level), packet, v)
         == Tail(all + packet[..Pushes(level, packet, v)], LevelAfter(level, packet, v))
  {
    var seen := Seen(level, v);
    TailMoves(all, level, level - seen, Min(v.between, seen), packet[..Pushes(level, packet, v)]);
  }

  /** The readable frames are the end of the ring's stream before and after a packet's code. */
  lemma UnreadIsTail(base: seq<Frame>, f: Fate, packet: seq<Frame>, v: Visit)
    requires f.level <= RING_FRAMES && f.level <= |base + f.frames|
    ensures var r := PacketFate(f, packet, v);
            && r.level <= |base + r.frames|
            && UnreadAfter(Tail(base + f.frames, f.level), packet, v) == Tail(base + r.frames, r.level)
  {
    TailAfter(base + f.frames, f.level, packet, v);
    Associative(base, f.frames, packet[..Pushes(f.level, packet, v)]);
  }

  /** i packets of a callback. */
  function CallbackSteps(s: State, packets: seq<seq<Frame>>, visits: seq<Visit>, i: nat): (t: State)
    requires |s.queue| < RING_FRAMES && s.phase.Idle? && i <= |packets| && i <= |visits|
    ensures |t.queue| <= RING_FRAMES && t.phase == Left(packets[i..])
  {
    if i == 0 then Next(s, Begin(packets))
    else PacketSteps(CallbackSteps(s, packets, visits, i - 1), visits[i - 1])
  }

  /** A whole callback on a ring with room, reads falling where they may: the machine's queue names
      exactly the frames readable in the ring after the callback's code. */
  lemma {:induction false} CallbackRefines(s: State, unread: seq<Frame>, packets: seq<seq<Frame>>,
                                           visits: seq<Visit>, i: nat)
    requires |s.queue| < RING_FRAMES && s.phase.Idle? && Names(s.device, s.queue, unread)
    requires i <= |packets| && i <= |visits|
    ensures var f := After(|unread|, packets, visits, i);
            && f.level <= |unread + f.frames|
            && Stands(CallbackSteps(s, packets, visits, i), Tail(unread + f.frames, f.level), packets[i..])
  {
    if i == 0 {
      assert unread + [] == unread && Tail(unread, |unread|) == unread;
      assert packets[0..] == packets;
    } else {
      CallbackRefines(s, unread, packets, visits, i - 1);
      var f := After(|unread|, packets, visits, i - 1);
      var now := CallbackSteps(s, packets, visits, i - 1);
      PacketRefines(now, Tail(unread + f.frames, f.level), packets[i - 1..], visits[i - 1]);
      UnreadIsTail(unread, f, packets[i - 1], visits[i - 1]);
    }
  }

  /** A callback on a full ring leaves nothing readable and delivers nothing, as the callback's code
      does; its own frames are lost too. */
  lemma FullCallbackRefines(s: State, ring: Ring, stream: seq<Frame>, taken: nat, packets: seq<seq<Frame>>,
                            visits: seq<Visit>)
    requires s.phase.Idle? && |s.queue| == RING_FRAMES && |packets| <= |visits|
    requires taken <= |stream| && Names(s.device, s.queue, stream[taken..])
    requires Collected(ring, stream, taken, packets, visits)
    ensures ring.taken <= |ring.stream|
    ensures var t := Next(s, Begin(packets));
            && Names(t.device, t.queue, ring.stream[ring.taken..]) && t.queue == [] && t.phase.Idle?
            && t.device == s.device + Flat(packets, |packets|) && t.log == s.log
  {
    assert |stream[taken..]| == RING_FRAMES;
  }
}
