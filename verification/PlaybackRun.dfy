/** Whole playback runs: transfers snapshot, render and publish while the plugin keeps appending
    frames at any moment. All transfers together do what a single pass over the whole stream at
    absolute positions would do. */
module PlaybackRun {
  import opened DeviceFrames
  import opened ShmRing
  import opened Resampler

  datatype Phase = Idle | Rendering(avail: nat, ratio: real, n: nat)

  /** stream, taken and frac are the ring and the resampler. The rest records the run: every
      non-silent output in sound, the absolute position each was read at in spots (whose last
      entry is the position reached), the ratio each was read with in ratios, the frames clocked
      out in sent, the silent ones among them in silent, and the frames the ring did not accept
      from the producer in refused. */
  datatype State = State(stream: seq<Frame>, taken: nat, frac: real, phase: Phase,
                         sound: seq<Cell>, spots: seq<real>, ratios: seq<real>, sent: nat, silent: nat,
                         refused: nat)

  /** An Append offers frames and has the first n of them accepted. */
  datatype Event = Append(frames: seq<Frame>, n: nat) | Begin(ratio: real, n: nat) | Finish

  ghost predicate Start(s: State) {
    && s.taken <= |s.stream| && s.frac == 0.0 && s.phase == Idle
    && s.sound == [] && s.spots == [s.taken as real] && s.ratios == [] && s.sent == 0 && s.silent == 0
    && s.refused == 0
  }

  predicate Can(s: State, e: Event) {
    match e
    case Append(frames, n) => n <= |frames| && |s.stream| + n <= s.taken + RING_FRAMES
    case Begin(ratio, _) => s.phase == Idle && s.taken <= |s.stream| && 0.99 <= ratio <= 1.01
    case Finish =>
      && s.phase.Rendering? && s.taken + s.phase.avail <= |s.stream|
      && 0.0 <= s.frac && 0.0 <= s.phase.ratio && s.spots != []
      && 0.0 <= PosAfter(s.frac, s.phase.ratio, s.phase.avail, s.phase.n)
  }

  function Repeat(x: real, n: nat): (r: seq<real>)
    ensures |r| == n
  {
    if n == 0 then [] else Repeat(x, n - 1) + [x]
  }

  function Last(spots: seq<real>): real
    requires spots != []
  {
    spots[|spots| - 1]
  }

  /** The n positions that follow x in steps of one ratio. */
  function Stride(x: real, ratio: real, n: nat): (r: seq<real>)
    ensures |r| == n && forall i: nat :: i < n ==> r[i] == x + Times(i + 1, ratio)
  {
    if n == 0 then [] else Stride(x, ratio, n - 1) + [x + Times(n, ratio)]
  }

  function Do(s: State, e: Event): State
    requires Can(s, e)
  {
    match e
    case Append(frames, n) => s.(stream := s.stream + frames[..n], refused := s.refused + |frames| - n)
    case Begin(ratio, n) => s.(phase := Rendering(|s.stream| - s.taken, ratio, n))
    case Finish =>
      var Rendering(avail, ratio, n) := s.phase;
      Finished(s, s.stream[s.taken..s.taken + avail], avail, ratio, n)
  }

  /** A transfer of n frames, read from a window of the stream, is published. */
  function Finished(s: State, window: seq<Frame>, avail: nat, ratio: real, n: nat): State
    requires |window| == avail && 0.0 <= s.frac && 0.0 <= ratio && s.spots != []
    requires 0.0 <= PosAfter(s.frac, ratio, avail, n)
  {
    var out, m, pos := Rendered(window, s.frac, ratio, n), RealCount(s.frac, ratio, avail, n),
                       PosAfter(s.frac, ratio, avail, n);
    State(s.stream, s.taken + pos.Floor, pos - pos.Floor as real, Idle,
          s.sound + out[..m], s.spots + Stride(Last(s.spots), ratio, m), s.ratios + Repeat(ratio, m),
          s.sent + n, s.silent + n - m, s.refused)
  }

  // ----- the reference: one pass at absolute positions -----

  /** The positions visited from `start` when step k has length ratios[k]. */
  function Walk(start: real, ratios: seq<real>): (spots: seq<real>)
    ensures |spots| == |ratios| + 1
  {
    if ratios == [] then [start]
    else
      var before := Walk(start, ratios[..|ratios| - 1]);
      before + [Last(before) + ratios[|ratios| - 1]]
  }

  /** Every position but the last has both neighbours in the stream. */
  ghost predicate Reaches(stream: seq<Frame>, spots: seq<real>) {
    forall k :: 0 <= k < |spots| - 1 ==> 0.0 <= spots[k] && spots[k].Floor + 1 < |stream|
  }

  /** The stream interpolated in one pass over the given positions. */
  ghost function OneShot(stream: seq<Frame>, spots: seq<real>): (out: seq<Cell>)
    requires Reaches(stream, spots) && spots != []
    ensures |out| == |spots| - 1
    ensures forall k :: 0 <= k < |out| ==> out[k] == SampleAt(stream, spots[k])
  {
    seq(|spots| - 1, k requires 0 <= k < |spots| - 1 => SampleAt(stream, spots[k]))
  }

  /** Frame k of the output is the stream heard at position k. */
  ghost predicate HeardAlong(stream: seq<Frame>, spots: seq<real>, out: seq<Frame>)
    requires Reaches(stream, spots)
  {
    |out| == |spots| - 1 && forall k :: 0 <= k < |out| ==> Heard(stream, spots[k], out[k])
  }

  lemma WalkSnoc(start: real, ratios: seq<real>, ratio: real)
    ensures Walk(start, ratios + [ratio]) == Walk(start, ratios) + [Last(Walk(start, ratios)) + ratio]
  {
    assert (ratios + [ratio])[..|ratios|] == ratios;
  }

  lemma RepeatSnoc(ratios: seq<real>, ratio: real, m: nat)
    ensures ratios + Repeat(ratio, m + 1) == (ratios + Repeat(ratio, m)) + [ratio]
  {
  }

  lemma StrideLast(before: seq<real>, ratio: real, m: nat)
    requires before != []
    ensures Last(before + Stride(Last(before), ratio, m)) == Last(before) + Times(m, ratio)
  {
  }

  lemma StrideSnoc(before: seq<real>, ratio: real, m: nat)
    requires before != []
    ensures var w := before + Stride(Last(before), ratio, m);
            w + [Last(w) + ratio] == before + Stride(Last(before), ratio, m + 1)
  {
    StrideLast(before, ratio, m);
  }

  lemma WalkOn(start: real, ratios: seq<real>, more: seq<real>, ratio: real, spots: seq<real>, next: seq<real>)
    requires more == ratios + [ratio] && spots != [] && next == spots + [Last(spots) + ratio]
    requires Walk(start, ratios) == spots
    ensures Walk(start, more) == next
  {
    WalkSnoc(start, ratios, ratio);
  }

  lemma WalkStrideNext(start: real, ratios: seq<real>, ratio: real, m: nat, before: seq<real>)
    requires before != [] && Walk(start, ratios + Repeat(ratio, m)) == before + Stride(Last(before), ratio, m)
    ensures Walk(start, ratios + Repeat(ratio, m + 1)) == before + Stride(Last(before), ratio, m + 1)
  {
    RepeatSnoc(ratios, ratio, m);
    StrideSnoc(before, ratio, m);
    WalkOn(start, ratios + Repeat(ratio, m), ratios + Repeat(ratio, m + 1), ratio,
           before + Stride(Last(before), ratio, m), before + Stride(Last(before), ratio, m + 1));
  }

  /** Walking m more steps of one ratio adds the m positions of a stride. */
  lemma {:induction false} WalkStride(start: real, ratios: seq<real>, ratio: real, m: nat)
    ensures var before := Walk(start, ratios);
            Walk(start, ratios + Repeat(ratio, m)) == before + Stride(Last(before), ratio, m)
  {
    var before := Walk(start, ratios);
    if m == 0 {
      assert ratios + Repeat(ratio, 0) == ratios;
      assert before + Stride(Last(before), ratio, 0) == before;
    } else {
      WalkStride(start, ratios, ratio, m - 1);
      WalkStrideNext(start, ratios, ratio, m - 1, before);
    }
  }

  /** Reading a snapshot is reading the stream, shifted by the frames already taken. */
  lemma SampleShift(stream: seq<Frame>, taken: nat, avail: nat, x: real)
    requires taken + avail <= |stream|
    requires 0.0 <= x && x.Floor + 1 < avail
    ensures (taken as real + x).Floor == taken + x.Floor
    ensures SampleAt(stream[taken..taken + avail], x) == SampleAt(stream, taken as real + x)
  {
  }

  // ----- the invariant -----

  ghost predicate Bounds(s: State) {
    && s.taken <= |s.stream| && 0.0 <= s.frac < 1.0
    && (s.phase.Rendering? ==> s.taken + s.phase.avail <= |s.stream| && 0.99 <= s.phase.ratio <= 1.01)
  }

  ghost predicate Inv(s: State, start: nat) {
    && Bounds(s)
    && s.spots == Walk(start as real, s.ratios)
    && s.taken as real + s.frac == Last(s.spots)
    && Reaches(s.stream, s.spots)
    && s.sound == OneShot(s.stream, s.spots)
    && s.sent == |s.sound| + s.silent
  }

  lemma AppendKeeps(s: State, start: nat, frames: seq<Frame>, n: nat)
    requires Inv(s, start) && Can(s, Append(frames, n))
    ensures Inv(Do(s, Append(frames, n)), start)
  {
    var longer := s.stream + frames[..n];
    assert Reaches(longer, s.spots);
    forall k | 0 <= k < |s.sound|
      ensures SampleAt(longer, s.spots[k]) == s.sound[k]
    {
      var x := s.spots[k].Floor;
      assert longer[x] == s.stream[x] && longer[x + 1] == s.stream[x + 1];
    }
    assert s.sound == OneShot(longer, s.spots);
  }

  /** The i-th sounding frame of a transfer is the stream's at the position i steps past the one
      the transfer started from. */
  lemma RenderedIsSample(stream: seq<Frame>, taken: nat, avail: nat, frac: real, ratio: real, n: nat, i: nat, x: real)
    requires taken + avail <= |stream| && 0.0 <= frac && 0.0 <= ratio
    requires i < RealCount(frac, ratio, avail, n) && x == taken as real + (frac + Times(i, ratio))
    ensures 0.0 <= x && x.Floor + 1 < |stream|
    ensures Rendered(stream[taken..taken + avail], frac, ratio, n)[i] == SampleAt(stream, x)
  {
    var pos := frac + Times(i, ratio);
    var window := stream[taken..taken + avail];
    assert PosAfter(frac, ratio, avail, i) == pos && Audible(pos, avail) by {
      FramePosition(frac, ratio, avail, n, i);
    }
    assert Rendered(window, frac, ratio, n)[i] == SampleAt(window, pos) by {
      RenderedAt(window, frac, ratio, n, i);
    }
    SampleShift(stream, taken, avail, pos);
  }

  lemma CellIsHeard(stream: seq<Frame>, x: real, cell: Cell)
    requires 0.0 <= x && x.Floor + 1 < |stream| && cell == SampleAt(stream, x)
    ensures Heard(stream, x, Voice(cell))
  {
    SampleIsHeard(stream, x);
  }

  /** And so it is that stream, linearly interpolated at x. */
  lemma RenderedIsStream(stream: seq<Frame>, taken: nat, avail: nat, frac: real, ratio: real, n: nat, i: nat, x: real)
    requires taken + avail <= |stream| && 0.0 <= frac && 0.0 <= ratio
    requires i < RealCount(frac, ratio, avail, n) && x == taken as real + (frac + Times(i, ratio))
    ensures 0.0 <= x && x.Floor + 1 < |stream|
    ensures Rendered(stream[taken..taken + avail], frac, ratio, n)[i] == SampleAt(stream, x)
    ensures Heard(stream, x, Voice(Rendered(stream[taken..taken + avail], frac, ratio, n)[i]))
  {
    RenderedIsSample(stream, taken, avail, frac, ratio, n, i, x);
    CellIsHeard(stream, x, Rendered(stream[taken..taken + avail], frac, ratio, n)[i]);
  }

  /** The i-th frame a transfer adds, at the position it is recorded with. */
  lemma FinishAdds(s: State, i: nat)
    requires Bounds(s) && Can(s, Finish)
    requires |s.spots| == |s.sound| + 1 && s.taken as real + s.frac == Last(s.spots)
    requires i < RealCount(s.frac, s.phase.ratio, s.phase.avail, s.phase.n)
    ensures var s', k := Do(s, Finish), |s.sound| + i;
            && k < |s'.spots| - 1 && k < |s'.sound|
            && 0.0 <= s'.spots[k] && s'.spots[k].Floor + 1 < |s.stream|
            && s'.sound[k] == SampleAt(s.stream, s'.spots[k])
  {
    var Rendering(avail, ratio, n) := s.phase;
    RenderedIsSample(s.stream, s.taken, avail, s.frac, ratio, n, i, Last(s.spots) + Times(i, ratio));
    FinishEntry(s, i);
  }

  /** Where the i-th added frame and its position are recorded. */
  lemma FinishEntry(s: State, i: nat)
    requires Can(s, Finish) && |s.spots| == |s.sound| + 1
    requires i < RealCount(s.frac, s.phase.ratio, s.phase.avail, s.phase.n)
    ensures var s', k := Do(s, Finish), |s.sound| + i;
            && k < |s'.spots| - 1 && k < |s'.sound|
            && s'.spots[k] == Last(s.spots) + Times(i, s.phase.ratio)
            && s'.sound[k] == Rendered(s.stream[s.taken..s.taken + s.phase.avail], s.frac, s.phase.ratio, s.phase.n)[i]
  {
    FinishSpot(s, i);
    FinishCell(s, i);
  }

  lemma FinishSpot(s: State, i: nat)
    requires Can(s, Finish)
    requires i < RealCount(s.frac, s.phase.ratio, s.phase.avail, s.phase.n)
    ensures |s.spots| + i < |Do(s, Finish).spots|
    ensures Do(s, Finish).spots[|s.spots| - 1 + i] == Last(s.spots) + Times(i, s.phase.ratio)
  {
    SpotAt(s.spots, s.phase.ratio, RealCount(s.frac, s.phase.ratio, s.phase.avail, s.phase.n), i);
  }

  lemma FinishCell(s: State, i: nat)
    requires Can(s, Finish)
    requires i < RealCount(s.frac, s.phase.ratio, s.phase.avail, s.phase.n)
    ensures |s.sound| + i < |Do(s, Finish).sound|
    ensures Do(s, Finish).sound[|s.sound| + i]
         == Rendered(s.stream[s.taken..s.taken + s.phase.avail], s.frac, s.phase.ratio, s.phase.n)[i]
  {
    var Rendering(avail, ratio, n) := s.phase;
    SoundAt(s.sound, Rendered(s.stream[s.taken..s.taken + avail], s.frac, ratio, n),
            RealCount(s.frac, ratio, avail, n), i);
  }

  lemma SoundAt(sound: seq<Cell>, out: seq<Cell>, m: nat, i: nat)
    requires i < m <= |out|
    ensures (sound + out[..m])[|sound| + i] == out[i]
  {
  }

  lemma SpotAt(spots: seq<real>, ratio: real, m: nat, i: nat)
    requires spots != [] && i < m
    ensures (spots + Stride(Last(spots), ratio, m))[|spots| - 1 + i] == Last(spots) + Times(i, ratio)
  {
  }

  /** The k-th frame after a transfer, whether it came from an earlier one or from this one. */
  lemma FinishSample(s: State, start: nat, k: nat)
    requires Inv(s, start) && Can(s, Finish)
    requires k < |Do(s, Finish).spots| - 1
    ensures var s' := Do(s, Finish);
            && 0.0 <= s'.spots[k] && s'.spots[k].Floor + 1 < |s.stream|
            && k < |s'.sound| && s'.sound[k] == SampleAt(s.stream, s'.spots[k])
  {
    if k >= |s.sound| {
      FinishAdds(s, k - |s.sound|);
    }
  }

  lemma FinishPositions(s: State, start: nat)
    requires Inv(s, start) && Can(s, Finish)
    ensures var s' := Do(s, Finish);
            && Bounds(s')
            && s'.spots == Walk(start as real, s'.ratios)
            && s'.taken as real + s'.frac == Last(s'.spots)
  {
    var Rendering(avail, ratio, n) := s.phase;
    EndPosition(s.frac, ratio, avail, n);
    NeverPassesSnapshot(s.frac, ratio, avail, n);
    WalkStride(start as real, s.ratios, ratio, RealCount(s.frac, ratio, avail, n));
    StrideLast(s.spots, ratio, RealCount(s.frac, ratio, avail, n));
  }

  lemma FinishKeeps(s: State, start: nat)
    requires Inv(s, start) && Can(s, Finish)
    ensures Inv(Do(s, Finish), start)
  {
    FinishPositions(s, start);
    var s' := Do(s, Finish);
    forall k | 0 <= k < |s'.spots| - 1
      ensures 0.0 <= s'.spots[k] && s'.spots[k].Floor + 1 < |s'.stream|
      ensures s'.sound[k] == SampleAt(s'.stream, s'.spots[k])
    {
      FinishSample(s, start, k);
    }
    assert s'.sound == OneShot(s'.stream, s'.spots);
  }

  ghost predicate Run(states: seq<State>, events: seq<Event>) {
    && |states| == |events| + 1
    && Start(states[0])
    && forall i :: 0 <= i < |events| ==> Can(states[i], events[i]) && states[i + 1] == Do(states[i], events[i])
  }

  lemma {:induction false} RunKeepsInv(states: seq<State>, events: seq<Event>, i: nat)
    requires Run(states, events) && i < |states|
    ensures Inv(states[i], states[0].taken)
  {
    if i == 0 {
    } else {
      RunKeepsInv(states, events, i - 1);
      var s, e := states[i - 1], events[i - 1];
      assert states[i - 1 + 1] == Do(s, e);
      match e
      case Append(frames, n) => AppendKeeps(s, states[0].taken, frames, n);
      case Begin(_, _) =>
      case Finish => FinishKeeps(s, states[0].taken);
    }
  }

  /** Batched resampling refines one-shot resampling. However the transfers and the producer
      interleave, the sound of all transfers joined is the whole produced stream linearly
      interpolated in one pass; the distance read is exactly conserved between tail, remainder and ratios; and
      every clocked frame is either sound or counted silence. */
  lemma BatchedIsOneShot(states: seq<State>, events: seq<Event>, i: nat)
    requires Run(states, events) && i < |states|
    ensures var s, spots := states[i], Walk(states[0].taken as real, states[i].ratios);
            && Reaches(s.stream, spots)
            && Voices(s.sound) == Voices(OneShot(s.stream, spots))
            && HeardAlong(s.stream, spots, Voices(s.sound))
            && s.taken as real + s.frac == Last(spots)
            && 0.0 <= s.frac < 1.0 && s.taken <= |s.stream|
            && s.sent == |s.sound| + s.silent
  {
    RunKeepsInv(states, events, i);
    var s := states[i];
    forall k | 0 <= k < |s.sound|
      ensures Heard(s.stream, s.spots[k], Voices(s.sound)[k])
    {
      SampleIsHeard(s.stream, s.spots[k]);
    }
  }

  /** Publication is never blocked: the position a transfer ends on is inside its snapshot. */
  lemma FinishAlwaysEnabled(states: seq<State>, events: seq<Event>, i: nat)
    requires Run(states, events) && i < |states|
    requires states[i].phase.Rendering?
    ensures var s := states[i];
            && Can(s, Finish)
            && PosAfter(s.frac, s.phase.ratio, s.phase.avail, s.phase.n).Floor <= s.phase.avail
  {
    RunKeepsInv(states, events, i);
    var s := states[i];
    NeverPassesSnapshot(s.frac, s.phase.ratio, s.phase.avail, s.phase.n);
  }

  /** A stream of one repeated frame sounds as that frame and nothing else. */
  lemma ConstantStreamPasses(states: seq<State>, events: seq<Event>, i: nat, tone: Frame)
    requires Run(states, events) && i < |states|
    requires forall k :: 0 <= k < |states[i].stream| ==> states[i].stream[k] == tone
    ensures forall k :: 0 <= k < |states[i].sound| ==> Voices(states[i].sound)[k] == tone
  {
    RunKeepsInv(states, events, i);
    var s := states[i];
    forall k | 0 <= k < |s.sound|
      ensures Voices(s.sound)[k] == tone
    {
      SampleBetween(s.stream, s.spots[k]);
    }
  }
}
