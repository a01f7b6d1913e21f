/** What ties playback together: the daemon's fill is a transfer of the playback run, and a playback
    run whose transfers read at the control law's ratio is the regulated loop. */
module PlaybackLoop {
  import opened Numbers
  import opened DeviceFrames
  import opened Pacing
  import opened ShmRing
  import opened Resampler
  import opened PlaybackPump
  import opened Regulation
  import PR = PlaybackRun

  // ----- a fill is a transfer -----

  /** A transfer of n frames can begin: the ring is as the run has it and nothing is in progress. */
  ghost predicate Starts(s: PR.State, ratio: real) {
    && s.taken <= |s.stream| <= s.taken + RING_FRAMES
    && 0.0 <= s.frac < 1.0 && s.phase == PR.Idle && s.spots != [] && 0.99 <= ratio <= 1.01
  }

  /** The producer's calls while the transfer is in progress, each accepted as far as it fits. */
  ghost function Offering(s: PR.State, offers: seq<seq<Frame>>, k: nat): (u: PR.State)
    requires s.taken <= |s.stream| <= s.taken + RING_FRAMES && k <= |offers|
    ensures u == s.(stream := u.stream, refused := u.refused)
    ensures |s.stream| <= |u.stream| <= s.taken + RING_FRAMES
  {
    if k == 0 then s else
      var v := Offering(s, offers, k - 1);
      PR.Do(v, PR.Append(offers[k - 1], Min(|offers[k - 1]|, v.taken + RING_FRAMES - |v.stream|)))
  }

  lemma {:induction false} OfferingArrives(s: PR.State, offers: seq<seq<Frame>>, k: nat)
    requires s.taken <= |s.stream| <= s.taken + RING_FRAMES && k <= |offers|
    ensures Offering(s, offers, k).stream == s.stream + Arrived(|s.stream| - s.taken, offers, k)
  {
    if k == 0 {
    } else {
      OfferingArrives(s, offers, k - 1);
    }
  }

  /** It is finished after those calls. */
  ghost function Transferred(s: PR.State, ratio: real, n: nat, offers: seq<seq<Frame>>): PR.State
    requires Starts(s, ratio)
  {
    NeverPassesSnapshot(s.frac, ratio, |s.stream| - s.taken, n);
    PR.Do(Offering(PR.Do(s, PR.Begin(ratio, n)), offers, |offers|), PR.Finish)
  }

  /** A transfer's frames on the wire and what it left: stream, tail, remainder and underruns. */
  datatype Fill = Fill(sent: seq<Frame>, stream: seq<Frame>, taken: nat, frac: real, underruns: int)

  /** The fill is that transfer: same stream, tail and remainder, sound as the run adds it, silence
      behind the sound, and an underrun for each silent frame. */
  ghost predicate IsTransfer(f: Fill, s: PR.State, ratio: real, n: nat, offers: seq<seq<Frame>>)
    requires Starts(s, ratio)
  {
    var t := Transferred(s, ratio, n, offers);
    && t.stream == f.stream && t.taken == f.taken && t.frac == f.frac && t.silent - s.silent == f.underruns
    && exists sound: seq<Cell> :: t.sound == s.sound + sound && SoundThenSilence(f.sent, sound)
  }

  ghost predicate SoundThenSilence(sent: seq<Frame>, sound: seq<Cell>) {
    && |sound| <= |sent| && sent[..|sound|] == Voices(sound)
    && forall i :: |sound| <= i < |sent| ==> sent[i] == SILENCE
  }

  /** From the conserved sum of tail and remainder, tail and remainder themselves. */
  lemma WholeAndRest(taken: nat, frac: real, before: nat, pos: real)
    requires 0.0 <= frac < 1.0 && 0.0 <= pos && taken as real + frac == before as real + pos
    ensures taken == before + pos.Floor && frac == pos - pos.Floor as real
  {
  }

  lemma SilentTail(window: seq<Frame>, pos: real, ratio: real, n: nat, i: nat)
    requires 0.0 <= pos && 0.0 <= ratio && RealCount(pos, ratio, |window|, n) <= i < n
    ensures Rendered(window, pos, ratio, n)[i] == Silent
  {
    RenderedAt(window, pos, ratio, n, i);
    FramePosition(pos, ratio, |window|, n, i);
  }

  /** The rendered cells are the sounding ones, then silence. */
  lemma RenderedSplits(window: seq<Frame>, pos: real, ratio: real, n: nat)
    requires 0.0 <= pos && 0.0 <= ratio
    ensures var out := Rendered(window, pos, ratio, n);
            SoundThenSilence(Voices(out), out[..RealCount(pos, ratio, |window|, n)])
  {
    var out, m := Rendered(window, pos, ratio, n), RealCount(pos, ratio, |window|, n);
    forall i | m <= i < n
      ensures Voices(out)[i] == SILENCE
    {
      SilentTail(window, pos, ratio, n, i);
    }
  }

  lemma Prefix(stream: seq<Frame>, more: seq<Frame>, taken: nat)
    requires taken <= |stream|
    ensures (stream + more)[taken..taken + (|stream| - taken)] == stream[taken..]
  {
  }

  /** The transfer reads its snapshot, whatever has arrived since. */
  lemma TransferredIs(s: PR.State, ratio: real, n: nat, offers: seq<seq<Frame>>, window: seq<Frame>)
    requires Starts(s, ratio) && window == s.stream[s.taken..]
    ensures 0.0 <= PosAfter(s.frac, ratio, |window|, n)
    ensures var u := Offering(s.(phase := PR.Rendering(|window|, ratio, n)), offers, |offers|);
            && u.stream == s.stream + Arrived(|window|, offers, |offers|)
            && Transferred(s, ratio, n, offers) == PR.Finished(u, window, |window|, ratio, n)
  {
    NeverPassesSnapshot(s.frac, ratio, |window|, n);
    OfferingArrives(s.(phase := PR.Rendering(|window|, ratio, n)), offers, |offers|);
    Prefix(s.stream, Arrived(|window|, offers, |offers|), s.taken);
  }

  lemma TransferredState(s: PR.State, ratio: real, n: nat, offers: seq<seq<Frame>>, window: seq<Frame>)
    requires Starts(s, ratio) && window == s.stream[s.taken..]
    ensures var out, m, pos := Rendered(window, s.frac, ratio, n), RealCount(s.frac, ratio, |window|, n),
                               PosAfter(s.frac, ratio, |window|, n);
            var t := Transferred(s, ratio, n, offers);
            && t.stream == s.stream + Arrived(|window|, offers, |offers|)
            && 0.0 <= pos && t.taken == s.taken + pos.Floor && t.frac == pos - pos.Floor as real
            && t.sound == s.sound + out[..m] && t.silent == s.silent + n - m
  {
    TransferredIs(s, ratio, n, offers, window);
  }

  lemma FillValues(f: Fill, s: PR.State, ratio: real, n: nat, offers: seq<seq<Frame>>, window: seq<Frame>)
    requires Starts(s, ratio) && 0.0 <= f.frac < 1.0 && window == s.stream[s.taken..]
    requires f.stream == s.stream + Arrived(|window|, offers, |offers|)
    requires f.sent == Voices(Rendered(window, s.frac, ratio, n))
    requires f.taken as real + f.frac == s.taken as real + PosAfter(s.frac, ratio, |window|, n)
    requires f.underruns == n - RealCount(s.frac, ratio, |window|, n)
    ensures IsTransfer(f, s, ratio, n, offers)
  {
    var sound := Rendered(window, s.frac, ratio, n)[..RealCount(s.frac, ratio, |window|, n)];
    TransferredState(s, ratio, n, offers, window);
    assert SoundThenSilence(f.sent, sound) by {
      RenderedSplits(window, s.frac, ratio, n);
    }
    WholeAndRest(f.taken, f.frac, s.taken, PosAfter(s.frac, ratio, |window|, n));
  }

  /** Either daemon's whole fill, with whatever the plugin produces while it is in progress, is one
      transfer of the playback run. */
  twostate lemma FillIsTransfer(pump: Pump, x: Transfer, count: nat, rate: u32, avail: nat, offers: seq<seq<Frame>>,
                                s: PR.State)
    requires x.Holds(count) && old(pump.Ready()) && pump.Ready() && avail <= RING_FRAMES
    requires pump.Filled(x, count, rate, avail, offers)
    requires s.stream == old(pump.ring.stream) && s.taken == old(pump.ring.taken) && s.frac == old(pump.frac)
    requires s.phase == PR.Idle && s.spots != []
    ensures var n := TotalFrames(old(pump.accum), rate, count);
            && Starts(s, pump.ratio) && n <= x.buf.Length
            && IsTransfer(Fill(x.buf[..n], pump.ring.stream, pump.ring.taken, pump.frac,
                               pump.underruns - old(pump.underruns)), s, pump.ratio, n, offers)
  {
    var n := TotalFrames(old(pump.accum), rate, count);
    FillValues(Fill(x.buf[..n], pump.ring.stream, pump.ring.taken, pump.frac, pump.underruns - old(pump.underruns)),
               s, pump.ratio, n, offers, s.stream[s.taken..]);
  }

  // ----- a run is the loop -----

  predicate Snapshots(s: PR.State) { s.taken <= |s.stream| && 0.0 <= s.frac < 1.0 }

  /** What a transfer sees when it begins. */
  function LevelOf(s: PR.State): (l: Level)
    requires Snapshots(s)
    ensures 0.0 <= l.frac < 1.0
  {
    Level(|s.stream| - s.taken, s.frac)
  }

  lemma RunSnapshots(states: seq<PR.State>, events: seq<PR.Event>, i: nat)
    requires PR.Run(states, events) && i < |states|
    ensures Snapshots(states[i])
  {
    PR.RunKeepsInv(states, events, i);
  }

  /** Event i begins a transfer of at most `most` frames at the control law's ratio for the fill it
      snapshots. */
  ghost predicate LawAt(s: PR.State, e: PR.Event, setpoint: nat, most: nat) {
    e.Begin? ==> setpoint >= 1 && Snapshots(s) && e.n <= most && e.ratio == LowLatencyRatio(LevelOf(s).avail, setpoint)
  }

  ghost predicate Controlled(states: seq<PR.State>, events: seq<PR.Event>, setpoint: nat, most: nat) {
    && |states| == |events| + 1 && setpoint >= 1
    && forall i :: 0 <= i < |events| ==> LawAt(states[i], events[i], setpoint, most)
  }

  /** The begins among the first k events. */
  function Begins(events: seq<PR.Event>, k: nat): (at: seq<nat>)
    requires k <= |events|
    ensures forall j :: 0 <= j < |at| ==> at[j] < k && events[at[j]].Begin?
  {
    if k == 0 then []
    else if events[k - 1].Begin? then Begins(events, k - 1) + [k - 1]
    else Begins(events, k - 1)
  }

  function LastBegin(events: seq<PR.Event>, k: nat): (p: nat)
    requires k <= |events| && Begins(events, k) != []
    ensures p < k && events[p].Begin?
  {
    Begins(events, k)[|Begins(events, k)| - 1]
  }

  /** One turn for every begin after the first: the frames of the transfer before it and what was
      produced since that one began. drift[j] is the producer's clock error over turn j. */
  function Turns(states: seq<PR.State>, events: seq<PR.Event>, drift: nat -> real, k: nat): (turns: seq<Turn>)
    requires k <= |events| && |states| == |events| + 1
    ensures |turns| == Max(0, |Begins(events, k)| - 1)
  {
    if k == 0 then []
    else
      var before := Turns(states, events, drift, k - 1);
      if events[k - 1].Begin? && Begins(events, k - 1) != [] then
        var p := LastBegin(events, k - 1);
        before + [Turn(events[p].n, Max(0, |states[k - 1].stream| - |states[p].stream|), drift(|before|))]
      else before
  }

  // ----- from one begin to the next -----

  /** State u is later than state s, which began a transfer of n frames at the given ratio: the
      transfer is still in progress, or it has moved tail and remainder. */
  ghost predicate Since(s: PR.State, ratio: real, n: nat, u: PR.State)
    requires Snapshots(s) && 0.0 <= ratio
  {
    var avail := |s.stream| - s.taken;
    && |s.stream| <= |u.stream|
    && match u.phase
       case Rendering(a, r, m) => a == avail && r == ratio && m == n && u.taken == s.taken && u.frac == s.frac
       case Idle =>
         var pos := PosAfter(s.frac, ratio, avail, n);
         u.taken == s.taken + pos.Floor && u.frac == pos - pos.Floor as real
  }

  lemma SinceStep(s: PR.State, ratio: real, n: nat, u: PR.State, e: PR.Event)
    requires Snapshots(s) && 0.0 <= ratio && Since(s, ratio, n, u) && PR.Can(u, e) && !e.Begin?
    ensures Since(s, ratio, n, PR.Do(u, e))
  {
  }

  /** Between two begins there are arrivals and one finish. */
  lemma {:induction false} SinceBegin(states: seq<PR.State>, events: seq<PR.Event>, p: nat, i: nat)
    requires PR.Run(states, events) && p < i < |states|
    requires events[p].Begin? && Snapshots(states[p]) && 0.0 <= events[p].ratio
    requires forall j :: p < j < i ==> !events[j].Begin?
    ensures Since(states[p], events[p].ratio, events[p].n, states[i])
    decreases i
  {
    assert states[i - 1 + 1] == PR.Do(states[i - 1], events[i - 1]);
    if i == p + 1 {
    } else {
      SinceBegin(states, events, p, i - 1);
      SinceStep(states[p], events[p].ratio, events[p].n, states[i - 1], events[i - 1]);
    }
  }

  lemma {:induction false} NoBeginSince(events: seq<PR.Event>, k: nat, j: nat)
    requires k <= |events| && Begins(events, k) != [] && LastBegin(events, k) < j < k
    ensures !events[j].Begin?
  {
    if events[k - 1].Begin? {
    } else if j < k - 1 {
      NoBeginSince(events, k - 1, j);
    }
  }

  /** The next begin sees the level the loop's step leads to. */
  lemma NextLevel(states: seq<PR.State>, events: seq<PR.Event>, setpoint: nat, most: nat, drift: real, k: nat)
    requires PR.Run(states, events) && Controlled(states, events, setpoint, most)
    requires k < |events| && events[k].Begin? && Begins(events, k) != []
    ensures var p := LastBegin(events, k);
            && Snapshots(states[p]) && Snapshots(states[k]) && |states[p].stream| <= |states[k].stream|
            && LevelOf(states[k])
            == Step(LevelOf(states[p]), setpoint, Turn(events[p].n, |states[k].stream| - |states[p].stream|, drift))
  {
    var p := LastBegin(events, k);
    RunSnapshots(states, events, p);
    RunSnapshots(states, events, k);
    assert LawAt(states[p], events[p], setpoint, most);
    forall j | p < j < k
      ensures !events[j].Begin?
    {
      NoBeginSince(events, k, j);
    }
    SinceBegin(states, events, p, k);
    assert PR.Can(states[k], events[k]);
    StepIs(states[p], events[p].n, setpoint, states[k], drift);
  }

  lemma StepIs(s: PR.State, n: nat, setpoint: nat, u: PR.State, drift: real)
    requires Snapshots(s) && Snapshots(u) && setpoint >= 1 && u.phase == PR.Idle
    requires Since(s, LowLatencyRatio(LevelOf(s).avail, setpoint), n, u)
    ensures LevelOf(u) == Step(LevelOf(s), setpoint, Turn(n, |u.stream| - |s.stream|, drift))
  {
  }

  // ----- whole runs -----

  lemma {:induction false} AfterPrefix(l: Level, setpoint: nat, turns: seq<Turn>, t: Turn, j: nat)
    requires 0.0 <= l.frac < 1.0 && setpoint >= 1 && j <= |turns|
    ensures After(l, setpoint, turns + [t], j) == After(l, setpoint, turns, j)
  {
    if j == 0 {
    } else {
      AfterPrefix(l, setpoint, turns, t, j - 1);
    }
  }

  /** One more turn: the loop's level at begin k from the one at the begin before it. */
  lemma FollowNext(l: Level, setpoint: nat, before: seq<Turn>, t: Turn, now: Level, next: Level)
    requires 0.0 <= l.frac < 1.0 && setpoint >= 1
    requires now == After(l, setpoint, before, |before|) && next == Step(now, setpoint, t)
    ensures next == After(l, setpoint, before + [t], |before + [t]|)
  {
    AfterPrefix(l, setpoint, before, t, |before|);
  }

  lemma LastTurn(states: seq<PR.State>, events: seq<PR.Event>, drift: nat -> real, k: nat)
    requires |states| == |events| + 1 && k < |events| && events[k].Begin? && Begins(events, k) != []
    requires |states[LastBegin(events, k)].stream| <= |states[k].stream|
    ensures var before, p := Turns(states, events, drift, k), LastBegin(events, k);
            && Turns(states, events, drift, k + 1)
            == before + [Turn(events[p].n, |states[k].stream| - |states[p].stream|, drift(|before|))]
            && LastBegin(events, k + 1) == k && Begins(events, k + 1)[0] == Begins(events, k)[0]
  {
  }

  /** At every begin of a controlled run the fill is the loop's after as many turns. */
  lemma {:induction false} RunFollowsLoop(states: seq<PR.State>, events: seq<PR.Event>, setpoint: nat, most: nat,
                                          drift: nat -> real, k: nat)
    requires PR.Run(states, events) && Controlled(states, events, setpoint, most)
    requires k <= |events| && Begins(events, k) != []
    ensures Follows(states, events, setpoint, drift, k)
  {
    if Begins(events, k - 1) == [] {
      RunSnapshots(states, events, k - 1);
      FollowFirst(states, events, setpoint, drift, k - 1);
    } else if events[k - 1].Begin? {
      RunFollowsLoop(states, events, setpoint, most, drift, k - 1);
      FollowBegin(states, events, setpoint, most, drift, k - 1);
    } else {
      RunFollowsLoop(states, events, setpoint, most, drift, k - 1);
      FollowOther(states, events, setpoint, drift, k - 1);
    }
  }

  lemma FollowFirst(states: seq<PR.State>, events: seq<PR.Event>, setpoint: nat, drift: nat -> real, k: nat)
    requires |states| == |events| + 1 && setpoint >= 1 && k < |events| && Begins(events, k) == []
    requires Begins(events, k + 1) != [] && Snapshots(states[k])
    ensures Follows(states, events, setpoint, drift, k + 1)
  {
  }

  lemma FollowOther(states: seq<PR.State>, events: seq<PR.Event>, setpoint: nat, drift: nat -> real, k: nat)
    requires |states| == |events| + 1 && setpoint >= 1 && k < |events| && Begins(events, k) != []
    requires !events[k].Begin? && Follows(states, events, setpoint, drift, k)
    ensures Follows(states, events, setpoint, drift, k + 1)
  {
    assert Begins(events, k + 1) == Begins(events, k);
    assert Turns(states, events, drift, k + 1) == Turns(states, events, drift, k);
  }

  ghost predicate Follows(states: seq<PR.State>, events: seq<PR.Event>, setpoint: nat, drift: nat -> real, k: nat)
    requires |states| == |events| + 1 && setpoint >= 1 && k <= |events| && Begins(events, k) != []
  {
    var first, last := states[Begins(events, k)[0]], states[LastBegin(events, k)];
    var turns := Turns(states, events, drift, k);
    && Snapshots(first) && Snapshots(last)
    && LevelOf(last) == After(LevelOf(first), setpoint, turns, |turns|)
  }

  lemma FollowBegin(states: seq<PR.State>, events: seq<PR.Event>, setpoint: nat, most: nat, drift: nat -> real, k: nat)
    requires PR.Run(states, events) && Controlled(states, events, setpoint, most)
    requires k < |events| && events[k].Begin? && Begins(events, k) != []
    requires Follows(states, events, setpoint, drift, k)
    ensures Follows(states, events, setpoint, drift, k + 1)
  {
    var before, p := Turns(states, events, drift, k), LastBegin(events, k);
    NextLevel(states, events, setpoint, most, drift(|before|), k);
    LastTurn(states, events, drift, k);
    FollowNext(LevelOf(states[Begins(events, k)[0]]), setpoint, before,
               Turn(events[p].n, |states[k].stream| - |states[p].stream|, drift(|before|)),
               LevelOf(states[p]), LevelOf(states[k]));
  }

  /** The producer keeps within 1% of the device's clock and `burst` frames of its own, at every begin. */
  ghost predicate LeadBounded(states: seq<PR.State>, events: seq<PR.Event>, drift: nat -> real, burst: real, most: nat)
    requires |states| == |events| + 1
  {
    forall k: nat :: k <= |events| ==> Tracks(Turns(states, events, drift, k), burst, most)
  }

  /** The first transfer, if there is one, begins inside the band. */
  ghost predicate BeginsInBand(states: seq<PR.State>, events: seq<PR.Event>, setpoint: nat, burst: real)
    requires |states| == |events| + 1
  {
    var at := Begins(events, |events|);
    at != [] ==> Snapshots(states[at[0]]) && StartsInBand(LevelOf(states[at[0]]), setpoint, burst)
  }

  lemma {:induction false} FirstBegin(events: seq<PR.Event>, j: nat, k: nat)
    requires j <= k <= |events| && Begins(events, j) != []
    ensures Begins(events, k) != [] && Begins(events, k)[0] == Begins(events, j)[0]
    decreases k
  {
    if j == k {
    } else {
      FirstBegin(events, j, k - 1);
    }
  }

  /** The fill at every begin of a controlled run that starts in the band is regulated. */
  lemma RunIsRegulated(states: seq<PR.State>, events: seq<PR.Event>, setpoint: nat, most: nat, drift: nat -> real,
                       burst: real, k: nat)
    requires PR.Run(states, events) && Controlled(states, events, setpoint, most)
    requires LeadBounded(states, events, drift, burst, most) && BeginsInBand(states, events, setpoint, burst)
    requires 1.01 * most as real + 1.0 <= setpoint as real
    requires k <= |events| && Begins(events, k) != []
    ensures Snapshots(states[LastBegin(events, k)])
    ensures Near(LevelOf(states[LastBegin(events, k)]).avail, setpoint, burst)
  {
    RunFollowsLoop(states, events, setpoint, most, drift, k);
    FirstBegin(events, k, |events|);
    var turns := Turns(states, events, drift, k);
    assert Tracks(turns, burst, most);
    FillIsRegulated(LevelOf(states[Begins(events, k)[0]]), setpoint, turns, burst, most, |turns|);
  }

  /** From a start anywhere, it is regulated at every begin once enough turns have closed in. */
  lemma RunSettles(states: seq<PR.State>, events: seq<PR.Event>, setpoint: nat, most: nat, drift: nat -> real,
                   burst: real, least: nat, d: real, away: real, enough: nat, k: nat)
    requires PR.Run(states, events) && Controlled(states, events, setpoint, most)
    requires k <= |events| && Begins(events, k) != []
    requires var turns := Turns(states, events, drift, k);
             Tracks(turns, burst, most) && Steady(turns, least, d) && d < 0.01 && enough <= |turns|
    requires 1.01 * most as real + 1.0 <= setpoint as real && enough as real * (least as real * (0.01 - d)) >= away
    requires var first := states[Begins(events, k)[0]];
             Snapshots(first) && -away <= Depth(LevelOf(first)) - setpoint as real <= away
    ensures Snapshots(states[LastBegin(events, k)])
    ensures Near(LevelOf(states[LastBegin(events, k)]).avail, setpoint, burst)
  {
    RunFollowsLoop(states, events, setpoint, most, drift, k);
    var turns := Turns(states, events, drift, k);
    FillSettles(LevelOf(states[Begins(events, k)[0]]), setpoint, turns, burst, most, least, d, away, enough, |turns|);
  }

  /** No silence so far, and none in the transfer in progress. */
  ghost predicate AllSound(s: PR.State) {
    && s.silent == 0
    && (s.phase.Rendering? ==> RealCount(s.frac, s.phase.ratio, s.phase.avail, s.phase.n) == s.phase.n)
  }

  /** A transfer that begins near the setpoint is all sound. */
  lemma NearIsSound(l: Level, setpoint: nat, burst: real, n: nat, most: nat)
    requires 0.0 <= l.frac < 1.0 && setpoint >= 1 && n <= most
    requires RoomForTurn(setpoint, burst, most) && Near(l.avail, setpoint, burst)
    ensures RealCount(l.frac, LowLatencyRatio(l.avail, setpoint), l.avail, n) == n
  {
    EnoughIsAudible(l.frac, LowLatencyRatio(l.avail, setpoint), l.avail, n, most);
  }

  lemma SoundStep(s: PR.State, e: PR.Event)
    requires AllSound(s) && PR.Can(s, e)
    requires e.Begin? ==> RealCount(s.frac, e.ratio, |s.stream| - s.taken, e.n) == e.n
    ensures AllSound(PR.Do(s, e))
  {
  }

  lemma BeginIsSound(states: seq<PR.State>, events: seq<PR.Event>, setpoint: nat, most: nat, drift: nat -> real,
                     burst: real, i: nat)
    requires PR.Run(states, events) && Controlled(states, events, setpoint, most)
    requires LeadBounded(states, events, drift, burst, most) && BeginsInBand(states, events, setpoint, burst)
    requires 1.01 * most as real + 1.0 <= setpoint as real && RoomForTurn(setpoint, burst, most)
    requires i < |events| && events[i].Begin?
    ensures states[i].taken <= |states[i].stream|
    ensures RealCount(states[i].frac, events[i].ratio, |states[i].stream| - states[i].taken, events[i].n) == events[i].n
  {
    RunIsRegulated(states, events, setpoint, most, drift, burst, i + 1);
    assert LawAt(states[i], events[i], setpoint, most);
    NearIsSound(LevelOf(states[i]), setpoint, burst, events[i].n, most);
  }

  /** A controlled run that starts in the band never emits a frame of silence. */
  lemma {:induction false} RunIsAllSound(states: seq<PR.State>, events: seq<PR.Event>, setpoint: nat, most: nat,
                                         drift: nat -> real, burst: real, k: nat)
    requires PR.Run(states, events) && Controlled(states, events, setpoint, most)
    requires LeadBounded(states, events, drift, burst, most) && BeginsInBand(states, events, setpoint, burst)
    requires 1.01 * most as real + 1.0 <= setpoint as real && RoomForTurn(setpoint, burst, most)
    requires k < |states|
    ensures AllSound(states[k])
  {
    if k == 0 {
    } else {
      RunIsAllSound(states, events, setpoint, most, drift, burst, k - 1);
      assert states[k - 1 + 1] == PR.Do(states[k - 1], events[k - 1]);
      if events[k - 1].Begin? {
        BeginIsSound(states, events, setpoint, most, drift, burst, k - 1);
      }
      SoundStep(states[k - 1], events[k - 1]);
    }
  }
}
