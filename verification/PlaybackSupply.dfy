/** The producer's side of the closed loop: a controlled run whose producer keeps to its clock has
    nothing refused and plays no silence, and so has every load-by-load run. */
module PlaybackSupply {
  import opened Numbers
  import opened ShmRing
  import opened Resampler
  import opened Regulation
  import opened PlaybackLoop
  import PF = PumpRefinement

  // ----- nothing is refused -----

  /** Frames the producer has offered, accepted or not. */
  function Offered(s: PR.State): nat { |s.stream| + s.refused }

  /** The turns with what was offered in place of what was accepted. */
  function Offers(states: seq<PR.State>, events: seq<PR.Event>, drift: nat -> real, k: nat): (turns: seq<Turn>)
    requires k <= |events| && |states| == |events| + 1
    ensures |turns| == Max(0, |Begins(events, k)| - 1)
  {
    if k == 0 then []
    else
      var before := Offers(states, events, drift, k - 1);
      if events[k - 1].Begin? && Begins(events, k - 1) != [] then
        var p := LastBegin(events, k - 1);
        before + [Turn(events[p].n, Max(0, Offered(states[k - 1]) - Offered(states[p])), drift(|before|))]
      else before
  }

  ghost predicate OffersTrack(states: seq<PR.State>, events: seq<PR.Event>, drift: nat -> real, burst: real,
                              most: nat, k: nat)
    requires k <= |events| && |states| == |events| + 1
  {
    Tracks(Offers(states, events, drift, k), burst, most)
  }

  /** What the producer offers keeps to its clock; nothing is assumed of what the ring accepts. */
  ghost predicate OfferBounded(states: seq<PR.State>, events: seq<PR.Event>, drift: nat -> real, burst: real, most: nat)
    requires |states| == |events| + 1
  {
    forall k: nat :: k <= |events| ==> OffersTrack(states, events, drift, burst, most, k)
  }

  /** The last begin before event i, or the run's start. */
  function Anchor(events: seq<PR.Event>, i: nat): (p: nat)
    requires i <= |events|
    ensures p <= i
  {
    if Begins(events, i) == [] then 0 else LastBegin(events, i)
  }

  /** A call accepts what fits. It loaded tail after the last transfer began, and tail has not gone
      back since. */
  ghost predicate AcceptsWhatFits(states: seq<PR.State>, events: seq<PR.Event>, i: nat)
    requires i < |events| == |states| - 1
  {
    events[i].Append?
    ==> events[i].n >= Min(|events[i].frames|, states[Anchor(events, i)].taken + RING_FRAMES - |states[i].stream|)
  }

  ghost predicate Prompt(states: seq<PR.State>, events: seq<PR.Event>) {
    && |states| == |events| + 1
    && forall i: nat :: i < |events| ==> AcceptsWhatFits(states, events, i)
  }

  lemma {:induction false} NoBeginUpTo(events: seq<PR.Event>, i: nat, j: nat)
    requires j <= i <= |events| && Begins(events, i) == []
    ensures Begins(events, j) == [] && (j < i ==> !events[j].Begin?)
    decreases i
  {
    if i == j {
    } else {
      NoBeginUpTo(events, i - 1, j);
    }
  }

  /** Before the first transfer begins a refusal leaves the ring full. */
  lemma {:induction false} BeforeFirst(states: seq<PR.State>, events: seq<PR.Event>, i: nat)
    requires PR.Run(states, events) && Prompt(states, events)
    requires i <= |events| && Begins(events, i) == []
    ensures var s := states[i];
            && s.phase == PR.Idle && s.taken == states[0].taken
            && (s.refused == 0 || |s.stream| >= s.taken + RING_FRAMES)
  {
    if i == 0 {
    } else {
      NoBeginUpTo(events, i, i - 1);
      BeforeFirst(states, events, i - 1);
      assert states[i - 1 + 1] == PR.Do(states[i - 1], events[i - 1]);
      assert AcceptsWhatFits(states, events, i - 1);
    }
  }

  lemma OfferedGrows(s: PR.State, e: PR.Event)
    requires PR.Can(s, e)
    ensures Offered(s) <= Offered(PR.Do(s, e)) && s.refused <= PR.Do(s, e).refused
    ensures e.Append? ==> Offered(PR.Do(s, e)) == Offered(s) + |e.frames|
    ensures !e.Append? ==> PR.Do(s, e).refused == s.refused
  {
  }

  /** While all that is offered since state p fits behind its tail, nothing is refused. */
  lemma {:induction false} NothingCut(states: seq<PR.State>, events: seq<PR.Event>, p: nat, i: nat)
    requires PR.Run(states, events) && Prompt(states, events) && p <= i < |states|
    requires forall j :: p <= j < i && events[j].Append? ==> Anchor(events, j) == p
    requires |states[p].stream| + Offered(states[i]) - Offered(states[p]) <= states[p].taken + RING_FRAMES
    ensures states[i].refused == states[p].refused
    decreases i
  {
    if i == p {
    } else {
      var s, e := states[i - 1], events[i - 1];
      assert states[i - 1 + 1] == PR.Do(s, e);
      OfferedGrows(s, e);
      NothingCut(states, events, p, i - 1);
      assert AcceptsWhatFits(states, events, i - 1);
    }
  }

  lemma {:induction false} RefusedGrows(states: seq<PR.State>, events: seq<PR.Event>, i: nat, j: nat)
    requires PR.Run(states, events) && i <= j < |states|
    ensures states[i].refused <= states[j].refused && Offered(states[i]) <= Offered(states[j])
    decreases j
  {
    if i == j {
    } else {
      assert states[j - 1 + 1] == PR.Do(states[j - 1], events[j - 1]);
      OfferedGrows(states[j - 1], events[j - 1]);
      RefusedGrows(states, events, i, j - 1);
    }
  }

  lemma {:induction false} AnchorIs(events: seq<PR.Event>, k: nat, j: nat)
    requires k <= |events| && Begins(events, k) != [] && LastBegin(events, k) < j <= k
    ensures Anchor(events, j) == LastBegin(events, k)
    decreases k
  {
    if j == k {
    } else {
      NoBeginSince(events, k, k - 1);
      AnchorIs(events, k - 1, j);
    }
  }

  /** A turn whose supply fits even if all of it arrives before the transfer publishes its tail. */
  lemma UnrefusedTurn(states: seq<PR.State>, events: seq<PR.Event>, k: nat)
    requires PR.Run(states, events) && Prompt(states, events)
    requires k <= |events| && Begins(events, k) != []
    requires var s := states[LastBegin(events, k)];
             |s.stream| + Offered(states[k]) - Offered(s) <= s.taken + RING_FRAMES
    ensures states[k].refused == states[LastBegin(events, k)].refused
    ensures Offered(states[LastBegin(events, k)]) <= Offered(states[k])
  {
    var p := LastBegin(events, k);
    forall j | p <= j < k && events[j].Append?
      ensures Anchor(events, j) == p
    {
      AnchorIs(events, k, j);
    }
    NothingCut(states, events, p, k);
    RefusedGrows(states, events, p, k);
  }

  /** Up to and at the last of the first k events' begins, everything offered was accepted. */
  ghost predicate Unrefused(states: seq<PR.State>, events: seq<PR.Event>, drift: nat -> real, k: nat)
    requires |states| == |events| + 1 && k <= |events| && Begins(events, k) != []
  {
    && states[LastBegin(events, k)].refused == 0
    && Offers(states, events, drift, k) == Turns(states, events, drift, k)
  }

  lemma UnrefusedFirst(states: seq<PR.State>, events: seq<PR.Event>, setpoint: nat, most: nat, drift: nat -> real,
                       burst: real, k: nat)
    requires PR.Run(states, events) && Prompt(states, events)
    requires OfferBounded(states, events, drift, burst, most) && BeginsInBand(states, events, setpoint, burst)
    requires setpoint >= 1 && RoomForTurn(setpoint, burst, most)
    requires k < |events| && events[k].Begin? && Begins(events, k) == []
    ensures Unrefused(states, events, drift, k + 1)
  {
    BeforeFirst(states, events, k);
    FirstInBand(states, events, setpoint, burst, k);
    assert OffersTrack(states, events, drift, burst, most, 0);
    BandIsInRing(LevelOf(states[k]), setpoint, Offers(states, events, drift, 0), burst, most);
  }

  lemma FirstInBand(states: seq<PR.State>, events: seq<PR.Event>, setpoint: nat, burst: real, k: nat)
    requires |states| == |events| + 1 && BeginsInBand(states, events, setpoint, burst)
    requires k < |events| && events[k].Begin? && Begins(events, k) == []
    ensures Snapshots(states[k]) && StartsInBand(LevelOf(states[k]), setpoint, burst)
  {
    FirstBegin(events, k + 1, |events|);
  }

  lemma BandIsInRing(l: Level, setpoint: nat, turns: seq<Turn>, burst: real, most: nat)
    requires 0.0 <= l.frac < 1.0 && Tracks(turns, burst, most) && RoomForTurn(setpoint, burst, most)
    requires StartsInBand(l, setpoint, burst)
    ensures l.avail < RING_FRAMES
  {
    assert -burst <= Lead(turns, 0) <= burst;
  }

  lemma LastOffer(states: seq<PR.State>, events: seq<PR.Event>, drift: nat -> real, k: nat, p: nat,
                  before: seq<Turn>, t: Turn)
    requires |states| == |events| + 1 && k < |events| && events[k].Begin? && Begins(events, k) != []
    requires p == LastBegin(events, k) && before == Offers(states, events, drift, k)
    requires t.n == events[p].n && t.drift == drift(|before|)
    requires Offered(states[k]) == Offered(states[p]) + t.supply
    ensures Offers(states, events, drift, k + 1) == before + [t]
  {
    assert Turn(events[p].n, Max(0, Offered(states[k]) - Offered(states[p])), drift(|before|)) == t;
  }

  lemma LastAccepted(states: seq<PR.State>, events: seq<PR.Event>, drift: nat -> real, k: nat, p: nat, t: Turn)
    requires |states| == |events| + 1 && k < |events| && events[k].Begin? && Begins(events, k) != []
    requires p == LastBegin(events, k) && |states[k].stream| == |states[p].stream| + t.supply
    requires t.n == events[p].n && t.drift == drift(|Turns(states, events, drift, k)|)
    ensures Turns(states, events, drift, k + 1) == Turns(states, events, drift, k) + [t]
  {
    LastTurn(states, events, drift, k);
  }

  /** One more turn: its offers are its supply. */
  lemma UnrefusedNext(states: seq<PR.State>, events: seq<PR.Event>, drift: nat -> real, k: nat)
    requires PR.Run(states, events) && Prompt(states, events)
    requires k < |events| && events[k].Begin? && Begins(events, k) != [] && Unrefused(states, events, drift, k)
    requires var s := states[LastBegin(events, k)];
             |s.stream| + Offered(states[k]) - Offered(s) <= s.taken + RING_FRAMES
    ensures Unrefused(states, events, drift, k + 1)
  {
    UnrefusedTurn(states, events, k);
    OfferIsTurn(states, events, drift, k, LastBegin(events, k), Turns(states, events, drift, k));
  }

  /** Nothing refused over a turn: offers that were the turns so far still are. */
  lemma OfferIsTurn(states: seq<PR.State>, events: seq<PR.Event>, drift: nat -> real, k: nat, p: nat, turns: seq<Turn>)
    requires |states| == |events| + 1 && k < |events| && events[k].Begin? && Begins(events, k) != []
    requires p == LastBegin(events, k) && |states[p].stream| <= |states[k].stream|
    requires states[p].refused == states[k].refused
    requires Offers(states, events, drift, k) == turns == Turns(states, events, drift, k)
    ensures Offers(states, events, drift, k + 1) == Turns(states, events, drift, k + 1)
  {
    var t := Turn(events[p].n, |states[k].stream| - |states[p].stream|, drift(|turns|));
    LastOffer(states, events, drift, k, p, turns, t);
    LastAccepted(states, events, drift, k, p, t);
  }

  lemma UnrefusedOther(states: seq<PR.State>, events: seq<PR.Event>, drift: nat -> real, k: nat)
    requires |states| == |events| + 1 && k < |events| && !events[k].Begin? && Begins(events, k) != []
    requires Unrefused(states, events, drift, k)
    ensures Unrefused(states, events, drift, k + 1)
  {
    assert Begins(events, k + 1) == Begins(events, k);
  }

  /** The loop's level at the last begin, when all offers so far were accepted. */
  lemma FollowOffers(states: seq<PR.State>, events: seq<PR.Event>, setpoint: nat, most: nat, drift: nat -> real, k: nat)
    requires PR.Run(states, events) && Controlled(states, events, setpoint, most)
    requires k <= |events| && Begins(events, k) != [] && Unrefused(states, events, drift, k)
    ensures var first, last, before := states[Begins(events, k)[0]], states[LastBegin(events, k)],
                                       Offers(states, events, drift, k);
            && Snapshots(first) && Snapshots(last)
            && LevelOf(last) == After(LevelOf(first), setpoint, before, |before|)
  {
    RunFollowsLoop(states, events, setpoint, most, drift, k);
  }

  /** The last turn's offers fit: the loop is near the setpoint at the begin before it and would be
      at the one after it. */
  lemma OffersFit(states: seq<PR.State>, events: seq<PR.Event>, setpoint: nat, most: nat, drift: nat -> real,
                  burst: real, k: nat)
    requires PR.Run(states, events) && Controlled(states, events, setpoint, most)
    requires 1.01 * most as real + 1.0 <= setpoint as real && RoomForTurn(setpoint, burst, most)
    requires k < |events| && events[k].Begin? && Begins(events, k) != [] && Unrefused(states, events, drift, k)
    requires OffersTrack(states, events, drift, burst, most, k + 1)
    requires var first := states[Begins(events, k)[0]];
             Snapshots(first) && StartsInBand(LevelOf(first), setpoint, burst)
    ensures var s := states[LastBegin(events, k)];
            |s.stream| + Offered(states[k]) - Offered(s) <= s.taken + RING_FRAMES
  {
    var p, before := LastBegin(events, k), Offers(states, events, drift, k);
    RefusedGrows(states, events, p, k);
    var t := Turn(events[p].n, Offered(states[k]) - Offered(states[p]), drift(|before|));
    LastOffer(states, events, drift, k, p, before, t);
    FollowOffers(states, events, setpoint, most, drift, k);
    TurnFits(LevelOf(states[Begins(events, k)[0]]), setpoint, before, Offers(states, events, drift, k + 1), t, burst,
             most);
  }

  lemma TurnFits(l: Level, s: nat, before: seq<Turn>, turns: seq<Turn>, t: Turn, burst: real, most: nat)
    requires turns == before + [t] && Tracks(turns, burst, most)
    requires 0.0 <= l.frac < 1.0 && 1.01 * most as real + 1.0 <= s as real
    requires StartsInBand(l, s, burst) && RoomForTurn(s, burst, most)
    ensures After(l, s, before, |before|).avail + t.supply <= RING_FRAMES
  {
    AfterPrefix(l, s, before, t, |before|);
    NoSilenceNoRefusal(l, s, turns, burst, most, |before|);
  }

  lemma UnrefusedBegin(states: seq<PR.State>, events: seq<PR.Event>, setpoint: nat, most: nat, drift: nat -> real,
                       burst: real, k: nat)
    requires PR.Run(states, events) && Controlled(states, events, setpoint, most) && Prompt(states, events)
    requires OfferBounded(states, events, drift, burst, most) && BeginsInBand(states, events, setpoint, burst)
    requires 1.01 * most as real + 1.0 <= setpoint as real && RoomForTurn(setpoint, burst, most)
    requires k < |events| && events[k].Begin? && Begins(events, k) != [] && Unrefused(states, events, drift, k)
    ensures Unrefused(states, events, drift, k + 1)
  {
    FirstBegin(events, k, |events|);
    assert OffersTrack(states, events, drift, burst, most, k + 1);
    OffersFit(states, events, setpoint, most, drift, burst, k);
    UnrefusedNext(states, events, drift, k);
  }

  /** What is offered is what is accepted, up to every begin of a controlled run that starts in the
      band and whose producer keeps to its clock. */
  lemma {:induction false} OffersAreTurns(states: seq<PR.State>, events: seq<PR.Event>, setpoint: nat, most: nat,
                                          drift: nat -> real, burst: real, k: nat)
    requires PR.Run(states, events) && Controlled(states, events, setpoint, most) && Prompt(states, events)
    requires OfferBounded(states, events, drift, burst, most) && BeginsInBand(states, events, setpoint, burst)
    requires 1.01 * most as real + 1.0 <= setpoint as real && RoomForTurn(setpoint, burst, most)
    requires k <= |events| && Begins(events, k) != []
    ensures Unrefused(states, events, drift, k)
  {
    if Begins(events, k - 1) == [] {
      UnrefusedFirst(states, events, setpoint, most, drift, burst, k - 1);
    } else if events[k - 1].Begin? {
      OffersAreTurns(states, events, setpoint, most, drift, burst, k - 1);
      UnrefusedBegin(states, events, setpoint, most, drift, burst, k - 1);
    } else {
      OffersAreTurns(states, events, setpoint, most, drift, burst, k - 1);
      UnrefusedOther(states, events, drift, k - 1);
    }
  }

  /** A controlled run that starts in the band never has a frame refused: up to its last begin the
      ring has accepted all that a producer within 1% and `burst` frames of its clock offered. */
  lemma NothingRefused(states: seq<PR.State>, events: seq<PR.Event>, setpoint: nat, most: nat, drift: nat -> real,
                       burst: real, k: nat, i: nat)
    requires PR.Run(states, events) && Controlled(states, events, setpoint, most) && Prompt(states, events)
    requires OfferBounded(states, events, drift, burst, most) && BeginsInBand(states, events, setpoint, burst)
    requires 1.01 * most as real + 1.0 <= setpoint as real && RoomForTurn(setpoint, burst, most)
    requires k <= |events| && Begins(events, k) != [] && i <= LastBegin(events, k)
    ensures states[i].refused == 0
  {
    OffersAreTurns(states, events, setpoint, most, drift, burst, k);
    RefusedGrows(states, events, i, LastBegin(events, k));
  }

  /** And none of its frames is silent, on the same terms. */
  lemma NothingSilent(states: seq<PR.State>, events: seq<PR.Event>, setpoint: nat, most: nat, drift: nat -> real,
                      burst: real, k: nat)
    requires PR.Run(states, events) && Controlled(states, events, setpoint, most) && Prompt(states, events)
    requires OfferBounded(states, events, drift, burst, most) && BeginsInBand(states, events, setpoint, burst)
    requires 1.01 * most as real + 1.0 <= setpoint as real && RoomForTurn(setpoint, burst, most)
    requires k < |states|
    ensures AllSound(states[k])
  {
    forall j: nat | j <= |events|
      ensures Tracks(Turns(states, events, drift, j), burst, most)
    {
      if Begins(events, j) == [] {
        NoBegins(states, events, drift, j);
      } else {
        OffersAreTurns(states, events, setpoint, most, drift, burst, j);
      }
      assert OffersTrack(states, events, drift, burst, most, j);
    }
    RunIsAllSound(states, events, setpoint, most, drift, burst, k);
  }

  lemma NoBegins(states: seq<PR.State>, events: seq<PR.Event>, drift: nat -> real, j: nat)
    requires |states| == |events| + 1 && j <= |events| && Begins(events, j) == []
    ensures Offers(states, events, drift, j) == Turns(states, events, drift, j)
  {
  }

  // ----- load by load -----

  /** A transfer of at most `most` frames, at the control law's ratio for the fill between tail and
      the head just loaded. */
  ghost predicate LawAtMove(s: PF.State, m: PF.Move, setpoint: nat, most: nat) {
    m.LoadHead?
    ==> && setpoint >= 1 && s.ring.taken <= |s.ring.accepted| && 0.0 <= s.frac < 1.0 && m.n <= most
        && m.ratio == LowLatencyRatio(|s.ring.accepted| - s.ring.taken, setpoint)
  }

  lemma LawOfMove(s: PF.State, m: PF.Move, setpoint: nat, most: nat)
    requires PF.Can(s, m) && LawAtMove(s, m, setpoint, most)
    ensures PF.EventOf(s, m) != [] ==> LawAt(PF.Abs(s), PF.EventOf(s, m)[0], setpoint, most)
  {
  }

  lemma ControlledSnoc(trace: seq<PR.State>, events: seq<PR.Event>, e: PR.Event, next: PR.State, setpoint: nat,
                       most: nat)
    requires Controlled(trace, events, setpoint, most) && LawAt(trace[|events|], e, setpoint, most)
    ensures Controlled(trace + [next], events + [e], setpoint, most)
  {
  }

  /** The playback run that a load-by-load run is keeps to the control law if the moves do. */
  lemma {:induction false} MovesAreControlled(states: seq<PF.State>, moves: seq<PF.Move>, setpoint: nat, most: nat,
                                              k: nat)
    requires PF.Run(states, moves) && setpoint >= 1 && k <= |moves|
    requires forall i :: 0 <= i < |moves| ==> LawAtMove(states[i], moves[i], setpoint, most)
    ensures Controlled(PF.Trace(states, moves, k), PF.Events(states, moves, k), setpoint, most)
  {
    if k == 0 {
      PF.RunRefines(states, moves, 0);
    } else {
      MovesAreControlled(states, moves, setpoint, most, k - 1);
      PF.RunRefines(states, moves, k - 1);
      var es := PF.EventOf(states[k - 1], moves[k - 1]);
      PF.TraceNext(states, moves, k - 1, es);
      LawOfMove(states[k - 1], moves[k - 1], setpoint, most);
      if es != [] {
        ControlledSnoc(PF.Trace(states, moves, k - 1), PF.Events(states, moves, k - 1), es[0], PF.Abs(states[k]),
                       setpoint, most);
      }
    }
  }

  /** So the two processes, interleaved load by load under the control law and with a producer that
      keeps to its clock, never play a frame of silence. */
  lemma LoadsAreAllSound(states: seq<PF.State>, moves: seq<PF.Move>, setpoint: nat, most: nat, drift: nat -> real,
                         burst: real)
    requires PF.Run(states, moves) && setpoint >= 1
    requires forall i :: 0 <= i < |moves| ==> LawAtMove(states[i], moves[i], setpoint, most)
    requires var trace, events := PF.Trace(states, moves, |moves|), PF.Events(states, moves, |moves|);
             && |trace| == |events| + 1
             && LeadBounded(trace, events, drift, burst, most) && BeginsInBand(trace, events, setpoint, burst)
    requires 1.01 * most as real + 1.0 <= setpoint as real && RoomForTurn(setpoint, burst, most)
    ensures states[|moves|].log.silent == 0
  {
    var trace, events := PF.Trace(states, moves, |moves|), PF.Events(states, moves, |moves|);
    MovesAreControlled(states, moves, setpoint, most, |moves|);
    PF.RunRefines(states, moves, |moves|);
    RunIsAllSound(trace, events, setpoint, most, drift, burst, |events|);
  }
}
