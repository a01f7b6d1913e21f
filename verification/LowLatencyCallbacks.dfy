/** The low-latency daemon's two completion callbacks and the error cutoff they share. */
module LowLatencyCallbacks {
  import opened Numbers
  import opened DeviceFrames
  import opened Pacing
  import opened ShmRing
  import opened Resampler
  import opened PlaybackPump
  import opened BusScheduler
  import opened CapturePath

  const MAX_XFER_ERRORS := 64

  /** Underrun counts as success for playback, overrun for capture. */
  datatype Result = Success | Ignorable | Error

  /** The cutoff: consecutive errors of both directions, and the flag that ends the session. */
  datatype Cutoff = Cutoff(errors: nat, ended: bool)

  /** Only a playback completion clears the count. */
  function AfterResult(c: Cutoff, playback: bool, result: Result): Cutoff {
    if c.ended then c
    else if result == Error then Cutoff(c.errors + 1, c.errors + 1 > MAX_XFER_ERRORS)
    else if playback then Cutoff(0, false)
    else c
  }

  class LowLatency {
    const pump: Pump
    const capture: Capture
    const pbSched: Scheduler
    const capSched: Scheduler
    var errors: nat
    var sessionEnd: bool

    constructor (pump: Pump, capture: Capture, pbSched: Scheduler, capSched: Scheduler)
      ensures State() == Cutoff(0, false)
      ensures this.pump == pump && this.capture == capture && this.pbSched == pbSched && this.capSched == capSched
    {
      this.pump, this.capture, this.pbSched, this.capSched := pump, capture, pbSched, capSched;
      errors, sessionEnd := 0, false;
    }

    ghost function State(): Cutoff
      reads this
    {
      Cutoff(errors, sessionEnd)
    }

    /** The head of either callback: whether it goes on to service its transfer. */
    method Admit(playback: bool, result: Result) returns (go: bool)
      modifies this`errors, this`sessionEnd
      ensures State() == AfterResult(old(State()), playback, result)
      ensures go <==> !sessionEnd
    {
      if sessionEnd {
        return false;
      }
      if result == Error {
        errors := errors + 1;
        if errors > 64 {
          sessionEnd := true;
          return false;
        }
      } else if playback {
        errors := 0;
      }
      return true;
    }

    /** The playback callback: a transfer that is admitted is refilled from the ring and goes back
        on the next bus frame; any other leaves ring, pump and schedule alone. The plugin produces
        meanwhile, as in FillPb. */
    method PbCb(x: Transfer, result: Result, bufferMs: u32, rate: u32, clock: Clock, offers: seq<seq<Frame>>)
      returns (resubmit: bool, frame: nat)
      requires pump.Ready() && pump.ring.Valid() && x.Holds(8) && x.buf != pump.ring.data
      requires |offers| == 9 && Calls(offers)
      modifies this`errors, this`sessionEnd, pump, pump.ring, pump.ring.data, x.buf, x.packets, pbSched
      ensures pump.Ready() && pump.ring.Valid()
      ensures State() == AfterResult(old(State()), true, result) && (resubmit <==> !sessionEnd)
      ensures resubmit ==> pump.ratio == LowLatencyRatio(old(pump.ring.Level()), LowLatencySetpoint(bufferMs, rate))
      ensures resubmit ==> pump.Filled(x, 8, rate, old(pump.ring.Level()), offers)
      ensures resubmit ==> pump.devFrames == old(pump.devFrames) + TotalFrames(old(pump.accum), rate, 8)
      ensures resubmit ==> frame == Handed(old(pbSched.next), clock) && pbSched.next == frame + 1
      ensures !resubmit ==> unchanged(pump) && unchanged(pump.ring) && unchanged(pbSched) && unchanged(x.buf)
    {
      frame := 0;
      resubmit := Admit(true, result);
      if resubmit {
        pump.FillPb(x, bufferMs, rate, offers);
        frame := pbSched.NextSched(clock);
      }
    }

    /** The capture callback: an errored transfer still hands over what it carries until the limit
        ends the session. */
    method CapCb(x: CaptureTransfer, result: Result, clock: Clock, visits: seq<Visit>)
      returns (resubmit: bool, frame: nat)
      requires capture.ring.Valid() && x.Delivered() && x.buf != capture.ring.data
      requires |visits| == 8 && x.requested.Length == 8 && x.requested != x.received
      modifies this`errors, this`sessionEnd, capture, capture.ring, capture.ring.data, x.requested, x.received, capSched
      ensures capture.ring.Valid()
      ensures State() == AfterResult(old(State()), false, result) && (resubmit <==> !sessionEnd)
      ensures resubmit
          ==> Collected(capture.ring, old(capture.ring.stream), old(capture.ring.taken), old(x.Packets()), visits)
      ensures resubmit ==> frame == Handed(old(capSched.next), clock) && capSched.next == frame + 1
      ensures resubmit ==> forall i :: 0 <= i < 8 ==> x.requested[i] == 78 && x.received[i] == 0
      ensures !resubmit ==> unchanged(capture.ring) && unchanged(capSched) && unchanged(x.received)
    {
      frame := 0;
      resubmit := Admit(false, result);
      if resubmit {
        capture.Collect(x, visits);
        x.Rearm();
        frame := capSched.NextSched(clock);
      }
    }
  }

  // ----- what the cutoff counts -----

  /** The cutoff after the first k completions of a session, each playback or capture with its result. */
  function AfterResults(results: seq<(bool, Result)>, k: nat): Cutoff
    requires k <= |results|
  {
    if k == 0 then Cutoff(0, false)
    else AfterResult(AfterResults(results, k - 1), results[k - 1].0, results[k - 1].1)
  }

  /** Errors of either direction since the last playback success. */
  function Streak(results: seq<(bool, Result)>, k: nat): nat
    requires k <= |results|
  {
    if k == 0 then 0
    else if results[k - 1].1 == Error then Streak(results, k - 1) + 1
    else if results[k - 1].0 then 0
    else Streak(results, k - 1)
  }

  ghost predicate Reaches65(results: seq<(bool, Result)>, k: nat)
    requires k <= |results|
  {
    exists i: nat :: i <= k && Streak(results, i) >= 65
  }

  lemma ReachesNext(results: seq<(bool, Result)>, k: nat)
    requires k < |results|
    ensures Reaches65(results, k + 1) <==> Reaches65(results, k) || Streak(results, k + 1) >= 65
  {
    if Reaches65(results, k) {
      var i: nat :| i <= k && Streak(results, i) >= 65;
      assert i <= k + 1;
    }
  }

  /** Over any completions, the session ends exactly when 65 errors have come with no playback success
      among them; until then the count is that of the errors since the last one. */
  lemma {:induction false} EndsAt65(results: seq<(bool, Result)>, k: nat)
    requires k <= |results|
    ensures AfterResults(results, k).ended <==> Reaches65(results, k)
    ensures !AfterResults(results, k).ended ==> AfterResults(results, k).errors == Streak(results, k)
  {
    if k == 0 {
      assert Streak(results, 0) == 0;
    } else {
      EndsAt65(results, k - 1);
      ReachesNext(results, k - 1);
      assert k - 1 <= k - 1 && (Streak(results, k - 1) >= 65 ==> Reaches65(results, k - 1));
    }
  }

  // ----- a dead device -----

  const POOL := 2 * NUM_XFERS

  /** The cutoff and the number of transfers the system holds. */
  datatype Stream = Stream(cutoff: Cutoff, inFlight: nat)

  /** A failed completion, playback or capture. The callback does not look at the outcome of its own
      resubmission, so a refused transfer is simply gone. */
  function AfterFailure(s: Stream, playback: bool, accepted: bool): Stream
    requires s.inFlight > 0
  {
    var c := AfterResult(s.cutoff, playback, Error);
    Stream(c, if !c.ended && accepted then s.inFlight else s.inFlight - 1)
  }

  /** One event per callback: its direction and whether its resubmission is accepted. */
  ghost predicate Failing(s: Stream, events: seq<(bool, bool)>)
    decreases |events|
  {
    events == [] || (s.inFlight > 0 && Failing(AfterFailure(s, events[0].0, events[0].1), events[1..]))
  }

  ghost function AfterFailures(s: Stream, events: seq<(bool, bool)>): Stream
    requires Failing(s, events)
    decreases |events|
  {
    if events == [] then s else AfterFailures(AfterFailure(s, events[0].0, events[0].1), events[1..])
  }

  /** Transfers in flight plus errors still tolerated. */
  function Budget(s: Stream): int { s.inFlight + Max(0, MAX_XFER_ERRORS - s.cutoff.errors) }

  ghost predicate Consistent(c: Cutoff) { c.ended <==> c.errors > MAX_XFER_ERRORS }

  lemma {:induction false} FailuresCostBudget(s: Stream, events: seq<(bool, bool)>)
    requires Consistent(s.cutoff) && Failing(s, events)
    ensures Consistent(AfterFailures(s, events).cutoff)
    ensures Budget(AfterFailures(s, events)) + |events| <= Budget(s)
    ensures s.cutoff.errors <= MAX_XFER_ERRORS + 1
        ==> AfterFailures(s, events).cutoff.errors == Min(s.cutoff.errors + |events|, MAX_XFER_ERRORS + 1)
    decreases |events|
  {
    if events == [] {
    } else {
      FailuresCostBudget(AfterFailure(s, events[0].0, events[0].1), events[1..]);
    }
  }

  /** When every completion of a fresh session is an error, at most 128 callbacks ever run, and the
      session ends exactly with the 65th. */
  lemma DeadStreamEnds(events: seq<(bool, bool)>)
    requires Failing(Stream(Cutoff(0, false), POOL), events)
    ensures |events| <= 128
    ensures AfterFailures(Stream(Cutoff(0, false), POOL), events).cutoff.ended <==> |events| >= 65
  {
    FailuresCostBudget(Stream(Cutoff(0, false), POOL), events);
  }

  ghost predicate AllRefused(events: seq<(bool, bool)>) {
    forall i :: 0 <= i < |events| ==> !events[i].1
  }

  /** Before the cutoff every callback that is refused costs a transfer, and only those do. */
  lemma {:induction false} RefusalsEmptyThePool(s: Stream, events: seq<(bool, bool)>)
    requires !s.cutoff.ended && s.cutoff.errors + |events| <= MAX_XFER_ERRORS && Failing(s, events)
    ensures AfterFailures(s, events).inFlight + |events| >= s.inFlight
    ensures AfterFailures(s, events).inFlight + |events| == s.inFlight <==> AllRefused(events)
    decreases |events|
  {
    if events == [] {
    } else {
      RefusalsEmptyThePool(AfterFailure(s, events[0].0, events[0].1), events[1..]);
      assert AllRefused(events) <==> !events[0].1 && AllRefused(events[1..]) by {
        assert forall i :: 0 <= i < |events| - 1 ==> events[1..][i] == events[i + 1];
      }
    }
  }

  /** Whatever is accepted, no more callbacks can be refused than there are transfers. */
  lemma {:induction false} RefusalsAreFew(s: Stream, events: seq<(bool, bool)>)
    requires Failing(s, events) && AllRefused(events)
    ensures |events| <= s.inFlight
    decreases |events|
  {
    if events == [] {
    } else {
      assert forall i :: 0 <= i < |events| - 1 ==> events[1..][i] == events[i + 1];
      RefusalsAreFew(AfterFailure(s, events[0].0, events[0].1), events[1..]);
    }
  }

  /** The exact condition under which a dead device goes unnoticed: the outcome of a resubmission is
      ignored, so when a failing run leaves nothing in flight, the session is still running if and
      only if every resubmission was refused. */
  lemma UnnoticedIffAllRefused(events: seq<(bool, bool)>)
    requires Failing(Stream(Cutoff(0, false), POOL), events)
    requires AfterFailures(Stream(Cutoff(0, false), POOL), events).inFlight == 0
    ensures !AfterFailures(Stream(Cutoff(0, false), POOL), events).cutoff.ended <==> AllRefused(events)
  {
    var s := Stream(Cutoff(0, false), POOL);
    DeadStreamEnds(events);
    if |events| <= MAX_XFER_ERRORS {
      RefusalsEmptyThePool(s, events);
    } else if AllRefused(events) {
      RefusalsAreFew(s, events);
    }
  }

  function Refusals(n: nat): seq<(bool, bool)> {
    if n == 0 then [] else [(true, false)] + Refusals(n - 1)
  }

  /** And it does happen: when the whole pool fails and no resubmission is taken, no callback is left
      to end the session. */
  lemma {:induction false} RefusedPoolStalls(errors: nat, n: nat)
    requires errors + n <= MAX_XFER_ERRORS
    ensures Failing(Stream(Cutoff(errors, false), n), Refusals(n))
    ensures AfterFailures(Stream(Cutoff(errors, false), n), Refusals(n)) == Stream(Cutoff(errors + n, false), 0)
    decreases n
  {
    if n == 0 {
    } else {
      RefusedPoolStalls(errors + 1, n - 1);
      assert Refusals(n)[1..] == Refusals(n - 1);
    }
  }
}
