/** Transfer accounting in the libusb daemon: 16 playback and 16 capture transfers, submitted at
    stream start, resubmitted by their own callbacks, cancelled and drained at teardown. */
module TransferLifecycle {
  import opened Numbers

  const NUM_URBS := 16
  const MAX_XFER_ERRORS := 64

  datatype Status = Completed | Cancelled | Failed

  /** Transfers 0..15 play, 16..31 capture. */
  predicate IsPlayback(id: nat) { id < NUM_URBS }

  /** inFlight is what libusb holds; active, errors, stopSession and running are the daemon's
      counters and flags; freed the transfers whose memory was returned. stop is process exit. */
  datatype State = State(inFlight: set<nat>, active: int, errors: nat, stopSession: bool,
                         running: bool, stop: bool, freed: set<nat>)

  /** The accounting invariant. */
  ghost predicate Counted(s: State) {
    s.active == |s.inFlight| && s.inFlight !! s.freed
  }

  function Submit(s: State, id: nat, accepted: bool): State {
    if accepted then s.(active := s.active + 1, inFlight := s.inFlight + {id})
    else s.(stopSession := true)
  }

  /** One more consecutive error; past the limit the session is flagged to stop. */
  function CountError(s: State): State {
    var e := s.errors + 1;
    if e > MAX_XFER_ERRORS then s.(errors := e, running := false, stopSession := true) else s.(errors := e)
  }

  /** A transfer comes back with a status, and its callback decides whether to resubmit it. Only the
      capture callback looks at stopSession. */
  function Returned(s: State, id: nat, status: Status, accepted: bool): State
    requires id in s.inFlight
  {
    var s1 := s.(active := s.active - 1, inFlight := s.inFlight - {id});
    if s.stop || status == Cancelled || (!IsPlayback(id) && s.stopSession) then s1
    else if status == Failed then
      var s2 := CountError(s1);
      if s2.errors > MAX_XFER_ERRORS then s2 else Submit(s2, id, accepted)
    else
      Submit(s1.(errors := 0), id, accepted)
  }

  /** The callback gets as far as looking at the outcome. */
  predicate Serviced(s: State, id: nat, status: Status) {
    !s.stop && status != Cancelled && (IsPlayback(id) || !s.stopSession)
  }

  /** The 65th error in a row. */
  predicate CutsOff(s: State, id: nat, status: Status) {
    Serviced(s, id, status) && status == Failed && s.errors >= 64
  }

  /** What a callback does to flight, counter, errors and flags: a serviced transfer whose resubmission
      is accepted is out again, unless it was the error that ends the session. */
  lemma CallbackOutcome(s: State, id: nat, status: Status, accepted: bool)
    requires id in s.inFlight
    ensures var t, back := Returned(s, id, status, accepted),
                           Serviced(s, id, status) && accepted && !CutsOff(s, id, status);
            && t.inFlight == (if back then s.inFlight else s.inFlight - {id})
            && t.active == (if back then s.active else s.active - 1)
            && t.errors == (if !Serviced(s, id, status) then s.errors else if status == Failed then s.errors + 1 else 0)
            && (t.running <==> s.running && !CutsOff(s, id, status))
            && (t.stopSession <==> s.stopSession || (Serviced(s, id, status) && !back))
            && t.stop == s.stop && t.freed == s.freed
  {
  }

  /** Initial submission of transfers in the order pb 0, cap 0, pb 1, ...; the first refusal ends it. */
  function OrderOf(k: nat): nat { if k % 2 == 0 then k / 2 else NUM_URBS + k / 2 }

  /** The first n transfers in submission order. */
  ghost function Ordered(n: nat): set<nat> {
    if n == 0 then {} else Ordered(n - 1) + {OrderOf(n - 1)}
  }

  lemma OrderOfIs(k: nat, x: nat)
    requires k < 32
    ensures OrderOf(k) == x <==> x < 32 && k == if x < NUM_URBS then 2 * x else 2 * (x - NUM_URBS) + 1
  {
  }

  lemma {:induction false} OrderedMembers(n: nat, x: nat)
    requires n <= 32
    ensures x in Ordered(n) <==> x < 32 && (if x < NUM_URBS then 2 * x else 2 * (x - NUM_URBS) + 1) < n
  {
    if n == 0 {
    } else {
      OrderOfIs(n - 1, x);
      OrderedMembers(n - 1, x);
    }
  }

  lemma {:induction false} OrderedSize(n: nat)
    requires n <= 32
    ensures |Ordered(n)| == n
  {
    if n == 0 {
    } else {
      OrderedSize(n - 1);
      OrderedMembers(n - 1, OrderOf(n - 1));
    }
  }

  lemma SubmittedNext(i: nat)
    ensures Ordered(2 * i + 1) == Ordered(2 * i) + {i}
    ensures Ordered(2 * (i + 1)) == Ordered(2 * i + 1) + {NUM_URBS + i}
  {
    assert OrderOf(2 * i) == i && OrderOf(2 * i + 1) == NUM_URBS + i;
  }

  /** Callbacks delivered while the daemon drains, until its counter reaches zero. */
  ghost predicate Drainable(s: State, arrivals: seq<(nat, Status, bool)>)
    decreases |arrivals|
  {
    arrivals == [] || s.active <= 0
    || (arrivals[0].0 in s.inFlight
        && Drainable(Returned(s, arrivals[0].0, arrivals[0].1, arrivals[0].2), arrivals[1..]))
  }

  ghost function Drained(s: State, arrivals: seq<(nat, Status, bool)>): State
    requires Drainable(s, arrivals)
    decreases |arrivals|
  {
    if arrivals == [] || s.active <= 0 then s
    else Drained(Returned(s, arrivals[0].0, arrivals[0].1, arrivals[0].2), arrivals[1..])
  }

  /** A callback keeps the counter equal to the transfers in flight and frees nothing. */
  lemma ReturnedKeepsCount(s: State, id: nat, status: Status, accepted: bool)
    requires Counted(s) && id in s.inFlight
    ensures Counted(Returned(s, id, status, accepted))
    ensures Returned(s, id, status, accepted).inFlight <= s.inFlight
    ensures Returned(s, id, status, accepted).freed == s.freed
  {
  }

  /** The daemon's globals, with the transfers libusb holds as ghost state. */
  class Daemon {
    var active: int
    var errors: nat
    var stopSession: bool
    var running: bool
    var stop: bool
    ghost var inFlight: set<nat>
    ghost var freed: set<nat>

    constructor ()
      ensures Abs() == State({}, 0, 0, false, true, false, {})
    {
      active, errors := 0, 0;
      stopSession, running, stop := false, true, false;
      inFlight, freed := {}, {};
    }

    ghost function Abs(): State
      reads this
    {
      State(inFlight, active, errors, stopSession, running, stop, freed)
    }

    method PlaybackCb(id: nat, status: Status, accepted: bool)
      requires IsPlayback(id) && id in inFlight
      modifies this
      ensures Abs() == Returned(old(Abs()), id, status, accepted)
      ensures status == Completed && accepted && !old(stop) ==> Abs() == old(Abs()).(errors := 0)
    {
      active := active - 1;
      inFlight := inFlight - {id};
      if stop || status == Cancelled {
        return;
      }
      if status != Completed {
        errors := errors + 1;
        if errors > 64 {
          running := false;
          stopSession := true;
          return;
        }
      } else {
        errors := 0;
      }
      if !accepted {
        stopSession := true;
        return;
      }
      inFlight := inFlight + {id};
      active := active + 1;
    }

    method CaptureCb(id: nat, status: Status, accepted: bool)
      requires !IsPlayback(id) && id in inFlight
      modifies this
      ensures Abs() == Returned(old(Abs()), id, status, accepted)
      ensures status == Completed && accepted && !old(stop) && !old(stopSession)
          ==> Abs() == old(Abs()).(errors := 0)
    {
      active := active - 1;
      inFlight := inFlight - {id};
      if stop || stopSession || status == Cancelled {
        return;
      }
      if status != Completed {
        errors := errors + 1;
        if errors > 64 {
          running := false;
          stopSession := true;
          return;
        }
        if !accepted {
          stopSession := true;
          return;
        }
        inFlight := inFlight + {id};
        active := active + 1;
        return;
      }
      errors := 0;
      if !accepted {
        stopSession := true;
        return;
      }
      inFlight := inFlight + {id};
      active := active + 1;
    }

    /** Submits the i-th playback and the i-th capture transfer. */
    method SubmitPair(i: nat, refuseAt: nat) returns (go: bool)
      requires i < 16 && 2 * i <= refuseAt && !stopSession
      requires inFlight == Ordered(2 * i) && active == 2 * i
      modifies this`active, this`inFlight, this`stopSession
      ensures go <==> 2 * i + 2 <= refuseAt
      ensures stopSession <==> !go
      ensures active == (if go then 2 * i + 2 else refuseAt) && inFlight == Ordered(active)
    {
      SubmittedNext(i);
      if refuseAt == 2 * i {
        stopSession := true;
        return false;
      }
      inFlight := inFlight + {i};
      active := active + 1;
      if refuseAt == 2 * i + 1 {
        stopSession := true;
        return false;
      }
      inFlight := inFlight + {16 + i};
      active := active + 1;
      go := true;
    }

    /** Stream start: submits until everything is out or one submission is refused. `refuseAt` is
        the first refused one, 32 or more when none is. */
    method SubmitAll(refuseAt: nat)
      requires active == 0 && inFlight == {} && !stopSession
      requires freed == {}
      modifies this`active, this`inFlight, this`stopSession
      ensures Counted(Abs())
      ensures inFlight == Ordered(if refuseAt < 32 then refuseAt else 32)
      ensures stopSession <==> refuseAt < 32
    {
      var i := 0;
      while i < 16
        invariant 0 <= i <= 16 && !stopSession
        invariant 2 * i <= refuseAt
        invariant inFlight == Ordered(2 * i) && active == 2 * i
      {
        var go := SubmitPair(i, refuseAt);
        if !go {
          break;
        }
        i := i + 1;
      }
      OrderedSize(active);
    }

    /** Teardown: the session is flagged, every transfer is cancelled, and the ones that come back
        within the wall-clock budget are `arrivals`. All memory is freed if and only if the
        counter reached zero; otherwise none is, and the counter is reset with transfers out. */
    method Teardown(arrivals: seq<(nat, Status, bool)>, all: set<nat>)
      requires Counted(Abs()) && inFlight <= all && freed == {}
      requires Drainable(Abs().(stopSession := true), arrivals)
      modifies this
      ensures var drained := Drained(old(Abs()).(stopSession := true), arrivals);
              && inFlight == drained.inFlight && active == 0
              && freed == (if drained.inFlight == {} then all else {})
              && (drained.inFlight == {} ==> Counted(Abs()))
    {
      stopSession := true;
      ghost var s0 := Abs();
      var i := 0;
      while i < |arrivals| && active > 0
        invariant 0 <= i <= |arrivals|
        invariant Drainable(Abs(), arrivals[i..])
        invariant Drained(Abs(), arrivals[i..]) == Drained(s0, arrivals)
        invariant Counted(Abs()) && freed == {} && inFlight <= all && stopSession
      {
        var (id, status, accepted) := arrivals[i];
        ReturnedKeepsCount(Abs(), id, status, accepted);
        assert arrivals[i..][1..] == arrivals[i + 1..];
        if id < 16 {
          PlaybackCb(id, status, accepted);
        } else {
          CaptureCb(id, status, accepted);
        }
        i := i + 1;
      }
      if active == 0 {
        freed := all;
      } else {
        active := 0;
      }
    }
  }

  // ----- a whole session as a state machine -----

  datatype Phase = Submitting(k: nat) | Streaming | Draining | Finished(timedOut: bool)

  datatype Session = Session(s: State, phase: Phase)

  datatype Event =
    | TrySubmit(accepted: bool)
    | Callback(id: nat, status: Status, accepted: bool)
    | AppStops
    | ProcessStops
    | BeginTeardown
    | EndDrain

  predicate Can(x: Session, e: Event) {
    match e
    case TrySubmit(_) => x.phase.Submitting? && x.phase.k < 32
    case Callback(id, _, _) => (x.phase.Streaming? || x.phase.Draining?) && id in x.s.inFlight
    case AppStops => true
    case ProcessStops => true
    case BeginTeardown => x.phase.Streaming?
    case EndDrain => x.phase.Draining?
  }

  /** All transfers of a session. */
  ghost function All(): set<nat> { Ordered(32) }

  ghost function Do(x: Session, e: Event): Session
    requires Can(x, e)
  {
    match e
    case TrySubmit(accepted) =>
      var s' := Submit(x.s, OrderOf(x.phase.k), accepted);
      Session(s', if accepted && x.phase.k + 1 < 32 then Submitting(x.phase.k + 1) else Streaming)
    case Callback(id, status, accepted) => x.(s := Returned(x.s, id, status, accepted))
    case AppStops => x.(s := x.s.(running := false))
    case ProcessStops => x.(s := x.s.(stop := true))
    case BeginTeardown => Session(x.s.(stopSession := true), Draining)
    case EndDrain =>
      if x.s.active == 0 then Session(x.s.(freed := All()), Finished(false))
      else Session(x.s.(active := 0), Finished(true))
  }

  ghost predicate Start(x: Session) {
    && x.phase == Submitting(0)
    && x.s.inFlight == {} && x.s.active == 0 && x.s.freed == {} && x.s.errors == 0 && !x.s.stopSession
  }

  ghost predicate Inv(x: Session) {
    && (x.phase.Submitting? ==> x.phase.k < 32 && x.s.inFlight == Ordered(x.phase.k))
    && (match x.phase
        case Finished(true) => x.s.inFlight != {} && x.s.freed == {}
        case Finished(false) => Counted(x.s) && x.s.inFlight == {} && x.s.freed == All()
        case _ => Counted(x.s) && x.s.freed == {})
  }

  lemma StepKeepsInv(x: Session, e: Event)
    requires Inv(x) && Can(x, e)
    ensures Inv(Do(x, e))
  {
    match e
    case TrySubmit(accepted) => OrderedMembers(x.phase.k, OrderOf(x.phase.k));
    case Callback(id, status, accepted) => ReturnedKeepsCount(x.s, id, status, accepted);
    case AppStops =>
    case ProcessStops =>
    case BeginTeardown =>
    case EndDrain =>
  }

  ghost predicate Run(xs: seq<Session>, es: seq<Event>) {
    && |xs| == |es| + 1 && Start(xs[0])
    && forall i :: 0 <= i < |es| ==> Can(xs[i], es[i]) && xs[i + 1] == Do(xs[i], es[i])
  }

  /** In-flight accounting over whole sessions, with refused submissions, errors, cancellations and
      resubmissions in any order: the counter equals the transfers libusb holds in every state
      before a timed-out drain, nothing in flight is ever freed, and a timed-out teardown frees
      nothing at all. */
  lemma {:induction false} AccountingIsExact(xs: seq<Session>, es: seq<Event>, i: nat)
    requires Run(xs, es) && i < |xs|
    ensures Inv(xs[i])
    ensures xs[i].phase != Finished(true) ==> xs[i].s.active == |xs[i].s.inFlight|
    ensures xs[i].s.inFlight !! xs[i].s.freed
    ensures xs[i].phase == Finished(true) ==> xs[i].s.freed == {} && xs[i].s.inFlight != {}
  {
    if i == 0 {
    } else {
      AccountingIsExact(xs, es, i - 1);
      assert xs[i - 1 + 1] == Do(xs[i - 1], es[i - 1]);
      StepKeepsInv(xs[i - 1], es[i - 1]);
    }
  }

  // ----- a healthy device -----

  /** Accepted, not cancelled, and the process goes on. */
  predicate HealthyAt(e: Event) {
    match e
    case TrySubmit(accepted) => accepted
    case Callback(_, status, accepted) => status != Cancelled && accepted
    case _ => true
  }

  ghost predicate Healthy(es: seq<Event>, k: nat)
    requires k <= |es|
  {
    forall i :: 0 <= i < k ==> HealthyAt(es[i])
  }

  /** Failures since the last success, after the first k events. */
  function Streak(es: seq<Event>, k: nat): nat
    requires k <= |es|
  {
    if k == 0 then 0
    else
      match es[k - 1]
      case Callback(_, Failed, _) => Streak(es, k - 1) + 1
      case Callback(_, Completed, _) => 0
      case _ => Streak(es, k - 1)
  }

  /** Never 65 failures in a row. */
  ghost predicate Steady(es: seq<Event>, k: nat)
    requires k <= |es|
  {
    forall i: nat :: i <= k ==> Streak(es, i) <= 64
  }

  ghost predicate Full(s: State) { s.inFlight == All() && !s.stopSession }

  /** What the events so far say of the state, while the session submits and streams. */
  ghost predicate Follows(x: Session, es: seq<Event>, k: nat)
    requires k <= |es|
  {
    && !x.s.stop
    && (x.phase.Submitting? ==> Healthy(es, k) && Steady(es, k) && x.s.errors == Streak(es, k) == 0 && !x.s.stopSession)
    && (x.phase.Streaming? ==> (Full(x.s) <==> Healthy(es, k) && Steady(es, k)))
    && (x.phase.Streaming? && !x.s.stopSession ==> x.s.inFlight <= All())
    && (x.phase.Streaming? && Full(x.s) ==> x.s.errors == Streak(es, k))
  }

  lemma HealthyNext(es: seq<Event>, k: nat)
    requires k < |es|
    ensures Healthy(es, k + 1) <==> Healthy(es, k) && HealthyAt(es[k])
    ensures Steady(es, k + 1) <==> Steady(es, k) && Streak(es, k + 1) <= 64
  {
    if Steady(es, k) && Streak(es, k + 1) <= 64 {
      forall i: nat | i <= k + 1
        ensures Streak(es, i) <= 64
      {
        assert i <= k || i == k + 1;
      }
    }
  }

  lemma SubmitFollows(x: Session, es: seq<Event>, k: nat)
    requires k < |es| && Inv(x) && Follows(x, es, k) && es[k].TrySubmit? && Can(x, es[k])
    ensures Follows(Do(x, es[k]), es, k + 1)
  {
    HealthyNext(es, k);
  }

  lemma CallbackFollows(x: Session, es: seq<Event>, k: nat)
    requires k < |es| && Inv(x) && Follows(x, es, k) && es[k].Callback? && Can(x, es[k])
    ensures Follows(Do(x, es[k]), es, k + 1)
  {
    HealthyNext(es, k);
    CallbackOutcome(x.s, es[k].id, es[k].status, es[k].accepted);
  }

  lemma OtherFollows(x: Session, es: seq<Event>, k: nat)
    requires k < |es| && Follows(x, es, k) && Can(x, es[k])
    requires es[k].AppStops? || es[k].BeginTeardown? || es[k].EndDrain?
    ensures Follows(Do(x, es[k]), es, k + 1)
  {
    HealthyNext(es, k);
  }

  lemma {:induction false} RunFollows(xs: seq<Session>, es: seq<Event>, k: nat)
    requires Run(xs, es) && k < |xs| && !xs[0].s.stop
    requires forall i :: 0 <= i < k ==> !es[i].ProcessStops?
    ensures Follows(xs[k], es, k)
  {
    if k == 0 {
    } else {
      RunFollows(xs, es, k - 1);
      AccountingIsExact(xs, es, k - 1);
      assert xs[k - 1 + 1] == Do(xs[k - 1], es[k - 1]);
      if es[k - 1].TrySubmit? {
        SubmitFollows(xs[k - 1], es, k - 1);
      } else if es[k - 1].Callback? {
        CallbackFollows(xs[k - 1], es, k - 1);
      } else {
        OtherFollows(xs[k - 1], es, k - 1);
      }
    }
  }

  /** Until the process is told to stop, a streaming session keeps all 32 transfers in flight and is
      not flagged to end, exactly as long as nothing was refused or cancelled and no 65 completions
      in a row were errors. */
  lemma StreamStaysFullIff(xs: seq<Session>, es: seq<Event>, k: nat)
    requires Run(xs, es) && k < |xs| && !xs[0].s.stop && xs[k].phase.Streaming?
    requires forall i :: 0 <= i < k ==> !es[i].ProcessStops?
    ensures xs[k].s.inFlight == All() && !xs[k].s.stopSession <==> Healthy(es, k) && Steady(es, k)
    ensures Healthy(es, k) && Steady(es, k) ==> xs[k].s.active == 32 && xs[k].s.errors == Streak(es, k)
  {
    RunFollows(xs, es, k);
    AccountingIsExact(xs, es, k);
    OrderedSize(32);
  }

  // ----- a dead device -----

  /** Every transfer comes back failed: one event per callback, with its resubmission's outcome. */
  ghost predicate Failing(s: State, events: seq<(nat, bool)>)
    decreases |events|
  {
    events == [] || (events[0].0 in s.inFlight && Failing(Returned(s, events[0].0, Failed, events[0].1), events[1..]))
  }

  ghost function AfterFailures(s: State, events: seq<(nat, bool)>): State
    requires Failing(s, events)
    decreases |events|
  {
    if events == [] then s else AfterFailures(Returned(s, events[0].0, Failed, events[0].1), events[1..])
  }

  /** Transfers in flight plus errors still tolerated. */
  function Budget(s: State): int {
    s.active + if s.errors < MAX_XFER_ERRORS then MAX_XFER_ERRORS - s.errors else 0
  }

  /** What holds while a dead device fails everything: stopping is flagged as soon as a transfer is
      missing from the pool or the error limit is passed. */
  ghost predicate Dying(s: State, pool: nat) {
    && Counted(s) && !s.stop
    && (s.active < pool ==> s.stopSession)
    && (s.errors > MAX_XFER_ERRORS ==> s.stopSession)
  }

  lemma FailureCostsBudget(s: State, id: nat, accepted: bool, pool: nat)
    requires Dying(s, pool) && id in s.inFlight
    ensures Dying(Returned(s, id, Failed, accepted), pool)
    ensures Budget(Returned(s, id, Failed, accepted)) < Budget(s)
  {
    ReturnedKeepsCount(s, id, Failed, accepted);
  }

  lemma {:induction false} FailuresCostBudget(s: State, events: seq<(nat, bool)>, pool: nat)
    requires Dying(s, pool) && Failing(s, events)
    ensures Dying(AfterFailures(s, events), pool)
    ensures Budget(AfterFailures(s, events)) + |events| <= Budget(s)
    ensures Budget(AfterFailures(s, events)) >= 0
    decreases |events|
  {
    if events == [] {
    } else {
      FailureCostsBudget(s, events[0].0, events[0].1, pool);
      FailuresCostBudget(Returned(s, events[0].0, Failed, events[0].1), events[1..], pool);
    }
  }

  /** A dead device cannot spin the daemon: from a fresh full session in which every completion is
      an error at most 96 callbacks ever run, and once none is left to run the session is flagged
      to stop with nothing in flight. */
  lemma DeadDeviceStops(s: State, events: seq<(nat, bool)>)
    requires Counted(s) && !s.stop && s.active == 32 && s.errors == 0
    requires Failing(s, events)
    ensures |events| <= 96
    ensures var end := AfterFailures(s, events);
            end.active == |end.inFlight| && (end.inFlight == {} ==> end.active == 0 && end.stopSession)
  {
    FailuresCostBudget(s, events, 32);
  }

  /** While every resubmission is accepted, stopping is flagged by the error limit alone. */
  ghost predicate OnlyErrorsStop(s: State) {
    s.errors > MAX_XFER_ERRORS <==> s.stopSession
  }

  lemma {:induction false} AcceptedFailuresCostOne(s: State, events: seq<(nat, bool)>)
    requires Counted(s) && !s.stop && OnlyErrorsStop(s) && Failing(s, events)
    requires forall i :: 0 <= i < |events| ==> events[i].1
    ensures Counted(AfterFailures(s, events)) && OnlyErrorsStop(AfterFailures(s, events))
    ensures Budget(AfterFailures(s, events)) + |events| == Budget(s)
    decreases |events|
  {
    if events == [] {
    } else {
      ReturnedKeepsCount(s, events[0].0, Failed, events[0].1);
      AcceptedFailuresCostOne(Returned(s, events[0].0, Failed, events[0].1), events[1..]);
    }
  }

  /** The bound is exact: with every resubmission accepted, the pool is empty after the 96th
      callback and not before. */
  lemma NinetySixIsExact(s: State, events: seq<(nat, bool)>)
    requires Counted(s) && !s.stop && s.active == 32 && s.errors == 0 && !s.stopSession
    requires Failing(s, events) && forall i :: 0 <= i < |events| ==> events[i].1
    ensures AfterFailures(s, events).inFlight == {} <==> |events| == 96
  {
    AcceptedFailuresCostOne(s, events);
    FailuresCostBudget(s, events, 32);
  }

  // ----- what the drain cannot promise -----

  /** n successful completions of one playback transfer. */
  function Completions(id: nat, n: nat): seq<(nat, Status, bool)> {
    if n == 0 then [] else [(id, Completed, true)] + Completions(id, n - 1)
  }

  /** The playback callback does not look at stopSession, so a device that keeps completing a
      playback transfer keeps the drain from ever finishing: after any number of completions
      the same transfers are still out. Only the wall clock ends it. */
  lemma {:induction false} PlaybackOutlastsDrain(s: State, id: nat, n: nat)
    requires Counted(s) && s.stopSession && !s.stop && IsPlayback(id) && id in s.inFlight
    ensures Drainable(s, Completions(id, n))
    ensures Drained(s, Completions(id, n)).inFlight == s.inFlight
    decreases n
  {
    if n == 0 {
    } else {
      var s' := Returned(s, id, Completed, true);
      assert s'.inFlight == s.inFlight;
      PlaybackOutlastsDrain(s', id, n - 1);
      assert Completions(id, n)[1..] == Completions(id, n - 1);
    }
  }

  /** The completions that end a transfer's flight during a drain. */
  predicate Leaves(s: State, id: nat, status: Status, accepted: bool) {
    || s.stop || !IsPlayback(id) || status == Cancelled || !accepted
    || (status == Failed && s.errors >= MAX_XFER_ERRORS)
  }

  /** Exactly those take a transfer out of flight; every other one goes straight back. */
  lemma DrainShrinks(s: State, id: nat, status: Status, accepted: bool)
    requires Counted(s) && s.stopSession && id in s.inFlight
    ensures var t := Returned(s, id, status, accepted);
            && t.stopSession && Counted(t)
            && t.inFlight == if Leaves(s, id, status, accepted) then s.inFlight - {id} else s.inFlight
  {
    ReturnedKeepsCount(s, id, status, accepted);
  }

  /** How many of the drain's completions leave. */
  ghost function LeaveCount(s: State, arrivals: seq<(nat, Status, bool)>): nat
    requires Drainable(s, arrivals)
    decreases |arrivals|
  {
    if arrivals == [] || s.active <= 0 then 0
    else
      var (id, status, accepted) := arrivals[0];
      (if Leaves(s, id, status, accepted) then 1 else 0) + LeaveCount(Returned(s, id, status, accepted), arrivals[1..])
  }

  lemma {:induction false} DrainCounts(s: State, arrivals: seq<(nat, Status, bool)>)
    requires Counted(s) && s.stopSession && Drainable(s, arrivals)
    ensures |Drained(s, arrivals).inFlight| + LeaveCount(s, arrivals) == |s.inFlight|
    decreases |arrivals|
  {
    if arrivals == [] || s.active <= 0 {
    } else {
      var (id, status, accepted) := arrivals[0];
      DrainShrinks(s, id, status, accepted);
      DrainCounts(Returned(s, id, status, accepted), arrivals[1..]);
    }
  }

  /** A drain empties the flight, and so lets the transfers be freed, if and only if as many of its
      completions leave as transfers were out when it began. */
  lemma DrainEmptiesIff(s: State, arrivals: seq<(nat, Status, bool)>)
    requires Counted(s) && s.stopSession && Drainable(s, arrivals)
    ensures Drained(s, arrivals).inFlight == {} <==> LeaveCount(s, arrivals) == |s.inFlight|
  {
    DrainCounts(s, arrivals);
  }

  // ----- a drain, read off its arrivals -----

  /** A completion that leaves when the callbacks have `errors` errors behind them. */
  predicate Ends(errors: nat, stop: bool, arrival: (nat, Status, bool)) {
    || stop || !IsPlayback(arrival.0) || arrival.1 == Cancelled || !arrival.2
    || (arrival.1 == Failed && errors >= MAX_XFER_ERRORS)
  }

  /** The error count behind it: only a playback transfer that was not cancelled moves it. */
  function ErrorsAfter(errors: nat, stop: bool, arrival: (nat, Status, bool)): nat {
    if stop || !IsPlayback(arrival.0) || arrival.1 == Cancelled then errors
    else if arrival.1 == Failed then errors + 1
    else 0
  }

  /** How many of the arrivals leave, from the arrivals alone. */
  function EndCount(errors: nat, stop: bool, arrivals: seq<(nat, Status, bool)>): nat
    decreases |arrivals|
  {
    if arrivals == [] then 0
    else
      (if Ends(errors, stop, arrivals[0]) then 1 else 0)
      + EndCount(ErrorsAfter(errors, stop, arrivals[0]), stop, arrivals[1..])
  }

  lemma ReturnedErrors(s: State, arrival: (nat, Status, bool))
    requires Counted(s) && s.stopSession && arrival.0 in s.inFlight
    ensures var t := Returned(s, arrival.0, arrival.1, arrival.2);
            && Counted(t) && t.stopSession && t.stop == s.stop
            && t.errors == ErrorsAfter(s.errors, s.stop, arrival)
            && |t.inFlight| == |s.inFlight| - if Ends(s.errors, s.stop, arrival) then 1 else 0
  {
    DrainShrinks(s, arrival.0, arrival.1, arrival.2);
  }

  /** What is left in flight by a drain, for any arrivals whatever. */
  lemma {:induction false} DrainLeaves(s: State, arrivals: seq<(nat, Status, bool)>)
    requires Counted(s) && s.stopSession && Drainable(s, arrivals)
    ensures |Drained(s, arrivals).inFlight| == Max(0, |s.inFlight| - EndCount(s.errors, s.stop, arrivals))
    decreases |arrivals|
  {
    if arrivals == [] || s.active <= 0 {
    } else {
      ReturnedErrors(s, arrivals[0]);
      DrainLeaves(Returned(s, arrivals[0].0, arrivals[0].1, arrivals[0].2), arrivals[1..]);
    }
  }

  lemma {:induction false} CancelledAllEnd(errors: nat, stop: bool, arrivals: seq<(nat, Status, bool)>)
    requires forall i :: 0 <= i < |arrivals| ==> arrivals[i].1 == Cancelled
    ensures EndCount(errors, stop, arrivals) == |arrivals|
    decreases |arrivals|
  {
    if arrivals == [] {
    } else {
      CancelledAllEnd(errors, stop, arrivals[1..]);
    }
  }

  /** So cancellations alone, as teardown asks for, empty the flight if and only if there are as many
      as transfers out. */
  lemma CancelledDrainEmptiesIff(s: State, arrivals: seq<(nat, Status, bool)>)
    requires Counted(s) && s.stopSession && Drainable(s, arrivals)
    requires forall i :: 0 <= i < |arrivals| ==> arrivals[i].1 == Cancelled
    ensures Drained(s, arrivals).inFlight == {} <==> |arrivals| >= |s.inFlight|
  {
    DrainLeaves(s, arrivals);
    CancelledAllEnd(s.errors, s.stop, arrivals);
  }
}
