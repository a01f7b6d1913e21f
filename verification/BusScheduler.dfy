/** Choosing the bus frame of the next transfer: a counter that normally advances by one, and
    jumps ahead of the bus clock when it has fallen behind it. */
module BusScheduler {
  import opened Sequences

  /** A reading of the bus frame counter; the call can fail. */
  datatype Clock = Unknown | Now(frame: nat)

  /** Lead a scheduled frame must have over the bus, lead given by a re-anchor, transfers in flight. */
  const MIN_LEAD := 3
  const NEW_LEAD := 6
  const NUM_XFERS := 32

  predicate Late(next: nat, clock: Clock) {
    clock.Now? && next - clock.frame < MIN_LEAD
  }

  function Handed(next: nat, clock: Clock): nat {
    if Late(next, clock) then clock.frame + NEW_LEAD else next
  }

  /** One direction's schedule counter. */
  class Scheduler {
    var next: nat
    var reanchors: nat

    constructor (first: nat)
      ensures next == first && reanchors == 0
    {
      next, reanchors := first, 0;
    }

    method NextSched(clock: Clock) returns (frame: nat)
      modifies this
      ensures frame == Handed(old(next), clock) && next == frame + 1
      ensures clock.Now? && old(next) < clock.frame + 3 ==> frame == clock.frame + 6
      ensures clock == Unknown || clock.frame + 3 <= old(next) ==> frame == old(next)
      ensures reanchors == old(reanchors) + if Late(old(next), clock) then 1 else 0
    {
      frame := next;
      next := next + 1;
      if clock.Now? {
        var lead := frame - clock.frame;
        if lead < 3 {
          var anchor := clock.frame + 6;
          reanchors := reanchors + 1;
          next := anchor + 1;
          frame := anchor;
        }
      }
    }
  }

  /** The counter before call k of a run, whatever the clock read at each call. */
  function Counter(first: nat, clocks: seq<Clock>, k: nat): nat
    requires k <= |clocks|
  {
    if k == 0 then first else Handed(Counter(first, clocks, k - 1), clocks[k - 1]) + 1
  }

  /** The frame handed out by call k. */
  function FrameAt(first: nat, clocks: seq<Clock>, k: nat): nat
    requires k < |clocks|
  {
    Handed(Counter(first, clocks, k), clocks[k])
  }

  predicate LateAt(first: nat, clocks: seq<Clock>, k: nat)
    requires k < |clocks|
  {
    Late(Counter(first, clocks, k), clocks[k])
  }

  lemma {:induction false} CounterAdvances(first: nat, clocks: seq<Clock>, j: nat, k: nat)
    requires j <= k <= |clocks|
    ensures Counter(first, clocks, k) >= Counter(first, clocks, j) + (k - j)
  {
    if j == k {
    } else {
      CounterAdvances(first, clocks, j, k - 1);
    }
  }

  /** Order for arbitrary delays and clock failures: later calls get strictly later frames, every
      frame has the minimum lead over a clock that could be read, and the schedule skips frames
      exactly at a re-anchor, at least four of them. */
  lemma ScheduleIsOrdered(first: nat, clocks: seq<Clock>, j: nat, k: nat)
    requires j < k < |clocks|
    ensures FrameAt(first, clocks, j) < FrameAt(first, clocks, k)
    ensures Counter(first, clocks, k) > FrameAt(first, clocks, j)
    ensures clocks[k].Now? ==> FrameAt(first, clocks, k) >= clocks[k].frame + MIN_LEAD
    ensures FrameAt(first, clocks, k) > FrameAt(first, clocks, k - 1) + 1 <==> LateAt(first, clocks, k)
    ensures LateAt(first, clocks, k) ==> FrameAt(first, clocks, k) >= FrameAt(first, clocks, k - 1) + 1 + 4
    ensures LateAt(first, clocks, k) ==> FrameAt(first, clocks, k) == clocks[k].frame + 6
  {
    CounterAdvances(first, clocks, j + 1, k);
  }

  /** The last call up to k that re-anchored, or -1. */
  function LastAnchor(first: nat, clocks: seq<Clock>, k: nat): (j: int)
    requires k < |clocks|
    ensures -1 <= j <= k && (j >= 0 ==> LateAt(first, clocks, j))
  {
    if LateAt(first, clocks, k) then k else if k == 0 then -1 else LastAnchor(first, clocks, k - 1)
  }

  lemma {:induction false} NoLaterAnchor(first: nat, clocks: seq<Clock>, k: nat, i: nat)
    requires k < |clocks| && LastAnchor(first, clocks, k) < i <= k
    ensures !LateAt(first, clocks, i)
  {
    if i == k {
    } else {
      NoLaterAnchor(first, clocks, k - 1, i);
    }
  }

  /** The whole schedule: a re-anchor hands out the bus frame it read plus six, and every later call
      one frame more, up to the next re-anchor; before the first one the frames run on from the start. */
  lemma {:induction false} ScheduleIs(first: nat, clocks: seq<Clock>, k: nat)
    requires k < |clocks|
    ensures var j := LastAnchor(first, clocks, k);
            FrameAt(first, clocks, k) == if j < 0 then first + k else clocks[j].frame + 6 + (k - j)
    ensures LateAt(first, clocks, k) <==> clocks[k].Now? && Counter(first, clocks, k) < clocks[k].frame + 3
  {
    if LateAt(first, clocks, k) || k == 0 {
    } else {
      ScheduleIs(first, clocks, k - 1);
    }
  }

  /** So the schedule is never more than six frames and the calls since ahead of the furthest the bus
      has been, or of the start. */
  lemma LeadIsBounded(first: nat, clocks: seq<Clock>, bus: nat, k: nat)
    requires k < |clocks| && forall i :: 0 <= i <= k && clocks[i].Now? ==> clocks[i].frame <= bus
    ensures var j := LastAnchor(first, clocks, k);
            FrameAt(first, clocks, k) <= if j < 0 then first + k else bus + 6 + (k - j)
    ensures LateAt(first, clocks, k) ==> FrameAt(first, clocks, k) == clocks[k].frame + 6
  {
    ScheduleIs(first, clocks, k);
  }

  /** Re-anchors are rate-limited by the bus itself: between any two of them the bus advances at
      least five frames plus one for every transfer scheduled in between. */
  lemma ReanchorsAreSpaced(first: nat, clocks: seq<Clock>, j: nat, k: nat)
    requires j < k < |clocks|
    requires LateAt(first, clocks, j) && LateAt(first, clocks, k)
    ensures clocks[k].frame >= clocks[j].frame + 5 + (k - j - 1)
  {
    CounterAdvances(first, clocks, j + 1, k);
  }

  // ----- the pool of 32 transfers that complete in order -----

  /** Frames of the transfers in flight, oldest first, and the counter. */
  datatype Pool = Pool(flight: seq<nat>, next: nat)

  /** Session start schedules the whole pool on consecutive frames. */
  function InitialPool(start: nat): Pool {
    Pool(Consecutive(start, NUM_XFERS), start + NUM_XFERS)
  }

  /** The oldest transfer completes and its callback reschedules it. */
  function Service(p: Pool, clock: Clock): (p': Pool)
    requires |p.flight| == NUM_XFERS
    ensures |p'.flight| == NUM_XFERS
  {
    var frame := Handed(p.next, clock);
    Pool(p.flight[1..] + [frame], frame + 1)
  }

  function PoolAfter(start: nat, clocks: seq<Clock>, k: nat): (p: Pool)
    requires k <= |clocks|
    ensures |p.flight| == NUM_XFERS
  {
    if k == 0 then InitialPool(start) else Service(PoolAfter(start, clocks, k - 1), clocks[k - 1])
  }

  /** Call k is serviced in time: no later than 29 frames after the frame that completed. */
  predicate OnTime(start: nat, clocks: seq<Clock>, k: nat)
    requires k < |clocks|
  {
    clocks[k].Now? ==> clocks[k].frame <= PoolAfter(start, clocks, k).flight[0] + 29
  }

  /** Call k does not re-anchor. */
  predicate Keeps(start: nat, clocks: seq<Clock>, k: nat)
    requires k < |clocks|
  {
    !Late(PoolAfter(start, clocks, k).next, clocks[k])
  }

  ghost predicate OnTimeUpTo(start: nat, clocks: seq<Clock>, n: nat)
    requires n <= |clocks|
  {
    forall k: nat :: k < n ==> OnTime(start, clocks, k)
  }

  ghost predicate NeverLate(start: nat, clocks: seq<Clock>, n: nat)
    requires n <= |clocks|
  {
    forall k: nat :: k < n ==> Keeps(start, clocks, k)
  }

  lemma ServiceConsecutive(from: nat, clock: Clock)
    requires !Late(from + NUM_XFERS, clock)
    ensures Service(InitialPool(from), clock) == InitialPool(from + 1)
  {
    assert Consecutive(from, NUM_XFERS)[1..] + [from + NUM_XFERS] == Consecutive(from + 1, NUM_XFERS);
  }

  /** Up to the first re-anchor the pool is always 32 consecutive frames, one further each time. */
  lemma {:induction false} PoolStaysConsecutive(start: nat, clocks: seq<Clock>, k: nat)
    requires k <= |clocks|
    requires NeverLate(start, clocks, k)
    ensures PoolAfter(start, clocks, k) == InitialPool(start + k)
  {
    if k == 0 {
    } else {
      PoolStaysConsecutive(start, clocks, k - 1);
      assert Keeps(start, clocks, k - 1);
      ServiceConsecutive(start + (k - 1), clocks[k - 1]);
    }
  }

  /** Behind 32 consecutive frames, 29 frames of delay are the most that keep a lead of three. */
  lemma TwentyNineIsTheLimit(start: nat, clocks: seq<Clock>, k: nat)
    requires k < |clocks|
    requires PoolAfter(start, clocks, k) == InitialPool(start + k)
    ensures OnTime(start, clocks, k) <==> Keeps(start, clocks, k)
  {
    assert Consecutive(start + k, NUM_XFERS)[0] == start + k;
  }

  lemma {:induction false} OnTimeIsNeverLate(start: nat, clocks: seq<Clock>, n: nat)
    requires n <= |clocks|
    ensures OnTimeUpTo(start, clocks, n) <==> NeverLate(start, clocks, n)
  {
    if n == 0 {
    } else {
      OnTimeIsNeverLate(start, clocks, n - 1);
      if NeverLate(start, clocks, n - 1) {
        PoolStaysConsecutive(start, clocks, n - 1);
        TwentyNineIsTheLimit(start, clocks, n - 1);
      }
    }
  }

  /** Jitter tolerance, exactly: a run never re-anchors if and only if every completion of bus frame
      f is serviced by frame f + 29; and then the transfers in flight are always 32 consecutive
      frames, so the whole schedule is gap-free. */
  lemma JitterTolerance(start: nat, clocks: seq<Clock>)
    ensures OnTimeUpTo(start, clocks, |clocks|) <==> NeverLate(start, clocks, |clocks|)
    ensures OnTimeUpTo(start, clocks, |clocks|)
        ==> forall k: nat :: k <= |clocks| ==> PoolAfter(start, clocks, k) == InitialPool(start + k)
  {
    OnTimeIsNeverLate(start, clocks, |clocks|);
    if OnTimeUpTo(start, clocks, |clocks|) {
      forall k: nat | k <= |clocks|
        ensures PoolAfter(start, clocks, k) == InitialPool(start + k)
      {
        PoolStaysConsecutive(start, clocks, k);
      }
    }
  }
}
