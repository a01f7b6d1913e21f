/** The flags in the shared segment, and the three parties that store them: the plugin (each entry
    point is one step), the menu app, and a daemon (every load and store of a flag is a step). */
module ControlPlane {
  import opened Numbers
  import opened Pacing

  datatype Flags = Flags(rate: u32, running: bool, devFrames: nat, present: bool, userHide: bool, appActive: bool)

  // ----- the plugin -----

  /** attached: the plugin has mapped the segment. */
  datatype Client = Client(sampleRate: u32, ioRunning: nat, attached: bool)

  /** The start request: rate first, then the flag. */
  function Request(shm: Flags, sampleRate: u32): Flags {
    shm.(rate := sampleRate, devFrames := 0, running := true)
  }

  datatype Call = SetSampleRate(want: u32) | StartIO(segment: bool) | StopIO | DoIO | Watch(segment: bool)

  /** `segment` says whether a valid segment could be mapped, when the plugin tries. */
  function AfterCall(shm: Flags, p: Client, call: Call): (Flags, Client) {
    match call
    case SetSampleRate(want) => (shm, if Supported(want) then p.(sampleRate := want) else p)
    case StartIO(segment) =>
      var q := if p.ioRunning == 0 then p.(attached := p.attached || segment) else p;
      (if p.ioRunning == 0 && q.attached then Request(shm, p.sampleRate) else shm, q.(ioRunning := p.ioRunning + 1))
    case StopIO =>
      var q := if p.ioRunning > 0 then p.(ioRunning := p.ioRunning - 1) else p;
      (if q.ioRunning == 0 && p.attached then shm.(running := false) else shm, q)
    case DoIO =>
      (if p.attached && p.ioRunning > 0 && !shm.running then Request(shm, p.sampleRate) else shm, p)
    case Watch(segment) => (shm, p.(attached := p.attached || segment))
  }

  /** device_is_present: whether the plugin shows the audio device. */
  predicate Advertised(shm: Flags, p: Client) { p.attached && !shm.userHide && shm.present }

  datatype AppStep = Activate(on: bool) | Hide(on: bool)

  function AfterApp(shm: Flags, step: AppStep): Flags {
    match step
    case Activate(on) => shm.(appActive := on)
    case Hide(on) => shm.(userHide := on)
  }

  /** The app stores its two flags and no other; the last store counts. */
  lemma AppStores(shm: Flags, a: bool, b: bool, c: bool)
    ensures var s := AfterApp(AfterApp(AfterApp(shm, Activate(a)), Hide(b)), Activate(c));
            s == shm.(appActive := c, userHide := b)
  {
  }

  /** The flag is up only while some client is running I/O, and the rate is then one it asked for. */
  ghost predicate ClientInv(shm: Flags, p: Client) {
    && Supported(p.sampleRate)
    && (shm.running ==> p.attached && p.ioRunning > 0 && Supported(shm.rate))
  }

  lemma CallKeepsClientInv(shm: Flags, p: Client, call: Call)
    requires ClientInv(shm, p)
    ensures var (s, q) := AfterCall(shm, p, call);
            && ClientInv(s, q) && s.present == shm.present
            && (Supported(shm.rate) ==> Supported(s.rate))
  {
  }

  /** Whatever cleared the flag, the next I/O operation of a running client asks again, at the
      client's rate; with no client running nothing raises it. */
  lemma NextOperationResumes(shm: Flags, p: Client)
    requires ClientInv(shm, p)
    ensures var s := AfterCall(shm, p, DoIO).0;
            && (s.running <==> p.attached && p.ioRunning > 0)
            && (!shm.running && s.running ==> s.rate == p.sampleRate && s.devFrames == 0)
            && (shm.running ==> s == shm)
  {
  }

  /** The first client to start asks for a stream at its rate, with the device clock at zero, if there
      is a segment to ask through; later ones only count. */
  lemma FirstClientAsks(shm: Flags, p: Client, segment: bool)
    ensures var (s, q) := AfterCall(shm, p, StartIO(segment));
            && q.ioRunning == p.ioRunning + 1 && q.sampleRate == p.sampleRate
            && (q.attached <==> p.attached || (p.ioRunning == 0 && segment))
            && (p.ioRunning == 0 && q.attached ==> s.running && s.rate == p.sampleRate && s.devFrames == 0)
            && (p.ioRunning > 0 || !q.attached ==> s == shm)
            && s.(rate := shm.rate, running := shm.running, devFrames := shm.devFrames) == shm
  {
  }

  /** The last client to stop withdraws the request, and nobody else does. */
  lemma LastClientWithdraws(shm: Flags, p: Client)
    ensures var (s, q) := AfterCall(shm, p, StopIO);
            && q == p.(ioRunning := if p.ioRunning > 0 then p.ioRunning - 1 else 0)
            && (p.attached && p.ioRunning <= 1 ==> !s.running)
            && (!p.attached || p.ioRunning > 1 ==> s == shm)
            && s.(running := shm.running) == shm
  {
  }

  /** A rate is taken over exactly when it is one of the four, and reaches the segment only with the
      next request; watching only attaches. */
  lemma RateWaitsForRequest(shm: Flags, p: Client, want: u32, segment: bool)
    ensures var (s, q) := AfterCall(shm, p, SetSampleRate(want));
            && s == shm
            && q == p.(sampleRate := if want == 44100 || want == 48000 || want == 88200 || want == 96000 then want
                                     else p.sampleRate)
    ensures AfterCall(shm, p, Watch(segment)) == (shm, p.(attached := p.attached || segment))
  {
  }

  /** The plugin's driver record and the segment it stores through, updated store by store. */
  class Driver {
    var shm: Flags
    var sampleRate: u32
    var ioRunning: nat
    var attached: bool

    constructor (shm: Flags)
      ensures this.shm == shm && State() == Client(48000, 0, false)
    {
      this.shm := shm;
      sampleRate, ioRunning, attached := 48000, 0, false;
    }

    ghost function State(): Client
      reads this
    {
      Client(sampleRate, ioRunning, attached)
    }

    method ChooseRate(want: u32) returns (ok: bool)
      modifies this`sampleRate
      ensures ok <==> want == 44100 || want == 48000 || want == 88200 || want == 96000
      ensures (shm, State()) == AfterCall(shm, old(State()), SetSampleRate(want))
    {
      ok := want == 44100 || want == 48000 || want == 88200 || want == 96000;
      if ok {
        sampleRate := want;
      }
    }

    method AttachIfNeeded(segment: bool)
      modifies this`attached
      ensures attached == (old(attached) || segment)
    {
      if attached {
        return;
      }
      attached := segment;
    }

    /** Rate, counter, then the flag that the daemon waits for. */
    method AskForStream()
      modifies this`shm
      ensures shm == Request(old(shm), sampleRate)
    {
      shm := shm.(rate := sampleRate);
      shm := shm.(devFrames := 0);
      shm := shm.(running := true);
    }

    method Start(segment: bool)
      modifies this
      ensures (shm, State()) == AfterCall(old(shm), old(State()), StartIO(segment))
    {
      if ioRunning == 0 {
        AttachIfNeeded(segment);
        if attached {
          AskForStream();
        }
      }
      ioRunning := ioRunning + 1;
    }

    method Stop()
      modifies this`shm, this`ioRunning
      ensures (shm, State()) == AfterCall(old(shm), old(State()), StopIO)
    {
      if ioRunning > 0 {
        ioRunning := ioRunning - 1;
      }
      if ioRunning == 0 && attached {
        shm := shm.(running := false);
      }
    }

    /** The resync at the head of every I/O operation. */
    method Resync()
      modifies this`shm
      ensures (shm, State()) == AfterCall(old(shm), old(State()), DoIO)
    {
      if attached && ioRunning > 0 {
        if !shm.running {
          AskForStream();
        }
      }
    }
  }

  datatype Device = Closed | Open | Claimed | Configured

  // ----- the libusb daemon -----

  /** Where the two-level loop stands: the access or call it makes next. */
  datatype Place =
    | Top | Park | Parked | Acquire | Waiting | Poll | Claim | SetAlt | Announce
    | Idle | CheckApp | Probe | ReadRate | SetRate | ClearRunning | Prime | Stream | Teardown
    | Withdraw | Lower | Release | Exited

  /** announced: the daemon has stored device_present at least once. */
  datatype Daemon = Daemon(at: Place, device: Device, rate: u32, stop: bool, announced: bool)

  /** The outer loop while there is no device. */
  function ParkStep(shm: Flags, d: Daemon): (Flags, Daemon) {
    match d.at
    case Top => (shm, d.(at := if d.stop then Exited else if shm.appActive then Acquire else Park))
    case Park => (shm.(present := false), d.(at := Parked, announced := true))
    case Parked => (shm, d.(at := if d.stop then Exited else if shm.appActive then Acquire else Parked))
    case Acquire => (shm.(present := false), d.(at := Waiting, announced := true))
    case Waiting => (shm, d.(at := if d.stop then Exited else if shm.appActive then Poll else Top))
    case _ => (shm, d)
  }

  /** Open, claim, configure, announce; ok is the outcome of the call made there. */
  function AcquireStep(shm: Flags, d: Daemon, ok: bool): (Flags, Daemon) {
    match d.at
    case Poll => (shm, if ok then d.(at := if d.stop then Exited else Claim, device := Open) else d.(at := Waiting))
    case Claim => (shm, if ok then d.(at := SetAlt, device := Claimed) else d.(at := Top, device := Closed))
    case SetAlt => (shm, if ok then d.(at := Announce, device := Configured) else d.(at := Top, device := Closed))
    case Announce => (shm.(present := true), d.(at := Idle))
    case _ => (shm, d)
  }

  /** The idle half of the inner loop; ok says that the device is still on the bus. */
  function IdleStep(shm: Flags, d: Daemon, ok: bool): (Flags, Daemon) {
    match d.at
    case Idle => (shm, d.(at := if d.stop then Withdraw else if shm.running then ReadRate else CheckApp))
    case CheckApp => (shm, d.(at := if shm.appActive then Probe else Withdraw))
    case Probe => (shm, d.(at := if ok then Idle else Withdraw))
    case _ => (shm, d)
  }

  /** The streaming half; ok is the outcome of the call, the end of the wait, or that the session goes
      on and the device is not lost. */
  function StreamStep(shm: Flags, d: Daemon, ok: bool): (Flags, Daemon) {
    match d.at
    case ReadRate => (shm, d.(at := SetRate, rate := if Supported(shm.rate) then shm.rate else 48000))
    case SetRate => (shm.(devFrames := 0), d.(at := if ok then Prime else ClearRunning))
    case ClearRunning => (shm.(running := false), d.(at := Withdraw))
    case Prime => (shm, d.(at := if d.stop || !shm.running || ok then Stream else Prime))
    case Stream => (shm, d.(at := if d.stop || !shm.running || !ok then Teardown else Stream))
    case Teardown => (shm.(devFrames := 0), d.(at := if ok then Idle else Withdraw))
    case _ => (shm, d)
  }

  /** Giving the device up. */
  function ReleaseStep(shm: Flags, d: Daemon): (Flags, Daemon) {
    match d.at
    case Withdraw => (shm.(present := false), d.(at := Lower))
    case Lower => (shm.(running := false), d.(at := Release))
    case Release => (shm, d.(at := Top, device := Closed))
    case _ => (shm, d)
  }

  predicate Parking(at: Place) { at.Top? || at.Park? || at.Parked? || at.Acquire? || at.Waiting? }

  predicate Idling(at: Place) { at.Idle? || at.CheckApp? || at.Probe? }

  predicate Working(at: Place) {
    at.ReadRate? || at.SetRate? || at.ClearRunning? || at.Prime? || at.Stream? || at.Teardown?
  }

  predicate Leaving(at: Place) { at.Withdraw? || at.Lower? || at.Release? || at.Exited? }

  /** One step of the two-level loop. */
  function DaemonStep(shm: Flags, d: Daemon, ok: bool): (Flags, Daemon) {
    if Idling(d.at) then IdleStep(shm, d, ok)
    else if Working(d.at) then StreamStep(shm, d, ok)
    else if Leaving(d.at) then ReleaseStep(shm, d)
    else if Parking(d.at) then ParkStep(shm, d)
    else AcquireStep(shm, d, ok)
  }

  /** Between the store that announces the device and the one that withdraws it. */
  predicate Held(at: Place) { Idling(at) || Working(at) || at.Withdraw? }

  predicate Streaming(at: Place) { at.SetRate? || at.Prime? || at.Stream? }

  /** The error cutoff, in a transfer callback that the event loop or the drain delivers: it lowers the
      request and flags the session. */
  function CutoffStep(shm: Flags, d: Daemon): (Flags, Daemon) {
    if d.at.Stream? then (shm.(running := false), d.(at := Teardown))
    else if d.at.Teardown? then (shm.(running := false), d)
    else (shm, d)
  }

  /** A cutoff while streaming ends the session and withdraws the request, so that it is not simply
      started again; anywhere else there is nothing to cut off. */
  lemma CutoffEndsStream(shm: Flags, d: Daemon)
    ensures var (s, e) := CutoffStep(shm, d);
            && (d.at == Stream || d.at == Teardown ==> e == d.(at := Teardown) && !s.running)
            && (d.at != Stream && d.at != Teardown ==> (s, e) == (shm, d))
            && s.(running := shm.running) == shm
  {
  }

  ghost predicate DeviceInv(d: Daemon) {
    && (Held(d.at) || d.at.Announce? || d.at.Lower? || d.at.Release? ==> d.device == Configured)
    && (Parking(d.at) || d.at.Poll? ==> d.device == Closed)
    && (d.at.Claim? ==> d.device == Open) && (d.at.SetAlt? ==> d.device == Claimed)
  }

  ghost predicate PresenceInv(present: bool, d: Daemon) {
    && (d.announced ==> (present <==> Held(d.at)))
    && (!d.announced ==> d.at.Top? || d.at.Park? || d.at.Acquire? || d.at.Exited?)
  }

  ghost predicate RateInv(rate: u32, d: Daemon) {
    && (d.at == ReadRate ==> Supported(rate))
    && (Streaming(d.at) ==> Supported(d.rate))
  }

  ghost predicate DaemonInv(shm: Flags, d: Daemon) {
    DeviceInv(d) && PresenceInv(shm.present, d) && RateInv(shm.rate, d)
  }

  datatype Event = FromClient(call: Call) | FromApp(step: AppStep) | FromDaemon(ok: bool) | Cutoff | Signal

  datatype System = System(shm: Flags, client: Client, daemon: Daemon)

  function Next(s: System, e: Event): System {
    match e
    case FromClient(call) => var (shm, p) := AfterCall(s.shm, s.client, call); System(shm, p, s.daemon)
    case FromApp(step) => s.(shm := AfterApp(s.shm, step))
    case FromDaemon(ok) => var (shm, d) := DaemonStep(s.shm, s.daemon, ok); System(shm, s.client, d)
    case Cutoff => var (shm, d) := CutoffStep(s.shm, s.daemon); System(shm, s.client, d)
    case Signal => s.(daemon := s.daemon.(stop := true))
  }

  /** A client that runs nothing and a daemon that has just started; the presence flag may be stale. */
  ghost predicate Initial(s: System) {
    && !s.shm.running && s.client.ioRunning == 0 && Supported(s.client.sampleRate)
    && s.daemon == Daemon(Top, Closed, 0, false, false)
  }

  ghost predicate Inv(s: System) { ClientInv(s.shm, s.client) && DaemonInv(s.shm, s.daemon) }

  lemma ParkKeepsInv(shm: Flags, p: Client, d: Daemon)
    requires Parking(d.at) && ClientInv(shm, p) && DaemonInv(shm, d)
    ensures var (s, e) := ParkStep(shm, d); ClientInv(s, p) && DaemonInv(s, e)
  {
  }

  lemma AcquireKeepsInv(shm: Flags, p: Client, d: Daemon, ok: bool)
    requires d.at.Poll? || d.at.Claim? || d.at.SetAlt? || d.at.Announce?
    requires ClientInv(shm, p) && DaemonInv(shm, d)
    ensures var (s, e) := AcquireStep(shm, d, ok); ClientInv(s, p) && DaemonInv(s, e)
  {
  }

  lemma IdleKeepsInv(shm: Flags, p: Client, d: Daemon, ok: bool)
    requires Idling(d.at) && ClientInv(shm, p) && DaemonInv(shm, d)
    ensures var (s, e) := IdleStep(shm, d, ok); ClientInv(s, p) && DaemonInv(s, e)
  {
  }

  lemma StreamKeepsInv(shm: Flags, p: Client, d: Daemon, ok: bool)
    requires Working(d.at) && ClientInv(shm, p) && DaemonInv(shm, d)
    ensures var (s, e) := StreamStep(shm, d, ok); ClientInv(s, p) && DaemonInv(s, e)
  {
  }

  lemma ReleaseKeepsInv(shm: Flags, p: Client, d: Daemon)
    requires Leaving(d.at) && ClientInv(shm, p) && DaemonInv(shm, d)
    ensures var (s, e) := ReleaseStep(shm, d); ClientInv(s, p) && DaemonInv(s, e)
  {
  }

  /** No step of the daemon raises the request, and each keeps presence and device together. */
  lemma DaemonKeepsInv(shm: Flags, p: Client, d: Daemon, ok: bool)
    requires ClientInv(shm, p) && DaemonInv(shm, d)
    ensures var (s, e) := DaemonStep(shm, d, ok); ClientInv(s, p) && DaemonInv(s, e)
  {
    if Idling(d.at) {
      IdleKeepsInv(shm, p, d, ok);
    } else if Working(d.at) {
      StreamKeepsInv(shm, p, d, ok);
    } else if Leaving(d.at) {
      ReleaseKeepsInv(shm, p, d);
    } else if Parking(d.at) {
      ParkKeepsInv(shm, p, d);
    } else {
      AcquireKeepsInv(shm, p, d, ok);
    }
  }

  lemma CutoffKeepsInv(shm: Flags, p: Client, d: Daemon)
    requires ClientInv(shm, p) && DaemonInv(shm, d)
    ensures var (s, e) := CutoffStep(shm, d); ClientInv(s, p) && DaemonInv(s, e)
  {
  }

  lemma StepKeepsInv(s: System, e: Event)
    requires Inv(s)
    ensures Inv(Next(s, e))
  {
    match e
    case FromClient(call) => CallKeepsClientInv(s.shm, s.client, call);
    case FromApp(step) =>
    case FromDaemon(ok) => DaemonKeepsInv(s.shm, s.client, s.daemon, ok);
    case Cutoff => CutoffKeepsInv(s.shm, s.client, s.daemon);
    case Signal =>
  }

  ghost predicate Run(states: seq<System>, events: seq<Event>) {
    && |states| == |events| + 1 && Initial(states[0])
    && forall k :: 0 <= k < |events| ==> states[k + 1] == Next(states[k], events[k])
  }

  lemma {:induction false} RunKeepsInv(states: seq<System>, events: seq<Event>, k: nat)
    requires Run(states, events) && k < |states|
    ensures Inv(states[k])
  {
    if k == 0 {
    } else {
      RunKeepsInv(states, events, k - 1);
      StepKeepsInv(states[k - 1], events[k - 1]);
    }
  }

  /** In every interleaving of plugin, app and daemon, from the daemon's first store on: a device
      the plugin shows is open, claimed and configured. */
  lemma ShownMeansHeld(states: seq<System>, events: seq<Event>, k: nat)
    requires Run(states, events) && k < |states|
    requires states[k].daemon.announced
    ensures states[k].shm.present ==> states[k].daemon.device == Configured
    ensures Advertised(states[k].shm, states[k].client) ==> states[k].daemon.device == Configured
  {
    RunKeepsInv(states, events, k);
  }

  /** The streaming request is up only while a client runs I/O, and the daemon that sees it streams
      at a rate the client asked for, not at its fallback. */
  lemma RequestsAreReal(states: seq<System>, events: seq<Event>, k: nat, ok: bool)
    requires Run(states, events) && k < |states|
    ensures states[k].shm.running ==> states[k].client.ioRunning > 0 && Supported(states[k].shm.rate)
    ensures states[k].daemon.at == ReadRate
        ==> DaemonStep(states[k].shm, states[k].daemon, ok).1.rate == states[k].shm.rate
  {
    RunKeepsInv(states, events, k);
  }

  // ----- where the daemon gets to -----

  /** n steps of the daemon on its own, every call granted. */
  function Alone(shm: Flags, d: Daemon, n: nat): (Flags, Daemon) {
    if n == 0 then (shm, d) else var (s, e) := Alone(shm, d, n - 1); DaemonStep(s, e, true)
  }

  lemma AloneNext(shm: Flags, d: Daemon, n: nat, s: Flags, e: Daemon)
    requires Alone(shm, d, n) == (s, e)
    ensures Alone(shm, d, n + 1) == DaemonStep(s, e, true)
  {
  }

  /** n steps, then m more. */
  lemma {:induction false} AloneJoins(shm: Flags, d: Daemon, n: nat, m: nat, k: nat, s: Flags, e: Daemon)
    requires Alone(shm, d, n) == (s, e) && k == n + m
    ensures Alone(shm, d, k) == Alone(s, e, m)
  {
    if m == 0 {
    } else {
      AloneJoins(shm, d, n, m - 1, k - 1, s, e);
      var (s', e') := Alone(s, e, m - 1);
      AloneNext(shm, d, k - 1, s', e');
      AloneNext(s, e, m - 1, s', e');
    }
  }

  lemma AppOpenPolls(shm: Flags, d: Daemon)
    requires d.at == Top && !d.stop && shm.appActive
    ensures Alone(shm, d, 3) == (shm.(present := false), d.(at := Poll, announced := true))
  {
    AloneNext(shm, d, 0, shm, d);
    AloneNext(shm, d, 1, shm, d.(at := Acquire));
    AloneNext(shm, d, 2, shm.(present := false), d.(at := Waiting, announced := true));
  }

  /** With the app open the device is opened, claimed, configured and then shown. */
  lemma AppOpenAcquires(shm: Flags, d: Daemon)
    requires d.at == Top && !d.stop && shm.appActive
    ensures Alone(shm, d, 7) == (shm.(present := true), d.(at := Idle, device := Configured, announced := true))
  {
    var s, a := shm.(present := false), d.(announced := true);
    AppOpenPolls(shm, d);
    AloneNext(shm, d, 3, s, a.(at := Poll));
    AloneNext(shm, d, 4, s, a.(at := Claim, device := Open));
    AloneNext(shm, d, 5, s, a.(at := SetAlt, device := Claimed));
    AloneNext(shm, d, 6, s, a.(at := Announce, device := Configured));
  }

  /** A parked daemon waits for the app and no longer; one that waits for the device parks when the app
      closes. */
  lemma AppWakes(shm: Flags, d: Daemon)
    requires d.at == Parked && !d.stop
    ensures shm.appActive ==> Alone(shm, d, 3) == (shm.(present := false), d.(at := Poll, announced := true))
    ensures !shm.appActive ==> Alone(shm, d, 1) == (shm, d)
  {
    AloneNext(shm, d, 0, shm, d);
    if shm.appActive {
      AloneNext(shm, d, 1, shm, d.(at := Acquire));
      AloneNext(shm, d, 2, shm.(present := false), d.(at := Waiting, announced := true));
    }
  }

  lemma AppClosedStopsWaiting(shm: Flags, d: Daemon)
    requires d.at == Waiting && !d.stop && !shm.appActive
    ensures Alone(shm, d, 3) == (shm.(present := false), d.(at := Parked, announced := true))
  {
    AloneNext(shm, d, 0, shm, d);
    AppClosedParks(shm, d.(at := Top));
    AloneJoins(shm, d, 1, 2, 3, shm, d.(at := Top));
  }

  /** Acquiring shows the device to an attached plugin unless the app hides it; closing the app takes
      it away again. */
  lemma AppShows(shm: Flags, p: Client, d: Daemon)
    requires d.at == Top && !d.stop && p.attached
    ensures shm.appActive ==> (Advertised(Alone(shm, d, 7).0, p) <==> !shm.userHide)
    ensures !shm.appActive ==> !Advertised(Alone(shm, d, 2).0, p)
  {
    if shm.appActive {
      AppOpenAcquires(shm, d);
    } else {
      AppClosedParks(shm, d);
    }
  }

  /** A request is served, at the rate asked for, or at 48000 if that is none of the four. */
  lemma RequestStreams(shm: Flags, d: Daemon)
    requires d.at == Idle && !d.stop && shm.running
    ensures var rate := if Supported(shm.rate) then shm.rate else 48000;
            Alone(shm, d, 4) == (shm.(devFrames := 0), d.(at := Stream, rate := rate))
  {
    var rate := if Supported(shm.rate) then shm.rate else 48000;
    AloneNext(shm, d, 0, shm, d);
    AloneNext(shm, d, 1, shm, d.(at := ReadRate));
    AloneNext(shm, d, 2, shm, d.(at := SetRate, rate := rate));
    AloneNext(shm, d, 3, shm.(devFrames := 0), d.(at := Prime, rate := rate));
  }

  /** A withdrawn request ends the stream and keeps the device; a stream goes on while it stands. */
  lemma StreamFollowsRequest(shm: Flags, d: Daemon)
    requires d.at == Stream && !d.stop
    ensures shm.running ==> Alone(shm, d, 1) == (shm, d)
    ensures !shm.running ==> Alone(shm, d, 2) == (shm.(devFrames := 0), d.(at := Idle))
  {
    AloneNext(shm, d, 0, shm, d);
    if !shm.running {
      AloneNext(shm, d, 1, shm, d.(at := Teardown));
    }
  }

  /** An idle daemon keeps the device while the app is open. */
  lemma AppOpenKeeps(shm: Flags, d: Daemon)
    requires d.at == Idle && !d.stop && !shm.running && shm.appActive
    ensures Alone(shm, d, 3) == (shm, d)
  {
    AloneNext(shm, d, 0, shm, d);
    AloneNext(shm, d, 1, shm, d.(at := CheckApp));
    AloneNext(shm, d, 2, shm, d.(at := Probe));
  }

  lemma AppClosedWithdraws(shm: Flags, d: Daemon)
    requires d.at == Idle && !d.stop && !shm.running && !shm.appActive
    ensures Alone(shm, d, 2) == (shm, d.(at := Withdraw))
  {
    AloneNext(shm, d, 0, shm, d);
    AloneNext(shm, d, 1, shm, d.(at := CheckApp));
  }

  lemma AppClosedParks(shm: Flags, d: Daemon)
    requires d.at == Top && !d.stop && !shm.appActive
    ensures Alone(shm, d, 2) == (shm.(present := false), d.(at := Parked, announced := true))
  {
    AloneNext(shm, d, 0, shm, d);
    AloneNext(shm, d, 1, shm, d.(at := Park));
  }

  /** The device is withdrawn before it is closed, and the request with it. */
  lemma WithdrawReleases(shm: Flags, d: Daemon)
    requires d.at == Withdraw
    ensures Alone(shm, d, 3) == (shm.(present := false, running := false), d.(at := Top, device := Closed))
  {
    AloneNext(shm, d, 0, shm, d);
    AloneNext(shm, d, 1, shm.(present := false), d.(at := Lower));
    AloneNext(shm, d, 2, shm.(present := false, running := false), d.(at := Release));
  }

  /** A failed open is tried again; a failed claim or setup leads back to the top with the device
      closed; a lost device, and a rate that cannot be set, lead to withdrawing it. */
  lemma FailureStartsOver(shm: Flags, d: Daemon)
    ensures d.at == Poll ==> DaemonStep(shm, d, false) == (shm, d.(at := Waiting))
    ensures d.at == Claim || d.at == SetAlt ==> DaemonStep(shm, d, false) == (shm, d.(at := Top, device := Closed))
    ensures d.at == Probe || d.at == Teardown ==> DaemonStep(shm, d, false).1 == d.(at := Withdraw)
    ensures d.at == SetRate
        ==> var (s, e) := DaemonStep(shm, d, false);
            DaemonStep(s, e, false) == (shm.(devFrames := 0, running := false), d.(at := Withdraw))
  {
  }

  /** Own steps left before a daemon that was told to stop has exited. */
  function StepsLeft(at: Place): nat {
    match at
    case Exited => 0
    case Top | Parked | Waiting => 1
    case Park | Acquire => 2
    case Release => 2
    case Lower => 3
    case Withdraw => 4
    case Idle | ClearRunning => 5
    case Probe => 6
    case CheckApp => 7
    case Teardown => 6
    case Stream => 7
    case Prime => 8
    case SetRate => 9
    case ReadRate => 10
    case Announce => 6
    case SetAlt => 7
    case Claim => 8
    case Poll => 9
  }

  lemma StopShortensWork(shm: Flags, d: Daemon, ok: bool)
    requires d.stop && (Idling(d.at) || Working(d.at))
    ensures var e := DaemonStep(shm, d, ok).1; e.stop && StepsLeft(e.at) < StepsLeft(d.at)
  {
  }

  lemma StopShortensRest(shm: Flags, d: Daemon, ok: bool)
    requires d.stop && !Idling(d.at) && !Working(d.at) && d.at != Exited
    ensures var e := DaemonStep(shm, d, ok).1; e.stop && StepsLeft(e.at) < StepsLeft(d.at)
  {
  }

  /** Told to stop, the daemon exits within ten of its own steps, whatever the calls return and
      whatever plugin, app and callbacks do in between. */
  lemma StopIsHeeded(s: System, e: Event)
    requires s.daemon.stop
    ensures Next(s, e).daemon.stop && StepsLeft(Next(s, e).daemon.at) <= StepsLeft(s.daemon.at) <= 10
    ensures e.FromDaemon? && s.daemon.at != Exited
        ==> StepsLeft(Next(s, e).daemon.at) < StepsLeft(s.daemon.at)
    ensures StepsLeft(s.daemon.at) == 0 <==> s.daemon.at == Exited
  {
    if e.FromDaemon? {
      if Idling(s.daemon.at) || Working(s.daemon.at) {
        StopShortensWork(s.shm, s.daemon, e.ok);
      } else if s.daemon.at != Exited {
        StopShortensRest(s.shm, s.daemon, e.ok);
      }
    }
  }

  lemma AppClosedTops(shm: Flags, d: Daemon)
    requires d.at == Idle && !d.stop && !shm.running && !shm.appActive
    ensures Alone(shm, d, 5) == (shm.(present := false), d.(at := Top, device := Closed))
  {
    AppClosedWithdraws(shm, d);
    WithdrawReleases(shm, d.(at := Withdraw));
    AloneJoins(shm, d, 2, 3, 5, shm, d.(at := Withdraw));
  }

  /** It gives the device up and parks once the app closes. */
  lemma AppClosedReleases(shm: Flags, d: Daemon)
    requires d.at == Idle && !d.stop && !shm.running && !shm.appActive
    ensures Alone(shm, d, 7) == (shm.(present := false), d.(at := Parked, device := Closed, announced := true))
  {
    var s, e := shm.(present := false), d.(at := Top, device := Closed);
    AppClosedTops(shm, d);
    AppClosedParks(s, e);
    AloneJoins(shm, d, 5, 2, 7, s, e);
  }

  // ----- the low-latency daemon -----

  datatype LlPlace =
    | LlTop | LlPark | LlParked | LlReadRate | LlStart | LlAnnounce
    | LlStream | LlCheckRate | LlWithdraw | LlClean | LlLast | LlExited

  datatype LlDaemon = LlDaemon(at: LlPlace, device: Device, rate: u32, stop: bool)

  /** One step; ok is the outcome of session_start, or that no callback has ended the session. */
  function LlStep(shm: Flags, d: LlDaemon, ok: bool): (Flags, LlDaemon) {
    match d.at
    case LlTop => (shm, d.(at := if d.stop then LlLast else if shm.appActive then LlReadRate else LlPark))
    case LlPark => (shm.(present := false), d.(at := LlParked))
    case LlParked => (shm, d.(at := if d.stop || shm.appActive then LlTop else LlParked))
    case LlReadRate => (shm, d.(at := LlStart, rate := if Supported(shm.rate) then shm.rate else 48000))
    case LlStart => (shm, if ok then d.(at := LlAnnounce, device := Configured) else d.(at := LlTop, device := Closed))
    case LlAnnounce => (shm.(present := true), d.(at := LlStream))
    case LlStream => (shm, d.(at := if d.stop || !ok || !shm.appActive then LlWithdraw else LlCheckRate))
    case LlCheckRate => (shm, d.(at := if Supported(shm.rate) && shm.rate != d.rate then LlWithdraw else LlStream))
    case LlWithdraw => (shm.(present := false), d.(at := LlClean))
    case LlClean => (shm, d.(at := LlTop, device := Closed))
    case LlLast => (shm.(present := false), d.(at := LlExited))
    case LlExited => (shm, d)
  }

  predicate LlHeld(at: LlPlace) { at.LlStream? || at.LlCheckRate? || at.LlWithdraw? }

  ghost predicate LlInv(shm: Flags, d: LlDaemon) {
    && (LlHeld(d.at) || d.at.LlAnnounce? || d.at.LlClean? ==> d.device == Configured && Supported(d.rate))
    && (d.at == LlStart ==> Supported(d.rate))
    && (shm.present <==> LlHeld(d.at))
  }

  datatype LlSystem = LlSystem(shm: Flags, client: Client, daemon: LlDaemon)

  function LlNext(s: LlSystem, e: Event): LlSystem {
    match e
    case FromClient(call) => var (shm, p) := AfterCall(s.shm, s.client, call); LlSystem(shm, p, s.daemon)
    case FromApp(step) => s.(shm := AfterApp(s.shm, step))
    case FromDaemon(ok) => var (shm, d) := LlStep(s.shm, s.daemon, ok); LlSystem(shm, s.client, d)
    case Cutoff => s  // its callbacks store no flag of the segment
    case Signal => s.(daemon := s.daemon.(stop := true))
  }

  ghost predicate LlInitial(s: LlSystem) {
    && !s.shm.running && s.client.ioRunning == 0 && Supported(s.client.sampleRate)
    && s.daemon == LlDaemon(LlTop, Closed, 0, false)
  }

  ghost predicate LlRun(states: seq<LlSystem>, events: seq<Event>) {
    && |states| == |events| + 1 && LlInitial(states[0])
    && forall k :: 0 <= k < |events| ==> states[k + 1] == LlNext(states[k], events[k])
  }

  lemma LlStepKeepsInv(s: LlSystem, e: Event)
    requires LlInv(s.shm, s.daemon)
    ensures var t := LlNext(s, e); LlInv(t.shm, t.daemon)
  {
  }

  lemma {:induction false} LlRunKeepsInv(states: seq<LlSystem>, events: seq<Event>, k: nat)
    requires LlRun(states, events) && k < |states|
    requires !states[0].shm.present
    ensures LlInv(states[k].shm, states[k].daemon)
  {
    if k == 0 {
    } else {
      LlRunKeepsInv(states, events, k - 1);
      LlStepKeepsInv(states[k - 1], events[k - 1]);
    }
  }

  ghost predicate LlHonest(s: LlSystem) { s.shm.present ==> s.daemon.device == Configured }

  /** This daemon stores the flag only when parking, announcing and withdrawing. So presence means a
      configured device throughout a run exactly when the flag it found in the segment was down. */
  lemma LlPresentIff(states: seq<LlSystem>, events: seq<Event>)
    requires LlRun(states, events)
    ensures !states[0].shm.present <==> forall k :: 0 <= k < |states| ==> LlHonest(states[k])
  {
    if states[0].shm.present {
      assert !LlHonest(states[0]);
    } else {
      forall k | 0 <= k < |states|
        ensures LlHonest(states[k])
      {
        LlRunKeepsInv(states, events, k);
      }
    }
  }

  /** n daemon steps with no device to be had. */
  function WithoutDevice(s: LlSystem, n: nat): LlSystem {
    if n == 0 then s else LlNext(WithoutDevice(s, n - 1), FromDaemon(false))
  }

  ghost predicate Waits(shm: Flags, t: LlSystem) {
    && t.shm == shm && t.daemon.device == Closed && !t.daemon.stop
    && (t.daemon.at.LlTop? || t.daemon.at.LlReadRate? || t.daemon.at.LlStart?)
  }

  lemma StillWaits(shm: Flags, t: LlSystem)
    requires shm.appActive && Waits(shm, t)
    ensures Waits(shm, LlNext(t, FromDaemon(false)))
  {
  }

  /** A stale flag survives any number of failed acquisitions while the app is open: the plugin
      shows a device the daemon does not hold. The libusb daemon clears the flag first. */
  lemma {:induction false} StaleFlagPersists(s: LlSystem, n: nat)
    requires LlInitial(s) && s.shm.present && s.shm.appActive
    ensures Waits(s.shm, WithoutDevice(s, n)) && !LlHonest(WithoutDevice(s, n))
  {
    if n == 0 {
    } else {
      StaleFlagPersists(s, n - 1);
      StillWaits(s.shm, WithoutDevice(s, n - 1));
    }
  }

  // ----- where the low-latency daemon gets to -----

  function LlAlone(shm: Flags, d: LlDaemon, n: nat): (Flags, LlDaemon) {
    if n == 0 then (shm, d) else var (s, e) := LlAlone(shm, d, n - 1); LlStep(s, e, true)
  }

  lemma LlAloneNext(shm: Flags, d: LlDaemon, n: nat, s: Flags, e: LlDaemon)
    requires LlAlone(shm, d, n) == (s, e)
    ensures LlAlone(shm, d, n + 1) == LlStep(s, e, true)
  {
  }

  /** With the app open the session is started at the stored rate, or 48000, and the device shown. */
  lemma LlAppOpenStreams(shm: Flags, d: LlDaemon)
    requires d.at == LlTop && !d.stop && shm.appActive
    ensures var rate := if Supported(shm.rate) then shm.rate else 48000;
            LlAlone(shm, d, 4) == (shm.(present := true), d.(at := LlStream, device := Configured, rate := rate))
  {
    var rate := if Supported(shm.rate) then shm.rate else 48000;
    LlAloneNext(shm, d, 0, shm, d);
    LlAloneNext(shm, d, 1, shm, d.(at := LlReadRate));
    LlAloneNext(shm, d, 2, shm, d.(at := LlStart, rate := rate));
    LlAloneNext(shm, d, 3, shm, d.(at := LlAnnounce, device := Configured, rate := rate));
  }

  /** With the app closed it takes the device away and waits for the app, no longer. */
  lemma LlAppClosedParks(shm: Flags, d: LlDaemon)
    requires d.at == LlTop && !d.stop
    ensures !shm.appActive ==> LlAlone(shm, d, 2) == (shm.(present := false), d.(at := LlParked))
    ensures LlStep(shm, d.(at := LlParked), true) == (shm, d.(at := if shm.appActive then LlTop else LlParked))
  {
    LlAloneNext(shm, d, 0, shm, d);
    if !shm.appActive {
      LlAloneNext(shm, d, 1, shm, d.(at := LlPark));
    }
  }

  /** It streams on while the app is open and no other supported rate is stored. A new rate withdraws
      the device, and so do a closed app and an ended session. */
  lemma LlStreamGoesOn(shm: Flags, d: LlDaemon)
    requires d.at == LlStream && !d.stop
    ensures shm.appActive && (!Supported(shm.rate) || shm.rate == d.rate) ==> LlAlone(shm, d, 2) == (shm, d)
    ensures shm.appActive && Supported(shm.rate) && shm.rate != d.rate
        ==> LlAlone(shm, d, 2) == (shm, d.(at := LlWithdraw))
    ensures !shm.appActive ==> LlAlone(shm, d, 1) == (shm, d.(at := LlWithdraw))
    ensures LlStep(shm, d, false) == (shm, d.(at := LlWithdraw))
  {
    LlAloneNext(shm, d, 0, shm, d);
    if shm.appActive {
      LlAloneNext(shm, d, 1, shm, d.(at := LlCheckRate));
    }
  }

  /** Withdrawn before it is closed, then started over; a start that fails is tried again. */
  lemma LlStartsOver(shm: Flags, d: LlDaemon)
    ensures d.at == LlWithdraw ==> LlAlone(shm, d, 2) == (shm.(present := false), d.(at := LlTop, device := Closed))
    ensures d.at == LlStart ==> LlStep(shm, d, false) == (shm, d.(at := LlTop, device := Closed))
  {
    LlAloneNext(shm, d, 0, shm, d);
    if d.at == LlWithdraw {
      LlAloneNext(shm, d, 1, shm.(present := false), d.(at := LlClean));
    }
  }

  /** Own steps left before a daemon that was told to stop has exited. */
  function LlStepsLeft(at: LlPlace): nat {
    match at
    case LlExited => 0
    case LlLast => 1
    case LlTop => 2
    case LlParked | LlClean => 3
    case LlPark | LlWithdraw => 4
    case LlStream => 5
    case LlAnnounce | LlCheckRate => 6
    case LlStart => 7
    case LlReadRate => 8
  }

  /** Told to stop, it exits within eight of its own steps and leaves the flag down. */
  lemma LlStopIsHeeded(s: LlSystem, e: Event)
    requires s.daemon.stop
    ensures LlNext(s, e).daemon.stop && LlStepsLeft(LlNext(s, e).daemon.at) <= LlStepsLeft(s.daemon.at) <= 8
    ensures e.FromDaemon? && s.daemon.at != LlExited
        ==> LlStepsLeft(LlNext(s, e).daemon.at) < LlStepsLeft(s.daemon.at)
    ensures s.daemon.at != LlExited && LlNext(s, e).daemon.at == LlExited ==> !LlNext(s, e).shm.present
    ensures LlStepsLeft(s.daemon.at) == 0 <==> s.daemon.at == LlExited
  {
  }
}
