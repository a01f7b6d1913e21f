/** The low-latency daemon's session: everything session_start acquires from the system, and
    session_cleanup gives back, whatever call fails on the way. */
module DeviceSession {

  const NUM_XFERS := 32

  /** References handed out by the system that must be returned exactly once. */
  datatype Resource =
    | Device | Interface | EventSource
    | PlaybackBuffer(i: nat) | PlaybackFrames(i: nat)
    | CaptureBuffer(i: nat) | CaptureFrames(i: nat)

  /** Calls whose failure the session has to survive. */
  datatype Call =
    | FindDevice | OpenDevice | FindInterface | OpenInterface | SelectAlternate | SetRate | FindPipes
    | CreateSource
    | CreateBuffer(r: Resource)
    | SubmitPlayback(i: nat) | SubmitCapture(i: nat)

  /** The system side: it knows which references are live, and whether the device and the interface
      are open. Returning a reference that is not live is ruled out by precondition. */
  class System {
    ghost var live: set<Resource>
    ghost var deviceOpen: bool
    ghost var interfaceOpen: bool
    const outcome: Call -> bool

    constructor (outcome: Call -> bool)
      ensures live == {} && !deviceOpen && !interfaceOpen
    {
      this.outcome := outcome;
      live, deviceOpen, interfaceOpen := {}, false, false;
    }

    method Create(call: Call, r: Resource) returns (ok: bool)
      requires r !in live
      modifies this`live
      ensures ok == outcome(call)
      ensures live == if ok then old(live) + {r} else old(live)
    {
      ok := outcome(call);
      if ok {
        live := live + {r};
      }
    }

    method Return(r: Resource)
      requires r in live
      modifies this`live
      ensures live == old(live) - {r}
    {
      live := live - {r};
    }

    method OpenDevice() returns (ok: bool)
      modifies this`deviceOpen
      ensures ok == outcome(Call.OpenDevice) && deviceOpen == (old(deviceOpen) || ok)
    {
      ok := outcome(Call.OpenDevice);
      deviceOpen := deviceOpen || ok;
    }

    method OpenInterface() returns (ok: bool)
      modifies this`interfaceOpen
      ensures ok == outcome(Call.OpenInterface) && interfaceOpen == (old(interfaceOpen) || ok)
    {
      ok := outcome(Call.OpenInterface);
      interfaceOpen := interfaceOpen || ok;
    }

    method CloseDevice()
      modifies this`deviceOpen
      ensures !deviceOpen
    {
      deviceOpen := false;
    }

    method CloseInterface()
      modifies this`interfaceOpen
      ensures !interfaceOpen
    {
      interfaceOpen := false;
    }
  }

  /** The pointers of one transfer slot that are not null. */
  datatype Slot = Slot(buf: bool, frames: bool)

  class Session {
    const system: System
    var dev: bool
    var intf: bool
    var src: bool
    const pb: array<Slot>
    const cap: array<Slot>

    constructor (system: System)
      requires system.live == {} && !system.deviceOpen && !system.interfaceOpen
      ensures this.system == system && Shaped() && Owned()
      ensures fresh(pb) && fresh(cap)
    {
      this.system := system;
      dev, intf, src := false, false, false;
      pb := new Slot[NUM_XFERS](_ => Slot(false, false));
      cap := new Slot[NUM_XFERS](_ => Slot(false, false));
    }

    ghost predicate Shaped() {
      pb.Length == NUM_XFERS && cap.Length == NUM_XFERS && pb != cap
    }

    /** The session holds a reference to r. */
    ghost predicate Held(r: Resource)
      requires Shaped()
      reads this, pb, cap
    {
      match r
      case Device => dev
      case Interface => intf
      case EventSource => src
      case PlaybackBuffer(i) => i < NUM_XFERS && pb[i].buf
      case PlaybackFrames(i) => i < NUM_XFERS && pb[i].frames
      case CaptureBuffer(i) => i < NUM_XFERS && cap[i].buf
      case CaptureFrames(i) => i < NUM_XFERS && cap[i].frames
    }

    /** No reference is lost and none is stale. Everything below the interface hangs off it. */
    ghost predicate Owned()
      requires Shaped()
      reads this, pb, cap, system
    {
      && (forall r :: r in system.live <==> Held(r))
      && (dev <==> system.deviceOpen)
      && (system.interfaceOpen ==> intf)
      && (intf ==> dev)
      && (!intf ==> !src && NoBuffers())
    }

    /** Destroys whatever transfer slot i holds. */
    method DestroySlot(i: nat)
      requires Shaped() && i < NUM_XFERS
      requires forall r :: r in system.live <==> Held(r)
      modifies system`live, pb, cap
      ensures forall r :: r in system.live <==> Held(r)
      ensures pb[i] == cap[i] == Slot(false, false)
      ensures forall j :: 0 <= j < NUM_XFERS && j != i ==> pb[j] == old(pb[j]) && cap[j] == old(cap[j])
    {
      if pb[i].buf {
        system.Return(PlaybackBuffer(i));
      }
      if pb[i].frames {
        system.Return(PlaybackFrames(i));
      }
      if cap[i].buf {
        system.Return(CaptureBuffer(i));
      }
      if cap[i].frames {
        system.Return(CaptureFrames(i));
      }
      pb[i] := Slot(false, false);
      cap[i] := Slot(false, false);
    }

    /** Destroys the buffers of every slot. */
    method DestroyBuffers()
      requires Shaped()
      requires forall r :: r in system.live <==> Held(r)
      modifies system`live, pb, cap
      ensures forall r :: r in system.live <==> Held(r)
      ensures NoBuffers()
    {
      var i := 0;
      while i < NUM_XFERS
        invariant 0 <= i <= NUM_XFERS
        invariant forall r :: r in system.live <==> Held(r)
        invariant forall j :: 0 <= j < i ==> pb[j] == cap[j] == Slot(false, false)
      {
        DestroySlot(i);
        i := i + 1;
      }
    }

    /** The interface and all that hangs off it. */
    method ReleaseInterface()
      requires Shaped() && Owned()
      modifies this`src, this`intf, system`live, system`interfaceOpen, pb, cap
      ensures Owned() && !intf && !system.interfaceOpen
    {
      if intf {
        if src {
          system.Return(EventSource);
          src := false;
        }
        DestroyBuffers();
        system.CloseInterface();
        system.Return(Interface);
        intf := false;
      }
    }

    method ReleaseDevice()
      requires Shaped() && Owned() && !intf && !system.interfaceOpen
      modifies this`dev, system`live, system`deviceOpen
      ensures Owned() && !dev && !intf && !system.interfaceOpen
    {
      if dev {
        system.CloseDevice();
        system.Return(Device);
        dev := false;
      }
    }

    lemma NothingHeld()
      requires Shaped() && Owned() && !dev && !intf
      ensures system.live == {}
    {
      forall r
        ensures r !in system.live
      {
        assert !Held(r);
      }
    }

    /** Gives back everything held, in any state a start can leave behind, and may be repeated. */
    method SessionCleanup()
      requires Shaped() && Owned()
      modifies this, system, pb, cap
      ensures Owned() && !dev
      ensures system.live == {} && !system.deviceOpen && !system.interfaceOpen
    {
      ReleaseInterface();
      ReleaseDevice();
      NothingHeld();
    }

    /** The four buffers of slot i, in order, up to the first that cannot be had. */
    method AllocateSlot(i: nat) returns (ok: bool)
      requires Shaped() && i < NUM_XFERS
      requires forall r :: r in system.live <==> Held(r)
      requires pb[i] == cap[i] == Slot(false, false)
      modifies system`live, pb, cap
      ensures forall r :: r in system.live <==> Held(r)
      ensures ok <==> SlotGranted(i)
      ensures pb[i] == Slot(Granted1(i), Granted2(i)) && cap[i] == Slot(Granted3(i), SlotGranted(i))
      ensures forall j :: 0 <= j < NUM_XFERS && j != i ==> pb[j] == old(pb[j]) && cap[j] == old(cap[j])
    {
      ok := system.Create(CreateBuffer(PlaybackBuffer(i)), PlaybackBuffer(i));
      pb[i] := pb[i].(buf := ok);
      if ok {
        ok := system.Create(CreateBuffer(PlaybackFrames(i)), PlaybackFrames(i));
        pb[i] := pb[i].(frames := ok);
      }
      if ok {
        ok := system.Create(CreateBuffer(CaptureBuffer(i)), CaptureBuffer(i));
        cap[i] := cap[i].(buf := ok);
      }
      if ok {
        ok := system.Create(CreateBuffer(CaptureFrames(i)), CaptureFrames(i));
        cap[i] := cap[i].(frames := ok);
      }
    }

    /** The first one, two, three, all four buffers of slot i can be had. */
    ghost predicate Granted1(i: nat) { system.outcome(CreateBuffer(PlaybackBuffer(i))) }

    ghost predicate Granted2(i: nat) { Granted1(i) && system.outcome(CreateBuffer(PlaybackFrames(i))) }

    ghost predicate Granted3(i: nat) { Granted2(i) && system.outcome(CreateBuffer(CaptureBuffer(i))) }

    ghost predicate SlotGranted(i: nat) { Granted3(i) && system.outcome(CreateBuffer(CaptureFrames(i))) }

    ghost predicate SlotsGranted(n: nat) {
      forall i: nat :: i < n ==> SlotGranted(i)
    }

    method AllocateBuffers() returns (ok: bool)
      requires Shaped() && NoBuffers()
      requires forall r :: r in system.live <==> Held(r)
      modifies system`live, pb, cap
      ensures forall r :: r in system.live <==> Held(r)
      ensures ok <==> SlotsGranted(NUM_XFERS)
      ensures ok ==> AllBuffers()
    {
      var i := 0;
      while i < NUM_XFERS
        invariant 0 <= i <= NUM_XFERS
        invariant forall r :: r in system.live <==> Held(r)
        invariant SlotsGranted(i)
        invariant forall j :: 0 <= j < i ==> pb[j] == cap[j] == Slot(true, true)
        invariant forall j :: i <= j < NUM_XFERS ==> pb[j] == cap[j] == Slot(false, false)
      {
        ok := AllocateSlot(i);
        if !ok {
          return;
        }
        i := i + 1;
      }
      ok := true;
    }

    ghost predicate NoBuffers()
      requires Shaped()
      reads pb, cap
    {
      forall i :: 0 <= i < NUM_XFERS ==> pb[i] == cap[i] == Slot(false, false)
    }

    ghost predicate AllBuffers()
      requires Shaped()
      reads pb, cap
    {
      forall i :: 0 <= i < NUM_XFERS ==> pb[i] == cap[i] == Slot(true, true)
    }

    ghost predicate SomePlayback() {
      exists i: nat :: i < NUM_XFERS && system.outcome(SubmitPlayback(i))
    }

    /** Submits both directions of every slot and counts the playback ones that were taken. */
    method SubmitPool() returns (pbOk: nat)
      ensures pbOk > 0 <==> SomePlayback()
      ensures pbOk > 0 <==> exists i: nat :: i < 32 && system.outcome(SubmitPlayback(i))
    {
      pbOk := 0;
      var i := 0;
      while i < NUM_XFERS
        invariant 0 <= i <= NUM_XFERS
        invariant pbOk > 0 <==> exists j: nat :: j < i && system.outcome(SubmitPlayback(j))
      {
        var taken := system.outcome(SubmitPlayback(i));
        if taken {
          pbOk := pbOk + 1;
        }
        i := i + 1;
      }
    }

    /** Opens the device, claims the interface, allocates and submits. On failure everything is
        given back, except when the whole pool was built and not one playback transfer was taken:
        that state is left for the caller's own cleanup. */
    method SessionStart() returns (ok: bool)
      requires Shaped() && Owned() && !dev
      modifies this, system, pb, cap
      ensures Owned()
      ensures ok <==> Granted() && SomePlayback()
      ensures dev <==> Granted()
      ensures dev ==> intf && src && AllBuffers() && system.interfaceOpen
      ensures !dev ==> system.live == {} && !system.deviceOpen && !system.interfaceOpen
    {
      dev := system.Create(FindDevice, Device);
      if !dev {
        return false;
      }
      var isOpen := system.OpenDevice();
      if !isOpen {
        system.Return(Device);
        dev := false;
        return false;
      }
      var claimed := Claim();
      if !claimed {
        SessionCleanup();
        return false;
      }
      var pbOk := SubmitPool();
      ok := pbOk > 0;
    }

    /** Interface, event source and buffers, up to the first failure. */
    method Claim() returns (ok: bool)
      requires Shaped() && Owned() && dev && !intf
      modifies this, system, pb, cap
      ensures Owned() && dev
      ensures ok <==> Claimable()
      ensures ok ==> intf && src && AllBuffers() && system.interfaceOpen
    {
      ok := false;
      intf := system.Create(FindInterface, Interface);
      if !intf {
        return;
      }
      var isOpen := system.OpenInterface();
      if !isOpen {
        return;
      }
      if !system.outcome(SelectAlternate) {
        return;
      }
      if !system.outcome(SetRate) {
        return;
      }
      if !system.outcome(FindPipes) {
        return;
      }
      src := system.Create(CreateSource, EventSource);
      if !src {
        return;
      }
      ok := AllocateBuffers();
    }

    ghost predicate Claimable() {
      && system.outcome(FindInterface) && system.outcome(OpenInterface)
      && system.outcome(SelectAlternate) && system.outcome(SetRate) && system.outcome(FindPipes)
      && system.outcome(CreateSource)
      && SlotsGranted(NUM_XFERS)
    }

    /** Every call before the submissions succeeds. */
    ghost predicate Granted() {
      system.outcome(FindDevice) && system.outcome(OpenDevice) && Claimable()
    }

    /** The calls a start cannot do without: every one but the submissions, for slots there are. */
    static predicate Required(call: Call) {
      match call
      case SubmitPlayback(_) => false
      case SubmitCapture(_) => false
      case CreateBuffer(PlaybackBuffer(i)) => i < 32
      case CreateBuffer(PlaybackFrames(i)) => i < 32
      case CreateBuffer(CaptureBuffer(i)) => i < 32
      case CreateBuffer(CaptureFrames(i)) => i < 32
      case CreateBuffer(_) => false
      case _ => true
    }

    lemma GrantedIsAll()
      ensures Granted() <==> forall call :: Required(call) ==> system.outcome(call)
    {
      if Granted() {
        forall call | Required(call)
          ensures system.outcome(call)
        {
          RequiredIsGranted(call);
        }
      } else if forall call :: Required(call) ==> system.outcome(call) {
        AllRequiredSuffice();
      }
    }

    lemma RequiredIsGranted(call: Call)
      requires Granted() && Required(call)
      ensures system.outcome(call)
    {
      if call.CreateBuffer? {
        match call.r
        case PlaybackBuffer(i) => assert SlotGranted(i);
        case PlaybackFrames(i) => assert SlotGranted(i);
        case CaptureBuffer(i) => assert SlotGranted(i);
        case CaptureFrames(i) => assert SlotGranted(i);
        case _ =>
      }
    }

    lemma AllRequiredSuffice()
      requires forall call :: Required(call) ==> system.outcome(call)
      ensures Granted()
    {
      assert Required(FindDevice) && Required(Call.OpenDevice);
      assert Required(FindInterface) && Required(Call.OpenInterface);
      assert Required(SelectAlternate) && Required(SetRate) && Required(FindPipes) && Required(CreateSource);
      forall i: nat | i < NUM_XFERS
        ensures SlotGranted(i)
      {
        assert Required(CreateBuffer(PlaybackBuffer(i))) && Required(CreateBuffer(PlaybackFrames(i)));
        assert Required(CreateBuffer(CaptureBuffer(i))) && Required(CreateBuffer(CaptureFrames(i)));
      }
    }

    /** One pass of the daemon's acquire loop: start, then the caller's cleanup on failure, or the
        end-of-stream cleanup. For every combination of failing calls nothing stays acquired. */
    method AcquireOnce() returns (streamed: bool)
      requires Shaped() && Owned() && !dev
      modifies this, system, pb, cap
      ensures streamed <==> Granted() && SomePlayback()
      ensures Owned() && !dev
      ensures system.live == {} && !system.deviceOpen && !system.interfaceOpen
    {
      streamed := SessionStart();
      if !streamed {
        SessionCleanup();
        return;
      }
      SessionCleanup();
    }
  }
}
