/** The service: its methods take the steps of the cutover machine, with other requests in between. */
module Service {
  import opened Consts
  import opened Cutover
  import opened Wrappers

  /** The exceptions that the service tells apart; `ValueError` and `KeyError` are among the others. */
  datatype Raised = ConfigError | OsError | RuntimeError | OtherError

  /** What the start of the service catches. */
  predicate Handled(e: Raised) {
    e != OtherError
  }

  datatype ActivateError = UnknownGeneration(generation: nat) | AlreadyRunning | CallRaised(cause: Raised)

  datatype Status = StatusStarting | StatusRunning | StatusDegraded

  // Compiling a configuration.

  /** A network source: mounted already, or to be mounted, which may raise. */
  datatype MountCheck = MountCheck(mounted: bool, mounting: Option<Raised>) {
    function Problem(): Option<Raised> {
      if mounted then None else mounting
    }
  }

  /** A configured entry, and what the file system says about its source. */
  datatype EntryCheck = EntryCheck(wantsDirectory: bool, present: bool, isFile: bool, isDirectory: bool) {
    predicate Right() {
      present && if wantsDirectory then isDirectory else isFile
    }
  }

  /** A configuration: its sources, its entries, and the exception, if any, that building its layout raises. */
  datatype Request = Request(mounts: seq<MountCheck>, entries: seq<EntryCheck>, building: Option<Raised>)

  /** A source that is not mounted and cannot be. */
  ghost predicate MountRaises(m: MountCheck) {
    !m.mounted && m.mounting.Some?
  }

  ghost predicate FirstRaises(mounts: seq<MountCheck>, i: int) {
    && 0 <= i < |mounts| && MountRaises(mounts[i])
    && forall k :: 0 <= k < i ==> !MountRaises(mounts[k])
  }

  /** An entry whose source is missing, or is not of the kind that the entry names. */
  ghost predicate EntryRaises(e: EntryCheck) {
    || !e.present
    || (e.wantsDirectory && !e.isDirectory)
    || (!e.wantsDirectory && !e.isFile)
  }

  function MountProblem(mounts: seq<MountCheck>): Option<Raised> {
    if mounts == [] then None
    else if mounts[0].Problem().Some? then mounts[0].Problem()
    else MountProblem(mounts[1..])
  }

  predicate EntriesRight(entries: seq<EntryCheck>) {
    forall i :: 0 <= i < |entries| ==> entries[i].Right()
  }

  lemma EntriesRightIff(entries: seq<EntryCheck>)
    ensures EntriesRight(entries) <==> forall i :: 0 <= i < |entries| ==> !EntryRaises(entries[i])
  {
    assert forall i :: 0 <= i < |entries| ==> (entries[i].Right() <==> !EntryRaises(entries[i]));
  }

  /** The first source that raises decides. */
  lemma {:induction false} MountProblemFirst(mounts: seq<MountCheck>)
    ensures MountProblem(mounts).None? <==> forall i :: 0 <= i < |mounts| ==> !MountRaises(mounts[i])
    ensures forall i :: FirstRaises(mounts, i) ==> MountProblem(mounts) == mounts[i].mounting
  {
    if mounts != [] {
      MountProblemFirst(mounts[1..]);
      assert forall i :: 0 < i < |mounts| ==> mounts[i] == mounts[1..][i - 1];
      if !MountRaises(mounts[0]) {
        forall i | FirstRaises(mounts, i) ensures MountProblem(mounts) == mounts[i].mounting {
          assert FirstRaises(mounts[1..], i - 1);
        }
      }
    }
  }

  /** What a compilation raises first; sources are mounted on Linux only. */
  function Problem(request: Request, linux: bool): Option<Raised> {
    var mounting := if linux then MountProblem(request.mounts) else None;
    if mounting.Some? then mounting
    else if !EntriesRight(request.entries) then Some(ConfigError)
    else request.building
  }

  /** The hardware managers. Every call returns or raises; nothing else is known about the outside. */
  class Hardware {
    var world: World

    constructor (world: World)
      ensures this.world == world
    {
      this.world := world;
    }

    /** One manager call; one that raises, or that does not check what it did, may leave a part of its effect. */
    method Call(phase: Phase, target: nat) returns (raised: Option<Raised>)
      modifies this
      ensures raised.None? ==> MayReturn(phase, old(world), world, target)
      ensures raised.Some? ==> MayLeave(phase, old(world), world)
    {
      var raises := *;
      if raises || !CanReturn(phase, world) {
        var after: World := *;
        if MayLeave(phase, world, after) {
          world := after;
        }
        var e: Raised := *;
        raised := Some(e);
      } else {
        var after: World := *;
        world := if MayReturn(phase, world, after, target) then after else AfterCall(phase, world, target);
        raised := None;
      }
    }

    /** Asks for the medium to be ejected, which changes neither binding nor connection, or raises. */
    method ForceEject() returns (raised: Option<Raised>) {
      raised := *;
    }
  }

  // Paths.

  /** A path that begins with the given one. */
  ghost predicate Extends(states: seq<State>, events: seq<Event>, before: seq<State>, done: seq<Event>) {
    && Path(states, events) && |before| == |done| + 1 && |before| <= |states|
    && states[..|before|] == before && events[..|done|] == done
  }

  lemma PathStep(states: seq<State>, events: seq<Event>, e: Event, t: State)
    requires Path(states, events) && Step(states[|states| - 1], e, t)
    ensures Extends(states + [t], events + [e], states, events)
  {
    var ss, es := states + [t], events + [e];
    forall i | 0 <= i < |es| ensures Step(ss[i], es[i], ss[i + 1]) {
      if i < |events| {
        assert Step(states[i], events[i], states[i + 1]);
      }
    }
  }

  lemma ExtendsMore(a: seq<State>, d: seq<Event>, b: seq<State>, e: seq<Event>, c: seq<State>, f: seq<Event>)
    requires Extends(b, e, a, d) && Extends(c, f, b, e)
    ensures Extends(c, f, a, d)
  {
  }

  lemma ExtendsSelf(states: seq<State>, events: seq<Event>)
    requires Path(states, events)
    ensures Extends(states, events, states, events)
  {
  }

  lemma ExtendsPath(before: seq<State>, done: seq<Event>, states: seq<State>, events: seq<Event>)
    requires Extends(states, events, before, done)
    ensures Path(states, events) && |before| > 0 && |states| > 0 && states[0] == before[0]
  {
    assert states[..|before|][0] == before[0];
  }

  /** One more step at the end of an extended path. */
  lemma ExtendsStep(a: seq<State>, d: seq<Event>, b: seq<State>, e: seq<Event>, event: Event, t: State)
    requires Extends(b, e, a, d) && Step(b[|b| - 1], event, t)
    ensures Extends(b + [t], e + [event], a, d)
  {
    hide Step;
    ExtendsPath(a, d, b, e);
    PathStep(b, e, event, t);
    ExtendsMore(a, d, b, e, b + [t], e + [event]);
  }

  /** Stops go on taking effect. */
  lemma StopsStep(states: seq<State>, events: seq<Event>, e: Event, t: State)
    requires Path(states, events) && !LeavesServer(states[|states| - 1], e)
    ensures StopsTakeEffect(states, events) ==> StopsTakeEffect(states + [t], events + [e])
  {
    hide LeavesServer;
  }

  lemma {:induction false} PathSafe(states: seq<State>, events: seq<Event>)
    requires Path(states, events) && Safe(states[0]) && StopsTakeEffect(states, events)
    ensures Safe(states[|states| - 1])
    decreases |events|
  {
    if events != [] {
      var n := |events|;
      PathSafe(states[..n], events[..n - 1]);
      assert Step(states[n - 1], events[n - 1], states[n]);
      StepSafe(states[n - 1], events[n - 1], states[n]);
    }
  }

  class RemotePfsService {
    const linux: bool
    const hardware: Hardware
    var active: Option<nat>
    var compiled: set<nat>
    var nextGeneration: nat
    var status: Status
    var reloadLocked: bool
    var worker: Worker

    constructor (linux: bool, hardware: Hardware)
      ensures this.linux == linux && this.hardware == hardware
      ensures At(Booting, 0) == Fresh(hardware.world)
      ensures status == StatusStarting && !reloadLocked
    {
      this.linux := linux;
      this.hardware := hardware;
      active := None;
      compiled := {};
      nextGeneration := 1;
      status := StatusStarting;
      reloadLocked := false;
      worker := NoWorker;
    }

    /** The state of the machine that the service is in. */
    function At(phase: Phase, target: nat): State
      reads this, hardware
    {
      State(hardware.world, active, compiled, nextGeneration, worker, phase, target)
    }

    /** Stops the recorded worker and forgets it; one that was never started cannot be joined. */
    method StopWorker() returns (raised: Option<Raised>)
      modifies this`worker
      ensures old(worker).Unstarted? ==> raised == Some(RuntimeError) && worker == old(worker)
      ensures !old(worker).Unstarted? ==> raised == None && worker == NoWorker
    {
      if worker.Unstarted? {
        return Some(RuntimeError);
      }
      worker := NoWorker;
      raised := None;
    }

    /** Stops the prefetch worker, asks for the medium to be ejected, and unbinds the gadget. Over a worker that was
        never started nothing of this happens. */
    method Eject() returns (raised: Option<Raised>)
      modifies this`worker, hardware
      ensures old(worker).Unstarted? ==>
        raised == Some(RuntimeError) && worker == old(worker) && hardware.world == old(hardware.world)
      ensures !old(worker).Unstarted? ==> worker == NoWorker
      ensures raised.None? ==> hardware.world == old(hardware.world).(bound := false)
      ensures raised.Some? ==> MayLeave(Unbinding, old(hardware.world), hardware.world)
    {
      raised := StopWorker();
      if raised.Some? {
        return;
      }
      raised := hardware.ForceEject();
      if raised.None? {
        raised := hardware.Call(Unbinding, 0);
      }
    }

    /** Mounts the sources, checks the entries, builds the layout; the next generation, or what is raised first. */
    method Compile(request: Request) returns (r: Result<nat, Raised>)
      modifies this`compiled, this`nextGeneration
      ensures r.Ok? <==>
        && (linux ==> forall i :: 0 <= i < |request.mounts| ==> !MountRaises(request.mounts[i]))
        && (forall i :: 0 <= i < |request.entries| ==> !EntryRaises(request.entries[i]))
        && request.building.None?
      ensures linux ==> forall i :: FirstRaises(request.mounts, i) ==> r == Err(request.mounts[i].mounting.value)
      ensures (linux ==> forall i :: 0 <= i < |request.mounts| ==> !MountRaises(request.mounts[i])) ==>
        if exists i :: 0 <= i < |request.entries| && EntryRaises(request.entries[i]) then r == Err(ConfigError)
        else request.building.Some? ==> r == Err(request.building.value)
      ensures r == match Problem(request, linux) case Some(e) => Err(e) case None => Ok(old(nextGeneration))
      ensures compiled == old(compiled) + if r.Ok? then {r.value} else {}
      ensures nextGeneration == old(nextGeneration) + if r.Ok? then 1 else 0
    {
      MountProblemFirst(request.mounts);
      EntriesRightIff(request.entries);
      if linux {
        for i := 0 to |request.mounts|
          invariant MountProblem(request.mounts) == MountProblem(request.mounts[i..])
        {
          var problem := request.mounts[i].Problem();
          if problem.Some? {
            return Err(problem.value);
          }
          assert request.mounts[i..][1..] == request.mounts[i + 1..];
        }
      }
      for i := 0 to |request.entries|
        invariant forall k :: 0 <= k < i ==> request.entries[k].Right()
      {
        if !request.entries[i].Right() {
          return Err(ConfigError);
        }
      }
      if request.building.Some? {
        return Err(request.building.value);
      }
      r := Ok(nextGeneration);
      nextGeneration := nextGeneration + 1;
      compiled := compiled + {r.value};
    }

    /** One request that another thread serves meanwhile: an eject or a compilation. */
    method OtherRequest(ghost states: seq<State>, ghost events: seq<Event>, ghost phase: Phase, ghost target: nat)
      returns (ghost ss: seq<State>, ghost es: seq<Event>)
      requires phase != Booting
      requires Path(states, events) && states[|states| - 1] == At(phase, target)
      modifies this`compiled, this`nextGeneration, this`worker, hardware
      ensures Extends(ss, es, states, events) && ss[|ss| - 1] == At(phase, target)
      ensures StopsTakeEffect(states, events) ==> StopsTakeEffect(ss, es)
      ensures old(compiled) <= compiled && (old(worker).Unstarted? ==> worker == old(worker))
    {
      var ejects := *;
      ghost var e: Event;
      if ejects {
        var raised := Eject();
        e := if raised.None? then EjectUnbinds else EjectRaises(hardware.world);
      } else {
        var request: Request := *;
        var r := Compile(request);
        e := if r.Ok? then Event.Compile else CompileRaises;
      }
      PathStep(states, events, e, At(phase, target));
      StopsStep(states, events, e, At(phase, target));
      ss, es := states + [At(phase, target)], events + [e];
    }

    /** Any number of requests that other threads serve between two calls of an activation. */
    method Interleave(ghost states: seq<State>, ghost events: seq<Event>, ghost phase: Phase, ghost target: nat)
      returns (ghost ss: seq<State>, ghost es: seq<Event>)
      requires phase != Booting
      requires Path(states, events) && states[|states| - 1] == At(phase, target)
      modifies this`compiled, this`nextGeneration, this`worker, hardware
      ensures Extends(ss, es, states, events) && ss[|ss| - 1] == At(phase, target)
      ensures StopsTakeEffect(states, events) ==> StopsTakeEffect(ss, es)
      ensures old(compiled) <= compiled && (old(worker).Unstarted? ==> worker == old(worker))
    {
      hide Step, Extends, StopsTakeEffect;
      ExtendsSelf(states, events);
      ss, es := states, events;
      var requests: int := *;
      for i := 0 to Max(0, requests)
        invariant Extends(ss, es, states, events) && |ss| > 0 && ss[|ss| - 1] == At(phase, target)
        invariant StopsTakeEffect(states, events) ==> StopsTakeEffect(ss, es)
        invariant old(compiled) <= compiled && (old(worker).Unstarted? ==> worker == old(worker))
      {
        ghost var ss0, es0 := ss, es;
        ExtendsPath(states, events, ss, es);
        ss, es := OtherRequest(ss, es, phase, target);
        ExtendsMore(states, events, ss0, es0, ss, es);
        ExtendsPath(states, events, ss, es);
      }
    }

    /** The next manager call on the way of an activation, behind the requests served before it. */
    method Perform(phase: Phase, target: nat, ghost states: seq<State>, ghost events: seq<Event>,
            ghost before: seq<State>, ghost done: seq<Event>)
      returns (raised: Option<Raised>, ghost ss: seq<State>, ghost es: seq<Event>)
      requires phase !in {Booting, Idle, Prefetching, Launching}
      requires Extends(before, done, states, events) && before[|before| - 1] == At(phase, target)
      modifies this`compiled, this`nextGeneration, this`worker, hardware
      ensures Extends(ss, es, states, events) && old(compiled) <= compiled
      ensures ss[|ss| - 1] == At(if raised.None? then NextPhase(phase) else Idle, target)
      ensures phase != Stopping && StopsTakeEffect(before, done) ==> StopsTakeEffect(ss, es)
    {
      ss, es := Interleave(before, done, phase, target);
      ExtendsMore(states, events, before, done, ss, es);
      raised := hardware.Call(phase, target);
      ghost var e := if raised.None? then CallReturns(hardware.world) else CallRaises(hardware.world);
      ghost var t := At(if raised.None? then NextPhase(phase) else Idle, target);
      ExtendsStep(states, events, ss, es, e, t);
      if phase != Stopping {
        StopsStep(ss, es, e, t);
      }
      ss, es := ss + [t], es + [e];
    }

    /** Stops the recorded worker and records a new one, behind the requests served before. */
    method ReplaceWorker(target: nat, ghost states: seq<State>, ghost events: seq<Event>, ghost before: seq<State>,
            ghost done: seq<Event>)
      returns (raised: Option<Raised>, ghost ss: seq<State>, ghost es: seq<Event>)
      requires Extends(before, done, states, events) && before[|before| - 1] == At(Prefetching, target)
      modifies this`compiled, this`nextGeneration, this`worker, hardware
      ensures Extends(ss, es, states, events) && old(compiled) <= compiled
      ensures StopsTakeEffect(before, done) ==> StopsTakeEffect(ss, es)
      ensures |ss| > 0 && ss[|ss| - 1] == At(if raised.None? then Launching else Idle, target)
      ensures raised.None? ==> worker == Unstarted(target)
      ensures raised.Some? ==> raised == Some(RuntimeError) && worker.Unstarted?
      ensures old(worker).Unstarted? ==> raised.Some? && worker == old(worker)
    {
      ss, es := Interleave(before, done, Prefetching, target);
      ExtendsMore(states, events, before, done, ss, es);
      raised := StopWorker();
      if raised.None? {
        worker := Unstarted(target);
      }
      ghost var e := if raised.None? then CallReturns(hardware.world) else CallRaises(hardware.world);
      ghost var t := At(if raised.None? then Launching else Idle, target);
      ExtendsStep(states, events, ss, es, e, t);
      StopsStep(ss, es, e, t);
      ss, es := ss + [t], es + [e];
    }

    /** Stops the recorded worker, records a new one and starts it, with other requests in between. That it has started
        becomes a step of the machine together with the new active generation. */
    method StartPrefetch(target: nat, ghost states: seq<State>, ghost events: seq<Event>, ghost before: seq<State>,
            ghost done: seq<Event>)
      returns (raised: Option<Raised>, ghost ss: seq<State>, ghost es: seq<Event>)
      requires Extends(before, done, states, events) && before[|before| - 1] == At(Prefetching, target)
      modifies this`compiled, this`nextGeneration, this`worker, hardware
      ensures Extends(ss, es, states, events) && old(compiled) <= compiled
      ensures StopsTakeEffect(before, done) ==> StopsTakeEffect(ss, es)
      ensures ss[|ss| - 1] == if raised.None? then Launched(target) else At(Idle, target)
      ensures raised.None? ==> worker == Running(target)
      ensures raised.Some? ==> worker.Unstarted?
      ensures old(worker).Unstarted? ==> raised == Some(RuntimeError) && worker == old(worker)
    {
      hide Step, Extends, StopsTakeEffect;
      raised, ss, es := ReplaceWorker(target, states, events, before, done);
      if raised.Some? {
        return;
      }
      ghost var ss0, es0 := ss, es;
      ExtendsPath(states, events, ss, es);
      ss, es := Interleave(ss, es, Launching, target);
      ExtendsMore(states, events, ss0, es0, ss, es);
      ExtendsPath(states, events, ss, es);
      raised := hardware.Call(Launching, target);
      if raised.Some? {
        ss, es := LaunchRaised(target, hardware.world, states, events, ss, es);
      } else {
        worker := Running(target);
      }
    }

    /** The state of the machine right before the start of the worker is recorded. */
    function Launched(target: nat): State
      reads this, hardware
    {
      At(Launching, target).(worker := Unstarted(target))
    }

    /** The calls of an activation, one after the other; a cold start skips the first two. */
    method ActivateHardware(generation: nat, coldStart: bool, ghost states: seq<State>, ghost events: seq<Event>)
      returns (raised: Option<Raised>, ghost ss: seq<State>, ghost es: seq<Event>)
      requires Path(states, events)
      requires states[|states| - 1] == At(if coldStart then Writing else Unbinding, generation)
      modifies this`compiled, this`nextGeneration, this`worker, hardware
      ensures Extends(ss, es, states, events) && old(compiled) <= compiled
      ensures coldStart && StopsTakeEffect(states, events) ==> StopsTakeEffect(ss, es)
      ensures ss[|ss| - 1] == if raised.None? then Launched(generation) else At(Idle, generation)
      ensures raised.None? ==> worker == Running(generation)
    {
      hide Step, Extends, MayLeave, StopsTakeEffect;
      ExtendsSelf(states, events);
      ss, es := states, events;
      raised := None;
      if !coldStart {
        raised, ss, es := Perform(Unbinding, generation, states, events, ss, es);
        if raised.Some? {
          return;
        }
        raised, ss, es := Perform(Stopping, generation, states, events, ss, es);
        if raised.Some? {
          return;
        }
      }
      raised, ss, es := Perform(Writing, generation, states, events, ss, es);
      if raised.Some? {
        return;
      }
      raised, ss, es := Perform(Starting, generation, states, events, ss, es);
      if raised.Some? {
        return;
      }
      raised, ss, es := Perform(Connecting, generation, states, events, ss, es);
      if raised.Some? {
        return;
      }
      raised, ss, es := Perform(Binding, generation, states, events, ss, es);
      if raised.Some? {
        return;
      }
      raised, ss, es := StartPrefetch(generation, states, events, ss, es);
    }

    /** Activates a compiled generation. On Linux the steps taken lead from the old state of the machine to the new
        one; elsewhere no hardware is touched. An activation that raises leaves the active generation alone. */
    method ActivateGeneration(generation: nat)
      returns (r: Result<nat, ActivateError>, ghost ss: seq<State>, ghost es: seq<Event>, ghost target: nat)
      modifies this`active, this`compiled, this`nextGeneration, this`status,
        this`reloadLocked, this`worker, hardware
      ensures reloadLocked == old(reloadLocked) && old(compiled) <= compiled
      ensures generation !in old(compiled) ==> r == Err(UnknownGeneration(generation)) && |es| == 0
      ensures generation in old(compiled) && reloadLocked ==> r == Err(AlreadyRunning) && |es| == 0
      ensures |es| == 0 ==> hardware.world == old(hardware.world) && worker == old(worker)
      ensures linux ==> Path(ss, es) && ss[0] == old(At(Idle, 0)) && ss[|ss| - 1] == At(Idle, target)
      ensures linux && old(Safe(At(Idle, 0))) && StopsTakeEffect(ss, es) ==> Safe(At(Idle, target))
      ensures linux && r.Ok? ==> worker == Running(generation)
      ensures linux && old(worker).Unstarted? ==> r.Err? && worker == old(worker)
      ensures !linux ==> |es| == 0
      ensures active == if r.Ok? then Some(generation) else old(active)
      ensures status == if r.Ok? then StatusRunning else old(status)
    {
      ss, es, target := [At(Idle, 0)], [], 0;
      if generation !in compiled {
        return Err(UnknownGeneration(generation)), ss, es, target;
      }
      if reloadLocked {
        return Err(AlreadyRunning), ss, es, target;
      }
      reloadLocked := true;
      var raised: Option<Raised> := None;
      if linux {
        raised, ss, es := SwitchTo(generation, ss, es);
        target := generation;
      }
      if raised.None? {
        active := Some(generation);
        status := StatusRunning;
        r := Ok(generation);
        if linux {
          ss, es := Recorded(generation, ss, es);
        }
      } else {
        r := Err(CallRaised(raised.value));
      }
      reloadLocked := false;
      if linux && old(Safe(At(Idle, 0))) && StopsTakeEffect(ss, es) {
        PathSafe(ss, es);
      }
      if linux && old(worker).Unstarted? {
        StuckForever(ss, es, 0, |es|);
      }
    }

    /** The hardware part of an activation that has taken the lock. */
    method SwitchTo(generation: nat, ghost states: seq<State>, ghost events: seq<Event>)
      returns (raised: Option<Raised>, ghost ss: seq<State>, ghost es: seq<Event>)
      requires generation in compiled
      requires |events| == 0 && states == [At(Idle, 0)]
      modifies this`compiled, this`nextGeneration, this`worker, hardware
      ensures Path(ss, es) && ss[0] == states[0] && |es| > 0 && old(compiled) <= compiled
      ensures ss[|ss| - 1] == if raised.None? then Launched(generation) else At(Idle, generation)
      ensures raised.None? ==> worker == Running(generation)
    {
      ghost var t := At(Unbinding, generation);
      PathStep(states, events, Activate(generation), t);
      ghost var ss0, es0 := states + [t], events + [Activate(generation)];
      hide Step, Extends;
      ExtendsPath(states, events, ss0, es0);
      raised, ss, es := ActivateHardware(generation, false, ss0, es0);
      ExtendsPath(ss0, es0, ss, es);
      ExtendsLength(ss0, es0, ss, es);
    }

    /** Loads, compiles and activates the first configuration. What is raised on the way leaves the service degraded,
        or leaves the start itself when it is none of the exceptions caught there. */
    method Startup(loaded: Result<Request, Raised>)
      returns (escaped: Option<Raised>, ghost ss: seq<State>, ghost es: seq<Event>, ghost target: nat)
      requires At(Booting, 0) == Fresh(hardware.world)
      modifies this`active, this`compiled, this`nextGeneration, this`status, this`worker, hardware
      ensures linux ==> Run(old(hardware.world), ss, es) && ss[|ss| - 1] == At(Idle, target)
      ensures linux && StartSafe(old(hardware.world)) ==> Safe(At(Idle, target))
      ensures !linux ==> hardware.world == old(hardware.world)
      ensures active == if escaped.None? && status == StatusRunning then Some(1) else None
      ensures escaped.None? ==> status in {StatusRunning, StatusDegraded}
      ensures escaped.Some? ==> escaped.value == OtherError && status == old(status)
      ensures FirstProblem(loaded, linux).Some? ==>
        var e := FirstProblem(loaded, linux).value;
        if e == OtherError then escaped == Some(e) else escaped == None && status == StatusDegraded
    {
      ghost var w := hardware.world;
      ss, es, target := [At(Booting, 0)], [], 0;
      var raised: Option<Raised>;
      raised, ss, es, target := FirstActivation(loaded, ss, es);
      if raised.None? {
        active := Some(1);
        status := StatusRunning;
        escaped := None;
        if linux {
          ss, es := Recorded(target, ss, es);
        }
      } else if Handled(raised.value) {
        status := StatusDegraded;
        escaped := None;
      } else {
        escaped := raised;
      }
      if linux && StartSafe(w) {
        FreshSafe(w);
        PathSafe(ss, es);
      }
    }

    /** What the start tries: the configuration, its compilation, the hardware. */
    method FirstActivation(loaded: Result<Request, Raised>, ghost states: seq<State>, ghost events: seq<Event>)
      returns (raised: Option<Raised>, ghost ss: seq<State>, ghost es: seq<Event>, ghost target: nat)
      requires At(Booting, 0) == Fresh(hardware.world) && |events| == 0 && states == [At(Booting, 0)]
      modifies this`compiled, this`nextGeneration, this`worker, hardware
      ensures FirstProblem(loaded, linux).Some? ==> raised == FirstProblem(loaded, linux)
      ensures raised.None? ==> target == 1
      ensures linux ==> Path(ss, es) && ss[0] == states[0]
      ensures linux ==> StopsTakeEffect(ss, es)
      ensures linux ==> ss[|ss| - 1] == if raised.None? then Launched(target) else At(Idle, target)
      ensures linux && raised.None? ==> worker == Running(target)
      ensures !linux ==> hardware.world == old(hardware.world)
    {
      ss, es, target, raised := states, events, 0, None;
      if loaded.Ok? {
        var generation := Compile(loaded.value);
        if generation.Ok? {
          target := generation.value;
          if linux {
            ghost var t := At(Writing, target);
            PathStep(states, events, Event.Compile, t);
            StopsStep(states, events, Event.Compile, t);
            ghost var ss0, es0 := states + [t], events + [Event.Compile];
            ExtendsPath(states, events, ss0, es0);
            raised, ss, es := ActivateHardware(generation.value, true, ss0, es0);
            ExtendsPath(ss0, es0, ss, es);
          }
          return;
        }
        raised := Some(generation.error);
      } else {
        raised := Some(loaded.error);
      }
      PathStep(states, events, CompileRaises, At(Idle, 0));
      StopsStep(states, events, CompileRaises, At(Idle, 0));
      ss, es := states + [At(Idle, 0)], events + [CompileRaises];
    }
  }

  /** What raises before any hardware is touched. */
  function FirstProblem(loaded: Result<Request, Raised>, linux: bool): Option<Raised> {
    match loaded
    case Err(e) => Some(e)
    case Ok(request) => Problem(request, linux)
  }

  lemma FreshSafe(w: World)
    requires StartSafe(w)
    ensures Safe(Fresh(w))
  {
  }

  lemma ExtendsLength(before: seq<State>, done: seq<Event>, states: seq<State>, events: seq<Event>)
    requires Extends(states, events, before, done)
    ensures |events| >= |done|
  {
  }

  /** The last step of an activation whose worker cannot be started. */
  ghost method LaunchRaised(target: nat, after: World, a: seq<State>, d: seq<Event>, states: seq<State>,
          events: seq<Event>)
    returns (ss: seq<State>, es: seq<Event>)
    requires Extends(states, events, a, d) && |states| > 0 && states[|states| - 1].phase == Launching
    requires MayLeave(Launching, states[|states| - 1].world, after)
    ensures Extends(ss, es, a, d) && |ss| > 0
    ensures ss[|ss| - 1] == states[|states| - 1].(phase := Idle, world := after)
    ensures StopsTakeEffect(states, events) ==> StopsTakeEffect(ss, es)
  {
    var e, t := CallRaises(after), states[|states| - 1].(phase := Idle, world := after);
    ExtendsStep(a, d, states, events, e, t);
    StopsStep(states, events, e, t);
    ss, es := states + [t], events + [e];
  }

  /** The last step of an activation: the worker has started, and the generation becomes active. */
  ghost method Recorded(generation: nat, states: seq<State>, events: seq<Event>)
    returns (ss: seq<State>, es: seq<Event>)
    requires Path(states, events)
    requires states[|states| - 1].phase == Launching && states[|states| - 1].target == generation
    ensures Path(ss, es) && ss[0] == states[0] && |es| > 0
    ensures StopsTakeEffect(states, events) ==> StopsTakeEffect(ss, es)
    ensures ss[|ss| - 1]
      == states[|states| - 1].(phase := Idle, worker := Running(generation), active := Some(generation))
  {
    var last := states[|states| - 1];
    var t := last.(phase := Idle, worker := Running(generation), active := Some(generation));
    PathStep(states, events, CallReturns(last.world), t);
    StopsStep(states, events, CallReturns(last.world), t);
    ss, es := states + [t], events + [CallReturns(last.world)];
  }
}
