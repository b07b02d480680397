/** The activation cutover as a step machine: hardware calls that succeed or raise, with ejects in between. */
module Cutover {
  import opened Wrappers

  /** What the managers have done so far. A generation stands for the mapper state that it writes. */
  datatype World = World(
    written: Option<nat>,
    server: Option<nat>,
    client: Option<nat>,
    bound: bool)

  /** The next call of an activation; `Booting` is the start of the service, `Idle` no activation. In `Prefetching`
      the old prefetch worker is replaced, in `Launching` the new one is started. */
  datatype Phase =
    | Booting | Idle | Unbinding | Stopping | Writing | Starting | Connecting | Binding | Prefetching | Launching

  /** The prefetch worker that is recorded: it is recorded before it is started. */
  datatype Worker = NoWorker | Unstarted(generation: nat) | Running(generation: nat)

  datatype State = State(
    world: World,
    active: Option<nat>,
    compiled: set<nat>,
    nextGeneration: nat,
    worker: Worker,
    phase: Phase,
    target: nat)

  datatype Event =
    | Compile
    | CompileRaises
    | Activate(generation: nat)
    | ActivateRaises(generation: nat)
    | CallReturns(outcome: World)
    | CallRaises(after: World)
    | EjectUnbinds
    | EjectRaises(ejected: World)

  /** The service as its process starts, over whatever earlier processes left behind. */
  function Fresh(w: World): State {
    State(w, None, {}, 1, NoWorker, Booting, 0)
  }

  /** Starting the unit again while it runs changes nothing. */
  function Started(w: World): World {
    if w.server.Some? then w else w.(server := w.written)
  }

  /** Another process can only be connected to when it listens. */
  predicate CanReturn(phase: Phase, w: World) {
    phase == Connecting ==> w.server.Some?
  }

  /** The effect of a manager call. */
  function AfterCall(phase: Phase, w: World, target: nat): World {
    match phase
    case Unbinding => w.(bound := false)
    case Stopping => w.(client := None, server := None)
    case Writing => w.(written := Some(target))
    case Starting => Started(w)
    case Connecting => w.(client := w.server)
    case Binding => w.(bound := true)
    case _ => w
  }

  /** Disconnecting and stopping check no outcome and do not wait: each may have no effect. */
  predicate MayStop(before: World, after: World) {
    && after.client in {before.client, None} && after.server in {before.server, None}
    && after == before.(client := after.client, server := after.server)
  }

  /** What a manager call that returns can leave behind: its effect, or less where the call does not check. A start
      waits for a socket only, which may be that of a server that is gone. */
  predicate MayReturn(phase: Phase, before: World, after: World, target: nat) {
    && CanReturn(phase, before)
    && (|| after == AfterCall(phase, before, target)
        || (phase == Stopping && MayStop(before, after))
        || (phase == Starting && after == before))
  }

  /** What a manager call that raises can leave behind: nothing, or a part of its effect. */
  predicate MayLeave(phase: Phase, before: World, after: World) {
    || after == before
    || (phase in {Unbinding, Binding} && after == before.(bound := false))
    || (phase == Stopping && MayStop(before, after))
    || (phase == Starting && after == Started(before))
    || (phase == Connecting && after == before.(client := before.server))
  }

  function NextPhase(phase: Phase): Phase {
    match phase
    case Unbinding => Stopping
    case Stopping => Writing
    case Writing => Starting
    case Starting => Connecting
    case Connecting => Binding
    case Binding => Prefetching
    case Prefetching => Launching
    case _ => Idle
  }

  function WithCompiled(s: State): State {
    s.(compiled := s.compiled + {s.nextGeneration}, nextGeneration := s.nextGeneration + 1)
  }

  /** The worker that is recorded after a call that returns. */
  function NextWorker(s: State): Worker {
    match s.phase
    case Prefetching => Unstarted(s.target)
    case Launching => Running(s.target)
    case _ => s.worker
  }

  /** Stopping a worker that was never started raises. */
  predicate CanStopWorker(s: State) {
    !s.worker.Unstarted?
  }

  /** One atomic step. */
  predicate Step(s: State, e: Event, t: State) {
    match e
    case Compile =>
      // The first compilation belongs to the start of the service, which goes on with a cold activation.
      t ==
        if s.phase == Booting then WithCompiled(s).(phase := Writing, target := s.nextGeneration) else WithCompiled(s)
    case CompileRaises =>
      t == if s.phase == Booting then s.(phase := Idle) else s
    case Activate(generation) =>
      s.phase == Idle && generation in s.compiled && t == s.(phase := Unbinding, target := generation)
    case ActivateRaises(generation) =>
      (generation !in s.compiled || s.phase != Idle) && t == s
    case CallReturns(outcome) =>
      && s.phase !in {Booting, Idle} && MayReturn(s.phase, s.world, outcome, s.target)
      && (s.phase == Prefetching ==> CanStopWorker(s))
      && t == s.(world := outcome, phase := NextPhase(s.phase), worker := NextWorker(s),
                 active := if s.phase == Launching then Some(s.target) else s.active)
    case CallRaises(after) =>
      && s.phase !in {Booting, Idle} && MayLeave(s.phase, s.world, after)
      && (s.phase == Prefetching ==> !CanStopWorker(s))
      && t == s.(world := after, phase := Idle)
    case EjectUnbinds =>
      CanStopWorker(s) && t == s.(world := s.world.(bound := false), worker := NoWorker)
    case EjectRaises(ejected) =>
      if CanStopWorker(s) then MayLeave(Unbinding, s.world, ejected) && t == s.(world := ejected, worker := NoWorker)
      else t == s && ejected == s.world
  }

  predicate Path(states: seq<State>, events: seq<Event>) {
    && |states| == |events| + 1
    && forall i :: 0 <= i < |events| ==> Step(states[i], events[i], states[i + 1])
  }

  /** A run of one service process, from its start over the given world on. */
  predicate Run(w: World, states: seq<State>, events: seq<Event>) {
    Path(states, events) && states[0] == Fresh(w)
  }

  // Generations.

  ghost predicate GenerationsRight(s: State) {
    && s.nextGeneration >= 1
    && (forall g: nat :: g in s.compiled <==> 1 <= g < s.nextGeneration)
    && (s.active.Some? ==> s.active.value in s.compiled)
    && (s.phase !in {Booting, Idle} ==> s.target in s.compiled)
    && (s.phase == Booting ==> s.nextGeneration == 1)
  }

  /** Along every run, from any start, the active generation is a compiled one. */
  lemma {:induction false} GenerationsOnRun(w: World, states: seq<State>, events: seq<Event>)
    requires Run(w, states, events)
    ensures forall i :: 0 <= i < |states| ==> GenerationsRight(states[i])
    decreases |events|
  {
    if events != [] {
      var n := |events|;
      GenerationsOnRun(w, states[..n], events[..n - 1]);
      assert states[..n][n - 1] == states[n - 1];
      assert Step(states[n - 1], events[n - 1], states[n]);
    }
  }

  /** Generation ids strictly increase: a later compilation gets a larger id than any earlier one. */
  lemma {:induction false} IdsIncrease(w: World, states: seq<State>, events: seq<Event>, i: nat, j: nat)
    requires Run(w, states, events) && i < j < |events| && events[i] == Compile && events[j] == Compile
    ensures states[i].nextGeneration < states[j].nextGeneration
    ensures states[i].nextGeneration in states[j].compiled && states[j].nextGeneration !in states[j].compiled
  {
    GenerationsOnRun(w, states, events);
    assert Step(states[i], events[i], states[i + 1]);
    NextGrows(states, events, i + 1, j);
  }

  lemma {:induction false} NextGrows(states: seq<State>, events: seq<Event>, i: nat, j: nat)
    requires Path(states, events) && i <= j < |states|
    ensures states[i].nextGeneration <= states[j].nextGeneration
    decreases j - i
  {
    if i < j {
      assert Step(states[i], events[i], states[i + 1]);
      NextGrows(states, events, i + 1, j);
    }
  }

  /** An activation that raises leaves `active` as it was when the activation began. */
  lemma {:induction false} RaisingKeepsActive(states: seq<State>, events: seq<Event>, i: nat, j: nat)
    requires Path(states, events) && i <= j < |events| && events[j].CallRaises?
    requires forall k :: i <= k <= j ==> states[k].phase != Idle
    ensures states[j + 1].active == states[i].active
    decreases j - i
  {
    assert Step(states[i], events[i], states[i + 1]);
    if i < j {
      assert states[i + 1].phase != Idle;
      RaisingKeepsActive(states, events, i + 1, j);
    }
  }

  // Safety.

  /** The gadget is bound only while the client is connected to a server that was started on the state
      file last written. */
  predicate BoundIsServed(w: World) {
    w.bound ==> w.client.Some? && w.client == w.server && w.client == w.written
  }

  predicate Connected(w: World, target: nat) {
    w.client == w.server == w.written == Some(target)
  }

  /** No server runs that would go on serving another state than `target`. */
  predicate ServerFree(w: World, target: nat) {
    w.server.None? || w.server == Some(target)
  }

  /** What a service process must find for its first activation, of generation 1, to be safe. */
  predicate StartSafe(w: World) {
    ServerFree(w, 1) && (w.bound ==> Connected(w, 1))
  }

  predicate PhaseRight(s: State) {
    match s.phase
    case Booting => StartSafe(s.world)
    case Stopping => !s.world.bound
    case Writing => ServerFree(s.world, s.target) && (s.world.bound ==> Connected(s.world, s.target))
    case Starting => ServerFree(s.world, s.target) && s.world.written == Some(s.target)
    case Connecting => ServerFree(s.world, s.target) && s.world.written == Some(s.target)
    case Binding => Connected(s.world, s.target)
    case Prefetching => Connected(s.world, s.target)
    case Launching => Connected(s.world, s.target)
    case _ => true
  }

  ghost predicate Safe(s: State) {
    BoundIsServed(s.world) && PhaseRight(s) && GenerationsRight(s)
  }

  /** A stop returns while a server of another state than the one about to be written goes on running. */
  predicate LeavesServer(s: State, e: Event) {
    e.CallReturns? && s.phase == Stopping && !ServerFree(e.outcome, s.target)
  }

  predicate StopsTakeEffect(states: seq<State>, events: seq<Event>) {
    |states| == |events| + 1 && forall i :: 0 <= i < |events| ==> !LeavesServer(states[i], events[i])
  }

  lemma StepSafe(s: State, e: Event, t: State)
    requires Safe(s) && Step(s, e, t) && !LeavesServer(s, e)
    ensures Safe(t)
  {
  }

  /** From a safe start every reachable state is safe, whatever raises and however ejects interleave, as long as
      stops take effect. */
  lemma {:induction false} RunSafe(w: World, states: seq<State>, events: seq<Event>)
    requires StartSafe(w) && Run(w, states, events) && StopsTakeEffect(states, events)
    ensures forall i :: 0 <= i < |states| ==> Safe(states[i])
    decreases |events|
  {
    if events != [] {
      var n := |events|;
      RunSafe(w, states[..n], events[..n - 1]);
      assert states[..n][n - 1] == states[n - 1];
      assert Step(states[n - 1], events[n - 1], states[n]);
      StepSafe(states[n - 1], events[n - 1], states[n]);
    }
  }

  /** Along the whole run the gadget is bound only to the state last written. */
  predicate AlwaysServed(states: seq<State>) {
    forall i :: 0 <= i < |states| ==> BoundIsServed(states[i].world)
  }

  /** Which starts are safe: on every run over the world `w` whose stops take effect, the gadget is bound only to the
      state last written, if and only if no server is left behind, or it serves the state about to be written, and the
      gadget is unbound or connected to that very state. */
  lemma BoundIsServedIff(w: World)
    ensures (forall states, events :: Run(w, states, events) && StopsTakeEffect(states, events) ==>
        AlwaysServed(states))
      <==> StartSafe(w)
  {
    if StartSafe(w) {
      forall states, events | Run(w, states, events) && StopsTakeEffect(states, events) ensures AlwaysServed(states) {
        RunSafe(w, states, events);
      }
    } else {
      LeftoverServerIsServed(w);
    }
  }

  // Runs on which stops may fail.

  /** The gadget is bound, successfully, over a server of another generation than the one being activated. */
  predicate BindsOther(s: State, e: Event) {
    e.CallReturns? && s.phase == Binding && s.world.server != Some(s.target)
  }

  predicate NeverBindsOther(states: seq<State>, events: seq<Event>) {
    |states| == |events| + 1 && forall i :: 0 <= i < |events| ==> !BindsOther(states[i], events[i])
  }

  /** What holds of a phase whatever server is left running. */
  predicate PhaseSound(s: State) {
    match s.phase
    case Booting => s.world.bound ==> Connected(s.world, 1)
    case Stopping => !s.world.bound
    case Writing => s.world.bound ==> Connected(s.world, s.target)
    case Starting => s.world.written == Some(s.target)
    case Connecting => s.world.written == Some(s.target)
    case Binding => s.world.written == Some(s.target) && s.world.client.Some? && s.world.client == s.world.server
    case _ => true
  }

  ghost predicate Sound(s: State) {
    BoundIsServed(s.world) && PhaseSound(s) && GenerationsRight(s)
  }

  lemma StepSound(s: State, e: Event, t: State)
    requires Sound(s) && Step(s, e, t)
    ensures BoundIsServed(t.world) <==> !BindsOther(s, e)
    ensures Sound(t) <==> !BindsOther(s, e)
  {
  }

  lemma FreshSound(w: World)
    requires w.bound ==> Connected(w, 1)
    ensures Sound(Fresh(w)) && BoundIsServed(w)
  {
  }

  lemma {:induction false} SoundUpTo(w: World, states: seq<State>, events: seq<Event>)
    requires w.bound ==> Connected(w, 1)
    requires Run(w, states, events) && NeverBindsOther(states, events)
    ensures AlwaysServed(states) && Sound(states[|events|])
    decreases |events|
  {
    hide Step, Sound, BindsOther, BoundIsServed;
    FreshSound(w);
    if events != [] {
      var n := |events|;
      SoundUpTo(w, states[..n], events[..n - 1]);
      assert states[..n][n - 1] == states[n - 1];
      assert Step(states[n - 1], events[n - 1], states[n]);
      StepSound(states[n - 1], events[n - 1], states[n]);
    }
  }

  /** Along any run over a gadget that is unbound or connected properly, whatever server is left behind and whatever
      stops do: the gadget is bound only to the state last written, exactly when no bind succeeds over a server of
      another generation. */
  lemma ServedOnRunIff(w: World, states: seq<State>, events: seq<Event>)
    requires w.bound ==> Connected(w, 1)
    requires Run(w, states, events)
    ensures AlwaysServed(states) <==> NeverBindsOther(states, events)
  {
    if NeverBindsOther(states, events) {
      SoundUpTo(w, states, events);
    } else {
      var i := FirstBindsOther(states, events);
      assert Run(w, states[..i + 1], events[..i]);
      SoundUpTo(w, states[..i + 1], events[..i]);
      assert states[..i + 1][i] == states[i];
      assert Step(states[i], events[i], states[i + 1]);
      StepSound(states[i], events[i], states[i + 1]);
    }
  }

  lemma {:induction false} FirstBindsOther(states: seq<State>, events: seq<Event>) returns (i: nat)
    requires |states| == |events| + 1 && !NeverBindsOther(states, events)
    ensures i < |events| && BindsOther(states[i], events[i]) && NeverBindsOther(states[..i + 1], events[..i])
    decreases |events|
  {
    var n := |events|;
    if NeverBindsOther(states[..n], events[..n - 1]) {
      i := n - 1;
      assert forall k :: 0 <= k < n - 1 ==> !BindsOther(states[..n][k], events[..n - 1][k]);
    } else {
      i := FirstBindsOther(states[..n], events[..n - 1]);
      assert states[..n][..i + 1] == states[..i + 1] && events[..n - 1][..i] == events[..i];
    }
  }

  // What is served against what is recorded as active.

  /** Outside of an activation, what the console sees is what the service reports. */
  predicate ActiveIsServed(s: State) {
    s.phase == Idle && s.world.bound ==> s.world.client == s.active
  }

  /** A call raises and leaves the gadget bound to a generation that is not recorded as active: the start of the
      prefetch, or any call of a cold start over a gadget that is still bound. */
  predicate Unrecorded(s: State, e: Event) {
    match e
    case CompileRaises => s.phase == Booting && s.world.bound
    case CallRaises(after) => s.phase != Unbinding && after.bound && Some(s.target) != s.active
    case _ => false
  }

  predicate NeverUnrecorded(states: seq<State>, events: seq<Event>) {
    |states| == |events| + 1 && forall i :: 0 <= i < |events| ==> !Unrecorded(states[i], events[i])
  }

  predicate AlwaysActive(states: seq<State>) {
    forall i :: 0 <= i < |states| ==> ActiveIsServed(states[i])
  }

  /** The cold start is the first thing that happens: until it is over nothing is active. */
  predicate BootRight(s: State) {
    && (s.phase == Booting ==> s.active == None)
    && (s.phase == Unbinding && s.world.bound ==> s.world.client == s.active)
  }

  lemma StepServes(s: State, e: Event, t: State)
    requires Safe(s) && ActiveIsServed(s) && BootRight(s) && Step(s, e, t)
    ensures ActiveIsServed(t) <==> !Unrecorded(s, e)
    ensures !Unrecorded(s, e) ==> BootRight(t)
  {
  }

  lemma {:induction false} ServedUpTo(w: World, states: seq<State>, events: seq<Event>)
    requires StartSafe(w) && Run(w, states, events)
    requires StopsTakeEffect(states, events) && NeverUnrecorded(states, events)
    ensures AlwaysActive(states) && BootRight(states[|events|])
    decreases |events|
  {
    if events != [] {
      var n := |events|;
      ServedUpTo(w, states[..n], events[..n - 1]);
      assert states[..n][n - 1] == states[n - 1];
      RunSafe(w, states, events);
      assert Step(states[n - 1], events[n - 1], states[n]);
      StepServes(states[n - 1], events[n - 1], states[n]);
    }
  }

  lemma {:induction false} BootOnRun(w: World, states: seq<State>, events: seq<Event>)
    requires Run(w, states, events)
    ensures forall i :: 0 <= i < |states| && states[i].phase == Booting ==> states[i].active == None
    decreases |events|
  {
    if events != [] {
      var n := |events|;
      BootOnRun(w, states[..n], events[..n - 1]);
      assert states[..n][n - 1] == states[n - 1];
      assert Step(states[n - 1], events[n - 1], states[n]);
    }
  }

  /** Along a run from a safe start whose stops take effect, the active generation is always the served one, exactly
      when no call raises over a gadget that is bound to a generation not yet active. */
  lemma ActiveOnRunIff(w: World, states: seq<State>, events: seq<Event>)
    requires StartSafe(w) && Run(w, states, events) && StopsTakeEffect(states, events)
    ensures AlwaysActive(states) <==> NeverUnrecorded(states, events)
  {
    RunSafe(w, states, events);
    BootOnRun(w, states, events);
    if NeverUnrecorded(states, events) {
      ServedUpTo(w, states, events);
    } else {
      var i :| 0 <= i < |events| && Unrecorded(states[i], events[i]);
      assert Step(states[i], events[i], states[i + 1]);
      assert !ActiveIsServed(states[i + 1]);
    }
  }

  /** For every start in which the gadget is bound only to the state last written: that equivalence holds on all
      runs whose stops take effect, if and only if no server is left behind that serves another state. */
  lemma ActiveIsServedIff(w: World)
    requires BoundIsServed(w)
    ensures (forall states, events :: Run(w, states, events) && StopsTakeEffect(states, events) ==>
        (AlwaysActive(states) <==> NeverUnrecorded(states, events)))
      <==> ServerFree(w, 1)
  {
    if ServerFree(w, 1) {
      forall states, events | Run(w, states, events) && StopsTakeEffect(states, events)
        ensures AlwaysActive(states) <==> NeverUnrecorded(states, events)
      {
        ActiveOnRunIff(w, states, events);
      }
    } else {
      LeftoverIsReported(w);
    }
  }

  // The prefetch worker.

  /** A worker that did not start stays recorded, and nobody is about to start it. */
  predicate Stuck(s: State) {
    s.worker.Unstarted? && s.phase != Launching
  }

  /** The start of a worker raises. */
  predicate LaunchRaises(s: State, e: Event) {
    s.phase == Launching && e.CallRaises?
  }

  predicate Launches(s: State) {
    s.phase == Launching ==> s.worker == Unstarted(s.target)
  }

  lemma StepStuck(s: State, e: Event, t: State)
    requires Launches(s) && Step(s, e, t)
    ensures Launches(t)
    ensures Stuck(t) <==> Stuck(s) || LaunchRaises(s, e)
  {
  }

  /** Along every run a worker is stuck exactly when the start of one has raised before. */
  lemma {:induction false} StuckOnRunIff(w: World, states: seq<State>, events: seq<Event>, j: nat)
    requires Run(w, states, events) && j < |states|
    ensures Launches(states[j])
    ensures Stuck(states[j]) <==> exists i :: 0 <= i < j && LaunchRaises(states[i], events[i])
    decreases j
  {
    if j > 0 {
      StuckOnRunIff(w, states, events, j - 1);
      assert Step(states[j - 1], events[j - 1], states[j]);
      StepStuck(states[j - 1], events[j - 1], states[j]);
    }
  }

  /** From then on no eject unbinds the gadget, and no activation ends well: the worker and the active generation stay
      what they are for the rest of the run. */
  lemma {:induction false} StuckForever(states: seq<State>, events: seq<Event>, i: nat, j: nat)
    requires Path(states, events) && i <= j < |states| && Stuck(states[i])
    ensures Stuck(states[j])
    ensures states[j].worker == states[i].worker && states[j].active == states[i].active
    ensures forall k :: i <= k < j ==> events[k] != EjectUnbinds
    decreases j - i
  {
    if i < j {
      assert Step(states[i], events[i], states[i + 1]);
      StuckForever(states, events, i + 1, j);
    }
  }

  /** Along every run an eject can unbind the gadget exactly when no start of a worker has raised before and none is
      about to be made. */
  lemma EjectUnbindsIff(w: World, states: seq<State>, events: seq<Event>, j: nat)
    requires Run(w, states, events) && j < |states|
    ensures (exists t: State :: Step(states[j], EjectUnbinds, t)) <==>
      states[j].phase != Launching && !exists i :: 0 <= i < j && LaunchRaises(states[i], events[i])
  {
    StuckOnRunIff(w, states, events, j);
    var s := states[j];
    if CanStopWorker(s) {
      assert Step(s, EjectUnbinds, s.(world := s.world.(bound := false), worker := NoWorker));
    }
  }

  // Runs that show what the guarantees need.

  /** The state after a call that has its full effect. */
  function FullEffect(s: State): State {
    s.(world := AfterCall(s.phase, s.world, s.target), phase := NextPhase(s.phase), worker := NextWorker(s),
       active := if s.phase == Launching then Some(s.target) else s.active)
  }

  /** The calls that follow one another, all with their full effect. */
  function Effects(states: seq<State>): (events: seq<Event>)
    ensures |events| == |states|
    ensures forall i :: 0 <= i < |events| ==> events[i] == CallReturns(states[i].world)
  {
    seq(|states|, i requires 0 <= i < |states| => CallReturns(states[i].world))
  }

  lemma FullStep(s: State)
    requires s.phase !in {Booting, Idle} && CanReturn(s.phase, s.world) && (s.phase == Prefetching ==> CanStopWorker(s))
    ensures var e, t := CallReturns(FullEffect(s).world), FullEffect(s);
      Step(s, e, t) && (s.phase != Stopping ==> !LeavesServer(s, e)) && !Unrecorded(s, e)
  {
  }

  /** The start of the service up to the bound gadget, over a given world. */
  function ColdStates(w: World): seq<State> {
    var s0 := Fresh(w);
    var s1 := WithCompiled(s0).(phase := Writing, target := 1);
    var s2 := FullEffect(s1);
    var s3 := FullEffect(s2);
    var s4 := FullEffect(s3);
    var s5 := FullEffect(s4);
    var s6 := FullEffect(s5);
    [s0, s1, s2, s3, s4, s5, s6, FullEffect(s6)]
  }

  function ColdEvents(w: World): seq<Event> {
    [Compile] + Effects(ColdStates(w)[2..])
  }

  lemma ColdStep(w: World, i: nat)
    requires i < 7
    ensures var s, e := ColdStates(w)[i], ColdEvents(w)[i];
      Step(s, e, ColdStates(w)[i + 1]) && !LeavesServer(s, e) && !Unrecorded(s, e)
  {
    var s := ColdStates(w)[i];
    if i > 0 {
      assert s.phase == [Writing, Starting, Connecting, Binding, Prefetching, Launching][i - 1];
      hide Step, LeavesServer, Unrecorded;
      FullStep(s);
    }
  }

  /** A cold start can always go through: a server runs by the time the client connects. */
  lemma ColdPath(w: World)
    ensures var states, events := ColdStates(w), ColdEvents(w);
      Run(w, states, events) && StopsTakeEffect(states, events) && NeverUnrecorded(states, events)
  {
    hide Step, LeavesServer, Unrecorded, FullEffect;
    var states, events := ColdStates(w), ColdEvents(w);
    forall i | 0 <= i < 7
      ensures Step(states[i], events[i], states[i + 1])
      ensures !LeavesServer(states[i], events[i]) && !Unrecorded(states[i], events[i])
    {
      ColdStep(w, i);
    }
  }

  /** A cold start does not stop a server: over one left behind that serves another state, or over a gadget bound
      to another state, the gadget ends up bound to something else than the state last written. */
  lemma LeftoverServerIsServed(w: World)
    requires !StartSafe(w)
    ensures exists states, events ::
      Run(w, states, events) && StopsTakeEffect(states, events) && !AlwaysServed(states)
  {
    ColdPath(w);
    var states := ColdStates(w);
    if w.bound {
      assert !BoundIsServed(states[0].world) || !BoundIsServed(states[2].world);
    } else {
      assert !BoundIsServed(states[5].world);
    }
  }

  lemma LeftoverIsReported(w: World)
    requires !ServerFree(w, 1)
    ensures exists states, events ::
      Run(w, states, events) && StopsTakeEffect(states, events) && NeverUnrecorded(states, events)
      && !AlwaysActive(states)
  {
    ColdPath(w);
    assert !ActiveIsServed(ColdStates(w)[7]);
  }

  /** A cold start whose worker cannot be started. */
  function StuckStates(w: World): seq<State> {
    ColdStates(w)[..7] + [ColdStates(w)[6].(phase := Idle)]
  }

  function StuckEvents(w: World): seq<Event> {
    ColdEvents(w)[..6] + [CallRaises(ColdStates(w)[6].world)]
  }

  lemma StuckPath(w: World)
    ensures Run(w, StuckStates(w), StuckEvents(w)) && StopsTakeEffect(StuckStates(w), StuckEvents(w))
    ensures var s := StuckStates(w)[7]; Stuck(s) && s.world.bound && s.world.client.Some? && s.active == None
  {
    var cold, states, events := ColdStates(w), StuckStates(w), StuckEvents(w);
    ColdEnd(w);
    assert Step(states[6], events[6], states[7]);
    hide Step, LeavesServer, FullEffect;
    forall i | 0 <= i < 6 ensures Step(states[i], events[i], states[i + 1]) && !LeavesServer(states[i], events[i]) {
      ColdStep(w, i);
    }
  }

  lemma ColdEnd(w: World)
    ensures var s := ColdStates(w)[6];
      && s.phase == Launching && s.worker == Unstarted(1) && s.active == None
      && s.world == World(Some(1), Started(w.(written := Some(1))).server, s.world.server, true)
      && s.world.server.Some?
  {
  }

  /** A worker that cannot be started leaves the console with a generation that the service does not report, on a
      gadget that no eject unbinds any more. */
  lemma PrefetchRaisesUnrecorded(w: World)
    ensures exists states: seq<State>, events: seq<Event> ::
      && Run(w, states, events) && StopsTakeEffect(states, events)
      && !AlwaysActive(states) && Stuck(states[|events|]) && states[|events|].world.bound
  {
    StuckPath(w);
    assert !ActiveIsServed(StuckStates(w)[7]);
  }

  /** A second activation over a server that the stop leaves running, up to the bound gadget. */
  function StaleStates(s: State): seq<State> {
    var s1 := WithCompiled(s);
    var s2 := s1.(phase := Unbinding, target := s.nextGeneration);
    var s3 := FullEffect(s2);
    var s4 := s3.(world := s3.world.(client := None), phase := Writing);
    var s5 := FullEffect(s4);
    var s6 := FullEffect(s5);
    var s7 := FullEffect(s6);
    [s, s1, s2, s3, s4, s5, s6, s7, FullEffect(s7)]
  }

  function StaleEvents(s: State): seq<Event> {
    [Compile, Activate(s.nextGeneration)] + Effects(StaleStates(s)[3..])
  }

  lemma StaleStep(s: State, i: nat)
    requires s.phase == Idle && i < 8
    ensures Step(StaleStates(s)[i], StaleEvents(s)[i], StaleStates(s)[i + 1])
  {
    var x := StaleStates(s)[i];
    if i == 2 || i > 3 {
      assert x.phase == [Unbinding, Stopping, Writing, Starting, Connecting, Binding][i - 2];
      hide Step;
      FullStep(x);
    }
  }

  lemma StalePath(s: State)
    requires s.phase == Idle
    ensures Path(StaleStates(s), StaleEvents(s))
  {
    hide Step, FullEffect;
    forall i | 0 <= i < 8 ensures Step(StaleStates(s)[i], StaleEvents(s)[i], StaleStates(s)[i + 1]) {
      StaleStep(s, i);
    }
  }

  lemma PathsJoin(a: seq<State>, d: seq<Event>, b: seq<State>, e: seq<Event>)
    requires Path(a, d) && Path(b, e) && a[|d|] == b[0]
    ensures Path(a + b[1..], d + e)
  {
    var states, events := a + b[1..], d + e;
    forall i | 0 <= i < |events| ensures Step(states[i], events[i], states[i + 1]) {
      if i < |d| {
        assert Step(a[i], d[i], a[i + 1]);
      } else {
        assert Step(b[i - |d|], e[i - |d|], b[i - |d| + 1]);
      }
    }
  }

  /** From every start, safe ones included, a stop without effect can end in a gadget that is bound to another state
      than the one last written. */
  lemma LeftServerIsServed(w: World)
    ensures exists states, events :: Run(w, states, events) && !AlwaysServed(states)
  {
    if StartSafe(w) {
      ColdPath(w);
      var cold := ColdStates(w);
      StalePath(cold[7]);
      PathsJoin(cold, ColdEvents(w), StaleStates(cold[7]), StaleEvents(cold[7]));
      var states := cold + StaleStates(cold[7])[1..];
      assert Run(w, states, ColdEvents(w) + StaleEvents(cold[7]));
      assert states[15] == StaleStates(cold[7])[8];
      assert !BoundIsServed(states[15].world);
    } else {
      LeftoverServerIsServed(w);
    }
  }
}
