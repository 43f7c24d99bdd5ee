// The Xiaomi PTZ lease and command protocol as one interleaved state machine.
//
// Every mutex-protected block of ptz_connection.go is one atomic step, and so is every
// channel operation, every context check and every SetDirection call of ptz.go. Movement
// commands, stop requests, the connect goroutine and timer callbacks interleave freely.
module PtzProtocol {
  import opened Wrappers

  // c.epoch is a uint64: it is the number of acquires, modulo EPOCHS.
  const EPOCHS: nat := 0x1_0000_0000_0000_0000

  function Epoch(acquires: nat): nat {
    acquires % EPOCHS
  }

  // ---------- the camera's mutex-protected fields ----------

  // `ready` and `lease` name the generation (one connect) they belong to.
  datatype Camera = Camera(
    users: int, acquires: nat, ready: Option<nat>, lease: Option<nat>, failed: bool, timer: Option<nat>)

  // What one mutex-protected block leaves behind: the new fields and the lease it closed.
  datatype Turn = Turn(cam: Camera, closed: Option<nat>)

  const IDLE := Camera(0, 0, None, None, false, None)

  function ClearLocked(c: Camera): Turn {
    Turn(c.(lease := None, failed := false, ready := None, timer := None), c.lease)
  }

  function EnterCam(c: Camera, gen: nat): Camera {
    c.(users := c.users + 1, acquires := c.acquires + 1, timer := None,
       ready := if c.ready.None? then Some(gen) else c.ready)
  }

  // `outcome` is the lease that connect returned, or None for an error.
  function ConnectCam(c: Camera, outcome: Option<nat>): Turn {
    var done := c.(lease := outcome, failed := outcome.None?);
    if done.users == 0 then ClearLocked(done) else Turn(done, None)
  }

  predicate ArmsTimer(c: Camera, keep: bool, signalled: bool) {
    c.users == 1 && signalled && keep && !c.failed
  }

  function ReleaseCam(c: Camera, keep: bool, signalled: bool, timer: nat): Turn {
    var left := c.(users := c.users - 1);
    if left.users != 0 || !signalled then Turn(left, None)
    else if !keep || left.failed then ClearLocked(left)
    else Turn(left.(timer := Some(timer)), None)
  }

  // `stamp` is the value of `acquires` when the timer was armed.
  function CallbackCam(c: Camera, stamp: nat): Turn {
    if c.users == 0 && Epoch(c.acquires) == Epoch(stamp) then ClearLocked(c) else Turn(c, None)
  }

  // ---------- the whole system ----------

  // Where a movement command stands; `gen` is the generation whose ready channel it took.
  datatype Phase =
    | Registered
    | Admitted
    | Waiting(gen: nat)
    | Passed(gen: nat)
    | Failing(gen: nat)
    | Holding(gen: nat, work: Work)
    | Closing
    | Finished

  // What a command does between finding its controller and releasing the lease.
  datatype Work =
    | Got | Held | Entered | Backing | Owns | Looping | Sending | Pausing | Halting | Unlocking | Releasing

  // `cancelled` is its context, `registered` its membership of c.commands.
  datatype Proc = Proc(phase: Phase, op: nat, cancelled: bool, registered: bool)

  datatype StopPhase = Queued | StopEntered | StopBacking | StopOwns | StopUnlocking | StopFinished

  // `doomed` is history: the commands registered when this stop ran cancelCommands.
  // `won` is history: its lock call has succeeded.
  datatype Stop = Stop(phase: StopPhase, cancelled: bool, doomed: set<nat>, won: bool)

  // A keepalive timer; once fired, Stop can no longer hold its callback back.
  datatype Timer = Timer(stamp: nat, fired: bool)

  datatype Sent = Sent(op: nat)

  datatype Sys = Sys(
    cam: Camera,
    procs: map<nat, Proc>,
    stops: map<nat, Stop>,
    gate: bool,              // a token sits in the capacity-1 channel
    log: seq<Sent>,          // every SetDirection attempted
    dials: set<nat>,         // generations whose connect is running
    signals: set<nat>,       // ready channels closed
    leases: map<nat, nat>,   // every lease ever opened, and how often it was closed
    timers: map<nat, Timer>, // callbacks that may still run
    unused: nat,             // next unused channel or timer identity
    panicked: bool)          // close of a nil or closed channel

  const INIT := Sys(IDLE, map[], map[], false, [], {}, {}, map[], map[], 0, false)

  datatype Step =
    | Command(p: nat, op: nat)
    | Expire(p: nat)
    | Admit(p: nat)
    | Enter(p: nat)
    | Dialed(gen: nat, ok: bool)
    | Wake(p: nat)
    | Abandon(p: nat)
    | Inspect(p: nat, up: bool)
    | Confirm(p: nat)
    | Release(p: nat)
    | Fire(t: nat)
    | Callback(t: nat)
    | Push(p: nat)
    | Refuse(p: nat)
    | Check(p: nat)
    | Pop(p: nat)
    | Begin(p: nat)
    | Loop(p: nat)
    | Send(p: nat, ok: bool)
    | Pause(p: nat, again: bool)
    | Halt(p: nat)
    | Done(p: nat)
    | StopArrive(q: nat)
    | StopExpire(q: nat)
    | StopPush(q: nat)
    | StopRefuse(q: nat)
    | StopCheck(q: nat)
    | StopSend(q: nat, connected: bool)
    | StopPop(q: nat)

  // Counted in c.users.
  predicate Active(phase: Phase) {
    phase.Waiting? || phase.Passed? || phase.Failing? || phase.Holding?
  }

  // A token of this command sits in the gate.
  predicate InGate(phase: Phase) {
    phase.Holding? && phase.work !in {Got, Held, Releasing}
  }

  // The command may still send a movement without taking the gate again.
  predicate CanMove(phase: Phase) {
    phase.Holding? && phase.work in {Owns, Looping, Sending, Pausing}
  }

  // The deferred stop is still owed.
  predicate Moving(phase: Phase) {
    phase.Holding? && phase.work in {Looping, Sending, Pausing, Halting}
  }

  predicate Working(s: Sys, p: nat, work: Work) {
    p in s.procs && s.procs[p].phase.Holding? && s.procs[p].phase.work == work
  }

  predicate StopInGate(phase: StopPhase) {
    phase.StopEntered? || phase.StopBacking? || phase.StopOwns? || phase.StopUnlocking?
  }

  predicate Enabled(s: Sys, step: Step) {
    !s.panicked &&
    match step
    case Command(p, op) => p !in s.procs && op != 0
    case Expire(p) => p in s.procs
    case Admit(p) => p in s.procs && s.procs[p].phase.Registered?
    case Enter(p) => p in s.procs && s.procs[p].phase.Admitted?
    case Dialed(gen, ok) => gen in s.dials
    case Wake(p) => p in s.procs && s.procs[p].phase.Waiting? && s.procs[p].phase.gen in s.signals
    case Abandon(p) => p in s.procs && s.procs[p].phase.Waiting? && s.procs[p].cancelled
    case Inspect(p, up) => p in s.procs && s.procs[p].phase.Passed?
    case Confirm(p) => Working(s, p, Got)
    case Release(p) => Working(s, p, Releasing) || (p in s.procs && s.procs[p].phase.Failing?)
    case Fire(t) => t in s.timers
    case Callback(t) => t in s.timers && s.timers[t].fired
    case Push(p) => Working(s, p, Held) && !s.gate
    case Refuse(p) => Working(s, p, Held) && s.procs[p].cancelled
    case Check(p) => Working(s, p, Entered)
    case Pop(p) => (Working(s, p, Backing) || Working(s, p, Unlocking)) && s.gate
    case Begin(p) => Working(s, p, Owns)
    case Loop(p) => Working(s, p, Looping)
    case Send(p, ok) => Working(s, p, Sending)
    case Pause(p, again) => Working(s, p, Pausing)
    case Halt(p) => Working(s, p, Halting)
    case Done(p) => p in s.procs && s.procs[p].phase.Closing?
    case StopArrive(q) => q !in s.stops
    case StopExpire(q) => q in s.stops
    case StopPush(q) => q in s.stops && s.stops[q].phase.Queued? && !s.gate
    case StopRefuse(q) => q in s.stops && s.stops[q].phase.Queued? && s.stops[q].cancelled
    case StopCheck(q) => q in s.stops && s.stops[q].phase.StopEntered?
    case StopSend(q, connected) => q in s.stops && s.stops[q].phase.StopOwns?
    case StopPop(q) => q in s.stops && (s.stops[q].phase.StopBacking? || s.stops[q].phase.StopUnlocking?) && s.gate
  }

  // The command that a step advances.
  function Mover(step: Step): Option<nat> {
    match step
    case Command(p, _) => Some(p)
    case Expire(p) => Some(p)
    case Admit(p) => Some(p)
    case Enter(p) => Some(p)
    case Wake(p) => Some(p)
    case Abandon(p) => Some(p)
    case Inspect(p, _) => Some(p)
    case Confirm(p) => Some(p)
    case Release(p) => Some(p)
    case Push(p) => Some(p)
    case Refuse(p) => Some(p)
    case Check(p) => Some(p)
    case Pop(p) => Some(p)
    case Begin(p) => Some(p)
    case Loop(p) => Some(p)
    case Send(p, _) => Some(p)
    case Pause(p, _) => Some(p)
    case Halt(p) => Some(p)
    case Done(p) => Some(p)
    case _ => None
  }

  function Goto(s: Sys, p: nat, phase: Phase): Sys
    requires p in s.procs
  {
    s.(procs := s.procs[p := s.procs[p].(phase := phase)])
  }

  function Advance(s: Sys, p: nat, work: Work): Sys
    requires p in s.procs && s.procs[p].phase.Holding?
  {
    Goto(s, p, Holding(s.procs[p].phase.gen, work))
  }

  function StopGoto(s: Sys, q: nat, phase: StopPhase): Sys
    requires q in s.stops
  {
    s.(stops := s.stops[q := s.stops[q].(phase := phase)])
  }

  function CloseLease(leases: map<nat, nat>, closed: Option<nat>): map<nat, nat> {
    if closed.Some? && closed.value in leases then leases[closed.value := leases[closed.value] + 1] else leases
  }

  function CancelCommands(procs: map<nat, Proc>): map<nat, Proc> {
    map p | p in procs :: if procs[p].registered then procs[p].(cancelled := true) else procs[p]
  }

  function Dial(s: Sys, gen: nat, ok: bool): Sys {
    var dialed := s.(dials := s.dials - {gen}, leases := if ok then s.leases[gen := 0] else s.leases);
    if s.cam.ready.None? || s.cam.ready.value in s.signals then dialed.(panicked := true)
    else
      var turn := ConnectCam(s.cam, if ok then Some(gen) else None);
      dialed.(cam := turn.cam, signals := s.signals + {s.cam.ready.value},
              leases := CloseLease(dialed.leases, turn.closed))
  }

  function Leave(s: Sys, p: nat): Sys
    requires p in s.procs
  {
    var keep := s.procs[p].phase.Holding?;
    var signalled := s.cam.ready.Some? && s.cam.ready.value in s.signals;
    var turn := ReleaseCam(s.cam, keep, signalled, s.unused);
    var arms := ArmsTimer(s.cam, keep, signalled);
    Goto(s, p, Closing).(cam := turn.cam, leases := CloseLease(s.leases, turn.closed),
                         timers := if arms then s.timers[s.unused := Timer(s.cam.acquires, false)] else s.timers,
                         unused := if arms then s.unused + 1 else s.unused)
  }

  function Apply(s: Sys, step: Step): Sys
    requires Enabled(s, step)
  {
    match step
    case Command(p, op) => s.(procs := s.procs[p := Proc(Registered, op, false, true)])
    case Expire(p) => s.(procs := s.procs[p := s.procs[p].(cancelled := true)])
    case Admit(p) => Goto(s, p, if s.procs[p].cancelled then Closing else Admitted)
    case Enter(p) =>
      var cam := EnterCam(s.cam, s.unused);
      var dial := s.cam.ready.None?;
      var stopped := s.cam.timer.Some? && s.cam.timer.value in s.timers && !s.timers[s.cam.timer.value].fired;
      Goto(s, p, Waiting(cam.ready.value)).(
        cam := cam,
        dials := if dial then s.dials + {s.unused} else s.dials,
        unused := if dial then s.unused + 1 else s.unused,
        timers := if stopped then s.timers - {s.cam.timer.value} else s.timers)
    case Dialed(gen, ok) => Dial(s, gen, ok)
    case Wake(p) => Goto(s, p, Passed(s.procs[p].phase.gen))
    case Abandon(p) => Goto(s, p, Failing(s.procs[p].phase.gen))
    case Inspect(p, up) =>
      var gen := s.procs[p].phase.gen;
      Goto(s, p, if s.cam.failed || !up then Failing(gen) else Holding(gen, Got))
    case Confirm(p) =>
      if s.procs[p].cancelled then Goto(s, p, Failing(s.procs[p].phase.gen)) else Advance(s, p, Held)
    case Release(p) => Leave(s, p)
    case Fire(t) => s.(timers := s.timers[t := s.timers[t].(fired := true)])
    case Callback(t) =>
      var turn := CallbackCam(s.cam, s.timers[t].stamp);
      s.(cam := turn.cam, leases := CloseLease(s.leases, turn.closed), timers := s.timers - {t})
    case Push(p) => Advance(s, p, Entered).(gate := true)
    case Refuse(p) => Advance(s, p, Releasing)
    case Check(p) => Advance(s, p, if s.procs[p].cancelled then Backing else Owns)
    case Pop(p) => Advance(s, p, Releasing).(gate := false)
    case Begin(p) => Advance(s, p, if s.procs[p].cancelled then Unlocking else Looping)
    case Loop(p) => Advance(s, p, if s.procs[p].cancelled then Halting else Sending)
    case Send(p, ok) => Advance(s, p, if ok then Pausing else Halting).(log := s.log + [Sent(s.procs[p].op)])
    case Pause(p, again) => Advance(s, p, if again then Looping else Halting)
    case Halt(p) => Advance(s, p, Unlocking).(log := s.log + [Sent(0)])
    case Done(p) => s.(procs := s.procs[p := Proc(Finished, s.procs[p].op, true, false)])
    case StopArrive(q) =>
      s.(procs := CancelCommands(s.procs), stops := s.stops[q := Stop(Queued, false, s.procs.Keys, false)])
    case StopExpire(q) => s.(stops := s.stops[q := s.stops[q].(cancelled := true)])
    case StopPush(q) => StopGoto(s, q, StopEntered).(gate := true)
    case StopRefuse(q) => StopGoto(s, q, StopFinished)
    case StopCheck(q) =>
      if s.stops[q].cancelled then StopGoto(s, q, StopBacking)
      else s.(stops := s.stops[q := s.stops[q].(phase := StopOwns, won := true)])
    case StopSend(q, connected) =>
      StopGoto(s, q, StopUnlocking).(log := if connected then s.log + [Sent(0)] else s.log)
    case StopPop(q) => StopGoto(s, q, StopFinished).(gate := false)
  }

  // ---------- runs ----------

  ghost predicate Run(states: seq<Sys>, steps: seq<Step>) {
    && |states| == |steps| + 1
    && states[0] == INIT
    && forall i :: 0 <= i < |steps| ==> Enabled(states[i], steps[i]) && states[i + 1] == Apply(states[i], steps[i])
  }

  // The branch of a callback that takes an old epoch for the current one: it clears a camera
  // that another keepalive, or a connect, is in charge of.
  predicate Collides(s: Sys, t: nat)
    requires t in s.timers
  {
    && s.cam.users == 0 && s.cam.ready.Some?
    && s.timers[t].stamp != s.cam.acquires && Epoch(s.timers[t].stamp) == Epoch(s.cam.acquires)
  }

  // No callback runs into that branch.
  ghost predicate CleanRun(states: seq<Sys>, steps: seq<Step>) {
    Run(states, steps)
    && forall i, t :: 0 <= i < |steps| && steps[i] == Callback(t) && t in states[i].timers ==> !Collides(states[i], t)
  }

  // No timer callback is still waiting to run 2^64 acquires after it was armed.
  predicate Punctual(s: Sys) {
    forall t :: t in s.timers ==> s.cam.acquires < s.timers[t].stamp + 0x1_0000_0000_0000_0000
  }
}
