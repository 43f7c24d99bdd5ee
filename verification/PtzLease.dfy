// Lease invariants of the PTZ protocol: single-flight connect, one open lease, no double
// close, no leak, and waiters that see exactly the generation they waited for.
module PtzLease {
  import opened Wrappers
  import opened PtzProtocol

  ghost function ActiveSet(procs: map<nat, Proc>): set<nat> {
    set p | p in procs && Active(procs[p].phase)
  }

  // The command was told that its generation has a usable lease, and has not released it.
  predicate Trusts(phase: Phase) {
    phase.Holding?
  }

  // ---------- the invariant ----------

  ghost predicate Counted(s: Sys) {
    s.cam.users == |ActiveSet(s.procs)|
  }

  // Every active command belongs to the current generation.
  ghost predicate Current(s: Sys) {
    forall p :: p in s.procs && Active(s.procs[p].phase) ==>
      && s.cam.ready == Some(s.procs[p].phase.gen)
      && (Trusts(s.procs[p].phase) ==> s.cam.lease == s.cam.ready)
      && (s.procs[p].phase.Passed? ==> s.procs[p].phase.gen in s.signals)
  }

  predicate Connecting(s: Sys) {
    s.cam.ready.Some? && s.cam.ready.value !in s.signals
  }

  predicate Connected(s: Sys) {
    s.cam.ready.Some? && s.cam.ready.value in s.signals
  }

  ghost predicate Shape(s: Sys) {
    && !s.panicked
    && s.dials == (if Connecting(s) then {s.cam.ready.value} else {})
    && (!Connected(s) ==> s.cam.lease.None? && !s.cam.failed && s.cam.timer.None?)
    && (Connected(s) && s.cam.failed ==> s.cam.lease.None? && s.cam.users != 0 && s.cam.ready.value !in s.leases)
    && (Connected(s) && !s.cam.failed ==> s.cam.lease == s.cam.ready)
    && (Connected(s) && s.cam.users == 0 ==> s.cam.timer.Some? && s.cam.timer.value in s.timers
                                             && s.timers[s.cam.timer.value].stamp == s.cam.acquires)
    && (s.cam.timer.Some? ==> s.cam.users == 0)
  }

  ghost predicate Leases(s: Sys) {
    && (s.cam.lease.Some? ==> s.cam.lease.value in s.leases)
    && forall g :: g in s.leases ==> s.leases[g] == (if s.cam.lease == Some(g) then 0 else 1)
  }

  ghost predicate Timers(s: Sys) {
    forall t :: t in s.timers ==>
      && s.timers[t].stamp <= s.cam.acquires
      && (s.timers[t].stamp == s.cam.acquires ==> s.cam.timer == Some(t))
  }

  ghost predicate Fresh(s: Sys) {
    && (s.cam.ready.Some? ==> s.cam.ready.value < s.unused)
    && (forall g :: g in s.signals ==> g < s.unused)
    && (forall g :: g in s.leases ==> g in s.signals)
    && (forall t :: t in s.timers ==> t < s.unused)
  }

  ghost predicate LeaseInv(s: Sys) {
    Counted(s) && Current(s) && Shape(s) && Leases(s) && Timers(s) && Fresh(s)
  }

  // ---------- steps ----------

  lemma SetPhaseActive(procs: map<nat, Proc>, p: nat, proc: Proc)
    ensures Active(proc.phase) ==> ActiveSet(procs[p := proc]) == ActiveSet(procs) + {p}
    ensures !Active(proc.phase) ==> ActiveSet(procs[p := proc]) == ActiveSet(procs) - {p}
    ensures (p in procs && Active(procs[p].phase)) == Active(proc.phase) ==> ActiveSet(procs[p := proc]) == ActiveSet(procs)
  {
  }

  // A command moves between phases without touching the camera.
  lemma MoveKeeps(s: Sys, s': Sys, p: nat)
    requires LeaseInv(s)
    requires p in s'.procs && s'.procs == s.procs[p := s'.procs[p]]
    requires s' == s.(procs := s'.procs, gate := s'.gate, log := s'.log)
    requires (p in s.procs && Active(s.procs[p].phase)) == Active(s'.procs[p].phase)
    requires Active(s'.procs[p].phase) ==> s'.procs[p].phase.gen == s.procs[p].phase.gen
    requires Trusts(s'.procs[p].phase) ==> Trusts(s.procs[p].phase) || s.cam.lease == s.cam.ready
    requires s'.procs[p].phase.Passed? ==> s'.procs[p].phase.gen in s.signals
    ensures LeaseInv(s')
  {
    SetPhaseActive(s.procs, p, s'.procs[p]);
    assert Counted(s');
    assert Current(s');
    assert Shape(s');
    assert Leases(s');
    assert Timers(s');
    assert Fresh(s');
  }

  lemma EnterKeeps(s: Sys, p: nat)
    requires LeaseInv(s) && Enabled(s, Enter(p))
    ensures LeaseInv(Apply(s, Enter(p)))
  {
    var s' := Apply(s, Enter(p));
    SetPhaseActive(s.procs, p, s'.procs[p]);
    assert p !in ActiveSet(s.procs);
    assert ActiveSet(s'.procs) == ActiveSet(s.procs) + {p};
  }

  lemma DialKeeps(s: Sys, gen: nat, ok: bool)
    requires LeaseInv(s) && Enabled(s, Dialed(gen, ok))
    ensures LeaseInv(Apply(s, Dialed(gen, ok)))
  {
    var s' := Apply(s, Dialed(gen, ok));
    assert Connecting(s) && gen == s.cam.ready.value;
    assert ActiveSet(s'.procs) == ActiveSet(s.procs);
    if s.cam.users == 0 {
      assert ActiveSet(s.procs) == {};
      assert forall p :: p in s.procs && Active(s.procs[p].phase) ==> p in ActiveSet(s.procs);
    }
  }

  lemma LeaveKeeps(s: Sys, p: nat)
    requires LeaseInv(s) && Enabled(s, Release(p))
    ensures LeaseInv(Apply(s, Release(p)))
  {
    var s' := Apply(s, Release(p));
    SetPhaseActive(s.procs, p, s'.procs[p]);
    assert p in ActiveSet(s.procs);
    assert ActiveSet(s'.procs) == ActiveSet(s.procs) - {p};
    assert forall q :: q in s'.procs && Active(s'.procs[q].phase) ==> q in ActiveSet(s'.procs);
  }

  lemma CallbackKeeps(s: Sys, t: nat)
    requires LeaseInv(s) && Enabled(s, Callback(t)) && !Collides(s, t)
    ensures LeaseInv(Apply(s, Callback(t)))
  {
    var s' := Apply(s, Callback(t));
    assert ActiveSet(s'.procs) == ActiveSet(s.procs);
    assert forall q :: q in s.procs && Active(s.procs[q].phase) ==> q in ActiveSet(s.procs);
  }

  // A colliding callback leaves a connect without its channel, or a fired timer without its lease.
  lemma CollisionBreaks(s: Sys, t: nat)
    requires LeaseInv(s) && Enabled(s, Callback(t)) && Collides(s, t)
    ensures !LeaseInv(Apply(s, Callback(t)))
  {
    var s' := Apply(s, Callback(t));
    if Connecting(s) {
      assert s'.dials != {} && !Connecting(s');
    } else {
      var armed := s.cam.timer.value;
      assert armed in s'.timers && s'.timers[armed].stamp == s'.cam.acquires;
    }
  }

  lemma EpochDistinguishes(stamp: nat, acquires: nat)
    requires stamp <= acquires < stamp + EPOCHS
    ensures Epoch(stamp) == Epoch(acquires) <==> stamp == acquires
  {
    if Epoch(stamp) == Epoch(acquires) {
      assert (acquires - stamp) == EPOCHS * (acquires / EPOCHS - stamp / EPOCHS);
    }
  }

  lemma StopArriveKeeps(s: Sys, q: nat)
    requires LeaseInv(s) && Enabled(s, StopArrive(q))
    ensures LeaseInv(Apply(s, StopArrive(q)))
  {
    var s' := Apply(s, StopArrive(q));
    assert ActiveSet(s'.procs) == ActiveSet(s.procs);
  }

  // A step that advances one command and leaves the camera alone.
  predicate Moves(step: Step) {
    Mover(step).Some? && !step.Enter? && !step.Release?
  }

  lemma MoverKeeps(s: Sys, step: Step)
    requires LeaseInv(s) && Enabled(s, step) && Moves(step)
    ensures LeaseInv(Apply(s, step))
  {
    var s' := Apply(s, step);
    var p := Mover(step).value;
    assert s'.procs == s.procs[p := s'.procs[p]];
    assert s' == s.(procs := s'.procs, gate := s'.gate, log := s'.log);
    MoveKeeps(s, s', p);
  }

  lemma StopKeeps(s: Sys, s': Sys)
    requires LeaseInv(s)
    requires s' == s.(stops := s'.stops, gate := s'.gate, log := s'.log)
    ensures LeaseInv(s')
  {
  }

  // Every step keeps the invariant, except a callback that collides, which always breaks it.
  lemma LeaseStep(s: Sys, step: Step)
    requires LeaseInv(s) && Enabled(s, step)
    ensures LeaseInv(Apply(s, step)) <==> !(step.Callback? && Collides(s, step.t))
  {
    if step.Callback? && Collides(s, step.t) {
      CollisionBreaks(s, step.t);
    } else {
      OtherStep(s, step);
    }
  }

  lemma OtherStep(s: Sys, step: Step)
    requires LeaseInv(s) && Enabled(s, step) && !(step.Callback? && Collides(s, step.t))
    ensures LeaseInv(Apply(s, step))
  {
    if Moves(step) {
      MoverKeeps(s, step);
    } else if step.Enter? {
      EnterKeeps(s, step.p);
    } else if step.Dialed? {
      DialKeeps(s, step.gen, step.ok);
    } else if step.Release? {
      LeaveKeeps(s, step.p);
    } else if step.Fire? {
      assert ActiveSet(Apply(s, step).procs) == ActiveSet(s.procs);
    } else if step.Callback? {
      CallbackKeeps(s, step.t);
    } else if step.StopArrive? {
      StopArriveKeeps(s, step.q);
    } else {
      StopKeeps(s, Apply(s, step));
    }
  }
}
