// Gate and cancellation invariants of the PTZ protocol: mutual exclusion, the deferred
// stop, and commands that a stop request has doomed.
module PtzGate {
  import opened Wrappers
  import opened PtzProtocol

  predicate CommandIn(s: Sys, p: nat) {
    p in s.procs && InGate(s.procs[p].phase)
  }

  predicate StopIn(s: Sys, q: nat) {
    q in s.stops && StopInGate(s.stops[q].phase)
  }

  // The gate holds a token iff somebody is between its lock and its unlock, and then it is one.
  ghost predicate Exclusive(s: Sys) {
    && (forall p, q :: CommandIn(s, p) && CommandIn(s, q) ==> p == q)
    && (forall p, q :: StopIn(s, p) && StopIn(s, q) ==> p == q)
    && (forall p, q :: CommandIn(s, p) ==> !StopIn(s, q))
    && (s.gate <==> (exists p :: CommandIn(s, p)) || (exists q :: StopIn(s, q)))
  }

  predicate Quiet(log: seq<Sent>) {
    log == [] || log[|log| - 1].op == 0
  }

  ghost predicate StopsOwed(s: Sys) {
    (forall p :: p in s.procs ==> !Moving(s.procs[p].phase)) ==> Quiet(s.log)
  }

  ghost predicate Registry(s: Sys) {
    forall p :: p in s.procs ==> s.procs[p].op != 0 && (s.procs[p].registered || s.procs[p].cancelled)
  }

  ghost predicate Doomed(s: Sys, q: nat, p: nat)
    requires q in s.stops
  {
    p in s.procs && s.procs[p].cancelled && (s.stops[q].won ==> !CanMove(s.procs[p].phase))
  }

  ghost predicate Doom(s: Sys) {
    forall q :: q in s.stops ==>
      && (s.stops[q].phase.StopOwns? || s.stops[q].phase.StopUnlocking? ==> s.stops[q].won)
      && forall p :: p in s.stops[q].doomed ==> Doomed(s, q, p)
  }

  ghost predicate GateInv(s: Sys) {
    Exclusive(s) && StopsOwed(s) && Registry(s) && Doom(s)
  }

  // ---------- one command advances ----------

  ghost predicate CommandMove(s: Sys, s': Sys, p: nat) {
    && p in s'.procs && s'.procs == s.procs[p := s'.procs[p]]
    && s'.stops == s.stops
  }

  lemma ExclusiveMove(s: Sys, s': Sys, p: nat)
    requires Exclusive(s) && CommandMove(s, s', p)
    requires s.gate && s'.gate ==> CommandIn(s, p) == CommandIn(s', p)
    requires !s.gate && s'.gate ==> CommandIn(s', p)
    requires s.gate && !s'.gate ==> CommandIn(s, p) && !CommandIn(s', p)
    requires !s.gate && !s'.gate ==> !CommandIn(s', p)
    ensures Exclusive(s')
  {
    assert forall q :: q != p ==> (CommandIn(s', q) <==> CommandIn(s, q));
    assert forall q :: StopIn(s', q) <==> StopIn(s, q);
    if s'.gate && s.gate {
      if q :| CommandIn(s, q) {
        assert CommandIn(s', q);
      } else {
        var q :| StopIn(s, q);
        assert StopIn(s', q);
      }
    }
  }

  lemma OwedMove(s: Sys, s': Sys, p: nat)
    requires StopsOwed(s) && CommandMove(s, s', p)
    requires Moving(s'.procs[p].phase) || (s'.log == s.log && (p in s.procs ==> !Moving(s.procs[p].phase)))
             || Quiet(s'.log)
    ensures StopsOwed(s')
  {
    if p in s.procs && Moving(s.procs[p].phase) && !Moving(s'.procs[p].phase) {
      assert Quiet(s'.log);
    }
    assert forall q :: q != p && q in s.procs ==> s'.procs[q] == s.procs[q];
  }

  lemma DoomMove(s: Sys, s': Sys, p: nat)
    requires Registry(s) && Doom(s) && CommandMove(s, s', p)
    requires s'.procs[p].op != 0 && (s'.procs[p].registered || s'.procs[p].cancelled)
    requires p in s.procs && s.procs[p].cancelled ==>
               s'.procs[p].cancelled && (CanMove(s'.procs[p].phase) ==> CanMove(s.procs[p].phase))
    ensures Registry(s') && Doom(s')
  {
    forall q | q in s'.stops
      ensures forall r :: r in s'.stops[q].doomed ==> Doomed(s', q, r)
    {
      assert forall r :: r in s.stops[q].doomed ==> Doomed(s, q, r);
    }
  }

  lemma MoverShape(s: Sys, step: Step)
    requires Enabled(s, step) && Mover(step).Some?
    ensures CommandMove(s, Apply(s, step), Mover(step).value)
  {
    var p := Mover(step).value;
    if p in s.procs && s.procs[p].phase.Holding? {
      HolderShape(s, step, p);
    }
  }

  lemma HolderShape(s: Sys, step: Step, p: nat)
    requires Enabled(s, step) && Mover(step) == Some(p)
    requires p in s.procs && s.procs[p].phase.Holding?
    ensures CommandMove(s, Apply(s, step), p)
  {
  }

  lemma MoverGate(s: Sys, step: Step)
    requires GateInv(s) && Enabled(s, step) && Mover(step).Some?
    ensures Exclusive(Apply(s, step))
  {
    var s', p := Apply(s, step), Mover(step).value;
    MoverShape(s, step);
    if CommandIn(s, p) {
      assert s.gate;
    }
    ExclusiveMove(s, s', p);
  }

  lemma MoverOwed(s: Sys, step: Step)
    requires GateInv(s) && Enabled(s, step) && Mover(step).Some?
    ensures StopsOwed(Apply(s, step))
  {
    MoverShape(s, step);
    OwedMove(s, Apply(s, step), Mover(step).value);
  }

  lemma MoverDoom(s: Sys, step: Step)
    requires GateInv(s) && Enabled(s, step) && Mover(step).Some?
    ensures Registry(Apply(s, step)) && Doom(Apply(s, step))
  {
    MoverShape(s, step);
    DoomMove(s, Apply(s, step), Mover(step).value);
  }

  // ---------- a stop request advances ----------

  lemma ArriveKeeps(s: Sys, q: nat)
    requires GateInv(s) && Enabled(s, StopArrive(q))
    ensures GateInv(Apply(s, StopArrive(q)))
  {
    var s' := Apply(s, StopArrive(q));
    assert forall p :: CommandIn(s', p) <==> CommandIn(s, p);
    assert forall p :: StopIn(s', p) <==> StopIn(s, p);
    assert forall p :: p in s.procs ==> s'.procs[p].phase == s.procs[p].phase;
    forall r | r in s'.stops
      ensures forall p :: p in s'.stops[r].doomed ==> Doomed(s', r, p)
    {
      if r in s.stops {
        assert forall p :: p in s.stops[r].doomed ==> Doomed(s, r, p);
      }
    }
  }

  ghost predicate StopMove(s: Sys, s': Sys, q: nat) {
    && q in s.stops && q in s'.stops && s'.stops == s.stops[q := s'.stops[q]]
    && s'.stops[q].doomed == s.stops[q].doomed
    && s'.procs == s.procs
  }

  lemma ExclusiveStop(s: Sys, s': Sys, q: nat)
    requires Exclusive(s) && StopMove(s, s', q)
    requires s.gate && s'.gate ==> StopIn(s, q) == StopIn(s', q)
    requires !s.gate && s'.gate ==> StopIn(s', q)
    requires s.gate && !s'.gate ==> StopIn(s, q) && !StopIn(s', q)
    requires !s.gate && !s'.gate ==> !StopIn(s', q)
    ensures Exclusive(s')
  {
    assert forall p :: p != q ==> (StopIn(s', p) <==> StopIn(s, p));
    assert forall p :: CommandIn(s', p) <==> CommandIn(s, p);
    if s'.gate && s.gate {
      if p :| StopIn(s, p) {
        assert StopIn(s', p);
      } else {
        var p :| CommandIn(s, p);
        assert CommandIn(s', p);
      }
    }
  }

  // A stop that has just won the gate finds every doomed command outside it.
  lemma DoomStop(s: Sys, s': Sys, q: nat)
    requires Exclusive(s) && Doom(s) && StopMove(s, s', q)
    requires s'.stops[q].won ==> s.stops[q].won || StopIn(s, q)
    requires s'.stops[q].phase.StopOwns? || s'.stops[q].phase.StopUnlocking? ==> s'.stops[q].won
    ensures Doom(s')
  {
    forall r, p | r in s'.stops && p in s'.stops[r].doomed
      ensures Doomed(s', r, p)
    {
      assert Doomed(s, r, p);
      if r == q && StopIn(s, q) {
        assert !CommandIn(s, p);
      }
    }
  }

  lemma StopKeeps(s: Sys, step: Step, q: nat)
    requires GateInv(s) && Enabled(s, step)
    requires step in {StopExpire(q), StopPush(q), StopRefuse(q), StopCheck(q),
                      StopSend(q, true), StopSend(q, false), StopPop(q)}
    ensures GateInv(Apply(s, step))
  {
    var s' := Apply(s, step);
    assert StopMove(s, s', q);
    if StopIn(s, q) {
      assert s.gate;
    }
    ExclusiveStop(s, s', q);
    DoomStop(s, s', q);
  }

  lemma GateStep(s: Sys, step: Step)
    requires GateInv(s) && Enabled(s, step)
    ensures GateInv(Apply(s, step))
  {
    if Mover(step).Some? {
      MoverGate(s, step);
      MoverOwed(s, step);
      MoverDoom(s, step);
    } else if step.StopArrive? {
      ArriveKeeps(s, step.q);
    } else if step.Dialed? || step.Fire? || step.Callback? {
      CameraOnly(s, Apply(s, step));
    } else {
      StopKeeps(s, step, step.q);
    }
  }

  lemma CameraOnly(s: Sys, s': Sys)
    requires GateInv(s)
    requires s'.procs == s.procs && s'.stops == s.stops && s'.gate == s.gate && s'.log == s.log
    ensures GateInv(s')
  {
    assert forall p :: CommandIn(s', p) <==> CommandIn(s, p);
    assert forall q :: StopIn(s', q) <==> StopIn(s, q);
    forall q, p | q in s'.stops && p in s'.stops[q].doomed
      ensures Doomed(s', q, p)
    {
      assert Doomed(s, q, p);
    }
  }
}
