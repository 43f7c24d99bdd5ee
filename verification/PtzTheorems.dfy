// What every run of the PTZ protocol guarantees.
module PtzTheorems {
  import opened Wrappers
  import opened PtzProtocol
  import opened PtzLease
  import opened PtzGate

  // ---------- the invariants hold along every run ----------

  lemma {:induction false} GateHolds(states: seq<Sys>, steps: seq<Step>, i: nat)
    requires Run(states, steps) && i < |states|
    ensures GateInv(states[i])
  {
    if i > 0 {
      GateHolds(states, steps, i - 1);
      assert Enabled(states[i - 1], steps[i - 1]);
      GateStep(states[i - 1], steps[i - 1]);
    }
  }

  lemma {:induction false} LeaseHolds(states: seq<Sys>, steps: seq<Step>, i: nat)
    requires CleanRun(states, steps) && i < |states|
    ensures LeaseInv(states[i])
  {
    if i == 0 {
      assert ActiveSet(INIT.procs) == {};
    } else {
      LeaseHolds(states, steps, i - 1);
      assert Enabled(states[i - 1], steps[i - 1]);
      LeaseStep(states[i - 1], steps[i - 1]);
    }
  }

  // The lease is in order in every state of a run exactly when no callback collides.
  lemma LeaseHoldsExactly(states: seq<Sys>, steps: seq<Step>)
    requires Run(states, steps)
    ensures (forall i :: 0 <= i < |states| ==> LeaseInv(states[i])) <==> CleanRun(states, steps)
  {
    if CleanRun(states, steps) {
      forall i | 0 <= i < |states|
        ensures LeaseInv(states[i])
      {
        LeaseHolds(states, steps, i);
      }
    } else {
      var i, t :| 0 <= i < |steps| && steps[i] == Callback(t) && t in states[i].timers && Collides(states[i], t);
      if LeaseInv(states[i]) {
        assert Enabled(states[i], steps[i]);
        LeaseStep(states[i], steps[i]);
        assert !LeaseInv(states[i + 1]);
      }
    }
  }

  lemma PunctualStep(s: Sys, t: nat)
    requires LeaseInv(s) && Punctual(s) && t in s.timers
    ensures !Collides(s, t)
  {
    EpochDistinguishes(s.timers[t].stamp, s.cam.acquires);
  }

  lemma {:induction false} PunctualHolds(states: seq<Sys>, steps: seq<Step>, i: nat)
    requires Run(states, steps) && i < |states| && forall j :: 0 <= j < |states| ==> Punctual(states[j])
    ensures LeaseInv(states[i])
  {
    if i == 0 {
      assert ActiveSet(INIT.procs) == {};
    } else {
      PunctualHolds(states, steps, i - 1);
      var s, step := states[i - 1], steps[i - 1];
      assert Enabled(s, step) && Punctual(s);
      if step.Callback? {
        PunctualStep(s, step.t);
      }
      LeaseStep(s, step);
    }
  }

  // That no callback is 2^64 acquires late is enough.
  lemma PunctualIsClean(states: seq<Sys>, steps: seq<Step>)
    requires Run(states, steps) && forall i :: 0 <= i < |states| ==> Punctual(states[i])
    ensures CleanRun(states, steps)
  {
    forall i, t | 0 <= i < |steps| && steps[i] == Callback(t) && t in states[i].timers
      ensures !Collides(states[i], t)
    {
      PunctualHolds(states, steps, i);
      PunctualStep(states[i], t);
    }
  }

  // What a collision costs while a connect is in flight: the connect goroutine panics, and it
  // does for no other callback.
  lemma CollisionPanics(s: Sys, t: nat, gen: nat, ok: bool)
    requires LeaseInv(s) && Enabled(s, Callback(t)) && gen in s.dials
    ensures var after := Apply(s, Callback(t));
            Enabled(after, Dialed(gen, ok)) && (Apply(after, Dialed(gen, ok)).panicked <==> Collides(s, t))
  {
    LeaseStep(s, Callback(t));
    var after := Apply(s, Callback(t));
    if !Collides(s, t) {
      LeaseStep(after, Dialed(gen, ok));
    }
  }

  // ---------- the lease ----------

  predicate Cleared(s: Sys) {
    s.cam.ready.None? && s.cam.lease.None? && !s.cam.failed && s.dials == {}
  }

  // Every lease ever opened has been closed exactly once.
  predicate AllClosed(s: Sys) {
    forall g :: g in s.leases ==> s.leases[g] == 1
  }

  predicate KeptAlive(s: Sys) {
    && s.cam.lease.Some? && !s.cam.failed && s.dials == {}
    && s.cam.timer.Some? && s.cam.timer.value in s.timers
    && s.timers[s.cam.timer.value].stamp == s.cam.acquires
  }

  // One connect in flight, whose ready channel is the current one and still open, one open lease,
  // no lease closed twice, no close of a nil or closed channel, an exact user count, and nothing
  // left behind once the last user is gone.
  lemma LeaseSafety(states: seq<Sys>, steps: seq<Step>, i: nat)
    requires CleanRun(states, steps) && i < |states|
    ensures !states[i].panicked
    ensures forall g, h :: g in states[i].dials && h in states[i].dials ==> g == h
    ensures forall g :: g in states[i].dials ==> states[i].cam.ready == Some(g) && g !in states[i].signals
    ensures forall g, h :: (g in states[i].leases && h in states[i].leases
                            && states[i].leases[g] == 0 && states[i].leases[h] == 0) ==> g == h
    ensures forall g :: g in states[i].leases ==> states[i].leases[g] <= 1
    ensures states[i].cam.users == |ActiveSet(states[i].procs)|
    ensures states[i].cam.users > 0 ==> states[i].cam.ready.Some?
    ensures states[i].cam.users == 0 ==> Cleared(states[i]) || KeptAlive(states[i])
                                         || (states[i].cam.ready.Some? && states[i].dials == {states[i].cam.ready.value})
    ensures Cleared(states[i]) ==> AllClosed(states[i])
  {
    LeaseHolds(states, steps, i);
    var s := states[i];
    if s.cam.users > 0 {
      assert ActiveSet(s.procs) != {};
      var p :| p in ActiveSet(s.procs);
    }
  }

  // A command whose ready channel has closed reads the outcome of the generation it waited for.
  lemma WaiterSeesItsGeneration(states: seq<Sys>, steps: seq<Step>, i: nat, p: nat)
    requires CleanRun(states, steps) && i < |states|
    requires p in states[i].procs && states[i].procs[p].phase.Passed?
    ensures states[i].cam.ready == Some(states[i].procs[p].phase.gen)
    ensures states[i].cam.failed ==> states[i].procs[p].phase.gen !in states[i].leases
    ensures !states[i].cam.failed ==> states[i].cam.lease == Some(states[i].procs[p].phase.gen)
                                      && states[i].procs[p].phase.gen in states[i].leases
                                      && states[i].leases[states[i].procs[p].phase.gen] == 0
  {
    LeaseHolds(states, steps, i);
  }

  // From a successful acquire to its own release the lease of a command stays open.
  lemma HeldLeaseIsOpen(states: seq<Sys>, steps: seq<Step>, i: nat, p: nat)
    requires CleanRun(states, steps) && i < |states|
    requires p in states[i].procs && states[i].procs[p].phase.Holding?
    ensures states[i].cam.lease == Some(states[i].procs[p].phase.gen)
    ensures states[i].procs[p].phase.gen in states[i].leases && states[i].leases[states[i].procs[p].phase.gen] == 0
  {
    LeaseHolds(states, steps, i);
  }

  // The keepalive is never lost: whenever an unused lease is open, its timer closes it.
  lemma KeepaliveCloses(states: seq<Sys>, steps: seq<Step>, i: nat)
    requires CleanRun(states, steps) && i < |states|
    requires states[i].cam.users == 0 && states[i].cam.lease.Some?
    ensures states[i].cam.timer.Some?
    ensures Enabled(states[i], Fire(states[i].cam.timer.value))
    ensures var t, fired := states[i].cam.timer.value, Apply(states[i], Fire(states[i].cam.timer.value));
            Enabled(fired, Callback(t)) && Cleared(Apply(fired, Callback(t))) && AllClosed(Apply(fired, Callback(t)))
  {
    LeaseHolds(states, steps, i);
    assert KeptAlive(states[i]);
  }

  // A callback touches the camera exactly when it belongs to the keepalive now armed, or collides.
  lemma StaleCallbackIsInert(states: seq<Sys>, steps: seq<Step>, i: nat, t: nat)
    requires CleanRun(states, steps) && i < |states|
    requires Enabled(states[i], Callback(t))
    ensures Apply(states[i], Callback(t)).cam != states[i].cam <==>
              states[i].cam.timer == Some(t) || Collides(states[i], t)
    ensures states[i].cam.timer != Some(t) && !Collides(states[i], t) ==>
              Apply(states[i], Callback(t)) == states[i].(timers := states[i].timers - {t})
  {
    LeaseHolds(states, steps, i);
  }

  // ---------- the gate ----------

  // At most one holder, a token exactly while there is one, and a stopped camera when free.
  lemma GateSafety(states: seq<Sys>, steps: seq<Step>, i: nat)
    requires Run(states, steps) && i < |states|
    ensures Exclusive(states[i])
    ensures !states[i].gate ==> Quiet(states[i].log)
    ensures forall q :: StopIn(states[i], q) ==> Quiet(states[i].log)
  {
    GateHolds(states, steps, i);
    var s := states[i];
    assert forall p :: p in s.procs && Moving(s.procs[p].phase) ==> CommandIn(s, p);
    if !s.gate || exists q :: StopIn(s, q) {
      assert forall p :: p in s.procs ==> !Moving(s.procs[p].phase);
    }
  }

  lemma StopsGrow(s: Sys, step: Step, q: nat)
    requires Enabled(s, step) && q in s.stops
    ensures q in Apply(s, step).stops && Apply(s, step).stops[q].doomed == s.stops[q].doomed
    ensures s.stops[q].won ==> Apply(s, step).stops[q].won
  {
    if Mover(step).Some? {
      MoverShape(s, step);
    }
  }

  lemma {:induction false} DoomPersists(states: seq<Sys>, steps: seq<Step>, i: nat, j: nat, q: nat)
    requires Run(states, steps) && i <= j < |states| && q in states[i].stops
    ensures q in states[j].stops && states[j].stops[q].doomed == states[i].stops[q].doomed
    ensures states[i].stops[q].won ==> states[j].stops[q].won
  {
    if i < j {
      DoomPersists(states, steps, i, j - 1, q);
      StopsGrow(states[j - 1], steps[j - 1], q);
    }
  }

  // Once stop request q, which ran cancelCommands at step a, holds the gate in state w, no
  // command registered before step a ever sends a movement again.
  lemma DoomedCommandsNeverMove(states: seq<Sys>, steps: seq<Step>, a: nat, w: nat, j: nat, q: nat, p: nat)
    requires Run(states, steps) && a < w <= j < |steps|
    requires steps[a] == StopArrive(q) && p in states[a].procs
    requires q in states[w].stops && states[w].stops[q].phase.StopOwns?
    ensures !(steps[j].Send? && steps[j].p == p)
  {
    assert Enabled(states[a], steps[a]);
    DoomPersists(states, steps, a + 1, w, q);
    DoomPersists(states, steps, w, j, q);
    GateHolds(states, steps, w);
    GateHolds(states, steps, j);
    assert Doomed(states[j], q, p);
    assert Enabled(states[j], steps[j]);
  }

  // A movement is only ever sent over an open lease, by the only holder of the gate.
  lemma MovementsAreCovered(states: seq<Sys>, steps: seq<Step>, i: nat)
    requires CleanRun(states, steps) && i < |steps| && steps[i].Send?
    ensures states[i].gate && CommandIn(states[i], steps[i].p)
    ensures forall p :: p != steps[i].p ==> !CommandIn(states[i], p)
    ensures forall q :: !StopIn(states[i], q)
    ensures states[i].cam.lease == Some(states[i].procs[steps[i].p].phase.gen)
            && states[i].cam.lease.value in states[i].leases && states[i].leases[states[i].cam.lease.value] == 0
  {
    assert Enabled(states[i], steps[i]);
    GateHolds(states, steps, i);
    assert CommandIn(states[i], steps[i].p);
    HeldLeaseIsOpen(states, steps, i, steps[i].p);
  }

  // ---------- cancelled commands ----------

  lemma CancelledStep(s: Sys, step: Step, p: nat)
    requires Enabled(s, step) && p in s.procs && s.procs[p].cancelled
    ensures p in Apply(s, step).procs && Apply(s, step).procs[p].cancelled
    ensures Working(Apply(s, step), p, Sending) ==> Working(s, p, Sending) && !(step.Send? && step.p == p)
  {
    if Mover(step).Some? {
      MoverShape(s, step);
    }
  }

  lemma {:induction false} CancelledHolds(states: seq<Sys>, steps: seq<Step>, i: nat, j: nat, p: nat)
    requires Run(states, steps) && i <= j < |states| && p in states[i].procs && states[i].procs[p].cancelled
    ensures p in states[j].procs && states[j].procs[p].cancelled
    ensures Working(states[j], p, Sending) ==> Working(states[i], p, Sending)
  {
    if i < j {
      CancelledHolds(states, steps, i, j - 1, p);
      assert Enabled(states[j - 1], steps[j - 1]);
      CancelledStep(states[j - 1], steps[j - 1], p);
    }
  }

  // Once a command is cancelled it sends a movement only if it has already passed the check in
  // front of it, and then only this one.
  lemma CancelledMovesOnce(states: seq<Sys>, steps: seq<Step>, i: nat, j: nat, p: nat)
    requires Run(states, steps) && i <= j < |steps| && p in states[i].procs && states[i].procs[p].cancelled
    requires steps[j].Send? && steps[j].p == p
    ensures states[i].procs[p].phase.Holding? && states[i].procs[p].phase.work == Sending
    ensures forall k :: i <= k < |steps| && steps[k].Send? && steps[k].p == p ==> k == j
  {
    assert Enabled(states[j], steps[j]);
    CancelledHolds(states, steps, i, j, p);
    forall k | i <= k < |steps| && steps[k].Send? && steps[k].p == p
      ensures k == j
    {
      var first, second := if j < k then j else k, if j < k then k else j;
      assert Enabled(states[first], steps[first]) && Enabled(states[second], steps[second]);
      CancelledHolds(states, steps, i, first, p);
      CancelledStep(states[first], steps[first], p);
      if first < second {
        CancelledHolds(states, steps, first + 1, second, p);
      }
    }
  }

  // Not counted in c.users yet, nor ever again.
  predicate Outside(phase: Phase) {
    phase.Registered? || phase.Closing? || phase.Finished?
  }

  // acquire has not succeeded.
  predicate Unserved(phase: Phase) {
    !phase.Holding? || phase.work == Got
  }

  lemma UnservedStep(s: Sys, step: Step, p: nat)
    requires Enabled(s, step) && p in s.procs && s.procs[p].cancelled
    ensures p in Apply(s, step).procs
    ensures Outside(s.procs[p].phase) ==> Outside(Apply(s, step).procs[p].phase)
    ensures Unserved(s.procs[p].phase) ==> Unserved(Apply(s, step).procs[p].phase)
  {
    if Mover(step).Some? {
      MoverShape(s, step);
    }
  }

  // A command cancelled before it acquires takes no part in a connect, and one cancelled before
  // acquire has returned never asks for the gate.
  lemma {:induction false} CancelledGoesNoFurther(states: seq<Sys>, steps: seq<Step>, i: nat, j: nat, p: nat)
    requires Run(states, steps) && i <= j < |states| && p in states[i].procs && states[i].procs[p].cancelled
    ensures p in states[j].procs
    ensures Outside(states[i].procs[p].phase) ==> Outside(states[j].procs[p].phase)
    ensures Unserved(states[i].procs[p].phase) ==> Unserved(states[j].procs[p].phase)
  {
    if i < j {
      CancelledGoesNoFurther(states, steps, i, j - 1, p);
      CancelledHolds(states, steps, i, j - 1, p);
      assert Enabled(states[j - 1], steps[j - 1]);
      UnservedStep(states[j - 1], steps[j - 1], p);
    }
  }

  // ---------- what is sent ----------

  lemma OpStays(s: Sys, step: Step, p: nat)
    requires Enabled(s, step) && p in s.procs
    ensures p in Apply(s, step).procs && Apply(s, step).procs[p].op == s.procs[p].op
  {
    if Mover(step).Some? {
      MoverShape(s, step);
    }
  }

  lemma {:induction false} OpHolds(states: seq<Sys>, steps: seq<Step>, i: nat, j: nat, p: nat)
    requires Run(states, steps) && i < j < |states| && steps[i].Command? && steps[i].p == p
    ensures p in states[j].procs && states[j].procs[p].op == steps[i].op
  {
    assert Enabled(states[j - 1], steps[j - 1]);
    if i + 1 < j {
      OpHolds(states, steps, i, j - 1, p);
      OpStays(states[j - 1], steps[j - 1], p);
    }
  }

  lemma {:induction false} CameFrom(states: seq<Sys>, steps: seq<Step>, j: nat, p: nat) returns (i: nat)
    requires Run(states, steps) && j < |states| && p in states[j].procs
    ensures i < j && steps[i].Command? && steps[i].p == p
  {
    assert Enabled(states[j - 1], steps[j - 1]);
    if p in states[j - 1].procs {
      i := CameFrom(states, steps, j - 1, p);
    } else {
      if Mover(steps[j - 1]).Some? {
        MoverShape(states[j - 1], steps[j - 1]);
      }
      i := j - 1;
    }
  }

  // What the camera is told, step by step: a movement carries the direction its command came
  // with, runPTZ ends with a stop, so does a stop request that finds a connection, and nothing
  // else is sent.
  lemma SentExactly(states: seq<Sys>, steps: seq<Step>, j: nat)
    requires Run(states, steps) && j < |steps|
    ensures steps[j].Send? ==>
              exists i :: 0 <= i < j && steps[i].Command? && steps[i].p == steps[j].p
                          && states[j + 1].log == states[j].log + [Sent(steps[i].op)]
    ensures steps[j].Halt? || (steps[j].StopSend? && steps[j].connected) ==> states[j + 1].log == states[j].log + [Sent(0)]
    ensures !steps[j].Send? && !steps[j].Halt? && !(steps[j].StopSend? && steps[j].connected) ==>
              states[j + 1].log == states[j].log
  {
    assert Enabled(states[j], steps[j]);
    if steps[j].Send? {
      var i := CameFrom(states, steps, j, steps[j].p);
      OpHolds(states, steps, i, j, steps[j].p);
    }
  }

  // ---------- connecting and leaving ----------

  // acquire succeeds exactly if the connect did and the lease still has a controller, and if the
  // command has not been cancelled meanwhile.
  lemma AcquiresExactly(states: seq<Sys>, steps: seq<Step>, i: nat)
    requires CleanRun(states, steps) && i < |steps|
    ensures steps[i].Inspect? ==>
              states[i + 1].procs[steps[i].p].phase
              == if steps[i].up && states[i].cam.lease.Some? then Holding(states[i].cam.lease.value, Got)
                 else Failing(states[i].procs[steps[i].p].phase.gen)
    ensures steps[i].Confirm? ==>
              states[i + 1].procs[steps[i].p].phase
              == if states[i].procs[steps[i].p].cancelled then Failing(states[i].procs[steps[i].p].phase.gen)
                 else Holding(states[i].procs[steps[i].p].phase.gen, Held)
  {
    assert Enabled(states[i], steps[i]);
    LeaseHolds(states, steps, i);
  }

  // A connect starts exactly when a command enters a camera that is cleared; any other command
  // joins the connect in flight or the lease that is open.
  lemma EnterDials(states: seq<Sys>, steps: seq<Step>, i: nat)
    requires CleanRun(states, steps) && i < |steps| && steps[i].Enter?
    ensures if Cleared(states[i])
            then states[i + 1].cam.ready.Some? && states[i + 1].cam.ready.value !in states[i + 1].signals
                 && states[i + 1].dials == {states[i + 1].cam.ready.value}
            else states[i + 1].dials == states[i].dials && states[i + 1].cam.ready == states[i].cam.ready
                 && states[i + 1].cam.lease == states[i].cam.lease
    ensures states[i + 1].cam.users == states[i].cam.users + 1 && states[i + 1].cam.timer.None?
  {
    assert Enabled(states[i], steps[i]);
    LeaseHolds(states, steps, i);
    LeaseHolds(states, steps, i + 1);
    if states[i].cam.ready.None? {
      assert states[i].unused !in states[i].signals;
    }
  }

  // The last user to leave an open lease keeps it alive with a new timer if its acquire had
  // succeeded, and otherwise leaves nothing behind; a connect in flight is left alone.
  lemma LastLeaver(states: seq<Sys>, steps: seq<Step>, i: nat)
    requires CleanRun(states, steps) && i < |steps| && steps[i].Release? && states[i].cam.users == 1
    ensures states[i].dials != {} ==> states[i + 1].cam == states[i].cam.(users := 0) && states[i + 1].dials == states[i].dials
    ensures states[i].dials == {} && states[i].procs[steps[i].p].phase.Holding? ==>
              KeptAlive(states[i + 1]) && states[i + 1].cam.lease == states[i].cam.lease
              && states[i + 1].cam.timer.value !in states[i].timers && !states[i + 1].timers[states[i + 1].cam.timer.value].fired
    ensures states[i].dials == {} && !states[i].procs[steps[i].p].phase.Holding? ==>
              Cleared(states[i + 1]) && AllClosed(states[i + 1])
  {
    assert Enabled(states[i], steps[i]);
    LeaseHolds(states, steps, i);
    LeaseHolds(states, steps, i + 1);
    assert steps[i].p in ActiveSet(states[i].procs);
  }

  // ---------- a run with a collision ----------

  lemma Extend(states: seq<Sys>, steps: seq<Step>, step: Step) returns (states': seq<Sys>, steps': seq<Step>)
    requires Run(states, steps) && Enabled(states[|steps|], step)
    ensures Run(states', steps') && states'[|steps'|] == Apply(states[|steps|], step)
  {
    states', steps' := states + [Apply(states[|steps|], step)], steps + [step];
  }

  // A keepalive callback of acquire 1 still waits for the mutex while a connect is in flight.
  ghost predicate Parked(s: Sys, acquires: nat) {
    && s.cam == Camera(0, acquires, Some(2), None, false, None)
    && s.dials == {2} && s.signals == {0} && !s.panicked
    && s.timers == map[1 := Timer(1, true)]
    && forall p :: acquires <= p ==> p !in s.procs
  }

  // The system once command p has entered and waits for its ready channel.
  function Entering(s: Sys, p: nat): Sys {
    var admitted := s.(procs := s.procs[p := Proc(Admitted, 1, false, true)]);
    if Enabled(admitted, Enter(p)) then Apply(admitted, Enter(p)) else s
  }

  // ... and once it has been canceled there.
  function Quitting(s: Sys, p: nat): Sys {
    var gen := EnterCam(s.cam, s.unused).ready.value;
    Entering(s, p).(procs := s.procs[p := Proc(Failing(gen), 1, true, true)])
  }

  lemma Arrive(states: seq<Sys>, steps: seq<Step>, p: nat) returns (states': seq<Sys>, steps': seq<Step>)
    requires Run(states, steps) && p !in states[|steps|].procs && !states[|steps|].panicked
    ensures Run(states', steps') && states'[|steps'|] == Entering(states[|steps|], p)
    ensures !states'[|steps'|].panicked
    ensures var gen := EnterCam(states[|steps|].cam, states[|steps|].unused).ready.value;
            states'[|steps'|].procs == states[|steps|].procs[p := Proc(Waiting(gen), 1, false, true)]
  {
    var s := states[|steps|];
    states', steps' := Extend(states, steps, Command(p, 1));
    states', steps' := Extend(states', steps', Admit(p));
    assert states'[|steps'|] == s.(procs := s.procs[p := Proc(Admitted, 1, false, true)]);
    states', steps' := Extend(states', steps', Enter(p));
  }

  lemma Quit(states: seq<Sys>, steps: seq<Step>, p: nat) returns (states': seq<Sys>, steps': seq<Step>)
    requires Run(states, steps) && !states[|steps|].panicked
    requires p in states[|steps|].procs && states[|steps|].procs[p].phase.Waiting?
    ensures Run(states', steps') && !states'[|steps'|].panicked
    ensures states'[|steps'|] == states[|steps|].(procs := states[|steps|].procs[
              p := Proc(Failing(states[|steps|].procs[p].phase.gen), states[|steps|].procs[p].op, true,
                        states[|steps|].procs[p].registered)])
  {
    states', steps' := Extend(states, steps, Expire(p));
    states', steps' := Extend(states', steps', Abandon(p));
  }

  // Command p arrives, enters, is canceled while it waits and leaves.
  lemma Visit(states: seq<Sys>, steps: seq<Step>, p: nat) returns (states': seq<Sys>, steps': seq<Step>)
    requires Run(states, steps) && p !in states[|steps|].procs && !states[|steps|].panicked
    ensures Run(states', steps') && p in Quitting(states[|steps|], p).procs
    ensures states'[|steps'|] == Leave(Quitting(states[|steps|], p), p)
  {
    states', steps' := Arrive(states, steps, p);
    states', steps' := Quit(states', steps', p);
    assert states'[|steps'|] == Quitting(states[|steps|], p);
    states', steps' := Extend(states', steps', Release(p));
  }

  lemma FirstHold() returns (states: seq<Sys>, steps: seq<Step>)
    ensures Run(states, steps)
    ensures states[|steps|] == Sys(Camera(1, 1, Some(0), Some(0), false, None),
                                   map[0 := Proc(Holding(0, Got), 1, false, true)],
                                   map[], false, [], {}, {0}, map[0 := 0], map[], 1, false)
  {
    states, steps := [INIT], [];
    states, steps := Arrive(states, steps, 0);
    states, steps := Extend(states, steps, Dialed(0, true));
    assert states[|steps|].procs == map[0 := Proc(Waiting(0), 1, false, true)];
    states, steps := Extend(states, steps, Wake(0));
    assert states[|steps|].procs == map[0 := Proc(Passed(0), 1, false, true)];
    states, steps := Extend(states, steps, Inspect(0, true));
  }

  lemma FirstLeave() returns (states: seq<Sys>, steps: seq<Step>)
    ensures Run(states, steps)
    ensures states[|steps|] == Sys(Camera(0, 1, Some(0), Some(0), false, Some(1)),
                                   map[0 := Proc(Closing, 1, true, true)],
                                   map[], false, [], {}, {0}, map[0 := 0], map[1 := Timer(1, false)], 2, false)
  {
    states, steps := FirstHold();
    states, steps := Extend(states, steps, Confirm(0));
    states, steps := Extend(states, steps, Expire(0));
    assert states[|steps|].procs == map[0 := Proc(Holding(0, Held), 1, true, true)];
    states, steps := Extend(states, steps, Refuse(0));
    assert states[|steps|].procs == map[0 := Proc(Holding(0, Releasing), 1, true, true)];
    states, steps := Extend(states, steps, Release(0));
  }

  lemma FirstPark() returns (states: seq<Sys>, steps: seq<Step>)
    ensures Run(states, steps) && Parked(states[|steps|], 3)
  {
    states, steps := FirstLeave();
    states, steps := Extend(states, steps, Fire(1));
    assert states[|steps|].timers == map[1 := Timer(1, true)];
    states, steps := Visit(states, steps, 1);
    assert states[|steps|].cam == Camera(0, 2, None, None, false, None);
    states, steps := Visit(states, steps, 2);
  }

  lemma {:induction false} ParkFor(acquires: nat) returns (states: seq<Sys>, steps: seq<Step>)
    requires acquires >= 3
    ensures Run(states, steps) && Parked(states[|steps|], acquires)
  {
    if acquires == 3 {
      states, steps := FirstPark();
    } else {
      states, steps := ParkFor(acquires - 1);
      states, steps := Visit(states, steps, acquires - 1);
    }
  }

  // The epoch check is not enough: a callback delayed for 2^64 acquires clears a camera that
  // is connecting, and the connect goroutine then closes a nil channel.
  lemma LateCallbackPanics()
    ensures exists states: seq<Sys>, steps: seq<Step> :: Run(states, steps) && states[|steps|].panicked
  {
    var states, steps := ParkFor(1 + EPOCHS);
    states, steps := Extend(states, steps, Callback(1));
    states, steps := Extend(states, steps, Dialed(2, true));
  }
}
