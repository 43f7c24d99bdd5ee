// The life of a stream producer: worker generations, reconnects and connections.
//
// Every method of producer.go that holds p.mu is one atomic step; workers that return,
// scheduled retries and callers of Dial, GetTrack, AddTrack, start and stop interleave.
module ProducerLife {
  import opened Wrappers

  datatype State = StateNone | StateMedias | StateTracks | StateStart | StateExternal | StateInternal

  // The fields of one producer that its life depends on; `conn` names a connection.
  datatype Life = Life(state: State, conn: Option<nat>, worker: nat)

  // ---------- one method call ----------

  function DialLife(p: Life, outcome: Option<nat>): Life {
    if p.state.StateNone? && outcome.Some? then p.(conn := outcome, state := StateMedias) else p
  }

  // GetTrack that appended a new receiver, or AddTrack that succeeded.
  function TrackLife(p: Life): Life {
    if p.state.StateMedias? then p.(state := StateTracks) else p
  }

  function StartLife(p: Life): Life {
    if p.state.StateTracks? then p.(state := StateStart, worker := p.worker + 1) else p
  }

  function StopLife(p: Life): Life {
    if p.state.StateExternal? || p.state.StateNone? then p
    else p.(conn := None, state := StateNone, worker := if p.state.StateStart? then p.worker + 1 else p.worker)
  }

  function ReconnectLife(p: Life, worker: nat, outcome: Option<nat>): Life {
    if p.worker == worker && outcome.Some? then p.(conn := outcome) else p
  }

  // ---------- the system ----------

  // What will act on the producer later: a worker inside conn.Start, a worker about to look
  // whether it was closed, a worker about to reconnect, or a retry on a timer.
  datatype Next =
    | Running(worker: nat)
    | Checking(worker: nat)
    | Returned(worker: nat)
    | Scheduled(worker: nat, retry: nat)

  datatype Sys = Sys(
    p: Life,
    nexts: map<nat, Next>,  // continuations by goroutine or timer identity
    stops: map<nat, nat>,   // every connection ever opened, and how often it was stopped
    unused: nat,
    panicked: bool)         // Stop of a nil connection

  const INIT := Sys(Life(StateNone, None, 0), map[], map[], 0, false)

  datatype Step =
    | Dial(ok: bool)
    | Track(added: bool)
    | Start
    | Stop
    | WorkerEnds(c: nat, failed: bool)
    | Check(c: nat)
    | Reconnect(c: nat, ok: bool)

  predicate Enabled(s: Sys, step: Step) {
    !s.panicked &&
    match step
    case Dial(_) => true
    case Track(_) => !s.p.state.StateNone?
    case Start => true
    case Stop => true
    case WorkerEnds(c, _) => c in s.nexts && s.nexts[c].Running?
    case Check(c) => c in s.nexts && s.nexts[c].Checking?
    case Reconnect(c, _) => c in s.nexts && (s.nexts[c].Returned? || s.nexts[c].Scheduled?)
  }

  function StopConn(s: Sys, conn: Option<nat>): Sys {
    if conn.Some? && conn.value in s.stops then s.(stops := s.stops[conn.value := s.stops[conn.value] + 1]) else s
  }

  function OpenConn(s: Sys): Sys {
    s.(stops := s.stops[s.unused := 0], unused := s.unused + 1)
  }

  function ReconnectSys(s: Sys, c: nat, ok: bool): Sys
    requires c in s.nexts
  {
    var next := s.nexts[c];
    if next.worker != s.p.worker then s.(nexts := s.nexts - {c})
    else if !ok then
      s.(nexts := s.nexts[c := Scheduled(next.worker, if next.Scheduled? then next.retry + 1 else 1)])
    else if s.p.conn.None? then s.(panicked := true)
    else StopConn(OpenConn(s), s.p.conn).(p := ReconnectLife(s.p, next.worker, Some(s.unused)),
                                          nexts := s.nexts[c := Running(next.worker)])
  }

  function Apply(s: Sys, step: Step): Sys
    requires Enabled(s, step)
  {
    match step
    case Dial(ok) =>
      if s.p.state.StateNone? && ok then OpenConn(s).(p := DialLife(s.p, Some(s.unused))) else s
    case Track(added) => if added then s.(p := TrackLife(s.p)) else s
    case Start =>
      var p := StartLife(s.p);
      if p != s.p then s.(p := p, nexts := s.nexts[s.unused := Running(p.worker)], unused := s.unused + 1) else s
    case Stop =>
      var p := StopLife(s.p);
      StopConn(s, if p != s.p then s.p.conn else None).(p := p)
    case WorkerEnds(c, failed) =>
      s.(nexts := s.nexts[c := if failed then Checking(s.nexts[c].worker) else Returned(s.nexts[c].worker)])
    case Check(c) =>
      if s.nexts[c].worker != s.p.worker then s.(nexts := s.nexts - {c})
      else s.(nexts := s.nexts[c := Returned(s.nexts[c].worker)])
    case Reconnect(c, ok) => ReconnectSys(s, c, ok)
  }

  ghost predicate Run(states: seq<Sys>, steps: seq<Step>) {
    && |states| == |steps| + 1
    && states[0] == INIT
    && forall i :: 0 <= i < |steps| ==> Enabled(states[i], steps[i]) && states[i + 1] == Apply(states[i], steps[i])
  }

  // ---------- the invariant ----------

  predicate Live(s: Sys, c: nat) {
    c in s.nexts && s.nexts[c].worker == s.p.worker
  }

  ghost predicate Workers(s: Sys) {
    && (forall c :: c in s.nexts ==> s.nexts[c].worker <= s.p.worker && c < s.unused)
    && (forall c, d :: Live(s, c) && Live(s, d) ==> c == d)
    && (s.p.state.StateStart? <==> exists c :: Live(s, c))
  }

  ghost predicate Conns(s: Sys) {
    && !s.panicked
    && !s.p.state.StateExternal? && !s.p.state.StateInternal?
    && (s.p.conn.Some? <==> !s.p.state.StateNone?)
    && (s.p.conn.Some? ==> s.p.conn.value in s.stops)
    && (forall k :: k in s.stops ==> k < s.unused && s.stops[k] == (if s.p.conn == Some(k) then 0 else 1))
  }

  lemma ConnsStep(s: Sys, step: Step)
    requires Workers(s) && Conns(s) && Enabled(s, step)
    ensures Conns(Apply(s, step))
  {
    if step.Reconnect? && s.nexts[step.c].worker == s.p.worker {
      assert Live(s, step.c);
    }
  }

  // A step that keeps the worker ID, the state and every continuation's worker.
  lemma SameWorkers(s: Sys, s': Sys)
    requires Workers(s)
    requires s'.p.worker == s.p.worker && s'.p.state.StateStart? == s.p.state.StateStart?
    requires s'.nexts.Keys == s.nexts.Keys && s'.unused >= s.unused
    requires forall c :: c in s.nexts ==> s'.nexts[c].worker == s.nexts[c].worker
    ensures Workers(s')
  {
    assert forall c :: Live(s', c) <==> Live(s, c);
  }

  lemma StaleDropped(s: Sys, c: nat)
    requires Workers(s) && c in s.nexts && !Live(s, c)
    ensures Workers(s.(nexts := s.nexts - {c}))
  {
    var s' := s.(nexts := s.nexts - {c});
    assert forall d :: Live(s', d) <==> Live(s, d);
  }

  lemma StartKeeps(s: Sys)
    requires Workers(s) && Enabled(s, Start)
    ensures Workers(Apply(s, Start))
  {
    var s' := Apply(s, Start);
    if s.p.state.StateTracks? {
      assert Live(s', s.unused);
    }
  }

  lemma StopKeeps(s: Sys)
    requires Workers(s) && Enabled(s, Stop)
    ensures Workers(Apply(s, Stop))
  {
    var s' := Apply(s, Stop);
    if s.p.state.StateStart? {
      assert forall c :: !Live(s', c);
    } else {
      assert forall c :: Live(s', c) <==> Live(s, c);
    }
  }

  lemma WorkersStep(s: Sys, step: Step)
    requires Workers(s) && Conns(s) && Enabled(s, step)
    ensures Workers(Apply(s, step))
  {
    var s' := Apply(s, step);
    if step.Start? {
      StartKeeps(s);
    } else if step.Stop? {
      StopKeeps(s);
    } else if (step.Check? || step.Reconnect?) && !Live(s, step.c) {
      StaleDropped(s, step.c);
    } else {
      if step.Reconnect? {
        assert s.p.state.StateStart?;
      }
      SameWorkers(s, s');
    }
  }

  lemma {:induction false} LifeHolds(states: seq<Sys>, steps: seq<Step>, i: nat)
    requires Run(states, steps) && i < |states|
    ensures Workers(states[i]) && Conns(states[i])
  {
    if i > 0 {
      LifeHolds(states, steps, i - 1);
      assert Enabled(states[i - 1], steps[i - 1]);
      WorkersStep(states[i - 1], steps[i - 1]);
      ConnsStep(states[i - 1], steps[i - 1]);
    }
  }

  // ---------- what every run guarantees ----------

  // Started means exactly one continuation of the current generation; connected means not
  // stateNone; and every connection but the current one has been stopped exactly once.
  lemma ProducerSafety(states: seq<Sys>, steps: seq<Step>, i: nat)
    requires Run(states, steps) && i < |states|
    ensures states[i].p.state.StateStart? <==> exists c :: Live(states[i], c)
    ensures forall c, d :: Live(states[i], c) && Live(states[i], d) ==> c == d
    ensures forall c :: c in states[i].nexts && !Live(states[i], c) ==> states[i].nexts[c].worker < states[i].p.worker
    ensures states[i].p.conn.Some? <==> !states[i].p.state.StateNone?
    ensures forall k :: k in states[i].stops ==>
              states[i].stops[k] == (if states[i].p.conn == Some(k) then 0 else 1)
    ensures !states[i].panicked
  {
    LifeHolds(states, steps, i);
  }

  // A continuation of an older generation leaves the producer and every connection alone.
  lemma StaleIsInert(states: seq<Sys>, steps: seq<Step>, i: nat)
    requires Run(states, steps) && i < |steps|
    requires steps[i].WorkerEnds? || steps[i].Check? || steps[i].Reconnect?
    requires !Live(states[i], steps[i].c)
    ensures states[i + 1].p == states[i].p && states[i + 1].stops == states[i].stops
    ensures !steps[i].WorkerEnds? ==> states[i + 1].nexts == states[i].nexts - {steps[i].c}
  {
    assert Enabled(states[i], steps[i]);
  }

  // A stopped generation never comes back: once stop has ended generation w, no later
  // continuation of w is live, however often the producer is started again.
  lemma {:induction false} StoppedStaysStopped(states: seq<Sys>, steps: seq<Step>, i: nat, j: nat, c: nat)
    requires Run(states, steps) && i < j < |states|
    requires steps[i].Stop? && states[i].p.state.StateStart?
    requires c in states[j].nexts && states[j].nexts[c].worker == states[i].p.worker
    ensures !Live(states[j], c)
  {
    WorkerGrows(states, steps, i + 1, j);
    assert Enabled(states[i], steps[i]);
  }

  lemma {:induction false} WorkerGrows(states: seq<Sys>, steps: seq<Step>, i: nat, j: nat)
    requires Run(states, steps) && i <= j < |states|
    ensures states[i].p.worker <= states[j].p.worker
  {
    if i < j {
      WorkerGrows(states, steps, i, j - 1);
      assert Enabled(states[j - 1], steps[j - 1]);
    }
  }

  // ---------- when a worker starts ----------

  // The producer connects at step d and is not stopped before state i.
  predicate ConnectsAt(states: seq<Sys>, steps: seq<Step>, d: nat, i: nat) {
    && d < i <= |steps| && |states| == |steps| + 1
    && steps[d] == Dial(true) && states[d].p.conn.None?
    && forall k :: d < k < i ==> steps[k] != Stop
  }

  predicate TrackBetween(steps: seq<Step>, d: nat, i: nat)
    requires i <= |steps|
  {
    exists k :: d < k < i && steps[k] == Track(true)
  }

  // A track is added, and later start is called.
  predicate StartedBetween(steps: seq<Step>, d: nat, i: nat)
    requires i <= |steps|
  {
    exists l :: d < l < i && steps[l] == Start && TrackBetween(steps, d, l)
  }

  lemma {:induction false} LastConnect(states: seq<Sys>, steps: seq<Step>, i: nat) returns (d: nat)
    requires Run(states, steps) && i < |states| && states[i].p.conn.Some?
    ensures ConnectsAt(states, steps, d, i)
  {
    var before := states[i - 1];
    assert Enabled(before, steps[i - 1]);
    if before.p.conn.None? {
      LifeHolds(states, steps, i - 1);
      d := i - 1;
    } else {
      d := LastConnect(states, steps, i - 1);
      LifeHolds(states, steps, i - 1);
    }
  }

  lemma StateMoves(s: Sys, step: Step)
    requires Workers(s) && Conns(s) && Enabled(s, step) && s.p.conn.Some? && step != Stop
    ensures Apply(s, step).p.conn.Some?
    ensures Apply(s, step).p.state == if step == Start && s.p.state.StateTracks? then StateStart
                                      else if step == Track(true) && s.p.state.StateMedias? then StateTracks
                                      else s.p.state
  {
  }

  // What has happened since the producer connected decides its state.
  lemma {:induction false} StateSince(states: seq<Sys>, steps: seq<Step>, d: nat, i: nat)
    requires Run(states, steps) && ConnectsAt(states, steps, d, i)
    ensures states[i].p.conn.Some?
    ensures states[i].p.state == if StartedBetween(steps, d, i) then StateStart
                                 else if TrackBetween(steps, d, i) then StateTracks else StateMedias
  {
    assert Enabled(states[i - 1], steps[i - 1]);
    LifeHolds(states, steps, i - 1);
    if d + 1 == i {
      assert !TrackBetween(steps, d, i) && !StartedBetween(steps, d, i);
    } else {
      StateSince(states, steps, d, i - 1);
      StateMoves(states[i - 1], steps[i - 1]);
      SinceGrows(steps, d, i - 1);
      if StartedBetween(steps, d, i - 1) {
        StartedHasTrack(steps, d, i - 1);
      }
    }
  }

  lemma StartedHasTrack(steps: seq<Step>, d: nat, i: nat)
    requires i <= |steps| && StartedBetween(steps, d, i)
    ensures TrackBetween(steps, d, i)
  {
    var l :| d < l < i && steps[l] == Start && TrackBetween(steps, d, l);
    var k :| d < k < l && steps[k] == Track(true);
  }

  lemma SinceGrows(steps: seq<Step>, d: nat, i: nat)
    requires d < i < |steps|
    ensures TrackBetween(steps, d, i + 1) <==> TrackBetween(steps, d, i) || steps[i] == Track(true)
    ensures StartedBetween(steps, d, i + 1) <==>
              StartedBetween(steps, d, i) || (steps[i] == Start && TrackBetween(steps, d, i))
  {
    if k :| d < k < i && steps[k] == Track(true) {
      assert d < k < i + 1;
    }
    if steps[i] == Track(true) {
      assert d < i < i + 1;
    }
    if l :| d < l < i && steps[l] == Start && TrackBetween(steps, d, l) {
      assert d < l < i + 1;
    }
    if steps[i] == Start && TrackBetween(steps, d, i) {
      assert d < i < i + 1;
    }
  }

  // start has an effect exactly if the producer is connected and, since then, a track has been
  // added and start has not been called after one. The effect is one worker of a generation
  // that no continuation has had.
  lemma StartsExactly(states: seq<Sys>, steps: seq<Step>, i: nat)
    requires Run(states, steps) && i < |steps| && steps[i] == Start
    ensures states[i + 1] != states[i] <==>
              exists d: nat :: ConnectsAt(states, steps, d, i) && TrackBetween(steps, d, i) && !StartedBetween(steps, d, i)
    ensures states[i + 1] != states[i] ==>
              && (forall c :: !Live(states[i], c))
              && states[i + 1].p == Life(StateStart, states[i].p.conn, states[i].p.worker + 1)
              && exists c: nat :: c !in states[i].nexts && states[i + 1].nexts == states[i].nexts[c := Running(states[i + 1].p.worker)]
  {
    assert Enabled(states[i], steps[i]);
    LifeHolds(states, steps, i);
    if d: nat :| ConnectsAt(states, steps, d, i) && TrackBetween(steps, d, i) && !StartedBetween(steps, d, i) {
      StateSince(states, steps, d, i);
    }
    if states[i].p.state.StateTracks? {
      var d := LastConnect(states, steps, i);
      StateSince(states, steps, d, i);
      var c := states[i].unused;
      assert c !in states[i].nexts;
      assert states[i + 1].nexts == states[i].nexts[c := Running(states[i + 1].p.worker)];
    }
  }

  // ---------- how a worker goes on ----------

  // Whatever comes between, the current continuation is there until a stop: a worker that has
  // ended reconnects, a failed reconnect is retried, and a good one runs on the new connection.
  lemma CurrentGoesOn(states: seq<Sys>, steps: seq<Step>, i: nat, c: nat)
    requires Run(states, steps) && i < |steps| && Live(states[i], c) && steps[i] != Stop
    ensures Live(states[i + 1], c)
    ensures match steps[i]
            case WorkerEnds(e, failed) =>
              e == c ==> states[i + 1].nexts[c] == if failed then Checking(states[i].p.worker) else Returned(states[i].p.worker)
            case Check(e) => e == c ==> states[i + 1].nexts[c] == Returned(states[i].p.worker)
            case Reconnect(e, ok) =>
              e == c ==> if ok then states[i + 1].nexts[c] == Running(states[i].p.worker)
                                    && states[i + 1].p.conn.Some? && states[i + 1].p.conn.value !in states[i].stops
                         else states[i + 1].nexts[c] == Scheduled(states[i].p.worker, if states[i].nexts[c].Scheduled? then states[i].nexts[c].retry + 1 else 1)
                              && states[i + 1].p == states[i].p
            case _ => states[i + 1].nexts[c] == states[i].nexts[c]
  {
    assert Enabled(states[i], steps[i]);
    LifeHolds(states, steps, i);
  }
}
