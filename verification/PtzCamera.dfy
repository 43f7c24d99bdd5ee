// The ptzCamera object: each method is one mutex-protected block of ptz_connection.go,
// proved to perform exactly the camera step that the protocol's runs are built from.
module PtzCameras {
  import opened Wrappers
  import P = PtzProtocol

  // A ready channel; it belongs to one generation.
  class Signal {
    const id: nat
    var closed: bool

    constructor (id: nat)
      ensures this.id == id && !closed
    {
      this.id := id;
      closed := false;
    }
  }

  // A lease handle; `closes` counts the calls of its close function.
  class Lease {
    const id: nat
    var closes: nat

    constructor (id: nat)
      ensures this.id == id && closes == 0
    {
      this.id := id;
      closes := 0;
    }
  }

  // time.AfterFunc; its callback remembers the epoch at which it was armed.
  class Keepalive {
    const id: nat
    const epoch: nat
    var stopped: bool

    constructor (id: nat, epoch: nat)
      ensures this.id == id && this.epoch == epoch && !stopped
    {
      this.id := id;
      this.epoch := epoch;
      stopped := false;
    }
  }

  class Context {
    var cancelled: bool

    constructor ()
      ensures !cancelled
    {
      cancelled := false;
    }
  }

  class PtzCamera {
    var users: int
    var epoch: nat
    var ready: Signal?
    var lease: Lease?
    var failed: bool
    var timer: Keepalive?
    var commands: map<nat, Context>
    var next: nat
    ghost var acquires: nat

    ghost predicate Valid()
      reads this
    {
      && epoch == P.Epoch(acquires)
      && forall id :: id in commands ==> id <= next
    }

    ghost function View(): P.Camera
      reads this
    {
      P.Camera(users, acquires,
               if ready == null then None else Some(ready.id),
               if lease == null then None else Some(lease.id),
               failed,
               if timer == null then None else Some(timer.id))
    }

    constructor ()
      ensures Valid() && View() == P.IDLE && commands == map[]
    {
      users, epoch, acquires, next := 0, 0, 0, 0;
      ready, lease, failed, timer := null, null, false, null;
      commands := map[];
    }

    method ClearLocked()
      requires Valid()
      modifies this, lease
      ensures Valid() && View() == P.ClearLocked(old(View())).cam
      ensures old(lease) != null ==> old(lease).closes == old(lease.closes) + 1
      ensures commands == old(commands)
    {
      if lease != null {
        lease.closes := lease.closes + 1;
      }
      lease, failed, ready, timer := null, false, null, null;
    }

    // The first critical section of acquire. `gen` names the connect it may start.
    method Enter(gen: nat) returns (signal: Signal, dial: bool)
      requires Valid()
      modifies this, timer
      ensures Valid() && View() == P.EnterCam(old(View()), gen)
      ensures signal == ready && dial == (old(ready) == null)
      ensures dial ==> fresh(signal) && !signal.closed
      ensures !dial ==> signal == old(ready)
      ensures old(timer) != null ==> old(timer).stopped
      ensures commands == old(commands)
    {
      users := users + 1;
      epoch := (epoch + 1) % P.EPOCHS;
      acquires := acquires + 1;
      if timer != null {
        timer.stopped := true;
        timer := null;
      }
      dial := ready == null;
      if dial {
        ready := new Signal(gen);
      }
      signal := ready;
    }

    // The connect goroutine's critical section; `opened` is what connect returned.
    method Connected(outcome: Lease?)
      requires Valid() && ready != null && !ready.closed
      modifies this, ready, outcome
      ensures Valid()
      ensures var turn := P.ConnectCam(old(View()), if outcome == null then None else Some(outcome.id));
              View() == turn.cam
              && (outcome != null ==> outcome.closes == old(outcome.closes) + (if turn.closed.Some? then 1 else 0))
      ensures old(ready).closed
      ensures commands == old(commands)
    {
      lease, failed := outcome, outcome == null;
      ready.closed := true;
      if users == 0 {
        ClearLocked();
      }
    }

    // `armed` is the timer that this release started; `id` names it.
    method Release(keep: bool, id: nat) returns (armed: Keepalive?)
      requires Valid()
      modifies this, lease
      ensures Valid()
      ensures var signalled := old(ready != null && ready.closed);
              var turn := P.ReleaseCam(old(View()), keep, signalled, id);
              View() == turn.cam
              && (old(lease) != null ==>
                    old(lease).closes == old(lease.closes) + (if turn.closed.Some? then 1 else 0))
              && (armed != null <==> P.ArmsTimer(old(View()), keep, signalled))
      ensures armed != null ==> fresh(armed) && armed == timer && armed.epoch == P.Epoch(acquires) && !armed.stopped
      ensures commands == old(commands)
    {
      armed := null;
      users := users - 1;
      if users != 0 {
        return;
      }
      if ready != null && ready.closed {
        if !keep || failed {
          ClearLocked();
          return;
        }
        armed := new Keepalive(id, epoch);
        timer := armed;
      }
    }

    // The callback of `armed`, which was started when `stamp` acquires had happened.
    method Callback(armed: Keepalive, ghost stamp: nat)
      requires Valid() && armed.epoch == P.Epoch(stamp)
      modifies this, lease
      ensures Valid()
      ensures var turn := P.CallbackCam(old(View()), stamp);
              View() == turn.cam
              && (old(lease) != null ==>
                    old(lease).closes == old(lease.closes) + (if turn.closed.Some? then 1 else 0))
      ensures commands == old(commands)
    {
      if users == 0 && epoch == armed.epoch {
        ClearLocked();
      }
    }

    // command(): registers a context under an identity no other command has had.
    method Command() returns (id: nat, ctx: Context)
      requires Valid()
      modifies this`next, this`commands
      ensures Valid() && View() == old(View())
      ensures id !in old(commands) && old(next) < id
      ensures fresh(ctx) && !ctx.cancelled && commands == old(commands)[id := ctx]
    {
      ctx := new Context();
      next := next + 1;
      id := next;
      commands := commands[id := ctx];
    }

    method Done(id: nat)
      requires Valid() && id in commands
      modifies this`commands, commands[id]
      ensures Valid() && View() == old(View())
      ensures old(commands[id]).cancelled && commands == old(commands) - {id}
    {
      commands[id].cancelled := true;
      commands := commands - {id};
    }

    // Every registered context is cancelled, and no other.
    method CancelCommands()
      requires Valid()
      modifies commands.Values
      ensures Valid()
      ensures forall ctx :: ctx in commands.Values ==> ctx.cancelled
    {
      var left := commands.Keys;
      while left != {}
        invariant left <= commands.Keys
        invariant forall id :: id in commands && id !in left ==> commands[id].cancelled
        decreases |left|
      {
        var id :| id in left;
        commands[id].cancelled := true;
        left := left - {id};
      }
    }
  }

  // ---------- runPTZ ----------

  // The camera connection; `log` is every direction it was asked for.
  class Controller {
    var log: seq<nat>

    constructor ()
      ensures log == []
    {
      log := [];
    }

    method SetDirection(op: nat)
      modifies this
      ensures log == old(log) + [op]
    {
      log := log + [op];
    }
  }

  // What the select of one turn picks: the duration's timer, the ticker or the context.
  datatype Pick = Expired | Tick | Canceled

  // One turn of the loop as the environment decides it: is the context cancelled at the
  // check, does the movement fail, and what does the select pick.
  datatype Round = Round(cancelled: bool, fails: bool, pick: Pick)

  function Repeat(op: nat, count: nat): (ops: seq<nat>)
    ensures |ops| == count && forall i :: 0 <= i < count ==> ops[i] == op
  {
    seq(count, _ => op)
  }

  // The duration timer bounds the run, so the rounds end with one that does not go on. There
  // are k movements: none behind a cancelled check, a failed movement or a select that picks
  // anything but the ticker, and then one stop. `err` is whether an error is returned, and
  // `stopFails` whether the last call fails.
  method RunPtz(controller: Controller, op: nat, cancelled: bool, rounds: seq<Round>, stopFails: bool)
    returns (err: bool, ghost k: nat)
    requires rounds != [] && rounds[|rounds| - 1].pick != Tick
    modifies controller
    ensures cancelled ==> err && controller.log == old(controller.log)
    ensures !cancelled && op == 0 ==> err == stopFails && controller.log == old(controller.log) + [0]
    ensures !cancelled && op != 0 ==>
              && controller.log == old(controller.log) + Repeat(op, k) + [0]
              && k <= |rounds|
              && (forall j :: 0 <= j < k ==> !rounds[j].cancelled)
              && (forall j :: 0 <= j < k - 1 ==> !rounds[j].fails && rounds[j].pick == Tick)
              && (|| (k > 0 && (rounds[k - 1].fails || rounds[k - 1].pick != Tick))
                  || (k < |rounds| && rounds[k].cancelled))
              && (err <==> stopFails || (k == 0 || rounds[k - 1].fails || rounds[k - 1].pick != Expired))
  {
    k := 0;
    if cancelled {
      return true, 0;
    }
    if op == 0 {
      controller.SetDirection(0);
      return stopFails, 0;
    }
    err := false;
    var i := 0;
    while true
      invariant 0 <= i < |rounds| && !err
      invariant forall j :: 0 <= j < i ==> !rounds[j].cancelled && !rounds[j].fails && rounds[j].pick == Tick
      invariant controller.log == old(controller.log) + Repeat(op, i)
      decreases |rounds| - i
    {
      k := i;
      if rounds[i].cancelled {
        err := true;
        break;
      }
      controller.SetDirection(op);
      assert Repeat(op, i + 1) == Repeat(op, i) + [op];
      k := i + 1;
      if rounds[i].fails {
        err := true;
        break;
      }
      if rounds[i].pick != Tick {
        err := rounds[i].pick == Canceled;
        break;
      }
      i := i + 1;
    }
    controller.SetDirection(0);
    err := err || stopFails;
  }
}
