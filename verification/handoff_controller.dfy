/** The controller as it is written: an object whose methods update the fields
  that Controller.mu guards. Each method is one critical section and is proved
  to take the object's abstract value to the value the Lifecycle functions give;
  what those functions guarantee is proved in handoff_guarantees.dfy. */
module ControllerObject {
  import opened Wrappers
  import opened Lifecycle

  /** An operation record; its status is updated in place when it finishes. */
  class Operation {
    const serial: nat
    const id: string
    const kind: Kind
    const origin: Origin
    var status: Status

    constructor (serial: nat, id: string, kind: Kind, origin: Origin)
      ensures Value() == Op(serial, id, kind, origin, Running)
    {
      this.serial, this.id, this.kind, this.origin, this.status := serial, id, kind, origin, Running;
    }

    ghost function Value(): Op
      reads this
    {
      Op(serial, id, kind, origin, status)
    }
  }

  /** A completion channel. Closing one twice panics, so Close demands it is open. */
  class Done {
    const serial: nat
    var closed: bool

    constructor (serial: nat)
      ensures this.serial == serial && !closed
    {
      this.serial, this.closed := serial, false;
    }

    method Close()
      requires !closed
      modifies this
      ensures closed
    {
      closed := true;
    }
  }

  /** The cancel function of one activation's context. */
  class CancelFunc {
    const serial: nat
    var called: bool

    constructor (serial: nat)
      ensures this.serial == serial && !called
    {
      this.serial, this.called := serial, false;
    }

    method Call()
      modifies this
      ensures called
    {
      called := true;
    }
  }

  class Controller {
    const instanceID: string
    var state: State
    var held: bool
    var op: Operation?
    var opDone: Done?
    var activatedBy: string
    var quiescedBy: string
    var cancelActive: CancelFunc?
    var next: nat
    ghost var closedDone: set<nat>
    ghost var cancelled: set<nat>

    ghost predicate Valid()
      reads this, op, opDone
    {
      && (op == null <==> opDone == null)
      && (opDone != null ==> (opDone.closed <==> opDone.serial in closedDone))
    }

    /** The abstract value of the guarded fields. */
    ghost function View(): Ctl
      reads this, op
    {
      Ctl(instanceID, state, held, if op == null then None else Some(op.Value()),
          if opDone == null then None else Some(opDone.serial),
          activatedBy, quiescedBy, if cancelActive == null then None else Some(cancelActive.serial),
          next, closedDone, cancelled, false)
    }

    constructor (instanceID: string, standby: bool)
      ensures Valid() && View() == NewProc(instanceID, standby).ctl
    {
      this.instanceID := instanceID;
      state := if standby then Standby else Activating;
      held, op, opDone, activatedBy, quiescedBy := false, null, null, "", "";
      cancelActive, next, closedDone, cancelled := null, 0, {}, {};
    }

    method BeginLocked(kind: Kind, origin: Origin, id: string, rnd: string) returns (o: Operation)
      requires Valid() && next !in closedDone
      modifies this
      ensures Valid() && op == o && opDone != null && fresh(o) && fresh(opDone)
      ensures View() == Begin(old(View()), kind, origin, id, rnd)
    {
      o := new Operation(next, if id == "" then OriginName(origin) + "-" + rnd else id, kind, origin);
      op := o;
      opDone := new Done(next);
      match kind {
        case Activate =>
          state := Activating;
          held := true;
          cancelActive := new CancelFunc(next);
        case Quiesce =>
          state := Quiescing;
      }
      next := next + 1;
    }

    /** The caller's operation is the current one and its channel is still open. */
    method FinishLocked(o: Operation, ok: bool)
      requires Valid() && op == o && opDone != null && !opDone.closed
      modifies this`closedDone, o, opDone
      ensures Valid() && View() == Finish(old(View()), o.serial, ok)
    {
      o.status := if ok then Succeeded else Failed;
      opDone.Close();
      closedDone := closedDone + {opDone.serial};
    }

    /** The section that ends runActivate, with what callService returned. */
    method CompleteActivation(o: Operation, out: Outcome)
      requires Valid() && op == o && opDone != null && !opDone.closed
      modifies this, o, opDone, cancelActive
      ensures Valid() && View() == CompleteActivate(old(View()), o.serial, o.id, out)
    {
      if cancelActive != null {
        cancelActive.Call();
        cancelled := cancelled + {cancelActive.serial};
        cancelActive := null;
      }
      if out == StillHeld {
        state, held := Quiescing, true;
        FinishLocked(o, false);
      } else if out == Err {
        state, held := Standby, false;
        FinishLocked(o, false);
      } else {
        state, held, activatedBy := Active, true, o.id;
        FinishLocked(o, true);
      }
    }

    /** The section that ends runQuiesce. */
    method CompleteQuiescence(o: Operation, out: Outcome)
      requires Valid() && op == o && opDone != null && !opDone.closed
      modifies this, o, opDone
      ensures Valid() && View() == CompleteQuiesce(old(View()), o.serial, o.id, out)
    {
      if out != Ok {
        FinishLocked(o, false);
        return;
      }
      state, held, quiescedBy := Quiesced, false, o.id;
      FinishLocked(o, true);
    }

    method FenceLocked(origin: Origin, rnd: string)
      requires Valid() && next !in closedDone
      modifies this
      ensures Valid() && View() == Fence(old(View()), origin, rnd)
    {
      op := new Operation(next, OriginName(origin) + "-" + rnd, Quiesce, origin);
      op.status := Succeeded;
      opDone := new Done(next);
      opDone.Close();
      closedDone := closedDone + {next};
      next := next + 1;
      state, held, quiescedBy := Quiesced, false, op.id;
    }

    method HandleActivateLocked(id: string, rnd: string) returns (reply: Reply, started: Operation?)
      requires Valid() && next !in closedDone
      modifies this
      ensures Valid() && Answers(HandleActivate(old(View()), id, rnd), reply, started)
    {
      started := null;
      match state {
        case Standby =>
          if op != null && op.kind == Activate && op.id == id && id != "" {
            reply := Code(409, "operation_failed");
            return;
          }
          started := BeginLocked(Activate, Api, id, rnd);
          reply := Code(202, "");
        case Activating =>
          if id == "" {
            reply := Code(202, "");
          } else if op == null {
            reply := NilOperation;
          } else if id == op.id {
            reply := Code(202, "");
          } else {
            reply := Code(409, "activation_in_progress");
          }
        case Active =>
          reply := if id == "" || id == activatedBy then Code(200, "") else Code(409, "already_active");
        case _ =>
          reply := Code(409, "released");
      }
    }

    method HandleQuiesceLocked(id: string, rnd: string) returns (reply: Reply, started: Operation?)
      requires Valid() && next !in closedDone
      modifies this
      ensures Valid() && Answers(HandleQuiesce(old(View()), id, rnd), reply, started)
    {
      started := null;
      match state {
        case Standby =>
          FenceLocked(Api, rnd);
          reply := Code(200, "");
        case Activating =>
          reply := if op == null then NilOperation else Code(409, "activation_in_progress");
        case Active =>
          started := BeginLocked(Quiesce, Api, id, rnd);
          reply := Code(202, "");
        case Quiescing =>
          if op == null {
            reply := NilOperation;
          } else if op.status == Running {
            reply := if id == "" || id == op.id then Code(202, "") else Code(409, "quiescence_in_progress");
          } else if id != "" && id == op.id {
            reply := Code(409, "operation_failed");
          } else {
            started := BeginLocked(Quiesce, Api, id, rnd);
            reply := Code(202, "");
          }
        case Quiesced =>
          reply := Code(200, "");
      }
    }

    /** The object's new value and its answer are those of `h`. */
    ghost predicate Answers(h: Handled, reply: Reply, started: Operation?)
      reads this, op, started
    {
      && View() == h.ctl && reply == h.reply
      && (started == null <==> h.started.None?)
      && (started != null ==> started == op && h.started == Some(Worker(started.serial, started.kind, started.id)))
    }

    /** authed, then the handler of the addressed route. */
    method Authed(cmd: Command, rnd: string) returns (reply: Reply, started: Operation?)
      requires Valid() && next !in closedDone
      modifies this
      ensures Valid() && Answers(Deliver(old(View()), cmd, rnd), reply, started)
    {
      started := null;
      if !cmd.tokenOk {
        reply := Code(401, "unauthenticated");
      } else if |cmd.id| > 128 {
        reply := Code(400, "bad_request");
      } else if cmd.expected != "" && cmd.expected != instanceID {
        reply := Code(409, "instance_mismatch");
      } else if cmd.kind == Activate {
        reply, started := HandleActivateLocked(cmd.id, rnd);
      } else {
        reply, started := HandleQuiesceLocked(cmd.id, rnd);
      }
    }

    /** One pass of shutdown's loop up to the point where it blocks or returns:
        the next position, and the quiescence it has begun itself, if any. */
    method ShutdownSection(attempt: nat, rnd: string) returns (sd: Shutdown, started: Operation?)
      requires Valid() && next !in closedDone && (state == Activating ==> op != null) && (state == Quiescing ==> op != null)
      modifies this, cancelActive
      ensures Valid()
      ensures forall boots, workers, open, attempts: nat ::
        var q := AdvanceShutdown(Proc(old(View()), boots, workers, open, Loop(attempt), attempts), rnd);
        && View() == q.ctl && sd == q.sd
        && q.workers == workers + (if started == null then {} else {Worker(started.serial, started.kind, started.id)})
        && q.attempts == attempts + (if started == null then 0 else 1)
    {
      started := null;
      if attempt >= 2 {
        sd := Exited(if held then 1 else 0);
        return;
      }
      match state {
        case Standby =>
          FenceLocked(Signal, rnd);
          sd := Exited(0);
        case Quiesced =>
          sd := Exited(0);
        case Activating =>
          if cancelActive != null {
            cancelActive.Call();
            cancelled := cancelled + {cancelActive.serial};
          }
          sd := Waiting(opDone.serial, attempt);
        case Quiescing =>
          if op.status == Running {
            sd := Waiting(opDone.serial, attempt);
          } else {
            started := BeginLocked(Quiesce, Signal, "", rnd);
            sd := Releasing(opDone.serial, attempt);
          }
        case Active =>
          started := BeginLocked(Quiesce, Signal, "", rnd);
          sd := Releasing(opDone.serial, attempt);
      }
    }
  }
}
