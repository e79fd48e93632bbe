/** The lifecycle of one process in internal/handoff/controller.go, on values.

  Every mutex section of the controller is one function from controller state
  to controller state. `Proc` adds what lives outside the mutex: the goroutines
  running an operation, the database behind the service, and the position of
  Run's shutdown loop. `Apply` interleaves them one atomic step at a time.
  The class in handoff_controller.dfy implements these functions in place. */
module Lifecycle {
  import opened Wrappers

  datatype State = Standby | Activating | Active | Quiescing | Quiesced
  datatype Kind = Activate | Quiesce
  datatype Origin = Api | Boot | Signal
  datatype Status = Running | Succeeded | Failed

  /** `serial` stands for the identity of the operation record: request ids can repeat. */
  datatype Op = Op(serial: nat, id: string, kind: Kind, origin: Origin, status: Status)

  /** What a service call does: return nil, return an error (wrapping ErrStillHeld or not), or panic. */
  datatype Raw = Nil | Failure(stillHeld: bool) | Panic

  /** What callService reports: a panic becomes an error that wraps ErrStillHeld. */
  datatype Outcome = Ok | Err | StillHeld

  function CallService(raw: Raw): Outcome {
    match raw
    case Nil => Ok
    case Failure(stillHeld) => if stillHeld then StillHeld else Err
    case Panic => StillHeld
  }

  /** The Service contract, as the result of a call against the database afterwards. */
  predicate Honours(kind: Kind, out: Outcome, open: bool) {
    match kind
    case Activate => out == Err ==> !open
    case Quiesce => out == Ok ==> !open
  }

  // ---------------------------------------------------------------- mutex sections

  /** The fields Controller.mu guards. A channel is named by the operation it
      belongs to; `closed` holds the channels closed so far and `fault` records
      a close of a nil or already closed channel, which panics in Go. */
  datatype Ctl = Ctl(
    instance: string,
    state: State,
    held: bool,
    op: Option<Op>,
    opDone: Option<nat>,
    activatedBy: string,
    quiescedBy: string,
    cancelActive: Option<nat>,
    next: nat,
    closed: set<nat>,
    cancelled: set<nat>,
    fault: bool)

  function OriginName(o: Origin): string {
    match o
    case Api => "api"
    case Boot => "boot"
    case Signal => "signal"
  }

  function GivenId(origin: Origin, id: string, rnd: string): string {
    if id == "" then OriginName(origin) + "-" + rnd else id
  }

  function Begin(c: Ctl, kind: Kind, origin: Origin, id: string, rnd: string): Ctl {
    var c1 := c.(op := Some(Op(c.next, GivenId(origin, id, rnd), kind, origin, Running)),
                 opDone := Some(c.next), next := c.next + 1);
    match kind
    case Activate => c1.(state := Activating, held := true, cancelActive := Some(c.next))
    case Quiesce => c1.(state := Quiescing)
  }

  function Finish(c: Ctl, serial: nat, ok: bool): (r: Ctl)
    ensures r.instance == c.instance
  {
    var c1 := if c.op.Some? && c.op.value.serial == serial
              then c.(op := Some(c.op.value.(status := if ok then Succeeded else Failed))) else c;
    if c1.opDone.Some? && c1.opDone.value !in c1.closed
    then c1.(closed := c1.closed + {c1.opDone.value})
    else c1.(fault := true)
  }

  function Cancel(c: Ctl): Ctl {
    if c.cancelActive.Some? then c.(cancelled := c.cancelled + {c.cancelActive.value}) else c
  }

  /** The section that ends runActivate. */
  function CompleteActivate(c: Ctl, serial: nat, id: string, out: Outcome): (r: Ctl)
    ensures r.instance == c.instance
  {
    var c1 := Cancel(c).(cancelActive := None);
    match out
    case StillHeld => Finish(c1.(state := Quiescing, held := true), serial, false)
    case Err => Finish(c1.(state := Standby, held := false), serial, false)
    case Ok => Finish(c1.(state := Active, held := true, activatedBy := id), serial, true)
  }

  /** The section that ends runQuiesce. */
  function CompleteQuiesce(c: Ctl, serial: nat, id: string, out: Outcome): (r: Ctl)
    ensures r.instance == c.instance
  {
    if out != Ok then Finish(c, serial, false)
    else Finish(c.(state := Quiesced, held := false, quiescedBy := id), serial, true)
  }

  function Fence(c: Ctl, origin: Origin, rnd: string): Ctl {
    var id := OriginName(origin) + "-" + rnd;
    c.(op := Some(Op(c.next, id, Quiesce, origin, Succeeded)), opDone := Some(c.next),
       closed := c.closed + {c.next}, next := c.next + 1,
       state := Quiesced, held := false, quiescedBy := id)
  }

  // ------------------------------------------------------------------ control API

  datatype Command = Command(kind: Kind, id: string, expected: string, tokenOk: bool)

  /** `NilOperation` is the handler dereferencing c.op before any operation exists. */
  datatype Reply = Code(status: nat, error: string) | NilOperation

  datatype Worker = Worker(serial: nat, kind: Kind, id: string)

  datatype Handled = Handled(ctl: Ctl, reply: Reply, started: Option<Worker>)

  function Started(c: Ctl, kind: Kind, origin: Origin, id: string, rnd: string): Handled {
    Handled(Begin(c, kind, origin, id, rnd), Code(202, ""),
            Some(Worker(c.next, kind, GivenId(origin, id, rnd))))
  }

  function HandleActivate(c: Ctl, id: string, rnd: string): Handled {
    match c.state
    case Standby =>
      if c.op.Some? && c.op.value.kind == Activate && c.op.value.id == id && id != ""
      then Handled(c, Code(409, "operation_failed"), None)
      else Started(c, Activate, Api, id, rnd)
    case Activating =>
      if id == "" then Handled(c, Code(202, ""), None)
      else if c.op.None? then Handled(c, NilOperation, None)
      else if id == c.op.value.id then Handled(c, Code(202, ""), None)
      else Handled(c, Code(409, "activation_in_progress"), None)
    case Active =>
      if id == "" || id == c.activatedBy then Handled(c, Code(200, ""), None)
      else Handled(c, Code(409, "already_active"), None)
    case Quiescing => Handled(c, Code(409, "released"), None)
    case Quiesced => Handled(c, Code(409, "released"), None)
  }

  function HandleQuiesce(c: Ctl, id: string, rnd: string): Handled {
    match c.state
    case Standby => Handled(Fence(c, Api, rnd), Code(200, ""), None)
    case Activating =>
      if c.op.None? then Handled(c, NilOperation, None)
      else Handled(c, Code(409, "activation_in_progress"), None)
    case Active => Started(c, Quiesce, Api, id, rnd)
    case Quiescing =>
      if c.op.None? then Handled(c, NilOperation, None)
      else if c.op.value.status == Running then
        if id == "" || id == c.op.value.id then Handled(c, Code(202, ""), None)
        else Handled(c, Code(409, "quiescence_in_progress"), None)
      else if id != "" && id == c.op.value.id then Handled(c, Code(409, "operation_failed"), None)
      else Started(c, Quiesce, Api, id, rnd)
    case Quiesced => Handled(c, Code(200, ""), None)
  }

  /** authed: nothing reaches a handler without the token, or addressed to another instance. */
  function Deliver(c: Ctl, cmd: Command, rnd: string): Handled {
    if !cmd.tokenOk then Handled(c, Code(401, "unauthenticated"), None)
    else if |cmd.id| > 128 then Handled(c, Code(400, "bad_request"), None)
    else if cmd.expected != "" && cmd.expected != c.instance then Handled(c, Code(409, "instance_mismatch"), None)
    else match cmd.kind
      case Activate => HandleActivate(c, cmd.id, rnd)
      case Quiesce => HandleQuiesce(c, cmd.id, rnd)
  }

  // --------------------------------------------------------------------- processes

  /** Where Run's shutdown loop stands. `Waiting` and `Releasing` block on the
      channel of one operation: another goroutine's, or the quiescence shutdown began itself. */
  datatype Shutdown =
    | NotStarted
    | Loop(attempt: nat)
    | Waiting(serial: nat, attempt: nat)
    | Releasing(serial: nat, attempt: nat)
    | Exited(code: nat)

  /** `boots`: the boot activation is still to come. `open`: the service has the
      database open. `attempts`: quiescences begun by shutdown itself. */
  datatype Proc = Proc(ctl: Ctl, boots: bool, workers: set<Worker>, open: bool, sd: Shutdown, attempts: nat)

  /** New, with or without Options.Standby. */
  function NewProc(instance: string, standby: bool): Proc {
    Proc(Ctl(instance, if standby then Standby else Activating, false, None, None, "", "", None, 0, {}, {}, false),
         !standby, {}, false, NotStarted, 0)
  }

  datatype Event =
    | BootActivation(rnd: string)
    | Receive(cmd: Command, rnd: string)
    | Opens(w: Worker)
    | Closes(w: Worker)
    | Returns(w: Worker, raw: Raw)
    | Terminate
    | ShutdownStep(rnd: string)

  predicate ShutdownReady(p: Proc) {
    match p.sd
    case NotStarted => false
    case Loop(_) => true
    case Waiting(s, _) => s in p.ctl.closed
    case Releasing(s, _) => s in p.ctl.closed
    case Exited(_) => false
  }

  predicate Enabled(p: Proc, e: Event) {
    match e
    case BootActivation(_) => p.boots
    case Receive(_, _) => true
    case Opens(w) => w in p.workers && w.kind == Activate
    case Closes(w) => w in p.workers
    case Returns(w, raw) => w in p.workers && Honours(w.kind, CallService(raw), p.open)
    case Terminate => !p.boots && p.sd == NotStarted
    case ShutdownStep(_) => ShutdownReady(p)
  }

  /** One mutex section of shutdown: the top of the loop, or waking from a wait. */
  function AdvanceShutdown(p: Proc, rnd: string): Proc
    requires ShutdownReady(p)
  {
    var c := p.ctl;
    match p.sd
    case Waiting(_, a) => p.(sd := Loop(a))
    case Releasing(_, a) => p.(sd := Loop(a + 1))
    case Loop(a) =>
      if a >= 2 then p.(sd := Exited(if c.held then 1 else 0))
      else (match c.state
        case Standby => p.(ctl := Fence(c, Signal, rnd), sd := Exited(0))
        case Quiesced => p.(sd := Exited(0))
        case Activating =>
          var c1 := Cancel(c);
          p.(ctl := c1, sd := match c1.opDone case Some(s) => Waiting(s, a) case None => p.sd)
        case Quiescing =>
          if c.op.Some? && c.op.value.status == Running
          then p.(sd := match c.opDone case Some(s) => Waiting(s, a) case None => p.sd)
          else StartRelease(p, a, rnd)
        case Active => StartRelease(p, a, rnd))
  }

  function StartRelease(p: Proc, a: nat, rnd: string): Proc {
    var h := Started(p.ctl, Quiesce, Signal, "", rnd);
    p.(ctl := h.ctl, workers := p.workers + {h.started.value},
       sd := Releasing(p.ctl.next, a), attempts := p.attempts + 1)
  }

  function AfterCommand(p: Proc, h: Handled): Proc {
    p.(ctl := h.ctl, workers := if h.started.Some? then p.workers + {h.started.value} else p.workers)
  }

  /** One step; an event that is not enabled changes nothing. */
  function Apply(p: Proc, e: Event): Proc {
    if !Enabled(p, e) then p else
    match e
    case BootActivation(rnd) =>
      AfterCommand(p.(boots := false), Started(p.ctl.(state := Standby), Activate, Boot, "boot", rnd))
    case Receive(cmd, rnd) => AfterCommand(p, Deliver(p.ctl, cmd, rnd))
    case Opens(_) => p.(open := true)
    case Closes(_) => p.(open := false)
    case Returns(w, raw) =>
      p.(workers := p.workers - {w},
         ctl := match w.kind
           case Activate => CompleteActivate(p.ctl, w.serial, w.id, CallService(raw))
           case Quiesce => CompleteQuiesce(p.ctl, w.serial, w.id, CallService(raw)))
    case Terminate => p.(sd := Loop(0))
    case ShutdownStep(rnd) => AdvanceShutdown(p, rnd)
  }

  function Run(p: Proc, es: seq<Event>): Proc
    decreases |es|
  {
    if es == [] then p else Run(Apply(p, es[0]), es[1..])
  }

  // --------------------------------------------------------------------- invariant

  ghost predicate OperationBelongs(c: Ctl) {
    && !c.fault
    && (c.op.None? <==> c.opDone.None?)
    && (c.op.Some? ==>
          && c.opDone == Some(c.op.value.serial)
          && c.op.value.serial < c.next
          && (c.op.value.status == Running <==> c.op.value.serial !in c.closed))
    && (forall s :: s in c.closed ==> s < c.next)
    && (forall s: nat :: s < c.next && c.opDone != Some(s) ==> s in c.closed)
  }

  ghost predicate StateMatchesOperation(c: Ctl) {
    match c.state
    case Standby => c.op.None? || (c.op.value.kind == Activate && c.op.value.status == Failed)
    case Activating => c.op.Some? && c.op.value.kind == Activate && c.op.value.status == Running
                       && c.cancelActive == c.opDone
    case Active => c.op.Some? && c.op.value.kind == Activate && c.op.value.status == Succeeded
                   && c.activatedBy == c.op.value.id
    case Quiescing => c.op.Some? && (if c.op.value.kind == Activate then c.op.value.status == Failed
                                     else c.op.value.status != Succeeded)
    case Quiesced => c.op.Some? && c.op.value.kind == Quiesce && c.op.value.status == Succeeded
                     && c.quiescedBy == c.op.value.id
  }

  ghost predicate ShutdownInv(p: Proc) {
    match p.sd
    case NotStarted => p.attempts == 0
    case Loop(a) => a <= 2 && p.attempts == a && (a > 0 ==> p.ctl.state in {Quiescing, Quiesced})
    case Waiting(s, a) => a < 2 && p.attempts == a && s < p.ctl.next
                          && (a > 0 ==> p.ctl.state in {Quiescing, Quiesced})
                          && (p.ctl.state == Activating && p.ctl.opDone == Some(s) ==> s in p.ctl.cancelled)
    case Releasing(s, a) => a < 2 && p.attempts == a + 1 && s < p.ctl.next
                            && p.ctl.state in {Quiescing, Quiesced}
    case Exited(code) => p.attempts <= 2 && (code == 0 ==> p.ctl.state == Quiesced)
                         && (code != 0 ==> code == 1 && p.attempts == 2)
  }

  /** What the mutex-guarded fields satisfy from the first operation on. */
  ghost predicate CtlInv(c: Ctl) {
    && (c.held <==> c.state !in {Standby, Quiesced})
    && OperationBelongs(c)
    && StateMatchesOperation(c)
    && (c.state != Activating ==> c.cancelActive.None?)
  }

  function RunningWorkers(c: Ctl): set<Worker> {
    if c.op.Some? && c.op.value.status == Running
    then {Worker(c.op.value.serial, c.op.value.kind, c.op.value.id)} else {}
  }

  ghost predicate BeforeBoot(p: Proc) {
    p == NewProc(p.ctl.instance, false)
  }

  /** The inductive invariant of one process. A process that boots without
      standby has it from its boot activation on. */
  ghost predicate Inv(p: Proc) {
    if p.boots then BeforeBoot(p)
    else
      && CtlInv(p.ctl)
      && (p.open ==> p.ctl.held)
      && p.workers == RunningWorkers(p.ctl)
      && ShutdownInv(p)
  }

  lemma NewProcInv(instance: string, standby: bool)
    ensures Inv(NewProc(instance, standby))
  {
  }

  ghost predicate MayBegin(c: Ctl, kind: Kind) {
    match kind
    case Activate => c.state == Standby
    case Quiesce => c.state == Active || (c.state == Quiescing && c.op.Some? && c.op.value.status == Failed)
  }

  lemma BeginInv(c: Ctl, kind: Kind, origin: Origin, id: string, rnd: string)
    requires CtlInv(c) && MayBegin(c, kind)
    ensures CtlInv(Begin(c, kind, origin, id, rnd)) && RunningWorkers(c) == {}
    ensures RunningWorkers(Begin(c, kind, origin, id, rnd)) == {Worker(c.next, kind, GivenId(origin, id, rnd))}
  {
  }

  lemma FenceInv(c: Ctl, origin: Origin, rnd: string)
    requires CtlInv(c) && c.state == Standby
    ensures CtlInv(Fence(c, origin, rnd)) && RunningWorkers(Fence(c, origin, rnd)) == {} == RunningWorkers(c)
  {
  }

  lemma CompleteInv(c: Ctl, w: Worker, out: Outcome)
    requires CtlInv(c) && RunningWorkers(c) == {w}
    ensures w.kind == Activate ==> var c1 := CompleteActivate(c, w.serial, w.id, out);
      CtlInv(c1) && RunningWorkers(c1) == {}
    ensures w.kind == Quiesce ==> var c1 := CompleteQuiesce(c, w.serial, w.id, out);
      CtlInv(c1) && RunningWorkers(c1) == {}
  {
    assert w in RunningWorkers(c);
  }

  lemma DeliverInv(c: Ctl, cmd: Command, rnd: string)
    requires CtlInv(c)
    ensures var h := Deliver(c, cmd, rnd);
      && CtlInv(h.ctl)
      && RunningWorkers(h.ctl) == RunningWorkers(c) + (if h.started.Some? then {h.started.value} else {})
  {
    match c.state
    case Standby =>
      BeginInv(c, Activate, Api, cmd.id, rnd);
      FenceInv(c, Api, rnd);
    case Active => BeginInv(c, Quiesce, Api, cmd.id, rnd);
    case Quiescing => if c.op.value.status == Failed { BeginInv(c, Quiesce, Api, cmd.id, rnd); }
    case _ =>
  }

  lemma ReceiveInv(p: Proc, cmd: Command, rnd: string)
    requires Inv(p)
    ensures Inv(Apply(p, Receive(cmd, rnd)))
  {
    if !p.boots {
      DeliverInv(p.ctl, cmd, rnd);
    }
  }

  lemma ReturnsInv(p: Proc, w: Worker, raw: Raw)
    requires Inv(p)
    ensures Inv(Apply(p, Returns(w, raw)))
  {
    if Enabled(p, Returns(w, raw)) {
      CompleteInv(p.ctl, w, CallService(raw));
    }
  }

  lemma ShutdownStepInv(p: Proc, rnd: string)
    requires Inv(p)
    ensures Inv(Apply(p, ShutdownStep(rnd)))
  {
    var c := p.ctl;
    if p.sd.Loop? && p.sd.attempt < 2 {
      if c.state == Standby {
        FenceInv(c, Signal, rnd);
      } else if MayBegin(c, Quiesce) {
        BeginInv(c, Quiesce, Signal, "", rnd);
      }
    }
  }

  lemma ApplyInv(p: Proc, e: Event)
    requires Inv(p)
    ensures Inv(Apply(p, e))
  {
    match e
    case BootActivation(rnd) =>
      if p.boots { BeginInv(p.ctl.(state := Standby), Activate, Boot, "boot", rnd); }
    case Receive(cmd, rnd) => ReceiveInv(p, cmd, rnd);
    case Returns(w, raw) => ReturnsInv(p, w, raw);
    case ShutdownStep(rnd) => ShutdownStepInv(p, rnd);
    case _ =>
  }

  lemma {:induction false} RunInv(p: Proc, es: seq<Event>)
    requires Inv(p)
    ensures Inv(Run(p, es))
    decreases |es|
  {
    if es != [] {
      ApplyInv(p, es[0]);
      RunInv(Apply(p, es[0]), es[1..]);
    }
  }
}
