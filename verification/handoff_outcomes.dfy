/** What becomes of a process, on its states and fields: when a command starts an
  operation, where each end of an operation leads, how shutdown ends, and that
  ownership can be handed over. */
module LifecycleOutcomes {
  import opened Wrappers
  import opened Lifecycle
  import opened LifecycleGuarantees

  // ------------------------------------------------------------ commands

  /** The command gets past the token, the length limit and the instance guard. */
  predicate Addressed(p: Proc, cmd: Command) {
    cmd.tokenOk && |cmd.id| <= 128 && (cmd.expected == "" || cmd.expected == p.ctl.instance)
  }

  /** The id is that of the latest operation. */
  predicate IsRepeat(p: Proc, id: string) {
    id != "" && p.ctl.op.Some? && p.ctl.op.value.id == id
  }

  /** When a command has to start an operation. */
  predicate MustStart(p: Proc, cmd: Command) {
    && Addressed(p, cmd)
    && match cmd.kind
       case Activate => p.ctl.state == Standby && !IsRepeat(p, cmd.id)
       case Quiesce => p.ctl.state == Active || (p.ctl.state == Quiescing && p.workers == {} && !IsRepeat(p, cmd.id))
  }

  function NamedBy(cmd: Command, rnd: string): string {
    if cmd.id == "" then "api-" + rnd else cmd.id
  }

  /** A command starts an operation exactly when it must; a standby told to
      quiesce is fenced at once; and nothing else changes a process. */
  lemma CommandOutcome(p: Proc, cmd: Command, rnd: string)
    requires Inv(p)
    ensures var q, w := Apply(p, Receive(cmd, rnd)), Worker(p.ctl.next, cmd.kind, NamedBy(cmd, rnd));
      if MustStart(p, cmd) then
        && q.workers == {w} && q.ctl.held && q.ctl.op == Some(Op(w.serial, w.id, w.kind, Api, Running))
        && q.ctl.state == (if cmd.kind == Activate then Activating else Quiescing)
      else if Addressed(p, cmd) && cmd.kind == Quiesce && p.ctl.state == Standby then
        q.workers == {} && q.ctl.state == Quiesced && !q.ctl.held && q.open == p.open
      else q == p
  {
    if MustStart(p, cmd) {
      assert GivenId(Api, cmd.id, rnd) == NamedBy(cmd, rnd);
      assert Apply(p, Receive(cmd, rnd)).workers == {Worker(p.ctl.next, cmd.kind, NamedBy(cmd, rnd))};
    }
  }

  /** The answers that accept: 202 for an operation that starts or is under way
      under no other id, 200 for what already holds. */
  lemma AcceptedIff(p: Proc, cmd: Command, rnd: string)
    requires Inv(p) && !p.boots
    ensures var reply, c := Deliver(p.ctl, cmd, rnd).reply, p.ctl;
      && (reply == Code(202, "") <==>
            MustStart(p, cmd)
            || (Addressed(p, cmd) && (cmd.id == "" || IsRepeat(p, cmd.id)) && exists w :: w in p.workers && w.kind == cmd.kind))
      && (reply == Code(200, "") <==>
            Addressed(p, cmd) && if cmd.kind == Activate then c.state == Active && (cmd.id == "" || cmd.id == c.activatedBy)
                                 else c.state == Standby || c.state == Quiesced)
  {
    assert forall w :: w in p.workers ==> w.kind == p.ctl.op.value.kind;
    if p.workers != {} {
      assert Worker(p.ctl.op.value.serial, p.ctl.op.value.kind, p.ctl.op.value.id) in p.workers;
    }
  }

  lemma BootOutcome(p: Proc, rnd: string)
    requires Inv(p) && p.boots
    ensures var q := Apply(p, BootActivation(rnd));
      q.ctl.state == Activating && q.ctl.held && q.workers == {Worker(0, Activate, "boot")} && !q.boots
  {
  }

  // ---------------------------------------------------------- ends of operations

  /** What the service may return, by the database it leaves behind: a quiescence
      is nil, and an activation fails without holding, only with it closed. */
  predicate MayReturn(p: Proc, w: Worker, raw: Raw) {
    && w in p.workers
    && (w.kind == Quiesce && raw == Nil ==> !p.open)
    && (w.kind == Activate && raw == Failure(false) ==> !p.open)
  }

  /** Where each end of an operation leads. */
  lemma ReturnOutcome(p: Proc, w: Worker, raw: Raw)
    requires Inv(p) && MayReturn(p, w, raw)
    ensures var q := Apply(p, Returns(w, raw)); var c := q.ctl;
      && q.workers == {} && c.op.Some? && c.op.value.id == w.id && c.op.value.kind == w.kind
      && (raw == Nil && w.kind == Activate ==>
            c.state == Active && c.held && c.activatedBy == w.id && c.op.value.status == Succeeded)
      && (raw == Nil && w.kind == Quiesce ==>
            c.state == Quiesced && !c.held && c.quiescedBy == w.id && c.op.value.status == Succeeded)
      && (raw == Failure(false) && w.kind == Activate ==> c.state == Standby && !c.held && c.op.value.status == Failed)
      && (raw != Nil && !(raw == Failure(false) && w.kind == Activate) ==>
            c.state == Quiescing && c.held && c.op.value.status == Failed)
  {
  }

  predicate Ends(e: Event, w: Worker) {
    e.Returns? && e.w == w
  }

  lemma {:induction false} WorkerStays(p: Proc, es: seq<Event>, w: Worker)
    requires w in p.workers && forall e :: e in es ==> !Ends(e, w)
    ensures w in Run(p, es).workers
    decreases |es|
  {
    if es != [] {
      assert !Ends(es[0], w);
      WorkerStays(Apply(p, es[0]), es[1..], w);
    }
  }

  /** After a command that has to start an operation, whatever happens meanwhile,
      a nil return makes the process ACTIVE under the command's id, or releases it for good. */
  lemma StartedThenNil(p: Proc, cmd: Command, rnd: string, es: seq<Event>, later: seq<Event>)
    requires Inv(p) && MustStart(p, cmd)
    requires forall e :: e in es ==> !Ends(e, Worker(p.ctl.next, cmd.kind, NamedBy(cmd, rnd)))
    ensures var w, q := Worker(p.ctl.next, cmd.kind, NamedBy(cmd, rnd)), Run(Apply(p, Receive(cmd, rnd)), es);
      var r := Apply(q, Returns(w, Nil));
      && w in q.workers
      && (cmd.kind == Activate ==> r.ctl.state == Active && r.ctl.held && r.ctl.activatedBy == w.id)
      && (cmd.kind == Quiesce && !q.open ==>
            r.ctl.state == Quiesced && !r.ctl.held && r.ctl.quiescedBy == w.id && Run(r, later).ctl == r.ctl && !Run(r, later).open)
  {
    var w, start := Worker(p.ctl.next, cmd.kind, NamedBy(cmd, rnd)), Apply(p, Receive(cmd, rnd));
    var q := Run(start, es);
    CommandOutcome(p, cmd, rnd);
    WorkerStays(start, es, w);
    ApplyInv(p, Receive(cmd, rnd));
    RunInv(start, es);
    if cmd.kind == Activate || !q.open {
      ReturnOutcome(q, w, Nil);
      ApplyInv(q, Returns(w, Nil));
      if cmd.kind == Quiesce {
        QuiescedIsTerminal(Apply(q, Returns(w, Nil)), later);
      }
    }
  }

  // ------------------------------------------------------------------ shutdown

  /** Shutdown exits with 0 exactly if the process is then released. */
  lemma ExitCodeIff(p: Proc, rnd: string)
    requires Inv(p) && !p.sd.Exited?
    ensures var q := Apply(p, ShutdownStep(rnd));
      q.sd.Exited? ==> (q.sd.code == 0 <==> q.ctl.state == Quiesced) && (q.sd.code == 0 <==> !q.ctl.held)
  {
    ApplyInv(p, ShutdownStep(rnd));
  }

  /** What shutdown does at the top of its loop. */
  lemma ShutdownOutcome(p: Proc, rnd: string)
    requires Inv(p) && !p.boots && p.sd.Loop? && p.sd.attempt < 2
    ensures var q, c := Apply(p, ShutdownStep(rnd)), p.ctl;
      && (c.state == Standby || c.state == Quiesced ==> q.sd == Exited(0) && q.ctl.state == Quiesced)
      && (c.state == Activating ==>
            q.sd == Waiting(c.op.value.serial, p.sd.attempt) && c.op.value.serial in q.ctl.cancelled && q.workers == p.workers)
      && (c.state == Quiescing && p.workers != {} ==> q == p.(sd := Waiting(c.op.value.serial, p.sd.attempt)))
      && (c.state == Active || (c.state == Quiescing && p.workers == {}) ==>
            q.ctl.state == Quiescing && q.workers == {Worker(c.next, Quiesce, "signal-" + rnd)}
            && q.sd == Releasing(c.next, p.sd.attempt) && q.attempts == p.attempts + 1)
  {
    if p.ctl.state == Active || (p.ctl.state == Quiescing && p.workers == {}) {
      assert GivenId(Signal, "", rnd) == "signal-" + rnd;
      assert Apply(p, ShutdownStep(rnd)).workers == {Worker(p.ctl.next, Quiesce, "signal-" + rnd)};
    }
  }

  /** A process that serves when the signal comes, and whose service then closes
      its database and returns nil, exits with 0. */
  lemma AServingProcessExitsZero(p: Proc, rnd: string)
    requires Inv(p) && !p.boots && p.sd == Loop(0) && p.ctl.state == Active
    ensures var w := Worker(p.ctl.next, Quiesce, "signal-" + rnd);
      Run(p, [ShutdownStep(rnd), Closes(w), Returns(w, Nil), ShutdownStep(""), ShutdownStep("")]).sd == Exited(0)
  {
    var w := Worker(p.ctl.next, Quiesce, "signal-" + rnd);
    var p1 := Apply(p, ShutdownStep(rnd));
    var p2 := Apply(p1, Closes(w));
    var p3 := Apply(p2, Returns(w, Nil));
    var p4 := Apply(p3, ShutdownStep(""));
    ShutdownOutcome(p, rnd);
    ApplyInv(p, ShutdownStep(rnd));
    ApplyInv(p1, Closes(w));
    ReturnOutcome(p2, w, Nil);
    ApplyInv(p2, Returns(w, Nil));
    ApplyInv(p3, ShutdownStep(""));
    assert p4.sd == Loop(1);
    ShutdownOutcome(p4, "");
    RunTwo(p, ShutdownStep(rnd), Closes(w));
    RunTwo(p2, Returns(w, Nil), ShutdownStep(""));
    assert Run(p4, [ShutdownStep("")]) == Run(Apply(p4, ShutdownStep("")), []);
    RunAppend(p2, [Returns(w, Nil), ShutdownStep("")], [ShutdownStep("")]);
    RunAppend(p, [ShutdownStep(rnd), Closes(w)], [Returns(w, Nil), ShutdownStep("")] + [ShutdownStep("")]);
    assert [ShutdownStep(rnd), Closes(w)] + ([Returns(w, Nil), ShutdownStep("")] + [ShutdownStep("")])
      == [ShutdownStep(rnd), Closes(w), Returns(w, Nil), ShutdownStep(""), ShutdownStep("")];
  }
}
