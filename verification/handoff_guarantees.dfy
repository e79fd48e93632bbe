/** What internal/handoff promises of one process, over every run: any
  interleaving of control commands, service outcomes, panics and SIGTERM. */
module LifecycleGuarantees {
  import opened Wrappers
  import opened Lifecycle

  // -------------------------------------------------------------- ownership

  /** Every reachable process: the database is open only while counted as held,
      held is exactly "neither STANDBY nor QUIESCED", at most one operation
      runs, the completion channel belongs to it and is closed exactly once it
      has ended, and no channel is closed twice. */
  lemma EveryRunIsConsistent(instance: string, standby: bool, es: seq<Event>)
    ensures var p := Run(NewProc(instance, standby), es); var c := p.ctl;
      && (p.open ==> c.held)
      && (!p.boots ==> (c.held <==> c.state != Standby && c.state != Quiesced))
      && |p.workers| <= 1
      && (forall w :: w in p.workers ==>
            c.op.Some? && c.op.value.serial == w.serial && c.op.value.status == Status.Running
            && c.opDone == Some(w.serial) && w.serial !in c.closed)
      && (c.op.Some? ==>
            && c.opDone == Some(c.op.value.serial)
            && (c.op.value.status == Status.Running <==> c.op.value.serial !in c.closed))
      && c.next !in c.closed && !c.fault
  {
    NewProcInv(instance, standby);
    RunInv(NewProc(instance, standby), es);
  }

  ghost predicate GrantsOwnership(p: Proc, e: Event) {
    || (e.BootActivation? && p.boots)
    || (e.Receive? && e.cmd.kind == Activate && e.cmd.tokenOk && p.ctl.state == Standby
        && (e.cmd.expected == "" || e.cmd.expected == p.ctl.instance))
  }

  /** Ownership is never inferred: only the boot activation, or an authenticated
      activation addressed to this process in STANDBY, makes it hold the database. */
  lemma OnlyAGrantTakesOwnership(p: Proc, e: Event)
    requires Inv(p) && !p.ctl.held
    ensures Apply(p, e).ctl.held ==> GrantsOwnership(p, e)
    ensures !Apply(p, e).open
  {
    ApplyInv(p, e);
  }

  /** QUIESCED is terminal: no event changes a field of the controller again,
      no operation starts, and the database is never reopened. */
  lemma {:induction false} QuiescedIsTerminal(p: Proc, es: seq<Event>)
    requires Inv(p) && p.ctl.state == Quiesced
    ensures var q := Run(p, es);
      q.ctl == p.ctl && q.workers == {} && !q.open
    decreases |es|
  {
    if es != [] {
      ApplyInv(p, es[0]);
      assert Apply(p, es[0]).ctl == p.ctl;
      QuiescedIsTerminal(Apply(p, es[0]), es[1..]);
    }
  }

  // ---------------------------------------------------------------- commands

  /** What an accepting answer commits to. 202 names an operation that is running
      now, 200 a state that has been reached. */
  lemma RepliesTellTheTruth(p: Proc, cmd: Command, rnd: string)
    requires Inv(p)
    ensures var h := Deliver(p.ctl, cmd, rnd); var c := h.ctl;
      && (h.reply == Code(202, "") && !p.boots ==>
            c.op.Some? && c.op.value.kind == cmd.kind && c.op.value.status == Running
            && (cmd.id != "" ==> c.op.value.id == cmd.id))
      && (h.reply == Code(200, "") ==>
            c.state == (if cmd.kind == Activate then Active else Quiesced))
      && (h.started.Some? ==> MayBegin(p.ctl, cmd.kind) && h.reply == Code(202, ""))
      && (h.reply.Code? && h.reply.status >= 400 ==> c == p.ctl)
  {
  }

  /** A handler reads a missing operation only in the window between the control
      listener opening and the boot activation, and exactly for these requests. */
  lemma MissingOperationOnlyBeforeBoot(p: Proc, cmd: Command, rnd: string)
    requires Inv(p)
    ensures Deliver(p.ctl, cmd, rnd).reply == NilOperation <==>
      p.boots && cmd.tokenOk && |cmd.id| <= 128 && (cmd.expected == "" || cmd.expected == p.ctl.instance)
      && (cmd.kind == Quiesce || cmd.id != "")
  {
  }

  /** Replaying the id of the current or latest operation starts nothing and
      changes nothing, whatever state that operation has led to. */
  lemma ReplayIsInert(p: Proc, cmd: Command, rnd: string)
    requires Inv(p) && p.ctl.op.Some?
    requires cmd.id != "" && cmd.id == p.ctl.op.value.id && cmd.kind == p.ctl.op.value.kind
    ensures Apply(p, Receive(cmd, rnd)) == p
  {
  }

  /** A command delivered twice in a row does what it does once, id or no id. */
  lemma DuplicateDelivery(p: Proc, cmd: Command, rnd: string, rnd': string)
    requires Inv(p)
    ensures var once := Apply(p, Receive(cmd, rnd)); Apply(once, Receive(cmd, rnd')) == once
  {
  }

  /** The latest operation keeps its id and kind, or a newer one has begun. */
  ghost predicate KeepsLatest(c: Ctl, c': Ctl) {
    && c.op.Some? && c'.op.Some? && c.next <= c'.next
    && (c'.next == c.next ==> c'.op.value.id == c.op.value.id && c'.op.value.kind == c.op.value.kind)
  }

  lemma LatestReceive(p: Proc, cmd: Command, rnd: string)
    requires Inv(p) && p.ctl.op.Some?
    ensures KeepsLatest(p.ctl, Apply(p, Receive(cmd, rnd)).ctl)
  {
  }

  lemma LatestReturns(p: Proc, w: Worker, raw: Raw)
    requires Inv(p) && p.ctl.op.Some?
    ensures KeepsLatest(p.ctl, Apply(p, Returns(w, raw)).ctl)
  {
  }

  lemma LatestOperationStep(p: Proc, e: Event)
    requires Inv(p) && p.ctl.op.Some?
    ensures KeepsLatest(p.ctl, Apply(p, e).ctl)
  {
    match e
    case Receive(cmd, rnd) => LatestReceive(p, cmd, rnd);
    case Returns(w, raw) => LatestReturns(p, w, raw);
    case _ =>
  }

  lemma {:induction false} LatestOperationStays(p: Proc, es: seq<Event>)
    requires Inv(p) && p.ctl.op.Some?
    ensures var q := Run(p, es).ctl;
      && q.op.Some? && p.ctl.next <= q.next
      && (q.next == p.ctl.next ==> q.op.value.id == p.ctl.op.value.id && q.op.value.kind == p.ctl.op.value.kind)
    decreases |es|
  {
    if es != [] {
      ApplyInv(p, es[0]);
      LatestOperationStep(p, es[0]);
      LatestOperationStays(Apply(p, es[0]), es[1..]);
    }
  }

  /** Over a run: until a newer operation begins, every copy of the command that
      named the latest operation is inert, however late it arrives. */
  lemma LateReplayIsInert(p: Proc, es: seq<Event>, cmd: Command, rnd: string)
    requires Inv(p) && p.ctl.op.Some?
    requires cmd.id != "" && cmd.id == p.ctl.op.value.id && cmd.kind == p.ctl.op.value.kind
    requires Run(p, es).ctl.next == p.ctl.next
    ensures Apply(Run(p, es), Receive(cmd, rnd)) == Run(p, es)
  {
    RunInv(p, es);
    LatestOperationStays(p, es);
    ReplayIsInert(Run(p, es), cmd, rnd);
  }

  /** The memory is one operation deep: after a second failed activation, the id
      of the first one starts an activation again. */
  lemma ReplayMemoryIsOneDeep()
    ensures var p := NewProc("i", true);
      var a, b := Receive(Command(Activate, "a", "i", true), ""), Receive(Command(Activate, "b", "i", true), "");
      var failA, failB := Returns(Worker(0, Activate, "a"), Failure(false)), Returns(Worker(1, Activate, "b"), Failure(false));
      && Run(p, [a, failA, a]) == Run(p, [a, failA])
      && Run(p, [a, failA, b, failB, a]).workers == {Worker(2, Activate, "a")}
  {
    var p := NewProc("i", true);
    var a, b := Receive(Command(Activate, "a", "i", true), ""), Receive(Command(Activate, "b", "i", true), "");
    var failA, failB := Returns(Worker(0, Activate, "a"), Failure(false)), Returns(Worker(1, Activate, "b"), Failure(false));
    var p1 := Apply(p, a);
    assert p1.workers == {Worker(0, Activate, "a")};
    var p2 := Apply(p1, failA);
    assert Apply(p2, a) == p2;
    RunTwo(p, a, failA);
    RunTwo(p2, a, b);
    assert [a, failA, a] == [a, failA] + [a];
    RunAppend(p, [a, failA], [a]);
    assert Run(p2, [a]) == Run(Apply(p2, a), []);
    var p3 := Apply(p2, b);
    assert p3.workers == {Worker(1, Activate, "b")};
    var p4 := Apply(p3, failB);
    RunTwo(p2, b, failB);
    assert Run(p4, [a]) == Run(Apply(p4, a), []);
    RunAppend(p2, [b, failB], [a]);
    RunAppend(p, [a, failA], [b, failB] + [a]);
    assert [a, failA, b, failB, a] == [a, failA] + ([b, failB] + [a]);
  }

  lemma {:induction false} RunAppend(p: Proc, es: seq<Event>, fs: seq<Event>)
    ensures Run(p, es + fs) == Run(Run(p, es), fs)
    decreases |es|
  {
    if es == [] {
      assert es + fs == fs;
    } else {
      assert (es + fs)[1..] == es[1..] + fs;
      RunAppend(Apply(p, es[0]), es[1..], fs);
    }
  }

  lemma RunTwo(p: Proc, e: Event, f: Event)
    ensures Run(p, [e, f]) == Apply(Apply(p, e), f)
  {
    assert [e, f][1..] == [f];
    assert Run(Apply(p, e), [f]) == Run(Apply(Apply(p, e), f), []);
  }

  // ---------------------------------------------------------------- shutdown

  /** Exit code 0 means released: QUIESCED, not held, not open, nothing running,
      now and however the process goes on; and shutdown begins at most two
      quiescences of its own, exactly two before it gives up with 1. */
  lemma ExitZeroMeansReleased(instance: string, standby: bool, es: seq<Event>, later: seq<Event>)
    ensures var p := Run(NewProc(instance, standby), es); var q := Run(p, later);
      && p.attempts <= 2
      && (p.sd == Exited(0) ==> p.ctl.state == Quiesced && !p.ctl.held
                                && q.ctl == p.ctl && !q.open && q.workers == {})
      && (p.sd.Exited? && p.sd.code != 0 ==> p.sd.code == 1 && p.attempts == 2)
  {
    var p := Run(NewProc(instance, standby), es);
    NewProcInv(instance, standby);
    RunInv(NewProc(instance, standby), es);
    if p.sd == Exited(0) {
      QuiescedIsTerminal(p, later);
    }
  }

  /** An activation that shutdown waits for has had its context cancelled. */
  lemma WaitsOnlyForCancelledActivations(p: Proc)
    requires Inv(p) && p.sd.Waiting? && p.ctl.state == Activating && p.ctl.opDone == Some(p.sd.serial)
    ensures forall w :: w in p.workers ==> w.kind == Activate && w.serial in p.ctl.cancelled
  {
  }

  function InProgress(p: Proc): nat {
    if p.workers == {} then 0 else 1
  }

  /** How much shutdown still has to do if nobody else starts an operation. */
  function Remaining(p: Proc): int {
    var w := InProgress(p);
    match p.sd
    case NotStarted => 0
    case Loop(a) => 3 * (2 - a) + 3 * w + 1
    case Waiting(s, a) => 3 * (2 - a) + (if s in p.ctl.closed then 3 * w + 2 else 3)
    case Releasing(s, a) => 3 * (2 - a) + (if s in p.ctl.closed then 3 * w - 1 else 0)
    case Exited(_) => 2 * w
  }

  predicate Progress(p: Proc, e: Event) {
    Enabled(p, e) && (e.ShutdownStep? || e.Returns?)
  }

  /** A control command that starts an operation, or another wait of ours for one. */
  predicate Starts(p: Proc, e: Event) {
    e.Receive? && Deliver(p.ctl, e.cmd, e.rnd).started.Some?
  }

  lemma RemainingSteps(p: Proc, e: Event)
    requires Inv(p) && p.sd != NotStarted
    ensures Apply(p, e).sd != NotStarted && Remaining(p) >= 0
    ensures Remaining(Apply(p, e)) + (if Progress(p, e) then 1 else 0)
            <= Remaining(p) + (if Starts(p, e) then 3 else 0)
  {
    ApplyInv(p, e);
  }

  function CountProgress(p: Proc, es: seq<Event>): nat
    decreases |es|
  {
    if es == [] then 0
    else (if Progress(p, es[0]) then 1 else 0) + CountProgress(Apply(p, es[0]), es[1..])
  }

  function CountStarts(p: Proc, es: seq<Event>): nat
    decreases |es|
  {
    if es == [] then 0
    else (if Starts(p, es[0]) then 1 else 0) + CountStarts(Apply(p, es[0]), es[1..])
  }

  /** Shutdown terminates: over any run, its own steps and the operations that
      finish number at most a constant plus three per operation that somebody
      else started meanwhile. */
  lemma {:induction false} ShutdownTerminates(p: Proc, es: seq<Event>)
    requires Inv(p) && p.sd != NotStarted
    ensures CountProgress(p, es) <= Remaining(p) + 3 * CountStarts(p, es)
    ensures Remaining(p) <= 11
    decreases |es|
  {
    RemainingSteps(p, ShutdownStep(""));
    if es != [] {
      RemainingSteps(p, es[0]);
      ApplyInv(p, es[0]);
      ShutdownTerminates(Apply(p, es[0]), es[1..]);
    }
  }

  /** ... and it is never stuck: until it has exited it can take a step itself,
      or it waits for an operation that is still running. */
  lemma ShutdownIsNeverStuck(p: Proc)
    requires Inv(p) && p.sd != NotStarted && !p.sd.Exited?
    ensures Progress(p, ShutdownStep("")) || exists w :: w in p.workers && Progress(p, Returns(w, Panic))
  {
    if !ShutdownReady(p) {
      var c := p.ctl;
      var w := Worker(c.op.value.serial, c.op.value.kind, c.op.value.id);
      assert w in p.workers;
      assert Progress(p, Returns(w, Panic));
    }
  }
}
