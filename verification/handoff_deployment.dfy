/** Many processes, a coordinator and a network: at most one process ever has
  the database open.

  Endpoints are addresses at which one process runs at a time; a restart puts a
  new process with a fresh instance id behind the same address. The network
  never forgets a message, so any command or report may arrive late, twice, or
  not at all. A process may crash at any moment. No file lock appears. */
module Deployment {
  import opened Wrappers
  import opened Lifecycle
  import opened LifecycleGuarantees

  type Endpoint = nat

  datatype Message =
    | Order(to: Endpoint, cmd: Command)
    | Report(instance: string, state: State)

  /** `grantee` is the instance the coordinator last allowed to activate. The
      ghost-like `granted` and `used` only record history. */
  datatype Sys = Sys(
    slots: map<Endpoint, Proc>,
    dead: set<string>,
    net: set<Message>,
    grantee: Option<string>,
    granted: set<string>,
    used: set<string>)

  const Empty: Sys := Sys(map[], {}, {}, None, {}, {})

  datatype Step =
    | Start(at: Endpoint, instance: string, standby: bool)
    | Crash(at: Endpoint)
    | Send(to: Endpoint, instance: string, cmd: Command)
    | Arrive(msg: Message, rnd: string)
    | ReadStatus(at: Endpoint)
    | Local(at: Endpoint, e: Event)

  /** The coordinator's rule (internal/handoff/doc.go): allow a new owner only
      after the previous one reported QUIESCED or was confirmed terminated. */
  predicate MayGrant(s: Sys) {
    || s.grantee.None?
    || s.grantee.value in s.dead
    || Report(s.grantee.value, Quiesced) in s.net
  }

  /** `addressed`: the coordinator puts expectedInstanceId on its activations.
      Starting a process without standby is a grant too: it activates at boot. */
  predicate Allowed(s: Sys, step: Step, addressed: bool) {
    match step
    case Start(at, i, standby) => at !in s.slots && i != "" && i !in s.used && (standby || MayGrant(s))
    case Crash(at) => at in s.slots
    case Send(to, i, cmd) =>
      cmd.kind == Activate ==>
        && i in s.used && (s.grantee == Some(i) || MayGrant(s))
        && (if addressed then cmd.expected == i else cmd.expected in {"", i})
    case Arrive(msg, _) => msg in s.net && msg.Order? && msg.to in s.slots
    case ReadStatus(at) => at in s.slots
    case Local(at, e) => at in s.slots && !e.Receive?
  }

  function Grant(s: Sys, i: string): Sys {
    s.(grantee := Some(i), granted := s.granted + {i})
  }

  function Perform(s: Sys, step: Step): Sys
    requires Allowed(s, step, false)
  {
    match step
    case Start(at, i, standby) =>
      var s1 := s.(slots := s.slots[at := NewProc(i, standby)], used := s.used + {i});
      if standby then s1 else Grant(s1, i)
    case Crash(at) => s.(slots := s.slots - {at}, dead := s.dead + {s.slots[at].ctl.instance})
    case Send(to, i, cmd) =>
      var s1 := s.(net := s.net + {Order(to, cmd)});
      if cmd.kind == Activate then Grant(s1, i) else s1
    case Arrive(msg, rnd) => s.(slots := s.slots[msg.to := Apply(s.slots[msg.to], Receive(msg.cmd, rnd))])
    case ReadStatus(at) => s.(net := s.net + {Report(s.slots[at].ctl.instance, s.slots[at].ctl.state)})
    case Local(at, e) => s.(slots := s.slots[at := Apply(s.slots[at], e)])
  }

  /** A run; a step the coordinator or the platform does not allow is skipped. */
  function Deploy(s: Sys, steps: seq<Step>, addressed: bool): Sys
    decreases |steps|
  {
    if steps == [] then s
    else
      var s1 := if Allowed(s, steps[0], addressed) then Perform(s, steps[0]) else s;
      Deploy(s1, steps[1..], addressed)
  }

  // -------------------------------------------------------------- invariant

  /** Gone for good: terminated, or running but QUIESCED. */
  ghost predicate Retired(s: Sys, i: string) {
    || i in s.dead
    || exists at :: at in s.slots && s.slots[at].ctl.instance == i && s.slots[at].ctl.state == Quiesced
  }

  ghost predicate SlotsInv(s: Sys) {
    && (forall at :: at in s.slots ==>
          && Inv(s.slots[at])
          && s.slots[at].ctl.instance in s.used
          && s.slots[at].ctl.instance !in s.dead
          && s.slots[at].ctl.instance != "")
    && (forall at, at' :: at in s.slots && at' in s.slots && at != at' ==>
          s.slots[at].ctl.instance != s.slots[at'].ctl.instance)
  }

  ghost predicate GrantsInv(s: Sys) {
    && s.dead <= s.used
    && s.granted <= s.used
    && (s.grantee.Some? ==> s.grantee.value in s.granted)
    && (forall i :: i in s.granted && s.grantee != Some(i) ==> Retired(s, i))
    && (forall at :: at in s.slots && (s.slots[at].boots || s.slots[at].ctl.held)
          ==> s.slots[at].ctl.instance in s.granted)
  }

  ghost predicate NetInv(s: Sys) {
    && (forall m :: m in s.net && m.Order? && m.cmd.kind == Activate ==>
          m.cmd.expected != "" && m.cmd.expected in s.granted)
    && (forall m :: m in s.net && m.Report? && m.state == Quiesced ==> Retired(s, m.instance))
  }

  ghost predicate SysInv(s: Sys) {
    SlotsInv(s) && GrantsInv(s) && NetInv(s) && "" !in s.used
  }

  /** A successor of the process in one slot. */
  ghost predicate Succeeds(p: Proc, q: Proc) {
    && Inv(q) && q.ctl.instance == p.ctl.instance
    && (p.ctl.state == Quiesced ==> q.ctl.state == Quiesced)
    && (q.boots ==> p.boots)
  }

  lemma RetiredSurvivesUpdate(s: Sys, at: Endpoint, q: Proc, i: string)
    requires at in s.slots && Succeeds(s.slots[at], q) && Retired(s, i)
    ensures Retired(s.(slots := s.slots[at := q]), i)
  {
    var s' := s.(slots := s.slots[at := q]);
    if i !in s.dead {
      var at' :| at' in s.slots && s.slots[at'].ctl.instance == i && s.slots[at'].ctl.state == Quiesced;
      assert at' in s'.slots && s'.slots[at'].ctl.instance == i && s'.slots[at'].ctl.state == Quiesced;
    }
  }

  lemma UpdateKeepsSlots(s: Sys, at: Endpoint, q: Proc)
    requires SlotsInv(s) && at in s.slots && Succeeds(s.slots[at], q)
    ensures SlotsInv(s.(slots := s.slots[at := q]))
  {
  }

  lemma UpdateKeepsGrants(s: Sys, at: Endpoint, q: Proc)
    requires GrantsInv(s) && at in s.slots && Succeeds(s.slots[at], q)
    requires q.ctl.held ==> q.ctl.instance in s.granted
    ensures GrantsInv(s.(slots := s.slots[at := q]))
  {
    forall i | Retired(s, i) ensures Retired(s.(slots := s.slots[at := q]), i) {
      RetiredSurvivesUpdate(s, at, q, i);
    }
  }

  lemma UpdateKeepsNet(s: Sys, at: Endpoint, q: Proc)
    requires NetInv(s) && at in s.slots && Succeeds(s.slots[at], q)
    ensures NetInv(s.(slots := s.slots[at := q]))
  {
    forall i | Retired(s, i) ensures Retired(s.(slots := s.slots[at := q]), i) {
      RetiredSurvivesUpdate(s, at, q, i);
    }
  }

  /** Replacing the process in one slot by a successor keeps the invariant,
      provided that holding the database now is covered by a grant. */
  lemma UpdateSlot(s: Sys, at: Endpoint, q: Proc)
    requires SysInv(s) && at in s.slots && Succeeds(s.slots[at], q)
    requires q.ctl.held ==> q.ctl.instance in s.granted
    ensures SysInv(s.(slots := s.slots[at := q]))
  {
    UpdateKeepsSlots(s, at, q);
    UpdateKeepsGrants(s, at, q);
    UpdateKeepsNet(s, at, q);
  }

  lemma DeliverIdentity(c: Ctl, cmd: Command, rnd: string)
    ensures Deliver(c, cmd, rnd).ctl.instance == c.instance
  {
  }

  lemma ShutdownIdentity(p: Proc, rnd: string)
    requires ShutdownReady(p)
    ensures AdvanceShutdown(p, rnd).ctl.instance == p.ctl.instance && AdvanceShutdown(p, rnd).boots == p.boots
  {
  }

  lemma ReceiveIdentity(p: Proc, cmd: Command, rnd: string)
    ensures var q := Apply(p, Receive(cmd, rnd)); q.ctl.instance == p.ctl.instance && q.boots == p.boots
  {
    DeliverIdentity(p.ctl, cmd, rnd);
  }

  lemma ReturnsIdentity(p: Proc, w: Worker, raw: Raw)
    ensures var q := Apply(p, Returns(w, raw)); q.ctl.instance == p.ctl.instance && q.boots == p.boots
  {
  }

  lemma Identity(p: Proc, e: Event)
    ensures Apply(p, e).ctl.instance == p.ctl.instance && (Apply(p, e).boots ==> p.boots)
  {
    match e
    case Receive(cmd, rnd) => ReceiveIdentity(p, cmd, rnd);
    case Returns(w, raw) => ReturnsIdentity(p, w, raw);
    case ShutdownStep(rnd) => if ShutdownReady(p) { ShutdownIdentity(p, rnd); }
    case _ =>
  }

  /** What a process does on its own, or on a command, keeps its identity and
      what it has given up, and holding needs a boot still owed or an order
      that may be meant for it. */
  lemma SlotStep(p: Proc, e: Event)
    requires Inv(p)
    ensures var q := Apply(p, e);
      && Succeeds(p, q)
      && (q.ctl.held && !p.ctl.held && !p.boots ==>
            e.Receive? && e.cmd.kind == Activate && e.cmd.expected in {"", p.ctl.instance})
  {
    ApplyInv(p, e);
    Identity(p, e);
    if p.ctl.state == Quiesced {
      QuiescedIsTerminal(p, [e]);
      assert Run(p, [e]) == Run(Apply(p, e), []);
    }
    if !p.ctl.held {
      OnlyAGrantTakesOwnership(p, e);
    }
  }

  lemma StepSlot(s: Sys, at: Endpoint, e: Event)
    requires SysInv(s) && at in s.slots
    requires e.Receive? && e.cmd.kind == Activate ==> e.cmd.expected != "" && e.cmd.expected in s.granted
    ensures SysInv(s.(slots := s.slots[at := Apply(s.slots[at], e)]))
  {
    SlotStep(s.slots[at], e);
    UpdateSlot(s, at, Apply(s.slots[at], e));
  }

  lemma RetiredStays(s: Sys, s': Sys, i: string)
    requires Retired(s, i) && s.dead <= s'.dead
    requires forall at :: at in s.slots ==> at in s'.slots && s'.slots[at] == s.slots[at]
    ensures Retired(s', i)
  {
    if i !in s.dead {
      var at :| at in s.slots && s.slots[at].ctl.instance == i && s.slots[at].ctl.state == Quiesced;
      assert at in s'.slots;
    }
  }

  lemma MayGrantMeansRetired(s: Sys)
    requires SysInv(s) && MayGrant(s) && s.grantee.Some?
    ensures Retired(s, s.grantee.value)
  {
  }

  lemma StartKeeps(s: Sys, at: Endpoint, i: string, standby: bool)
    requires SysInv(s) && Allowed(s, Start(at, i, standby), true)
    ensures SysInv(Perform(s, Start(at, i, standby)))
  {
    var s' := Perform(s, Start(at, i, standby));
    NewProcInv(i, standby);
    if !standby && s.grantee.Some? { MayGrantMeansRetired(s); }
    forall g | Retired(s, g) ensures Retired(s', g) { RetiredStays(s, s', g); }
  }

  lemma CrashKeeps(s: Sys, at: Endpoint)
    requires SysInv(s) && at in s.slots
    ensures SysInv(Perform(s, Crash(at)))
  {
    var s' := Perform(s, Crash(at));
    forall g | Retired(s, g) ensures Retired(s', g) {
      if g !in s.dead {
        var at' :| at' in s.slots && s.slots[at'].ctl.instance == g && s.slots[at'].ctl.state == Quiesced;
        if at' != at { assert at' in s'.slots; }
      }
    }
  }

  lemma SendKeeps(s: Sys, to: Endpoint, i: string, cmd: Command)
    requires SysInv(s) && Allowed(s, Send(to, i, cmd), true)
    ensures SysInv(Perform(s, Send(to, i, cmd)))
  {
    var s' := Perform(s, Send(to, i, cmd));
    if cmd.kind == Activate && s.grantee != Some(i) && s.grantee.Some? { MayGrantMeansRetired(s); }
    forall g | Retired(s, g) ensures Retired(s', g) { RetiredStays(s, s', g); }
  }

  lemma ReadStatusKeeps(s: Sys, at: Endpoint)
    requires SysInv(s) && at in s.slots
    ensures SysInv(Perform(s, ReadStatus(at)))
  {
    var s' := Perform(s, ReadStatus(at));
    forall g | Retired(s, g) ensures Retired(s', g) { RetiredStays(s, s', g); }
  }

  lemma PerformKeeps(s: Sys, step: Step)
    requires SysInv(s) && Allowed(s, step, true)
    ensures SysInv(Perform(s, step))
  {
    match step
    case Start(at, i, standby) => StartKeeps(s, at, i, standby);
    case Crash(at) => CrashKeeps(s, at);
    case Send(to, i, cmd) => SendKeeps(s, to, i, cmd);
    case Arrive(msg, rnd) => StepSlot(s, msg.to, Receive(msg.cmd, rnd));
    case ReadStatus(at) => ReadStatusKeeps(s, at);
    case Local(at, e) => StepSlot(s, at, e);
  }

  lemma {:induction false} DeployInv(s: Sys, steps: seq<Step>)
    requires SysInv(s)
    ensures SysInv(Deploy(s, steps, true))
    decreases |steps|
  {
    if steps != [] {
      var s1 := if Allowed(s, steps[0], true) then Perform(s, steps[0]) else s;
      if Allowed(s, steps[0], true) {
        PerformKeeps(s, steps[0]);
      }
      DeployInv(s1, steps[1..]);
    }
  }

  /** The safety theorem: with an addressing coordinator, in every run of any
      number of processes, restarts, late or repeated commands, signals, and
      failing or panicking services, two processes never have the database open
      at once, nor even count it as held. */
  lemma AtMostOneOwner(steps: seq<Step>, a: Endpoint, b: Endpoint)
    requires var s := Deploy(Empty, steps, true);
      a in s.slots && b in s.slots && (s.slots[a].open || s.slots[a].ctl.held)
      && (s.slots[b].open || s.slots[b].ctl.held)
    ensures a == b
  {
    var s := Deploy(Empty, steps, true);
    DeployInv(Empty, steps);
    forall at | at in s.slots && (s.slots[at].open || s.slots[at].ctl.held)
      ensures s.grantee == Some(s.slots[at].ctl.instance)
    {
      assert !Retired(s, s.slots[at].ctl.instance);
    }
  }

  // -------------------------------------------------- the guard is needed

  const LateX := Command(Activate, "x", "", true)
  const ForB := Command(Activate, "y", "b1", true)

  /** An activation sent to a1 without expectedInstanceId is still in the network
      when a1 crashes ... */
  const Orphaned: seq<Step> := [Start(0, "a1", true), Send(0, "a1", LateX), Crash(0)]

  /** ... the coordinator, seeing a1 terminated, hands over to b1 ... */
  const HandOver: seq<Step> :=
    [Start(1, "b1", true), Send(1, "b1", ForB), Arrive(Order(1, ForB), ""), Local(1, Opens(Worker(0, Activate, "y")))]

  /** ... and a1 restarts as a2 behind the same address, where the old order arrives. */
  const LateArrival: seq<Step> :=
    [Start(0, "a2", true), Arrive(Order(0, LateX), ""), Local(0, Opens(Worker(0, Activate, "x")))]

  function Step1(s: Sys, step: Step): Sys {
    if Allowed(s, step, false) then Perform(s, step) else s
  }

  lemma DeployThree(s: Sys, a: Step, b: Step, c: Step)
    ensures Deploy(s, [a, b, c], false) == Step1(Step1(Step1(s, a), b), c)
  {
    assert [a, b, c][1..] == [b, c] && [b, c][1..] == [c] && [c][1..] == [];
    var s1 := Step1(s, a);
    var s2 := Step1(s1, b);
    assert Deploy(s2, [c], false) == Deploy(Step1(s2, c), [], false);
    assert Deploy(s1, [b, c], false) == Deploy(s2, [c], false);
  }

  function Serving(i: string, id: string, expected: string): Proc {
    Apply(Apply(NewProc(i, true), Receive(Command(Activate, id, expected, true), "")), Opens(Worker(0, Activate, id)))
  }

  lemma ServingIsOpen(i: string, id: string, expected: string)
    requires id != "" && |id| <= 128 && expected in {"", i}
    ensures Serving(i, id, expected).open
  {
    assert Apply(NewProc(i, true), Receive(Command(Activate, id, expected, true), "")).workers == {Worker(0, Activate, id)};
  }

  const AfterOrphan := Sys(map[], {"a1"}, {Order(0, LateX)}, Some("a1"), {"a1"}, {"a1"})

  const AfterHandOver := Sys(map[1 := Serving("b1", "y", "b1")], {"a1"}, {Order(0, LateX), Order(1, ForB)},
                             Some("b1"), {"a1", "b1"}, {"a1", "b1"})

  lemma OrphanRun()
    ensures Deploy(Empty, Orphaned, false) == AfterOrphan
  {
    DeployThree(Empty, Orphaned[0], Orphaned[1], Orphaned[2]);
    var s1 := Step1(Empty, Start(0, "a1", true));
    var s2 := Step1(s1, Send(0, "a1", LateX));
    assert s2.slots.Keys == {0};
    assert Step1(s2, Crash(0)) == AfterOrphan;
  }

  lemma HandOverRun()
    ensures Deploy(AfterOrphan, HandOver, false) == AfterHandOver
  {
    var h := HandOver;
    assert h == [h[0], h[1], h[2]] + [h[3]];
    DeployAppend(AfterOrphan, [h[0], h[1], h[2]], [h[3]], false);
    DeployThree(AfterOrphan, h[0], h[1], h[2]);
    var s1 := Step1(AfterOrphan, h[0]);
    var s2 := Step1(s1, h[1]);
    assert s2.slots == map[1 := NewProc("b1", true)];
    var s3 := Step1(s2, h[2]);
    assert Step1(s3, h[3]) == AfterHandOver;
    assert Deploy(s3, [h[3]], false) == Deploy(Step1(s3, h[3]), [], false);
  }

  /** Without addressing, the same coordinator rule admits a run that ends with
      two processes holding the database open. */
  lemma UnaddressedCommandsAreUnsafe()
    ensures var s := Deploy(Empty, Orphaned + HandOver + LateArrival, false);
      0 in s.slots && 1 in s.slots && s.slots[0].open && s.slots[1].open
  {
    OrphanRun();
    HandOverRun();
    var l := LateArrival;
    DeployThree(AfterHandOver, l[0], l[1], l[2]);
    var t1 := Step1(AfterHandOver, l[0]);
    var t2 := Step1(t1, l[1]);
    var t3 := Step1(t2, l[2]);
    assert t3.slots[0] == Serving("a2", "x", "");
    ServingIsOpen("a2", "x", "");
    ServingIsOpen("b1", "y", "b1");
    DeployAppend(Empty, Orphaned, HandOver, false);
    DeployAppend(Empty, Orphaned + HandOver, LateArrival, false);
  }

  lemma {:induction false} DeployAppend(s: Sys, xs: seq<Step>, ys: seq<Step>, addressed: bool)
    ensures Deploy(s, xs + ys, addressed) == Deploy(Deploy(s, xs, addressed), ys, addressed)
    decreases |xs|
  {
    if xs == [] {
      assert xs + ys == ys;
    } else {
      assert (xs + ys)[1..] == xs[1..] + ys;
      var s1 := if Allowed(s, xs[0], addressed) then Perform(s, xs[0]) else s;
      DeployAppend(s1, xs[1..], ys, addressed);
    }
  }
}
