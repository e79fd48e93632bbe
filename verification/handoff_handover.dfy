/** Ownership can be handed over: the coordinator's rule, which leaves at most
  one owner, does not stop a release and a takeover that everyone plays along with. */
module Handover {
  import opened Wrappers
  import opened Lifecycle
  import opened LifecycleOutcomes
  import opened Deployment

  function Order(to: Endpoint, cmd: Command): Message {
    Message.Order(to, cmd)
  }

  /** Release the process at `a`: order it, let it close, and read that it has QUIESCED. */
  function ReleaseSteps(a: Endpoint, instance: string, serial: nat): seq<Step> {
    var cmd, w := Command(Quiesce, "", instance, true), Worker(serial, Quiesce, "api-");
    [Send(a, instance, cmd), Arrive(Order(a, cmd), ""), Local(a, Closes(w)), Local(a, Returns(w, Nil)), ReadStatus(a)]
  }

  /** Let the process at `b` take over: order it, and let it open the database. */
  function TakeSteps(b: Endpoint, instance: string, serial: nat): seq<Step> {
    var cmd, w := Command(Activate, "", instance, true), Worker(serial, Activate, "api-");
    [Send(b, instance, cmd), Arrive(Order(b, cmd), ""), Local(b, Opens(w))]
  }

  function Next(s: Sys, step: Step): Sys {
    if Allowed(s, step, true) then Perform(s, step) else s
  }

  lemma OneStep(s: Sys, step: Step, rest: seq<Step>)
    ensures Deploy(s, [step] + rest, true) == Deploy(Next(s, step), rest, true)
  {
    assert ([step] + rest)[1..] == rest;
  }

  lemma ThreeSteps(s: Sys, x: Step, y: Step, z: Step)
    ensures Deploy(s, [x, y, z], true) == Next(Next(Next(s, x), y), z)
  {
    OneStep(s, x, [y, z]);
    OneStep(Next(s, x), y, [z]);
    OneStep(Next(Next(s, x), y), z, []);
    assert [x] + [y, z] == [x, y, z] && [y] + [z] == [y, z] && [z] + [] == [z];
  }

  /** An order sent to a process arrives and is handled. */
  lemma Ordered(s: Sys, at: Endpoint, cmd: Command)
    requires at in s.slots && Allowed(s, Send(at, s.slots[at].ctl.instance, cmd), true)
    ensures var s' := Next(Next(s, Send(at, s.slots[at].ctl.instance, cmd)), Arrive(Order(at, cmd), ""));
      && s'.slots == s.slots[at := Apply(s.slots[at], Receive(cmd, ""))] && s'.used == s.used && s.net <= s'.net
      && s'.grantee == if cmd.kind == Activate then Some(s.slots[at].ctl.instance) else s.grantee
  {
  }

  lemma Alone(s: Sys, at: Endpoint, e: Event)
    requires at in s.slots && !e.Receive?
    ensures Next(s, Local(at, e)) == s.(slots := s.slots[at := Apply(s.slots[at], e)])
  {
  }

  /** The service closes the database and returns nil. */
  lemma ClosesAndReturns(p: Proc, w: Worker)
    requires Inv(p) && w in p.workers && w.kind == Quiesce
    ensures var q := Apply(Apply(p, Closes(w)), Returns(w, Nil));
      q.ctl.state == Quiesced && !q.open && q.ctl.instance == p.ctl.instance
  {
    ApplyInv(p, Closes(w));
    ReturnOutcome(Apply(p, Closes(w)), w, Nil);
    Identity(Apply(p, Closes(w)), Returns(w, Nil));
  }

  /** What a release leaves: the process QUIESCED, and the coordinator told so. */
  ghost predicate IsReleased(s: Sys, s': Sys, a: Endpoint) {
    && a in s.slots && a in s'.slots && s'.slots == s.slots[a := s'.slots[a]]
    && s'.slots[a].ctl.state == Quiesced && !s'.slots[a].open
    && Report(s.slots[a].ctl.instance, Quiesced) in s'.net && s'.grantee == s.grantee && s'.used == s.used
  }

  lemma LastOfRelease(s: Sys, a: Endpoint, w: Worker)
    requires a in s.slots && Inv(s.slots[a]) && w in s.slots[a].workers && w.kind == Quiesce
    ensures IsReleased(s, Deploy(s, [Local(a, Closes(w)), Local(a, Returns(w, Nil)), ReadStatus(a)], true), a)
  {
    ThreeSteps(s, Local(a, Closes(w)), Local(a, Returns(w, Nil)), ReadStatus(a));
    Alone(s, a, Closes(w));
    Alone(Next(s, Local(a, Closes(w))), a, Returns(w, Nil));
    ClosesAndReturns(s.slots[a], w);
  }

  lemma TwoSteps(s: Sys, x: Step, y: Step)
    ensures Deploy(s, [x, y], true) == Next(Next(s, x), y)
  {
    OneStep(s, x, [y]);
    OneStep(Next(s, x), y, []);
    assert [x] + [y] == [x, y] && [y] + [] == [y];
  }

  lemma OrderArrives(s: Sys, at: Endpoint, cmd: Command)
    requires at in s.slots && Allowed(s, Send(at, s.slots[at].ctl.instance, cmd), true) && cmd.kind == Quiesce
    ensures var s' := Deploy(s, [Send(at, s.slots[at].ctl.instance, cmd), Arrive(Order(at, cmd), "")], true);
      s'.slots == s.slots[at := Apply(s.slots[at], Receive(cmd, ""))] && s'.used == s.used && s'.grantee == s.grantee
  {
    Ordered(s, at, cmd);
    TwoSteps(s, Send(at, s.slots[at].ctl.instance, cmd), Arrive(Order(at, cmd), ""));
  }

  /** A serving process that is told to release is at work on it. */
  lemma ReleaseBegins(p: Proc, cmd: Command)
    requires Inv(p) && p.ctl.state == Active && cmd == Command(Quiesce, "", p.ctl.instance, true)
    ensures var q := Apply(p, Receive(cmd, "")); Inv(q) && Worker(p.ctl.next, Quiesce, "api-") in q.workers && q.ctl.instance == p.ctl.instance
  {
    assert "api-" + "" == "api-";
    CommandOutcome(p, cmd, "");
    ApplyInv(p, Receive(cmd, ""));
    Identity(p, Receive(cmd, ""));
  }

  lemma ReleasedSince(s: Sys, s2: Sys, s': Sys, a: Endpoint)
    requires a in s.slots && a in s2.slots && s2.slots == s.slots[a := s2.slots[a]] && s2.grantee == s.grantee && s2.used == s.used
    requires s2.slots[a].ctl.instance == s.slots[a].ctl.instance && IsReleased(s2, s', a)
    ensures IsReleased(s, s', a)
  {
  }

  /** And it does release, given that its service can. */
  lemma Releases(s: Sys, a: Endpoint)
    requires SysInv(s) && a in s.slots && s.slots[a].ctl.state == Active
    ensures IsReleased(s, Deploy(s, ReleaseSteps(a, s.slots[a].ctl.instance, s.slots[a].ctl.next), true), a)
  {
    var p := s.slots[a];
    var cmd, w := Command(Quiesce, "", p.ctl.instance, true), Worker(p.ctl.next, Quiesce, "api-");
    var first, last := [Send(a, p.ctl.instance, cmd), Arrive(Order(a, cmd), "")], [Local(a, Closes(w)), Local(a, Returns(w, Nil)), ReadStatus(a)];
    OrderArrives(s, a, cmd);
    ReleaseBegins(p, cmd);
    var s2 := Deploy(s, first, true);
    LastOfRelease(s2, a, w);
    ReleasedSince(s, s2, Deploy(s2, last, true), a);
    DeployAppend(s, first, last, true);
    assert first + last == ReleaseSteps(a, p.ctl.instance, p.ctl.next);
  }

  /** A standby that may be granted ownership takes it. */
  lemma Takes(s: Sys, b: Endpoint)
    requires SysInv(s) && b in s.slots && s.slots[b].ctl.state == Standby && MayGrant(s)
    ensures var s' := Deploy(s, TakeSteps(b, s.slots[b].ctl.instance, s.slots[b].ctl.next), true);
      b in s'.slots && s'.slots == s.slots[b := s'.slots[b]] && s'.slots[b].ctl.held && s'.slots[b].open
  {
    var q := s.slots[b];
    var cmd, v := Command(Activate, "", q.ctl.instance, true), Worker(q.ctl.next, Activate, "api-");
    Ordered(s, b, cmd);
    assert "api-" + "" == "api-";
    CommandOutcome(q, cmd, "");
    var s2 := Next(Next(s, Send(b, q.ctl.instance, cmd)), Arrive(Order(b, cmd), ""));
    Alone(s2, b, Opens(v));
    ThreeSteps(s, Send(b, q.ctl.instance, cmd), Arrive(Order(b, cmd), ""), Local(b, Opens(v)));
  }

  /** From a system whose owner serves and where another process stands by, there
      is an addressed run after which the owner is QUIESCED and the other has the
      database open. */
  lemma HandOverIsPossible(s: Sys, a: Endpoint, b: Endpoint)
    requires SysInv(s) && a in s.slots && b in s.slots && a != b
    requires s.slots[a].ctl.state == Active && s.grantee == Some(s.slots[a].ctl.instance)
    requires s.slots[b].ctl.state == Standby
    ensures var p, q := s.slots[a].ctl, s.slots[b].ctl;
      var s' := Deploy(s, ReleaseSteps(a, p.instance, p.next) + TakeSteps(b, q.instance, q.next), true);
      && a in s'.slots && s'.slots[a].ctl.state == Quiesced && !s'.slots[a].open
      && b in s'.slots && s'.slots[b].ctl.held && s'.slots[b].open
  {
    var p, q := s.slots[a].ctl, s.slots[b].ctl;
    var rs, ts := ReleaseSteps(a, p.instance, p.next), TakeSteps(b, q.instance, q.next);
    Releases(s, a);
    DeployInv(s, rs);
    Takes(Deploy(s, rs, true), b);
    DeployAppend(s, rs, ts, true);
  }
}
