/** How the Grid and the mesh relay release their database: cmd/server/grid.go
  and cmd/mesh-relay/main.go.

  Both Quiesce methods are a fixed list of steps, each guarded by "the resource
  exists and the step has not succeeded yet", each recorded once it has
  succeeded, and abandoned at the first step that fails. `Release` is that list
  on values; what it guarantees over any sequence of failing, panicking and
  retried calls is proved once and holds of both. */
module Release {
  import L = Lifecycle

  datatype Outcome = Works | Fails | Panics

  /** `done` counts the steps already recorded (they are recorded in order); the
      last step closes the store. `log` lists the steps that were carried out. */
  datatype Pipeline = Pipeline(present: seq<bool>, done: nat, log: seq<nat>)

  predicate Shape(p: Pipeline) {
    |p.present| > 0 && p.done <= |p.present|
  }

  predicate StoreOpen(p: Pipeline)
    requires Shape(p)
  {
    p.present[|p.present| - 1] && p.done < |p.present|
  }

  datatype Ended = Ended(after: Pipeline, result: L.Raw)

  /** Quiesce: the recorded steps are skipped, a step whose resource does not
      exist is recorded at once, and env says how an attempted step goes. */
  function Quiesce(p: Pipeline, env: seq<Outcome>): (r: Ended)
    requires Shape(p) && |env| == |p.present|
    ensures Shape(r.after) && r.after.present == p.present
    decreases |p.present| - p.done
  {
    var i := p.done;
    if i == |p.present| then Ended(p, L.Nil)
    else if !p.present[i] then Quiesce(p.(done := i + 1), env)
    else match env[i]
      case Works => Quiesce(p.(done := i + 1, log := p.log + [i]), env)
      case Fails => Ended(p, L.Failure(false))
      case Panics => Ended(p, L.Panic)
  }

  /** The log lists exactly the recorded steps whose resource exists, in order. */
  ghost predicate Inv(p: Pipeline) {
    && Shape(p)
    && (forall a, b :: 0 <= a < b < |p.log| ==> p.log[a] < p.log[b])
    && (forall i: nat :: i in p.log <==> i < p.done && p.present[i])
  }

  /** A service that has just started activating. */
  predicate Untouched(p: Pipeline) {
    p.log == [] && p.done == 0
  }

  lemma {:induction false} QuiesceInv(p: Pipeline, env: seq<Outcome>)
    requires Inv(p) && |env| == |p.present|
    ensures var r := Quiesce(p, env);
      && Inv(r.after) && p.log <= r.after.log && p.done <= r.after.done
      && (r.result == L.Nil <==> r.after.done == |p.present|)
    decreases |p.present| - p.done
  {
    var i := p.done;
    if i < |p.present| {
      if !p.present[i] {
        QuiesceInv(p.(done := i + 1), env);
      } else if env[i] == Works {
        var q := p.(done := i + 1, log := p.log + [i]);
        assert forall a :: 0 <= a < |p.log| ==> p.log[a] in p.log;
        QuiesceInv(q, env);
      }
    }
  }

  function Quiesces(p: Pipeline, envs: seq<seq<Outcome>>): (q: Pipeline)
    requires Shape(p) && forall e :: e in envs ==> |e| == |p.present|
    ensures Shape(q) && q.present == p.present
    decreases |envs|
  {
    if envs == [] then p else Quiesces(Quiesce(p, envs[0]).after, envs[1..])
  }

  lemma {:induction false} QuiescesInv(p: Pipeline, envs: seq<seq<Outcome>>)
    requires Inv(p) && forall e :: e in envs ==> |e| == |p.present|
    ensures Inv(Quiesces(p, envs)) && p.log <= Quiesces(p, envs).log
    decreases |envs|
  {
    if envs != [] {
      QuiesceInv(p, envs[0]);
      QuiescesInv(Quiesce(p, envs[0]).after, envs[1..]);
    }
  }

  /** Over any sequence of calls, however each step fails: the steps carried out
      are in order and none twice, and the store is closed only once every
      earlier step whose resource exists has been carried out. */
  lemma StepsInOrderAndOnce(p: Pipeline, envs: seq<seq<Outcome>>)
    requires Shape(p) && Untouched(p) && forall e :: e in envs ==> |e| == |p.present|
    ensures var q := Quiesces(p, envs); var store := |p.present| - 1;
      && (forall a, b :: 0 <= a < b < |q.log| ==> q.log[a] < q.log[b])
      && (p.present[store] ==> (StoreOpen(q) <==> store !in q.log))
      && (store in q.log ==> forall i: nat :: i <= store && p.present[i] ==> i in q.log)
  {
    QuiescesInv(p, envs);
  }

  /** A retry resumes at the step that failed: whatever it carries out comes
      after everything already carried out. */
  lemma RetryResumes(p: Pipeline, env: seq<Outcome>, env': seq<Outcome>)
    requires Inv(p) && |env| == |env'| == |p.present|
    ensures var q := Quiesce(p, env).after; var r := Quiesce(q, env').after;
      && q.log <= r.log
      && forall a, b :: 0 <= a < |q.log| <= b < |r.log| ==> q.log[a] < r.log[b]
  {
    QuiesceInv(p, env);
    QuiesceInv(Quiesce(p, env).after, env');
  }

  /** nil means released, whatever happened before. */
  lemma NilMeansStoreClosed(p: Pipeline, envs: seq<seq<Outcome>>, env: seq<Outcome>)
    requires Shape(p) && Untouched(p) && |env| == |p.present| && forall e :: e in envs ==> |e| == |p.present|
    ensures var r := Quiesce(Quiesces(p, envs), env);
      && (r.result == L.Nil ==> !StoreOpen(r.after))
      && L.Honours(L.Quiesce, L.CallService(r.result), StoreOpen(r.after))
  {
    QuiescesInv(p, envs);
    QuiesceInv(Quiesces(p, envs), env);
  }

  /** Step i is still to be carried out. */
  predicate IsDue(p: Pipeline, i: nat)
    requires Shape(p)
  {
    p.done <= i < |p.present| && p.present[i]
  }

  /** A call carries out the steps that are due until one does not work: if all
      work it returns nil and everything is released, and otherwise it ends at
      the first that does not, with an error or in a panic. */
  lemma {:induction false} QuiesceOutcome(p: Pipeline, env: seq<Outcome>)
    requires Inv(p) && |env| == |p.present|
    ensures var r := Quiesce(p, env);
      if forall i: nat :: IsDue(p, i) ==> env[i] == Works then
        r.result == L.Nil && !StoreOpen(r.after) && forall i: nat :: i < |p.present| && p.present[i] ==> i in r.after.log
      else
        && IsDue(p, r.after.done) && (forall i: nat :: IsDue(p, i) && i < r.after.done ==> env[i] == Works && i in r.after.log)
        && r.after.done !in r.after.log && env[r.after.done] != Works
        && r.result == if env[r.after.done] == Fails then L.Failure(false) else L.Panic
    decreases |p.present| - p.done
  {
    QuiesceInv(p, env);
    var i := p.done;
    if i < |p.present| && (!p.present[i] || env[i] == Works) {
      var q := if p.present[i] then p.(done := i + 1, log := p.log + [i]) else p.(done := i + 1);
      NextInv(p, q);
      QuiesceOutcome(q, env);
      forall k ensures IsDue(p, k) <==> (k == i && p.present[i]) || IsDue(q, k) {
      }
      QuiesceInv(q, env);
    }
  }

  lemma NextInv(p: Pipeline, q: Pipeline)
    requires Inv(p) && p.done < |p.present|
    requires q == if p.present[p.done] then p.(done := p.done + 1, log := p.log + [p.done]) else p.(done := p.done + 1)
    ensures Inv(q) && p.log <= q.log
  {
    assert forall a :: 0 <= a < |p.log| ==> p.log[a] in p.log;
  }

  /** Activate: what it opened before it ended, and whether it ended in an error
      (or panicked), in which case it quiesces and reports ErrStillHeld if that
      could not release. A panic of the cleanup itself reaches the controller. */
  function Activate(got: Pipeline, failed: bool, cleanup: seq<Outcome>): (r: Ended)
    requires Shape(got) && |cleanup| == |got.present|
    ensures Shape(r.after)
  {
    if !failed then Ended(got, L.Nil)
    else
      var q := Quiesce(got, cleanup);
      match q.result
      case Nil => Ended(q.after, L.Failure(false))
      case Failure(_) => Ended(q.after, L.Failure(true))
      case Panic => Ended(q.after, L.Panic)
  }

  /** An activation error that does not wrap ErrStillHeld means the store is
      closed: Activate keeps the contract the controller relies on. */
  lemma ActivateHonoursTheContract(got: Pipeline, failed: bool, cleanup: seq<Outcome>)
    requires Shape(got) && Untouched(got) && |cleanup| == |got.present|
    ensures var r := Activate(got, failed, cleanup);
      && L.Honours(L.Activate, L.CallService(r.result), StoreOpen(r.after))
      && (r.result == L.Nil <==> !failed)
      && Inv(r.after)
  {
    QuiesceInv(got, cleanup);
  }

  /** A failed activation whose cleanup works has released everything, and says so. */
  lemma ActivateOutcome(got: Pipeline, cleanup: seq<Outcome>)
    requires Shape(got) && Untouched(got) && |cleanup| == |got.present|
    ensures (forall i: nat :: IsDue(got, i) ==> cleanup[i] == Works) ==>
      Activate(got, true, cleanup).result == L.Failure(false) && !StoreOpen(Activate(got, true, cleanup).after)
    ensures !(forall i: nat :: IsDue(got, i) ==> cleanup[i] == Works) ==> Activate(got, true, cleanup).result in {L.Failure(true), L.Panic}
    ensures Activate(got, false, cleanup) == Ended(got, L.Nil)
  {
    QuiesceOutcome(got, cleanup);
  }
}

/** gridApp of cmd/server/grid.go. */
module GridService {
  import L = Lifecycle
  import opened Release

  /** A component of the service: nil, running, or stopped. */
  datatype Resource = Absent | Running | Stopped

  /** How each step goes if it is attempted. Draining the gate and closing the
      MeshCore registry return no error. */
  datatype Env = Env(drainPanics: bool, scheduler: Outcome, meshPanics: bool, background: Outcome, store: Outcome)
  {
    function Steps(): (s: seq<Outcome>)
      ensures |s| == 5
    {
      [if drainPanics then Panics else Works, scheduler, if meshPanics then Panics else Works, background, store]
    }
  }

  /** How far Activate got: the store opened, background readers and the
      registry started or not, the scheduler started; then it failed or served. */
  datatype Reached = Nothing | Store | Mesh(background: bool, registry: bool) | Scheduler(background: bool, registry: bool)
  {
    function Started(): (p: Pipeline)
      ensures Shape(p) && Untouched(p) && |p.present| == 5
    {
      Pipeline([true, Scheduler?, (Mesh? || Scheduler?) && registry, true, !Nothing?], 0, [])
    }
  }

  /** How many of five success flags are set, counted from the first. */
  function Recorded(a: bool, b: bool, c: bool, d: bool, e: bool): (n: nat)
    ensures n <= 5
  {
    if !a then 0 else if !b then 1 else if !c then 2 else if !d then 3 else if !e then 4 else 5
  }

  class GridApp {
    var gate: Resource
    var scheduler: Resource
    var meshReg: Resource
    var background: Resource
    var store: Resource
    var drained: bool
    var workers: bool
    var mesh: bool
    var bg: bool
    var closed: bool
    ghost var log: seq<nat>

    /** The wait for background readers runs whether or not any were started. */
    ghost function View(): (p: Pipeline)
      reads this
      ensures Shape(p)
    {
      Pipeline([gate != Absent, scheduler != Absent, meshReg != Absent, true, store != Absent],
               Recorded(drained, workers, mesh, bg, closed), log)
    }

    /** Each component runs until its step is done. */
    ghost predicate Valid()
      reads this
    {
      && (workers ==> drained) && (mesh ==> workers) && (bg ==> mesh) && (closed ==> bg)
      && (gate != Absent ==> (gate == Running <==> !drained))
      && (scheduler != Absent ==> (scheduler == Running <==> !workers))
      && (meshReg != Absent ==> (meshReg == Running <==> !mesh))
      && (background != Absent ==> (background == Running <==> !bg))
      && (store != Absent ==> (store == Running <==> !closed))
    }

    constructor ()
      ensures Valid() && store == Absent
    {
      gate, scheduler, meshReg, background, store := Absent, Absent, Absent, Absent, Absent;
      drained, workers, mesh, bg, closed := false, false, false, false, false;
      log := [];
    }

    /** One block of Quiesce: it ends the call, or the rest of the call goes on
        as if it had started here. */
    ghost predicate Stepped(env: Env, before: Pipeline, after: Pipeline, result: L.Raw) {
      && |before.present| == |after.present| == 5 && Shape(before) && Shape(after)
      && (if result == L.Nil then Release.Quiesce(after, env.Steps()) == Release.Quiesce(before, env.Steps())
          else Ended(after, result) == Release.Quiesce(before, env.Steps()))
    }

    method DrainRequests(env: Env) returns (result: L.Raw)
      requires Valid()
      modifies this
      ensures Valid() && Stepped(env, old(View()), View(), result) && (result == L.Nil ==> drained)
    {
      if !drained && gate != Absent {
        if env.drainPanics { return L.Panic; }
        gate := Stopped;
        log := log + [0];
      }
      drained := true;
      return L.Nil;
    }

    method StopScheduler(env: Env) returns (result: L.Raw)
      requires Valid() && drained
      modifies this
      ensures Valid() && Stepped(env, old(View()), View(), result) && (result == L.Nil ==> workers)
    {
      if !workers && scheduler != Absent {
        if env.scheduler == Panics { return L.Panic; }
        if env.scheduler == Fails { return L.Failure(false); }
        scheduler := Stopped;
        log := log + [1];
      }
      workers := true;
      return L.Nil;
    }

    method CloseMesh(env: Env) returns (result: L.Raw)
      requires Valid() && workers
      modifies this
      ensures Valid() && Stepped(env, old(View()), View(), result) && (result == L.Nil ==> mesh)
    {
      if !mesh && meshReg != Absent {
        if env.meshPanics { return L.Panic; }
        meshReg := Stopped;
        log := log + [2];
      }
      mesh := true;
      return L.Nil;
    }

    method StopBackground(env: Env) returns (result: L.Raw)
      requires Valid() && mesh
      modifies this
      ensures Valid() && Stepped(env, old(View()), View(), result) && (result == L.Nil ==> bg)
    {
      if !bg {
        if env.background == Panics { return L.Panic; }
        if env.background == Fails { return L.Failure(false); }
        background := if background == Absent then Absent else Stopped;
        log := log + [3];
      }
      bg := true;
      return L.Nil;
    }

    method CloseStore(env: Env) returns (result: L.Raw)
      requires Valid() && bg
      modifies this
      ensures Valid() && Stepped(env, old(View()), View(), result) && (result == L.Nil ==> closed)
    {
      if !closed && store != Absent {
        if env.store == Panics { return L.Panic; }
        if env.store == Fails { return L.Failure(false); }
        store := Stopped;
        log := log + [4];
      }
      closed := true;
      return L.Nil;
    }

    method Quiesce(env: Env) returns (result: L.Raw)
      requires Valid()
      modifies this
      ensures Valid() && Ended(View(), result) == Release.Quiesce(old(View()), env.Steps())
    {
      result := DrainRequests(env);
      if result == L.Nil { result := StopScheduler(env); }
      if result == L.Nil { result := CloseMesh(env); }
      if result == L.Nil { result := StopBackground(env); }
      if result == L.Nil { result := CloseStore(env); }
    }

    /** Everything is fresh per attempt: a gate never reopens, and a retry must
        not see what the attempt before it released. */
    method Open(reached: Reached)
      modifies this
      ensures Valid() && View() == reached.Started()
    {
      gate := Running;
      store, scheduler, meshReg, background := Absent, Absent, Absent, Absent;
      drained, workers, mesh, bg, closed := false, false, false, false, false;
      log := [];
      if !reached.Nothing? {
        store := Running;
      }
      if reached.Mesh? || reached.Scheduler? {
        background := if reached.background then Running else Absent;
        meshReg := if reached.registry then Running else Absent;
      }
      if reached.Scheduler? {
        scheduler := Running;
      }
    }

    /** The controller activates only a process that does not hold the database,
        so no earlier attempt's store can still be open. */
    method Activate(reached: Reached, failed: bool, env: Env) returns (result: L.Raw)
      requires Valid() && store != Running
      requires !failed ==> reached.Scheduler?
      modifies this
      ensures Valid()
      ensures Ended(View(), result) == Release.Activate(reached.Started(), failed, env.Steps())
    {
      Open(reached);
      if !failed { return L.Nil; }
      var q := Quiesce(env);
      result := match q
        case Nil => L.Failure(false)
        case Failure(_) => L.Failure(true)
        case Panic => L.Panic;
    }
  }
}

/** relayApp of cmd/mesh-relay/main.go: the same contract, other steps. */
module RelayService {
  import L = Lifecycle
  import opened Release
  import opened GridService

  /** Closing the gate cannot go wrong; draining it returns no error. */
  datatype RelayEnv = RelayEnv(poller: Outcome, sessions: Outcome, drainPanics: bool, store: Outcome)
  {
    function Steps(): (s: seq<Outcome>)
      ensures |s| == 5
    {
      [poller, Works, sessions, if drainPanics then Panics else Works, store]
    }
  }

  /** How far Activate got: the relay and its gate exist together; the telemetry
      poller is the last thing started, if it is configured. */
  datatype RelayReached = NoStore | StoreOnly | Serving | Polling
  {
    function Started(): (p: Pipeline)
      ensures Shape(p) && Untouched(p) && |p.present| == 5
    {
      var relay := this in {Serving, Polling};
      Pipeline([Polling?, relay, relay, relay, !NoStore?], 0, [])
    }
  }

  class RelayApp {
    var poller: Resource
    var gateOpen: bool
    var relay: Resource
    var draining: bool
    var store: Resource
    var pollerDone: bool
    var gateDone: bool
    var sessionsDone: bool
    var drained: bool
    var closed: bool
    ghost var log: seq<nat>

    /** The relay's gate, its sessions and its drain stand or fall with the relay. */
    ghost function View(): (p: Pipeline)
      reads this
      ensures Shape(p)
    {
      Pipeline([poller != Absent, relay != Absent, relay != Absent, relay != Absent, store != Absent],
               Recorded(pollerDone, gateDone, sessionsDone, drained, closed), log)
    }

    ghost predicate Valid()
      reads this
    {
      && (gateDone ==> pollerDone) && (sessionsDone ==> gateDone) && (drained ==> sessionsDone) && (closed ==> drained)
      && (poller != Absent ==> (poller == Running <==> !pollerDone))
      && (relay != Absent ==> (relay == Running <==> !sessionsDone) && (gateOpen <==> !gateDone) && (draining <==> !drained))
      && (store != Absent ==> (store == Running <==> !closed))
    }

    constructor ()
      ensures Valid() && store == Absent
    {
      poller, relay, store, gateOpen, draining := Absent, Absent, Absent, false, false;
      pollerDone, gateDone, sessionsDone, drained, closed := false, false, false, false, false;
      log := [];
    }

    /** One block of Quiesce: it ends the call, or the rest of the call goes on
        as if it had started here. */
    ghost predicate Stepped(env: RelayEnv, before: Pipeline, after: Pipeline, result: L.Raw) {
      && |before.present| == |after.present| == 5 && Shape(before) && Shape(after)
      && (if result == L.Nil then Release.Quiesce(after, env.Steps()) == Release.Quiesce(before, env.Steps())
          else Ended(after, result) == Release.Quiesce(before, env.Steps()))
    }

    method StopPoller(env: RelayEnv) returns (result: L.Raw)
      requires Valid()
      modifies this
      ensures Valid() && Stepped(env, old(View()), View(), result) && (result == L.Nil ==> pollerDone)
    {
      if poller != Absent && !pollerDone {
        if env.poller == Panics { return L.Panic; }
        if env.poller == Fails { return L.Failure(false); }
        poller := Stopped;
        log := log + [0];
      }
      pollerDone := true;
      return L.Nil;
    }

    method CloseGate(env: RelayEnv) returns (result: L.Raw)
      requires Valid() && pollerDone
      modifies this
      ensures Valid() && Stepped(env, old(View()), View(), result) && (result == L.Nil ==> gateDone)
    {
      if relay != Absent && !gateDone {
        gateOpen := false;
        log := log + [1];
      }
      gateDone := true;
      return L.Nil;
    }

    method StopSessions(env: RelayEnv) returns (result: L.Raw)
      requires Valid() && gateDone
      modifies this
      ensures Valid() && Stepped(env, old(View()), View(), result) && (result == L.Nil ==> sessionsDone)
    {
      if relay != Absent && !sessionsDone {
        if env.sessions == Panics { return L.Panic; }
        if env.sessions == Fails { return L.Failure(false); }
        relay := Stopped;
        log := log + [2];
      }
      sessionsDone := true;
      return L.Nil;
    }

    method DrainRequests(env: RelayEnv) returns (result: L.Raw)
      requires Valid() && sessionsDone
      modifies this
      ensures Valid() && Stepped(env, old(View()), View(), result) && (result == L.Nil ==> drained)
    {
      if relay != Absent && !drained {
        if env.drainPanics { return L.Panic; }
        draining := false;
        log := log + [3];
      }
      drained := true;
      return L.Nil;
    }

    method CloseStore(env: RelayEnv) returns (result: L.Raw)
      requires Valid() && drained
      modifies this
      ensures Valid() && Stepped(env, old(View()), View(), result) && (result == L.Nil ==> closed)
    {
      if store != Absent && !closed {
        if env.store == Panics { return L.Panic; }
        if env.store == Fails { return L.Failure(false); }
        store := Stopped;
        log := log + [4];
      }
      closed := true;
      return L.Nil;
    }

    method Quiesce(env: RelayEnv) returns (result: L.Raw)
      requires Valid()
      modifies this
      ensures Valid() && Ended(View(), result) == Release.Quiesce(old(View()), env.Steps())
    {
      result := StopPoller(env);
      if result == L.Nil { result := CloseGate(env); }
      if result == L.Nil { result := StopSessions(env); }
      if result == L.Nil { result := DrainRequests(env); }
      if result == L.Nil { result := CloseStore(env); }
    }

    method Activate(reached: RelayReached, failed: bool, env: RelayEnv) returns (result: L.Raw)
      requires Valid() && store != Running
      requires !failed ==> reached in {Serving, Polling}
      modifies this
      ensures Valid()
      ensures Ended(View(), result) == Release.Activate(reached.Started(), failed, env.Steps())
    {
      store, relay, poller := Absent, Absent, Absent;
      pollerDone, gateDone, sessionsDone, drained, closed := false, false, false, false, false;
      log := [];
      if !reached.NoStore? {
        store := Running;
      }
      if reached.Serving? || reached.Polling? {
        relay, gateOpen, draining := Running, true, true;
      }
      if reached.Polling? {
        poller := Running;
      }
      assert View() == reached.Started();
      if !failed { return L.Nil; }
      var q := Quiesce(env);
      result := match q
        case Nil => L.Failure(false)
        case Failure(_) => L.Failure(true)
        case Panic => L.Panic;
    }
  }
}
