/** The admission gate (internal/handoff/gate.go): requests entering and
  leaving, closing, and one Drain, under every interleaving. */
module Gate {

  /** A channel that is closed while no request is in flight. */
  class Idle {
    const serial: nat
    var closed: bool

    constructor (serial: nat, closed: bool)
      ensures this.serial == serial && this.closed == closed
    {
      this.serial, this.closed := serial, closed;
    }

    method Close()
      requires !closed
      modifies this
      ensures closed
    {
      closed := true;
    }
  }

  /** The guarded fields. Idle channels are numbered as they are made; `shut`
      holds the closed ones and `fault` records closing one twice. */
  datatype State = State(closed: bool, inFlight: int, idle: nat, next: nat, shut: set<nat>, cancelled: bool, fault: bool)

  const Fresh: State := State(false, 0, 0, 1, {0}, false, false)

  function Admit(g: State): State {
    if g.closed then g
    else if g.inFlight == 0 then g.(idle := g.next, next := g.next + 1, inFlight := 1)
    else g.(inFlight := g.inFlight + 1)
  }

  function Retire(g: State): State {
    var g1 := g.(inFlight := g.inFlight - 1);
    if g1.inFlight != 0 then g1
    else if g.idle in g.shut then g1.(fault := true)
    else g1.(shut := g.shut + {g.idle})
  }

  class AdmissionGate {
    var closed: bool
    var inFlight: int
    var idle: Idle
    var cancelled: bool
    var next: nat
    ghost var shut: set<nat>

    ghost predicate Valid()
      reads this, idle
    {
      idle.closed <==> idle.serial in shut
    }

    ghost function View(): State
      reads this, idle
    {
      State(closed, inFlight, idle.serial, next, shut, cancelled, false)
    }

    /** NewGate: open, nothing in flight, so the first idle channel is closed. */
    constructor ()
      ensures Valid() && View() == Fresh
    {
      closed, inFlight, cancelled, next, shut := false, 0, false, 1, {0};
      idle := new Idle(0, true);
    }

    method Enter() returns (ok: bool)
      requires Valid() && next !in shut
      modifies this
      ensures Valid() && ok == !old(closed) && View() == Admit(old(View()))
    {
      if closed {
        return false;
      }
      if inFlight == 0 {
        idle := new Idle(next, false);
        next := next + 1;
      }
      inFlight := inFlight + 1;
      return true;
    }

    /** The function enter returned; its caller runs it exactly once. */
    method Finish()
      requires Valid() && (inFlight == 1 ==> !idle.closed)
      modifies this, idle
      ensures Valid() && View() == Retire(old(View()))
    {
      inFlight := inFlight - 1;
      if inFlight == 0 {
        idle.Close();
        shut := shut + {idle.serial};
      }
    }

    method Close()
      requires Valid()
      modifies this`closed
      ensures Valid() && View() == old(View()).(closed := true)
    {
      closed := true;
    }

    method Cancel()
      requires Valid()
      modifies this`cancelled
      ensures Valid() && View() == old(View()).(cancelled := true)
    {
      cancelled := true;
    }
  }

  // ------------------------------------------------------------------ a drain

  datatype DrainResult = DrainResult(inFlight: int, cancelled: int, remaining: int)

  /** Between which of Drain's sections it stands. `on` is the channel it read. */
  datatype Drain =
    | NotStarted
    | Closed
    | Counted(res: DrainResult)
    | InGrace(res: DrainResult, on: nat)
    | GraceOver(res: DrainResult)
    | Cancelling(res: DrainResult)
    | Cancelled(res: DrainResult)
    | InCancelWait(res: DrainResult, on: nat)
    | LastCount(res: DrainResult)
    | Finished(res: DrainResult, withinGrace: bool)

  /** `admitted`: the requests admitted and not yet retired. */
  datatype World = World(g: State, admitted: set<nat>, arrived: nat, drain: Drain)

  const Start: World := World(Fresh, {}, 0, NotStarted)

  datatype Event = EnterRequest | FinishRequest(r: nat) | CloseGate | DrainStep(timedOut: bool)

  /** waitClosed looks at the channel once more when its timer fires, so it only
      times out on a channel that is still open, and wakes only on a closed one. */
  predicate Enabled(w: World, e: Event) {
    match e
    case EnterRequest => true
    case FinishRequest(r) => r in w.admitted
    case CloseGate => true
    case DrainStep(timedOut) =>
      match w.drain
      case InGrace(_, on) => timedOut == (on !in w.g.shut)
      case InCancelWait(_, on) => timedOut == (on !in w.g.shut)
      case Finished(_, _) => false
      case _ => true
  }

  function AdvanceDrain(w: World, timedOut: bool): World {
    var g := w.g;
    match w.drain
    case NotStarted => w.(g := g.(closed := true), drain := Closed)
    case Closed => w.(drain := Counted(DrainResult(g.inFlight, 0, 0)))
    case Counted(res) => w.(drain := InGrace(res, g.idle))
    case InGrace(res, _) => w.(drain := if timedOut then GraceOver(res) else Finished(res, true))
    case GraceOver(res) => w.(drain := Cancelling(res.(cancelled := g.inFlight)))
    case Cancelling(res) => w.(g := g.(cancelled := true), drain := Cancelled(res))
    case Cancelled(res) => w.(drain := InCancelWait(res, g.idle))
    case InCancelWait(res, _) => w.(drain := LastCount(res))
    case LastCount(res) => w.(drain := Finished(res.(remaining := g.inFlight), false))
    case Finished(_, _) => w
  }

  function Apply(w: World, e: Event): World {
    if !Enabled(w, e) then w else
    match e
    case EnterRequest =>
      if w.g.closed then w
      else w.(g := Admit(w.g), admitted := w.admitted + {w.arrived}, arrived := w.arrived + 1)
    case FinishRequest(r) => w.(g := Retire(w.g), admitted := w.admitted - {r})
    case CloseGate => w.(g := w.g.(closed := true))
    case DrainStep(timedOut) => AdvanceDrain(w, timedOut)
  }

  function Run(w: World, es: seq<Event>): World
    decreases |es|
  {
    if es == [] then w else Run(Apply(w, es[0]), es[1..])
  }

  ghost predicate GateInv(g: State) {
    && !g.fault && g.inFlight >= 0 && g.idle < g.next
    && (g.idle in g.shut <==> g.inFlight == 0)
    && (forall i :: i in g.shut ==> i < g.next)
    && (forall i: nat :: i < g.next && i != g.idle ==> i in g.shut)
  }

  /** The counts a drain has read bound what is still in flight. */
  ghost predicate DrainInv(g: State, d: Drain) {
    match d
    case NotStarted => true
    case Closed => g.closed
    case Counted(res) => g.closed && g.inFlight <= res.inFlight
    case InGrace(res, on) => g.closed && g.inFlight <= res.inFlight && on == g.idle
    case GraceOver(res) => g.closed && g.inFlight <= res.inFlight
    case Cancelling(res) => g.closed && g.inFlight <= res.cancelled <= res.inFlight
    case Cancelled(res) => g.closed && g.cancelled && g.inFlight <= res.cancelled <= res.inFlight
    case InCancelWait(res, on) => g.closed && g.cancelled && g.inFlight <= res.cancelled <= res.inFlight && on == g.idle
    case LastCount(res) => g.closed && g.cancelled && g.inFlight <= res.cancelled <= res.inFlight
    case Finished(res, withinGrace) =>
      g.closed && (if withinGrace then g.inFlight == 0 == res.cancelled == res.remaining <= res.inFlight
                   else g.cancelled && g.inFlight <= res.remaining <= res.cancelled <= res.inFlight)
  }

  ghost predicate Inv(w: World) {
    && GateInv(w.g)
    && w.g.inFlight == |w.admitted|
    && (forall r :: r in w.admitted ==> r < w.arrived)
    && DrainInv(w.g, w.drain)
    && (match w.drain
        case Counted(res) => res.cancelled == 0 == res.remaining
        case InGrace(res, _) => res.cancelled == 0 == res.remaining
        case _ => true)
  }

  lemma AdmitInv(g: State)
    requires GateInv(g)
    ensures GateInv(Admit(g)) && (!g.closed ==> Admit(g).inFlight == g.inFlight + 1)
  {
  }

  lemma RetireInv(g: State)
    requires GateInv(g) && g.inFlight > 0
    ensures GateInv(Retire(g)) && Retire(g).inFlight == g.inFlight - 1 && Retire(g).idle == g.idle
  {
  }

  lemma EnterKeeps(w: World)
    requires Inv(w)
    ensures Inv(Apply(w, EnterRequest))
  {
    AdmitInv(w.g);
  }

  lemma FinishKeeps(w: World, r: nat)
    requires Inv(w)
    ensures Inv(Apply(w, FinishRequest(r)))
  {
    if r in w.admitted {
      RetireInv(w.g);
    }
  }

  lemma DrainKeeps(w: World, timedOut: bool)
    requires Inv(w)
    ensures Inv(Apply(w, DrainStep(timedOut)))
  {
  }

  lemma ApplyInv(w: World, e: Event)
    requires Inv(w)
    ensures Inv(Apply(w, e))
  {
    match e
    case EnterRequest => EnterKeeps(w);
    case FinishRequest(r) => FinishKeeps(w, r);
    case CloseGate =>
    case DrainStep(timedOut) => DrainKeeps(w, timedOut);
  }

  lemma {:induction false} RunInv(w: World, es: seq<Event>)
    requires Inv(w)
    ensures Inv(Run(w, es))
    decreases |es|
  {
    if es != [] {
      ApplyInv(w, es[0]);
      RunInv(Apply(w, es[0]), es[1..]);
    }
  }

  /** Under every interleaving: the counter is the number of admitted requests,
      the idle channel is closed exactly when it is zero, none is closed twice,
      and the methods' own preconditions hold whenever they are called. */
  lemma IdleExactlyWhenEmpty(es: seq<Event>)
    ensures var w := Run(Start, es);
      && w.g.inFlight == |w.admitted|
      && (w.g.idle in w.g.shut <==> w.admitted == {})
      && !w.g.fault && w.g.next !in w.g.shut
      && (w.g.inFlight == 1 ==> w.g.idle !in w.g.shut)
  {
    RunInv(Start, es);
  }

  /** A request that arrives is admitted exactly if the gate is open, and one that
      finishes is gone; neither touches another. */
  lemma EachRequestCounts(w: World, r: nat)
    requires Inv(w)
    ensures Apply(w, EnterRequest).admitted == (if w.g.closed then w.admitted else w.admitted + {w.arrived}) && w.arrived !in w.admitted
    ensures Apply(w, FinishRequest(r)).admitted == w.admitted - {r}
  {
  }

  /** After Close nothing is admitted: the requests in flight only dwindle. */
  lemma {:induction false} ClosedOnlyDwindles(w: World, es: seq<Event>)
    requires Inv(w) && w.g.closed
    ensures var v := Run(w, es);
      v.g.closed && v.admitted <= w.admitted && v.g.inFlight <= w.g.inFlight
    decreases |es|
  {
    if es != [] {
      ApplyInv(w, es[0]);
      ClosedOnlyDwindles(Apply(w, es[0]), es[1..]);
    }
  }

  /** What a finished drain reports: Remaining <= Cancelled <= InFlight, at most
      Remaining requests exist from then on, and a drain that ended within its
      grace means that no admitted request exists then or ever after. */
  lemma DrainReport(es: seq<Event>, later: seq<Event>)
    ensures var w := Run(Start, es); var v := Run(w, later);
      w.drain.Finished? ==>
        && 0 <= w.drain.res.remaining <= w.drain.res.cancelled <= w.drain.res.inFlight
        && |v.admitted| <= w.drain.res.remaining
        && (w.drain.withinGrace ==> v.admitted == {})
        && (!w.drain.withinGrace ==> w.g.cancelled)
  {
    RunInv(Start, es);
    var w := Run(Start, es);
    RunInv(w, later);
    if w.drain.Finished? {
      ClosedOnlyDwindles(w, later);
    }
  }

  /** A drain gets to its end: each of its steps brings the last one nearer, and
      the timers alone are enough to take them. */
  function StepsLeft(d: Drain): nat {
    match d
    case NotStarted => 9
    case Closed => 8
    case Counted(_) => 7
    case InGrace(_, _) => 6
    case GraceOver(_) => 5
    case Cancelling(_) => 4
    case Cancelled(_) => 3
    case InCancelWait(_, _) => 2
    case LastCount(_) => 1
    case Finished(_, _) => 0
  }

  lemma DrainFinishes(w: World)
    requires Inv(w) && !w.drain.Finished?
    ensures exists timedOut :: (Enabled(w, DrainStep(timedOut))
                                && StepsLeft(Apply(w, DrainStep(timedOut)).drain) < StepsLeft(w.drain))
    ensures forall e :: StepsLeft(Apply(w, e).drain) <= StepsLeft(w.drain)
  {
    var timedOut := match w.drain
      case InGrace(_, on) => on !in w.g.shut
      case InCancelWait(_, on) => on !in w.g.shut
      case _ => true;
    assert Enabled(w, DrainStep(timedOut));
  }

  // ---------------------------------------------------------- what the counts are

  lemma {:induction false} RunLast(w: World, es: seq<Event>)
    requires es != []
    ensures Run(w, es) == Apply(Run(w, es[..|es| - 1]), es[|es| - 1])
    decreases |es|
  {
    if |es| > 1 {
      RunLast(Apply(w, es[0]), es[1..]);
      assert es[1..][..|es| - 2] == es[..|es| - 1][1..];
    } else {
      assert es[1..] == [];
    }
  }

  /** The world at some moment of the run, which a drain was then about to count. */
  ghost predicate SawInFlight(es: seq<Event>, n: int) {
    exists i :: 0 <= i <= |es| && Run(Start, es[..i]).drain.Closed? && |Run(Start, es[..i]).admitted| == n
  }

  ghost predicate SawCancelled(es: seq<Event>, n: int) {
    exists i :: 0 <= i <= |es| && Run(Start, es[..i]).drain.GraceOver? && |Run(Start, es[..i]).admitted| == n
  }

  ghost predicate SawRemaining(es: seq<Event>, n: int) {
    exists i :: 0 <= i <= |es| && Run(Start, es[..i]).drain.LastCount? && |Run(Start, es[..i]).admitted| == n
  }

  /** The counts so far. */
  ghost predicate CountsWere(es: seq<Event>, d: Drain) {
    match d
    case NotStarted => true
    case Closed => true
    case Counted(res) => SawInFlight(es, res.inFlight)
    case InGrace(res, _) => SawInFlight(es, res.inFlight)
    case GraceOver(res) => SawInFlight(es, res.inFlight)
    case Cancelling(res) => SawInFlight(es, res.inFlight) && SawCancelled(es, res.cancelled)
    case Cancelled(res) => SawInFlight(es, res.inFlight) && SawCancelled(es, res.cancelled)
    case InCancelWait(res, _) => SawInFlight(es, res.inFlight) && SawCancelled(es, res.cancelled)
    case LastCount(res) => SawInFlight(es, res.inFlight) && SawCancelled(es, res.cancelled)
    case Finished(res, withinGrace) =>
      SawInFlight(es, res.inFlight) && (!withinGrace ==> SawCancelled(es, res.cancelled) && SawRemaining(es, res.remaining))
  }

  lemma SawBefore(es: seq<Event>, e: Event, n: int)
    ensures SawInFlight(es, n) ==> SawInFlight(es + [e], n)
    ensures SawCancelled(es, n) ==> SawCancelled(es + [e], n)
    ensures SawRemaining(es, n) ==> SawRemaining(es + [e], n)
  {
    forall i | 0 <= i <= |es| ensures (es + [e])[..i] == es[..i] {
    }
  }

  lemma SawLast(es: seq<Event>, e: Event)
    ensures var w := Run(Start, es);
      && (w.drain.Closed? ==> SawInFlight(es + [e], |w.admitted|))
      && (w.drain.GraceOver? ==> SawCancelled(es + [e], |w.admitted|))
      && (w.drain.LastCount? ==> SawRemaining(es + [e], |w.admitted|))
  {
    assert (es + [e])[..|es|] == es;
  }

  /** What a drain reports are the requests that were in flight at three moments
      of the run: after it closed the gate, when its grace was over, and at the end. */
  lemma {:induction false} DrainCountsWere(es: seq<Event>)
    ensures CountsWere(es, Run(Start, es).drain)
  {
    if es != [] {
      var front, e := es[..|es| - 1], es[|es| - 1];
      assert es == front + [e];
      DrainCountsWere(front);
      RunLast(Start, es);
      RunInv(Start, front);
      SawLast(front, e);
      forall n ensures (SawInFlight(front, n) ==> SawInFlight(es, n)) && (SawCancelled(front, n) ==> SawCancelled(es, n)) && (SawRemaining(front, n) ==> SawRemaining(es, n)) {
        SawBefore(front, e, n);
      }
    }
  }

  /** The grace ends early exactly when no request is left; a drain then finishes
      and cancels nothing, and goes on to cancel otherwise. */
  lemma GraceEndsIff(w: World, timedOut: bool)
    requires Inv(w) && w.drain.InGrace? && Enabled(w, DrainStep(timedOut))
    ensures timedOut <==> w.admitted != {}
    ensures Apply(w, DrainStep(timedOut)).drain == if w.admitted == {} then Finished(w.drain.res, true) else GraceOver(w.drain.res)
  {
    assert |w.admitted| == 0 <==> w.admitted == {};
  }

  /** Some moment of the run at which a grace was running and requests were in flight. */
  ghost predicate WaitedInVain(es: seq<Event>) {
    exists i :: 0 <= i <= |es| && Run(Start, es[..i]).drain.InGrace? && Run(Start, es[..i]).admitted != {}
  }

  predicate GaveUpWaiting(w: World) {
    || w.g.cancelled || w.drain.GraceOver? || w.drain.Cancelling? || w.drain.Cancelled? || w.drain.InCancelWait? || w.drain.LastCount?
    || (w.drain.Finished? && !w.drain.withinGrace)
  }

  lemma GivesUp(w: World, e: Event)
    requires Inv(w) && !GaveUpWaiting(w) && GaveUpWaiting(Apply(w, e))
    ensures w.drain.InGrace? && w.admitted != {}
  {
    if w.drain.InGrace? && e.DrainStep? && Enabled(w, e) {
      GraceEndsIff(w, e.timedOut);
    }
  }

  /** Requests are cancelled only after a grace during which some were in flight. */
  lemma {:induction false} CancelsOnlyAfterAGrace(es: seq<Event>)
    requires GaveUpWaiting(Run(Start, es))
    ensures WaitedInVain(es)
  {
    if es != [] {
      var front, e := es[..|es| - 1], es[|es| - 1];
      assert es == front + [e];
      RunLast(Start, es);
      RunInv(Start, front);
      if GaveUpWaiting(Run(Start, front)) {
        CancelsOnlyAfterAGrace(front);
        var i :| 0 <= i <= |front| && Run(Start, front[..i]).drain.InGrace? && Run(Start, front[..i]).admitted != {};
        assert es[..i] == front[..i];
      } else {
        GivesUp(Run(Start, front), e);
        assert es[..|front|] == front;
      }
    }
  }
}
