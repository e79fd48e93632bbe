/** What a request for a hazard layer is answered (buildLayer of
  internal/hazards/service.go), told from the builds that came before it. */
module LayerAnswers {
  import opened Wrappers
  import opened CacheStore
  import opened LayerCache

  /** How long a build of a layer answers requests, in seconds; road segments are not kept. */
  function Lifetime(l: Layer): int
    requires l != RoadSegment
  {
    if l == Evacuation then 120 else 300
  }

  /** A build that is kept: it has features, or is the clean word that there are
      none, which for evacuations is not taken. */
  predicate WorthKeeping<F>(l: Layer, b: Built<F>) {
    l != RoadSegment &&
    match b
    case Clean(fs) => fs != [] || l != Evacuation
    case Partial(fs) => fs != []
    case Failed => false
  }

  /** What a build brought, as it is served: partial data is never OK, and is dated. */
  function Brought<F>(b: Built<F>, at: Time): Served<F> {
    match b
    case Clean(fs) => Served(fs, Status.OK, None)
    case Partial(fs) => Served(fs, STALE, Some(at))
    case Failed => Served([], UNAVAILABLE, None)
  }

  /** Nothing in these events replaces a build of the layer stored at `at`, or is
      a cleanup more than two lifetimes after it. */
  ghost predicate Leaves<F(!new)>(later: seq<Event<F>>, area: string, l: Layer, at: Time)
    requires l != RoadSegment
  {
    forall e :: e in later ==>
      && !(e.Finish? && e.area == area && e.l == l && WorthKeeping(l, e.built))
      && (e.Sweep? ==> e.at <= at + 2 * Lifetime(l))
  }

  function Entered<F>(l: Layer, b: Built<F>, at: Time): Entry<F>
    requires WorthKeeping(l, b)
  {
    NewEntry(b.features, Lifetime(l), if b.Clean? then CleanSource(l) else PartialSource(l), at)
  }

  lemma Enters<F>(m: Store<F>, area: string, l: Layer, b: Built<F>, builtAt: Time, at: Time)
    requires WorthKeeping(l, b)
    ensures var m' := Apply(m, Finish(area, l, b, builtAt, at)); Key(area, l) in m' && m'[Key(area, l)] == Entered(l, b, at)
  {
  }

  lemma {:induction false} StaysEntered<F(!new)>(before: seq<Event<F>>, later: seq<Event<F>>, area: string, l: Layer, b: Built<F>, builtAt: Time, at: Time)
    requires WorthKeeping(l, b) && Leaves(later, area, l, at)
    ensures var m := Run(before + [Finish(area, l, b, builtAt, at)] + later);
      Key(area, l) in m && m[Key(area, l)] == Entered(l, b, at)
  {
    var first := before + [Finish(area, l, b, builtAt, at)];
    if later == [] {
      assert first + later == first && first[..|first| - 1] == before;
      Enters(Run(before), area, l, b, builtAt, at);
    } else {
      var front, e := later[..|later| - 1], later[|later| - 1];
      assert (first + later)[..|first + later| - 1] == first + front;
      StaysEntered(before, front, area, l, b, builtAt, at);
      StepKeeps(Run(first + front), e, area, l, b, at);
    }
  }

  lemma StepKeeps<F>(m: Store<F>, e: Event<F>, area: string, l: Layer, b: Built<F>, at: Time)
    requires WorthKeeping(l, b) && Key(area, l) in m && m[Key(area, l)] == Entered(l, b, at)
    requires !(e.Finish? && e.area == area && e.l == l && WorthKeeping(l, e.built)) && (e.Sweep? ==> e.at <= at + 2 * Lifetime(l))
    ensures Key(area, l) in Apply(m, e) && Apply(m, e)[Key(area, l)] == Entered(l, b, at)
  {
    if e.Finish? && Key(e.area, e.l) == Key(area, l) {
      KeysDiffer(e.area, e.l, area, l);
    }
  }

  /** After a build worth keeping, until another replaces it: requests within its
      lifetime are answered with it, later ones build anew, and when that fails
      they are answered with its features, dated, if it has any. */
  lemma TheLastBuildAnswers<F(!new)>(before: seq<Event<F>>, later: seq<Event<F>>, area: string, l: Layer, b: Built<F>, builtAt: Time, at: Time, now: Time)
    requires WorthKeeping(l, b) && Leaves(later, area, l, at)
    ensures var m := Run(before + [Finish(area, l, b, builtAt, at)] + later);
      && Lookup(m, area, l, now) == (if now < at + Lifetime(l) then Some(Brought(b, at)) else None)
      && Answer(m, area, l, Failed, now)
         == (if b.features != [] then Served(b.features, STALE, Some(at)) else Served([], UNAVAILABLE, None))
  {
    StaysEntered(before, later, area, l, b, builtAt, at);
    SourcesDiffer(l);
  }

  /** The answer to a build is what it brought: OK for a clean one, empty or not,
      and STALE and dated for a partial one, whatever the cache holds. */
  lemma AFreshBuildAnswers<F>(m: Store<F>, area: string, l: Layer, b: Built<F>, now: Time)
    requires b != Failed
    ensures Answer(m, area, l, b, now) == Brought(b, now)
  {
  }

  /** Road segments are never answered from the cache, nor a layer before its first build. */
  lemma NothingToAnswerWith<F(!new)>(events: seq<Event<F>>, area: string, l: Layer, now: Time)
    requires l == RoadSegment || forall e :: e in events ==> !(e.Finish? && e.area == area && e.l == l)
    ensures Lookup(Run(events), area, l, now) == None
    ensures Answer(Run(events), area, l, Failed, now) == Served([], UNAVAILABLE, None)
  {
    if l != RoadSegment {
      NeverEntered(events, area, l);
    }
  }

  lemma {:induction false} NeverEntered<F(!new)>(events: seq<Event<F>>, area: string, l: Layer)
    requires forall e :: e in events ==> !(e.Finish? && e.area == area && e.l == l)
    ensures Key(area, l) !in Run(events)
  {
    if events != [] {
      var front, e := events[..|events| - 1], events[|events| - 1];
      NeverEntered(front, area, l);
      if e.Finish? && Key(e.area, e.l) == Key(area, l) {
        KeysDiffer(e.area, e.l, area, l);
      }
    }
  }

  /** A cleanup more than two lifetimes after a build forgets it: a failure is then UNAVAILABLE. */
  lemma ACleanupForgets<F(!new)>(before: seq<Event<F>>, later: seq<Event<F>>, area: string, l: Layer, b: Built<F>, builtAt: Time, at: Time, swept: Time, now: Time)
    requires WorthKeeping(l, b) && Leaves(later, area, l, at) && swept > at + 2 * Lifetime(l)
    ensures Answer(Run(before + [Finish(area, l, b, builtAt, at)] + later + [Sweep(swept)]), area, l, Failed, now) == Served([], UNAVAILABLE, None)
  {
    var events := before + [Finish(area, l, b, builtAt, at)] + later;
    StaysEntered(before, later, area, l, b, builtAt, at);
    assert (events + [Sweep(swept)])[..|events|] == events;
  }
}
