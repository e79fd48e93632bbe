/** What a place summary says (internal/gridapi/summary.go), from the facts: the
  stored events, the rows of the source registry and the conditions. */
module PlaceFacts {
  import opened Wrappers
  import opened Text
  import opened StableSort
  import opened PlaceSummary
  import opened PlaceMode
  import opened PlaceRollup
  import opened PlacePromises

  /** INFO, MINOR, MODERATE, SEVERE, EXTREME: a is at least as severe as b. */
  predicate Graded(a: Severity, b: Severity) {
    match b
    case Info => true
    case Minor => a != Info
    case Moderate => a != Info && a != Minor
    case Severe => a == Severe || a == Extreme
    case Extreme => a == Extreme
  }

  lemma RankIsGraded(a: Severity, b: Severity)
    ensures Rank(a) >= Rank(b) <==> Graded(a, b)
  {
  }

  /** Mesh nodes, burn status, outages of INFO severity and planned roadwork do not count. */
  predicate IsHazard(e: Event) {
    match e.layer
    case Mesh => false
    case BurnStatus => false
    case Power => e.severity != Info
    case RoadIncident => e.status == Active
    case _ => true
  }

  lemma HazardsAre(events: seq<Event>)
    ensures forall e :: e in Hazards(events) <==> e in events && IsHazard(e)
  {
    Filtered(events, Counted);
    assert forall e :: Counted(e) <==> IsHazard(e);
  }

  // -------------------------------------------------------------------- sources

  /** The source's row, the last if there are several, has this status. */
  ghost predicate Vouches(sources: seq<Source>, id: string, s: Status) {
    exists i :: 0 <= i < |sources| && LastRow(sources, id, i) && sources[i].status == Some(s)
  }

  ghost predicate LastRow(sources: seq<Source>, id: string, i: nat) {
    i < |sources| && sources[i].id == id && forall j :: i < j < |sources| ==> sources[j].id != id
  }

  /** Nothing says that the source is up: no row, no status yet, or UNAVAILABLE. */
  ghost predicate Down(sources: seq<Source>, id: string) {
    !Vouches(sources, id, OK) && !Vouches(sources, id, STALE)
  }

  lemma {:induction false} RowIsLast(sources: seq<Source>, id: string) returns (i: nat)
    ensures if Row(sources, id) == None then forall j :: 0 <= j < |sources| ==> sources[j].id != id
      else LastRow(sources, id, i) && sources[i] == Row(sources, id).value
  {
    i := 0;
    if sources != [] {
      var front, last := sources[..|sources| - 1], sources[|sources| - 1];
      assert sources == front + [last];
      if last.id == id {
        i := |sources| - 1;
      } else {
        i := RowIsLast(front, id);
      }
    }
  }

  lemma HealthVouches(sources: seq<Source>, id: string)
    ensures Health(sources, id) == OK <==> Vouches(sources, id, OK)
    ensures Health(sources, id) == UNAVAILABLE <==> Down(sources, id)
  {
    var i := RowIsLast(sources, id);
    if Row(sources, id) != None {
      forall j: nat | LastRow(sources, id, j) ensures j == i {
      }
    }
  }

  ghost predicate SourcesDown(sources: seq<Source>, l: Layer) {
    match l
    case Wildfire => Down(sources, "calfire") && Down(sources, "firis")
    case Evacuation => Down(sources, "caloes")
    case WeatherAlert => Down(sources, "nws")
    case Earthquake => Down(sources, "usgs")
    case RoadIncident => Down(sources, "chp") && Down(sources, "caltrans")
    case Mesh => Down(sources, "meshcore")
    case Power => Down(sources, "pge") && Down(sources, "psps")
    case BurnStatus => Down(sources, "burnline") && Down(sources, "calfire-burn")
  }

  ghost predicate SourcesWell(sources: seq<Source>, l: Layer) {
    match l
    case Wildfire => Vouches(sources, "calfire", OK) && Vouches(sources, "firis", OK)
    case Evacuation => Vouches(sources, "caloes", OK)
    case WeatherAlert => Vouches(sources, "nws", OK)
    case Earthquake => Vouches(sources, "usgs", OK)
    case RoadIncident => Vouches(sources, "chp", OK) && Vouches(sources, "caltrans", OK)
    case Mesh => Vouches(sources, "meshcore", OK)
    case Power => Vouches(sources, "pge", OK) && Vouches(sources, "psps", OK)
    case BurnStatus => Vouches(sources, "burnline", OK) && Vouches(sources, "calfire-burn", OK)
  }

  lemma EachOf(sources: seq<Source>, ids: seq<string>)
    ensures |ids| == 1 ==> (AllDown(sources, ids) <==> Down(sources, ids[0])) && (AllHealthy(sources, ids) <==> Vouches(sources, ids[0], OK))
    ensures |ids| == 2 ==> (AllDown(sources, ids) <==> Down(sources, ids[0]) && Down(sources, ids[1]))
    ensures |ids| == 2 ==> (AllHealthy(sources, ids) <==> Vouches(sources, ids[0], OK) && Vouches(sources, ids[1], OK))
  {
    forall i | 0 <= i < |ids|
      ensures (Health(sources, ids[i]) == OK <==> Vouches(sources, ids[i], OK)) && (Health(sources, ids[i]) == UNAVAILABLE <==> Down(sources, ids[i]))
    {
      HealthVouches(sources, ids[i]);
    }
  }

  /** A layer is served UNAVAILABLE iff every one of its sources is down and no
      event of it is stored, and OK iff every one is well. */
  lemma LayerOnTheFacts(events: seq<Event>, sources: seq<Source>, l: Layer)
    ensures ServedStatus(events, sources, l) == UNAVAILABLE <==> SourcesDown(sources, l) && forall e :: e in events ==> e.layer != l
    ensures ServedStatus(events, sources, l) == OK <==> SourcesWell(sources, l)
  {
    ServedStatusMeans(events, sources, l);
    EachOf(sources, SourceIds(l));
    assert HasEvents(events, l) <==> exists e :: e in events && e.layer == l;
  }

  // ----------------------------------------------------------------------- mode

  ghost predicate SomeActive(events: seq<Event>, p: Event -> bool) {
    exists e :: e in events && e.status == Active && p(e)
  }

  /** What makes a place ACTIVE: an evacuation that is more than advice, anything
      EXTREME that counts, or a wildfire that is SEVERE. */
  predicate Alarming(e: Event) {
    || (e.layer == Evacuation && e.level != Advisory)
    || (IsHazard(e) && e.severity == Extreme)
    || (e.layer == Wildfire && (e.severity == Severe || e.severity == Extreme))
  }

  /** What keeps it from QUIET: any evacuation, and anything SEVERE that counts. */
  predicate Worrying(e: Event) {
    e.layer == Evacuation || (IsHazard(e) && (e.severity == Severe || e.severity == Extreme))
  }

  lemma {:induction false} HighestReached(es: seq<Event>, s: Severity)
    requires s != Info
    ensures Graded(Highest(es), s) <==> exists e :: e in es && Graded(e.severity, s)
  {
    HighestBounds(es);
    RankIsGraded(Highest(es), s);
    forall e | e in es ensures Rank(e.severity) >= Rank(s) <==> Graded(e.severity, s) {
      RankIsGraded(e.severity, s);
    }
  }

  lemma HighestActive(events: seq<Event>, s: Severity)
    requires s != Info
    ensures var h := Highest(Filter(Hazards(events), IsActive));
      Graded(h, s) <==> exists e :: e in events && e.status == Active && IsHazard(e) && Graded(e.severity, s)
  {
    HazardsAre(events);
    Filtered(Hazards(events), IsActive);
    HighestReached(Filter(Hazards(events), IsActive), s);
  }

  lemma HighestWildfire(events: seq<Event>)
    ensures var h := Highest(Filter(Hazards(events), IsActiveWildfire));
      Graded(h, Severe) <==> exists e :: e in events && e.status == Active && e.layer == Wildfire && Graded(e.severity, Severe)
  {
    HazardsAre(events);
    Filtered(Hazards(events), IsActiveWildfire);
    HighestReached(Filter(Hazards(events), IsActiveWildfire), Severe);
  }

  lemma LevelsAre(events: seq<Event>)
    ensures var ls := Levels(Filter(Hazards(events), IsActiveEvacuation));
      && (ls == [] <==> forall e :: e in events && e.status == Active ==> e.layer != Evacuation)
      && (Mandatory(ls) <==> exists e :: e in events && e.status == Active && e.layer == Evacuation && e.level != Advisory)
  {
    var es := Filter(Hazards(events), IsActiveEvacuation);
    HazardsAre(events);
    Filtered(Hazards(events), IsActiveEvacuation);
    assert forall e :: e in es <==> e in events && e.status == Active && e.layer == Evacuation;
    if es != [] { assert es[0] in es; }
    if Mandatory(Levels(es)) {
      var i :| 0 <= i < |es| && Levels(es)[i] != Advisory;
      assert es[i] in es;
    }
    if e :| e in es && e.level != Advisory {
      var i :| 0 <= i < |es| && es[i] == e;
      assert Levels(es)[i] != Advisory;
    }
  }

  /** A place is ACTIVE exactly if some active event is alarming. */
  lemma AlertOnTheFacts(events: seq<Event>, sources: seq<Source>, w: Surroundings)
    ensures ModeOf(InputsOf(events, sources, w)) == Alert <==> SomeActive(events, Alarming)
  {
    LevelsAre(events);
    HighestActive(events, Extreme);
    HighestWildfire(events);
    RankIsGraded(Highest(Filter(Hazards(events), IsActiveWildfire)), Severe);
  }

  /** A layer of the hazard picture, or a condition, of which nothing is known. */
  ghost predicate SomethingIsDark(events: seq<Event>, sources: seq<Source>, w: Surroundings) {
    || w.chain.status == UNAVAILABLE || w.segment.status == UNAVAILABLE || w.fireWx.status == UNAVAILABLE
    || exists l :: l != BurnStatus && (l == Mesh ==> w.meshEnabled) && SourcesDown(sources, l) && forall e :: e in events ==> e.layer != l
  }

  lemma DarkOnTheFacts(events: seq<Event>, sources: seq<Source>, w: Surroundings)
    ensures AnyDark(events, sources, w) <==> SomethingIsDark(events, sources, w)
  {
    forall l ensures ServedStatus(events, sources, l) == UNAVAILABLE <==> SourcesDown(sources, l) && forall e :: e in events ==> e.layer != l {
      LayerOnTheFacts(events, sources, l);
    }
  }

  /** A place is QUIET exactly if no active event is worrying, fire weather is not
      raised, evacuations are known, and nothing is dark while anything active is MODERATE. */
  lemma QuietOnTheFacts(events: seq<Event>, sources: seq<Source>, w: Surroundings)
    ensures ModeOf(InputsOf(events, sources, w)) == Quiet <==>
      && !SomeActive(events, Worrying)
      && !FireAlert(FireState(FireStates(w.fireWx.features)))
      && !(Down(sources, "caloes") && forall e :: e in events ==> e.layer != Evacuation)
      && (SomethingIsDark(events, sources, w) ==> !SomeActive(events, e => IsHazard(e) && e.severity == Moderate))
  {
    var i := InputsOf(events, sources, w);
    QuietMeans(i);
    LevelsAre(events);
    HighestActive(events, Severe);
    HighestActive(events, Moderate);
    HighestWildfire(events);
    RankIsGraded(i.maxActive, Severe);
    RankIsGraded(i.maxActive, Moderate);
    RankIsGraded(i.maxWildfire, Severe);
    DarkOnTheFacts(events, sources, w);
    LayerOnTheFacts(events, sources, Evacuation);
  }

  lemma Raised(s: string, elevated: string, redFlag: string)
    requires elevated == "elevated" && redFlag == "red-flag"
    ensures FireRank(s) > 0 <==> s == elevated || s == redFlag
    ensures FireRank(s) > 0 ==> FireAlert(s)
  {
    if FireRank(s) > 0 {
      LowerSame(s);
    }
  }

  lemma RaisedAmong(states: seq<string>, elevated: string, redFlag: string)
    requires elevated == "elevated" && redFlag == "red-flag"
    ensures (exists i :: 0 <= i < |states| && (states[i] == elevated || states[i] == redFlag)) ==> FireRank(FireState(states)) > 0
  {
    FireStateIsTheFirstWorst(states);
    if k :| 0 <= k < |states| && (states[k] == elevated || states[k] == redFlag) {
      Raised(states[k], elevated, redFlag);
      assert states[k] != "";
      var i: nat :| FirstWorst(states, i) && states[i] == FireState(states);
    }
  }

  lemma BlankIsCalm(s: string)
    requires s == ""
    ensures !FireAlert(s)
  {
    assert ToLower(s) == "";
  }

  /** Fire weather is raised if a condition says exactly "elevated" or "red-flag",
      and only if one says so in some case. */
  lemma FireOnTheFacts(states: seq<string>)
    ensures (exists i :: 0 <= i < |states| && (states[i] == "elevated" || states[i] == "red-flag")) ==> FireAlert(FireState(states))
    ensures FireAlert(FireState(states)) ==> exists i :: 0 <= i < |states| && FireAlert(states[i])
    ensures forall s :: FireAlert(s) <==> ToLower(s) == "elevated" || ToLower(s) == "red-flag"
  {
    var elevated, redFlag := "elevated", "red-flag";
    RaisedAmong(states, elevated, redFlag);
    Raised(FireState(states), elevated, redFlag);
    FireStateIsTheFirstWorst(states);
    if FireState(states) != "" {
      var i: nat :| FirstWorst(states, i) && states[i] == FireState(states);
    } else {
      BlankIsCalm(FireState(states));
    }
  }

  lemma StateRanks(s: string, elevated: string, redFlag: string)
    requires elevated == "elevated" && redFlag == "red-flag"
    ensures (FireRank(s) == 2 <==> s == redFlag) && (FireRank(s) == 1 <==> s == elevated) && FireRank(s) <= 2
    ensures FireRank(s) > 0 ==> s != ""
  {
    assert elevated[0] != redFlag[0];
  }

  lemma GravestAmong(states: seq<string>, elevated: string, redFlag: string)
    requires elevated == "elevated" && redFlag == "red-flag"
    ensures FireState(states) == redFlag <==> redFlag in states
    ensures FireState(states) == elevated <==> redFlag !in states && elevated in states
  {
    FireStateIsTheFirstWorst(states);
    forall s ensures (FireRank(s) == 2 <==> s == redFlag) && (FireRank(s) == 1 <==> s == elevated) && FireRank(s) <= 2 && (FireRank(s) > 0 ==> s != "") {
      StateRanks(s, elevated, redFlag);
    }
    if FireState(states) != "" {
      var i: nat :| FirstWorst(states, i) && states[i] == FireState(states);
      assert forall j :: 0 <= j < |states| && states[j] != "" ==> FireRank(states[j]) <= FireRank(states[i]);
    }
  }

  /** A red flag is shown if any condition says so, and "elevated" if none does and one says that. */
  lemma TheGravestStateIsShown(states: seq<string>)
    ensures FireState(states) == "red-flag" <==> "red-flag" in states
    ensures FireState(states) == "elevated" <==> "red-flag" !in states && "elevated" in states
  {
    GravestAmong(states, "elevated", "red-flag");
  }
}
