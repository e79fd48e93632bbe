/** The whole place summary (buildPlaceSummary of internal/gridapi/summary.go). */
module PlaceRollup {
  import opened Wrappers
  import opened StableSort
  import opened PlaceSummary
  import opened PlaceMode

  // ------------------------------------------------------------------ the carve-outs

  predicate PlannedRoadwork(e: Event) {
    e.layer == RoadIncident && e.status == Scheduled
  }

  /** Ambient state, single-premise outages and planned roadwork are not hazards. */
  predicate Counted(e: Event) {
    e.layer != Mesh && e.layer != BurnStatus && !(e.layer == Power && e.severity == Info) && !PlannedRoadwork(e)
  }

  function Hazards(events: seq<Event>): seq<Event> {
    Filter(events, Counted)
  }

  method HazardEvents(events: seq<Event>) returns (hs: seq<Event>)
    ensures hs == Hazards(events)
  {
    hs := [];
    for n := 0 to |events|
      invariant hs == Hazards(events[..n])
    {
      assert events[..n + 1][..n] == events[..n];
      var e := events[n];
      if e.layer == Mesh || e.layer == BurnStatus {
        continue;
      }
      if e.layer == Power && e.severity == Info {
        continue;
      }
      if PlannedRoadwork(e) {
        continue;
      }
      hs := hs + [e];
    }
    assert events[..|events|] == events;
  }

  // -------------------------------------------------------------------- the rollup

  function CountOf(es: seq<Event>, s: Severity): nat {
    if es == [] then 0 else CountOf(es[..|es| - 1], s) + if es[|es| - 1].severity == s then 1 else 0
  }

  function Worse(a: Severity, b: Severity): Severity {
    if Rank(b) > Rank(a) then b else a
  }

  function Highest(es: seq<Event>): Severity {
    if es == [] then Info else Worse(Highest(es[..|es| - 1]), es[|es| - 1].severity)
  }

  function ActiveEvacuations(es: seq<Event>): nat {
    if es == [] then 0
    else
      var e := es[|es| - 1];
      ActiveEvacuations(es[..|es| - 1]) + if e.layer == Evacuation && e.status == Active then 1 else 0
  }

  /** Severity, then the latest first. */
  predicate MoreUrgent(a: Event, b: Event) {
    if a.severity != b.severity then Rank(a.severity) > Rank(b.severity) else a.observedAt > b.observedAt
  }

  datatype Stats = Stats(
    totalActive: nat,
    severityCounts: map<Severity, nat>,
    highest: Severity,
    topEvents: seq<Event>,
    evacuationStatus: Status,
    activeEvacuations: Option<nat>)

  ghost predicate CountsAre(counts: map<Severity, nat>, es: seq<Event>) {
    forall s :: (if s in counts then counts[s] else 0) == CountOf(es, s)
  }

  /** What the summary block says of the stored events. */
  ghost predicate StatsAre(st: Stats, events: seq<Event>, sources: seq<Source>) {
    var hazards, evac := Hazards(events), ServedStatus(events, sources, Evacuation);
    && st.totalActive == |hazards|
    && CountsAre(st.severityCounts, hazards)
    && st.highest == Highest(hazards)
    && st.topEvents == Top(hazards, 5, MoreUrgent)
    && st.evacuationStatus == evac
    && st.activeEvacuations == (if evac == UNAVAILABLE then None else Some(ActiveEvacuations(events)))
  }

  method CountSeverities(es: seq<Event>) returns (counts: map<Severity, nat>, highest: Severity)
    ensures CountsAre(counts, es) && highest == Highest(es)
  {
    counts, highest := map[], Info;
    for n := 0 to |es|
      invariant CountsAre(counts, es[..n]) && highest == Highest(es[..n])
    {
      assert es[..n + 1][..n] == es[..n];
      var s := es[n].severity;
      counts := counts[s := (if s in counts then counts[s] else 0) + 1];
      if Rank(s) >= Rank(highest) {
        highest := s;
      }
    }
    assert es[..|es|] == es;
  }

  method SummaryBlock(events: seq<Event>, hazards: seq<Event>, sources: seq<Source>) returns (st: Stats)
    requires hazards == Hazards(events)
    ensures StatsAre(st, events, sources)
  {
    var counts, highest := CountSeverities(hazards);
    var evac := ServedLayerStatus(events, sources, Evacuation);
    var active := None;
    if evac == OK || evac == STALE {
      var n := 0;
      for k := 0 to |events|
        invariant n == ActiveEvacuations(events[..k])
      {
        assert events[..k + 1][..k] == events[..k];
        if events[k].layer == Evacuation && events[k].status == Active {
          n := n + 1;
        }
      }
      assert events[..|events|] == events;
      active := Some(n);
    }
    return Stats(|hazards|, counts, highest, Top(hazards, 5, MoreUrgent), evac, active);
  }

  /** eventLayerStatus. */
  method ServedLayerStatus(events: seq<Event>, sources: seq<Source>, l: Layer) returns (s: Status)
    ensures s == ServedStatus(events, sources, l)
  {
    var raw, last := LayerSourceStatus(sources, l);
    return Degrade(raw, HasEvents(events, l), last).0;
  }

  // ------------------------------------------------------------------- the domains

  /** An event or a condition feature, as a domain counts it. */
  datatype Item = Item(id: string, severity: Severity, isCondition: bool)

  datatype Feature = Feature(id: string, severity: Severity, fireState: string)

  datatype Condition = Condition(features: seq<Feature>, status: Status)

  datatype DomainName = FireDomain | EvacuationDomain | WeatherDomain | RoadsDomain | SeismicDomain | PowerDomain | BurnDomain | CommsDomain

  datatype Domain = Domain(name: DomainName, status: Status, activeCount: nat, highest: Severity, headlines: seq<Item>)

  /** Baseline conditions are monitoring, not hazards. */
  predicate Live(i: Item) {
    !(i.isCondition && i.severity == Info)
  }

  predicate Graver(a: Item, b: Item) {
    Rank(a.severity) > Rank(b.severity)
  }

  function HighestItem(items: seq<Item>): Severity {
    if items == [] then Info else Worse(HighestItem(items[..|items| - 1]), items[|items| - 1].severity)
  }

  ghost predicate IsWorst(s: Status, statuses: seq<Status>) {
    && (s == OK || s in statuses)
    && forall x :: x in statuses ==> StatusRank(x) <= StatusRank(s)
  }

  ghost predicate DomainIs(d: Domain, name: DomainName, statuses: seq<Status>, items: seq<Item>) {
    var live := Filter(items, Live);
    d.name == name && IsWorst(d.status, statuses) && d.activeCount == |live|
    && d.highest == HighestItem(live) && d.headlines == Top(live, 3, Graver)
  }

  method BuildDomain(name: DomainName, statuses: seq<Status>, items: seq<Item>) returns (d: Domain)
    ensures DomainIs(d, name, statuses, items)
  {
    var live: seq<Item> := [];
    for n := 0 to |items|
      invariant live == Filter(items[..n], Live)
    {
      assert items[..n + 1][..n] == items[..n];
      if items[n].isCondition && items[n].severity == Info {
        continue;
      }
      live := live + [items[n]];
    }
    assert items[..|items|] == items;
    var topRank: int, highest := -1, Info;
    for n := 0 to |live|
      invariant highest == HighestItem(live[..n])
      invariant topRank == -1 <==> n == 0
      invariant n > 0 ==> topRank == Rank(highest)
    {
      assert live[..n + 1][..n] == live[..n];
      if Rank(live[n].severity) > topRank {
        topRank := Rank(live[n].severity);
        highest := live[n].severity;
      }
    }
    assert live[..|live|] == live;
    var status := WorstStatus(statuses);
    return Domain(name, status, |live|, highest, Top(live, 3, Graver));
  }

  function EventItems(es: seq<Event>): seq<Item> {
    seq(|es|, i requires 0 <= i < |es| => Item(es[i].id, es[i].severity, false))
  }

  function FeatureItems(fs: seq<Feature>): seq<Item> {
    seq(|fs|, i requires 0 <= i < |fs| => Item(fs[i].id, fs[i].severity, true))
  }

  function OfLayer(events: seq<Event>, l: Layer): seq<Event> {
    Filter(events, (e: Event) => e.layer == l)
  }

  function Unplanned(events: seq<Event>): seq<Event> {
    Filter(events, (e: Event) => !PlannedRoadwork(e))
  }

  // ---------------------------------------------------------------------- the mode

  /** The conditions and the configuration a summary is built with. */
  datatype Surroundings = Surroundings(chain: Condition, segment: Condition, fireWx: Condition, burnConfigured: bool, meshEnabled: bool)

  /** The event layers that are part of the hazard picture. */
  predicate Watched(l: Layer, w: Surroundings) {
    l != BurnStatus && (l == Mesh ==> w.meshEnabled)
  }

  predicate AnyDark(events: seq<Event>, sources: seq<Source>, w: Surroundings) {
    || w.chain.status == UNAVAILABLE || w.segment.status == UNAVAILABLE || w.fireWx.status == UNAVAILABLE
    || exists l :: Watched(l, w) && ServedStatus(events, sources, l) == UNAVAILABLE
  }

  predicate IsActive(e: Event) { e.status == Active }
  predicate IsActiveWildfire(e: Event) { e.status == Active && e.layer == Wildfire }
  predicate IsActiveEvacuation(e: Event) { e.status == Active && e.layer == Evacuation }

  function Levels(es: seq<Event>): (ls: seq<Level>)
    ensures |ls| == |es| && forall i :: 0 <= i < |ls| ==> ls[i] == es[i].level
  {
    seq(|es|, i requires 0 <= i < |es| => es[i].level)
  }

  function FireStates(fs: seq<Feature>): seq<string> {
    seq(|fs|, i requires 0 <= i < |fs| => fs[i].fireState)
  }

  function InputsOf(events: seq<Event>, sources: seq<Source>, w: Surroundings): ModeInputs {
    var hazards := Hazards(events);
    ModeInputs(Levels(Filter(hazards, IsActiveEvacuation)),
               ServedStatus(events, sources, Evacuation) == UNAVAILABLE,
               Highest(Filter(hazards, IsActive)),
               Highest(Filter(hazards, IsActiveWildfire)),
               FireState(FireStates(w.fireWx.features)),
               AnyDark(events, sources, w))
  }

  /** The loop over the counted events. */
  method Signals(hazards: seq<Event>) returns (levels: seq<Level>, maxActive: Severity, maxWildfire: Severity)
    ensures levels == Levels(Filter(hazards, IsActiveEvacuation))
    ensures maxActive == Highest(Filter(hazards, IsActive))
    ensures maxWildfire == Highest(Filter(hazards, IsActiveWildfire))
  {
    levels, maxActive, maxWildfire := [], Info, Info;
    for n := 0 to |hazards|
      invariant levels == Levels(Filter(hazards[..n], IsActiveEvacuation))
      invariant maxActive == Highest(Filter(hazards[..n], IsActive))
      invariant maxWildfire == Highest(Filter(hazards[..n], IsActiveWildfire))
    {
      LevelsOfOneMore(hazards[..n], hazards[n]);
      HighestOfOneMore(hazards[..n], hazards[n], IsActive);
      HighestOfOneMore(hazards[..n], hazards[n], IsActiveWildfire);
      assert hazards[..n + 1] == hazards[..n] + [hazards[n]];
      var e := hazards[n];
      if e.status != Active {
        continue;
      }
      if Rank(e.severity) > Rank(maxActive) {
        maxActive := e.severity;
      }
      if e.layer == Wildfire && Rank(e.severity) > Rank(maxWildfire) {
        maxWildfire := e.severity;
      }
      if e.layer == Evacuation {
        levels := levels + [e.level];
      }
    }
    assert hazards[..|hazards|] == hazards;
  }

  lemma FilterMore<T>(s: seq<T>, x: T, p: T -> bool)
    ensures Filter(s + [x], p) == Filter(s, p) + if p(x) then [x] else []
  {
    assert (s + [x])[..|s|] == s;
  }

  lemma HighestMore(es: seq<Event>, e: Event)
    ensures Highest(es + [e]) == Worse(Highest(es), e.severity)
  {
    assert (es + [e])[..|es|] == es;
  }

  lemma HighestOfOneMore(es: seq<Event>, e: Event, p: Event -> bool)
    ensures Highest(Filter(es + [e], p)) == if p(e) then Worse(Highest(Filter(es, p)), e.severity) else Highest(Filter(es, p))
  {
    FilterMore(es, e, p);
    HighestMore(Filter(es, p), e);
    assert Filter(es, p) + [] == Filter(es, p);
  }

  lemma LevelsOfOneMore(es: seq<Event>, e: Event)
    ensures Levels(Filter(es + [e], IsActiveEvacuation))
      == Levels(Filter(es, IsActiveEvacuation)) + if IsActiveEvacuation(e) then [e.level] else []
  {
    FilterMore(es, e, IsActiveEvacuation);
    var fs := Filter(es, IsActiveEvacuation);
    if IsActiveEvacuation(e) {
      LevelsAppend(fs, e);
    } else {
      assert fs + [] == fs;
    }
  }

  lemma LevelsAppend(fs: seq<Event>, e: Event)
    ensures Levels(fs + [e]) == Levels(fs) + [e.level]
  {
  }

  /** The layers whose health the mode looks at, in the order of eventLayers. */
  const EventLayers := [Wildfire, Evacuation, WeatherAlert, Earthquake, RoadIncident, Mesh, Power]

  method AnyUnavailable(events: seq<Event>, sources: seq<Source>, w: Surroundings) returns (dark: bool)
    ensures dark == AnyDark(events, sources, w)
  {
    dark := w.chain.status == UNAVAILABLE || w.segment.status == UNAVAILABLE || w.fireWx.status == UNAVAILABLE;
    ghost var conditionsDark := dark;
    for n := 0 to |EventLayers|
      invariant dark <==> conditionsDark || exists k :: 0 <= k < n && Watched(EventLayers[k], w) && ServedStatus(events, sources, EventLayers[k]) == UNAVAILABLE
    {
      if EventLayers[n] == Mesh && !w.meshEnabled {
        continue;
      }
      var s := ServedLayerStatus(events, sources, EventLayers[n]);
      if s == UNAVAILABLE {
        dark := true;
      }
    }
    forall l | Watched(l, w) ensures exists k :: 0 <= k < |EventLayers| && EventLayers[k] == l {
      AllLayersListed(l);
    }
  }

  lemma AllLayersListed(l: Layer)
    requires l != BurnStatus
    ensures exists k :: 0 <= k < |EventLayers| && EventLayers[k] == l
  {
    match l
    case Wildfire => assert EventLayers[0] == l;
    case Evacuation => assert EventLayers[1] == l;
    case WeatherAlert => assert EventLayers[2] == l;
    case Earthquake => assert EventLayers[3] == l;
    case RoadIncident => assert EventLayers[4] == l;
    case Mesh => assert EventLayers[5] == l;
    case Power => assert EventLayers[6] == l;
  }

  // ------------------------------------------------------------------- the summary

  datatype Summary = Summary(stats: Stats, domains: seq<Domain>, mode: Mode)

  /** What a domain is made of. */
  datatype Ingredients = Ingredients(name: DomainName, statuses: seq<Status>, items: seq<Item>)

  /** The domains in their order; burning and the mesh only if they are configured. */
  function DomainNames(w: Surroundings): seq<DomainName> {
    [FireDomain, EvacuationDomain, WeatherDomain, RoadsDomain, SeismicDomain, PowerDomain]
    + (if w.burnConfigured then [BurnDomain] else []) + (if w.meshEnabled then [CommsDomain] else [])
  }

  function IngredientsOf(name: DomainName, events: seq<Event>, sources: seq<Source>, w: Surroundings): Ingredients {
    var served := (l: Layer) => ServedStatus(events, sources, l);
    var items := (l: Layer) => EventItems(OfLayer(events, l));
    match name
    case FireDomain => Ingredients(name, [served(Wildfire), w.fireWx.status], items(Wildfire) + FeatureItems(w.fireWx.features))
    case EvacuationDomain => Ingredients(name, [served(Evacuation)], items(Evacuation))
    case WeatherDomain => Ingredients(name, [served(WeatherAlert)], items(WeatherAlert))
    case RoadsDomain => Ingredients(name, [served(RoadIncident), w.chain.status, w.segment.status],
                                    EventItems(Unplanned(OfLayer(events, RoadIncident))) + FeatureItems(w.chain.features + w.segment.features))
    case SeismicDomain => Ingredients(name, [served(Earthquake)], items(Earthquake))
    case PowerDomain => Ingredients(name, [served(Power)], items(Power))
    case BurnDomain => Ingredients(name, [served(BurnStatus)], items(BurnStatus))
    case CommsDomain => Ingredients(name, [served(Mesh)], items(Mesh))
  }

  function DomainPlan(events: seq<Event>, sources: seq<Source>, w: Surroundings): (plan: seq<Ingredients>)
    ensures |plan| == |DomainNames(w)|
    ensures forall i :: 0 <= i < |plan| ==> plan[i] == IngredientsOf(DomainNames(w)[i], events, sources, w)
  {
    var names := DomainNames(w);
    seq(|names|, i requires 0 <= i < |names| => IngredientsOf(names[i], events, sources, w))
  }

  ghost predicate DomainsAre(ds: seq<Domain>, plan: seq<Ingredients>) {
    |ds| == |plan| && forall i :: 0 <= i < |ds| ==> DomainIs(ds[i], plan[i].name, plan[i].statuses, plan[i].items)
  }

  method BuildDomains(plan: seq<Ingredients>) returns (ds: seq<Domain>)
    ensures DomainsAre(ds, plan)
  {
    ds := [];
    for n := 0 to |plan|
      invariant DomainsAre(ds, plan[..n])
    {
      var d := BuildDomain(plan[n].name, plan[n].statuses, plan[n].items);
      ds := ds + [d];
    }
    assert plan[..|plan|] == plan;
  }

  method BuildPlaceSummary(events: seq<Event>, sources: seq<Source>, w: Surroundings) returns (s: Summary)
    ensures StatsAre(s.stats, events, sources)
    ensures DomainsAre(s.domains, DomainPlan(events, sources, w))
    ensures s.mode == ModeOf(InputsOf(events, sources, w))
  {
    var hazards := HazardEvents(events);
    var stats := SummaryBlock(events, hazards, sources);
    var domains := BuildDomains(DomainPlan(events, sources, w));
    var levels, maxActive, maxWildfire := Signals(hazards);
    var dark := AnyUnavailable(events, sources, w);
    var fire := FireWeatherState(FireStates(w.fireWx.features));
    var mode := ComputeMode(ModeInputs(levels, stats.evacuationStatus == UNAVAILABLE, maxActive, maxWildfire, fire, dark));
    return Summary(stats, domains, mode);
  }
}
