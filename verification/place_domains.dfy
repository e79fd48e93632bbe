/** The domains of a place summary and its counts (internal/gridapi/summary.go),
  in terms of the stored events and the conditions. */
module PlaceDomains {
  import opened Wrappers
  import opened StableSort
  import opened PlaceSummary
  import opened PlaceRollup
  import opened PlacePromises
  import opened PlaceFacts

  // --------------------------------------------------------------------- counting

  lemma {:induction false} FilterConcat<T>(a: seq<T>, b: seq<T>, p: T -> bool)
    ensures Filter(a + b, p) == Filter(a, p) + Filter(b, p)
  {
    if b == [] {
      assert a + b == a;
    } else {
      var front, x := b[..|b| - 1], b[|b| - 1];
      FilterConcat(a, front, p);
      assert (a + b)[..|a + b| - 1] == a + front && (a + b)[|a + b| - 1] == x;
    }
  }

  /** How many stored events of the layer are reported: all but planned roadwork. */
  function Reported(events: seq<Event>, l: Layer): nat {
    if events == [] then 0
    else
      var e := events[0];
      Reported(events[1..], l) + if e.layer == l && !(e.layer == RoadIncident && e.status == Scheduled) then 1 else 0
  }

  /** How many features of a condition are more than its baseline. */
  function Raised(fs: seq<Feature>): nat {
    if fs == [] then 0 else Raised(fs[1..]) + if fs[0].severity != Info then 1 else 0
  }

  lemma {:induction false} ReportedConcat(a: seq<Event>, b: seq<Event>, l: Layer)
    ensures Reported(a + b, l) == Reported(a, l) + Reported(b, l)
  {
    if a == [] {
      assert a + b == b;
    } else {
      assert (a + b)[1..] == a[1..] + b;
      ReportedConcat(a[1..], b, l);
    }
  }

  lemma {:induction false} RaisedConcat(a: seq<Feature>, b: seq<Feature>)
    ensures Raised(a + b) == Raised(a) + Raised(b)
  {
    if a == [] {
      assert a + b == b;
    } else {
      assert (a + b)[1..] == a[1..] + b;
      RaisedConcat(a[1..], b);
    }
  }

  /** The events a domain lists for its layer. */
  function ListedOf(events: seq<Event>, l: Layer): seq<Event> {
    if l == RoadIncident then Unplanned(OfLayer(events, l)) else OfLayer(events, l)
  }

  lemma {:induction false} ListedCount(events: seq<Event>, l: Layer)
    ensures |ListedOf(events, l)| == Reported(events, l)
  {
    if events != [] {
      var front, e := events[..|events| - 1], events[|events| - 1];
      assert events == front + [e];
      ListedCount(front, l);
      ReportedConcat(front, [e], l);
      assert [e][1..] == [];
      ListedMore(front, e, l);
    }
  }

  lemma ListedMore(front: seq<Event>, e: Event, l: Layer)
    ensures |ListedOf(front + [e], l)|
      == |ListedOf(front, l)| + if e.layer == l && !(e.layer == RoadIncident && e.status == Scheduled) then 1 else 0
  {
    assert (front + [e])[..|front|] == front;
    var all := OfLayer(front, l);
    assert (all + [e])[..|all|] == all;
  }

  lemma ListedAre(events: seq<Event>, l: Layer, e: Event)
    ensures e in ListedOf(events, l) <==> e in events && e.layer == l && !(e.layer == RoadIncident && e.status == Scheduled)
  {
    Filtered(events, (x: Event) => x.layer == l);
    Filtered(OfLayer(events, l), (x: Event) => !PlannedRoadwork(x));
  }

  lemma {:induction false} EventsAreLive(es: seq<Event>)
    ensures Filter(EventItems(es), Live) == EventItems(es)
  {
    if es != [] {
      var front := es[..|es| - 1];
      EventsAreLive(front);
      assert EventItems(es)[..|es| - 1] == EventItems(front);
      assert EventItems(es) == EventItems(front) + [EventItems(es)[|es| - 1]];
    }
  }

  lemma {:induction false} RaisedAreLive(fs: seq<Feature>)
    ensures |Filter(FeatureItems(fs), Live)| == Raised(fs)
  {
    if fs != [] {
      var front, f := fs[..|fs| - 1], fs[|fs| - 1];
      RaisedAreLive(front);
      assert FeatureItems(fs)[..|fs| - 1] == FeatureItems(front);
      assert fs == front + [f];
      RaisedConcat(front, [f]);
      assert [f][1..] == [];
    }
  }

  lemma {:induction false} HighestItemBounds(items: seq<Item>)
    ensures forall i :: i in items ==> Graded(HighestItem(items), i.severity)
    ensures HighestItem(items) == Info || exists i :: i in items && i.severity == HighestItem(items)
  {
    if items != [] {
      var front, x := items[..|items| - 1], items[|items| - 1];
      assert items == front + [x];
      HighestItemBounds(front);
      RankIsGraded(HighestItem(front), x.severity);
      forall i | i in items ensures Graded(HighestItem(items), i.severity) {
      }
    }
  }

  // ------------------------------------------------------------------- one domain

  /** What a domain says of the events of its layer, and of the features and
      statuses of its conditions. */
  ghost predicate Tells(d: Domain, name: DomainName, l: Layer, features: seq<Feature>, conditions: seq<Status>, events: seq<Event>, sources: seq<Source>) {
    && d.name == name
    && d.activeCount == Reported(events, l) + Raised(features)
    && (d.status == UNAVAILABLE <==> ServedStatus(events, sources, l) == UNAVAILABLE || UNAVAILABLE in conditions)
    && (d.status == OK <==> ServedStatus(events, sources, l) == OK && forall s :: s in conditions ==> s == OK)
    && (forall e :: e in events && e.layer == l && !(e.layer == RoadIncident && e.status == Scheduled) ==> Graded(d.highest, e.severity))
    && (forall f :: f in features ==> Graded(d.highest, f.severity))
    && |d.headlines| == (if d.activeCount > 3 then 3 else d.activeCount)
  }

  lemma WorstMeans(s: Status, statuses: seq<Status>)
    requires IsWorst(s, statuses)
    ensures s == UNAVAILABLE <==> UNAVAILABLE in statuses
    ensures s == OK <==> forall x :: x in statuses ==> x == OK
  {
  }

  lemma CountOfLive(events: seq<Event>, l: Layer, features: seq<Feature>)
    ensures |Filter(EventItems(ListedOf(events, l)) + FeatureItems(features), Live)| == Reported(events, l) + Raised(features)
  {
    var es := ListedOf(events, l);
    FilterConcat(EventItems(es), FeatureItems(features), Live);
    EventsAreLive(es);
    RaisedAreLive(features);
    ListedCount(events, l);
  }

  lemma StatusOf(s: Status, served: Status, conditions: seq<Status>)
    requires IsWorst(s, [served] + conditions)
    ensures s == UNAVAILABLE <==> served == UNAVAILABLE || UNAVAILABLE in conditions
    ensures s == OK <==> served == OK && forall x :: x in conditions ==> x == OK
  {
    var all := [served] + conditions;
    WorstMeans(s, all);
    assert all[0] == served && all[0] in all;
    forall x ensures x in all <==> x == served || x in conditions {
      if x in conditions {
        var k :| 0 <= k < |conditions| && conditions[k] == x;
        assert all[k + 1] == x;
      }
    }
    if served == OK && forall x :: x in conditions ==> x == OK {
      forall x | x in all ensures x == OK {
      }
    }
    if s == OK {
      forall x | x in conditions ensures x == OK {
        assert x in all;
      }
    }
  }

  lemma DomainTells(d: Domain, name: DomainName, l: Layer, features: seq<Feature>, conditions: seq<Status>, events: seq<Event>, sources: seq<Source>)
    requires DomainIs(d, name, [ServedStatus(events, sources, l)] + conditions, EventItems(ListedOf(events, l)) + FeatureItems(features))
    ensures Tells(d, name, l, features, conditions, events, sources)
  {
    StatusOf(d.status, ServedStatus(events, sources, l), conditions);
    CountOfLive(events, l, features);
    HighestOfLive(events, l, features);
  }

  lemma HighestOfLive(events: seq<Event>, l: Layer, features: seq<Feature>)
    ensures var h := HighestItem(Filter(EventItems(ListedOf(events, l)) + FeatureItems(features), Live));
      && (forall e :: e in events && e.layer == l && !(e.layer == RoadIncident && e.status == Scheduled) ==> Graded(h, e.severity))
      && (forall f :: f in features ==> Graded(h, f.severity))
  {
    var es := ListedOf(events, l);
    var items := EventItems(es) + FeatureItems(features);
    var h := HighestItem(Filter(items, Live));
    HighestItemBounds(Filter(items, Live));
    Filtered(items, Live);
    forall e | e in events && e.layer == l && !(e.layer == RoadIncident && e.status == Scheduled) ensures Graded(h, e.severity) {
      ListedAre(events, l, e);
      var i :| 0 <= i < |es| && es[i] == e;
      assert items[i] == Item(e.id, e.severity, false) && items[i] in items;
    }
    forall f | f in features ensures Graded(h, f.severity) {
      var i :| 0 <= i < |features| && features[i] == f;
      assert items[|es| + i] == Item(f.id, f.severity, true) && items[|es| + i] in items;
    }
  }

  // -------------------------------------------------------------- all the domains

  /** What each domain is about: a layer of events, and for fire and roads conditions. */
  function LayerOf(name: DomainName): Layer {
    match name
    case FireDomain => Wildfire
    case EvacuationDomain => Evacuation
    case WeatherDomain => WeatherAlert
    case RoadsDomain => RoadIncident
    case SeismicDomain => Earthquake
    case PowerDomain => Power
    case BurnDomain => BurnStatus
    case CommsDomain => Mesh
  }

  function ConditionsOf(name: DomainName, w: Surroundings): seq<Condition> {
    match name
    case FireDomain => [w.fireWx]
    case RoadsDomain => [w.chain, w.segment]
    case _ => []
  }

  function FeaturesOf(cs: seq<Condition>): seq<Feature> {
    if cs == [] then [] else cs[0].features + FeaturesOf(cs[1..])
  }

  function StatusesOf(cs: seq<Condition>): seq<Status> {
    if cs == [] then [] else [cs[0].status] + StatusesOf(cs[1..])
  }

  lemma NoneOneTwo(a: Condition, b: Condition)
    ensures FeaturesOf([]) == [] && StatusesOf([]) == []
    ensures FeaturesOf([a]) == a.features && StatusesOf([a]) == [a.status]
    ensures FeaturesOf([a, b]) == a.features + b.features && StatusesOf([a, b]) == [a.status, b.status]
  {
    assert [a][1..] == [] && [a, b][1..] == [b];
    assert FeaturesOf([b]) == b.features by { assert [b][1..] == []; }
    assert StatusesOf([b]) == [b.status] by { assert [b][1..] == []; }
  }

  lemma PlainPlan(events: seq<Event>, sources: seq<Source>, l: Layer)
    requires l != RoadIncident
    ensures [ServedStatus(events, sources, l)] == [ServedStatus(events, sources, l)] + []
    ensures EventItems(OfLayer(events, l)) == EventItems(ListedOf(events, l)) + FeatureItems([])
  {
  }

  ghost predicate PlannedAs(x: Ingredients, name: DomainName, events: seq<Event>, sources: seq<Source>, cs: seq<Condition>) {
    && x.name == name
    && x.statuses == [ServedStatus(events, sources, LayerOf(name))] + StatusesOf(cs)
    && x.items == EventItems(ListedOf(events, LayerOf(name))) + FeatureItems(FeaturesOf(cs))
  }

  lemma PlanEntry(events: seq<Event>, sources: seq<Source>, w: Surroundings, name: DomainName)
    ensures PlannedAs(IngredientsOf(name, events, sources, w), name, events, sources, ConditionsOf(name, w))
  {
    NoneOneTwo(w.fireWx, w.fireWx);
    NoneOneTwo(w.chain, w.segment);
    if name != RoadsDomain {
      PlainPlan(events, sources, LayerOf(name));
    }
  }

  /** Every domain: which there are and in what order, and what each says. */
  lemma DomainOnTheFacts(ds: seq<Domain>, events: seq<Event>, sources: seq<Source>, w: Surroundings, i: nat)
    requires DomainsAre(ds, DomainPlan(events, sources, w)) && i < |ds|
    ensures |ds| == 6 + (if w.burnConfigured then 1 else 0) + (if w.meshEnabled then 1 else 0)
    ensures i < 6 ==> ds[i].name == [FireDomain, EvacuationDomain, WeatherDomain, RoadsDomain, SeismicDomain, PowerDomain][i]
    ensures i >= 6 ==> ds[i].name == if i == 6 && w.burnConfigured then BurnDomain else CommsDomain
    ensures var name := ds[i].name; var cs := ConditionsOf(name, w);
      Tells(ds[i], name, LayerOf(name), FeaturesOf(cs), StatusesOf(cs), events, sources)
  {
    var name := DomainNames(w)[i];
    PlanEntry(events, sources, w, name);
    OneOfPlan(ds[i], IngredientsOf(name, events, sources, w), name, events, sources, ConditionsOf(name, w));
  }

  lemma OneOfPlan(d: Domain, x: Ingredients, name: DomainName, events: seq<Event>, sources: seq<Source>, cs: seq<Condition>)
    requires PlannedAs(x, name, events, sources, cs) && DomainIs(d, x.name, x.statuses, x.items)
    ensures Tells(d, name, LayerOf(name), FeaturesOf(cs), StatusesOf(cs), events, sources)
  {
    DomainTells(d, name, LayerOf(name), FeaturesOf(cs), StatusesOf(cs), events, sources);
  }

  // ------------------------------------------------------------- the summary block

  function ActiveOf(events: seq<Event>, l: Layer): nat {
    if events == [] then 0 else ActiveOf(events[1..], l) + if events[0].layer == l && events[0].status == Active then 1 else 0
  }

  function HazardsOfSeverity(events: seq<Event>, s: Severity): nat {
    if events == [] then 0 else HazardsOfSeverity(events[1..], s) + if IsHazard(events[0]) && events[0].severity == s then 1 else 0
  }

  lemma {:induction false} ActiveConcat(a: seq<Event>, b: seq<Event>, l: Layer)
    ensures ActiveOf(a + b, l) == ActiveOf(a, l) + ActiveOf(b, l)
  {
    if a == [] {
      assert a + b == b;
    } else {
      assert (a + b)[1..] == a[1..] + b;
      ActiveConcat(a[1..], b, l);
    }
  }

  lemma {:induction false} SeverityConcat(a: seq<Event>, b: seq<Event>, s: Severity)
    ensures HazardsOfSeverity(a + b, s) == HazardsOfSeverity(a, s) + HazardsOfSeverity(b, s)
  {
    if a == [] {
      assert a + b == b;
    } else {
      assert (a + b)[1..] == a[1..] + b;
      SeverityConcat(a[1..], b, s);
    }
  }

  lemma {:induction false} ActiveEvacuationsAre(events: seq<Event>)
    ensures ActiveEvacuations(events) == ActiveOf(events, Evacuation)
  {
    if events != [] {
      var front, e := events[..|events| - 1], events[|events| - 1];
      assert events == front + [e] && [e][1..] == [];
      ActiveEvacuationsAre(front);
      ActiveConcat(front, [e], Evacuation);
    }
  }

  lemma {:induction false} SeveritiesAre(events: seq<Event>, s: Severity)
    ensures CountOf(Hazards(events), s) == HazardsOfSeverity(events, s)
  {
    if events != [] {
      var front, e := events[..|events| - 1], events[|events| - 1];
      assert events == front + [e] && [e][1..] == [];
      SeveritiesAre(front, s);
      SeverityConcat(front, [e], s);
      var hs := Hazards(front);
      assert (hs + [e])[..|hs|] == hs;
      assert Counted(e) <==> IsHazard(e);
    }
  }

  /** The counts of the summary block are counts of the stored events: of the
      hazards of each severity, and of the active evacuations unless nothing is known of them. */
  lemma StatsOnTheFacts(st: Stats, events: seq<Event>, sources: seq<Source>, s: Severity)
    requires StatsAre(st, events, sources)
    ensures Shown(st.severityCounts, s) == HazardsOfSeverity(events, s)
    ensures st.activeEvacuations == if Down(sources, "caloes") && (forall e :: e in events ==> e.layer != Evacuation) then None
                                    else Some(ActiveOf(events, Evacuation))
    ensures |st.topEvents| == if st.totalActive > 5 then 5 else st.totalActive
    ensures forall e :: e in events && IsHazard(e) ==> Graded(st.highest, e.severity)
  {
    SeveritiesAre(events, s);
    ActiveEvacuationsAre(events);
    LayerOnTheFacts(events, sources, Evacuation);
    HazardsAre(events);
    HighestBounds(Hazards(events));
    forall e | e in events && IsHazard(e) ensures Graded(st.highest, e.severity) {
      RankIsGraded(st.highest, e.severity);
    }
  }

  /** A comes before b in the list of top events: more severe, or as severe and observed later. */
  predicate Ahead(a: Event, b: Event) {
    (Graded(a.severity, b.severity) && a.severity != b.severity) || (a.severity == b.severity && a.observedAt > b.observedAt)
  }

  lemma AheadIsMoreUrgent(a: Event, b: Event)
    ensures Ahead(a, b) <==> MoreUrgent(a, b)
  {
  }

  /** The top events are hazards, none stands behind one it is ahead of, and no
      hazard that is left out is ahead of one that is shown. */
  lemma TopOnTheFacts(st: Stats, events: seq<Event>, sources: seq<Source>)
    requires StatsAre(st, events, sources)
    ensures forall i, j :: 0 <= i < j < |st.topEvents| ==> !Ahead(st.topEvents[j], st.topEvents[i])
    ensures forall e :: e in st.topEvents ==> e in events && IsHazard(e)
    ensures forall e, shown :: e in events && IsHazard(e) && e !in st.topEvents && shown in st.topEvents ==> !Ahead(e, shown)
  {
    var hazards := Hazards(events);
    HazardsAre(events);
    MoreUrgentIsAnOrder();
    SortSorts(hazards, MoreUrgent);
    forall i, j | 0 <= i < j < |st.topEvents| ensures !Ahead(st.topEvents[j], st.topEvents[i]) {
      assert !MoreUrgent(Sort(hazards, MoreUrgent)[j], Sort(hazards, MoreUrgent)[i]);
      AheadIsMoreUrgent(st.topEvents[j], st.topEvents[i]);
    }
    forall e | e in st.topEvents ensures e in hazards {
      assert e in multiset(st.topEvents) && multiset(st.topEvents) <= multiset(hazards);
    }
    forall e, shown | e in events && IsHazard(e) && e !in st.topEvents && shown in st.topEvents ensures !Ahead(e, shown) {
      assert e in multiset(hazards) && e !in multiset(st.topEvents);
      TopEventsAreTheMostUrgent(st, events, sources, shown, e);
      AheadIsMoreUrgent(e, shown);
    }
  }

  /** The time a layer is dated with is the latest success of its sources' rows. */
  lemma {:induction false} LastSuccessIsLatest(sources: seq<Source>, ids: seq<string>)
    ensures forall id, t :: id in ids && Row(sources, id) != None && Row(sources, id).value.lastSuccessAt == Some(t) ==>
      LastSuccess(sources, ids).Some? && t <= LastSuccess(sources, ids).value
    ensures LastSuccess(sources, ids).Some? ==> exists id :: id in ids && Row(sources, id) != None && Row(sources, id).value.lastSuccessAt == LastSuccess(sources, ids)
  {
    if ids != [] {
      var front := ids[..|ids| - 1];
      assert ids == front + [ids[|ids| - 1]];
      LastSuccessIsLatest(sources, front);
    }
  }
}
