/** What a place summary promises its reader. */
module PlacePromises {
  import opened Wrappers
  import opened StableSort
  import opened PlaceSummary
  import opened PlaceMode
  import opened PlaceRollup

  lemma {:induction false} Filtered<T(!new)>(s: seq<T>, p: T -> bool)
    ensures forall x :: x in Filter(s, p) <==> x in s && p(x)
  {
    if s != [] {
      Filtered(s[..|s| - 1], p);
      assert s == s[..|s| - 1] + [s[|s| - 1]];
    }
  }

  lemma {:induction false} HighestBounds(es: seq<Event>)
    ensures forall e :: e in es ==> Rank(e.severity) <= Rank(Highest(es))
    ensures Highest(es) == Info || exists e :: e in es && e.severity == Highest(es)
  {
    if es != [] {
      HighestBounds(es[..|es| - 1]);
      assert es == es[..|es| - 1] + [es[|es| - 1]];
    }
  }

  lemma {:induction false} CountsSum(es: seq<Event>)
    ensures CountOf(es, Info) + CountOf(es, Minor) + CountOf(es, Moderate) + CountOf(es, Severe) + CountOf(es, Extreme) == |es|
    ensures forall s :: CountOf(es, s) > 0 <==> exists e :: e in es && e.severity == s
  {
    if es != [] {
      CountsSum(es[..|es| - 1]);
      assert es == es[..|es| - 1] + [es[|es| - 1]];
    }
  }

  lemma {:induction false} EvacuationsCounted(es: seq<Event>)
    ensures ActiveEvacuations(es) == 0 <==> forall e :: e in es ==> !(e.layer == Evacuation && e.status == Active)
  {
    if es != [] {
      EvacuationsCounted(es[..|es| - 1]);
      assert es == es[..|es| - 1] + [es[|es| - 1]];
    }
  }

  function Shown(counts: map<Severity, nat>, s: Severity): nat {
    if s in counts then counts[s] else 0
  }

  /** The severity counts add up to the total, the highest severity is the highest
      counted one, and the top events are the gravest five. */
  lemma RollupAddsUp(st: Stats, events: seq<Event>, sources: seq<Source>)
    requires StatsAre(st, events, sources)
    ensures Shown(st.severityCounts, Info) + Shown(st.severityCounts, Minor) + Shown(st.severityCounts, Moderate)
      + Shown(st.severityCounts, Severe) + Shown(st.severityCounts, Extreme) == st.totalActive
    ensures forall s :: Rank(s) > Rank(st.highest) ==> Shown(st.severityCounts, s) == 0
    ensures st.totalActive > 0 ==> Shown(st.severityCounts, st.highest) > 0
  {
    var hazards := Hazards(events);
    CountsSum(hazards);
    HighestBounds(hazards);
    assert forall s :: Shown(st.severityCounts, s) == CountOf(hazards, s);
    if st.totalActive > 0 {
      assert hazards[0] in hazards;
    }
  }

  lemma MoreUrgentIsAnOrder()
    ensures IsOrder(MoreUrgent)
  {
  }

  lemma GraverIsAnOrder()
    ensures IsOrder(Graver)
  {
  }

  /** No counted event left out of the top five is more urgent than one of them. */
  lemma TopEventsAreTheMostUrgent(st: Stats, events: seq<Event>, sources: seq<Source>, shown: Event, left: Event)
    requires StatsAre(st, events, sources)
    requires shown in st.topEvents && left in multiset(Hazards(events)) - multiset(st.topEvents)
    ensures !MoreUrgent(left, shown)
  {
    MoreUrgentIsAnOrder();
    TopIsTop(Hazards(events), 5, MoreUrgent, shown, left);
  }

  /** A domain counts what is live, shows the gravest of it first, and events
      before conditions among equals; it is never healthier than its worst layer. */
  lemma DomainIsFair(d: Domain, name: DomainName, statuses: seq<Status>, items: seq<Item>, s: Severity)
    requires DomainIs(d, name, statuses, items)
    ensures forall x :: x in statuses ==> StatusRank(x) <= StatusRank(d.status)
    ensures forall i, j :: 0 <= i < j < |d.headlines| ==> Rank(d.headlines[i].severity) >= Rank(d.headlines[j].severity)
    ensures Filter(Sort(Filter(items, Live), Graver), (i: Item) => i.severity == s) == Filter(Filter(items, Live), (i: Item) => i.severity == s)
    ensures forall i :: i in d.headlines ==> i in items && Live(i)
  {
    var live := Filter(items, Live);
    GraverIsAnOrder();
    SortSorts(live, Graver);
    SortIsStable(live, Graver, (i: Item) => i.severity == s);
    Filtered(items, Live);
    forall i | i in d.headlines ensures i in live {
      assert i in multiset(d.headlines) && multiset(d.headlines) <= multiset(live);
    }
    forall i, j | 0 <= i < j < |d.headlines| ensures Rank(d.headlines[i].severity) >= Rank(d.headlines[j].severity) {
      assert !Graver(Sort(live, Graver)[j], Sort(live, Graver)[i]);
    }
  }

  /** No count is shown exactly when evacuations are unknown: every evacuation
      source is down and nothing is stored. A shown zero means no stored active one. */
  lemma AnErrorNeverBecomesAZero(st: Stats, events: seq<Event>, sources: seq<Source>)
    requires StatsAre(st, events, sources)
    ensures st.activeEvacuations.None? <==> st.evacuationStatus == UNAVAILABLE
    ensures st.activeEvacuations.None? <==> AllDown(sources, SourceIds(Evacuation)) && !HasEvents(events, Evacuation)
    ensures st.activeEvacuations == Some(0) ==>
      (forall e :: e in events ==> !(e.layer == Evacuation && e.status == Active)) && (!AllDown(sources, SourceIds(Evacuation)) || HasEvents(events, Evacuation))
  {
    ServedStatusMeans(events, sources, Evacuation);
    EvacuationsCounted(events);
  }

  /** A quiet place has no active evacuation, no active counted event that is
      SEVERE or worse, and a known evacuation source. */
  lemma QuietIsQuiet(events: seq<Event>, sources: seq<Source>, w: Surroundings)
    requires ModeOf(InputsOf(events, sources, w)) == Quiet
    ensures forall e :: e in events && e.status == Active ==> e.layer != Evacuation
    ensures forall e :: e in events && e.status == Active && Counted(e) ==> Rank(e.severity) < Rank(Severe)
    ensures ServedStatus(events, sources, Evacuation) != UNAVAILABLE
    ensures AnyDark(events, sources, w) ==> forall e :: e in events && e.status == Active && Counted(e) ==> Rank(e.severity) < Rank(Moderate)
  {
    var hazards := Hazards(events);
    QuietMeans(InputsOf(events, sources, w));
    Filtered(events, Counted);
    Filtered(hazards, IsActiveEvacuation);
    Filtered(hazards, IsActive);
    HighestBounds(Filter(hazards, IsActive));
    forall e | e in events && e.status == Active ensures e.layer != Evacuation {
      if Counted(e) {
        assert e in hazards;
        assert e !in Filter(hazards, IsActiveEvacuation);
      }
    }
    forall e | e in events && e.status == Active && Counted(e) ensures Rank(e.severity) <= Rank(Highest(Filter(hazards, IsActive))) {
      assert e in hazards && e in Filter(hazards, IsActive);
    }
  }

  // ------------------------------------------------------------- one event more

  lemma HasMore(events: seq<Event>, e: Event, l: Layer)
    ensures HasEvents(events + [e], l) <==> HasEvents(events, l) || e.layer == l
  {
    assert (events + [e])[|events|] == e;
    if HasEvents(events, l) {
      var i :| 0 <= i < |events| && events[i].layer == l;
      assert (events + [e])[i].layer == l;
    }
  }

  /** One more stored event never calms a place, as long as its layer was not dark. */
  lemma AnEventNeverCalms(events: seq<Event>, e: Event, sources: seq<Source>, w: Surroundings)
    requires ServedStatus(events, sources, e.layer) != UNAVAILABLE
    ensures ModeRank(ModeOf(InputsOf(events, sources, w))) <= ModeRank(ModeOf(InputsOf(events + [e], sources, w)))
  {
    AnEventCalmsIff(events, e, sources, w);
  }

  lemma MoreSignals(events: seq<Event>, e: Event)
    ensures var hs, hs' := Hazards(events), Hazards(events + [e]);
      && LevelsAtLeast(Levels(Filter(hs, IsActiveEvacuation)), Levels(Filter(hs', IsActiveEvacuation)))
      && Rank(Highest(Filter(hs, IsActive))) <= Rank(Highest(Filter(hs', IsActive)))
      && Rank(Highest(Filter(hs, IsActiveWildfire))) <= Rank(Highest(Filter(hs', IsActiveWildfire)))
  {
    var hs := Hazards(events);
    HazardsOfOneMore(events, e);
    LevelsOfOneMore(hs, e);
    HighestOfOneMore(hs, e, IsActive);
    HighestOfOneMore(hs, e, IsActiveWildfire);
    LevelsGrow(Levels(Filter(hs, IsActiveEvacuation)), []);
    LevelsGrow(Levels(Filter(hs, IsActiveEvacuation)), [e.level]);
    assert Levels(Filter(hs, IsActiveEvacuation)) + [] == Levels(Filter(hs, IsActiveEvacuation));
  }

  lemma HazardsOfOneMore(events: seq<Event>, e: Event)
    ensures Hazards(events + [e]) == if Counted(e) then Hazards(events) + [e] else Hazards(events)
  {
    FilterMore(events, e, Counted);
    assert Hazards(events) + [] == Hazards(events);
  }

  lemma LevelsGrow(a: seq<Level>, more: seq<Level>)
    ensures LevelsAtLeast(a, a + more)
  {
    forall i | 0 <= i < |a| ensures Answered(a[i], a + more) {
      assert (a + more)[i] == a[i];
    }
  }

  // ------------------------------------------------------ when one more event calms

  function MaxActive(events: seq<Event>): Severity {
    Highest(Filter(Hazards(events), IsActive))
  }

  predicate Dark(events: seq<Event>, sources: seq<Source>, l: Layer) {
    ServedStatus(events, sources, l) == UNAVAILABLE
  }

  /** Something in the hazard picture is dark besides the layer l. */
  predicate OtherDark(events: seq<Event>, sources: seq<Source>, w: Surroundings, l: Layer) {
    || w.chain.status == UNAVAILABLE || w.segment.status == UNAVAILABLE || w.fireWx.status == UNAVAILABLE
    || exists x :: x != l && Watched(x, w) && Dark(events, sources, x)
  }

  predicate EvacuationsActive(events: seq<Event>) {
    exists i :: 0 <= i < |events| && IsActiveEvacuation(events[i])
  }

  /** The event lights the dark layer that kept the place on WATCH, and no other
      signal is up: no active evacuation, no fire-weather alert, nothing SEVERE.
      The layer is evacuations (and if something else stays dark, everything active
      is below MODERATE), or it is the last dark one of the picture while the
      highest active severity is MODERATE. */
  predicate Calms(events: seq<Event>, e: Event, sources: seq<Source>, w: Surroundings) {
    var max := Rank(MaxActive(events + [e]));
    && Watched(e.layer, w) && Dark(events, sources, e.layer)
    && (e.layer != Evacuation ==> !Dark(events, sources, Evacuation))
    && !EvacuationsActive(events + [e]) && !FireAlert(FireState(FireStates(w.fireWx.features)))
    && max < Rank(Severe)
    && if OtherDark(events, sources, w, e.layer) then e.layer == Evacuation && max < Rank(Moderate)
       else e.layer == Evacuation || MaxActive(events) == Moderate
  }

  lemma DarkAfter(events: seq<Event>, e: Event, sources: seq<Source>, l: Layer)
    ensures Dark(events + [e], sources, l) <==> Dark(events, sources, l) && l != e.layer
  {
    ServedStatusMeans(events, sources, l);
    ServedStatusMeans(events + [e], sources, l);
    HasMore(events, e, l);
  }

  lemma AnyDarkAfter(events: seq<Event>, e: Event, sources: seq<Source>, w: Surroundings)
    ensures AnyDark(events + [e], sources, w) <==> OtherDark(events, sources, w, e.layer)
    ensures AnyDark(events, sources, w) <==> OtherDark(events, sources, w, e.layer) || (Watched(e.layer, w) && Dark(events, sources, e.layer))
  {
    forall l ensures Dark(events + [e], sources, l) <==> Dark(events, sources, l) && l != e.layer {
      DarkAfter(events, e, sources, l);
    }
  }

  lemma {:induction false} FilterEmptyIff<T(!new)>(s: seq<T>, p: T -> bool)
    ensures Filter(s, p) == [] <==> forall x :: x in s ==> !p(x)
  {
    Filtered(s, p);
    if Filter(s, p) != [] {
      assert Filter(s, p)[0] in Filter(s, p);
    }
  }

  lemma LevelsEmptyIff(events: seq<Event>)
    ensures Levels(Filter(Hazards(events), IsActiveEvacuation)) == [] <==> !EvacuationsActive(events)
  {
    FilterEmptyIff(Hazards(events), IsActiveEvacuation);
    Filtered(events, Counted);
    if i :| 0 <= i < |events| && IsActiveEvacuation(events[i]) {
      assert events[i] in events;
    }
  }

  lemma WildfireIsBelowAll(events: seq<Event>)
    ensures Rank(Highest(Filter(Hazards(events), IsActiveWildfire))) <= Rank(MaxActive(events))
  {
    var hs := Hazards(events);
    Filtered(hs, IsActive);
    Filtered(hs, IsActiveWildfire);
    HighestBounds(Filter(hs, IsActive));
    HighestBounds(Filter(hs, IsActiveWildfire));
  }

  /** Quiet once the wildfire signal, which is never above the whole, is left out. */
  lemma QuietAfter(events: seq<Event>, sources: seq<Source>, w: Surroundings)
    ensures var i, max := InputsOf(events, sources, w), Rank(MaxActive(events));
      ModeOf(i) == Quiet <==>
        && !EvacuationsActive(events) && !i.evacUnavailable && max < Rank(Severe) && !FireAlert(i.fireWeatherState)
        && (i.anyLayerUnavailable ==> max < Rank(Moderate))
  {
    LevelsEmptyIff(events);
    WildfireIsBelowAll(events);
    QuietMeans(InputsOf(events, sources, w));
  }

  lemma EvacuationIsAnotherLayer(events: seq<Event>, sources: seq<Source>, w: Surroundings, l: Layer)
    requires l != Evacuation && Dark(events, sources, Evacuation)
    ensures OtherDark(events, sources, w, l)
  {
    assert Watched(Evacuation, w);
  }

  /** Exactly when a place becomes calmer by one more stored event: from WATCH to QUIET. */
  lemma AnEventCalmsIff(events: seq<Event>, e: Event, sources: seq<Source>, w: Surroundings)
    ensures ModeRank(ModeOf(InputsOf(events + [e], sources, w))) < ModeRank(ModeOf(InputsOf(events, sources, w)))
      <==> Calms(events, e, sources, w)
    ensures Calms(events, e, sources, w) ==>
      ModeOf(InputsOf(events, sources, w)) == Watch && ModeOf(InputsOf(events + [e], sources, w)) == Quiet
  {
    MoreSignals(events, e);
    OnlyWatchCalms(InputsOf(events, sources, w), InputsOf(events + [e], sources, w));
    CalmsAre(events, e, sources, w);
  }

  lemma CalmsAre(events: seq<Event>, e: Event, sources: seq<Source>, w: Surroundings)
    ensures var a, b := InputsOf(events, sources, w), InputsOf(events + [e], sources, w);
      Calms(events, e, sources, w) <==>
        ModeOf(b) == Quiet && (a.evacUnavailable || (a.anyLayerUnavailable && Rank(a.maxActive) >= Rank(Moderate)))
  {
    MaxGrows(events, e);
    DarkSignals(events, e, sources, w);
    QuietSignals(events, e, sources, w);
    CalmsFrom(InputsOf(events, sources, w), ModeOf(InputsOf(events + [e], sources, w)) == Quiet, events, e, sources, w);
  }

  lemma CalmsFrom(a: ModeInputs, quiet: bool, events: seq<Event>, e: Event, sources: seq<Source>, w: Surroundings)
    requires Rank(MaxActive(events)) <= Rank(MaxActive(events + [e])) && a.maxActive == MaxActive(events)
    requires a.evacUnavailable == Dark(events, sources, Evacuation)
    requires a.anyLayerUnavailable == (OtherDark(events, sources, w, e.layer) || (Watched(e.layer, w) && Dark(events, sources, e.layer)))
    requires e.layer != Evacuation && Dark(events, sources, Evacuation) ==> OtherDark(events, sources, w, e.layer)
    requires quiet <==>
      && !EvacuationsActive(events + [e]) && !(Dark(events, sources, Evacuation) && e.layer != Evacuation)
      && Rank(MaxActive(events + [e])) < 3 && !FireAlert(FireState(FireStates(w.fireWx.features)))
      && (OtherDark(events, sources, w, e.layer) ==> Rank(MaxActive(events + [e])) < 2)
    ensures Calms(events, e, sources, w) <==>
      quiet && (a.evacUnavailable || (a.anyLayerUnavailable && Rank(a.maxActive) >= Rank(Moderate)))
  {
    CalmsTable(e.layer == Evacuation, Watched(e.layer, w), Dark(events, sources, e.layer), Dark(events, sources, Evacuation),
      OtherDark(events, sources, w, e.layer), EvacuationsActive(events + [e]), FireAlert(FireState(FireStates(w.fireWx.features))),
      Rank(MaxActive(events)), Rank(MaxActive(events + [e])), quiet, a.evacUnavailable, a.anyLayerUnavailable, Calms(events, e, sources, w));
  }

  lemma MaxGrows(events: seq<Event>, e: Event)
    ensures Rank(MaxActive(events)) <= Rank(MaxActive(events + [e]))
  {
    MoreSignals(events, e);
  }

  lemma DarkSignals(events: seq<Event>, e: Event, sources: seq<Source>, w: Surroundings)
    ensures var a := InputsOf(events, sources, w);
      && a.evacUnavailable == Dark(events, sources, Evacuation) && a.maxActive == MaxActive(events)
      && a.anyLayerUnavailable == (OtherDark(events, sources, w, e.layer) || (Watched(e.layer, w) && Dark(events, sources, e.layer)))
    ensures e.layer != Evacuation && Dark(events, sources, Evacuation) ==> OtherDark(events, sources, w, e.layer)
  {
    AnyDarkAfter(events, e, sources, w);
    if e.layer != Evacuation && Dark(events, sources, Evacuation) {
      EvacuationIsAnotherLayer(events, sources, w, e.layer);
    }
  }

  lemma QuietSignals(events: seq<Event>, e: Event, sources: seq<Source>, w: Surroundings)
    ensures var max := Rank(MaxActive(events + [e]));
      ModeOf(InputsOf(events + [e], sources, w)) == Quiet <==>
        && !EvacuationsActive(events + [e]) && !(Dark(events, sources, Evacuation) && e.layer != Evacuation)
        && max < 3 && !FireAlert(FireState(FireStates(w.fireWx.features)))
        && (OtherDark(events, sources, w, e.layer) ==> max < 2)
  {
    AnyDarkAfter(events, e, sources, w);
    DarkAfter(events, e, sources, Evacuation);
    QuietAfter(events + [e], sources, w);
  }

  /** The case distinction of Calms, on the signals alone. */
  lemma CalmsTable(isEvac: bool, watched: bool, dark: bool, evacDark: bool, other: bool, active: bool, fire: bool, was: nat, max: nat,
                   quiet: bool, evacWas: bool, anyWas: bool, calms: bool)
    requires was <= max && evacWas == evacDark && anyWas == (other || (watched && dark))
    requires (isEvac ==> watched && dark == evacDark) && (!isEvac && evacDark ==> other)
    requires quiet <==> !active && !(evacDark && !isEvac) && max < 3 && !fire && (other ==> max < 2)
    requires calms <==>
      && watched && dark && (!isEvac ==> !evacDark) && !active && !fire && max < 3
      && if other then isEvac && max < 2 else isEvac || was == 2
    ensures calms <==> quiet && (evacWas || (anyWas && was >= 2))
  {
  }

  /** What calms is what two signals say and the others do not: the evacuation
      layer, or a dark layer while something MODERATE is active. */
  lemma OnlyWatchCalms(a: ModeInputs, b: ModeInputs)
    requires LevelsAtLeast(a.activeEvacLevels, b.activeEvacLevels)
    requires Rank(a.maxActive) <= Rank(b.maxActive) && Rank(a.maxWildfire) <= Rank(b.maxWildfire)
    requires a.fireWeatherState == b.fireWeatherState
    ensures ModeRank(ModeOf(b)) < ModeRank(ModeOf(a))
      <==> ModeOf(b) == Quiet && (a.evacUnavailable || (a.anyLayerUnavailable && Rank(a.maxActive) >= Rank(Moderate)))
    ensures ModeRank(ModeOf(b)) < ModeRank(ModeOf(a)) ==> ModeOf(a) == Watch
  {
    if a.activeEvacLevels != [] {
      assert Answered(a.activeEvacLevels[0], b.activeEvacLevels);
    }
    if Mandatory(a.activeEvacLevels) {
      var i :| 0 <= i < |a.activeEvacLevels| && a.activeEvacLevels[i] != Advisory;
      assert Answered(a.activeEvacLevels[i], b.activeEvacLevels);
    }
  }

  /** Without that proviso it can: with nothing known, storing a scheduled event
      of the dark evacuation layer turns "unknown" into last-good data, and WATCH into QUIET. */
  lemma AStoredEventOfADarkLayerCanCalm(w: Surroundings, e: Event)
    requires w.chain == w.segment == w.fireWx == Condition([], OK) && e.layer == Evacuation && e.status == Scheduled && e.severity == Info
    ensures ModeOf(InputsOf([], [], w)) == Watch && ModeOf(InputsOf([e], [], w)) == Quiet
  {
    LightingEvacuationsCalms([], e, [], w);
    AnEventCalmsIff([], e, [], w);
    assert [] + [e] == [e];
  }

  lemma LightingEvacuationsCalms(none: seq<Event>, e: Event, sources: seq<Source>, w: Surroundings)
    requires none == [] && sources == [] && w.fireWx.features == []
    requires e.layer == Evacuation && e.status == Scheduled
    ensures Calms(none, e, sources, w)
  {
    ServedStatusMeans(none, sources, Evacuation);
    HazardsOfOneMore(none, e);
    HighestOfOneMore(Hazards(none), e, IsActive);
  }
}
