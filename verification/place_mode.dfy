/** The mode of a place (ComputeMode of internal/gridapi/summary.go). */
module PlaceMode {
  import opened Text
  import opened PlaceSummary

  datatype Mode = Quiet | Watch | Alert

  function ModeRank(m: Mode): nat {
    match m
    case Quiet => 0
    case Watch => 1
    case Alert => 2
  }

  /** What a place's signals come down to. */
  datatype ModeInputs = ModeInputs(
    activeEvacLevels: seq<Level>,
    evacUnavailable: bool,
    maxActive: Severity,
    maxWildfire: Severity,
    fireWeatherState: string,
    anyLayerUnavailable: bool)

  predicate FireAlert(state: string) {
    ToLower(state) == "elevated" || ToLower(state) == "red-flag"
  }

  predicate Mandatory(levels: seq<Level>) {
    exists i :: 0 <= i < |levels| && levels[i] != Advisory
  }

  /** The rule table: an ACTIVE place is `Alert` here. */
  function ModeOf(i: ModeInputs): Mode {
    if Mandatory(i.activeEvacLevels) || i.maxActive == Extreme || Rank(i.maxWildfire) >= Rank(Severe) then Alert
    else if || Rank(i.maxActive) >= Rank(Severe) || i.activeEvacLevels != [] || FireAlert(i.fireWeatherState) || i.evacUnavailable
            || (i.anyLayerUnavailable && Rank(i.maxActive) >= Rank(Moderate))
    then Watch
    else Quiet
  }

  method ComputeMode(i: ModeInputs) returns (m: Mode)
    ensures m == ModeOf(i)
  {
    var levels := i.activeEvacLevels;
    for k := 0 to |levels|
      invariant forall j :: 0 <= j < k ==> levels[j] == Advisory
    {
      if levels[k] != Advisory {
        return Alert;
      }
    }
    if Rank(i.maxActive) >= Rank(Extreme) {
      return Alert;
    }
    if Rank(i.maxWildfire) >= Rank(Severe) {
      return Alert;
    }
    if Rank(i.maxActive) >= Rank(Severe) {
      return Watch;
    }
    for k := 0 to |levels|
      invariant k == 0
    {
      if levels[k] == Advisory {
        return Watch;
      }
    }
    if ToLower(i.fireWeatherState) == "elevated" || ToLower(i.fireWeatherState) == "red-flag" {
      return Watch;
    }
    if i.evacUnavailable {
      return Watch;
    }
    if i.anyLayerUnavailable && Rank(i.maxActive) >= Rank(Moderate) {
      return Watch;
    }
    return Quiet;
  }

  /** Every level of `a` is answered in `b` by one at least as serious. */
  predicate LevelsAtLeast(a: seq<Level>, b: seq<Level>) {
    forall i :: 0 <= i < |a| ==> Answered(a[i], b)
  }

  predicate Answered(l: Level, b: seq<Level>) {
    exists j :: 0 <= j < |b| && (l == Advisory || b[j] != Advisory)
  }

  /** No signal of `b` is milder than in `a`. */
  predicate AtLeastAsBad(a: ModeInputs, b: ModeInputs) {
    && LevelsAtLeast(a.activeEvacLevels, b.activeEvacLevels)
    && (a.evacUnavailable ==> b.evacUnavailable)
    && Rank(a.maxActive) <= Rank(b.maxActive) && Rank(a.maxWildfire) <= Rank(b.maxWildfire)
    && (FireAlert(a.fireWeatherState) ==> FireAlert(b.fireWeatherState))
    && (a.anyLayerUnavailable ==> b.anyLayerUnavailable)
  }

  /** Worse signals never calm the mode. */
  lemma ModeIsMonotone(a: ModeInputs, b: ModeInputs)
    requires AtLeastAsBad(a, b)
    ensures ModeRank(ModeOf(a)) <= ModeRank(ModeOf(b))
  {
    if Mandatory(a.activeEvacLevels) {
      var i :| 0 <= i < |a.activeEvacLevels| && a.activeEvacLevels[i] != Advisory;
      assert Answered(a.activeEvacLevels[i], b.activeEvacLevels);
    }
    if a.activeEvacLevels != [] {
      assert Answered(a.activeEvacLevels[0], b.activeEvacLevels);
    }
  }

  /** Unknown is never quiet, and quiet means none of the signals. */
  lemma QuietMeans(i: ModeInputs)
    ensures ModeOf(i) == Quiet <==>
      && i.activeEvacLevels == [] && !i.evacUnavailable
      && Rank(i.maxActive) < Rank(Severe) && Rank(i.maxWildfire) < Rank(Severe) && !FireAlert(i.fireWeatherState)
      && (i.anyLayerUnavailable ==> Rank(i.maxActive) < Rank(Moderate))
  {
    if i.activeEvacLevels != [] {
      assert i.activeEvacLevels[0] == i.activeEvacLevels[0];
    }
  }

  // ---------------------------------------------------------------- fire weather

  function FireRank(s: string): nat {
    if s == "red-flag" then 2 else if s == "elevated" then 1 else 0
  }

  /** The known state at i outranks those before it, and none after outranks it. */
  predicate FirstWorst(states: seq<string>, i: nat) {
    && i < |states| && states[i] != ""
    && (forall j :: 0 <= j < i && states[j] != "" ==> FireRank(states[j]) < FireRank(states[i]))
    && (forall j :: i < j < |states| && states[j] != "" ==> FireRank(states[j]) <= FireRank(states[i]))
  }

  /** fireWeatherState: a known state over none, and escalation over what came before. */
  function FireState(states: seq<string>): string {
    if states == [] then ""
    else
      var before, s := FireState(states[..|states| - 1]), states[|states| - 1];
      if s != "" && (before == "" || FireRank(s) > FireRank(before)) then s else before
  }

  method FireWeatherState(states: seq<string>) returns (state: string)
    ensures state == FireState(states)
  {
    state := "";
    for n := 0 to |states|
      invariant state == FireState(states[..n])
    {
      assert states[..n + 1][..n] == states[..n];
      if states[n] == "" {
        continue;
      }
      if state == "" || FireRank(states[n]) > FireRank(state) {
        state := states[n];
      }
    }
    assert states[..|states|] == states;
  }

  lemma WorstStays(front: seq<string>, s: string, i: nat)
    requires FirstWorst(front, i) && (s == "" || FireRank(s) <= FireRank(front[i]))
    ensures FirstWorst(front + [s], i)
  {
  }

  lemma WorseTakesOver(front: seq<string>, s: string, i: nat)
    requires FirstWorst(front, i) && s != "" && FireRank(s) > FireRank(front[i])
    ensures FirstWorst(front + [s], |front|)
  {
    forall j | 0 <= j < |front| && front[j] != "" ensures FireRank(front[j]) < FireRank(s) {
      assert FireRank(front[j]) <= FireRank(front[i]);
    }
  }

  lemma FirstKnown(front: seq<string>, s: string)
    requires s != "" && forall j :: 0 <= j < |front| ==> front[j] == ""
    ensures FirstWorst(front + [s], |front|)
  {
  }

  /** It is the first state of the highest rank, and "" only when none is known. */
  lemma {:induction false} FireStateIsTheFirstWorst(states: seq<string>)
    ensures FireState(states) == "" <==> forall i :: 0 <= i < |states| ==> states[i] == ""
    ensures FireState(states) != "" ==> exists i: nat :: FirstWorst(states, i) && states[i] == FireState(states)
  {
    if states != [] {
      var front, s := states[..|states| - 1], states[|states| - 1];
      assert states == front + [s];
      FireStateIsTheFirstWorst(front);
      var before := FireState(front);
      if before == "" {
        if s != "" { FirstKnown(front, s); }
      } else {
        var i: nat :| FirstWorst(front, i) && front[i] == before;
        if s != "" && FireRank(s) > FireRank(before) {
          WorseTakesOver(front, s, i);
        } else {
          WorstStays(front, s, i);
        }
      }
    }
  }
}
