/** The place summary (internal/gridapi/summary.go): source health, the hazard
  rollup, the domains and the mode. */
module PlaceSummary {
  import opened Wrappers

  datatype Severity = Info | Minor | Moderate | Severe | Extreme

  function Rank(s: Severity): nat {
    match s
    case Info => 0
    case Minor => 1
    case Moderate => 2
    case Severe => 3
    case Extreme => 4
  }

  datatype Layer = Wildfire | Evacuation | WeatherAlert | Earthquake | RoadIncident | Mesh | Power | BurnStatus

  /** Stored events read for a summary are active or scheduled. */
  datatype Lifecycle = Active | Scheduled

  datatype Level = EvacuationOrder | Warning | Advisory | ShelterInPlace | Unrecognized

  datatype Event = Event(id: string, layer: Layer, status: Lifecycle, severity: Severity, observedAt: int, level: Level)

  // --------------------------------------------------------------- source health

  datatype Status = OK | STALE | UNAVAILABLE

  /** A registry row; None for a source never polled. */
  datatype Source = Source(id: string, status: Option<Status>, lastSuccessAt: Option<int>)

  /** layerSourceIDs. */
  function SourceIds(l: Layer): (ids: seq<string>)
    ensures ids != []
  {
    match l
    case Wildfire => ["calfire", "firis"]
    case Evacuation => ["caloes"]
    case WeatherAlert => ["nws"]
    case Earthquake => ["usgs"]
    case RoadIncident => ["chp", "caltrans"]
    case Mesh => ["meshcore"]
    case Power => ["pge", "psps"]
    case BurnStatus => ["burnline", "calfire-burn"]
  }

  function Row(sources: seq<Source>, id: string): Option<Source> {
    if sources == [] then None
    else if sources[|sources| - 1].id == id then Some(sources[|sources| - 1])
    else Row(sources[..|sources| - 1], id)
  }

  /** A missing row, or one never polled, vouches for nothing. */
  function Health(sources: seq<Source>, id: string): Status {
    var row := Row(sources, id);
    if row.None? || row.value.status.None? then UNAVAILABLE else row.value.status.value
  }

  function Later(a: Option<int>, b: Option<int>): Option<int> {
    if a.None? then b else if b.None? then a else if b.value > a.value then b else a
  }

  function LastSuccess(sources: seq<Source>, ids: seq<string>): Option<int> {
    if ids == [] then None
    else
      var row := Row(sources, ids[|ids| - 1]);
      Later(LastSuccess(sources, ids[..|ids| - 1]), if row.None? then None else row.value.lastSuccessAt)
  }

  predicate AllHealthy(sources: seq<Source>, ids: seq<string>) {
    forall i :: 0 <= i < |ids| ==> Health(sources, ids[i]) == OK
  }

  predicate AllDown(sources: seq<Source>, ids: seq<string>) {
    forall i :: 0 <= i < |ids| ==> Health(sources, ids[i]) == UNAVAILABLE
  }

  function RawStatus(sources: seq<Source>, l: Layer): (Status, Option<int>) {
    var ids := SourceIds(l);
    if AllHealthy(sources, ids) then (OK, None)
    else if AllDown(sources, ids) then (UNAVAILABLE, LastSuccess(sources, ids))
    else (STALE, LastSuccess(sources, ids))
  }

  method LayerSourceStatus(sources: seq<Source>, l: Layer) returns (status: Status, lastUpdate: Option<int>)
    ensures (status, lastUpdate) == RawStatus(sources, l)
  {
    var byId: map<string, Source> := map[];
    for n := 0 to |sources|
      invariant forall id :: (if id in byId then Some(byId[id]) else None) == Row(sources[..n], id)
    {
      assert sources[..n + 1][..n] == sources[..n];
      byId := byId[sources[n].id := sources[n]];
    }
    assert sources[..|sources|] == sources;
    var ids := SourceIds(l);
    var okCount, downCount, lastSuccess := CountSources(sources, byId, ids);
    if okCount == |ids| {
      return OK, None;
    }
    if downCount == |ids| {
      return UNAVAILABLE, lastSuccess;
    }
    return STALE, lastSuccess;
  }

  /** The loop over a layer's sources; `sources` is what the map was made from. */
  method CountSources(ghost sources: seq<Source>, byId: map<string, Source>, ids: seq<string>)
    returns (okCount: nat, downCount: nat, lastSuccess: Option<int>)
    requires forall id :: (if id in byId then Some(byId[id]) else None) == Row(sources, id)
    ensures okCount == |ids| <==> AllHealthy(sources, ids)
    ensures downCount == |ids| <==> AllDown(sources, ids)
    ensures lastSuccess == LastSuccess(sources, ids)
  {
    okCount, downCount, lastSuccess := 0, 0, None;
    for n := 0 to |ids|
      invariant okCount <= n && downCount <= n
      invariant okCount == n <==> AllHealthy(sources, ids[..n])
      invariant downCount == n <==> AllDown(sources, ids[..n])
      invariant lastSuccess == LastSuccess(sources, ids[..n])
    {
      assert ids[..n + 1][..n] == ids[..n];
      OneMoreSource(sources, ids, n);
      var st := UNAVAILABLE;
      if ids[n] in byId {
        var src := byId[ids[n]];
        st := if src.status.None? then UNAVAILABLE else src.status.value;
        lastSuccess := Later(lastSuccess, src.lastSuccessAt);
      }
      match st
      case OK => okCount := okCount + 1;
      case UNAVAILABLE => downCount := downCount + 1;
      case STALE =>
    }
    assert ids[..|ids|] == ids;
  }

  lemma OneMoreSource(sources: seq<Source>, ids: seq<string>, n: nat)
    requires n < |ids|
    ensures AllHealthy(sources, ids[..n + 1]) <==> AllHealthy(sources, ids[..n]) && Health(sources, ids[n]) == OK
    ensures AllDown(sources, ids[..n + 1]) <==> AllDown(sources, ids[..n]) && Health(sources, ids[n]) == UNAVAILABLE
  {
    assert ids[..n + 1] == ids[..n] + [ids[n]];
  }

  /** DegradeStoreStatus (internal/hazards/service.go). */
  function Degrade(status: Status, hasData: bool, lastUpdate: Option<int>): (Status, Option<int>) {
    match status
    case OK => (OK, None)
    case STALE => (STALE, lastUpdate)
    case UNAVAILABLE => if hasData then (STALE, lastUpdate) else (UNAVAILABLE, None)
  }

  predicate HasEvents(events: seq<Event>, l: Layer) {
    exists i :: 0 <= i < |events| && events[i].layer == l
  }

  /** The status a summary serves for an event layer. */
  function ServedStatus(events: seq<Event>, sources: seq<Source>, l: Layer): Status {
    var raw := RawStatus(sources, l);
    Degrade(raw.0, HasEvents(events, l), raw.1).0
  }

  /** UNAVAILABLE never disowns stored events, OK needs every source well, and
      everything else is STALE. */
  lemma ServedStatusMeans(events: seq<Event>, sources: seq<Source>, l: Layer)
    ensures ServedStatus(events, sources, l) == UNAVAILABLE <==> AllDown(sources, SourceIds(l)) && !HasEvents(events, l)
    ensures ServedStatus(events, sources, l) == OK <==> AllHealthy(sources, SourceIds(l))
  {
    assert Health(sources, SourceIds(l)[0]) == OK || Health(sources, SourceIds(l)[0]) != OK;
  }

  function StatusRank(s: Status): nat {
    match s
    case OK => 0
    case STALE => 1
    case UNAVAILABLE => 2
  }

  method WorstStatus(statuses: seq<Status>) returns (worst: Status)
    ensures worst == OK || worst in statuses
    ensures forall s :: s in statuses ==> StatusRank(s) <= StatusRank(worst)
  {
    worst := OK;
    for i := 0 to |statuses|
      invariant worst == OK || worst in statuses
      invariant forall k :: 0 <= k < i ==> StatusRank(statuses[k]) <= StatusRank(worst)
    {
      if StatusRank(statuses[i]) > StatusRank(worst) {
        worst := statuses[i];
      }
    }
  }
}
