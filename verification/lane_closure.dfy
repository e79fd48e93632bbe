/** Caltrans lane closures (internal/ingest/lane_closure.go): which rows of a poll
  become events, and how windows take over the ids of the old feed. */
module LaneClosure {
  import opened Wrappers
  import opened Text
  import opened Adoption

  datatype Pos = Pos(lat: real, lng: real)

  /** Meters between two points: any distance that is zero only from a point to itself will do. */
  type Distance = (Pos, Pos) -> real

  ghost predicate IsDistance(d: Distance) {
    forall p, q :: d(p, q) >= 0.0 && d(p, p) == 0.0
  }

  datatype Closure = Closure(closureId: string, logNumber: string, begin: Option<Pos>, end: Option<Pos>)

  // --------------------------------------------------------------------- phases

  datatype Phase = Scheduled | Active | Completed | Cancelled

  datatype Codes = Codes(cancelled: bool, pickedUp: bool, setUp: bool)

  const DefaultOverrunGrace: int := 43200

  /** cwwp2's PhaseAt, in seconds; `end` is None for an indefinite or missing end. */
  function PhaseAt(c: Codes, end: Option<int>, now: int, grace: int): Phase {
    var overrun := if grace <= 0 then DefaultOverrunGrace else grace;
    if c.cancelled then Cancelled
    else if c.pickedUp then Completed
    else if c.setUp && end.Some? && now >= end.value + overrun then Completed
    else if c.setUp then Active
    else if end.Some? && now >= end.value then Completed
    else Scheduled
  }

  /** A closure in place stays in place until a code or a bounded overrun ends it,
      and once over it never comes back by the clock alone. */
  lemma PhasesOnlyMoveOn(c: Codes, end: Option<int>, now: int, later: int, grace: int)
    requires now <= later
    ensures PhaseAt(c, end, now, grace) in {Completed, Cancelled} ==> PhaseAt(c, end, later, grace) == PhaseAt(c, end, now, grace)
    ensures c.setUp && !c.pickedUp && !c.cancelled && end.None? ==> PhaseAt(c, end, later, grace) == Active
    ensures PhaseAt(c, end, later, grace) == Active ==> PhaseAt(c, end, now, grace) == Active
  {
  }

  // ----------------------------------------------------------------- legacy ids

  predicate IsAlnum(s: string) {
    s != "" && forall i :: 0 <= i < |s| ==> '0' <= s[i] <= '9' || 'a' <= s[i] <= 'z' || 'A' <= s[i] <= 'Z'
  }

  predicate IsHex6(s: string) {
    |s| == 6 && forall i :: 0 <= i < |s| ==> '0' <= s[i] <= '9' || 'a' <= s[i] <= 'f'
  }

  /** The closure id and log number of an id of the old feed: caltrans:{closure}-{log}-{6 hex}. */
  function LegacyParts(id: string): Option<(string, string)> {
    if !("caltrans:" <= id) then None
    else
      var parts := Split(id[9..], '-');
      if |parts| == 3 && IsAlnum(parts[0]) && IsAlnum(parts[1]) && IsHex6(parts[2]) then Some((parts[0], parts[1])) else None
  }

  function TrimZeros(s: string): (r: string)
    ensures r != "" ==> r[0] != '0'
  {
    if s != "" && s[0] == '0' then TrimZeros(s[1..]) else s
  }

  function LogKey(s: string): string {
    var t := TrimZeros(TrimSpace(s));
    if t != "" then t else "0"
  }

  predicate SameLogNumber(a: string, b: string) {
    EqualFold(LogKey(a), LogKey(b))
  }

  lemma {:induction false} PaddingIsIgnored(n: nat, s: string)
    ensures TrimZeros(seq(n, _ => '0') + s) == TrimZeros(s)
  {
    if n == 0 {
      assert seq(0, _ => '0') + s == s;
    } else {
      PaddingIsIgnored(n - 1, s);
      assert (seq(n, _ => '0') + s)[1..] == seq(n - 1, _ => '0') + s;
    }
  }

  function NearestEndpointMeters(c: Closure, p: Pos, d: Distance): real {
    match (c.begin, c.end)
    case (None, None) => 251.0
    case (Some(b), None) => d(p, b)
    case (None, Some(e)) => d(p, e)
    case (Some(b), Some(e)) => if d(p, e) < d(p, b) then d(p, e) else d(p, b)
  }

  // ------------------------------------------------------------------- matching

  /** A prior event; `at` is its centroid, if it has geometry. */
  datatype Event = Event(id: string, at: Option<Pos>)

  /** A prior event tracked from the old feed. */
  datatype Legacy = Legacy(id: string, closureId: string, logNumber: string, at: Pos)

  function Olds(prior: seq<Event>): (olds: seq<Legacy>)
    ensures forall o :: o in olds ==> exists e :: e in prior && e.id == o.id
  {
    if prior == [] then []
    else
      var before, e := Olds(prior[..|prior| - 1]), prior[|prior| - 1];
      var parts := LegacyParts(e.id);
      if parts.None? || e.at.None? then before else before + [Legacy(e.id, parts.value.0, parts.value.1, e.at.value)]
  }

  /** A window as Poll keeps it: its closure, and whether it is set up. */
  datatype Window = Window(closure: Closure, active: bool)

  predicate Matches(o: Legacy, w: Window, d: Distance) {
    && w.active
    && EqualFold(w.closure.closureId, o.closureId) && SameLogNumber(w.closure.logNumber, o.logNumber)
    && NearestEndpointMeters(w.closure, o.at, d) <= 250.0
  }

  function HitOf(olds: seq<Legacy>, ws: seq<Window>, d: Distance): Hit {
    (j: nat, i: nat) => j < |olds| && i < |ws| && Matches(olds[j], ws[i], d)
  }

  function IdsOf(olds: seq<Legacy>): (ids: seq<string>)
    ensures |ids| == |olds| && forall j :: 0 <= j < |ids| ==> ids[j] == olds[j].id
  {
    seq(|olds|, j requires 0 <= j < |olds| => olds[j].id)
  }

  function WindowsOf(ids: seq<string>, windows: map<string, Window>): (ws: seq<Window>)
    requires forall i :: 0 <= i < |ids| ==> ids[i] in windows
    ensures |ws| == |ids| && forall i :: 0 <= i < |ws| ==> ws[i] == windows[ids[i]]
  {
    seq(|ids|, i requires 0 <= i < |ids| => windows[ids[i]])
  }

  /** The store keeps one event per id. */
  ghost predicate OneEventPerId(prior: seq<Event>) {
    forall a, b :: 0 <= a < |prior| && 0 <= b < |prior| && a != b ==> prior[a].id != prior[b].id
  }

  lemma {:induction false} OldsAreDistinct(prior: seq<Event>)
    requires OneEventPerId(prior)
    ensures Distinct(IdsOf(Olds(prior)))
    ensures forall o :: o in Olds(prior) ==> LegacyParts(o.id) == Some((o.closureId, o.logNumber))
  {
    if prior != [] {
      var front, last := prior[..|prior| - 1], prior[|prior| - 1];
      OldsAreDistinct(front);
      forall o | o in Olds(front) ensures o.id != last.id {
        var e :| e in front && e.id == o.id;
        var a :| 0 <= a < |front| && front[a] == e;
        assert prior[a] == e;
      }
    }
  }

  /** A window takes the id of the event of the old feed that it matches, and
      that matches it, exactly when neither matches any other. */
  method AdoptLegacyClosureIds(ids: array<string>, windows: map<string, Window>, prior: seq<Event>, d: Distance)
    requires Distinct(ids[..]) && OneEventPerId(prior)
    requires forall i :: 0 <= i < ids.Length ==> ids[i] in windows
    modifies ids
    ensures Adopted(ids[..], old(ids[..]), IdsOf(Olds(prior)), HitOf(Olds(prior), WindowsOf(old(ids[..]), windows), d), |Olds(prior)|)
  {
    var olds := LegacyEvents(prior);
    OldsAreDistinct(prior);
    var ws := WindowsOf(ids[..], windows);
    AdoptIds(ids, IdsOf(olds), HitOf(olds, ws, d));
  }

  method LegacyEvents(prior: seq<Event>) returns (olds: seq<Legacy>)
    ensures olds == Olds(prior)
  {
    olds := [];
    for n := 0 to |prior|
      invariant olds == Olds(prior[..n])
    {
      assert prior[..n + 1][..n] == prior[..n];
      var e := prior[n];
      var parts := LegacyParts(e.id);
      if parts.None? || e.at.None? {
        continue;
      }
      olds := olds + [Legacy(e.id, parts.value.0, parts.value.1, e.at.value)];
    }
    assert prior[..|prior|] == prior;
  }

  /** With native ids outside the old pattern, adopted ids stay pairwise distinct. */
  lemma FinalIdsAreDistinct(now: seq<string>, was: seq<string>, prior: seq<Event>, hit: Hit)
    requires |now| == |was| && Distinct(was) && OneEventPerId(prior)
    requires forall i :: 0 <= i < |was| ==> LegacyParts(was[i]).None?
    requires Adopted(now, was, IdsOf(Olds(prior)), hit, |Olds(prior)|)
    ensures Distinct(now)
  {
    OldsAreDistinct(prior);
    var olds := Olds(prior);
    forall i, j | 0 <= i < |was| && 0 <= j < |olds| ensures was[i] != IdsOf(olds)[j] {
      assert olds[j] in olds;
    }
    AdoptionKeepsIdsDistinct(now, was, IdsOf(olds), hit);
  }
}
