/** A lane-closure poll (Poll of internal/ingest/lane_closure.go): no closure is
  dropped quietly, and an adopted id stays adopted. */
module LaneClosurePoll {
  import opened Wrappers
  import opened Text
  import opened Adoption
  import opened LaneClosure

  // ------------------------------------------------------------------- the rows

  datatype Row = Row(district: nat, index: string, closure: Closure, codes: Codes, end: Option<int>, unrecognized: bool)

  function WithoutColons(s: string): string {
    if s == "" then "" else (if s[0] == ':' then "" else [s[0]]) + WithoutColons(s[1..])
  }

  /** laneClosureEventID. */
  function EventId(r: Row): string {
    "caltrans:" + ("d" + Decimal(r.district) + "-" + WithoutColons(r.index))
  }

  lemma {:induction false} DecimalIsAlnum(n: nat)
    ensures IsAlnum(Decimal(n))
  {
    if n >= 10 {
      DecimalIsAlnum(n / 10);
    }
  }

  lemma SplitHead(head: string, rest: string, c: char)
    requires c !in head
    ensures Split(head + [c] + rest, c) == [head] + Split(rest, c)
  {
    SplitConcat(head, rest, c);
    assert head + [c] + rest == head + ([c] + rest);
    SplitWhole(head, c);
  }

  /** A native id reads as one of the old feed only if the index, without its
      colons, is one alphanumeric part and six hex digits. */
  lemma NativeIdReadsAsLegacyIff(r: Row)
    ensures LegacyParts(EventId(r)).Some? <==>
      var parts := Split(WithoutColons(r.index), '-'); |parts| == 2 && IsAlnum(parts[0]) && IsHex6(parts[1])
  {
    var head, rest := "d" + Decimal(r.district), WithoutColons(r.index);
    DecimalIsAlnum(r.district);
    assert IsAlnum(head);
    assert EventId(r)[9..] == head + ['-'] + rest;
    SplitHead(head, rest, '-');
  }

  // ------------------------------------------------------------------- the poll

  datatype Bounds = Bounds(minLat: real, minLng: real, maxLat: real, maxLng: real)

  /** GeoBounds.Contains. */
  predicate Within(b: Bounds, p: Pos) {
    b.minLat <= p.lat <= b.maxLat && b.minLng <= p.lng <= b.maxLng
  }

  /** The configured incident areas, and when the poll is made. */
  datatype Scope = Scope(areas: seq<Bounds>, now: int, grace: int)

  predicate InAnArea(p: Option<Pos>, s: Scope) {
    p.Some? && exists i :: 0 <= i < |s.areas| && Within(s.areas[i], p.value)
  }

  predicate Placeable(c: Closure) {
    c.begin.Some? || c.end.Some?
  }

  predicate InScope(c: Closure, s: Scope) {
    InAnArea(c.begin, s) || InAnArea(c.end, s)
  }

  /** A row nobody could read that might matter here. */
  predicate Unreadable(r: Row, s: Scope) {
    r.unrecognized && (InScope(r.closure, s) || !Placeable(r.closure))
  }

  function PhaseOf(r: Row, s: Scope): Phase {
    PhaseAt(r.codes, r.end, s.now, s.grace)
  }

  /** A readable row in scope whose window is open or to come. */
  predicate Listed(r: Row, s: Scope) {
    !r.unrecognized && InScope(r.closure, s) && PhaseOf(r, s) in {Scheduled, Active}
  }

  predicate HasId(rows: seq<Row>, id: string) {
    exists i :: 0 <= i < |rows| && EventId(rows[i]) == id
  }

  /** The first listed row of each id. */
  function Kept(rows: seq<Row>, s: Scope): seq<Row> {
    if rows == [] then []
    else
      var before, r := Kept(rows[..|rows| - 1], s), rows[|rows| - 1];
      if Listed(r, s) && !HasId(before, EventId(r)) then before + [r] else before
  }

  lemma {:induction false} KeptCoversTheListed(rows: seq<Row>, s: Scope)
    ensures forall r :: r in Kept(rows, s) ==> r in rows && Listed(r, s)
    ensures forall r :: r in rows && Listed(r, s) ==> HasId(Kept(rows, s), EventId(r))
    ensures forall i, j :: 0 <= i < |Kept(rows, s)| && 0 <= j < |Kept(rows, s)| && i != j ==> EventId(Kept(rows, s)[i]) != EventId(Kept(rows, s)[j])
  {
    if rows != [] {
      var front, last := rows[..|rows| - 1], rows[|rows| - 1];
      KeptCoversTheListed(front, s);
      var before, after := Kept(front, s), Kept(rows, s);
      assert rows == front + [last];
      assert forall id :: HasId(before, id) ==> HasId(after, id) by {
        forall id | HasId(before, id) ensures HasId(after, id) {
          var i :| 0 <= i < |before| && EventId(before[i]) == id;
          assert after[i] == before[i];
        }
      }
      if Listed(last, s) && !HasId(before, EventId(last)) {
        assert EventId(after[|after| - 1]) == EventId(last);
      }
    }
  }

  /** A district's file: its rows, or an error. */
  type Fetch = Option<seq<Row>>

  function AllRows(fetches: seq<Fetch>): seq<Row> {
    if fetches == [] then []
    else AllRows(fetches[..|fetches| - 1]) + (if fetches[|fetches| - 1].Some? then fetches[|fetches| - 1].value else [])
  }

  datatype Polled = HardError | Polled(rows: seq<Row>, ids: seq<string>, degraded: bool)

  function NativeIds(rows: seq<Row>): (ids: seq<string>)
    ensures |ids| == |rows| && forall i :: 0 <= i < |ids| ==> ids[i] == EventId(rows[i])
  {
    seq(|rows|, i requires 0 <= i < |rows| => EventId(rows[i]))
  }

  function WindowOf(r: Row, s: Scope): Window {
    Window(r.closure, PhaseOf(r, s) == Active)
  }

  function Windows(rows: seq<Row>, s: Scope): (ws: seq<Window>)
    ensures |ws| == |rows|
  {
    seq(|rows|, i requires 0 <= i < |rows| => WindowOf(rows[i], s))
  }

  ghost predicate SomeFetched(fetches: seq<Fetch>) {
    exists i :: 0 <= i < |fetches| && fetches[i].Some?
  }

  ghost predicate AllFetched(fetches: seq<Fetch>) {
    forall i :: 0 <= i < |fetches| ==> fetches[i].Some?
  }

  method Poll(fetches: seq<Fetch>, s: Scope, prior: seq<Event>, d: Distance) returns (p: Polled)
    requires OneEventPerId(prior)
    ensures p.HardError? <==> s.areas == [] || !SomeFetched(fetches)
    ensures p.Polled? ==>
      && p.rows == Kept(AllRows(fetches), s) && |p.ids| == |p.rows|
      && (p.degraded <==> !AllFetched(fetches) || exists r :: r in AllRows(fetches) && Unreadable(r, s))
      && Adopted(p.ids, NativeIds(p.rows), IdsOf(Olds(prior)), HitOf(Olds(prior), Windows(p.rows, s), d), |Olds(prior)|)
  {
    if s.areas == [] {
      return HardError;
    }
    var rows, errors, fetched := Gather(fetches);
    if fetched == 0 {
      return HardError;
    }
    var kept, windows, unreadable := Filter(rows, s);
    KeptCoversTheListed(rows, s);
    var ids := new string[|kept|](i requires 0 <= i < |kept| => EventId(kept[i]));
    assert ids[..] == NativeIds(kept);
    assert WindowsOf(ids[..], windows) == Windows(kept, s);
    AdoptLegacyClosureIds(ids, windows, prior, d);
    return Polled(kept, ids[..], unreadable > 0 || errors > 0);
  }

  method Gather(fetches: seq<Fetch>) returns (rows: seq<Row>, errors: nat, fetched: nat)
    ensures rows == AllRows(fetches)
    ensures errors > 0 <==> !AllFetched(fetches)
    ensures fetched > 0 <==> SomeFetched(fetches)
  {
    rows, errors, fetched := [], 0, 0;
    for i := 0 to |fetches|
      invariant rows == AllRows(fetches[..i])
      invariant errors > 0 <==> exists k :: 0 <= k < i && fetches[k].None?
      invariant fetched > 0 <==> exists k :: 0 <= k < i && fetches[k].Some?
    {
      assert fetches[..i + 1][..i] == fetches[..i];
      if fetches[i].None? {
        errors := errors + 1;
        continue;
      }
      fetched := fetched + 1;
      rows := rows + fetches[i].value;
    }
    assert fetches[..|fetches|] == fetches;
  }

  ghost predicate WindowsFor(kept: seq<Row>, windows: map<string, Window>, s: Scope) {
    && (forall id :: id in windows <==> HasId(kept, id))
    && (forall i :: 0 <= i < |kept| ==> EventId(kept[i]) in windows && windows[EventId(kept[i])] == WindowOf(kept[i], s))
  }

  lemma KeepOne(kept: seq<Row>, windows: map<string, Window>, r: Row, s: Scope)
    requires WindowsFor(kept, windows, s) && EventId(r) !in windows
    ensures WindowsFor(kept + [r], windows[EventId(r) := WindowOf(r, s)], s)
  {
    HasIdAppend(kept, r);
  }

  /** The loop over the rows; `windows` is keyed by the ids of the rows kept. */
  method Filter(rows: seq<Row>, s: Scope) returns (kept: seq<Row>, windows: map<string, Window>, unreadable: nat)
    ensures kept == Kept(rows, s)
    ensures WindowsFor(kept, windows, s)
    ensures unreadable > 0 <==> exists r :: r in rows && Unreadable(r, s)
  {
    kept, windows, unreadable := [], map[], 0;
    for n := 0 to |rows|
      invariant kept == Kept(rows[..n], s)
      invariant WindowsFor(kept, windows, s)
      invariant unreadable > 0 <==> exists k :: 0 <= k < n && Unreadable(rows[k], s)
    {
      assert rows[..n + 1][..n] == rows[..n];
      var r := rows[n];
      if r.unrecognized {
        if InScope(r.closure, s) || !Placeable(r.closure) {
          unreadable := unreadable + 1;
        }
        continue;
      }
      if !InScope(r.closure, s) {
        continue;
      }
      if PhaseOf(r, s) !in {Scheduled, Active} {
        continue;
      }
      if EventId(r) in windows {
        continue;
      }
      KeepOne(kept, windows, r, s);
      windows := windows[EventId(r) := WindowOf(r, s)];
      kept := kept + [r];
    }
    assert rows[..|rows|] == rows;
  }

  lemma HasIdAppend(rows: seq<Row>, r: Row)
    ensures forall id :: HasId(rows + [r], id) <==> HasId(rows, id) || id == EventId(r)
  {
    assert (rows + [r])[|rows|] == r;
    forall id | HasId(rows, id) ensures HasId(rows + [r], id) {
      var i :| 0 <= i < |rows| && EventId(rows[i]) == id;
      assert (rows + [r])[i] == rows[i];
    }
  }

  /** A poll that is not marked degraded accounts for every closure that might
      matter: each is listed under its id, or readably over, or out of scope. */
  lemma NothingIsDroppedQuietly(fetches: seq<Fetch>, s: Scope, r: Row)
    requires AllFetched(fetches) && !(exists r :: r in AllRows(fetches) && Unreadable(r, s)) && r in AllRows(fetches)
    ensures HasId(Kept(AllRows(fetches), s), EventId(r))
      || (Placeable(r.closure) && !InScope(r.closure, s))
      || (!r.unrecognized && (!InScope(r.closure, s) || PhaseOf(r, s) in {Completed, Cancelled}))
  {
    KeptCoversTheListed(AllRows(fetches), s);
    assert !Unreadable(r, s);
  }

  // ---------------------------------------------------------- adoption is stable

  /** The event a window leaves in the store: at its begin, or else its end. */
  function StoredEvent(id: string, w: Window): Event {
    Event(id, if w.closure.begin.Some? then w.closure.begin else w.closure.end)
  }

  function StoredEvents(ids: seq<string>, ws: seq<Window>): (es: seq<Event>)
    requires |ids| == |ws|
    ensures |es| == |ids| && forall i :: 0 <= i < |es| ==> es[i] == StoredEvent(ids[i], ws[i])
  {
    seq(|ids|, i requires 0 <= i < |ids| => StoredEvent(ids[i], ws[i]))
  }

  predicate Native(ids: seq<string>) {
    forall i :: 0 <= i < |ids| ==> LegacyParts(ids[i]).None?
  }

  lemma {:induction false} OldsAreStored(prior: seq<Event>, o: Legacy)
    requires o in Olds(prior)
    ensures LegacyParts(o.id) == Some((o.closureId, o.logNumber)) && Event(o.id, Some(o.at)) in prior
  {
    var front := prior[..|prior| - 1];
    if o in Olds(front) {
      OldsAreStored(front, o);
    }
  }

  lemma {:induction false} StoredAreOlds(prior: seq<Event>, e: Event)
    requires e in prior && LegacyParts(e.id).Some? && e.at.Some?
    ensures exists o :: o in Olds(prior) && o.id == e.id
  {
    var front, last := prior[..|prior| - 1], prior[|prior| - 1];
    assert prior == front + [last];
    if e in front {
      StoredAreOlds(front, e);
      var o :| o in Olds(front) && o.id == e.id;
      assert o in Olds(prior);
    } else {
      assert Olds(prior)[|Olds(prior)| - 1].id == e.id;
    }
  }

  /** An old event of the next poll comes from a window that had adopted its id,
      and is of the same work as that window. */
  lemma OldsComeFromAdoption(ids: seq<string>, was: seq<string>, ws: seq<Window>, olds: seq<Legacy>, d: Distance, o: Legacy) returns (i: nat)
    requires |ids| == |was| == |ws| && Native(was)
    requires Adopted(ids, was, IdsOf(olds), HitOf(olds, ws, d), |olds|)
    requires forall x :: x in olds ==> LegacyParts(x.id) == Some((x.closureId, x.logNumber))
    requires o in Olds(StoredEvents(ids, ws))
    ensures i < |ids| && ids[i] == o.id && ids[i] != was[i] && ws[i].active
    ensures EqualFold(ws[i].closure.closureId, o.closureId) && SameLogNumber(ws[i].closure.logNumber, o.logNumber)
    ensures Some(o.at) == StoredEvent(ids[i], ws[i]).at
  {
    var prior := StoredEvents(ids, ws);
    OldsAreStored(prior, o);
    i :| 0 <= i < |prior| && prior[i] == Event(o.id, Some(o.at));
    var j := Source(ids, was, IdsOf(olds), HitOf(olds, ws, d), i);
    assert LegacyParts(was[i]).None?;
    assert HitOf(olds, ws, d)(j, i);
    assert olds[j] in olds;
  }

  /** The old event a window leaves behind matches that window again. */
  lemma MatchesItself(o: Legacy, w: Window, id: string, d: Distance)
    requires IsDistance(d) && w.active && Some(o.at) == StoredEvent(id, w).at
    requires EqualFold(w.closure.closureId, o.closureId) && SameLogNumber(w.closure.logNumber, o.logNumber)
    ensures Matches(o, w, d)
  {
    assert d(o.at, o.at) == 0.0;
    match (w.closure.begin, w.closure.end)
    case (Some(b), Some(e)) => assert NearestEndpointMeters(w.closure, o.at, d) <= d(o.at, b);
    case _ =>
  }

  /** One poll's adoption, with the facts about its ids. */
  ghost predicate Tick(was: seq<string>, ids: seq<string>, ws: seq<Window>, olds: seq<Legacy>, d: Distance) {
    && |was| == |ids| == |ws| && Native(was) && Distinct(ids)
    && (forall x :: x in olds ==> LegacyParts(x.id) == Some((x.closureId, x.logNumber)))
    && Adopted(ids, was, IdsOf(olds), HitOf(olds, ws, d), |olds|)
  }

  /** The old event that id, stored for window w, will be matches w'. */
  predicate Rematches(id: string, w: Window, w': Window, d: Distance) {
    var parts, at := LegacyParts(id), StoredEvent(id, w).at;
    parts.Some? && at.Some? && Matches(Legacy(id, parts.value.0, parts.value.1, at.value), w', d)
  }

  /** No adopted id, stored where its window is, will match another window. */
  predicate KeepsApart(was: seq<string>, ids: seq<string>, ws: seq<Window>, d: Distance)
    requires |was| == |ids| == |ws|
  {
    forall i, k :: 0 <= i < |ids| && 0 <= k < |ids| && i != k && ids[i] != was[i] ==> !Rematches(ids[i], ws[i], ws[k], d)
  }

  /** The first p old ids are each worn by a window that they hit, every adopted
      id is among them, and no window has one of the others. */
  ghost predicate OwnHits(was: seq<string>, ids: seq<string>, oldIds: seq<string>, p: nat, hit: Hit)
    requires |was| == |ids| && p <= |oldIds|
  {
    && (forall j: nat :: j < p ==> Own(was, ids, oldIds[j], hit, j))
    && (forall i :: 0 <= i < |ids| && ids[i] != was[i] ==> ids[i] in oldIds[..p])
    && (forall j, i :: p <= j < |oldIds| && 0 <= i < |ids| ==> oldIds[j] != ids[i] && oldIds[j] != was[i])
  }

  ghost predicate Own(was: seq<string>, ids: seq<string>, oldId: string, hit: Hit, j: nat)
    requires |was| == |ids|
  {
    exists i: nat :: i < |ids| && ids[i] == oldId && ids[i] != was[i] && hit(j, i)
  }

  /** Old ids hit the windows that wear them and no other. */
  ghost predicate HitsOwnOnly(ids: seq<string>, oldIds: seq<string>, p: nat, hit: Hit)
    requires p <= |oldIds|
  {
    forall j: nat, i: nat :: j < p && i < |ids| && hit(j, i) ==> oldIds[j] == ids[i]
  }

  /** The other old ids hit no window that wears one, and are the mutual match of none. */
  ghost predicate OthersKeepOut(was: seq<string>, ids: seq<string>, olds: nat, p: nat, hit: Hit)
    requires |was| == |ids|
  {
    && (forall j: nat, i: nat :: p <= j < olds && i < |ids| && ids[i] != was[i] ==> !hit(j, i))
    && (forall j: nat, i: nat :: p <= j < olds && i < |ids| && ids[i] == was[i] ==> !Mutual(hit, olds, |was|, j, i))
  }

  /** An adoption in which every worn old id hits the window that wears it keeps
      all ids exactly when it hits no other, and the other old ids keep out. */
  lemma SelfMatchKeepsIdsIff(was: seq<string>, ids: seq<string>, ids': seq<string>, oldIds: seq<string>, p: nat, hit: Hit)
    requires |was| == |ids| == |ids'| && p <= |oldIds| && Distinct(ids) && Distinct(oldIds) && OwnHits(was, ids, oldIds, p, hit)
    requires Adopted(ids', was, oldIds, hit, |oldIds|)
    ensures ids' == ids <==> HitsOwnOnly(ids, oldIds, p, hit) && OthersKeepOut(was, ids, |oldIds|, p, hit)
  {
    if HitsOwnOnly(ids, oldIds, p, hit) && OthersKeepOut(was, ids, |oldIds|, p, hit) {
      forall i | 0 <= i < |ids| ensures ids'[i] == ids[i] {
        KeptByOwnHits(was, ids, ids', oldIds, p, hit, i);
      }
    }
    if ids' == ids {
      forall i: nat | i < |ids| && ids[i] != was[i] ensures exists j: nat :: j < p && oldIds[j] == ids[i] && Mutual(hit, |oldIds|, |was|, j, i) {
        var x := Source(ids', was, oldIds, hit, i);
      }
      OwnOnlyIfKept(was, ids, oldIds, p, hit);
      forall j: nat, i: nat | p <= j < |oldIds| && i < |ids| && ids[i] == was[i] ensures !Mutual(hit, |oldIds|, |was|, j, i) {
        assert oldIds[j] != ids'[i];
      }
    }
  }

  lemma OwnOnlyIfKept(was: seq<string>, ids: seq<string>, oldIds: seq<string>, p: nat, hit: Hit)
    requires |was| == |ids| && p <= |oldIds| && Distinct(ids) && Distinct(oldIds) && OwnHits(was, ids, oldIds, p, hit)
    requires forall i: nat :: i < |ids| && ids[i] != was[i] ==> exists j: nat :: j < p && oldIds[j] == ids[i] && Mutual(hit, |oldIds|, |was|, j, i)
    ensures HitsOwnOnly(ids, oldIds, p, hit)
    ensures forall j: nat, i: nat :: p <= j < |oldIds| && i < |ids| && ids[i] != was[i] ==> !hit(j, i)
  {
    forall j: nat, i: nat | j < p && i < |ids| && hit(j, i) ensures oldIds[j] == ids[i] {
      assert Own(was, ids, oldIds[j], hit, j);
      var own: nat :| own < |ids| && ids[own] == oldIds[j] && ids[own] != was[own] && hit(j, own);
      var x: nat :| x < p && oldIds[x] == ids[own] && Mutual(hit, |oldIds|, |was|, x, own);
      assert x == j;
    }
  }

  lemma KeptByOwnHits(was: seq<string>, ids: seq<string>, ids': seq<string>, oldIds: seq<string>, p: nat, hit: Hit, i: nat)
    requires |was| == |ids| == |ids'| && p <= |oldIds| && Distinct(ids) && Distinct(oldIds) && OwnHits(was, ids, oldIds, p, hit) && i < |ids|
    requires Adopted(ids', was, oldIds, hit, |oldIds|) && HitsOwnOnly(ids, oldIds, p, hit) && OthersKeepOut(was, ids, |oldIds|, p, hit)
    ensures ids'[i] == ids[i]
  {
    if ids[i] != was[i] {
      var j: nat :| j < p && oldIds[..p][j] == ids[i];
      assert Own(was, ids, oldIds[j], hit, j);
      assert Mutual(hit, |oldIds|, |was|, j, i);
    } else {
      forall j: nat | j < p ensures !hit(j, i) {
        assert Own(was, ids, oldIds[j], hit, j);
      }
    }
  }

  /** A window that an old event matches has a place, and a hit is by an old event of the list. */
  lemma HitIsPlaced(olds: seq<Legacy>, ws: seq<Window>, d: Distance, x: nat, i: nat, id: string)
    requires HitOf(olds, ws, d)(x, i)
    ensures x < |olds| && i < |ws| && StoredEvent(id, ws[i]).at.Some?
  {
  }

  /** An adopted id is on the next poll's list of old events. */
  lemma AdoptedIsStored(was: seq<string>, ids: seq<string>, ws: seq<Window>, olds: seq<Legacy>, d: Distance, i: nat)
    requires Tick(was, ids, ws, olds, d) && i < |ids| && ids[i] != was[i]
    ensures ids[i] in IdsOf(Olds(StoredEvents(ids, ws)))
  {
    var x := Source(ids, was, IdsOf(olds), HitOf(olds, ws, d), i);
    HitIsPlaced(olds, ws, d, x, i, ids[i]);
    assert olds[x] in olds && LegacyParts(ids[i]).Some?;
    OldIsListed(StoredEvents(ids, ws), i);
  }

  lemma OldIsListed(prior: seq<Event>, i: nat)
    requires i < |prior| && LegacyParts(prior[i].id).Some? && prior[i].at.Some?
    ensures prior[i].id in IdsOf(Olds(prior))
  {
    StoredAreOlds(prior, prior[i]);
    var o :| o in Olds(prior) && o.id == prior[i].id;
    var j :| 0 <= j < |Olds(prior)| && Olds(prior)[j] == o;
    assert IdsOf(Olds(prior))[j] == prior[i].id;
  }

  /** On the next poll the windows an old event matches are those its id rematches. */
  lemma NextMatches(was: seq<string>, ids: seq<string>, ws: seq<Window>, olds: seq<Legacy>, d: Distance, o: Legacy) returns (i: nat)
    requires IsDistance(d) && Tick(was, ids, ws, olds, d) && o in Olds(StoredEvents(ids, ws))
    ensures i < |ids| && ids[i] == o.id && ids[i] != was[i] && Matches(o, ws[i], d)
    ensures forall w :: Matches(o, w, d) <==> Rematches(ids[i], ws[i], w, d)
  {
    i := OldsComeFromAdoption(ids, was, ws, olds, d, o);
    MatchesItself(o, ws[i], ids[i], d);
    OldsAreStored(StoredEvents(ids, ws), o);
    var parts := LegacyParts(ids[i]);
    assert o == Legacy(ids[i], parts.value.0, parts.value.1, StoredEvent(ids[i], ws[i]).at.value);
  }

  lemma {:induction false} OldsAppend(a: seq<Event>, b: seq<Event>)
    ensures Olds(a + b) == Olds(a) + Olds(b)
  {
    if b == [] {
      assert a + b == a;
    } else {
      var front, last := b[..|b| - 1], b[|b| - 1];
      OldsAppend(a, front);
      assert (a + b)[..|a + b| - 1] == a + front && (a + b)[|a + b| - 1] == last;
    }
  }

  /** The store before the next poll: what this one left, and whatever else is still there. */
  ghost predicate StillThere(was: seq<string>, ids: seq<string>, ws: seq<Window>, rest: seq<Event>)
    requires |was| == |ids| == |ws|
  {
    OneEventPerId(StoredEvents(ids, ws) + rest) && Native(was)
  }

  lemma NextOwnHit(was: seq<string>, ids: seq<string>, ws: seq<Window>, olds: seq<Legacy>, d: Distance, all: seq<Legacy>, j: nat)
    requires IsDistance(d) && Tick(was, ids, ws, olds, d) && j < |all| && all[j] in Olds(StoredEvents(ids, ws))
    ensures Own(was, ids, all[j].id, HitOf(all, ws, d), j)
  {
    var i := NextMatches(was, ids, ws, olds, d, all[j]);
    assert HitOf(all, ws, d)(j, i);
  }

  lemma NextOwnHits(was: seq<string>, ids: seq<string>, ws: seq<Window>, olds: seq<Legacy>, rest: seq<Event>, d: Distance)
    requires IsDistance(d) && Tick(was, ids, ws, olds, d) && StillThere(was, ids, ws, rest)
    ensures var own, all := Olds(StoredEvents(ids, ws)), Olds(StoredEvents(ids, ws)) + Olds(rest);
      OwnHits(was, ids, IdsOf(all), |own|, HitOf(all, ws, d))
  {
    var own, others := Olds(StoredEvents(ids, ws)), Olds(rest);
    var all := own + others;
    forall j: nat | j < |own| ensures Own(was, ids, IdsOf(all)[j], HitOf(all, ws, d), j) {
      assert all[j] == own[j] && own[j] in own;
      NextOwnHit(was, ids, ws, olds, d, all, j);
    }
    AdoptedAreOwn(was, ids, ws, olds, own, others, d);
    OthersAreApart(was, ids, ws, rest, own, others);
  }

  lemma AdoptedAreOwn(was: seq<string>, ids: seq<string>, ws: seq<Window>, olds: seq<Legacy>, own: seq<Legacy>, others: seq<Legacy>, d: Distance)
    requires IsDistance(d) && Tick(was, ids, ws, olds, d) && own == Olds(StoredEvents(ids, ws))
    ensures forall i :: 0 <= i < |ids| && ids[i] != was[i] ==> ids[i] in IdsOf(own + others)[..|own|]
  {
    assert IdsOf(own + others)[..|own|] == IdsOf(own);
    forall i | 0 <= i < |ids| && ids[i] != was[i] ensures ids[i] in IdsOf(own) {
      AdoptedIsStored(was, ids, ws, olds, d, i);
    }
  }

  lemma OthersAreApart(was: seq<string>, ids: seq<string>, ws: seq<Window>, rest: seq<Event>, own: seq<Legacy>, others: seq<Legacy>)
    requires |was| == |ids| == |ws| && StillThere(was, ids, ws, rest) && others == Olds(rest)
    ensures forall j, i :: |own| <= j < |own + others| && 0 <= i < |ids| ==> IdsOf(own + others)[j] != ids[i] && IdsOf(own + others)[j] != was[i]
  {
    forall j, i | |own| <= j < |own + others| && 0 <= i < |ids| ensures IdsOf(own + others)[j] != ids[i] && IdsOf(own + others)[j] != was[i] {
      assert (own + others)[j] == others[j - |own|] && (own + others)[j] in others;
      OtherIds(was, ids, ws, rest, (own + others)[j], i);
    }
  }

  lemma OtherIds(was: seq<string>, ids: seq<string>, ws: seq<Window>, rest: seq<Event>, o: Legacy, i: nat)
    requires |was| == |ids| == |ws| && StillThere(was, ids, ws, rest) && o in Olds(rest) && i < |ids|
    ensures o.id != ids[i] && o.id != was[i]
  {
    OldsAreStored(rest, o);
    var prior := StoredEvents(ids, ws) + rest;
    var x :| 0 <= x < |rest| && rest[x] == Event(o.id, Some(o.at));
    assert prior[|ids| + x] == rest[x] && prior[i].id == ids[i];
    assert LegacyParts(was[i]).None?;
  }

  lemma NextHitsOwnOnlyIff(was: seq<string>, ids: seq<string>, ws: seq<Window>, olds: seq<Legacy>, others: seq<Legacy>, d: Distance)
    requires IsDistance(d) && Tick(was, ids, ws, olds, d)
    ensures var own := Olds(StoredEvents(ids, ws));
      HitsOwnOnly(ids, IdsOf(own + others), |own|, HitOf(own + others, ws, d)) <==> KeepsApart(was, ids, ws, d)
  {
    var own := Olds(StoredEvents(ids, ws));
    var hit := HitOf(own + others, ws, d);
    forall j: nat, i: nat | j < |own| && i < |ids| ensures IdsOf(own + others)[j] == own[j].id && hit(j, i) == Matches(own[j], ws[i], d) {
      assert (own + others)[j] == own[j];
    }
    if HitsOwnOnly(ids, IdsOf(own + others), |own|, hit) {
      forall i, k | 0 <= i < |ids| && 0 <= k < |ids| && i != k && ids[i] != was[i] ensures !Rematches(ids[i], ws[i], ws[k], d) {
        AdoptedIsStored(was, ids, ws, olds, d, i);
        var j: nat :| j < |own| && IdsOf(own)[j] == ids[i];
        var x := NextMatches(was, ids, ws, olds, d, own[j]);
        assert x == i && ids[k] != own[j].id;
        assert !hit(j, k);
      }
    }
    if KeepsApart(was, ids, ws, d) {
      forall j: nat, i: nat | j < |own| && i < |ids| && hit(j, i) ensures own[j].id == ids[i] {
        var x := NextMatches(was, ids, ws, olds, d, own[j]);
      }
    }
  }

  /** `all` hits from its place p on what `some` hits. */
  ghost predicate Shifted(all: Hit, some: Hit, p: nat, m: nat, n: nat) {
    forall z: nat, y: nat :: p <= z < p + m && y < n ==> all(z, y) == some(z - p, y)
  }

  /** If those before place p leave a window alone, the others are matched with it as if they were all. */
  lemma ShiftedMutual(all: Hit, some: Hit, p: nat, m: nat, n: nat, z: nat, i: nat)
    requires p <= z < p + m && i < n && Shifted(all, some, p, m, n)
    requires forall x: nat :: x < p ==> !all(x, i)
    ensures Mutual(all, p + m, n, z, i) <==> Mutual(some, m, n, z - p, i)
  {
    var j := z - p;
    forall y: nat | y < n ensures all(z, y) == some(j, y) {
    }
    if Mutual(all, p + m, n, z, i) {
      forall x: nat | x < m && x != j ensures !some(x, i) {
        assert !all(p + x, i);
      }
    }
    if Mutual(some, m, n, j, i) {
      forall x: nat | x < p + m && x != z ensures !all(x, i) {
        assert x >= p ==> !some(x - p, i);
      }
    }
  }

  lemma ShiftedKeepOut(was: seq<string>, ids: seq<string>, all: Hit, some: Hit, p: nat, m: nat)
    requires |was| == |ids| && Shifted(all, some, p, m, |was|)
    requires forall x: nat, i: nat :: x < p && i < |ids| && ids[i] == was[i] ==> !all(x, i)
    ensures OthersKeepOut(was, ids, p + m, p, all) <==> OthersKeepOut(was, ids, m, 0, some)
  {
    if OthersKeepOut(was, ids, p + m, p, all) {
      forall j: nat, i: nat | j < m && i < |ids| ensures if ids[i] != was[i] then !some(j, i) else !Mutual(some, m, |was|, j, i) {
        var z := p + j;
        if ids[i] == was[i] { ShiftedMutual(all, some, p, m, |was|, z, i); }
        assert if ids[i] != was[i] then !all(z, i) else !Mutual(all, p + m, |was|, z, i);
      }
    }
    if OthersKeepOut(was, ids, m, 0, some) {
      forall z: nat, i: nat | p <= z < p + m && i < |ids| ensures if ids[i] != was[i] then !all(z, i) else !Mutual(all, p + m, |was|, z, i) {
        var j := z - p;
        if ids[i] == was[i] { ShiftedMutual(all, some, p, m, |was|, z, i); }
        assert if ids[i] != was[i] then !some(j, i) else !Mutual(some, m, |was|, j, i);
      }
    }
  }

  lemma OthersKeepOutIff(was: seq<string>, ids: seq<string>, oldIds: seq<string>, p: nat, m: nat, all: Hit, some: Hit)
    requires |was| == |ids| && |oldIds| == p + m && Distinct(ids) && Shifted(all, some, p, m, |was|)
    requires OwnHits(was, ids, oldIds, p, all) && HitsOwnOnly(ids, oldIds, p, all)
    ensures OthersKeepOut(was, ids, |oldIds|, p, all) <==> OthersKeepOut(was, ids, m, 0, some)
  {
    OwnLeaveNativesAlone(was, ids, oldIds, p, all);
    ShiftedKeepOut(was, ids, all, some, p, m);
  }

  /** The hit depends on what the old event is, and not on its place in the list. */
  ghost predicate ByElement(olds: seq<Legacy>, at: (Legacy, nat) -> bool, hit: Hit, n: nat) {
    forall j: nat, i: nat :: j < |olds| && i < n ==> hit(j, i) == at(olds[j], i)
  }

  lemma ShiftedByElement(all: seq<Legacy>, p: nat, others: seq<Legacy>, at: (Legacy, nat) -> bool, a: Hit, b: Hit, n: nat)
    requires p <= |all| && all[p..] == others && ByElement(all, at, a, n) && ByElement(others, at, b, n)
    ensures Shifted(a, b, p, |others|, n)
  {
    forall z: nat, y: nat | p <= z < p + |others| && y < n ensures a(z, y) == b(z - p, y) {
      assert all[z] == others[z - p];
    }
  }

  lemma HitsByElement(olds: seq<Legacy>, ws: seq<Window>, d: Distance, at: (Legacy, nat) -> bool)
    requires forall o, i: nat :: i < |ws| ==> at(o, i) == Matches(o, ws[i], d)
    ensures ByElement(olds, at, HitOf(olds, ws, d), |ws|)
  {
  }

  lemma HitsShift(all: seq<Legacy>, p: nat, others: seq<Legacy>, ws: seq<Window>, d: Distance)
    requires p <= |all| && all[p..] == others
    ensures Shifted(HitOf(all, ws, d), HitOf(others, ws, d), p, |others|, |ws|)
  {
    var at := (o: Legacy, i: nat) => i < |ws| && Matches(o, ws[i], d);
    HitsByElement(all, ws, d, at);
    HitsByElement(others, ws, d, at);
    ShiftedByElement(all, p, others, at, HitOf(all, ws, d), HitOf(others, ws, d), |ws|);
  }

  lemma OwnLeaveNativesAlone(was: seq<string>, ids: seq<string>, oldIds: seq<string>, p: nat, hit: Hit)
    requires |was| == |ids| && p <= |oldIds| && Distinct(ids) && OwnHits(was, ids, oldIds, p, hit) && HitsOwnOnly(ids, oldIds, p, hit)
    ensures forall x: nat, i: nat :: x < p && i < |ids| && ids[i] == was[i] ==> !hit(x, i)
  {
    forall x: nat, i: nat | x < p && i < |ids| && ids[i] == was[i] ensures !hit(x, i) {
      assert Own(was, ids, oldIds[x], hit, x);
    }
  }

  /** The next poll of the same windows gives them the same ids exactly when no
      adopted id, stored where its window now is, matches another window, and the
      old events that nothing adopted keep out: none matches a window with an
      adopted id, and none and a window with its own are each other's only match. */
  lemma AdoptionIsStableIff(was: seq<string>, ids: seq<string>, ids': seq<string>, ws: seq<Window>, olds: seq<Legacy>, rest: seq<Event>,
                            prior: seq<Event>, d: Distance)
    requires IsDistance(d) && Tick(was, ids, ws, olds, d) && |ids'| == |ids|
    requires prior == StoredEvents(ids, ws) + rest && OneEventPerId(prior)
    requires Adopted(ids', was, IdsOf(Olds(prior)), HitOf(Olds(prior), ws, d), |Olds(prior)|)
    ensures ids' == ids <==> KeepsApart(was, ids, ws, d) && OthersKeepOut(was, ids, |Olds(rest)|, 0, HitOf(Olds(rest), ws, d))
  {
    var own, others := Olds(StoredEvents(ids, ws)), Olds(rest);
    OldsAppend(StoredEvents(ids, ws), rest);
    OldsAreDistinct(prior);
    NextOwnHits(was, ids, ws, olds, rest, d);
    NextHitsOwnOnlyIff(was, ids, ws, olds, others, d);
    SelfMatchKeepsIdsIff(was, ids, ids', IdsOf(own + others), |own|, HitOf(own + others, ws, d));
    if KeepsApart(was, ids, ws, d) {
      HitsShift(own + others, |own|, others, ws, d);
      OthersKeepOutIff(was, ids, IdsOf(own + others), |own|, |others|, HitOf(own + others, ws, d), HitOf(others, ws, d));
    }
  }

  lemma NothingElse(ids: seq<string>, ws: seq<Window>)
    requires |ids| == |ws| && Distinct(ids)
    ensures OneEventPerId(StoredEvents(ids, ws)) && StoredEvents(ids, ws) == StoredEvents(ids, ws) + []
  {
  }

  // --------------------------------------------------------- an adopted id dropped

  /** Meters along one road. */
  function Road(): Distance {
    (p: Pos, q: Pos) => if p.lat <= q.lat then q.lat - p.lat else p.lat - q.lat
  }

  function At(m: real): Pos {
    Pos(m, 0.0)
  }

  /** A window of closure C1, log 4, in place from one point to another. */
  function InPlace(begin: real, end: real): Window {
    Window(Closure("C1", "4", Some(At(begin)), Some(At(end))), true)
  }

  /** The old event of that closure, standing at a point. */
  function OldAt(id: string, m: real): Legacy {
    Legacy(id, "C1", "4", At(m))
  }

  lemma MatchesOnRoad(id: string, m: real, begin: real, end: real)
    ensures Matches(OldAt(id, m), InPlace(begin, end), Road())
      <==> -250.0 <= begin - m <= 250.0 || -250.0 <= end - m <= 250.0
  {
    var a, b := Road()(At(m), At(begin)), Road()(At(m), At(end));
    assert NearestEndpointMeters(InPlace(begin, end).closure, At(m), Road()) == if b < a then b else a;
  }

  lemma FirstAloneAdopts(was: seq<string>, ids: seq<string>, oldId: string, hit: Hit, oldIds: seq<string>)
    requires |was| == |ids| == 2 && oldIds == [oldId] && hit(0, 0) && !hit(0, 1) && Adopted(ids, was, oldIds, hit, 1)
    ensures ids == [oldId, was[1]]
  {
    assert Mutual(hit, 1, 2, 0, 0);
    assert !Mutual(hit, 1, 2, 0, 1);
  }

  /** Two windows of one closure, the first from 400 m to 0 m, the second from 500 m
      to 900 m; the old event of that closure stands at 0 m. The first window alone
      matches it and takes its id, is stored at 400 m, and there both match: the
      next poll drops the id, and the sweep resolves a closure still in place. */
  lemma AnAdoptedIdCanBeDropped(was: seq<string>, id: string, ids: seq<string>, ids': seq<string>, ws: seq<Window>, olds: seq<Legacy>)
    requires ws == [InPlace(400.0, 0.0), InPlace(500.0, 900.0)] && olds == [OldAt(id, 0.0)]
    requires |was| == |ids| == |ids'| == 2 && Native(was) && Distinct(was) && LegacyParts(id) == Some(("C1", "4"))
    requires Adopted(ids, was, IdsOf(olds), HitOf(olds, ws, Road()), 1)
    requires var olds' := Olds(StoredEvents(ids, ws)); Adopted(ids', was, IdsOf(olds'), HitOf(olds', ws, Road()), |olds'|)
    ensures ids == [id, was[1]] && ids' != ids
  {
    FirstPoll(was, ids, id, ws, olds);
    SecondAlsoMatches(id);
    FirstIsDropped(was, ids, ids', ws, olds, Road());
  }

  lemma FirstIsDropped(was: seq<string>, ids: seq<string>, ids': seq<string>, ws: seq<Window>, olds: seq<Legacy>, d: Distance)
    requires IsDistance(d) && Tick(was, ids, ws, olds, d) && |ids'| == |ids| == 2
    requires ids[0] != was[0] && Rematches(ids[0], ws[0], ws[1], d)
    requires var olds' := Olds(StoredEvents(ids, ws)); Adopted(ids', was, IdsOf(olds'), HitOf(olds', ws, d), |olds'|)
    ensures ids' != ids
  {
    NothingElse(ids, ws);
    AdoptionIsStableIff(was, ids, ids', ws, olds, [], StoredEvents(ids, ws), d);
  }

  lemma FirstPoll(was: seq<string>, ids: seq<string>, id: string, ws: seq<Window>, olds: seq<Legacy>)
    requires |was| == |ids| == 2 && Native(was) && Distinct(was) && LegacyParts(id) == Some(("C1", "4"))
    requires ws == [InPlace(400.0, 0.0), InPlace(500.0, 900.0)] && olds == [OldAt(id, 0.0)]
    requires Adopted(ids, was, IdsOf(olds), HitOf(olds, ws, Road()), 1)
    ensures ids == [id, was[1]] && id != was[0] && Tick(was, ids, ws, olds, Road())
  {
    FirstHits(id, ws, olds, HitOf(olds, ws, Road()));
    FirstAloneAdopts(was, ids, id, HitOf(olds, ws, Road()), IdsOf(olds));
    AdoptedApart(was, ids, id);
  }

  lemma SecondAlsoMatches(id: string)
    requires LegacyParts(id) == Some(("C1", "4"))
    ensures Rematches(id, InPlace(400.0, 0.0), InPlace(500.0, 900.0), Road())
  {
    MatchesOnRoad(id, 400.0, 500.0, 900.0);
  }

  lemma FirstHits(id: string, ws: seq<Window>, olds: seq<Legacy>, hit: Hit)
    requires ws == [InPlace(400.0, 0.0), InPlace(500.0, 900.0)] && olds == [OldAt(id, 0.0)] && hit == HitOf(olds, ws, Road())
    ensures hit(0, 0) && !hit(0, 1)
  {
    MatchesOnRoad(id, 0.0, 400.0, 0.0);
    MatchesOnRoad(id, 0.0, 500.0, 900.0);
  }

  lemma AdoptedApart(was: seq<string>, ids: seq<string>, id: string)
    requires |was| == |ids| == 2 && Native(was) && LegacyParts(id).Some? && ids == [id, was[1]]
    ensures Distinct(ids)
  {
    assert LegacyParts(was[1]).None?;
  }

  /** Such an id: the old feed's form of a closure and log number reads back. */
  lemma AnIdOfTheOldFeed(closure: string, log: string, hex: string)
    requires IsAlnum(closure) && IsAlnum(log) && IsHex6(hex)
    ensures LegacyParts("caltrans:" + (closure + ['-'] + (log + ['-'] + hex))) == Some((closure, log))
  {
    var tail := log + ['-'] + hex;
    SplitHead(closure, tail, '-');
    SplitHead(log, hex, '-');
    SplitWhole(hex, '-');
    var rest := closure + ['-'] + tail;
    assert ("caltrans:" + rest)[9..] == rest;
  }
}
