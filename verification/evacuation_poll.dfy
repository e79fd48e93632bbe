/** One Cal OES poll (internal/ingest/evacuation.go): which rows become events,
  how rows that share an id are clustered into zones, and that no listed zone
  is lost on the way. */
module EvacuationPoll {
  import opened Wrappers
  import opened Text
  import opened StableSort
  import Ids = EvacuationIds

  /** A row of the Cal OES layer. `at` is the centroid its geometry parses to. */
  datatype Row = Row(zoneId: string, zoneName: string, county: string, geometry: seq<bv8>, status: string, at: Ids.Centroid)

  datatype Level = Order | ShelterInPlace | Warning | Advisory

  // ------------------------------------------------------------ classification

  /** Which words a text holds. */
  type Words = string -> bool

  function WordsIn(s: string): Words {
    word => Contains(s, word)
  }

  predicate SaysInactive(says: Words) {
    says("lifted") || says("normal") || says("all clear") || says("all-clear") || says("repopulat") || says("no evac")
  }

  function LevelOf(says: Words): Option<Level> {
    if SaysInactive(says) then None
    else if says("order") || says("mandatory") then Some(Order)
    else if says("shelter") then Some(ShelterInPlace)
    else if says("warning") then Some(Warning)
    else if says("advisory") || says("voluntary") then Some(Advisory)
    else Some(Warning)
  }

  function Folded(status: string): string {
    ToLower(TrimSpace(status))
  }

  /** NormalizeEvacLevel; None stands for "". */
  function NormalizeEvacLevel(status: string): Option<Level> {
    if Folded(status) == "" then None else LevelOf(WordsIn(Folded(status)))
  }

  /** EvacStatusInactive: a blank status is missing data, not an all-clear. */
  predicate EvacStatusInactive(status: string) {
    Folded(status) != "" && SaysInactive(WordsIn(Folded(status)))
  }

  /** The level Poll gives a row, or None to drop it. */
  function PolledLevel(status: string): Option<Level> {
    match NormalizeEvacLevel(status)
    case Some(l) => Some(l)
    case None => if EvacStatusInactive(status) then None else Some(Warning)
  }

  function Rank(l: Level): nat {
    match l
    case Order => 4
    case ShelterInPlace => 3
    case Warning => 2
    case Advisory => 1
  }

  /** Only an explicit inactive status drops a row; blank and unknown ones are warnings. */
  lemma OnlyExplicitlyInactiveIsDropped(status: string)
    ensures PolledLevel(status).None? <==> EvacStatusInactive(status)
    ensures Folded(status) == "" ==> PolledLevel(status) == Some(Warning)
  {
  }

  // ----------------------------------------------------------------- same zone

  type Digest = (string, seq<bv8>) -> string

  predicate Blank(s: string) {
    TrimSpace(s) == ""
  }

  /** nonEmpty (internal/ingest/ingest.go): the first value that is not blank. */
  function NonEmpty(a: string, b: string): string {
    if !Blank(a) then a else if !Blank(b) then b else ""
  }

  /** The id of a row after "evac:"; `digest` is the hash of county and geometry bytes. */
  function Label(r: Row, digest: Digest): string {
    var named := NonEmpty(r.zoneId, r.zoneName);
    if named != "" then named else "zone-" + digest(r.county, r.geometry)
  }

  /** evacEventID. */
  function EventId(r: Row, digest: Digest): string {
    "evac:" + Label(r, digest)
  }

  predicate SameZone(a: Row, b: Row) {
    if a.zoneId != "" || b.zoneId != "" then a.zoneId == b.zoneId
    else if a.zoneName != "" || b.zoneName != "" then a.zoneName == b.zoneName && a.county == b.county
    else a.county == b.county && a.geometry == b.geometry
  }

  /** What identifies a zone: its first identifying column, read with the county where that column alone does not. */
  datatype Key = ById(id: string) | ByName(name: string, county: string) | ByShape(county: string, geometry: seq<bv8>)

  function KeyOf(r: Row): Key {
    if r.zoneId != "" then ById(r.zoneId)
    else if r.zoneName != "" then ByName(r.zoneName, r.county)
    else ByShape(r.county, r.geometry)
  }

  /** sameEvacZone is equality of keys, and so an equivalence. */
  lemma SameZoneIsEqualityOfKeys(a: Row, b: Row)
    ensures SameZone(a, b) <==> KeyOf(a) == KeyOf(b)
  {
  }

  /** The column that tells the zone is not empty, but blank: the id skips it. */
  predicate Padded(r: Row) {
    if r.zoneId != "" then Blank(r.zoneId) else r.zoneName != "" && Blank(r.zoneName)
  }

  /** Two rows whose zone ids are blank are named alike by their other columns. */
  predicate NamedAlike(a: Row, b: Row, digest: Digest) {
    var x, y := digest(a.county, a.geometry), digest(b.county, b.geometry);
    match (Blank(a.zoneName), Blank(b.zoneName))
    case (false, false) => a.zoneName == b.zoneName
    case (true, true) => x == y
    case (true, false) => b.zoneName == "zone-" + x
    case (false, true) => a.zoneName == "zone-" + y
  }

  lemma SamePrefix(prefix: string, x: string, y: string)
    ensures prefix + x == prefix + y <==> x == y
  {
    assert (prefix + x)[|prefix|..] == x && (prefix + y)[|prefix|..] == y;
  }

  lemma BlankLabel(r: Row, digest: Digest)
    ensures Label(r, digest) == if !Blank(r.zoneId) then r.zoneId
      else if !Blank(r.zoneName) then r.zoneName
      else "zone-" + digest(r.county, r.geometry)
  {
    assert Blank("");
  }

  /** Exactly when rows of one zone share an id. The id derivation skips a blank
      column; the comparison of zones does not. */
  lemma RowsOfAZoneShareAnIdIff(a: Row, b: Row, digest: Digest)
    requires SameZone(a, b)
    ensures EventId(a, digest) == EventId(b, digest) <==> !Padded(a) || NamedAlike(a, b, digest)
  {
    assert Blank("");
    SamePrefix("evac:", Label(a, digest), Label(b, digest));
    SamePrefix("zone-", digest(a.county, a.geometry), digest(b.county, b.geometry));
    BlankLabel(a, digest);
    BlankLabel(b, digest);
  }

  // ---------------------------------------------------------------- clustering

  datatype Cand = Cand(row: Row, level: Level)

  /** The candidates of one zone in the order they came; never empty. */
  datatype Cluster = Cluster(first: Cand, others: seq<Cand>)

  predicate In(c: Cand, cl: Cluster) {
    c == cl.first || c in cl.others
  }

  /** Cluster by the first cluster whose head is the same zone. */
  function FirstMatch(clusters: seq<Cluster>, c: Cand): (i: nat)
    ensures i <= |clusters|
    ensures i < |clusters| ==> KeyOf(clusters[i].first.row) == KeyOf(c.row)
    ensures forall j :: 0 <= j < i ==> KeyOf(clusters[j].first.row) != KeyOf(c.row)
  {
    if clusters == [] || KeyOf(clusters[0].first.row) == KeyOf(c.row) then 0 else 1 + FirstMatch(clusters[1..], c)
  }

  function Place(clusters: seq<Cluster>, c: Cand): seq<Cluster> {
    var i := FirstMatch(clusters, c);
    if i == |clusters| then clusters + [Cluster(c, [])]
    else clusters[i := clusters[i].(others := clusters[i].others + [c])]
  }

  function Clusters(cands: seq<Cand>): seq<Cluster> {
    if cands == [] then [] else Place(Clusters(cands[..|cands| - 1]), cands[|cands| - 1])
  }

  /** Clusters hold the candidates seen so far, one class of SameZone each. */
  ghost predicate Partition(clusters: seq<Cluster>, seen: seq<Cand>) {
    && (forall i, x :: 0 <= i < |clusters| && In(x, clusters[i]) ==> KeyOf(clusters[i].first.row) == KeyOf(x.row) && x in seen)
    && (forall i, j :: 0 <= i < j < |clusters| ==> KeyOf(clusters[i].first.row) != KeyOf(clusters[j].first.row))
    && (forall x :: x in seen ==> exists i :: 0 <= i < |clusters| && In(x, clusters[i]))
  }

  lemma PlacePartitions(clusters: seq<Cluster>, seen: seq<Cand>, c: Cand)
    requires Partition(clusters, seen)
    ensures Partition(Place(clusters, c), seen + [c])
  {
    var i := FirstMatch(clusters, c);
    var next := Place(clusters, c);
    assert In(c, next[i]);
    forall x | x in seen + [c] ensures exists j :: 0 <= j < |next| && In(x, next[j]) {
      if x in seen {
        var j :| 0 <= j < |clusters| && In(x, clusters[j]);
        assert In(x, next[j]);
      }
    }
    forall j, x | 0 <= j < |next| && In(x, next[j])
      ensures KeyOf(next[j].first.row) == KeyOf(x.row) && x in seen + [c]
    {
      assert x == c || In(x, clusters[j]);
    }
  }

  lemma {:induction false} ClustersPartition(cands: seq<Cand>)
    ensures Partition(Clusters(cands), cands)
  {
    if cands != [] {
      var before := cands[..|cands| - 1];
      ClustersPartition(before);
      PlacePartitions(Clusters(before), before, cands[|cands| - 1]);
      assert before + [cands[|cands| - 1]] == cands;
    }
  }

  /** The first candidate of the highest rank among a cluster's first n others and its head. */
  function Best(cl: Cluster, n: nat): (b: Cand)
    requires n <= |cl.others|
    ensures In(b, cl) && Rank(b.level) >= Rank(cl.first.level)
    ensures forall m :: 0 <= m < n ==> Rank(b.level) >= Rank(cl.others[m].level)
  {
    if n == 0 then cl.first
    else
      var b := Best(cl, n - 1);
      if Rank(cl.others[n - 1].level) > Rank(b.level) then cl.others[n - 1] else b
  }

  function Winner(cl: Cluster): Cand {
    Best(cl, |cl.others|)
  }

  function Winners(cands: seq<Cand>): (ws: seq<Cand>) {
    var cls := Clusters(cands);
    seq(|cls|, i requires 0 <= i < |cls| => Winner(cls[i]))
  }

  /** The same zone, at the same rank or above. */
  predicate StandsFor(w: Cand, c: Cand) {
    KeyOf(w.row) == KeyOf(c.row) && Rank(w.level) >= Rank(c.level)
  }

  ghost predicate Covered(ws: seq<Cand>, c: Cand) {
    exists i :: 0 <= i < |ws| && StandsFor(ws[i], c)
  }

  ghost predicate DistinctZones(ws: seq<Cand>) {
    forall i, j :: 0 <= i < j < |ws| ==> KeyOf(ws[i].row) != KeyOf(ws[j].row)
  }

  /** One winner per zone: each is one of the candidates, no two are the same
      zone, and every candidate is represented at its own rank or above. */
  ghost predicate Represents(ws: seq<Cand>, cands: seq<Cand>) {
    && (forall i :: 0 <= i < |ws| ==> ws[i] in cands)
    && DistinctZones(ws)
    && (forall c :: c in cands ==> Covered(ws, c))
  }

  lemma WinnerDominates(cl: Cluster, c: Cand)
    requires In(c, cl)
    ensures In(Winner(cl), cl) && Rank(Winner(cl).level) >= Rank(c.level)
  {
    if c != cl.first {
      var m :| 0 <= m < |cl.others| && cl.others[m] == c;
    }
  }

  lemma WinnersDiffer(cls: seq<Cluster>, cands: seq<Cand>, i: nat, j: nat)
    requires Partition(cls, cands) && i < j < |cls|
    ensures KeyOf(Winner(cls[i]).row) != KeyOf(Winner(cls[j]).row)
  {
    assert In(Winner(cls[i]), cls[i]) && In(Winner(cls[j]), cls[j]);
  }

  lemma WinnerFor(cls: seq<Cluster>, cands: seq<Cand>, c: Cand) returns (i: nat)
    requires Partition(cls, cands) && c in cands
    ensures i < |cls| && StandsFor(Winner(cls[i]), c)
  {
    i :| 0 <= i < |cls| && In(c, cls[i]);
    WinnerDominates(cls[i], c);
  }

  lemma WinnersRepresent(cands: seq<Cand>)
    ensures Represents(Winners(cands), cands)
  {
    var cls, ws := Clusters(cands), Winners(cands);
    ClustersPartition(cands);
    forall i | 0 <= i < |ws| ensures ws[i] in cands {
      assert In(ws[i], cls[i]);
    }
    forall i, j | 0 <= i < j < |ws| ensures KeyOf(ws[i].row) != KeyOf(ws[j].row) {
      WinnersDiffer(cls, cands, i, j);
    }
    forall c | c in cands ensures Covered(ws, c) {
      var i := WinnerFor(cls, cands, c);
      assert StandsFor(ws[i], c);
    }
  }

  // --------------------------------------------------------------------- order

  /** The sort key; the getters read 0 for a missing centroid. */
  function Lat(r: Row): real { if r.at.At? then r.at.lat else 0.0 }
  function Lng(r: Row): real { if r.at.At? then r.at.lng else 0.0 }

  predicate Before(a: Cand, b: Cand) {
    if a.row.county != b.row.county then Less(a.row.county, b.row.county)
    else if Lat(a.row) != Lat(b.row) then Lat(a.row) < Lat(b.row)
    else Lng(a.row) < Lng(b.row)
  }

  predicate SameKey(a: Cand, b: Cand) {
    a.row.county == b.row.county && Lat(a.row) == Lat(b.row) && Lng(a.row) == Lng(b.row)
  }

  lemma BeforeIsTransitive(a: Cand, b: Cand, c: Cand)
    ensures Before(a, b) && Before(b, c) ==> Before(a, c)
    ensures Before(a, c) ==> Before(a, b) || Before(b, c)
    ensures !Before(a, a)
    ensures SameKey(a, b) <==> !Before(a, b) && !Before(b, a)
  {
    LessTotal(a.row.county, b.row.county);
    LessTotal(b.row.county, c.row.county);
    LessTotal(a.row.county, c.row.county);
    if Less(a.row.county, b.row.county) && Less(b.row.county, c.row.county) {
      LessTransitive(a.row.county, b.row.county, c.row.county);
    }
    if Less(b.row.county, a.row.county) && Less(a.row.county, c.row.county) {
      LessTransitive(b.row.county, a.row.county, c.row.county);
    }
    if Less(a.row.county, c.row.county) && Less(c.row.county, b.row.county) {
      LessTransitive(a.row.county, c.row.county, b.row.county);
    }
  }

  lemma BeforeIsAnOrder()
    ensures IsOrder(Before)
  {
    forall a, b, c ensures (Before(a, b) && Before(b, c) ==> Before(a, c)) && (Before(a, c) ==> Before(a, b) || Before(b, c)) && !Before(a, a) {
      BeforeIsTransitive(a, b, c);
    }
  }

  /** sort.SliceStable by Before. */
  function SortStable(ws: seq<Cand>): (r: seq<Cand>)
    ensures multiset(r) == multiset(ws)
  {
    Sort(ws, Before)
  }

  ghost predicate DistinctKeys(s: seq<Cand>) {
    forall i, j :: 0 <= i < j < |s| ==> !SameKey(s[i], s[j])
  }

  /** The order in which ids are assigned, and so the suffixes of new zones,
      does not depend on the order of the rows upstream. */
  lemma OrderIgnoresTheFeed(ws: seq<Cand>, ws': seq<Cand>)
    requires multiset(ws) == multiset(ws') && DistinctKeys(ws)
    ensures SortStable(ws) == SortStable(ws')
  {
    BeforeIsAnOrder();
    forall i, j | 0 <= i < j < |ws| ensures Before(ws[i], ws[j]) || Before(ws[j], ws[i]) {
      BeforeIsTransitive(ws[i], ws[j], ws[j]);
    }
    SortIsCanonical(ws, ws', Before);
  }

  // ------------------------------------------------------------------- one poll

  datatype Emitted = Emitted(id: string, row: Row, level: Level)

  function ZonesOf(ws: seq<Cand>): (zs: seq<Ids.Zone>)
    ensures |zs| == |ws|
  {
    seq(|ws|, i requires 0 <= i < |ws| => Ids.Zone(ws[i].row.county, ws[i].row.at))
  }

  /** The row and level each event was made from. */
  function Sources(es: seq<Emitted>): (ws: seq<Cand>)
    ensures |ws| == |es|
  {
    seq(|es|, i requires 0 <= i < |es| => Cand(es[i].row, es[i].level))
  }

  function Labelled(ws: seq<Cand>, ids: seq<string>): (es: seq<Emitted>)
    requires |ids| == |ws|
    ensures |es| == |ws| && Sources(es) == ws
    ensures forall i :: 0 <= i < |es| ==> es[i].id == ids[i]
  {
    seq(|ws|, i requires 0 <= i < |ws| => Emitted(ids[i], ws[i].row, ws[i].level))
  }

  /** The events of one group of candidates that share the id `id`. */
  function Resolved(prior: seq<Ids.Event>, id: string, cands: seq<Cand>): seq<Emitted> {
    var ws := SortStable(Winners(cands));
    Labelled(ws, Ids.Assigned(prior, id, ZonesOf(ws)))
  }

  method FindCluster(clusters: seq<Cluster>, c: Cand) returns (i: nat)
    ensures i == FirstMatch(clusters, c)
  {
    i := 0;
    while i < |clusters| && !SameZone(clusters[i].first.row, c.row)
      invariant i <= |clusters|
      invariant forall j :: 0 <= j < i ==> KeyOf(clusters[j].first.row) != KeyOf(c.row)
    {
      i := i + 1;
    }
  }

  /** First loop of resolveEvacIDCollisions: cluster by the head's zone, in encounter order. */
  method ClusterByZone(cands: seq<Cand>) returns (clusters: seq<Cluster>)
    ensures clusters == Clusters(cands)
  {
    clusters := [];
    for n := 0 to |cands|
      invariant clusters == Clusters(cands[..n])
    {
      assert cands[..n + 1][..n] == cands[..n];
      var c := cands[n];
      var i := FindCluster(clusters, c);
      if i < |clusters| {
        clusters := clusters[i := clusters[i].(others := clusters[i].others + [c])];
      } else {
        clusters := clusters + [Cluster(c, [])];
      }
    }
    assert cands[..|cands|] == cands;
  }

  /** Second loop: the first event of the highest level in each cluster. */
  method Collapse(clusters: seq<Cluster>) returns (winners: seq<Cand>)
    ensures |winners| == |clusters| && forall k :: 0 <= k < |winners| ==> winners[k] == Winner(clusters[k])
  {
    winners := [];
    for k := 0 to |clusters|
      invariant |winners| == k && forall j :: 0 <= j < k ==> winners[j] == Winner(clusters[j])
    {
      var best := clusters[k].first;
      for m := 0 to |clusters[k].others|
        invariant best == Best(clusters[k], m)
      {
        if Rank(clusters[k].others[m].level) > Rank(best.level) {
          best := clusters[k].others[m];
        }
      }
      winners := winners + [best];
    }
  }

  method ResolveIdCollisions(prior: seq<Ids.Event>, id: string, cands: seq<Cand>) returns (events: seq<Emitted>)
    ensures events == Resolved(prior, id, cands)
  {
    var clusters := ClusterByZone(cands);
    var winners := Collapse(clusters);
    assert winners == Winners(cands);
    var sorted := SortStable(winners);
    var ids := Ids.AssignContinuityIds(prior, id, ZonesOf(sorted));
    events := Labelled(sorted, ids);
  }

  lemma ReorderingRepresents(ws: seq<Cand>, sorted: seq<Cand>, cands: seq<Cand>)
    requires multiset(ws) == multiset(sorted) && Represents(ws, cands)
    ensures Represents(sorted, cands)
  {
    forall i | 0 <= i < |sorted| ensures sorted[i] in cands {
      assert sorted[i] in multiset(ws);
    }
    forall i, j | 0 <= i < j < |sorted| ensures KeyOf(sorted[i].row) != KeyOf(sorted[j].row) {
      var a, b := Elsewhere(ws, sorted, i, j);
    }
    forall c | c in cands ensures Covered(sorted, c) {
      var i :| 0 <= i < |ws| && StandsFor(ws[i], c);
      assert ws[i] in multiset(sorted);
    }
  }

  /** Each group's events: one per zone, at the highest rank listed for it, under
      pairwise distinct ids. */
  lemma GroupIsRepresented(prior: seq<Ids.Event>, id: string, cands: seq<Cand>)
    ensures var es := Resolved(prior, id, cands);
      Represents(Sources(es), cands) && (forall i, j :: 0 <= i < j < |es| ==> es[i].id != es[j].id)
  {
    var sorted := SortStable(Winners(cands));
    WinnersRepresent(cands);
    ReorderingRepresents(Winners(cands), sorted, cands);
    Ids.IdsDistinct(prior, id, ZonesOf(sorted));
  }

  /** The level a status gives a row, or None to drop the row. */
  type Classifier = string -> Option<Level>

  /** The rows that become candidates, with their levels, in feed order. */
  function Candidates(rows: seq<Row>, level: Classifier): (cs: seq<Cand>)
    ensures forall c :: c in cs ==> c.row in rows && level(c.row.status) == Some(c.level)
    ensures forall r :: r in rows && level(r.status).Some? ==> Cand(r, level(r.status).value) in cs
  {
    if rows == [] then []
    else
      var rest := Candidates(rows[..|rows| - 1], level);
      var r := rows[|rows| - 1];
      if level(r.status).None? then rest else rest + [Cand(r, level(r.status).value)]
  }

  lemma CandidatesGrow(rows: seq<Row>, n: nat, level: Classifier)
    requires n < |rows|
    ensures var l := level(rows[n].status);
      Candidates(rows[..n + 1], level) == Candidates(rows[..n], level) + if l.Some? then [Cand(rows[n], l.value)] else []
  {
    assert rows[..n + 1][..n] == rows[..n];
  }

  type Naming = Row -> string

  function Group(cands: seq<Cand>, id: string, name: Naming): (g: seq<Cand>)
    ensures forall c :: c in g <==> c in cands && name(c.row) == id
  {
    if cands == [] then []
    else
      var rest := Group(cands[..|cands| - 1], id, name);
      var c := cands[|cands| - 1];
      if name(c.row) == id then rest + [c] else rest
  }

  /** The ids in the order they are first met. */
  function IdOrder(cands: seq<Cand>, name: Naming): (ids: seq<string>)
    ensures forall i, j :: 0 <= i < j < |ids| ==> ids[i] != ids[j]
    ensures forall c :: c in cands ==> name(c.row) in ids
  {
    if cands == [] then []
    else
      var rest, id := IdOrder(cands[..|cands| - 1], name), name(cands[|cands| - 1].row);
      if id in rest then rest else rest + [id]
  }

  /** A polled list is faithful to the feed: nothing invented, and every row that
      is kept is represented by an event of its zone at its own rank or above. */
  ghost predicate Faithful(events: seq<Emitted>, rows: seq<Row>, level: Classifier) {
    && (forall c :: c in Sources(events) ==> c.row in rows && level(c.row.status) == Some(c.level))
    && (forall r :: r in rows && level(r.status).Some? ==> Covered(Sources(events), Cand(r, level(r.status).value)))
  }

  /** Poll's first loop: classify the rows and group them by id. */
  method GroupById(rows: seq<Row>, digest: Digest, level: Classifier) returns (groups: map<string, seq<Cand>>, idOrder: seq<string>)
    ensures Grouped(groups, idOrder, Candidates(rows, level), r => EventId(r, digest))
  {
    groups, idOrder := map[], [];
    ghost var cands: seq<Cand> := [];
    ghost var name: Naming := r => EventId(r, digest);
    for n := 0 to |rows|
      invariant cands == Candidates(rows[..n], level)
      invariant Grouped(groups, idOrder, cands, name)
    {
      CandidatesGrow(rows, n, level);
      var l := level(rows[n].status);
      if l.Some? {
        var c := Cand(rows[n], l.value);
        groups, idOrder := AddToGroup(groups, idOrder, c, EventId(rows[n], digest), cands, name);
        cands := cands + [c];
      }
    }
    assert rows[..|rows|] == rows;
  }

  /** A candidate joins the group of its id, or starts one; `cands` and `name` only specify. */
  method AddToGroup(before: map<string, seq<Cand>>, order: seq<string>, c: Cand, id: string, ghost cands: seq<Cand>, ghost name: Naming)
    returns (groups: map<string, seq<Cand>>, idOrder: seq<string>)
    requires Grouped(before, order, cands, name) && id == name(c.row)
    ensures Grouped(groups, idOrder, cands + [c], name)
  {
    GroupOneMore(before, order, cands, c, name);
    groups, idOrder := before, order;
    if id !in groups {
      idOrder := idOrder + [id];
      groups := groups[id := [c]];
    } else {
      groups := groups[id := groups[id] + [c]];
    }
  }

  /** The map and order Poll keeps: one group per id met so far, in order of first meeting. */
  ghost predicate Grouped(groups: map<string, seq<Cand>>, idOrder: seq<string>, cands: seq<Cand>, name: Naming) {
    && (forall id :: id in idOrder <==> id in groups)
    && idOrder == IdOrder(cands, name)
    && (forall id :: id in groups ==> groups[id] == Group(cands, id, name))
  }

  lemma GroupOneMore(groups: map<string, seq<Cand>>, idOrder: seq<string>, cands: seq<Cand>, c: Cand, name: Naming)
    requires Grouped(groups, idOrder, cands, name)
    ensures var id := name(c.row);
      if id in groups then Grouped(groups[id := groups[id] + [c]], idOrder, cands + [c], name)
      else Grouped(groups[id := [c]], idOrder + [id], cands + [c], name)
  {
    var id := name(c.row);
    assert (cands + [c])[..|cands|] == cands;
    if id !in groups {
      NoneSoFar(cands, id, name);
    }
  }

  lemma {:induction false} NoneSoFar(cands: seq<Cand>, id: string, name: Naming)
    requires forall c :: c in cands ==> name(c.row) != id
    ensures Group(cands, id, name) == []
  {
    if cands != [] {
      NoneSoFar(cands[..|cands| - 1], id, name);
    }
  }

  /** What the sources of the events of the groups done so far satisfy. */
  ghost predicate Done(ws: seq<Cand>, cands: seq<Cand>, ids: seq<string>, name: Naming) {
    && (forall i :: 0 <= i < |ws| ==> ws[i] in cands && name(ws[i].row) in ids)
    && (forall c :: c in cands && name(c.row) in ids ==> Covered(ws, c))
  }

  lemma AppendDone(ws: seq<Cand>, more: seq<Cand>, cands: seq<Cand>, g: seq<Cand>, ids: seq<string>, id: string, name: Naming)
    requires Done(ws, cands, ids, name) && Represents(more, g)
    requires forall c :: c in g <==> c in cands && name(c.row) == id
    ensures Done(ws + more, cands, ids + [id], name)
  {
    var all := ws + more;
    forall i | 0 <= i < |all| ensures all[i] in cands && name(all[i].row) in ids + [id] {
      assert i >= |ws| ==> all[i] == more[i - |ws|] && all[i] in g;
    }
    forall c | c in cands && name(c.row) in ids + [id] ensures Covered(all, c) {
      if name(c.row) == id {
        assert c in g;
      }
      CoveredInEither(ws, more, c);
    }
  }

  lemma SourcesAppend(es: seq<Emitted>, more: seq<Emitted>)
    ensures Sources(es + more) == Sources(es) + Sources(more)
  {
  }

  lemma CoveredInEither(ws: seq<Cand>, more: seq<Cand>, c: Cand)
    requires Covered(ws, c) || Covered(more, c)
    ensures Covered(ws + more, c)
  {
    if Covered(ws, c) {
      var i :| 0 <= i < |ws| && StandsFor(ws[i], c);
      assert StandsFor((ws + more)[i], c);
    } else {
      var i :| 0 <= i < |more| && StandsFor(more[i], c);
      assert StandsFor((ws + more)[|ws| + i], c);
    }
  }

  lemma DoneIsFaithful(events: seq<Emitted>, rows: seq<Row>, ids: seq<string>, name: Naming, level: Classifier)
    requires Done(Sources(events), Candidates(rows, level), ids, name)
    requires forall c :: c in Candidates(rows, level) ==> name(c.row) in ids
    ensures Faithful(events, rows, level)
  {
    forall r | r in rows && level(r.status).Some? ensures Covered(Sources(events), Cand(r, level(r.status).value)) {
      assert Cand(r, level(r.status).value) in Candidates(rows, level);
    }
  }

  /** The events of the groups `ids`, in that order. */
  function ResolveAll(prior: seq<Ids.Event>, ids: seq<string>, cands: seq<Cand>, name: Naming): seq<Emitted> {
    if ids == [] then []
    else
      var id := ids[|ids| - 1];
      ResolveAll(prior, ids[..|ids| - 1], cands, name) + Resolved(prior, id, Group(cands, id, name))
  }

  function Polled(prior: seq<Ids.Event>, rows: seq<Row>, digest: Digest, level: Classifier): seq<Emitted> {
    var cands := Candidates(rows, level);
    var name: Naming := r => EventId(r, digest);
    ResolveAll(prior, IdOrder(cands, name), cands, name)
  }

  /** Poll: classify and group, then resolve the groups in the order their ids were met. */
  method Poll(prior: seq<Ids.Event>, rows: seq<Row>, digest: Digest) returns (events: seq<Emitted>)
    ensures events == Polled(prior, rows, digest, PolledLevel)
  {
    events := PollBy(prior, rows, digest, PolledLevel);
  }

  /** Poll, for any way of reading the status. */
  method PollBy(prior: seq<Ids.Event>, rows: seq<Row>, digest: Digest, level: Classifier) returns (events: seq<Emitted>)
    ensures events == Polled(prior, rows, digest, level)
  {
    var groups, idOrder := GroupById(rows, digest, level);
    ghost var cands, name: Naming := Candidates(rows, level), r => EventId(r, digest);
    events := [];
    for k := 0 to |idOrder|
      invariant events == ResolveAll(prior, idOrder[..k], cands, name)
    {
      var id := idOrder[k];
      GroupOf(groups, idOrder, cands, name, id);
      ResolveOneMore(prior, idOrder, k, cands, name);
      var es := ResolveIdCollisions(prior, id, groups[id]);
      events := events + es;
    }
    assert idOrder[..|idOrder|] == idOrder;
  }

  lemma GroupOf(groups: map<string, seq<Cand>>, idOrder: seq<string>, cands: seq<Cand>, name: Naming, id: string)
    requires Grouped(groups, idOrder, cands, name) && id in idOrder
    ensures id in groups && groups[id] == Group(cands, id, name)
  {
  }

  lemma ResolveOneMore(prior: seq<Ids.Event>, ids: seq<string>, k: nat, cands: seq<Cand>, name: Naming)
    requires k < |ids|
    ensures ResolveAll(prior, ids[..k + 1], cands, name)
         == ResolveAll(prior, ids[..k], cands, name) + Resolved(prior, ids[k], Group(cands, ids[k], name))
  {
    assert ids[..k + 1][..k] == ids[..k];
  }

  /** The blocks of the ids, in order. */
  function Gathered(ids: seq<string>, block: string -> seq<Cand>): seq<Cand> {
    if ids == [] then [] else Gathered(ids[..|ids| - 1], block) + block(ids[|ids| - 1])
  }

  /** The sources of the events of one group. */
  function BlockOf(prior: seq<Ids.Event>, cands: seq<Cand>, name: Naming): string -> seq<Cand> {
    id => Sources(Resolved(prior, id, Group(cands, id, name)))
  }

  lemma {:induction false} ResolveAllGathers(prior: seq<Ids.Event>, ids: seq<string>, cands: seq<Cand>, name: Naming)
    ensures Sources(ResolveAll(prior, ids, cands, name)) == Gathered(ids, BlockOf(prior, cands, name))
  {
    if ids != [] {
      var front, id := ids[..|ids| - 1], ids[|ids| - 1];
      ResolveAllGathers(prior, front, cands, name);
      SourcesAppend(ResolveAll(prior, front, cands, name), Resolved(prior, id, Group(cands, id, name)));
    }
  }

  ghost predicate BlocksRepresent(block: string -> seq<Cand>, cands: seq<Cand>, name: Naming) {
    forall id :: Represents(block(id), Group(cands, id, name))
  }

  lemma BlocksOfAPoll(prior: seq<Ids.Event>, cands: seq<Cand>, name: Naming)
    ensures BlocksRepresent(BlockOf(prior, cands, name), cands, name)
  {
    forall id ensures Represents(BlockOf(prior, cands, name)(id), Group(cands, id, name)) {
      GroupIsRepresented(prior, id, Group(cands, id, name));
    }
  }

  lemma {:induction false} AllGroupsDone(ids: seq<string>, block: string -> seq<Cand>, cands: seq<Cand>, name: Naming)
    requires BlocksRepresent(block, cands, name)
    ensures Done(Gathered(ids, block), cands, ids, name)
  {
    if ids != [] {
      var front, id := ids[..|ids| - 1], ids[|ids| - 1];
      AllGroupsDone(front, block, cands, name);
      AppendDone(Gathered(front, block), block(id), cands, Group(cands, id, name), front, id, name);
      assert ids == front + [id];
    }
  }

  lemma PollByIsFaithful(prior: seq<Ids.Event>, rows: seq<Row>, digest: Digest, level: Classifier)
    ensures Faithful(Polled(prior, rows, digest, level), rows, level)
  {
    var cands := Candidates(rows, level);
    var name: Naming := r => EventId(r, digest);
    BlocksOfAPoll(prior, cands, name);
    AllGroupsDone(IdOrder(cands, name), BlockOf(prior, cands, name), cands, name);
    ResolveAllGathers(prior, IdOrder(cands, name), cands, name);
    DoneIsFaithful(Polled(prior, rows, digest, level), rows, IdOrder(cands, name), name, level);
  }

  /** No zone that Cal OES lists as active is lost, downgraded or made up by a poll. */
  lemma PollIsFaithful(prior: seq<Ids.Event>, rows: seq<Row>, digest: Digest, r: Row)
    ensures Faithful(Polled(prior, rows, digest, PolledLevel), rows, PolledLevel)
    ensures r in rows && !EvacStatusInactive(r.status) ==>
      PolledLevel(r.status).Some? && Covered(Sources(Polled(prior, rows, digest, PolledLevel)), Cand(r, PolledLevel(r.status).value))
  {
    PollByIsFaithful(prior, rows, digest, PolledLevel);
    OnlyExplicitlyInactiveIsDropped(r.status);
  }
}
