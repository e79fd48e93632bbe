/** The ids and the order of the events of a Cal OES poll
  (internal/ingest/evacuation.go), in terms of the rows' own columns. */
module EvacuationEvents {
  import opened Wrappers
  import opened Text
  import opened StableSort
  import opened EvacuationPoll
  import Ids = EvacuationIds
  import Naming = EvacuationNaming
  import Levels = EvacuationLevels

  /** "evac:" and the first column that is not blank, or a digest of the county and shape. */
  function BareId(r: Row, digest: Digest): string {
    if TrimSpace(r.zoneId) != "" then "evac:" + r.zoneId
    else if TrimSpace(r.zoneName) != "" then "evac:" + r.zoneName
    else "evac:" + ("zone-" + digest(r.county, r.geometry))
  }

  lemma GroupIdIsBare(r: Row, digest: Digest)
    ensures EventId(r, digest) == BareId(r, digest)
  {
    BlankLabel(r, digest);
  }

  predicate IdOf(id: string, base: string) {
    id == base || base + "-" <= id
  }

  lemma {:induction false} IdsOfGroups(prior: seq<Ids.Event>, ids: seq<string>, cands: seq<Cand>, name: EvacuationPoll.Naming, e: Emitted)
    requires e in ResolveAll(prior, ids, cands, name)
    ensures IdOf(e.id, name(e.row))
  {
    var front, id := ids[..|ids| - 1], ids[|ids| - 1];
    if e in ResolveAll(prior, front, cands, name) {
      IdsOfGroups(prior, front, cands, name, e);
    } else {
      IdsOfGroup(prior, id, Group(cands, id, name), name, e);
    }
  }

  lemma IdsOfGroup(prior: seq<Ids.Event>, id: string, g: seq<Cand>, name: EvacuationPoll.Naming, e: Emitted)
    requires (forall c :: c in g ==> name(c.row) == id) && e in Resolved(prior, id, g)
    ensures IdOf(e.id, name(e.row))
  {
    var es, ws := Resolved(prior, id, g), SortStable(Winners(g));
    var i :| 0 <= i < |es| && es[i] == e;
    Naming.IdsAreOfTheBase(prior, id, ZonesOf(ws), i);
    GroupIsRepresented(prior, id, g);
    assert Sources(es)[i] in g;
  }

  /** Every event's id is the one its own row asks for, or that and a suffix. */
  lemma EveryIdIsOfItsRow(prior: seq<Ids.Event>, rows: seq<Row>, digest: Digest, e: Emitted)
    requires e in Polled(prior, rows, digest, PolledLevel)
    ensures IdOf(e.id, BareId(e.row, digest))
  {
    var cands := Candidates(rows, PolledLevel);
    var name: EvacuationPoll.Naming := r => EventId(r, digest);
    IdsOfGroups(prior, IdOrder(cands, name), cands, name, e);
    GroupIdIsBare(e.row, digest);
  }

  /** The order in which the zones of one id are numbered: by county, then from
      south to north, then from west to east; a zone without geometry stands at 0, 0. */
  lemma AGroupIsInOrder(prior: seq<Ids.Event>, id: string, g: seq<Cand>, i: nat, j: nat)
    requires i < j < |Resolved(prior, id, g)|
    ensures var a, b := Resolved(prior, id, g)[i].row, Resolved(prior, id, g)[j].row;
      var alat, alng := if a.at.At? then a.at.lat else 0.0, if a.at.At? then a.at.lng else 0.0;
      var blat, blng := if b.at.At? then b.at.lat else 0.0, if b.at.At? then b.at.lng else 0.0;
      Less(a.county, b.county) || (a.county == b.county && (alat < blat || (alat == blat && alng <= blng)))
  {
    var ws := SortStable(Winners(g));
    BeforeIsAnOrder();
    SortSorts(Winners(g), Before);
    assert !Before(ws[j], ws[i]);
    assert Resolved(prior, id, g)[i].row == Sources(Resolved(prior, id, g))[i].row;
    assert Resolved(prior, id, g)[j].row == Sources(Resolved(prior, id, g))[j].row;
    LessTotal(ws[i].row.county, ws[j].row.county);
  }

  // ------------------------------------------------------ the row that speaks for a zone

  function Whole(cl: Cluster): seq<Cand> {
    [cl.first] + cl.others
  }

  function OfKey(cands: seq<Cand>, key: Key): seq<Cand> {
    Filter(cands, (c: Cand) => KeyOf(c.row) == key)
  }

  /** A cluster lists the candidates of its zone as they came. */
  lemma {:induction false} ClustersAreInOrder(cands: seq<Cand>)
    ensures forall i :: 0 <= i < |Clusters(cands)| ==> Whole(Clusters(cands)[i]) == OfKey(cands, KeyOf(Clusters(cands)[i].first.row))
  {
    if cands != [] {
      var front, c := cands[..|cands| - 1], cands[|cands| - 1];
      ClustersAreInOrder(front);
      ClustersPartition(front);
      var was, now := Clusters(front), Clusters(cands);
      var p := FirstMatch(was, c);
      forall i | 0 <= i < |now| ensures Whole(now[i]) == OfKey(cands, KeyOf(now[i].first.row)) {
        if i == |was| {
          NoneOfKey(front, was, KeyOf(c.row));
        } else if i == p {
          assert Whole(now[i]) == Whole(was[i]) + [c];
        } else {
          assert now[i] == was[i] && KeyOf(was[i].first.row) != KeyOf(c.row);
        }
      }
    }
  }

  lemma {:induction false} FilterNone<T>(s: seq<T>, p: T -> bool)
    requires forall x :: x in s ==> !p(x)
    ensures Filter(s, p) == []
  {
    if s != [] {
      FilterNone(s[..|s| - 1], p);
    }
  }

  lemma NoneOfKey(cands: seq<Cand>, cls: seq<Cluster>, key: Key)
    requires Partition(cls, cands) && forall i :: 0 <= i < |cls| ==> KeyOf(cls[i].first.row) != key
    ensures OfKey(cands, key) == []
  {
    FilterNone(cands, (c: Cand) => KeyOf(c.row) == key);
  }

  /** The first of the strongest: no weaker than any, and stronger than all before it. */
  predicate FirstOfStrongest(cs: seq<Cand>, w: Cand) {
    exists k :: 0 <= k < |cs| && cs[k] == w
      && (forall j :: 0 <= j < k ==> !Levels.AtLeast(cs[j].level, w.level))
      && (forall j :: 0 <= j < |cs| ==> Levels.AtLeast(w.level, cs[j].level))
  }

  lemma {:induction false} BestIsFirst(cl: Cluster, n: nat)
    requires n <= |cl.others|
    ensures FirstOfStrongest([cl.first] + cl.others[..n], Best(cl, n))
  {
    if n == 0 {
      Levels.RankIsAtLeast(cl.first.level, cl.first.level);
      assert ([cl.first] + cl.others[..0])[0] == cl.first;
    } else {
      BestIsFirst(cl, n - 1);
      var before, last := [cl.first] + cl.others[..n - 1], cl.others[n - 1];
      assert [cl.first] + cl.others[..n] == before + [last];
      OneMoreCandidate(before, last, Best(cl, n - 1));
    }
  }

  lemma OneMoreCandidate(before: seq<Cand>, last: Cand, b: Cand)
    requires FirstOfStrongest(before, b)
    ensures FirstOfStrongest(before + [last], if Rank(last.level) > Rank(b.level) then last else b)
  {
    forall x: Level, y: Level ensures Rank(x) >= Rank(y) <==> Levels.AtLeast(x, y) {
      Levels.RankIsAtLeast(x, y);
    }
    var k :| 0 <= k < |before| && before[k] == b && (forall j :: 0 <= j < k ==> !Levels.AtLeast(before[j].level, b.level))
      && (forall j :: 0 <= j < |before| ==> Levels.AtLeast(b.level, before[j].level));
    var all := before + [last];
    if Rank(last.level) > Rank(b.level) {
      assert all[|before|] == last;
    } else {
      assert all[k] == b;
    }
  }

  /** The row that speaks for a zone is the first listed of the zone's strongest. */
  lemma TheFirstOfTheStrongestSpeaks(cands: seq<Cand>, w: Cand)
    requires w in Winners(cands)
    ensures FirstOfStrongest(Filter(cands, (c: Cand) => KeyOf(c.row) == KeyOf(w.row)), w)
  {
    var i :| 0 <= i < |Winners(cands)| && Winners(cands)[i] == w;
    var cl := Clusters(cands)[i];
    ClustersAreInOrder(cands);
    ClustersPartition(cands);
    BestIsFirst(cl, |cl.others|);
    assert cl.others[..|cl.others|] == cl.others;
    assert In(w, cl);
    assert OfKey(cands, KeyOf(w.row)) == Filter(cands, (c: Cand) => KeyOf(c.row) == KeyOf(w.row));
  }
}
