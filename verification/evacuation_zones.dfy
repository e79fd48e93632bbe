/** When a Cal OES poll (internal/ingest/evacuation.go) gives each zone one event.
  A row's id skips blank columns and the comparison of zones does not, so rows of
  one zone can be polled under two ids. */
module EvacuationZones {
  import opened Wrappers
  import opened Text
  import opened EvacuationPoll
  import Ids = EvacuationIds

  /** Candidates of one zone that are named by `ids` are named alike. */
  ghost predicate Unsplit(cands: seq<Cand>, ids: seq<string>, name: Naming) {
    forall a, b :: a in cands && b in cands && name(a.row) in ids && name(b.row) in ids && KeyOf(a.row) == KeyOf(b.row) ==>
      name(a.row) == name(b.row)
  }

  lemma DistinctParts(ws: seq<Cand>, more: seq<Cand>)
    ensures DistinctZones(ws + more) <==>
      && DistinctZones(ws) && DistinctZones(more)
      && forall i, j :: 0 <= i < |ws| && 0 <= j < |more| ==> KeyOf(ws[i].row) != KeyOf(more[j].row)
  {
    var all := ws + more;
    if DistinctZones(all) {
      forall i, j | 0 <= i < |ws| && 0 <= j < |more| ensures KeyOf(ws[i].row) != KeyOf(more[j].row) {
        assert all[i] == ws[i] && all[|ws| + j] == more[j];
      }
      forall i, j | 0 <= i < j < |more| ensures KeyOf(more[i].row) != KeyOf(more[j].row) {
        assert all[|ws| + i] == more[i] && all[|ws| + j] == more[j];
      }
      forall i, j | 0 <= i < j < |ws| ensures KeyOf(ws[i].row) != KeyOf(ws[j].row) {
        assert all[i] == ws[i] && all[j] == ws[j];
      }
    }
  }

  /** Two groups give events of one zone exactly when candidates of that zone are in both. */
  lemma GroupsMeetIff(ws: seq<Cand>, more: seq<Cand>, cands: seq<Cand>, g: seq<Cand>, ids: seq<string>, id: string, name: Naming)
    requires Done(ws, cands, ids, name) && Represents(more, g) && id !in ids
    requires forall c :: c in g <==> c in cands && name(c.row) == id
    ensures (forall i, j :: 0 <= i < |ws| && 0 <= j < |more| ==> KeyOf(ws[i].row) != KeyOf(more[j].row))
      <==> forall a, b :: a in cands && b in g && name(a.row) in ids ==> KeyOf(a.row) != KeyOf(b.row)
  {
    if forall i, j :: 0 <= i < |ws| && 0 <= j < |more| ==> KeyOf(ws[i].row) != KeyOf(more[j].row) {
      forall a, b | a in cands && b in g && name(a.row) in ids ensures KeyOf(a.row) != KeyOf(b.row) {
        var i :| 0 <= i < |ws| && StandsFor(ws[i], a);
        assert Covered(more, b);
        var j :| 0 <= j < |more| && StandsFor(more[j], b);
      }
    }
  }

  lemma UnsplitOneMore(cands: seq<Cand>, ids: seq<string>, id: string, name: Naming)
    requires id !in ids
    ensures Unsplit(cands, ids + [id], name) <==>
      && Unsplit(cands, ids, name)
      && forall a, b :: a in cands && b in cands && name(b.row) == id && name(a.row) in ids ==> KeyOf(a.row) != KeyOf(b.row)
  {
  }

  lemma OneGroupMore(ws: seq<Cand>, more: seq<Cand>, cands: seq<Cand>, g: seq<Cand>, ids: seq<string>, id: string, name: Naming)
    requires Done(ws, cands, ids, name) && Represents(more, g) && id !in ids
    requires forall c :: c in g <==> c in cands && name(c.row) == id
    requires DistinctZones(ws) <==> Unsplit(cands, ids, name)
    ensures DistinctZones(ws + more) <==> Unsplit(cands, ids + [id], name)
  {
    DistinctParts(ws, more);
    GroupsMeetIff(ws, more, cands, g, ids, id, name);
    UnsplitOneMore(cands, ids, id, name);
  }

  /** What the proof carries from group to group. */
  ghost predicate DistinctSoFar(ids: seq<string>, ws: seq<Cand>, cands: seq<Cand>, name: Naming) {
    DistinctZones(ws) <==> Unsplit(cands, ids, name)
  }

  lemma LastIsNew(ids: seq<string>)
    requires ids != [] && forall i, j :: 0 <= i < j < |ids| ==> ids[i] != ids[j]
    ensures var front, id := ids[..|ids| - 1], ids[|ids| - 1];
      id !in front && ids == front + [id] && forall i, j :: 0 <= i < j < |front| ==> front[i] != front[j]
  {
  }

  lemma {:induction false} GroupsAreDistinctIff(ids: seq<string>, block: string -> seq<Cand>, cands: seq<Cand>, name: Naming)
    requires BlocksRepresent(block, cands, name) && forall i, j :: 0 <= i < j < |ids| ==> ids[i] != ids[j]
    ensures DistinctSoFar(ids, Gathered(ids, block), cands, name)
  {
    if ids != [] {
      var front, id := ids[..|ids| - 1], ids[|ids| - 1];
      LastIsNew(ids);
      GroupsAreDistinctIff(front, block, cands, name);
      AllGroupsDone(front, block, cands, name);
      BlockMore(front, id, block, cands, name);
    }
  }

  lemma BlockMore(ids: seq<string>, id: string, block: string -> seq<Cand>, cands: seq<Cand>, name: Naming)
    requires BlocksRepresent(block, cands, name) && id !in ids
    requires Done(Gathered(ids, block), cands, ids, name) && DistinctSoFar(ids, Gathered(ids, block), cands, name)
    ensures DistinctSoFar(ids + [id], Gathered(ids, block) + block(id), cands, name)
  {
    OneGroupMore(Gathered(ids, block), block(id), cands, Group(cands, id, name), ids, id, name);
  }

  type Likeness = (Row, Row) -> bool

  /** What two rows of one zone need to share an id. */
  function SharedNames(digest: Digest): Likeness {
    (a, b) => !Padded(a) || NamedAlike(a, b, digest)
  }

  /** No two kept rows of one zone are unlike. */
  ghost predicate SplitsNone(rows: seq<Row>, level: Classifier, alike: Likeness) {
    forall a, b :: a in rows && b in rows && level(a.status).Some? && level(b.status).Some? && KeyOf(a) == KeyOf(b) ==> alike(a, b)
  }

  /** No two rows kept from the feed are of one zone but named apart. Poll keeps
      those whose status PolledLevel classifies. */
  ghost predicate NoZoneSplit(rows: seq<Row>, digest: Digest, level: Classifier) {
    SplitsNone(rows, level, SharedNames(digest))
  }

  /** Rows of one zone are named alike exactly when they are alike. */
  ghost predicate NamesBy(name: Naming, alike: Likeness) {
    forall a, b :: KeyOf(a) == KeyOf(b) ==> (name(a) == name(b) <==> alike(a, b))
  }

  lemma IdsNameBy(digest: Digest, name: Naming)
    requires forall r :: name(r) == EventId(r, digest)
    ensures NamesBy(name, SharedNames(digest))
  {
    forall a, b | KeyOf(a) == KeyOf(b) ensures name(a) == name(b) <==> SharedNames(digest)(a, b) {
      SameZoneIsEqualityOfKeys(a, b);
      RowsOfAZoneShareAnIdIff(a, b, digest);
    }
  }

  lemma UnsplitIffSplitsNone(rows: seq<Row>, level: Classifier, ids: seq<string>, name: Naming, alike: Likeness)
    requires NamesBy(name, alike) && forall c :: c in Candidates(rows, level) ==> name(c.row) in ids
    ensures Unsplit(Candidates(rows, level), ids, name) <==> SplitsNone(rows, level, alike)
  {
    var cands := Candidates(rows, level);
    if Unsplit(cands, ids, name) {
      forall a, b | a in rows && b in rows && level(a.status).Some? && level(b.status).Some? && KeyOf(a) == KeyOf(b) ensures alike(a, b) {
        assert Cand(a, level(a.status).value) in cands && Cand(b, level(b.status).value) in cands;
      }
    }
  }

  lemma OneEventPerZoneBy(prior: seq<Ids.Event>, rows: seq<Row>, level: Classifier, name: Naming, alike: Likeness)
    requires NamesBy(name, alike)
    ensures var cands := Candidates(rows, level);
      DistinctZones(Sources(ResolveAll(prior, IdOrder(cands, name), cands, name))) <==> SplitsNone(rows, level, alike)
  {
    var cands := Candidates(rows, level);
    var ids := IdOrder(cands, name);
    BlocksOfAPoll(prior, cands, name);
    ResolveAllGathers(prior, ids, cands, name);
    GroupsAreDistinctIff(ids, BlockOf(prior, cands, name), cands, name);
    UnsplitIffSplitsNone(rows, level, ids, name, alike);
  }

  /** A poll emits at most one event a zone exactly when the feed splits no zone. */
  lemma OneEventPerZoneIff(prior: seq<Ids.Event>, rows: seq<Row>, digest: Digest, level: Classifier)
    ensures DistinctZones(Sources(Polled(prior, rows, digest, level))) <==> NoZoneSplit(rows, digest, level)
  {
    var name: Naming := r => EventId(r, digest);
    IdsNameBy(digest, name);
    OneEventPerZoneBy(prior, rows, level, name, SharedNames(digest));
  }

  /** However statuses are read: two kept rows with the blank zone id " " and different
      names are one zone under two ids, and are polled as two events of it. */
  lemma ABlankZoneIdSplitsAZone(prior: seq<Ids.Event>, a: Row, b: Row, digest: Digest, level: Classifier)
    requires a.zoneId == b.zoneId == " " && !Blank(a.zoneName) && !Blank(b.zoneName) && a.zoneName != b.zoneName
    requires level(a.status).Some? && level(b.status).Some?
    ensures SameZone(a, b) && EventId(a, digest) == "evac:" + a.zoneName && EventId(b, digest) == "evac:" + b.zoneName
    ensures !DistinctZones(Sources(Polled(prior, [a, b], digest, level)))
  {
    OneSpaceIsBlank();
    NamedByName(a, b, digest);
    SplitPair(prior, a, b, digest, level);
  }

  lemma OneSpaceIsBlank()
    ensures Blank(" ")
  {
    assert " "[1..] == "";
    assert TrimLeft(" ") == "";
  }

  lemma NamedByName(a: Row, b: Row, digest: Digest)
    requires a.zoneId == b.zoneId != "" && Blank(a.zoneId) && !Blank(a.zoneName) && !Blank(b.zoneName) && a.zoneName != b.zoneName
    ensures SameZone(a, b) && Padded(a) && !NamedAlike(a, b, digest)
    ensures EventId(a, digest) == "evac:" + a.zoneName && EventId(b, digest) == "evac:" + b.zoneName
  {
    BlankLabel(a, digest);
    BlankLabel(b, digest);
  }

  lemma SplitPair(prior: seq<Ids.Event>, a: Row, b: Row, digest: Digest, level: Classifier)
    requires SameZone(a, b) && Padded(a) && !NamedAlike(a, b, digest) && level(a.status).Some? && level(b.status).Some?
    ensures !DistinctZones(Sources(Polled(prior, [a, b], digest, level)))
  {
    assert a in [a, b] && b in [a, b];
    SameZoneIsEqualityOfKeys(a, b);
    assert !SharedNames(digest)(a, b);
    OneEventPerZoneIff(prior, [a, b], digest, level);
  }
}
