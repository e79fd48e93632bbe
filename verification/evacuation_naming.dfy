/** Which ids zones get, in the ids' own letters and the zones' own coordinates
  (assignEvacContinuityIDs of internal/ingest/evacuation.go). */
module EvacuationNaming {
  import opened Wrappers
  import opened Text
  import opened EvacuationIds
  import opened EvacuationSurvivors

  /** The stored events that may hand on their ids: the base's own, and those with a suffix. */
  lemma SiblingsAre(prior: seq<Event>, base: string, e: Event)
    ensures e in Siblings(prior, base) <==> e in prior && (e.id == base || base + "-" <= e.id)
  {
  }

  // ------------------------------------------------------------ one zone, two priors

  function Pair(base: string, z1: Zone, z2: Zone): seq<Event> {
    [Event(base, z1), Event(base + "-2", z2)]
  }

  lemma PairIsKept(base: string, z1: Zone, z2: Zone)
    ensures Siblings(Pair(base, z1, z2), base) == Pair(base, z1, z2)
  {
    var p := Pair(base, z1, z2);
    assert base + "-" <= base + "-2";
    assert p[1..] == [p[1]] && p[1..][1..] == [];
    assert Siblings(p[1..], base) == [p[1]] + Siblings([], base);
  }

  lemma OneClaim(w: Zone, priors: seq<Event>)
    ensures Claimed([w], priors, 1).ids == [match NearestOf(w, priors, {}, |priors|) case Nobody => None case Found(id, _) => Some(id)]
  {
    assert Claimed([w], priors, 0) == Claims([], {});
  }

  lemma OneAssigned(prior: seq<Event>, base: string, w: Zone)
    ensures Assigned(prior, base, [w]) == [match NearestOf(w, Siblings(prior, base), {}, |Siblings(prior, base)|) case Nobody => base case Found(id, _) => id]
  {
    var priors := Siblings(prior, base);
    var c := Claimed([w], priors, 1);
    OneClaim(w, priors);
    assert Claimed([w], priors, 0) == Claims([], {});
    assert FilledUp(base, c, 0) == Filled([], c.taken);
  }

  lemma NearestOfPair(w: Zone, base: string, z1: Zone, z2: Zone)
    requires z1.county == z2.county == w.county && z1.at.At? && z2.at.At? && w.at.At?
    ensures var p, d1, d2 := Pair(base, z1, z2), DistSq(z1.at, w.at).sq, DistSq(z2.at, w.at).sq;
      NearestOf(w, p, {}, 2) == if d2 < d1 then Found(base + "-2", d2) else Found(base, d1)
  {
    var p := Pair(base, z1, z2);
    assert NearestOf(w, p, {}, 0) == Nobody;
    assert NearestOf(w, p, {}, 1) == Found(base, DistSq(z1.at, w.at).sq);
  }

  lemma DistanceIs(a: Centroid, c: Centroid)
    requires a.At? && c.At?
    ensures DistSq(a, c) == Finite((a.lat - c.lat) * (a.lat - c.lat) + (a.lng - c.lng) * (a.lng - c.lng))
  {
  }

  /** A zone gets the id of the nearer of the two zones stored in its county, by
      the straight-line distance of the coordinates; of the first if both are as near. */
  lemma TheNearerIdIsInherited(base: string, z1: Zone, z2: Zone, w: Zone)
    requires z1.county == z2.county == w.county && z1.at.At? && z2.at.At? && w.at.At?
    ensures var a, b, c := z1.at, z2.at, w.at;
      var d1 := (a.lat - c.lat) * (a.lat - c.lat) + (a.lng - c.lng) * (a.lng - c.lng);
      var d2 := (b.lat - c.lat) * (b.lat - c.lat) + (b.lng - c.lng) * (b.lng - c.lng);
      Assigned([Event(base, z1), Event(base + "-2", z2)], base, [w]) == [if d2 < d1 then base + "-2" else base]
  {
    PairIsKept(base, z1, z2);
    OneAssigned(Pair(base, z1, z2), base, w);
    NearestOfPair(w, base, z1, z2);
    DistanceIs(z1.at, w.at);
    DistanceIs(z2.at, w.at);
  }

  /** So a zone stored under a suffix keeps it when the zone with the bare id is lifted. */
  lemma ASuffixSurvivesALift(base: string, z1: Zone, z2: Zone)
    requires z1.county == z2.county && z1.at.At? && z2.at.At? && z1 != z2
    ensures Assigned([Event(base, z1), Event(base + "-2", z2)], base, [z2]) == [base + "-2"]
  {
    TheNearerIdIsInherited(base, z1, z2, z2);
    DistSqZero(z1.at, z2.at);
  }

  /** A zone of another county, or one without a position, leaves its id to no one. */
  lemma OthersLeaveNoId(base: string, z: Zone, w: Zone)
    requires z.county != w.county || z.at == Unknown || w.at == Unknown
    ensures Assigned([Event(base + "-2", z)], base, [w]) == [base]
  {
    var p := [Event(base + "-2", z)];
    assert base + "-" <= base + "-2";
    assert Siblings(p[1..], base) == [];
    assert Siblings(p, base) == p;
    OneAssigned(p, base, w);
    assert NearestOf(w, p, {}, 0) == Nobody;
  }

  // ---------------------------------------------------------------- every group

  /** Without a prior, a group is numbered in its order: the bare id, then -2, -3 ... */
  lemma AFirstPollNumbers(prior: seq<Event>, base: string, winners: seq<Zone>, i: nat)
    requires i < |winners| && forall e :: e in prior ==> e.id != base && !(base + "-" <= e.id)
    ensures Assigned(prior, base, winners)[i] == if i == 0 then base else base + "-" + Decimal(i + 1)
  {
    var priors, n := Siblings(prior, base), |winners|;
    NoSiblings(prior, base);
    var c := Claimed(winners, priors, n);
    NothingClaimed(winners, n);
    var k := UnclaimedGets(base, c, n, i);
    AllUnclaimed(c.ids, i);
    AllFree(base, k);
  }

  lemma {:induction false} NoSiblings(prior: seq<Event>, base: string)
    requires forall e :: e in prior ==> e.id != base && !(base + "-" <= e.id)
    ensures Siblings(prior, base) == []
  {
    if prior != [] {
      assert prior[0] in prior;
      NoSiblings(prior[1..], base);
    }
  }

  lemma {:induction false} NothingClaimed(winners: seq<Zone>, n: nat)
    requires n <= |winners|
    ensures Claimed(winners, [], n).taken == {} && forall i :: 0 <= i < n ==> Claimed(winners, [], n).ids[i] == None
  {
    if n > 0 {
      NothingClaimed(winners, n - 1);
    }
  }

  lemma {:induction false} AllUnclaimed(ids: seq<Option<string>>, n: nat)
    requires n <= |ids| && forall i :: 0 <= i < n ==> ids[i] == None
    ensures Unclaimed(ids, n) == n
  {
    if n > 0 {
      AllUnclaimed(ids, n - 1);
    }
  }

  lemma {:induction false} AllFree(base: string, k: nat)
    requires k >= 1
    ensures FreeBelow(base, {}, k) == k - 1
  {
    if k > 1 {
      AllFree(base, k - 1);
    }
  }

  /** Every id of a group is its base, or the base and a suffix. */
  lemma IdsAreOfTheBase(prior: seq<Event>, base: string, winners: seq<Zone>, i: nat)
    requires i < |winners|
    ensures var id := Assigned(prior, base, winners)[i]; id == base || base + "-" <= id
  {
    var priors, n := Siblings(prior, base), |winners|;
    var c := Claimed(winners, priors, n);
    ClaimsDistinct(winners, priors, n);
    FilledDistinct(base, c, n);
    if c.ids[i].Some? {
      var m :| 0 <= m < |priors| && priors[m].id == c.ids[i].value && priors[m].zone.county == winners[i].county;
      assert priors[m] in priors;
    } else {
      FilledInTurn(base, c, n, i);
    }
  }

  lemma {:induction false} AllAreSiblings(stored: seq<Event>, base: string)
    requires forall e :: e in stored ==> e.id == base || base + "-" <= e.id
    ensures Siblings(stored, base) == stored
  {
    if stored != [] {
      assert stored[0] in stored;
      AllAreSiblings(stored[1..], base);
      assert stored == [stored[0]] + stored[1..];
    }
  }

  /** Everything a poll stores for a base id is looked at again by the next. */
  lemma EmittedAreSiblings(prior: seq<Event>, base: string, winners: seq<Zone>)
    ensures Siblings(Emitted(prior, base, winners), base) == Emitted(prior, base, winners)
  {
    var es := Emitted(prior, base, winners);
    forall e | e in es ensures e.id == base || base + "-" <= e.id {
      var i :| 0 <= i < |es| && es[i] == e;
      IdsAreOfTheBase(prior, base, winners, i);
    }
    AllAreSiblings(es, base);
  }

  /** From any poll on: whatever was stored before it, over a run of polls in which
      its zones are only lifted every event emitted is one that it emitted. */
  lemma IdsNeverFlipAfterAPoll(prior: seq<Event>, base: string, winners: seq<Zone>, rounds: seq<seq<Zone>>)
    requires Distinct(winners) && OnlyLiftsRun(Members(winners), rounds)
    ensures var first := Emitted(prior, base, winners);
      && (forall e :: e in Polls(first, base, rounds) ==> e in first)
      && (rounds != [] ==> ZonesOf(Polls(first, base, rounds)) == Members(rounds[|rounds| - 1]))
  {
    var first := Emitted(prior, base, winners);
    IdsDistinct(prior, base, winners);
    EmittedAreSiblings(prior, base, winners);
    EmittedZones(prior, base, winners);
    assert OneEventPerZone(first) by {
      forall e, e' | e in first && e' in first && (e.id == e'.id || e.zone == e'.zone) ensures e == e' {
        var i :| 0 <= i < |first| && first[i] == e;
        var j :| 0 <= j < |first| && first[j] == e';
      }
    }
    forall e | e in first ensures SharesBase(e.id, base) {
      assert e in Siblings(first, base);
    }
    IdsNeverFlip(first, base, rounds);
  }

  lemma EmittedZones(prior: seq<Event>, base: string, winners: seq<Zone>)
    ensures ZonesOf(Emitted(prior, base, winners)) == Members(winners)
  {
    var es := Emitted(prior, base, winners);
    forall w | w in winners ensures w in ZonesOf(es) {
      var i :| 0 <= i < |winners| && winners[i] == w;
      assert es[i].zone == w;
    }
  }
}
