/** When a zone keeps its evacuation event id from one poll to the next, exactly:
  zones with a position, and zones without one. */
module EvacuationSurvivors {
  import opened Wrappers
  import opened Text
  import opened EvacuationIds

  // ------------------------------------------------------- zones with a position

  lemma SecondComesAwayEmpty(base: string, first: Zone, second: Zone, stored: Zone)
    requires first.county == second.county == stored.county && first.at.At? && stored.at.At?
    ensures Claimed([first, second], [Event(base, stored)], 2) == Claims([Some(base), None], {base})
  {
    var priors := [Event(base, stored)];
    var ws := [first, second];
    assert NearestOf(first, priors, {}, 0) == Nobody;
    assert NearestOf(first, priors, {}, 1) == Found(base, DistSq(stored.at, first.at).sq);
    assert Claimed(ws, priors, 0) == Claims([], {});
    assert Claimed(ws, priors, 1) == Claims([Some(base)], {base});
    assert NearestOf(second, priors, {base}, 1) == NearestOf(second, priors, {base}, 0) == Nobody;
  }

  /** A newcomer in the county that sorts earlier takes the survivor's id, near
      or far, and the survivor moves on to another. */
  lemma NewcomerTakesTheId(base: string, newcomer: Zone, survivor: Zone)
    requires newcomer.county == survivor.county && newcomer.at.At? && survivor.at.At?
    ensures var ids := Assigned([Event(base, survivor)], base, [newcomer, survivor]);
      ids[0] == base && ids[1] != base
  {
    var prior := [Event(base, survivor)];
    assert Siblings(prior[1..], base) == [];
    assert Siblings(prior, base) == prior;
    SecondComesAwayEmpty(base, newcomer, survivor, survivor);
    var c := Claims([Some(base), None], {base});
    FilledDistinct(base, c, 2);
  }

  /** Event m is the one a zone there claims: free, nearest, and the first of the nearest. */
  ghost predicate NearestAt(w: Zone, priors: seq<Event>, taken: set<string>, n: nat, m: nat) {
    && m < n <= |priors| && Eligible(w, priors[m], taken)
    && (forall x :: 0 <= x < m && Eligible(w, priors[x], taken) ==> DistSq(priors[m].zone.at, w.at).sq < DistSq(priors[x].zone.at, w.at).sq)
    && (forall x :: m < x < n && Eligible(w, priors[x], taken) ==> DistSq(priors[m].zone.at, w.at).sq <= DistSq(priors[x].zone.at, w.at).sq)
  }

  lemma {:induction false} NearestIsAt(w: Zone, priors: seq<Event>, taken: set<string>, n: nat) returns (m: nat)
    requires n <= |priors|
    ensures var r := NearestOf(w, priors, taken, n);
      if r.Nobody? then forall x :: 0 <= x < n ==> !Eligible(w, priors[x], taken)
      else NearestAt(w, priors, taken, n, m) && r == Found(priors[m].id, DistSq(priors[m].zone.at, w.at).sq)
  {
    m := 0;
    if n > 0 {
      m := NearestIsAt(w, priors, taken, n - 1);
      if NearestOf(w, priors, taken, n) != NearestOf(w, priors, taken, n - 1) {
        m := n - 1;
      }
    }
  }

  /** The zone at j, in its turn, finds the event e free, in its county, and nearer
      than every other free event there. */
  ghost predicate TakesFirst(winners: seq<Zone>, priors: seq<Event>, j: nat, e: Event)
    requires j < |winners|
  {
    exists m: nat :: m < |priors| && priors[m] == e && NearestAt(winners[j], priors, Claimed(winners, priors, j).taken, |priors|, m)
  }

  lemma {:induction false} ClaimsInTurn(winners: seq<Zone>, priors: seq<Event>, n: nat, j: nat)
    requires j < n <= |winners|
    ensures var r := NearestOf(winners[j], priors, Claimed(winners, priors, j).taken, |priors|);
      Claimed(winners, priors, n).ids[j] == if r.Nobody? then None else Some(r.id)
  {
    if j < n - 1 {
      ClaimsInTurn(winners, priors, n - 1, j);
    }
  }

  lemma TakesIffClaims(winners: seq<Zone>, priors: seq<Event>, n: nat, j: nat, e: Event)
    requires j < n <= |winners| && e in priors && DistinctIds(priors)
    ensures TakesFirst(winners, priors, j, e) <==> Claimed(winners, priors, n).ids[j] == Some(e.id)
  {
    var taken := Claimed(winners, priors, j).taken;
    ClaimsInTurn(winners, priors, n, j);
    var m := NearestIsAt(winners[j], priors, taken, |priors|);
    if Claimed(winners, priors, n).ids[j] == Some(e.id) {
      assert priors[m] in priors && priors[m] == e;
    }
    if TakesFirst(winners, priors, j, e) {
      var x: nat :| x < |priors| && priors[x] == e && NearestAt(winners[j], priors, taken, |priors|, x);
      assert x == m;
    }
  }

  /** Exactly which zones cost a survivor its id: those sorted before it for which
      its stored event is, when their turn comes, the nearest free one of the county. */
  lemma SurvivorKeepsItsIdIff(prior: seq<Event>, base: string, winners: seq<Zone>, i: nat, e: Event)
    requires i < |winners| && e in Siblings(prior, base) && e.zone == winners[i] && e.zone.at.At?
    requires DistinctIds(Siblings(prior, base)) && forall e' :: e' in Siblings(prior, base) && e'.zone == e.zone ==> e' == e
    ensures Assigned(prior, base, winners)[i] == e.id
      <==> forall j :: 0 <= j < i ==> !TakesFirst(winners, Siblings(prior, base), j, e)
  {
    var priors, n := Siblings(prior, base), |winners|;
    var c := Claimed(winners, priors, n);
    ClaimsDistinct(winners, priors, n);
    FilledDistinct(base, c, n);
    if j :| 0 <= j < i && TakesFirst(winners, priors, j, e) {
      TakesIffClaims(winners, priors, n, j, e);
    } else {
      FreeInTurn(winners, priors, i, e);
      NearestIsExact(winners[i], priors, Claimed(winners, priors, i).taken, e);
      ClaimsInTurn(winners, priors, n, i);
    }
  }

  lemma FreeInTurn(winners: seq<Zone>, priors: seq<Event>, i: nat, e: Event)
    requires i < |winners| && e in priors && DistinctIds(priors)
    requires forall j :: 0 <= j < i ==> !TakesFirst(winners, priors, j, e)
    ensures e.id !in Claimed(winners, priors, i).taken
  {
    ClaimsDistinct(winners, priors, i);
    forall j | 0 <= j < i ensures Claimed(winners, priors, i).ids[j] != Some(e.id) {
      TakesIffClaims(winners, priors, i, j, e);
    }
  }

  /** The stored event nearest to a zone, whoever else claims it. */
  function Choice(w: Zone, priors: seq<Event>): Nearest {
    NearestOf(w, priors, {}, |priors|)
  }

  /** The first n zones have different stored events nearest to them. */
  ghost predicate ChoicesDiffer(winners: seq<Zone>, priors: seq<Event>, n: nat)
    requires n <= |winners|
  {
    forall i, j :: 0 <= i < j < n && Choice(winners[i], priors).Found? && Choice(winners[j], priors).Found?
      ==> Choice(winners[i], priors).id != Choice(winners[j], priors).id
  }

  /** What others have taken matters only if it is the nearest event itself. */
  lemma {:induction false} Undisputed(w: Zone, priors: seq<Event>, taken: set<string>, n: nat)
    requires n <= |priors|
    ensures var r, all := NearestOf(w, priors, taken, n), NearestOf(w, priors, {}, n);
      && (r.Found? ==> all.Found? && all.sq <= r.sq)
      && (all.Found? && all.id !in taken ==> r == all)
  {
    if n > 0 {
      Undisputed(w, priors, taken, n - 1);
    }
  }

  lemma {:induction false} ChoicesAreClaimed(winners: seq<Zone>, priors: seq<Event>, n: nat)
    requires n <= |winners| && ChoicesDiffer(winners, priors, n)
    ensures forall j :: 0 <= j < n ==>
      Claimed(winners, priors, n).ids[j] == if Choice(winners[j], priors).Found? then Some(Choice(winners[j], priors).id) else None
  {
    if n > 0 {
      ChoicesAreClaimed(winners, priors, n - 1);
      TakenAreClaims(winners, priors, n - 1);
      Undisputed(winners[n - 1], priors, Claimed(winners, priors, n - 1).taken, |priors|);
    }
  }

  /** Before the poll: if the zones sorted before a survivor have different stored
      events nearest to them, it keeps its id exactly if its own is none of these. */
  lemma SurvivorKeepsItsIdIffNobodysChoice(prior: seq<Event>, base: string, winners: seq<Zone>, i: nat, e: Event)
    requires i < |winners| && e in Siblings(prior, base) && e.zone == winners[i] && e.zone.at.At?
    requires DistinctIds(Siblings(prior, base)) && forall e' :: e' in Siblings(prior, base) && e'.zone == e.zone ==> e' == e
    requires ChoicesDiffer(winners, Siblings(prior, base), i)
    ensures Assigned(prior, base, winners)[i] == e.id
      <==> forall j :: 0 <= j < i ==> var r := Choice(winners[j], Siblings(prior, base)); r.Found? ==> r.id != e.id
  {
    var priors := Siblings(prior, base);
    SurvivorKeepsItsIdIff(prior, base, winners, i, e);
    ChoicesAreClaimed(winners, priors, i);
    forall j | 0 <= j < i ensures TakesFirst(winners, priors, j, e) <==> Claimed(winners, priors, i).ids[j] == Some(e.id) {
      TakesIffClaims(winners, priors, i, j, e);
    }
  }

  // ---------------------------------------------------- zones without a position

  /** How many suffixes below k are not among the claims. */
  function FreeBelow(base: string, taken: set<string>, k: nat): (n: nat)
    ensures n <= k
  {
    if k <= 1 then 0 else FreeBelow(base, taken, k - 1) + if Candidate(base, k - 1) in taken then 0 else 1
  }

  function Unclaimed(ids: seq<Option<string>>, n: nat): nat
    requires n <= |ids|
  {
    if n == 0 then 0 else Unclaimed(ids, n - 1) + if ids[n - 1] == None then 1 else 0
  }

  /** Candidate k is the (n + 1)-th suffix that no claim has. */
  predicate IsFree(base: string, taken: set<string>, k: nat, n: nat) {
    k >= 1 && Candidate(base, k) !in taken && FreeBelow(base, taken, k) == n
  }

  lemma {:induction false} FreeBelowGrows(base: string, taken: set<string>, j: nat, k: nat)
    requires 1 <= j < k
    ensures FreeBelow(base, taken, j) + (if Candidate(base, j) in taken then 0 else 1) <= FreeBelow(base, taken, k)
  {
    if j < k - 1 {
      FreeBelowGrows(base, taken, j, k - 1);
    }
  }

  /** If every free suffix below k is one of the first n, there are at most n. */
  lemma {:induction false} FewBelow(base: string, taken: set<string>, k: nat, n: nat)
    requires forall j :: 1 <= j < k ==> Candidate(base, j) in taken || FreeBelow(base, taken, j) < n
    ensures FreeBelow(base, taken, k) <= n
  {
    if k > 1 {
      FewBelow(base, taken, k - 1, n);
    }
  }

  lemma FreeIsUnique(base: string, taken: set<string>, j: nat, k: nat, n: nat)
    requires IsFree(base, taken, j, n) && IsFree(base, taken, k, n)
    ensures j == k
  {
    if j < k { FreeBelowGrows(base, taken, j, k); }
    if k < j { FreeBelowGrows(base, taken, k, j); }
  }

  /** The suffixes in use are the claimed ones and the first n of the others. */
  ghost predicate InUse(base: string, claimed: set<string>, taken: set<string>, n: nat) {
    forall j: nat :: j >= 1 ==>
      (Candidate(base, j) in taken <==> Candidate(base, j) in claimed || FreeBelow(base, claimed, j) < n)
  }

  lemma NextFree(base: string, claimed: set<string>, taken: set<string>, n: nat)
    requires InUse(base, claimed, taken, n)
    ensures IsFree(base, claimed, LowestFree(base, taken, 1), n)
  {
    FewBelow(base, claimed, LowestFree(base, taken, 1), n);
  }

  /** Each winner without a claim puts one more suffix in use. */
  lemma {:induction false} SuffixesInUse(base: string, c: Claims, n: nat)
    requires n <= |c.ids|
    ensures InUse(base, c.taken, FilledUp(base, c, n).taken, Unclaimed(c.ids, n))
  {
    if n > 0 {
      SuffixesInUse(base, c, n - 1);
      if c.ids[n - 1] == None {
        OneMoreInUse(base, c.taken, FilledUp(base, c, n - 1).taken, Unclaimed(c.ids, n - 1));
      }
    }
  }

  lemma OneMoreInUse(base: string, claimed: set<string>, taken: set<string>, n: nat)
    requires InUse(base, claimed, taken, n)
    ensures InUse(base, claimed, taken + {Candidate(base, LowestFree(base, taken, 1))}, n + 1)
  {
    var k := LowestFree(base, taken, 1);
    NextFree(base, claimed, taken, n);
    forall j: nat | j >= 1
      ensures Candidate(base, j) in taken + {Candidate(base, k)} <==> Candidate(base, j) in claimed || FreeBelow(base, claimed, j) < n + 1
    {
      SuffixInUse(base, claimed, taken, j, k, n);
    }
  }

  lemma SuffixInUse(base: string, claimed: set<string>, taken: set<string>, j: nat, k: nat, n: nat)
    requires j >= 1 && IsFree(base, claimed, k, n)
    requires Candidate(base, j) in taken <==> Candidate(base, j) in claimed || FreeBelow(base, claimed, j) < n
    ensures Candidate(base, j) in taken + {Candidate(base, k)} <==> Candidate(base, j) in claimed || FreeBelow(base, claimed, j) < n + 1
  {
    if j != k {
      if Candidate(base, j) == Candidate(base, k) {
        CandidateInjective(base, j, k);
      }
      if IsFree(base, claimed, j, n) {
        FreeIsUnique(base, claimed, j, k, n);
      }
    }
  }

  lemma {:induction false} FilledInTurn(base: string, c: Claims, n: nat, i: nat)
    requires i < n <= |c.ids| && c.ids[i] == None
    ensures FilledUp(base, c, n).ids[i] == Candidate(base, LowestFree(base, FilledUp(base, c, i).taken, 1))
  {
    if i < n - 1 {
      FilledInTurn(base, c, n - 1, i);
    }
  }

  /** A winner without a claim gets the next suffix free of claims, in its turn. */
  lemma UnclaimedGets(base: string, c: Claims, n: nat, i: nat) returns (k: nat)
    requires i < n <= |c.ids| && c.ids[i] == None
    ensures IsFree(base, c.taken, k, Unclaimed(c.ids, i)) && FilledUp(base, c, n).ids[i] == Candidate(base, k)
  {
    k := LowestFree(base, FilledUp(base, c, i).taken, 1);
    SuffixesInUse(base, c, i);
    NextFree(base, c.taken, FilledUp(base, c, i).taken, Unclaimed(c.ids, i));
    FilledInTurn(base, c, n, i);
  }

  /** Exactly which id a zone without geometry gets: with u unclaimed zones before
      it, the (u + 1)-th suffix that no zone inherits. So that is the only id
      under which it can be stored and keep it. */
  lemma UnlocatedZoneKeepsIff(prior: seq<Event>, base: string, winners: seq<Zone>, i: nat, id: string)
    requires i < |winners| && winners[i].at == Unknown
    ensures var c := Claimed(winners, Siblings(prior, base), |winners|);
      Assigned(prior, base, winners)[i] == id
      <==> exists k :: IsFree(base, c.taken, k, Unclaimed(c.ids, i)) && id == Candidate(base, k)
  {
    var priors, n := Siblings(prior, base), |winners|;
    var c := Claimed(winners, priors, n);
    UnlocatedClaimsNothing(winners, priors, n, i);
    var own := UnclaimedGets(base, c, n, i);
    if k :| IsFree(base, c.taken, k, Unclaimed(c.ids, i)) && id == Candidate(base, k) {
      FreeIsUnique(base, c.taken, k, own, Unclaimed(c.ids, i));
    }
  }

  lemma UnlocatedClaimsNothing(winners: seq<Zone>, priors: seq<Event>, n: nat, i: nat)
    requires i < n <= |winners| && winners[i].at == Unknown
    ensures Claimed(winners, priors, n).ids[i] == None
  {
    ClaimsInTurn(winners, priors, n, i);
    NowhereNobody(winners[i], priors, Claimed(winners, priors, i).taken, |priors|);
  }

  /** The ids of the stored zones with a position that are still listed. */
  ghost function LocatedIds(priors: seq<Event>, winners: seq<Zone>): set<string> {
    set e | e in priors && e.zone in winners && e.zone.at.At? :: e.id
  }

  function UnlocatedBefore(winners: seq<Zone>, n: nat): nat
    requires n <= |winners|
  {
    if n == 0 then 0 else UnlocatedBefore(winners, n - 1) + if winners[n - 1].at == Unknown then 1 else 0
  }

  lemma {:induction false} UnclaimedAreUnlocated(winners: seq<Zone>, ids: seq<Option<string>>, n: nat)
    requires n <= |winners| == |ids|
    requires forall i :: 0 <= i < n ==> (ids[i] == None <==> winners[i].at == Unknown)
    ensures Unclaimed(ids, n) == UnlocatedBefore(winners, n)
  {
    if n > 0 {
      UnclaimedAreUnlocated(winners, ids, n - 1);
    }
  }

  /** While zones with a position are only lifted, this can be read off before the
      poll: a stored zone without geometry keeps its id iff that is the base id
      with the suffix that is, among those no listed stored zone with a position
      has, as far down as the zone is among the listed zones without one. */
  lemma UnlocatedSurvivorKeepsItsIdIff(prior: seq<Event>, base: string, winners: seq<Zone>, i: nat, id: string)
    requires i < |winners| && winners[i].at == Unknown && OnlyLifts(Siblings(prior, base), winners)
    ensures Assigned(prior, base, winners)[i] == id
      <==> exists k :: IsFree(base, LocatedIds(Siblings(prior, base), winners), k, UnlocatedBefore(winners, i)) && id == Candidate(base, k)
  {
    var priors, n := Siblings(prior, base), |winners|;
    var c := Claimed(winners, priors, n);
    UnlocatedZoneKeepsIff(prior, base, winners, i, id);
    ExactMatchClaims(winners, priors, n);
    forall j | 0 <= j < n ensures c.ids[j] == None <==> winners[j].at == Unknown {
      assert ClaimsOwn(priors, winners[j], c.ids[j]);
    }
    UnclaimedAreUnlocated(winners, c.ids, i);
    TakenAreLocated(winners, priors);
  }

  lemma TakenAreLocated(winners: seq<Zone>, priors: seq<Event>)
    requires OnlyLifts(priors, winners)
    ensures Claimed(winners, priors, |winners|).taken == LocatedIds(priors, winners)
  {
    var c := Claimed(winners, priors, |winners|);
    ExactMatchClaims(winners, priors, |winners|);
    ClaimsDistinct(winners, priors, |winners|);
    forall id | id in c.taken ensures id in LocatedIds(priors, winners) {
      var i :| 0 <= i < |winners| && winners[i].at.At? && Stored(priors, winners[i], id);
      assert winners[i] in winners && Event(id, winners[i]) in priors;
    }
    forall e | e in priors && e.zone in winners && e.zone.at.At? ensures e.id in c.taken {
      var i :| 0 <= i < |winners| && winners[i] == e.zone;
      assert ClaimsOwn(priors, winners[i], c.ids[i]);
      assert e == Event(c.ids[i].value, winners[i]);
    }
  }

  /** So a lone survivor without geometry always falls back to the bare base id,
      whatever it was stored under. So it keeps its id exactly if that is the
      base id: a suffixed zone without geometry loses its id as soon as its
      colliding siblings are lifted, and the sweep reads that as an all-clear. */
  lemma UnlocatedSurvivorKeepsOnlyTheBareId(prior: seq<Event>, base: string, id: string, county: string)
    requires Event(id, Zone(county, Unknown)) in prior
    ensures Assigned(prior, base, [Zone(county, Unknown)]) == [base]
    ensures id == Assigned(prior, base, [Zone(county, Unknown)])[0] <==> id == base
  {
    var ws, priors := [Zone(county, Unknown)], Siblings(prior, base);
    NowhereNobody(ws[0], priors, {}, |priors|);
    assert Claimed(ws, priors, 0) == Claims([], {});
    assert Claimed(ws, priors, 1).taken == {};
    assert IsFree(base, {}, 1, 0);
    UnlocatedZoneKeepsIff(prior, base, ws, 0, base);
  }
}
