/** Evacuation event ids across polls: assignEvacContinuityIDs of
  internal/ingest/evacuation.go, for the zones of one base id.

  A zone's id must not change while it is evacuating: the resolve sweep reads a
  vanished id as an all-clear. */
module EvacuationIds {
  import opened Wrappers
  import opened Text

  /** Centroids over the reals; Unknown is an event without geometry. */
  datatype Centroid = Unknown | At(lat: real, lng: real)

  datatype Distance = Infinite | Finite(sq: real)

  /** centroidDistSq: infinite when either centroid is missing. */
  function DistSq(a: Centroid, b: Centroid): Distance {
    if a.Unknown? || b.Unknown? then Infinite
    else Finite(Square(a.lat - b.lat) + Square(a.lng - b.lng))
  }

  function Square(x: real): real {
    x * x
  }

  lemma SquareNonNegative(x: real)
    ensures Square(x) >= 0.0 && (Square(x) == 0.0 <==> x == 0.0)
  {
    if x != 0.0 {
      assert Square(x) / x == x;
    }
  }

  lemma DistSqZero(a: Centroid, b: Centroid)
    requires a.At? && b.At?
    ensures DistSq(a, b).Finite? && DistSq(a, b).sq >= 0.0 && (DistSq(a, b).sq == 0.0 <==> a == b)
  {
    SquareNonNegative(a.lat - b.lat);
    SquareNonNegative(a.lng - b.lng);
  }

  /** What id assignment reads of an event already stored, and of a new winner. */
  datatype Event = Event(id: string, zone: Zone)
  datatype Zone = Zone(county: string, at: Centroid)

  function Candidate(base: string, i: nat): string
    requires i >= 1
  {
    if i == 1 then base else base + "-" + Decimal(i)
  }

  lemma CandidateInjective(base: string, i: nat, j: nat)
    requires i >= 1 && j >= 1 && Candidate(base, i) == Candidate(base, j)
    ensures i == j
  {
    if i > 1 && j > 1 {
      var s, t := Candidate(base, i), Candidate(base, j);
      assert Decimal(i) == s[|base| + 1..] && Decimal(j) == t[|base| + 1..];
      DecimalInjective(i, j);
    }
  }

  predicate SharesBase(id: string, base: string) {
    id == base || base + "-" <= id
  }

  function Siblings(prior: seq<Event>, base: string): (r: seq<Event>)
    ensures forall e :: e in r <==> e in prior && SharesBase(e.id, base)
  {
    if prior == [] then []
    else if SharesBase(prior[0].id, base) then [prior[0]] + Siblings(prior[1..], base)
    else Siblings(prior[1..], base)
  }

  // ------------------------------------------------------------ the assignment

  datatype Nearest = Nobody | Found(id: string, sq: real)

  predicate Eligible(w: Zone, e: Event, taken: set<string>) {
    e.id !in taken && e.zone.county == w.county && DistSq(e.zone.at, w.at).Finite?
  }

  /** The first of the nearest same-county prior events not yet taken, among the first n. */
  function NearestOf(w: Zone, priors: seq<Event>, taken: set<string>, n: nat): Nearest
    requires n <= |priors|
  {
    if n == 0 then Nobody
    else
      var best := NearestOf(w, priors, taken, n - 1);
      var e := priors[n - 1];
      if Eligible(w, e, taken) && (best.Nobody? || DistSq(e.zone.at, w.at).sq < best.sq)
      then Found(e.id, DistSq(e.zone.at, w.at).sq) else best
  }

  /** Pass 1: per winner, the prior id it claims; `taken` holds the claimed ids. */
  datatype Claims = Claims(ids: seq<Option<string>>, taken: set<string>)

  function Claimed(winners: seq<Zone>, priors: seq<Event>, n: nat): (r: Claims)
    requires n <= |winners|
    ensures |r.ids| == n
  {
    if n == 0 then Claims([], {})
    else
      var c := Claimed(winners, priors, n - 1);
      match NearestOf(winners[n - 1], priors, c.taken, |priors|)
      case Nobody => Claims(c.ids + [None], c.taken)
      case Found(id, _) => Claims(c.ids + [Some(id)], c.taken + {id})
  }

  ghost function UsedBelow(base: string, k: nat): set<string> {
    set i | 1 <= i < k :: Candidate(base, i)
  }

  lemma FreshCandidate(base: string, taken: set<string>, k: nat)
    requires k >= 1 && Candidate(base, k) in taken
    ensures taken - UsedBelow(base, k + 1) < taken - UsedBelow(base, k)
  {
    if Candidate(base, k) in UsedBelow(base, k) {
      var i :| 1 <= i < k && Candidate(base, i) == Candidate(base, k);
      CandidateInjective(base, i, k);
    }
    assert Candidate(base, k) in UsedBelow(base, k + 1);
    assert UsedBelow(base, k) <= UsedBelow(base, k + 1);
  }

  /** The least suffix from k on whose id is free. It exists: suffixes are distinct. */
  function LowestFree(base: string, taken: set<string>, k: nat): (i: nat)
    requires k >= 1
    ensures i >= k && Candidate(base, i) !in taken
    ensures forall j :: k <= j < i ==> Candidate(base, j) in taken
    decreases taken - UsedBelow(base, k)
  {
    if Candidate(base, k) !in taken then k
    else FreshCandidate(base, taken, k); LowestFree(base, taken, k + 1)
  }

  /** Pass 2: the rest take the lowest free suffix, in order. */
  datatype Filled = Filled(ids: seq<string>, taken: set<string>)

  function FilledUp(base: string, c: Claims, n: nat): (r: Filled)
    requires n <= |c.ids|
    ensures |r.ids| == n
  {
    if n == 0 then Filled([], c.taken)
    else
      var f := FilledUp(base, c, n - 1);
      match c.ids[n - 1]
      case Some(id) => Filled(f.ids + [id], f.taken)
      case None =>
        var id := Candidate(base, LowestFree(base, f.taken, 1));
        Filled(f.ids + [id], f.taken + {id})
  }

  /** The ids assignEvacContinuityIDs gives, aligned with the winners. */
  function Assigned(prior: seq<Event>, base: string, winners: seq<Zone>): (ids: seq<string>)
    ensures |ids| == |winners|
  {
    FilledUp(base, Claimed(winners, Siblings(prior, base), |winners|), |winners|).ids
  }

  method AssignContinuityIds(prior: seq<Event>, base: string, winners: seq<Zone>) returns (ids: seq<string>)
    ensures ids == Assigned(prior, base, winners)
  {
    var priors := Siblings(prior, base);
    var takenPrior: set<string> := {};
    var claimed: seq<Option<string>> := [];
    for n := 0 to |winners|
      invariant Claims(claimed, takenPrior) == Claimed(winners, priors, n)
    {
      var best := Nobody;
      for m := 0 to |priors|
        invariant best == NearestOf(winners[n], priors, takenPrior, m)
      {
        var e := priors[m];
        if e.id !in takenPrior && e.zone.county == winners[n].county {
          var d := DistSq(e.zone.at, winners[n].at);
          if d.Finite? && (best.Nobody? || d.sq < best.sq) {
            best := Found(e.id, d.sq);
          }
        }
      }
      if best.Found? {
        takenPrior := takenPrior + {best.id};
        claimed := claimed + [Some(best.id)];
      } else {
        claimed := claimed + [None];
      }
    }
    ghost var c := Claims(claimed, takenPrior);
    var taken := takenPrior;
    ids := [];
    for n := 0 to |winners|
      invariant Filled(ids, taken) == FilledUp(base, c, n)
    {
      if claimed[n].Some? {
        ids := ids + [claimed[n].value];
      } else {
        var id, i := base, 2;
        while id in taken
          invariant i >= 2 && id == Candidate(base, i - 1)
          invariant LowestFree(base, taken, 1) == LowestFree(base, taken, i - 1)
          decreases taken - UsedBelow(base, i - 1)
        {
          FreshCandidate(base, taken, i - 1);
          id := base + "-" + Decimal(i);
          i := i + 1;
        }
        ids := ids + [id];
        taken := taken + {id};
      }
    }
  }

  // ------------------------------------------------------------- distinct ids

  ghost predicate Distinct<T(!new)>(s: seq<T>) {
    forall i, j :: 0 <= i < j < |s| ==> s[i] != s[j]
  }

  lemma {:induction false} NearestIsEligible(w: Zone, priors: seq<Event>, taken: set<string>, n: nat)
    requires n <= |priors|
    ensures var r := NearestOf(w, priors, taken, n);
      && (r.Nobody? ==> forall m :: 0 <= m < n ==> !Eligible(w, priors[m], taken))
      && (r.Found? ==> exists m :: (0 <= m < n && Eligible(w, priors[m], taken) && priors[m].id == r.id
                                   && DistSq(priors[m].zone.at, w.at).sq == r.sq))
      && (r.Found? ==> forall m :: 0 <= m < n && Eligible(w, priors[m], taken) ==>
                          r.sq <= DistSq(priors[m].zone.at, w.at).sq)
  {
    if n > 0 {
      NearestIsEligible(w, priors, taken, n - 1);
    }
  }

  ghost predicate Offers(priors: seq<Event>, county: string, id: string) {
    exists m :: 0 <= m < |priors| && priors[m].id == id && priors[m].zone.county == county
  }

  /** `taken` is exactly the set of the claims. */
  lemma {:induction false} TakenAreClaims(winners: seq<Zone>, priors: seq<Event>, n: nat)
    requires n <= |winners|
    ensures forall id :: id in Claimed(winners, priors, n).taken <==> Some(id) in Claimed(winners, priors, n).ids
  {
    if n > 0 {
      TakenAreClaims(winners, priors, n - 1);
    }
  }

  /** A claim is of a prior id of the county that no earlier winner claimed. */
  lemma LastClaim(winners: seq<Zone>, priors: seq<Event>, n: nat)
    requires 0 < n <= |winners|
    ensures var before, claim := Claimed(winners, priors, n - 1), Claimed(winners, priors, n).ids[n - 1];
      && Claimed(winners, priors, n).ids[..n - 1] == before.ids
      && (claim.Some? ==> Some(claim.value) !in before.ids && Offers(priors, winners[n - 1].county, claim.value))
  {
    TakenAreClaims(winners, priors, n - 1);
    NearestIsEligible(winners[n - 1], priors, Claimed(winners, priors, n - 1).taken, |priors|);
  }

  /** Claims are pairwise distinct prior ids, and `taken` is exactly the set of them. */
  lemma {:induction false} ClaimsDistinct(winners: seq<Zone>, priors: seq<Event>, n: nat)
    requires n <= |winners|
    ensures var c := Claimed(winners, priors, n);
      && (forall i :: 0 <= i < n && c.ids[i].Some? ==>
            (c.ids[i].value in c.taken && Offers(priors, winners[i].county, c.ids[i].value)))
      && (forall i, j :: 0 <= i < j < n && c.ids[i].Some? ==> c.ids[i] != c.ids[j])
      && (forall id :: id in c.taken ==> exists i :: 0 <= i < n && c.ids[i] == Some(id))
  {
    TakenAreClaims(winners, priors, n);
    if n > 0 {
      var before, c := Claimed(winners, priors, n - 1).ids, Claimed(winners, priors, n).ids;
      ClaimsDistinct(winners, priors, n - 1);
      LastClaim(winners, priors, n);
      assert c == before + [c[n - 1]];
      forall i | 0 <= i < n && c[i].Some? ensures Offers(priors, winners[i].county, c[i].value) {
        assert i < n - 1 ==> c[i] == before[i];
      }
      forall i, j | 0 <= i < j < n && c[i].Some? ensures c[i] != c[j] {
        assert c[i] in before;
      }
    }
  }

  ghost predicate GoodClaims(c: Claims) {
    && (forall i :: 0 <= i < |c.ids| && c.ids[i].Some? ==> c.ids[i].value in c.taken)
    && (forall i, j :: 0 <= i < j < |c.ids| && c.ids[i].Some? ==> c.ids[i] != c.ids[j])
  }

  lemma {:induction false} FilledDistinct(base: string, c: Claims, n: nat)
    requires n <= |c.ids| && GoodClaims(c)
    ensures var f := FilledUp(base, c, n);
      && c.taken <= f.taken
      && (forall i :: 0 <= i < n ==> f.ids[i] in f.taken)
      && Distinct(f.ids)
      && (forall i :: 0 <= i < n && c.ids[i].Some? ==> f.ids[i] == c.ids[i].value)
      && (forall i :: 0 <= i < n && c.ids[i].None? ==> f.ids[i] !in c.taken)
  {
    if n > 0 {
      FilledDistinct(base, c, n - 1);
    }
  }

  /** The ids of one collision group are pairwise distinct. */
  lemma IdsDistinct(prior: seq<Event>, base: string, winners: seq<Zone>)
    ensures Distinct(Assigned(prior, base, winners))
  {
    ClaimsDistinct(winners, Siblings(prior, base), |winners|);
    FilledDistinct(base, Claimed(winners, Siblings(prior, base), |winners|), |winners|);
  }

  /** A zone without a prior takes the lowest suffix no other winner wears. */
  lemma {:induction false} LowestSuffix(base: string, c: Claims, n: nat, i: nat)
    requires i < n <= |c.ids| && c.ids[i].None?
    requires forall id :: id in c.taken ==> exists j :: 0 <= j < |c.ids| && c.ids[j] == Some(id)
    ensures var f := FilledUp(base, c, n);
      exists k: nat :: (k >= 1 && f.ids[i] == Candidate(base, k)
        && forall j: nat :: 1 <= j < k ==> Some(Candidate(base, j)) in c.ids || Candidate(base, j) in f.ids[..i])
  {
    if i < n - 1 {
      LowestSuffix(base, c, n - 1, i);
      assert FilledUp(base, c, n).ids[..i] == FilledUp(base, c, n - 1).ids[..i];
    } else {
      var f := FilledUp(base, c, i);
      var k := LowestFree(base, f.taken, 1);
      FilledTaken(base, c, i);
      assert FilledUp(base, c, n).ids[..i] == f.ids;
      assert FilledUp(base, c, n).ids[i] == Candidate(base, k);
      forall j: nat | 1 <= j < k ensures Some(Candidate(base, j)) in c.ids || Candidate(base, j) in f.ids {
        assert Candidate(base, j) in f.taken;
      }
    }
  }

  lemma {:induction false} FilledTaken(base: string, c: Claims, n: nat)
    requires n <= |c.ids|
    ensures var f := FilledUp(base, c, n); forall id :: id in f.taken ==> id in c.taken || id in f.ids
  {
    if n > 0 {
      FilledTaken(base, c, n - 1);
      var f, f' := FilledUp(base, c, n - 1), FilledUp(base, c, n);
      forall id | id in f'.taken ensures id in c.taken || id in f'.ids {
        if id in f.ids {
          assert f.ids <= f'.ids;
        } else if id !in c.taken {
          assert f'.ids[n - 1] == id;
        }
      }
    }
  }

  lemma NewZonesTakeTheLowestSuffix(prior: seq<Event>, base: string, winners: seq<Zone>, i: nat)
    requires i < |winners|
    requires Claimed(winners, Siblings(prior, base), |winners|).ids[i].None?
    ensures var ids := Assigned(prior, base, winners);
      exists k: nat :: (k >= 1 && ids[i] == Candidate(base, k) && forall j: nat :: 1 <= j < k ==> Candidate(base, j) in ids)
  {
    var c := Claimed(winners, Siblings(prior, base), |winners|);
    ClaimsDistinct(winners, Siblings(prior, base), |winners|);
    LowestSuffix(base, c, |winners|, i);
    FilledDistinct(base, c, |winners|);
    var ids := Assigned(prior, base, winners);
    var k: nat :| k >= 1 && ids[i] == Candidate(base, k)
      && forall j: nat :: 1 <= j < k ==> Some(Candidate(base, j)) in c.ids || Candidate(base, j) in ids[..i];
    forall j: nat | 1 <= j < k ensures Candidate(base, j) in ids {
      if Some(Candidate(base, j)) in c.ids {
        var m :| 0 <= m < |c.ids| && c.ids[m] == Some(Candidate(base, j));
        assert ids[m] == Candidate(base, j);
      }
    }
  }

  // ------------------------------------------------------ no prior id vanishes

  ghost function IdsOf(priors: seq<Event>, county: string): set<string> {
    set e | e in priors && e.zone.county == county :: e.id
  }

  function CountOf(winners: seq<Zone>, county: string, n: nat): nat
    requires n <= |winners|
  {
    if n == 0 then 0 else CountOf(winners, county, n - 1) + (if winners[n - 1].county == county then 1 else 0)
  }

  ghost predicate DistinctIds(priors: seq<Event>) {
    forall e, e' :: e in priors && e' in priors && e.id == e'.id ==> e == e'
  }

  /** Every prior and every winner of the county has a position. */
  ghost predicate Located(priors: seq<Event>, winners: seq<Zone>, county: string) {
    && (forall e :: e in priors && e.zone.county == county ==> e.zone.at.At?)
    && (forall w :: w in winners && w.county == county ==> w.at.At?)
  }

  function Min(a: nat, b: nat): nat {
    if a < b then a else b
  }

  function TakenAfter(w: Zone, priors: seq<Event>, taken: set<string>): set<string> {
    match NearestOf(w, priors, taken, |priors|)
    case Nobody => taken
    case Found(id, _) => taken + {id}
  }

  lemma AddMember(taken: set<string>, P: set<string>, id: string)
    ensures id in P && id !in taken ==> |(taken + {id}) * P| == |taken * P| + 1 <= |P|
    ensures id !in P ==> (taken + {id}) * P == taken * P
  {
    if id in P && id !in taken {
      assert (taken + {id}) * P == taken * P + {id};
      SubsetSize(taken * P + {id}, P);
    }
  }

  lemma NobodyMeansAllTaken(w: Zone, priors: seq<Event>, taken: set<string>)
    requires Located(priors, [w], w.county) && NearestOf(w, priors, taken, |priors|).Nobody?
    ensures taken * IdsOf(priors, w.county) == IdsOf(priors, w.county)
  {
    assert w in [w];
    NearestIsEligible(w, priors, taken, |priors|);
    forall id | id in IdsOf(priors, w.county) ensures id in taken {
      var e :| e in priors && e.zone.county == w.county && e.id == id;
      var m :| 0 <= m < |priors| && priors[m] == e;
      assert !Eligible(w, priors[m], taken);
    }
  }

  lemma ClaimStep(w: Zone, priors: seq<Event>, taken: set<string>, county: string)
    requires DistinctIds(priors) && Located(priors, [w], county)
    ensures var P := IdsOf(priors, county);
      |TakenAfter(w, priors, taken) * P| ==
        if w.county == county then Min(|taken * P| + 1, |P|) else |taken * P|
  {
    var P := IdsOf(priors, county);
    match NearestOf(w, priors, taken, |priors|)
    case Nobody =>
      if w.county == county { NobodyMeansAllTaken(w, priors, taken); }
    case Found(id, _) =>
      NearestIsEligible(w, priors, taken, |priors|);
      var m :| 0 <= m < |priors| && Eligible(w, priors[m], taken) && priors[m].id == id;
      assert w.county == county ==> priors[m].id in P;
      assert w.county != county ==> priors[m].id !in P;
      AddMember(taken, P, id);
  }

  lemma {:induction false} ClaimsPerCounty(winners: seq<Zone>, priors: seq<Event>, county: string, n: nat)
    requires n <= |winners| && DistinctIds(priors) && Located(priors, winners, county)
    ensures |Claimed(winners, priors, n).taken * IdsOf(priors, county)|
            == Min(CountOf(winners, county, n), |IdsOf(priors, county)|)
  {
    if n == 0 {
      assert {} * IdsOf(priors, county) == {};
    } else {
      ClaimsPerCounty(winners, priors, county, n - 1);
      ClaimStep(winners[n - 1], priors, Claimed(winners, priors, n - 1).taken, county);
    }
  }

  lemma SubsetSize<T>(a: set<T>, b: set<T>)
    requires a <= b
    ensures |a| <= |b| && (|a| == |b| ==> a == b)
  {
    assert |b| == |a| + |b - a| by { assert b == a + (b - a); }
    if |a| == |b| { assert b - a == {}; }
  }

  /** In each county whose zones have positions, exactly min(winners, priors)
      prior ids are inherited; so while at least as many zones remain there as
      were stored, none of the stored ids vanishes. */
  lemma NoIdVanishes(prior: seq<Event>, base: string, winners: seq<Zone>, county: string)
    requires var priors := Siblings(prior, base);
      DistinctIds(priors) && Located(priors, winners, county)
    ensures var P := IdsOf(Siblings(prior, base), county); var n := CountOf(winners, county, |winners|);
      var inherited := Claimed(winners, Siblings(prior, base), |winners|).taken * P;
      && |inherited| == Min(n, |P|)
      && (forall id :: id in inherited ==> id in Assigned(prior, base, winners))
      && (n >= |P| ==> forall id :: id in P ==> id in Assigned(prior, base, winners))
  {
    var priors := Siblings(prior, base);
    var c := Claimed(winners, priors, |winners|);
    var P := IdsOf(priors, county);
    ClaimsPerCounty(winners, priors, county, |winners|);
    ClaimsDistinct(winners, priors, |winners|);
    FilledDistinct(base, c, |winners|);
    forall id | id in c.taken ensures id in Assigned(prior, base, winners) {
      var i :| 0 <= i < |winners| && c.ids[i] == Some(id);
      assert Assigned(prior, base, winners)[i] == id;
    }
    if CountOf(winners, county, |winners|) >= |P| {
      SubsetSize(c.taken * P, P);
    }
  }

  // -------------------------------------------- a zone that stays keeps its id

  /** Each winner with a position is a stored zone, and no two stored siblings,
      and no two winners, share a county and a position. Winners without one are
      not restricted. */
  ghost predicate OnlyLifts(priors: seq<Event>, winners: seq<Zone>) {
    && DistinctIds(priors)
    && (forall e, e' :: e in priors && e' in priors && e.zone == e'.zone && e.zone.at.At? ==> e == e')
    && (forall i, j :: 0 <= i < j < |winners| && winners[i].at.At? ==> winners[i] != winners[j])
    && (forall w :: w in winners && w.at.At? ==> exists e :: e in priors && e.zone == w)
  }

  ghost predicate Stored(priors: seq<Event>, w: Zone, id: string) {
    Event(id, w) in priors
  }

  /** A free event at the winner's own position beats every other. */
  lemma NearestIsExact(w: Zone, priors: seq<Event>, taken: set<string>, e: Event)
    requires e in priors && e.zone == w && w.at.At? && e.id !in taken
    requires forall e' :: e' in priors && e'.zone == w ==> e' == e
    ensures NearestOf(w, priors, taken, |priors|) == Found(e.id, 0.0)
  {
    var m :| 0 <= m < |priors| && priors[m] == e;
    DistSqZero(e.zone.at, w.at);
    assert Eligible(w, priors[m], taken);
    NearestIsEligible(w, priors, taken, |priors|);
    var r := NearestOf(w, priors, taken, |priors|);
    var m' :| 0 <= m' < |priors| && Eligible(w, priors[m'], taken) && priors[m'].id == r.id
      && DistSq(priors[m'].zone.at, w.at).sq == r.sq;
    DistSqZero(priors[m'].zone.at, w.at);
    assert priors[m'] in priors && priors[m'].zone == w;
  }

  /** The claim of a winner: the id it is stored under, or none without a position. */
  ghost predicate ClaimsOwn(priors: seq<Event>, w: Zone, claim: Option<string>) {
    if w.at.At? then claim.Some? && Stored(priors, w, claim.value) else claim == None
  }

  lemma {:induction false} NowhereNobody(w: Zone, priors: seq<Event>, taken: set<string>, n: nat)
    requires n <= |priors| && w.at == Unknown
    ensures NearestOf(w, priors, taken, n) == Nobody
  {
    if n > 0 {
      NowhereNobody(w, priors, taken, n - 1);
    }
  }

  /** The first n winners claim their own events and nothing else. */
  ghost predicate ClaimOwn(winners: seq<Zone>, priors: seq<Event>, n: nat, c: Claims)
    requires n <= |winners|
  {
    && |c.ids| == n
    && (forall i :: 0 <= i < n ==> ClaimsOwn(priors, winners[i], c.ids[i]))
    && (forall id :: id in c.taken ==> OwnedBefore(winners, priors, n, id))
  }

  ghost predicate OwnedBefore(winners: seq<Zone>, priors: seq<Event>, n: nat, id: string)
    requires n <= |winners|
  {
    exists i :: 0 <= i < n && winners[i].at.At? && Stored(priors, winners[i], id)
  }

  lemma OneMoreOwned(winners: seq<Zone>, priors: seq<Event>, n: nat, id: string)
    requires 0 < n <= |winners| && OwnedBefore(winners, priors, n - 1, id)
    ensures OwnedBefore(winners, priors, n, id)
  {
  }

  lemma {:induction false} ExactMatchClaims(winners: seq<Zone>, priors: seq<Event>, n: nat)
    requires n <= |winners| && OnlyLifts(priors, winners)
    ensures ClaimOwn(winners, priors, n, Claimed(winners, priors, n))
  {
    if n > 0 {
      ExactMatchClaims(winners, priors, n - 1);
      var c := Claimed(winners, priors, n - 1);
      forall id | id in c.taken ensures OwnedBefore(winners, priors, n, id) {
        OneMoreOwned(winners, priors, n, id);
      }
      if winners[n - 1].at.At? {
        OwnEventIsFree(winners, priors, n, c.taken);
        var r := NearestOf(winners[n - 1], priors, c.taken, |priors|);
        assert OwnedBefore(winners, priors, n, r.id);
      } else {
        NowhereNobody(winners[n - 1], priors, c.taken, |priors|);
      }
    }
  }

  lemma OwnEventIsFree(winners: seq<Zone>, priors: seq<Event>, n: nat, taken: set<string>)
    requires 0 < n <= |winners| && OnlyLifts(priors, winners) && winners[n - 1].at.At?
    requires forall id :: id in taken ==> OwnedBefore(winners, priors, n - 1, id)
    ensures var r := NearestOf(winners[n - 1], priors, taken, |priors|); r.Found? && Stored(priors, winners[n - 1], r.id)
  {
    var w := winners[n - 1];
    assert w in winners;
    var e :| e in priors && e.zone == w;
    assert e == Event(e.id, w);
    forall i | 0 <= i < n - 1 && winners[i].at.At? ensures !Stored(priors, winners[i], e.id) {
      assert winners[i] != winners[n - 1];
    }
    NearestIsExact(w, priors, taken, e);
  }

  /** Lifting colliding siblings never flips a survivor's id: each winner with a
      position keeps exactly the id it is stored under. */
  lemma SurvivorsKeepTheirIds(prior: seq<Event>, base: string, winners: seq<Zone>)
    requires OnlyLifts(Siblings(prior, base), winners)
    ensures var ids := Assigned(prior, base, winners);
      forall i :: 0 <= i < |winners| && winners[i].at.At? ==> Event(ids[i], winners[i]) in prior
  {
    var priors := Siblings(prior, base);
    var c := Claimed(winners, priors, |winners|);
    ExactMatchClaims(winners, priors, |winners|);
    ClaimsDistinct(winners, priors, |winners|);
    FilledDistinct(base, c, |winners|);
    forall i | 0 <= i < |winners| && winners[i].at.At? ensures Event(Assigned(prior, base, winners)[i], winners[i]) in prior {
      assert ClaimsOwn(priors, winners[i], c.ids[i]);
    }
  }

  // ------------------------------------------------------------ runs of polls

  /** What one poll stores for this base id. */
  function Emitted(prior: seq<Event>, base: string, winners: seq<Zone>): (r: seq<Event>)
    ensures |r| == |winners|
  {
    var ids := Assigned(prior, base, winners);
    seq(|winners|, i requires 0 <= i < |winners| => Event(ids[i], winners[i]))
  }

  function Polls(stored: seq<Event>, base: string, rounds: seq<seq<Zone>>): seq<Event>
    decreases |rounds|
  {
    if rounds == [] then stored else Polls(Emitted(stored, base, rounds[0]), base, rounds[1..])
  }

  ghost function Members(winners: seq<Zone>): set<Zone> {
    set w | w in winners
  }

  ghost function ZonesOf(stored: seq<Event>): set<Zone> {
    set e | e in stored :: e.zone
  }

  /** No newcomer: each poll's zones, in whatever order, are among those of the
      poll before; each has a position and no two are the same. */
  ghost predicate OnlyLiftsRun(live: set<Zone>, rounds: seq<seq<Zone>>)
    decreases |rounds|
  {
    rounds == [] ||
    (&& Distinct(rounds[0])
     && (forall w :: w in rounds[0] ==> w.at.At? && w in live)
     && OnlyLiftsRun(Members(rounds[0]), rounds[1..]))
  }

  ghost predicate OneEventPerZone(stored: seq<Event>) {
    && DistinctIds(stored)
    && (forall e, e' :: e in stored && e' in stored && e.zone == e'.zone ==> e == e')
  }

  lemma OneLift(stored: seq<Event>, base: string, winners: seq<Zone>)
    requires OneEventPerZone(stored) && Distinct(winners)
    requires forall w :: w in winners ==> w.at.At? && w in ZonesOf(stored)
    requires forall e :: e in stored ==> SharesBase(e.id, base)
    ensures var next := Emitted(stored, base, winners);
      && (forall e :: e in next ==> e in stored) && OneEventPerZone(next)
      && ZonesOf(next) == Members(winners)
  {
    var next := Emitted(stored, base, winners);
    SurvivorsKeepTheirIds(stored, base, winners);
    forall w | w in winners ensures w in ZonesOf(next) {
      var i :| 0 <= i < |winners| && winners[i] == w;
      assert next[i].zone == w;
    }
  }

  /** Over a run of polls in which zones are only lifted, in any order and any
      number at a time, every zone still listed is stored under the id it had at
      the start: the sweep never sees the id of a live zone disappear. */
  lemma {:induction false} IdsNeverFlip(stored: seq<Event>, base: string, rounds: seq<seq<Zone>>)
    requires OneEventPerZone(stored) && OnlyLiftsRun(ZonesOf(stored), rounds)
    requires forall e :: e in stored ==> SharesBase(e.id, base)
    ensures forall e :: e in Polls(stored, base, rounds) ==> e in stored
    ensures rounds != [] ==> ZonesOf(Polls(stored, base, rounds)) == Members(rounds[|rounds| - 1])
    decreases |rounds|
  {
    if rounds != [] {
      var next := Emitted(stored, base, rounds[0]);
      OneLift(stored, base, rounds[0]);
      assert OnlyLiftsRun(ZonesOf(next), rounds[1..]);
      IdsNeverFlip(next, base, rounds[1..]);
      assert Polls(stored, base, rounds) == Polls(next, base, rounds[1..]);
      if |rounds| > 1 {
        assert rounds[1..][|rounds| - 2] == rounds[|rounds| - 1];
      }
    }
  }
}
