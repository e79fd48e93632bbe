/** Taking over ids by a match that must be unique in both directions
  (adoptLegacyClosureIDs of internal/ingest/lane_closure.go), for any match. */
module Adoption {

  /** hit(j, i): old event j matches new event i. */
  type Hit = (nat, nat) -> bool

  /** The new events that old event j matches, among the first n. */
  function Hits(hit: Hit, j: nat, n: nat): (hits: seq<nat>)
    ensures forall i: nat :: i in hits <==> i < n && hit(j, i)
    ensures forall a, b :: 0 <= a < b < |hits| ==> hits[a] < hits[b]
  {
    if n == 0 then []
    else
      var before := Hits(hit, j, n - 1);
      assert forall a :: 0 <= a < |before| ==> before[a] in before;
      if hit(j, n - 1) then before + [n - 1] else before
  }

  /** How many of the first k old events match new event i. */
  function Claims(hit: Hit, k: nat, i: nat): nat {
    if k == 0 then 0 else Claims(hit, k - 1, i) + if hit(k - 1, i) then 1 else 0
  }

  /** Old event j and new event i match each other and nothing else. */
  ghost predicate Mutual(hit: Hit, olds: nat, news: nat, j: nat, i: nat) {
    && j < olds && i < news && Only(hit, j, news, i)
    && (forall x :: 0 <= x < olds && x != j ==> !hit(x, i))
  }

  ghost predicate Only(hit: Hit, j: nat, n: nat, i: nat) {
    hit(j, i) && forall x: nat :: x < n && x != i ==> !hit(j, x)
  }

  lemma OnlyHit(hit: Hit, j: nat, n: nat, i: nat)
    requires i < n
    ensures Hits(hit, j, n) == [i] <==> Only(hit, j, n, i)
  {
    var hits := Hits(hit, j, n);
    if Only(hit, j, n, i) {
      assert i in hits;
      assert forall a :: 0 <= a < |hits| ==> hits[a] in hits;
      assert forall a :: 0 <= a < |hits| ==> hits[a] == i;
      var least, greatest := hits[0], hits[|hits| - 1];
      assert |hits| > 1 ==> least < greatest;
      assert hits == [i];
    }
    if hits == [i] {
      assert i in hits && hit(j, i);
      forall x: nat | x < n && x != i ensures !hit(j, x) {
        assert x !in hits;
      }
    }
  }

  lemma {:induction false} NoClaims(hit: Hit, k: nat, i: nat)
    ensures Claims(hit, k, i) == 0 <==> forall x :: 0 <= x < k ==> !hit(x, i)
  {
    if k > 0 {
      NoClaims(hit, k - 1, i);
    }
  }

  lemma {:induction false} OnlyClaim(hit: Hit, k: nat, i: nat, j: nat)
    requires j < k && hit(j, i)
    ensures Claims(hit, k, i) >= 1
    ensures Claims(hit, k, i) == 1 <==> forall x :: 0 <= x < k && x != j ==> !hit(x, i)
  {
    NoClaims(hit, k - 1, i);
    if j < k - 1 {
      OnlyClaim(hit, k - 1, i, j);
    }
  }

  /** The ids after the old events before k had their turn. */
  ghost predicate Adopted(now: seq<string>, was: seq<string>, oldIds: seq<string>, hit: Hit, k: nat)
    requires |now| == |was| && k <= |oldIds|
  {
    forall i :: 0 <= i < |was| ==>
      && (forall j :: 0 <= j < k && Mutual(hit, |oldIds|, |was|, j, i) ==> now[i] == oldIds[j])
      && ((forall j :: 0 <= j < k ==> !Mutual(hit, |oldIds|, |was|, j, i)) ==> now[i] == was[i])
  }

  function Get<V>(m: map<string, V>, k: string, none: V): V {
    if k in m then m[k] else none
  }

  /** The maps built by the first pair of loops. */
  ghost predicate Counted(matches: map<string, seq<nat>>, claims: map<string, nat>, ids: seq<string>, oldIds: seq<string>, hit: Hit)
  {
    && (forall j :: 0 <= j < |oldIds| ==> Get(matches, oldIds[j], []) == Hits(hit, j, |ids|))
    && (forall i :: 0 <= i < |ids| ==> Get(claims, ids[i], 0) == Claims(hit, |oldIds|, i))
  }

  ghost predicate Distinct(ids: seq<string>) {
    forall a, b :: 0 <= a < |ids| && 0 <= b < |ids| && a != b ==> ids[a] != ids[b]
  }

  method CountMatches(ids: seq<string>, oldIds: seq<string>, hit: Hit) returns (matches: map<string, seq<nat>>, claims: map<string, nat>)
    requires Distinct(ids) && Distinct(oldIds)
    ensures Counted(matches, claims, ids, oldIds, hit)
  {
    matches, claims := map[], map[];
    for j := 0 to |oldIds|
      invariant MatchesSoFar(matches, oldIds, hit, j, |ids|, 0)
      invariant ClaimsSoFar(claims, ids, hit, j, 0)
    {
      for i := 0 to |ids|
        invariant MatchesSoFar(matches, oldIds, hit, j, |ids|, i)
        invariant ClaimsSoFar(claims, ids, hit, j, i)
      {
        CountOne(matches, claims, ids, oldIds, hit, j, i);
        if !hit(j, i) {
          continue;
        }
        matches := matches[oldIds[j] := Get(matches, oldIds[j], []) + [i]];
        claims := claims[ids[i] := Get(claims, ids[i], 0) + 1];
      }
    }
  }

  /** The maps after the old events before j, and after new event i of old event j. */
  ghost predicate MatchesSoFar(matches: map<string, seq<nat>>, oldIds: seq<string>, hit: Hit, j: nat, n: nat, i: nat) {
    forall x :: 0 <= x < |oldIds| ==>
      Get(matches, oldIds[x], []) == if x < j then Hits(hit, x, n) else if x == j then Hits(hit, j, i) else []
  }

  ghost predicate ClaimsSoFar(claims: map<string, nat>, ids: seq<string>, hit: Hit, j: nat, i: nat) {
    forall x :: 0 <= x < |ids| ==> Get(claims, ids[x], 0) == Claims(hit, if x < i then j + 1 else j, x)
  }

  lemma CountOne(matches: map<string, seq<nat>>, claims: map<string, nat>, ids: seq<string>, oldIds: seq<string>, hit: Hit, j: nat, i: nat)
    requires Distinct(ids) && Distinct(oldIds) && j < |oldIds| && i < |ids|
    requires MatchesSoFar(matches, oldIds, hit, j, |ids|, i) && ClaimsSoFar(claims, ids, hit, j, i)
    ensures !hit(j, i) ==> MatchesSoFar(matches, oldIds, hit, j, |ids|, i + 1) && ClaimsSoFar(claims, ids, hit, j, i + 1)
    ensures hit(j, i) ==>
      && MatchesSoFar(matches[oldIds[j] := Get(matches, oldIds[j], []) + [i]], oldIds, hit, j, |ids|, i + 1)
      && ClaimsSoFar(claims[ids[i] := Get(claims, ids[i], 0) + 1], ids, hit, j, i + 1)
  {
    assert Get(matches, oldIds[j], []) == Hits(hit, j, i);
    assert Get(claims, ids[i], 0) == Claims(hit, j, i);
  }

  /** Exactly the mutually unique matches are adopted, although the claims are
      looked up by ids that earlier adoptions have already rewritten. */
  method AdoptIds(ids: array<string>, oldIds: seq<string>, hit: Hit)
    requires Distinct(ids[..]) && Distinct(oldIds)
    modifies ids
    ensures Adopted(ids[..], old(ids[..]), oldIds, hit, |oldIds|)
  {
    ghost var was := ids[..];
    var matches, claims := CountMatches(ids[..], oldIds, hit);
    for j := 0 to |oldIds|
      invariant Adopted(ids[..], was, oldIds, hit, j)
    {
      var cands := Get(matches, oldIds[j], []);
      ghost var before := ids[..];
      assert forall c :: c in cands ==> c < ids.Length;
      assert |cands| > 0 ==> cands[0] in cands;
      if |cands| != 1 || Get(claims, ids[cands[0]], 0) != 1 {
        NotMutual(before, was, oldIds, hit, j, matches, claims);
        continue;
      }
      ids[cands[0]] := oldIds[j];
      IsMutual(before, was, oldIds, hit, j, matches, claims, cands[0]);
    }
  }

  lemma NotMutual(now: seq<string>, was: seq<string>, oldIds: seq<string>, hit: Hit, j: nat, matches: map<string, seq<nat>>, claims: map<string, nat>)
    requires j < |oldIds| && |now| == |was| && Counted(matches, claims, was, oldIds, hit) && Adopted(now, was, oldIds, hit, j)
    requires var cands := Get(matches, oldIds[j], []); |cands| != 1 || (cands[0] < |now| && Get(claims, now[cands[0]], 0) != 1)
    ensures Adopted(now, was, oldIds, hit, j + 1)
  {
    forall i | 0 <= i < |was| ensures !Mutual(hit, |oldIds|, |was|, j, i) {
      MutualIffOnlyBoth(hit, |oldIds|, |was|, j, i);
      NotYetAdopted(now, was, oldIds, hit, j, i);
    }
  }

  lemma IsMutual(before: seq<string>, was: seq<string>, oldIds: seq<string>, hit: Hit, j: nat, matches: map<string, seq<nat>>, claims: map<string, nat>, c: nat)
    requires j < |oldIds| && |before| == |was| && Counted(matches, claims, was, oldIds, hit) && Adopted(before, was, oldIds, hit, j)
    requires Get(matches, oldIds[j], []) == [c] && c < |before| && Get(claims, before[c], 0) == 1
    ensures Adopted(before[c := oldIds[j]], was, oldIds, hit, j + 1)
  {
    assert c in Hits(hit, j, |was|);
    NotYetAdopted(before, was, oldIds, hit, j, c);
    MutualIffOnlyBoth(hit, |oldIds|, |was|, j, c);
    forall i | 0 <= i < |was| && i != c ensures !Mutual(hit, |oldIds|, |was|, j, i) {
    }
  }

  lemma MutualIffOnlyBoth(hit: Hit, olds: nat, news: nat, j: nat, i: nat)
    requires j < olds && i < news
    ensures Mutual(hit, olds, news, j, i) <==> Hits(hit, j, news) == [i] && Claims(hit, olds, i) == 1
  {
    OnlyHit(hit, j, news, i);
    if hit(j, i) {
      OnlyClaim(hit, olds, i, j);
    }
  }

  /** A new event that old event j matches has not been taken by another. */
  lemma NotYetAdopted(now: seq<string>, was: seq<string>, oldIds: seq<string>, hit: Hit, j: nat, i: nat)
    requires j < |oldIds| && i < |was| == |now| && Adopted(now, was, oldIds, hit, j)
    ensures hit(j, i) ==> now[i] == was[i]
  {
  }

  /** No id is taken twice: with old ids apart from each other and from the new
      ones, the ids after adoption are pairwise distinct. */
  lemma AdoptionKeepsIdsDistinct(now: seq<string>, was: seq<string>, oldIds: seq<string>, hit: Hit)
    requires |now| == |was| && Adopted(now, was, oldIds, hit, |oldIds|) && Distinct(was) && Distinct(oldIds)
    requires forall i, j :: 0 <= i < |was| && 0 <= j < |oldIds| ==> was[i] != oldIds[j]
    ensures Distinct(now)
  {
    forall a, b | 0 <= a < |now| && 0 <= b < |now| && a != b ensures now[a] != now[b] {
      var x := Source(now, was, oldIds, hit, a);
      var y := Source(now, was, oldIds, hit, b);
      assert x < |oldIds| && y < |oldIds| ==> x != y;
    }
  }

  /** Where an id after adoption comes from: an old event, or (|oldIds|) the new one itself. */
  lemma Source(now: seq<string>, was: seq<string>, oldIds: seq<string>, hit: Hit, i: nat) returns (j: nat)
    requires i < |was| == |now| && Adopted(now, was, oldIds, hit, |oldIds|)
    ensures j <= |oldIds|
    ensures if j < |oldIds| then Mutual(hit, |oldIds|, |was|, j, i) && now[i] == oldIds[j] else now[i] == was[i]
  {
    if exists j :: 0 <= j < |oldIds| && Mutual(hit, |oldIds|, |was|, j, i) {
      j :| 0 <= j < |oldIds| && Mutual(hit, |oldIds|, |was|, j, i);
    } else {
      j := |oldIds|;
    }
  }

  /** Each old id is taken by at most one new event, and only by its mutual match. */
  lemma AdoptionIsAPartialInjection(now: seq<string>, was: seq<string>, oldIds: seq<string>, hit: Hit, i: nat, j: nat)
    requires i < |was| == |now| && j < |oldIds| && Adopted(now, was, oldIds, hit, |oldIds|) && Distinct(oldIds) && was[i] != oldIds[j]
    ensures now[i] == oldIds[j] <==> Mutual(hit, |oldIds|, |was|, j, i)
  {
    var x := Source(now, was, oldIds, hit, i);
    assert x < |oldIds| && x != j ==> oldIds[x] != oldIds[j];
  }
}
