/** sort.SliceStable, for any strict order: sorted, a permutation, and stable. */
module StableSort {

  type Order<!T> = (T, T) -> bool

  /** A strict weak order, as sort.Interface asks for. */
  ghost predicate IsOrder<T(!new)>(before: Order<T>) {
    && (forall a :: !before(a, a))
    && (forall a, b, c :: before(a, b) && before(b, c) ==> before(a, c))
    && (forall a, b, c :: before(a, c) ==> before(a, b) || before(b, c))
  }

  ghost predicate Sorted<T(!new)>(s: seq<T>, before: Order<T>) {
    forall i, j :: 0 <= i < j < |s| ==> !before(s[j], s[i])
  }

  function Insert<T>(s: seq<T>, x: T, before: Order<T>): (r: seq<T>)
    ensures multiset(r) == multiset(s) + multiset{x}
  {
    if s == [] || !before(x, s[|s| - 1]) then s + [x]
    else
      assert s == s[..|s| - 1] + [s[|s| - 1]];
      Insert(s[..|s| - 1], x, before) + [s[|s| - 1]]
  }

  function Sort<T>(s: seq<T>, before: Order<T>): (r: seq<T>)
    ensures multiset(r) == multiset(s)
    ensures |r| == |s|
  {
    if s == [] then []
    else
      assert s == s[..|s| - 1] + [s[|s| - 1]];
      var r := Insert(Sort(s[..|s| - 1], before), s[|s| - 1], before);
      assert |r| == |multiset(r)| && |s| == |multiset(s)|;
      r
  }

  lemma {:induction false} InsertSorted<T(!new)>(s: seq<T>, x: T, before: Order<T>)
    requires IsOrder(before) && Sorted(s, before)
    ensures Sorted(Insert(s, x, before), before)
  {
    if s != [] {
      var last, front := s[|s| - 1], s[..|s| - 1];
      if before(x, last) {
        InsertSorted(front, x, before);
        var r := Insert(front, x, before);
        forall i | 0 <= i < |r| ensures !before(last, r[i]) {
          assert r[i] in multiset(front) + multiset{x};
        }
      } else {
        forall i | 0 <= i < |s| ensures !before(x, s[i]) {
          assert !before(last, s[i]);
        }
      }
    }
  }

  lemma {:induction false} SortSorts<T(!new)>(s: seq<T>, before: Order<T>)
    requires IsOrder(before)
    ensures Sorted(Sort(s, before), before)
  {
    if s != [] {
      SortSorts(s[..|s| - 1], before);
      InsertSorted(Sort(s[..|s| - 1], before), s[|s| - 1], before);
    }
  }

  function Filter<T>(s: seq<T>, p: T -> bool): seq<T> {
    if s == [] then []
    else if p(s[|s| - 1]) then Filter(s[..|s| - 1], p) + [s[|s| - 1]]
    else Filter(s[..|s| - 1], p)
  }

  /** Elements that compare alike: none before another. */
  ghost predicate Alike<T(!new)>(p: T -> bool, before: Order<T>) {
    forall a, b :: p(a) && p(b) ==> !before(a, b)
  }

  lemma {:induction false} InsertIsStable<T(!new)>(s: seq<T>, x: T, before: Order<T>, p: T -> bool)
    requires Alike(p, before)
    ensures Filter(Insert(s, x, before), p) == if p(x) then Filter(s, p) + [x] else Filter(s, p)
  {
    if s == [] || !before(x, s[|s| - 1]) {
      assert (s + [x])[..|s|] == s;
    } else {
      var front, last := s[..|s| - 1], s[|s| - 1];
      InsertIsStable(front, x, before, p);
      var r := Insert(front, x, before);
      assert (r + [last])[..|r|] == r;
    }
  }

  /** Sorting keeps the order of the elements that compare alike. */
  lemma {:induction false} SortIsStable<T(!new)>(s: seq<T>, before: Order<T>, p: T -> bool)
    requires Alike(p, before)
    ensures Filter(Sort(s, before), p) == Filter(s, p)
  {
    if s != [] {
      SortIsStable(s[..|s| - 1], before, p);
      InsertIsStable(Sort(s[..|s| - 1], before), s[|s| - 1], before, p);
    }
  }

  /** The first n after sorting: whatever is left out comes before none of them. */
  function Top<T>(s: seq<T>, n: nat, before: Order<T>): (r: seq<T>)
    ensures |r| == if |s| > n then n else |s|
    ensures multiset(r) <= multiset(s)
  {
    var sorted := Sort(s, before);
    assert sorted == (if |sorted| > n then sorted[..n] else sorted) + (if |sorted| > n then sorted[n..] else []);
    if |sorted| > n then sorted[..n] else sorted
  }

  lemma TopIsTop<T(!new)>(s: seq<T>, n: nat, before: Order<T>, x: T, y: T)
    requires IsOrder(before) && x in Top(s, n, before) && y in multiset(s) - multiset(Top(s, n, before))
    ensures !before(y, x)
  {
    var sorted := Sort(s, before);
    SortSorts(s, before);
    var i :| 0 <= i < |Top(s, n, before)| && Top(s, n, before)[i] == x;
    if |sorted| > n {
      var j := LeftOut(sorted, n, y);
      assert !before(sorted[j], sorted[i]);
    }
  }

  lemma LeftOut<T>(s: seq<T>, n: nat, y: T) returns (j: nat)
    requires n < |s| && y in multiset(s) - multiset(s[..n])
    ensures n <= j < |s| && s[j] == y
  {
    assert s == s[..n] + s[n..];
    assert y in multiset(s[n..]);
    var k :| 0 <= k < |s[n..]| && s[n..][k] == y;
    j := n + k;
  }

  // ------------------------------------------------------- independence of input order

  lemma Without<T>(s: seq<T>, i: nat)
    requires i < |s|
    ensures multiset(s[..i] + s[i + 1..]) == multiset(s) - multiset{s[i]}
  {
    assert s == s[..i] + [s[i]] + s[i + 1..];
  }

  /** Two places of one arrangement are two places of any other. */
  lemma Elsewhere<T>(ws: seq<T>, s: seq<T>, i: nat, j: nat) returns (a: nat, b: nat)
    requires multiset(ws) == multiset(s) && i < j < |s|
    ensures a < |ws| && b < |ws| && a != b && ws[a] == s[i] && ws[b] == s[j]
  {
    assert s[i] in multiset(ws);
    a :| 0 <= a < |ws| && ws[a] == s[i];
    Without(ws, a);
    Without(s, i);
    assert (s[..i] + s[i + 1..])[j - 1] == s[j];
    assert s[j] in multiset(ws[..a] + ws[a + 1..]);
    var k :| 0 <= k < |ws| - 1 && (ws[..a] + ws[a + 1..])[k] == s[j];
    b := if k < a then k else k + 1;
  }

  /** No two places compare alike. */
  ghost predicate Apart<T(!new)>(s: seq<T>, before: Order<T>) {
    forall i, j :: 0 <= i < j < |s| ==> before(s[i], s[j]) || before(s[j], s[i])
  }

  lemma FirstIsForced<T(!new)>(s: seq<T>, t: seq<T>, before: Order<T>)
    requires s != [] && t != [] && IsOrder(before) && Sorted(s, before) && Sorted(t, before) && Apart(s, before)
    requires s[0] in t && t[0] in s
    ensures s[0] == t[0]
  {
    var i :| 0 <= i < |s| && s[i] == t[0];
    var j :| 0 <= j < |t| && t[j] == s[0];
    assert !before(s[i], s[0]);
    assert !before(t[j], t[0]);
  }

  lemma Tail<T>(s: seq<T>)
    requires s != []
    ensures s == [s[0]] + s[1..] && multiset(s[1..]) == multiset(s) - multiset{s[0]}
  {
    assert s == [s[0]] + s[1..];
  }

  /** Two sorted arrangements of elements that are all apart are the same one. */
  lemma {:induction false} SortedIsUnique<T(!new)>(s: seq<T>, t: seq<T>, before: Order<T>)
    requires IsOrder(before) && Sorted(s, before) && Sorted(t, before) && multiset(s) == multiset(t) && Apart(s, before)
    ensures s == t
    decreases |s|
  {
    assert |s| == |multiset(s)| == |multiset(t)| == |t|;
    if s != [] {
      assert s[0] in multiset(t) && t[0] in multiset(s);
      FirstIsForced(s, t, before);
      Tail(s);
      Tail(t);
      SortedIsUnique(s[1..], t[1..], before);
    }
  }

  /** Sorting forgets the order of its input when no two elements compare alike. */
  lemma SortIsCanonical<T(!new)>(s: seq<T>, t: seq<T>, before: Order<T>)
    requires IsOrder(before) && multiset(s) == multiset(t) && Apart(s, before)
    ensures Sort(s, before) == Sort(t, before)
  {
    SortSorts(s, before);
    SortSorts(t, before);
    var r := Sort(s, before);
    forall i, j | 0 <= i < j < |r| ensures before(r[i], r[j]) || before(r[j], r[i]) {
      var a, b := Elsewhere(s, r, i, j);
    }
    SortedIsUnique(r, Sort(t, before), before);
  }
}
