/** The string operations the modelled code uses, as functions on sequences of
  characters, with the laws the proofs need. */
module Text {

  // ------------------------------------------------------------------ decimal

  function Digit(d: nat): char
    requires d < 10
  {
    '0' + d as char
  }

  function Decimal(n: nat): (s: string)
    ensures |s| > 0
  {
    if n < 10 then [Digit(n)] else Decimal(n / 10) + [Digit(n % 10)]
  }

  lemma {:induction false} DecimalInjective(m: nat, n: nat)
    requires Decimal(m) == Decimal(n)
    ensures m == n
    decreases m
  {
    var s, t := Decimal(m), Decimal(n);
    assert s[|s| - 1] == Digit(m % 10) && t[|t| - 1] == Digit(n % 10);
    if m >= 10 || n >= 10 {
      assert m >= 10 ==> |s| > 1;
      assert n >= 10 ==> |t| > 1;
      assert Decimal(m / 10) == s[..|s| - 1] && Decimal(n / 10) == t[..|t| - 1];
      DecimalInjective(m / 10, n / 10);
    }
  }

  // ------------------------------------------------------------------ ordering

  /** Lexicographic order, the order of Go's < on strings. */
  predicate Less(s: string, t: string)
    decreases |s|
  {
    t != "" && (s == "" || s[0] < t[0] || (s[0] == t[0] && Less(s[1..], t[1..])))
  }

  lemma {:induction false} LessTransitive(s: string, t: string, u: string)
    requires Less(s, t) && Less(t, u)
    ensures Less(s, u)
    decreases |s|
  {
    if s != "" && s[0] == t[0] == u[0] {
      LessTransitive(s[1..], t[1..], u[1..]);
    }
  }

  lemma {:induction false} LessTotal(s: string, t: string)
    ensures !(Less(s, t) && Less(t, s))
    ensures s == t <==> !Less(s, t) && !Less(t, s)
    decreases |s|
  {
    if s != "" && t != "" && s[0] == t[0] {
      LessTotal(s[1..], t[1..]);
      assert s == [s[0]] + s[1..] && t == [t[0]] + t[1..];
    }
  }

  /** The texts are the same up to place n, and s is smaller there. */
  ghost predicate SmallerAt(s: string, t: string, n: nat) {
    n < |s| && n < |t| && s[..n] == t[..n] && s[n] < t[n]
  }

  lemma SmallerAtTail(s: string, t: string, n: nat)
    requires s != "" && t != "" && s[0] == t[0]
    ensures SmallerAt(s[1..], t[1..], n) <==> SmallerAt(s, t, n + 1)
    ensures !SmallerAt(s, t, 0)
  {
    var s', t' := s[1..], t[1..];
    if n < |s'| && n < |t'| {
      assert s[..n + 1] == [s[0]] + s'[..n] && t[..n + 1] == [t[0]] + t'[..n];
      assert s'[..n] == s[..n + 1][1..] && t'[..n] == t[..n + 1][1..];
    }
  }

  lemma SmallerAtHead(s: string, t: string, n: nat)
    requires s != "" && t != "" && s[0] != t[0]
    ensures SmallerAt(s, t, n) <==> n == 0 && s[0] < t[0]
  {
    if n > 0 && n < |s| && n < |t| {
      assert s[..n][0] == s[0] && t[..n][0] == t[0];
    }
  }

  /** One text is before another if it is a part of it from the start, or smaller where they first differ. */
  lemma {:induction false} LessIff(s: string, t: string)
    ensures Less(s, t) <==> s < t || exists n: nat :: SmallerAt(s, t, n)
    decreases |s|
  {
    if s != "" && t != "" && s[0] == t[0] {
      var s', t' := s[1..], t[1..];
      LessIff(s', t');
      assert s == [s[0]] + s' && t == [t[0]] + t';
      SmallerAtTail(s, t, 0);
      if n: nat :| SmallerAt(s', t', n) {
        SmallerAtTail(s, t, n);
      }
      if n: nat :| SmallerAt(s, t, n) {
        SmallerAtTail(s, t, n - 1);
      }
    } else if s != "" && t != "" {
      SmallerAtHead(s, t, 0);
      if n: nat :| SmallerAt(s, t, n) {
        SmallerAtHead(s, t, n);
      }
    }
  }

  // ---------------------------------------------------------------- searching

  predicate Contains(s: string, sub: string) {
    exists i | 0 <= i <= |s| :: sub <= s[i..]
  }

  function Lower(c: char): char {
    if 'A' <= c <= 'Z' then c - 'A' + 'a' else c
  }

  function Upper(c: char): char {
    if 'a' <= c <= 'z' then c - 'a' + 'A' else c
  }

  function ToLower(s: string): (r: string)
    ensures |r| == |s| && forall i :: 0 <= i < |s| ==> r[i] == Lower(s[i])
  {
    seq(|s|, i requires 0 <= i < |s| => Lower(s[i]))
  }

  /** strings.EqualFold, for ASCII. */
  predicate EqualFold(s: string, t: string) {
    ToLower(s) == ToLower(t)
  }

  // ----------------------------------------------------------------- trimming

  /** unicode.IsSpace. */
  predicate IsSpace(c: char) {
    || '\t' <= c <= '\r' || c == ' ' || c == '\U{0085}' || c == '\U{00A0}' || c == '\U{1680}' || '\U{2000}' <= c <= '\U{200A}'
    || c == '\U{2028}' || c == '\U{2029}' || c == '\U{202F}' || c == '\U{205F}' || c == '\U{3000}'
  }

  function TrimLeft(s: string): (r: string)
    ensures |r| <= |s| && r == s[|s| - |r|..]
    ensures r != "" ==> !IsSpace(r[0])
  {
    if s != "" && IsSpace(s[0]) then TrimLeft(s[1..]) else s
  }

  function TrimRight(s: string): (r: string)
    ensures r <= s
    ensures r != "" ==> !IsSpace(r[|r| - 1])
  {
    if s != "" && IsSpace(s[|s| - 1]) then TrimRight(s[..|s| - 1]) else s
  }

  function TrimSpace(s: string): string {
    TrimRight(TrimLeft(s))
  }

  lemma TrimSame(s: string)
    requires s != "" && !IsSpace(s[0]) && !IsSpace(s[|s| - 1])
    ensures TrimSpace(s) == s
  {
    assert TrimLeft(s) == s;
  }

  lemma LowerSame(s: string)
    requires forall i :: 0 <= i < |s| ==> !('A' <= s[i] <= 'Z')
    ensures ToLower(s) == s
  {
  }

  // ------------------------------------------------------ splitting and joining

  function Join(parts: seq<string>, sep: string): string {
    if |parts| == 0 then ""
    else if |parts| == 1 then parts[0]
    else parts[0] + sep + Join(parts[1..], sep)
  }

  function Split(s: string, c: char): (parts: seq<string>)
    ensures |parts| > 0
  {
    if s == "" then [""]
    else
      var rest := Split(s[1..], c);
      if s[0] == c then [""] + rest else [[s[0]] + rest[0]] + rest[1..]
  }

  lemma {:induction false} SplitParts(s: string, c: char)
    ensures forall p :: p in Split(s, c) ==> c !in p
    ensures Join(Split(s, c), [c]) == s
  {
    if s != "" {
      SplitParts(s[1..], c);
      var rest := Split(s[1..], c);
      if s[0] == c {
        assert Split(s, c)[1..] == rest;
      } else {
        assert c !in rest[0];
        assert Split(s, c)[1..] == rest[1..];
        assert forall p :: p in Split(s, c) ==> p == [s[0]] + rest[0] || p in rest;
      }
    }
  }

  lemma {:induction false} SplitJoin(parts: seq<string>, c: char)
    requires |parts| > 0 && forall p :: p in parts ==> c !in p
    ensures Split(Join(parts, [c]), c) == parts
    decreases |parts|, |parts[0]|
  {
    var s := Join(parts, [c]);
    var p := parts[0];
    assert p in parts;
    if p == "" {
      if |parts| > 1 {
        assert s == [c] + Join(parts[1..], [c]);
        assert s[1..] == Join(parts[1..], [c]);
        SplitJoin(parts[1..], c);
      }
    } else {
      var tail := [p[1..]] + parts[1..];
      assert forall q :: q in tail ==> c !in q by {
        forall q | q in tail ensures c !in q { if q != p[1..] { assert q in parts; } }
      }
      SplitJoin(tail, c);
      assert tail[1..] == parts[1..];
      assert s == [p[0]] + Join(tail, [c]);
      assert s[1..] == Join(tail, [c]);
      assert p == [p[0]] + p[1..];
      assert parts == [p] + parts[1..];
    }
  }

  lemma SplitAt(c: char, s: string, d: char)
    ensures c == d ==> Split([c] + s, d) == [""] + Split(s, d)
    ensures c != d ==> Split([c] + s, d) == [[c] + Split(s, d)[0]] + Split(s, d)[1..]
  {
    assert ([c] + s)[1..] == s;
  }

  lemma {:induction false} SplitWhole(s: string, c: char)
    requires c !in s
    ensures Split(s, c) == [s]
  {
    if s != "" {
      SplitWhole(s[1..], c);
      assert s == [s[0]] + s[1..];
    }
  }

  /** A separator between two texts separates their parts. */
  lemma {:induction false} SplitConcat(a: string, b: string, c: char)
    ensures Split(a + ([c] + b), c) == Split(a, c) + Split(b, c)
  {
    var tail := [c] + b;
    if a == "" {
      assert a + tail == tail;
      SplitAt(c, b, c);
    } else {
      var x, t := a[0], a[1..];
      SplitConcat(t, b, c);
      assert a == [x] + t && a + tail == [x] + (t + tail);
      SplitAt(x, t, c);
      SplitAt(x, t + tail, c);
      FirstPart(x, Split(t, c), Split(b, c));
    }
  }

  lemma FirstPart(x: char, p: seq<string>, q: seq<string>)
    requires p != []
    ensures [""] + (p + q) == ([""] + p) + q
    ensures [[x] + (p + q)[0]] + (p + q)[1..] == ([[x] + p[0]] + p[1..]) + q
  {
  }

  /** Text without the separator joins the part it stands in front of ... */
  lemma {:induction false} SplitPrefixed(head: string, s: string, c: char)
    requires c !in head
    ensures Split(head + s, c) == [head + Split(s, c)[0]] + Split(s, c)[1..]
  {
    if head == "" {
      assert head + s == s && head + Split(s, c)[0] == Split(s, c)[0];
    } else {
      SplitPrefixed(head[1..], s, c);
      SplitAt(head[0], head[1..] + s, c);
      assert [head[0]] + (head[1..] + s) == head + s;
      assert [head[0]] + (head[1..] + Split(s, c)[0]) == head + Split(s, c)[0];
    }
  }

  /** ... or behind. */
  lemma {:induction false} SplitSuffixed(s: string, tail: string, c: char)
    requires c !in tail
    ensures var parts := Split(s, c); Split(s + tail, c) == parts[..|parts| - 1] + [parts[|parts| - 1] + tail]
  {
    if s == "" {
      SplitWhole(tail, c);
      assert s + tail == tail;
    } else {
      var x, t := s[0], s[1..];
      SplitSuffixed(t, tail, c);
      assert s == [x] + t && s + tail == [x] + (t + tail);
      SplitAt(x, t, c);
      SplitAt(x, t + tail, c);
      LastPart(x, Split(t, c), tail, c);
    }
  }

  /** What joins the last part leaves what joins the first alone. */
  lemma LastPart(x: char, p: seq<string>, tail: string, c: char)
    requires p != []
    ensures var q := p[..|p| - 1] + [p[|p| - 1] + tail];
      && (var r := [""] + p; [""] + q == r[..|r| - 1] + [r[|r| - 1] + tail])
      && (var r := [[x] + p[0]] + p[1..]; [[x] + q[0]] + q[1..] == r[..|r| - 1] + [r[|r| - 1] + tail])
  {
    if |p| == 1 {
      assert [x] + (p[0] + tail) == ([x] + p[0]) + tail;
    }
  }
}
