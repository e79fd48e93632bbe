/** Lane closures on the facts of a row (internal/ingest/lane_closure.go and
  internal/clients/cwwp2/laneclosure.go): its radio codes, its times and its places. */
module LaneClosureFacts {
  import opened Wrappers
  import opened Text
  import opened LaneClosure
  import opened LaneClosurePoll

  // ---------------------------------------------------------------------- phases

  /** How long a closure in place may overrun: as configured, or else twelve hours. */
  function Overrun(grace: int): int {
    if grace > 0 then grace else 12 * 60 * 60
  }

  predicate InPlaceStill(c: Codes, end: Option<int>, now: int, grace: int) {
    !c.cancelled && !c.pickedUp && c.setUp && (end.None? || now < end.value + Overrun(grace))
  }

  predicate StillToCome(c: Codes, end: Option<int>, now: int) {
    !c.cancelled && !c.pickedUp && !c.setUp && (end.None? || now < end.value)
  }

  /** A closure is ACTIVE exactly while it is set up and neither called off, picked
      up nor overrun; SCHEDULED exactly while none was called and its end is to
      come; and CANCELLED exactly if that was called. */
  lemma PhaseOnTheFacts(c: Codes, end: Option<int>, now: int, grace: int)
    ensures PhaseAt(c, end, now, grace) == Active <==> InPlaceStill(c, end, now, grace)
    ensures PhaseAt(c, end, now, grace) == Scheduled <==> StillToCome(c, end, now)
    ensures PhaseAt(c, end, now, grace) == Cancelled <==> c.cancelled
  {
  }

  // ----------------------------------------------------------------- log numbers

  lemma {:induction false} DigitsOf(n: nat)
    ensures forall i :: 0 <= i < |Decimal(n)| ==> '0' <= Decimal(n)[i] <= '9'
    ensures n > 0 ==> Decimal(n)[0] != '0'
  {
    if n >= 10 {
      DigitsOf(n / 10);
    }
  }

  lemma PaddedKey(i: nat, n: nat)
    ensures LogKey(seq(i, _ => '0') + Decimal(n)) == Decimal(n)
  {
    var s := seq(i, _ => '0') + Decimal(n);
    DigitsOf(n);
    assert s[0] == (if i > 0 then '0' else Decimal(n)[0]) && s[|s| - 1] == Decimal(n)[|Decimal(n)| - 1];
    TrimSame(s);
    PaddingIsIgnored(i, Decimal(n));
    if n == 0 {
      assert Decimal(n) == "0" && TrimZeros("0"[1..]) == "";
    }
  }

  /** Padded with zeros or not, log numbers are the same exactly if they are the same number. */
  lemma LogNumbersAreToldApart(i: nat, m: nat, j: nat, n: nat)
    ensures SameLogNumber(seq(i, _ => '0') + Decimal(m), seq(j, _ => '0') + Decimal(n)) <==> m == n
  {
    PaddedKey(i, m);
    PaddedKey(j, n);
    DigitsOf(m);
    DigitsOf(n);
    LowerSame(Decimal(m));
    LowerSame(Decimal(n));
    if Decimal(m) == Decimal(n) {
      DecimalInjective(m, n);
    }
  }

  // --------------------------------------------------------------------- matching

  lemma NearOnTheFacts(c: Closure, p: Pos, d: Distance)
    ensures NearestEndpointMeters(c, p, d) <= 250.0
      <==> (c.begin.Some? && d(p, c.begin.value) <= 250.0) || (c.end.Some? && d(p, c.end.value) <= 250.0)
  {
  }

  /** An old event matches a window that is in place, of its closure and log
      number, with an endpoint within 250 meters. */
  lemma MatchOnTheFacts(o: Legacy, w: Window, d: Distance)
    ensures Matches(o, w, d) <==>
      && w.active && ToLower(w.closure.closureId) == ToLower(o.closureId) && SameLogNumber(w.closure.logNumber, o.logNumber)
      && ((w.closure.begin.Some? && d(o.at, w.closure.begin.value) <= 250.0) || (w.closure.end.Some? && d(o.at, w.closure.end.value) <= 250.0))
  {
    NearOnTheFacts(w.closure, o.at, d);
  }

  // ------------------------------------------------------------------------- rows

  predicate Covers(a: Bounds, p: Pos) {
    a.minLat <= p.lat && p.lat <= a.maxLat && a.minLng <= p.lng && p.lng <= a.maxLng
  }

  /** An endpoint of the closure lies in a configured area, its edges included. */
  ghost predicate TouchesAnArea(c: Closure, areas: seq<Bounds>) {
    exists a, p :: a in areas && (c.begin == Some(p) || c.end == Some(p)) && Covers(a, p)
  }

  lemma ScopeOnTheFacts(c: Closure, s: Scope)
    ensures InScope(c, s) <==> TouchesAnArea(c, s.areas)
  {
    if InAnArea(c.begin, s) {
      var i :| 0 <= i < |s.areas| && Within(s.areas[i], c.begin.value);
      assert s.areas[i] in s.areas && c.begin == Some(c.begin.value);
    }
    if InAnArea(c.end, s) {
      var i :| 0 <= i < |s.areas| && Within(s.areas[i], c.end.value);
      assert s.areas[i] in s.areas && c.end == Some(c.end.value);
    }
    if a, p :| a in s.areas && (c.begin == Some(p) || c.end == Some(p)) && Covers(a, p) {
      var i :| 0 <= i < |s.areas| && s.areas[i] == a;
      assert Within(s.areas[i], p);
    }
  }

  /** A row that has to have an event: readable, touching an area, in place or to come. */
  ghost predicate Matters(r: Row, s: Scope) {
    && !r.unrecognized && TouchesAnArea(r.closure, s.areas)
    && (InPlaceStill(r.codes, r.end, s.now, s.grace) || StillToCome(r.codes, r.end, s.now))
  }

  /** The rows a poll keeps are rows that matter, and every row that matters has
      one under its id; the event of a row is ACTIVE exactly while it is in place. */
  lemma RowsOnTheFacts(rows: seq<Row>, s: Scope)
    ensures forall r :: r in Kept(rows, s) ==> r in rows && Matters(r, s)
    ensures forall r :: r in rows && Matters(r, s) ==> HasId(Kept(rows, s), EventId(r))
    ensures forall r :: r in Kept(rows, s) ==> (WindowOf(r, s).active <==> InPlaceStill(r.codes, r.end, s.now, s.grace))
  {
    KeptCoversTheListed(rows, s);
    forall r ensures Listed(r, s) <==> Matters(r, s) {
      ScopeOnTheFacts(r.closure, s);
      PhaseOnTheFacts(r.codes, r.end, s.now, s.grace);
    }
    forall r ensures WindowOf(r, s).active <==> InPlaceStill(r.codes, r.end, s.now, s.grace) {
      PhaseOnTheFacts(r.codes, r.end, s.now, s.grace);
    }
  }

  /** A row that cannot be read degrades a poll exactly if it touches an area or has no place at all. */
  lemma UnreadableOnTheFacts(r: Row, s: Scope)
    ensures Unreadable(r, s) <==> r.unrecognized && (TouchesAnArea(r.closure, s.areas) || (r.closure.begin == None && r.closure.end == None))
  {
    ScopeOnTheFacts(r.closure, s);
  }

  lemma {:induction false} ColonsGo(a: string, b: string)
    ensures WithoutColons(a + b) == WithoutColons(a) + WithoutColons(b)
  {
    if a == "" {
      assert a + b == b;
    } else {
      assert (a + b)[1..] == a[1..] + b;
      ColonsGo(a[1..], b);
    }
  }

  lemma {:induction false} OthersStay(a: string)
    requires ':' !in a
    ensures WithoutColons(a) == a
  {
    if a != "" {
      OthersStay(a[1..]);
      assert a == [a[0]] + a[1..];
    }
  }

  lemma OneColon(a: string, colon: string, b: string)
    requires colon == ":" && ':' !in a && ':' !in b
    ensures WithoutColons(a + colon + b) == a + b
  {
    OthersStay(a);
    OthersStay(b);
    ColonsGo(a + colon, b);
    ColonsGo(a, colon);
    assert colon[1..] == "" && WithoutColons(colon) == "";
    assert a + "" == a;
  }

  /** The id of a row: its district and its index without the colons. */
  lemma IdOnTheFacts(r: Row, a: string, b: string)
    requires ':' !in a && ':' !in b
    ensures r.index == a ==> EventId(r) == "caltrans:" + ("d" + Decimal(r.district) + "-" + a)
    ensures r.index == a + ":" + b ==> EventId(r) == "caltrans:" + ("d" + Decimal(r.district) + "-" + (a + b))
  {
    OthersStay(a);
    OneColon(a, ":", b);
  }

  // ------------------------------------------------------------- ids of the old feed

  predicate LettersAndDigits(s: string) {
    s != "" && forall c :: c in s ==> 'A' <= Upper(c) <= 'Z' || '0' <= c <= '9'
  }

  predicate SixHexDigits(s: string, digits: string) {
    |s| == 6 && forall c :: c in s ==> c in digits
  }

  lemma HexDigitIn(c: char, digits: string)
    requires digits == "0123456789abcdef"
    ensures c in digits <==> '0' <= c <= '9' || 'a' <= c <= 'f'
  {
    if '0' <= c <= '9' {
      assert digits[(c - '0') as int] == c;
    }
    if 'a' <= c <= 'f' {
      assert digits[10 + (c - 'a') as int] == c;
    }
  }

  lemma PartsRead(a: string, b: string, h: string, digits: string)
    requires digits == "0123456789abcdef"
    ensures IsAlnum(a) <==> LettersAndDigits(a)
    ensures IsHex6(h) <==> SixHexDigits(h, digits)
  {
    forall i | 0 <= i < |a| ensures a[i] in a {
    }
    forall c ensures c in digits <==> '0' <= c <= '9' || 'a' <= c <= 'f' {
      HexDigitIn(c, digits);
    }
    forall i | 0 <= i < |h| ensures h[i] in h {
    }
  }

  lemma ThreeParts(rest: string, a: string, b: string, h: string)
    requires Split(rest, '-') == [a, b, h]
    ensures rest == a + ['-'] + (b + ['-'] + h)
  {
    SplitParts(rest, '-');
    assert [a, b, h][1..] == [b, h] && [b, h][1..] == [h];
    assert Join([h], ['-']) == h && Join([b, h], ['-']) == b + ['-'] + h;
  }

  lemma OldFormReads(closure: string, log: string, hex: string, digits: string)
    requires digits == "0123456789abcdef" && LettersAndDigits(closure) && LettersAndDigits(log) && SixHexDigits(hex, digits)
    ensures LegacyParts("caltrans:" + (closure + ['-'] + (log + ['-'] + hex))) == Some((closure, log))
  {
    PartsRead(closure, log, hex, digits);
    PartsRead(log, log, hex, digits);
    AnIdOfTheOldFeed(closure, log, hex);
  }

  /** The ids of the old feed are exactly "caltrans:", a closure, a log number and
      six hex digits; no other is ever looked for among the windows. */
  lemma OldIdsAre(id: string, closure: string, log: string)
    ensures LegacyParts(id) == Some((closure, log)) <==>
      && LettersAndDigits(closure) && LettersAndDigits(log)
      && exists hex :: SixHexDigits(hex, "0123456789abcdef") && id == "caltrans:" + (closure + ['-'] + (log + ['-'] + hex))
  {
    OldIdsReadAs(id, closure, log, "0123456789abcdef");
  }

  lemma OldIdsReadAs(id: string, closure: string, log: string, digits: string)
    requires digits == "0123456789abcdef"
    ensures LegacyParts(id) == Some((closure, log)) <==>
      && LettersAndDigits(closure) && LettersAndDigits(log)
      && exists hex :: SixHexDigits(hex, digits) && id == "caltrans:" + (closure + ['-'] + (log + ['-'] + hex))
  {
    if LegacyParts(id) == Some((closure, log)) {
      var rest := id[9..];
      var hex := Split(rest, '-')[2];
      assert Split(rest, '-') == [closure, log, hex] && id == "caltrans:" + rest;
      ThreeParts(rest, closure, log, hex);
      PartsRead(closure, log, hex, digits);
      PartsRead(log, log, hex, digits);
    }
    if LettersAndDigits(closure) && LettersAndDigits(log) {
      forall hex | SixHexDigits(hex, digits) && id == "caltrans:" + (closure + ['-'] + (log + ['-'] + hex)) ensures LegacyParts(id) == Some((closure, log)) {
        OldFormReads(closure, log, hex, digits);
      }
    }
  }
}
