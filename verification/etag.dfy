/** Validators of responses (internal/gridapi/etag.go): what dataETag hashes can
  be read back without ambiguity, and If-None-Match is section 13.1.2 of RFC 9110
  except on tags that hold a star between commas. */
module ETag {
  import opened Wrappers
  import opened Text

  newtype byte = x: int | 0 <= x < 256

  type Bytes = seq<byte>

  // ------------------------------------------------------------- length prefixes

  function Power256(k: nat): (p: nat)
    ensures p > 0
  {
    if k == 0 then 1 else 256 * Power256(k - 1)
  }

  /** n in k bytes, most significant first; the high bytes of a longer n are dropped. */
  function BigEndian(n: nat, k: nat): (b: Bytes)
    ensures |b| == k
  {
    if k == 0 then [] else BigEndian(n / 256, k - 1) + [(n % 256) as byte]
  }

  function Number(b: Bytes): (n: nat)
    ensures n < Power256(|b|)
  {
    if b == [] then 0 else 256 * Number(b[..|b| - 1]) + b[|b| - 1] as nat
  }

  lemma {:induction false} NumberOfBigEndian(n: nat, k: nat)
    requires n < Power256(k)
    ensures Number(BigEndian(n, k)) == n
  {
    if k > 0 {
      NumberOfBigEndian(n / 256, k - 1);
      assert BigEndian(n, k)[..k - 1] == BigEndian(n / 256, k - 1);
    }
  }

  lemma {:induction false} BigEndianOfNumber(b: Bytes)
    ensures BigEndian(Number(b), |b|) == b
  {
    if b != [] {
      BigEndianOfNumber(b[..|b| - 1]);
      assert Number(b) / 256 == Number(b[..|b| - 1]);
    }
  }

  // ------------------------------------------------------------------ the preimage

  /** What writePart feeds to the hash: eight bytes of length, then the part. */
  function Framed(part: Bytes): Bytes {
    BigEndian(|part|, 8) + part
  }

  function Stream(parts: seq<Bytes>): Bytes {
    if parts == [] then [] else Framed(parts[0]) + Stream(parts[1..])
  }

  /** The parts a stream was written from, if it was written at all. */
  function Parse(s: Bytes): Option<seq<Bytes>>
    decreases |s|
  {
    if s == [] then Some([])
    else if |s| < 8 then None
    else
      var n := Number(s[..8]);
      if 8 + n > |s| then None
      else
        var rest := Parse(s[8 + n..]);
        if rest.None? then None else Some([s[8..8 + n]] + rest.value)
  }

  /** Go's slices: no length reaches 2^63. */
  predicate Sized(parts: seq<Bytes>) {
    forall i :: 0 <= i < |parts| ==> |parts[i]| < 0x8000_0000_0000_0000
  }

  lemma {:induction false} ZerosOf(k: nat, zeros: Bytes)
    requires |zeros| == k && forall i :: 0 <= i < k ==> zeros[i] == 0
    ensures BigEndian(0, k) == zeros
  {
    if k > 0 {
      ZerosOf(k - 1, zeros[..k - 1]);
      assert zeros == zeros[..k - 1] + [0];
    }
  }

  /** The length stands before the part with its least byte last. */
  lemma AShortPartIsFramed(part: Bytes)
    requires |part| < 256
    ensures Framed(part) == [0, 0, 0, 0, 0, 0, 0, |part| as byte] + part
  {
    ZerosOf(7, [0, 0, 0, 0, 0, 0, 0]);
    assert BigEndian(|part|, 8) == BigEndian(0, 7) + [|part| as byte];
  }

  lemma EightBytes(n: nat)
    requires n < 0x8000_0000_0000_0000
    ensures Number(BigEndian(n, 8)) == n
  {
    assert Power256(8) == 256 * Power256(7) && Power256(7) == 256 * Power256(6) && Power256(6) == 256 * Power256(5);
    assert Power256(5) == 256 * Power256(4) && Power256(4) == 256 * Power256(3) && Power256(3) == 256 * Power256(2);
    assert Power256(2) == 256 * Power256(1) && Power256(1) == 256;
    NumberOfBigEndian(n, 8);
  }

  lemma ParseFramed(p: Bytes, rest: Bytes)
    requires |p| < 0x8000_0000_0000_0000
    ensures Parse(Framed(p) + rest) == if Parse(rest).None? then None else Some([p] + Parse(rest).value)
  {
    var s := Framed(p) + rest;
    EightBytes(|p|);
    assert s[..8] == BigEndian(|p|, 8) && s[8..8 + |p|] == p && s[8 + |p|..] == rest;
  }

  lemma {:induction false} ParseOfStream(parts: seq<Bytes>)
    requires Sized(parts)
    ensures Parse(Stream(parts)) == Some(parts)
  {
    if parts != [] {
      ParseOfStream(parts[1..]);
      ParseFramed(parts[0], Stream(parts[1..]));
      assert [parts[0]] + parts[1..] == parts;
    }
  }

  lemma {:induction false} StreamOfParse(s: Bytes)
    requires Parse(s).Some?
    ensures Stream(Parse(s).value) == s
    decreases |s|
  {
    if s != [] {
      var n := Number(s[..8]);
      var rest := Parse(s[8 + n..]).value;
      StreamOfParse(s[8 + n..]);
      BigEndianOfNumber(s[..8]);
      FirstFrame(s, n, rest);
    }
  }

  lemma FirstFrame(s: Bytes, n: nat, rest: seq<Bytes>)
    requires |s| >= 8 + n && BigEndian(n, 8) == s[..8] && Stream(rest) == s[8 + n..]
    ensures Stream([s[8..8 + n]] + rest) == s
  {
    var parts := [s[8..8 + n]] + rest;
    assert parts[1..] == rest && |parts[0]| == n;
    assert s == s[..8] + s[8..8 + n] + s[8 + n..];
  }

  /** Different content types or part lists never feed the hash the same bytes. */
  lemma StreamsDiffer(contentType: Bytes, parts: seq<Bytes>, contentType': Bytes, parts': seq<Bytes>)
    requires Sized([contentType] + parts) && Sized([contentType'] + parts')
    ensures Stream([contentType] + parts) == Stream([contentType'] + parts') <==> contentType == contentType' && parts == parts'
  {
    ParseOfStream([contentType] + parts);
    ParseOfStream([contentType'] + parts');
    assert ([contentType] + parts)[1..] == parts && ([contentType'] + parts')[1..] == parts';
    assert ([contentType] + parts)[0] == contentType && ([contentType'] + parts')[0] == contentType';
  }

  // ------------------------------------------------------------------------- tags

  function HexDigit(d: nat): (c: char)
    requires d < 16
    ensures '0' <= c <= '9' || 'a' <= c <= 'f'
  {
    if d < 10 then '0' + d as char else 'a' + (d - 10) as char
  }

  function Hex(b: Bytes): (s: string)
    ensures |s| == 2 * |b|
    ensures forall i :: 0 <= i < |s| ==> '0' <= s[i] <= '9' || 'a' <= s[i] <= 'f'
  {
    if b == [] then "" else [HexDigit(b[0] as nat / 16), HexDigit(b[0] as nat % 16)] + Hex(b[1..])
  }

  /** Two lower-case digits a byte, the high one first. */
  lemma {:induction false} HexReads(b: Bytes, i: nat, digits: string)
    requires i < |b| && digits == "0123456789abcdef"
    ensures Hex(b)[2 * i] == digits[b[i] as nat / 16] && Hex(b)[2 * i + 1] == digits[b[i] as nat % 16]
  {
    DigitIs(b[0] as nat / 16, digits);
    DigitIs(b[0] as nat % 16, digits);
    if i > 0 {
      HexReads(b[1..], i - 1, digits);
    }
  }

  lemma DigitIs(d: nat, digits: string)
    requires d < 16 && digits == "0123456789abcdef"
    ensures HexDigit(d) == digits[d]
  {
  }

  lemma {:induction false} HexIsInjective(a: Bytes, b: Bytes)
    requires Hex(a) == Hex(b)
    ensures a == b
  {
    assert |a| == |b|;
    if a != [] {
      var s, t := Hex(a), Hex(b);
      assert s[0] == t[0] && s[1] == t[1] && s[2..] == Hex(a[1..]) && t[2..] == Hex(b[1..]);
      HexIsInjective(a[1..], b[1..]);
      assert a == [a[0]] + a[1..] && b == [b[0]] + b[1..];
    }
  }

  /** SHA-256, of which only the size of the digest is used. */
  ghost predicate IsSha256(hash: Bytes -> Bytes) {
    forall s :: |hash(s)| == 32
  }

  function TagOf(digest: Bytes): (tag: string)
    requires |digest| >= 16
  {
    "W/" + Quoted(digest)
  }

  function Quoted(digest: Bytes): string
    requires |digest| >= 16
  {
    "\"" + Hex(digest[..16]) + "\""
  }

  method DataETag(contentType: Bytes, parts: seq<Bytes>, hash: Bytes -> Bytes) returns (tag: string)
    requires IsSha256(hash)
    ensures tag == TagOf(hash(Stream([contentType] + parts)))
  {
    var written := Framed(contentType);
    for i := 0 to |parts|
      invariant written + Stream(parts[i..]) == Stream([contentType] + parts)
    {
      assert parts[i..][0] == parts[i] && parts[i..][1..] == parts[i + 1..];
      written := written + Framed(parts[i]);
    }
    assert parts[|parts|..] == [] && written + [] == written;
    tag := TagOf(hash(written));
  }

  /** Equal tags mean equal truncated hashes of the data, and nothing else enters the tag. */
  lemma TagsAreDigests(a: Bytes, b: Bytes)
    requires |a| >= 16 && |b| >= 16
    ensures TagOf(a) == TagOf(b) <==> a[..16] == b[..16]
  {
    var x, y := Hex(a[..16]), Hex(b[..16]);
    assert TagOf(a)[3..35] == x && TagOf(b)[3..35] == y;
    if x == y {
      HexIsInjective(a[..16], b[..16]);
    }
  }

  // ---------------------------------------------------------------- If-None-Match

  /** strings.TrimPrefix(tag, "W/"): the opaque tag, which weak comparison compares. */
  function Opaque(tag: string): string {
    if "W/" <= tag then tag[2..] else tag
  }

  predicate Equals(c: string, etag: string) {
    c == "*" || Opaque(c) == Opaque(etag)
  }

  predicate Accepts(candidate: string, etag: string) {
    Equals(TrimSpace(candidate), etag)
  }

  predicate AnyAccepted(candidates: seq<string>, etag: string) {
    exists i :: 0 <= i < |candidates| && Accepts(candidates[i], etag)
  }

  predicate Matches(header: string, etag: string) {
    header != "" && AnyAccepted(Split(header, ','), etag)
  }

  method InmMatches(header: string, etag: string) returns (found: bool)
    ensures found <==> Matches(header, etag)
  {
    if header == "" {
      return false;
    }
    found := ScanCandidates(Split(header, ','), etag);
  }

  /** The loop of inmMatches. */
  method ScanCandidates(candidates: seq<string>, etag: string) returns (found: bool)
    ensures found <==> AnyAccepted(candidates, etag)
  {
    for i := 0 to |candidates|
      invariant forall k :: 0 <= k < i ==> !Accepts(candidates[k], etag)
    {
      var c := TrimSpace(candidates[i]);
      if c == "*" || Opaque(c) == Opaque(etag) {
        assert Accepts(candidates[i], etag);
        return true;
      }
    }
    return false;
  }

  // ------------------------------------------------ lists as RFC 9110 writes them

  /** An element of the list: `*`, or an entity tag (section 8.8.3 of RFC 9110). */
  datatype Tag = Star | Entity(weak: bool, text: string)

  /** etagc: anything visible but a double quote; a comma is allowed. */
  predicate IsTagChar(c: char) {
    c == '!' || '#' <= c <= '~' || c >= '\U{0080}'
  }

  predicate IsText(text: string) {
    forall i :: 0 <= i < |text| ==> IsTagChar(text[i])
  }

  function Opening(weak: bool): string {
    if weak then "W/\"" else "\""
  }

  function Spelled(t: Tag): string {
    match t
    case Star => "*"
    case Entity(weak, text) => Opening(weak) + text + "\""
  }

  /** An element as a client may write it: with blanks around it. */
  datatype Element = Element(before: string, tag: Tag, after: string)

  predicate Blank(s: string) {
    forall i :: 0 <= i < |s| ==> s[i] == ' ' || s[i] == '\t'
  }

  predicate IsElement(e: Element) {
    Blank(e.before) && Blank(e.after) && (e.tag.Entity? ==> IsText(e.tag.text))
  }

  predicate WellFormed(es: seq<Element>) {
    forall i :: 0 <= i < |es| ==> IsElement(es[i])
  }

  function Written(e: Element): string {
    e.before + (Spelled(e.tag) + e.after)
  }

  function Header(es: seq<Element>): string {
    Join(seq(|es|, i requires 0 <= i < |es| => Written(es[i])), ",")
  }

  predicate InnerStar(pieces: seq<string>) {
    exists k :: 0 < k < |pieces| - 1 && TrimSpace(pieces[k]) == "*"
  }

  /** A piece that the comma split cuts out of the inside of a tag is a star. */
  predicate HidesStar(text: string) {
    InnerStar(Split(text, ','))
  }

  /** What makes a listed element match a tag with the text `ours`. The first
      two cases are section 13.1.2 of RFC 9110 for a tag without commas. */
  predicate Stands(t: Tag, ours: string) {
    t.Star? || (t.text == ours && ',' !in ours) || HidesStar(t.text)
  }

  lemma {:induction false} TrimLeftTo(s: string, n: nat)
    requires n < |s| && !IsSpace(s[n]) && forall i :: 0 <= i < n ==> IsSpace(s[i])
    ensures TrimLeft(s) == s[n..]
  {
    if n > 0 {
      TrimLeftTo(s[1..], n - 1);
      assert s[1..][n - 1..] == s[n..];
    } else {
      assert s[0..] == s;
    }
  }

  lemma {:induction false} TrimRightTo(s: string, n: nat)
    requires 0 < n <= |s| && !IsSpace(s[n - 1]) && forall i :: n <= i < |s| ==> IsSpace(s[i])
    ensures TrimRight(s) == s[..n]
  {
    if n < |s| {
      TrimRightTo(s[..|s| - 1], n);
      assert s[..|s| - 1][..n] == s[..n];
    } else {
      assert s[..n] == s;
    }
  }

  lemma MiddleOf(before: string, tag: string, after: string)
    ensures var t := tag + after; var whole := before + t;
      && whole[|before|..] == t && t[..|tag|] == tag
      && (forall i :: 0 <= i < |before| ==> whole[i] == before[i])
      && (forall i :: 0 <= i < |tag| ==> t[i] == tag[i])
      && (forall i :: |tag| <= i < |t| ==> t[i] == after[i - |tag|])
  {
  }

  lemma TrimPadded(before: string, tag: string, after: string)
    requires Blank(before) && Blank(after) && tag != "" && !IsSpace(tag[0]) && !IsSpace(tag[|tag| - 1])
    ensures TrimSpace(before + (tag + after)) == tag
  {
    var t := tag + after;
    MiddleOf(before, tag, after);
    TrimLeftTo(before + t, |before|);
    TrimRightTo(t, |tag|);
  }

  // Double quotes tell the pieces of a tag apart: the first and the last have
  // one, those between none, and a whole tag two.

  function Quotes(s: string): nat {
    multiset(s)['"']
  }

  lemma {:induction false} QuotesTrimLeft(s: string)
    ensures Quotes(TrimLeft(s)) == Quotes(s)
  {
    if s != "" && IsSpace(s[0]) {
      assert s == [s[0]] + s[1..];
      QuotesTrimLeft(s[1..]);
    }
  }

  lemma {:induction false} QuotesTrimRight(s: string)
    ensures Quotes(TrimRight(s)) == Quotes(s)
  {
    if s != "" && IsSpace(s[|s| - 1]) {
      assert s == s[..|s| - 1] + [s[|s| - 1]];
      QuotesTrimRight(s[..|s| - 1]);
    }
  }

  lemma OpaqueOf(weak: bool, text: string)
    ensures Opaque(Spelled(Entity(weak, text))) == "\"" + text + "\""
  {
    var s := Spelled(Entity(weak, text));
    if weak {
      assert s[..2] == "W/" && s[2..] == "\"" + text + "\"";
    } else {
      assert s[0] == '"' && "W/"[0] == 'W';
    }
  }

  lemma QuotesOpaque(s: string)
    ensures Quotes(Opaque(s)) == Quotes(s)
  {
    if "W/" <= s {
      assert s == "W/" + s[2..];
    }
  }

  /** Only a piece with both quotes can equal a tag, and only one without any can be a star. */
  lemma AcceptsByQuotes(piece: string, weak: bool, ours: string)
    requires IsText(ours) && Quotes(piece) < 2
    ensures Accepts(piece, Spelled(Entity(weak, ours))) <==> TrimSpace(piece) == "*"
    ensures Quotes(piece) == 1 ==> TrimSpace(piece) != "*"
  {
    var c := TrimSpace(piece);
    QuotesTrimLeft(piece);
    QuotesTrimRight(TrimLeft(piece));
    QuotesOpaque(c);
    OpaqueOf(weak, ours);
    assert Quotes("\"" + ours + "\"") == 2;
    assert Quotes("*") == 0;
  }

  lemma {:induction false} PiecesFrom(s: string, c: char)
    ensures forall p, x :: p in Split(s, c) && x in p ==> x in s
  {
    if s != "" {
      PiecesFrom(s[1..], c);
      SplitAt(s[0], s[1..], c);
      assert s == [s[0]] + s[1..] && Split(s[1..], c)[0] in Split(s[1..], c);
    }
  }

  /** The pieces of an element: what stands around its text joins the first and the last. */
  function Wrapped(head: string, pieces: seq<string>, tail: string): (r: seq<string>)
    requires pieces != []
    ensures |r| == |pieces|
    ensures |pieces| == 1 ==> r[0] == head + pieces[0] + tail
    ensures |pieces| > 1 ==> r[0] == head + pieces[0] && r[|r| - 1] == pieces[|r| - 1] + tail
    ensures forall k :: 0 < k < |r| - 1 ==> r[k] == pieces[k]
  {
    var q := [head + pieces[0]] + pieces[1..];
    q[..|q| - 1] + [q[|q| - 1] + tail]
  }

  lemma PiecesAround(head: string, text: string, tail: string)
    requires ',' !in head && ',' !in tail
    ensures Split(head + text + tail, ',') == Wrapped(head, Split(text, ','), tail)
  {
    SplitPrefixed(head, text, ',');
    SplitSuffixed(head + text, tail, ',');
  }

  lemma PiecesOf(e: Element)
    requires IsElement(e) && e.tag.Entity?
    ensures Split(Written(e), ',') == Wrapped(e.before + Opening(e.tag.weak), Split(e.tag.text, ','), "\"" + e.after)
  {
    var head, tail := e.before + Opening(e.tag.weak), "\"" + e.after;
    PiecesAround(head, e.tag.text, tail);
    Regrouped(e.before, Opening(e.tag.weak), e.tag.text, "\"", e.after);
  }

  lemma Regrouped(a: string, b: string, c: string, d: string, e: string)
    ensures a + (b + c + d + e) == (a + b) + c + (d + e)
  {
  }

  lemma SameQuoted(a: string, b: string)
    ensures "\"" + a + "\"" == "\"" + b + "\"" <==> a == b
  {
    var x, y := "\"" + a + "\"", "\"" + b + "\"";
    assert x[1..|x| - 1] == a && y[1..|y| - 1] == b;
  }

  lemma SpelledEnds(weak: bool, text: string)
    ensures var t := Spelled(Entity(weak, text)); t != "*" && t[0] in {'W', '"'} && t[|t| - 1] == '"'
  {
  }

  lemma WholeTagAccepted(e: Element, weak: bool, ours: string)
    requires IsElement(e) && e.tag.Entity?
    ensures Accepts(Written(e), Spelled(Entity(weak, ours))) <==> e.tag.text == ours
  {
    SpelledEnds(e.tag.weak, e.tag.text);
    TrimPadded(e.before, Spelled(e.tag), e.after);
    OpaqueOf(e.tag.weak, e.tag.text);
    OpaqueOf(weak, ours);
    SameQuoted(e.tag.text, ours);
  }

  lemma NoComma(before: string, tag: string, after: string)
    requires Blank(before) && Blank(after) && ',' !in tag
    ensures ',' !in before + (tag + after)
  {
  }

  lemma StarAccepted(e: Element, etag: string)
    requires IsElement(e) && e.tag.Star?
    ensures Written(e) != "" && Split(Written(e), ',') == [Written(e)] && Accepts(Written(e), etag)
  {
    TrimPadded(e.before, "*", e.after);
    NoComma(e.before, "*", e.after);
    SplitWhole(Written(e), ',');
  }

  lemma WrappedQuotes(head: string, pieces: seq<string>, tail: string, k: nat)
    requires |pieces| > 1 && Quotes(head) == 1 == Quotes(tail) && k < |pieces| && Quotes(pieces[k]) == 0
    ensures Quotes(Wrapped(head, pieces, tail)[k]) == if 0 < k < |pieces| - 1 then 0 else 1
  {
    assert multiset(head + pieces[k]) == multiset(head) + multiset(pieces[k]);
    assert multiset(pieces[k] + tail) == multiset(pieces[k]) + multiset(tail);
  }

  lemma WrappedAccepted(head: string, pieces: seq<string>, tail: string, weak: bool, ours: string)
    requires |pieces| > 1 && Quotes(head) == 1 == Quotes(tail) && IsText(ours)
    requires forall p :: p in pieces ==> Quotes(p) == 0
    ensures AnyAccepted(Wrapped(head, pieces, tail), Spelled(Entity(weak, ours))) <==> InnerStar(pieces)
  {
    var all, etag := Wrapped(head, pieces, tail), Spelled(Entity(weak, ours));
    forall k | 0 <= k < |all| ensures Accepts(all[k], etag) <==> 0 < k < |all| - 1 && TrimSpace(pieces[k]) == "*" {
      assert pieces[k] in pieces;
      WrappedQuotes(head, pieces, tail, k);
      AcceptsByQuotes(all[k], weak, ours);
    }
  }

  lemma CutTagAccepted(e: Element, weak: bool, ours: string)
    requires IsElement(e) && e.tag.Entity? && IsText(ours) && ',' in e.tag.text
    ensures AnyAccepted(Split(Written(e), ','), Spelled(Entity(weak, ours))) <==> HidesStar(e.tag.text)
  {
    var head, tail, pieces := e.before + Opening(e.tag.weak), "\"" + e.after, Split(e.tag.text, ',');
    PiecesOf(e);
    QuotelessPieces(e.tag.text);
    CommaCuts(e.tag.text);
    QuotesAround(e);
    WrappedAccepted(head, pieces, tail, weak, ours);
  }

  lemma QuotelessPieces(text: string)
    requires IsText(text)
    ensures forall p :: p in Split(text, ',') ==> Quotes(p) == 0
  {
    PiecesFrom(text, ',');
    forall p | p in Split(text, ',') ensures '"' !in p {
      assert '"' in p ==> '"' in text;
    }
  }

  lemma QuotesAround(e: Element)
    requires IsElement(e) && e.tag.Entity?
    ensures Quotes(e.before + Opening(e.tag.weak)) == 1 == Quotes("\"" + e.after)
  {
    assert '"' !in e.before && '"' !in e.after;
    assert multiset(e.before + Opening(e.tag.weak)) == multiset(e.before) + multiset(Opening(e.tag.weak));
    assert multiset("\"" + e.after) == multiset("\"") + multiset(e.after);
  }

  lemma CommaCuts(text: string)
    requires ',' in text
    ensures |Split(text, ',')| > 1
  {
    SplitParts(text, ',');
    assert Split(text, ',')[0] in Split(text, ',');
  }

  lemma WholeTag(e: Element)
    requires IsElement(e) && e.tag.Entity? && ',' !in e.tag.text
    ensures Split(Written(e), ',') == [Written(e)] && !HidesStar(e.tag.text)
  {
    PiecesOf(e);
    SplitWhole(e.tag.text, ',');
    Regrouped(e.before, Opening(e.tag.weak), e.tag.text, "\"", e.after);
  }

  lemma ElementAccepted(e: Element, weak: bool, ours: string)
    requires IsElement(e) && IsText(ours)
    ensures Written(e) != ""
    ensures AnyAccepted(Split(Written(e), ','), Spelled(Entity(weak, ours))) <==> Stands(e.tag, ours)
  {
    var etag := Spelled(Entity(weak, ours));
    if e.tag.Star? {
      StarAccepted(e, etag);
      assert Accepts([Written(e)][0], etag);
    } else if ',' in e.tag.text {
      CutTagAccepted(e, weak, ours);
    } else {
      WholeTag(e);
      WholeTagAccepted(e, weak, ours);
      assert Accepts([Written(e)][0], etag) <==> e.tag.text == ours;
    }
  }

  lemma AcceptedInEither(a: seq<string>, b: seq<string>, etag: string)
    ensures AnyAccepted(a + b, etag) <==> AnyAccepted(a, etag) || AnyAccepted(b, etag)
  {
    if i :| 0 <= i < |a| && Accepts(a[i], etag) { assert Accepts((a + b)[i], etag); }
    if i :| 0 <= i < |b| && Accepts(b[i], etag) { assert Accepts((a + b)[|a| + i], etag); }
  }

  /** What holds of a list iff it holds of a part of the list holds iff it does of some element. */
  lemma {:induction false} InSomeElement(texts: seq<string>, holds: string -> bool)
    requires texts != []
    requires forall a, b :: holds(a + ([','] + b)) <==> holds(a) || holds(b)
    ensures holds(Join(texts, ",")) <==> exists i :: 0 <= i < |texts| && holds(texts[i])
  {
    if |texts| > 1 {
      var first, rest := texts[0], Join(texts[1..], ",");
      InSomeElement(texts[1..], holds);
      assert Join(texts, ",") == first + ([','] + rest);
      if i :| 0 <= i < |texts| && holds(texts[i]) {
        assert i > 0 ==> texts[1..][i - 1] == texts[i];
      }
      if i :| 0 <= i < |texts| - 1 && holds(texts[1..][i]) {
        assert texts[i + 1] == texts[1..][i];
      }
    }
  }

  lemma AcceptedInSome(texts: seq<string>, etag: string)
    requires texts != []
    ensures AnyAccepted(Split(Join(texts, ","), ','), etag) <==> exists i :: 0 <= i < |texts| && AnyAccepted(Split(texts[i], ','), etag)
  {
    var holds := (s: string) => AnyAccepted(Split(s, ','), etag);
    forall a, b ensures holds(a + ([','] + b)) <==> holds(a) || holds(b) {
      SplitConcat(a, b, ',');
      AcceptedInEither(Split(a, ','), Split(b, ','), etag);
    }
    InSomeElement(texts, holds);
    assert forall i :: 0 <= i < |texts| ==> holds(texts[i]) == AnyAccepted(Split(texts[i], ','), etag);
  }

  /** On every list of tags that RFC 9110 allows: the header matches a tag of ours
      iff an element is `*`, is weakly equal to ours, or hides a star. */
  lemma MatchesIffListed(es: seq<Element>, weak: bool, ours: string)
    requires es != [] && WellFormed(es) && IsText(ours)
    ensures Matches(Header(es), Spelled(Entity(weak, ours))) <==> exists i :: 0 <= i < |es| && Stands(es[i].tag, ours)
  {
    var texts, etag := seq(|es|, i requires 0 <= i < |es| => Written(es[i])), Spelled(Entity(weak, ours));
    forall i | 0 <= i < |es| ensures texts[i] != "" && (AnyAccepted(Split(texts[i], ','), etag) <==> Stands(es[i].tag, ours)) {
      ElementAccepted(es[i], weak, ours);
    }
    assert Header(es) != "" by {
      if |es| > 1 { assert Header(es) == texts[0] + "," + Join(texts[1..], ","); }
    }
    AcceptedInSome(texts, etag);
  }

  /** A star between the first and the last piece, blanks not trimmed. */
  predicate BareStar(pieces: seq<string>) {
    exists k :: 0 < k < |pieces| - 1 && pieces[k] == "*"
  }

  lemma BareStarStep(pieces: seq<string>, first: string)
    requires pieces != []
    ensures BareStar([""] + pieces) <==> BareStar(pieces) || (|pieces| > 1 && pieces[0] == "*")
    ensures BareStar([first] + pieces[1..]) <==> BareStar(pieces)
  {
    var a, b := [""] + pieces, [first] + pieces[1..];
    if k :| 0 < k < |pieces| - 1 && pieces[k] == "*" { assert a[k + 1] == "*" && b[k] == "*"; }
    if k :| 0 < k < |a| - 1 && a[k] == "*" { assert pieces[k - 1] == "*"; }
    if k :| 0 < k < |b| - 1 && b[k] == "*" { assert pieces[k] == "*"; }
    if |pieces| > 1 && pieces[0] == "*" { assert a[1] == "*"; }
  }

  lemma ContainsStep(s: string, sub: string)
    requires s != "" && sub != ""
    ensures Contains(s, sub) <==> sub <= s || Contains(s[1..], sub)
  {
    if i :| 0 <= i <= |s| && sub <= s[i..] {
      assert i == 0 ==> s[i..] == s;
      assert i > 0 ==> s[i..] == s[1..][i - 1..];
    }
    if i :| 0 <= i <= |s[1..]| && sub <= s[1..][i..] {
      assert s[1..][i..] == s[i + 1..];
    }
    if sub <= s {
      assert s[0..] == s;
    }
  }

  lemma FirstPieceIs(x: char, t: string)
    requires x != ','
    ensures [x] + [','] <= [x] + t <==> |Split([x] + t, ',')| > 1 && Split([x] + t, ',')[0] == [x]
  {
    SplitAt(x, t, ',');
    var p := Split(t, ',')[0];
    assert [x] + p == [x] <==> p == "" by { if [x] + p == [x] { assert |p| == 0; } }
  }

  lemma {:induction false} StarBetweenCommas(text: string)
    ensures BareStar(Split(text, ',')) <==> Contains(text, ",*,")
  {
    if text != "" {
      var x, t := text[0], text[1..];
      assert text == [x] + t;
      StarBetweenCommas(t);
      SplitAt(x, t, ',');
      ContainsStep(text, ",*,");
      BareStarStep(Split(t, ','), [x] + Split(t, ',')[0]);
      if x == ',' {
        assert ",*," <= text <==> "*," <= t;
        if t != "" && t[0] != ',' {
          FirstPieceIs(t[0], t[1..]);
          assert t == [t[0]] + t[1..];
        }
      }
    }
  }

  lemma AsciiPieceIsTrimmed(p: string)
    requires forall i :: 0 <= i < |p| ==> '!' <= p[i] <= '~'
    ensures TrimSpace(p) == p
  {
    if p != "" {
      TrimSame(p);
    }
  }

  lemma TrimmedInnerStar(pieces: seq<string>)
    requires forall k :: 0 <= k < |pieces| ==> TrimSpace(pieces[k]) == pieces[k]
    ensures InnerStar(pieces) <==> BareStar(pieces)
  {
  }

  /** For ASCII tags: a star stands between two commas. */
  lemma AsciiHidesStarIff(text: string)
    requires forall x :: x in text ==> '!' <= x <= '~'
    ensures HidesStar(text) <==> Contains(text, ",*,")
  {
    var pieces := Split(text, ',');
    PiecesFrom(text, ',');
    forall k | 0 <= k < |pieces| ensures TrimSpace(pieces[k]) == pieces[k] {
      assert pieces[k] in pieces && forall i :: 0 <= i < |pieces[k]| ==> pieces[k][i] in pieces[k];
      AsciiPieceIsTrimmed(pieces[k]);
    }
    TrimmedInnerStar(pieces);
    StarBetweenCommas(text);
  }

  lemma PiecesInside(a: string, b: string)
    ensures Split(a + ",*," + b, ',') == Split(a, ',') + (["*"] + Split(b, ','))
  {
    var tail := "*" + ([','] + b);
    assert ",*," == [','] + ("*" + [',']);
    assert a + ",*," + b == a + ([','] + tail);
    SplitConcat(a, tail, ',');
    SplitConcat("*", b, ',');
    SplitWhole("*", ',');
  }

  lemma StarInside(a: string, b: string)
    ensures HidesStar(a + ",*," + b)
  {
    PiecesInside(a, b);
    StarInBetween(Split(a, ','), "*", Split(b, ','));
  }

  lemma StarInBetween(p: seq<string>, star: string, q: seq<string>)
    requires p != [] && star == "*" && q != []
    ensures InnerStar(p + ([star] + q))
  {
    TrimSame(star);
    assert (p + ([star] + q))[|p|] == star;
  }

  lemma TextAround(a: string, star: string, b: string)
    requires IsText(a) && IsText(b) && star == ",*,"
    ensures IsText(a + star + b)
  {
  }

  lemma OneElement(e: Element, weak: bool, ours: string)
    requires IsElement(e) && IsText(ours) && Stands(e.tag, ours)
    ensures Matches(Header([e]), Spelled(Entity(weak, ours)))
  {
    MatchesIffListed([e], weak, ours);
    assert Stands([e][0].tag, ours);
  }

  /** One foreign tag is enough: a tag with a star between two commas, such as
      `"a,*,b"`, is a legal element, and matches every tag. */
  lemma AForeignTagCanMatch(a: string, b: string, weak: bool, ours: string)
    requires IsText(a) && IsText(b) && IsText(ours)
    ensures var e := Element("", Entity(false, a + ",*," + b), "");
      IsElement(e) && Matches(Header([e]), Spelled(Entity(weak, ours)))
  {
    var e := Element("", Entity(false, a + ",*," + b), "");
    StarInside(a, b);
    TextAround(a, ",*,", b);
    OneElement(e, weak, ours);
  }

  // ---------------------------------------------------------- conditional requests

  datatype Response = NotModified(etag: string, maxAge: int) | Full(etag: string, maxAge: int, contentType: Bytes, body: Bytes)

  function Answer(inm: string, body: Bytes, etag: string, contentType: Bytes, maxAge: int): Response {
    if Matches(inm, etag) then NotModified(etag, maxAge) else Full(etag, maxAge, contentType, body)
  }

  method WriteJSON(inm: string, body: Bytes, etag: string, contentType: Bytes, maxAge: int) returns (r: Response)
    ensures r == Answer(inm, body, etag, contentType, maxAge)
  {
    var found := InmMatches(inm, etag);
    if found {
      return NotModified(etag, maxAge);
    }
    return Full(etag, maxAge, contentType, body);
  }

  /** A request without If-None-Match, or with an empty one, gets the whole body. */
  lemma NoHeaderNoMatch(body: Bytes, etag: string, contentType: Bytes, maxAge: int)
    ensures !Matches("", etag) && Answer("", body, etag, contentType, maxAge) == Full(etag, maxAge, contentType, body)
  {
  }

  lemma OurTagIsSpelled(digest: Bytes)
    requires |digest| >= 16
    ensures TagOf(digest) == Spelled(Entity(true, Hex(digest[..16])))
  {
  }

  lemma HexHidesNothing(hex: string)
    requires forall i :: 0 <= i < |hex| ==> '0' <= hex[i] <= '9' || 'a' <= hex[i] <= 'f'
    ensures IsText(hex) && ',' !in hex && !HidesStar(hex)
  {
    SplitWhole(hex, ',');
  }

  lemma OurTag(digest: Bytes)
    requires |digest| >= 16
    ensures TagOf(digest) == Spelled(Entity(true, Hex(digest[..16])))
    ensures IsText(Hex(digest[..16])) && ',' !in Hex(digest[..16]) && !HidesStar(Hex(digest[..16]))
  {
    OurTagIsSpelled(digest);
    HexHidesNothing(Hex(digest[..16]));
  }

  /** A client that revalidates with the tag it was given is answered "not
      modified" exactly when the data hashes the same now, whatever else the body
      holds; otherwise it gets the body under the new tag. */
  lemma RevalidationSeesTheData(was: Bytes, now: Bytes, body: Bytes, contentType: Bytes, maxAge: int)
    requires |was| >= 16 && |now| >= 16
    ensures Answer(TagOf(was), body, TagOf(now), contentType, maxAge)
      == if was[..16] == now[..16] then NotModified(TagOf(was), maxAge) else Full(TagOf(now), maxAge, contentType, body)
  {
    var e := Element("", Entity(true, Hex(was[..16])), "");
    OurTag(was);
    OurTag(now);
    assert Header([e]) == Written(e) == TagOf(was);
    MatchesIffListed([e], true, Hex(now[..16]));
    assert [e][0] == e;
    TagsAreDigests(was, now);
  }
}
