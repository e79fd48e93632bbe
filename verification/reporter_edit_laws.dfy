/** What the reporter editor promises, for any Format that keeps a few laws about
  single lines (ReporterYaml proves that the program's format keeps them). */
module ReporterEditLaws {
  import opened Wrappers
  import opened Text
  import opened EntryList
  import opened EntryListLaws
  import opened ReporterEdit

  // ------------------------------------------------------------ what is assumed

  predicate IsHash(h: string) {
    forall i :: 0 <= i < |h| ==> '0' <= h[i] <= '9' || 'a' <= h[i] <= 'f'
  }

  predicate IsSlugChar(c: char) {
    'a' <= c <= 'z' || '0' <= c <= '9' || c == '-'
  }

  /** `^[a-z0-9][a-z0-9-]{0,62}[a-z0-9]$`. */
  predicate IsSlug(id: string) {
    && 2 <= |id| <= 64 && id[0] != '-' && id[|id| - 1] != '-'
    && forall i :: 0 <= i < |id| ==> IsSlugChar(id[i])
  }

  predicate OneLine(s: string) {
    '\n' !in s
  }

  /** A reporter as the command line gives it, with nothing that breaks a line. */
  predicate IsSpec(r: Spec) {
    && IsSlug(r.id) && IsHash(r.tokenSha256) && OneLine(r.name) && OneLine(r.staleAfter) && OneLine(r.minInterval)
    && forall i :: 0 <= i < |r.streams| ==> OneLine(r.streams[i])
  }

  ghost predicate AllInList(ls: seq<string>, w: nat, f: Format) {
    forall i :: 0 <= i < |ls| ==> f.inList(ls[i], w)
  }

  ghost predicate AllOneLine(ls: seq<string>) {
    forall i :: 0 <= i < |ls| ==> OneLine(ls[i])
  }

  /** A rendered entry is one entry with the spec's id and hash, and rotating it renders it with the new hash. */
  ghost predicate RendersEntries(f: Format, w: nat, r: Spec) {
    var e, rd := f.entry(w, r), f.reader(w);
    && IsEntry(e, rd) && AllInList(e, w, f) && AllOneLine(e)
    && RowOf(e, rd) == (Some(r.id), Some(r.tokenSha256))
    && (forall h :: IsHash(h) ==> RotateEntry(e, rd, f.hashLine(w, h)) == f.entry(w, r.(tokenSha256 := h)))
  }

  ghost predicate WritesHashes(f: Format, w: nat, h: string) {
    f.inList(f.hashLine(w, h), w) && OneLine(f.hashLine(w, h)) && GivesHash(f.reader(w), f.hashLine(w, h), h)
  }

  ghost predicate ReadsKeys(f: Format, l: string) {
    && (f.step(l).AtKey? ==> f.indent(l) > 2)
    && (forall w :: w > 4 && f.inList(l, w) ==> !f.isIngest(l))
  }

  ghost predicate WritesKeys(f: Format, n: nat) {
    f.step(f.keyLine(n)) == AtKey(false) && f.indent(f.keyLine(n)) == n && !f.isIngest(f.keyLine(n)) && OneLine(f.keyLine(n))
  }

  ghost predicate Lawful(f: Format) {
    && (forall l :: ReadsKeys(f, l))
    && (forall n :: n > 2 ==> WritesKeys(f, n))
    && (forall w: nat :: OneFieldALine(f.reader(w)))
    && (forall w: nat, h :: IsHash(h) ==> WritesHashes(f, w, h))
    && (forall w: nat, r :: IsSpec(r) ==> RendersEntries(f, w, r))
  }

  // ------------------------------------------------------- reading the file again

  /** The lines up to the key, rewritten if the list was `[]`. */
  function Head(lines: seq<string>, k: Key, f: Format): seq<string>
    requires k.idx < |lines|
  {
    lines[..k.idx] + [KeyLine(lines, k, f)]
  }

  function Region(lines: seq<string>, k: Key, f: Format): seq<string>
    requires k.idx < |lines|
  {
    lines[ListStart(k)..RegionEnd(lines, k, f)]
  }

  function Foot(lines: seq<string>, k: Key, f: Format): seq<string>
    requires k.idx < |lines|
  {
    lines[RegionEnd(lines, k, f)..]
  }

  /** Lines after an empty `[]` that are indented like items: they join the list once it is a block. */
  function Tail(lines: seq<string>, k: Key, f: Format): seq<string>
    requires k.idx < |lines|
  {
    var foot := Foot(lines, k, f);
    foot[..ListEnd(foot, 0, ItemIndent(k), f)]
  }

  function BlockKey(k: Key): Key {
    k.(empty := false)
  }

  lemma OnlyOneIs(lines: seq<string>, p: string -> bool, i: nat)
    requires i < |lines| && p(lines[i]) && forall m :: 0 <= m < |lines| && m != i ==> !p(lines[m])
    ensures OnlyOne(lines, p) == Ok(i)
  {
    var rest := lines[i + 1..];
    assert forall m :: 0 <= m < |rest| ==> rest[m] == lines[i + 1 + m];
  }

  lemma {:induction false} SameScan(lines: seq<string>, lines': seq<string>, j: nat, k: Key, f: Format)
    requires j <= k.idx < |lines| && k.idx < |lines'| && KeyScan(lines, j, f) == Ok(k)
    requires forall m :: j <= m < k.idx ==> lines'[m] == lines[m]
    requires f.step(lines'[k.idx]) == AtKey(false) && f.indent(lines'[k.idx]) == k.indent
    ensures KeyScan(lines', j, f) == Ok(BlockKey(k))
    decreases k.idx - j
  {
    if j < k.idx {
      SameScan(lines, lines', j + 1, k, f);
    }
  }

  lemma KeyLineReads(lines: seq<string>, k: Key, f: Format)
    requires Lawful(f) && KeyOf(lines, f) == Ok(k)
    ensures k.indent > 2 && f.step(KeyLine(lines, k, f)) == AtKey(false) && f.indent(KeyLine(lines, k, f)) == k.indent
    ensures k.empty ==> !f.isIngest(KeyLine(lines, k, f))
  {
    assert ReadsKeys(f, lines[k.idx]);
    assert k.indent > 2 ==> WritesKeys(f, k.indent);
  }

  /** The edited file has its key where it was, now of a block list. */
  lemma KeyStays(lines: seq<string>, k: Key, mid: seq<string>, f: Format)
    requires Lawful(f) && KeyOf(lines, f) == Ok(k) && AllInList(mid, ItemIndent(k), f)
    ensures KeyOf(Head(lines, k, f) + mid + Foot(lines, k, f), f) == Ok(BlockKey(k))
  {
    var lines' := Head(lines, k, f) + mid + Foot(lines, k, f);
    var i := OnlyOne(lines, f.isIngest).value;
    KeyLineReads(lines, k, f);
    forall m | 0 <= m < |lines'| && m != i ensures !f.isIngest(lines'[m]) {
      NoNewIngest(lines, k, mid, i, m, f);
    }
    OnlyOneIs(lines', f.isIngest, i);
    SameScan(lines, lines', i + 1, k, f);
  }

  lemma NoNewIngest(lines: seq<string>, k: Key, mid: seq<string>, i: nat, m: nat, f: Format)
    requires Lawful(f) && KeyOf(lines, f) == Ok(k) && AllInList(mid, ItemIndent(k), f)
    requires OnlyOne(lines, f.isIngest) == Ok(i) && m != i && m < |Head(lines, k, f) + mid + Foot(lines, k, f)|
    ensures !f.isIngest((Head(lines, k, f) + mid + Foot(lines, k, f))[m])
  {
    KeyLineReads(lines, k, f);
    if k.idx < m < k.idx + 1 + |mid| {
      assert ReadsKeys(f, mid[m - k.idx - 1]);
    } else if m > k.idx {
      var n := m - k.idx - 1 - |mid| + RegionEnd(lines, k, f);
      assert Foot(lines, k, f)[m - k.idx - 1 - |mid|] == lines[n];
    }
  }

  lemma ListEndIs(lines: seq<string>, i: nat, e: nat, w: nat, f: Format)
    requires i <= e <= |lines| && forall m :: i <= m < e ==> f.inList(lines[m], w)
    requires e < |lines| ==> !f.inList(lines[e], w)
    ensures ListEnd(lines, i, w, f) == e
  {
  }

  lemma RegionEndIs(lines: seq<string>, k: Key, mid: seq<string>, f: Format)
    requires k.idx < |lines| && AllInList(mid, ItemIndent(k), f)
    ensures RegionEnd(Head(lines, k, f) + mid + Foot(lines, k, f), BlockKey(k), f) == k.idx + 1 + |mid| + |Tail(lines, k, f)|
  {
    var lines', foot, w := Head(lines, k, f) + mid + Foot(lines, k, f), Foot(lines, k, f), ItemIndent(k);
    var t := ListEnd(foot, 0, w, f);
    var e := k.idx + 1 + |mid| + t;
    forall m | k.idx + 1 <= m < e ensures f.inList(lines'[m], w) {
      assert lines'[m] == if m < k.idx + 1 + |mid| then mid[m - k.idx - 1] else foot[m - k.idx - 1 - |mid|];
    }
    assert e < |lines'| ==> lines'[e] == foot[t];
    ListEndIs(lines', k.idx + 1, e, w, f);
  }

  /** And its list is what was written, with the lines that were waiting below. */
  lemma RegionIs(lines: seq<string>, k: Key, mid: seq<string>, f: Format)
    requires k.idx < |lines| && AllInList(mid, ItemIndent(k), f)
    ensures var lines', k' := Head(lines, k, f) + mid + Foot(lines, k, f), BlockKey(k);
      && Head(lines', k', f) == Head(lines, k, f)
      && Region(lines', k', f) == mid + Tail(lines, k, f)
      && Tail(lines, k, f) + Foot(lines', k', f) == Foot(lines, k, f)
  {
    var head, tail, foot := Head(lines, k, f), Tail(lines, k, f), Foot(lines, k, f);
    RegionEndIs(lines, k, mid, f);
    Fields(head, mid, tail, foot[|tail|..], head + mid + foot, foot);
  }

  lemma Fields(head: seq<string>, mid: seq<string>, tail: seq<string>, rest: seq<string>, whole: seq<string>, foot: seq<string>)
    requires foot == tail + rest && whole == head + mid + foot && |head| > 0
    ensures var a, b := |head|, |head| + |mid| + |tail|;
      && whole[..a - 1] + [whole[a - 1]] == head && whole[a..b] == mid + tail && whole[b..] == rest
  {
  }

  lemma NoTailOfABlock(lines: seq<string>, k: Key, f: Format)
    requires k.idx < |lines| && !k.empty
    ensures Tail(lines, k, f) == [] && AllInList(Region(lines, k, f), ItemIndent(k), f)
  {
    ListEndIs(Foot(lines, k, f), 0, 0, ItemIndent(k), f);
  }

  /** Rotating inside a file whose region is known. */
  lemma RotationOf(lines: seq<string>, k: Key, r: Spec, f: Format)
    requires k.idx < |lines| && !k.empty
    ensures var rot := Rotate(Region(lines, k, f), f.reader(ItemIndent(k)), r.id, f.hashLine(ItemIndent(k), r.tokenSha256));
      Rotation(lines, k, r, f) == if rot.None? then None else Some(Head(lines, k, f) + rot.value + Foot(lines, k, f))
  {
    assert lines[..ListStart(k)] == Head(lines, k, f);
  }

  lemma AdditionOf(lines: seq<string>, k: Key, entry: seq<string>, f: Format)
    requires k.idx < |lines|
    ensures Addition(lines, k, entry, f) == Head(lines, k, f) + (Region(lines, k, f) + entry) + Foot(lines, k, f)
  {
  }

  // -------------------------------------------------------- add, then change the hash

  ghost predicate NoEntryFor(lines: seq<string>, k: Key, id: string, f: Format)
    requires k.idx < |lines|
  {
    var es := Entries(Region(lines, k, f), f.reader(ItemIndent(k)));
    Target(es, f.reader(ItemIndent(k)), id) == |es|
  }

  lemma AddedMeansNoEntry(lines: seq<string>, k: Key, r: Spec, f: Format)
    requires k.idx < |lines|
    ensures Edited(lines, k, r, f).1 == Added <==> NoEntryFor(lines, k, r.id, f)
  {
    if k.empty {
      assert Region(lines, k, f) == [];
    } else {
      RotationOf(lines, k, r, f);
    }
  }

  /** After adding a reporter, the same command with a new hash rotates it, and
      gives the lines that adding it with that hash would have given. */
  lemma AddThenRotateLines(lines: seq<string>, k: Key, r: Spec, h: string, f: Format)
    requires Lawful(f) && KeyOf(lines, f) == Ok(k) && IsSpec(r) && IsHash(h) && Edited(lines, k, r, f).1 == Added
    ensures var out, r' := Edited(lines, k, r, f).0, r.(tokenSha256 := h);
      && KeyOf(out, f) == Ok(BlockKey(k))
      && Edited(lines, k, r', f).1 == Added
      && Edited(out, BlockKey(k), r', f) == (Edited(lines, k, r', f).0, Rotated)
  {
    var w, r' := ItemIndent(k), r.(tokenSha256 := h);
    AddedMeansNoEntry(lines, k, r, f);
    AddedMeansNoEntry(lines, k, r', f);
    AdditionOf(lines, k, f.entry(w, r), f);
    AdditionOf(lines, k, f.entry(w, r'), f);
    RotatesWhatWasAdded(lines, k, r, h, f);
    SecondEdit(lines, k, Region(lines, k, f) + f.entry(w, r), Region(lines, k, f) + f.entry(w, r'), r', f);
  }

  lemma RotatesWhatWasAdded(lines: seq<string>, k: Key, r: Spec, h: string, f: Format)
    requires Lawful(f) && k.idx < |lines| && IsSpec(r) && IsHash(h) && NoEntryFor(lines, k, r.id, f)
    ensures var w, region, tail := ItemIndent(k), Region(lines, k, f), Tail(lines, k, f);
      && AllInList(region + f.entry(w, r), w, f)
      && Rotate(region + f.entry(w, r) + tail, f.reader(w), r.id, f.hashLine(w, h))
         == Some(region + f.entry(w, r.(tokenSha256 := h)) + tail)
  {
    var w := ItemIndent(k);
    assert RendersEntries(f, w, r);
    RegionInList(lines, k, f);
    AddThenRotate(Region(lines, k, f), f.entry(w, r), Tail(lines, k, f), f.reader(w), r.id, r.tokenSha256, f.hashLine(w, h));
  }

  /** What a second edit of an edited file does, from what rotation does to the list. */
  lemma SecondEdit(lines: seq<string>, k: Key, mid: seq<string>, mid': seq<string>, r: Spec, f: Format)
    requires Lawful(f) && KeyOf(lines, f) == Ok(k) && AllInList(mid, ItemIndent(k), f)
    requires var w, tail := ItemIndent(k), Tail(lines, k, f);
      Rotate(mid + tail, f.reader(w), r.id, f.hashLine(w, r.tokenSha256)) == Some(mid' + tail)
    ensures var out := Head(lines, k, f) + mid + Foot(lines, k, f);
      && KeyOf(out, f) == Ok(BlockKey(k))
      && Edited(out, BlockKey(k), r, f) == (Head(lines, k, f) + mid' + Foot(lines, k, f), Rotated)
  {
    var out := Head(lines, k, f) + mid + Foot(lines, k, f);
    SecondFile(lines, k, mid, f);
    RotatedFile(out, BlockKey(k), r, f, ItemIndent(k), Head(lines, k, f), mid, mid', Tail(lines, k, f), Foot(lines, k, f));
  }

  /** How an edited file falls into head, list and foot. */
  lemma SecondFile(lines: seq<string>, k: Key, mid: seq<string>, f: Format)
    requires Lawful(f) && KeyOf(lines, f) == Ok(k) && AllInList(mid, ItemIndent(k), f)
    ensures var out, k' := Head(lines, k, f) + mid + Foot(lines, k, f), BlockKey(k);
      && KeyOf(out, f) == Ok(k') && ItemIndent(k') == ItemIndent(k)
      && Head(out, k', f) == Head(lines, k, f)
      && Region(out, k', f) == mid + Tail(lines, k, f)
      && Tail(lines, k, f) + Foot(out, k', f) == Foot(lines, k, f)
  {
    KeyStays(lines, k, mid, f);
    RegionIs(lines, k, mid, f);
  }

  lemma RotatedFile(out: seq<string>, k: Key, r: Spec, f: Format, w: nat, head: seq<string>, mid: seq<string>, mid': seq<string>,
                    tail: seq<string>, foot: seq<string>)
    requires k.idx < |out| && !k.empty && ItemIndent(k) == w
    requires Head(out, k, f) == head && Region(out, k, f) == mid + tail && tail + Foot(out, k, f) == foot
    requires Rotate(mid + tail, f.reader(w), r.id, f.hashLine(w, r.tokenSha256)) == Some(mid' + tail)
    ensures Edited(out, k, r, f) == (head + mid' + foot, Rotated)
  {
    RotationOf(out, k, r, f);
    Reassociate(head, mid', tail, Foot(out, k, f));
  }

  lemma RegionInList(lines: seq<string>, k: Key, f: Format)
    requires k.idx < |lines|
    ensures AllInList(Region(lines, k, f), ItemIndent(k), f)
  {
    if !k.empty {
      NoTailOfABlock(lines, k, f);
    }
  }

  lemma Reassociate(a: seq<string>, b: seq<string>, c: seq<string>, d: seq<string>)
    ensures a + (b + c) + d == a + b + (c + d)
  {
  }

  // ------------------------------------------------------------- rotating twice

  /** A rotated list has the lines it had, and the new one. */
  lemma RotatedInList(region: seq<string>, w: nat, rd: Reader, id: string, line: string, f: Format)
    requires AllInList(region, w, f) && f.inList(line, w) && Rotate(region, rd, id, line).Some?
    ensures AllInList(Rotate(region, rd, id, line).value, w, f)
  {
    var es := Entries(region, rd);
    var j := Target(es, rd, id);
    OneEntryRotated(region, rd, j, id, line);
    InListParts(region, Preamble(region, rd), Flatten(es[..j]), es[j], Flatten(es[j + 1..]), w, f);
    EntryInList(es[j], w, rd, line, f);
    InListWhole(Preamble(region, rd), Flatten(es[..j]), RotateEntry(es[j], rd, line), Flatten(es[j + 1..]), w, f);
  }

  lemma EntryInList(e: seq<string>, w: nat, rd: Reader, line: string, f: Format)
    requires AllInList(e, w, f) && f.inList(line, w) && Has(e, rd, Id)
    ensures AllInList(RotateEntry(e, rd, line), w, f)
  {
  }

  lemma InListWhole(a: seq<string>, b: seq<string>, c: seq<string>, d: seq<string>, w: nat, f: Format)
    requires AllInList(a, w, f) && AllInList(b, w, f) && AllInList(c, w, f) && AllInList(d, w, f)
    ensures AllInList(a + (b + c + d), w, f)
  {
  }

  lemma InListParts(region: seq<string>, a: seq<string>, b: seq<string>, c: seq<string>, d: seq<string>, w: nat, f: Format)
    requires region == a + (b + c + d) && AllInList(region, w, f)
    ensures AllInList(a, w, f) && AllInList(b, w, f) && AllInList(c, w, f) && AllInList(d, w, f)
  {
    var i, j, k := |a|, |a| + |b|, |a| + |b| + |c|;
    assert a == region[..i] && b == region[i..j] && c == region[j..k] && d == region[k..];
  }

  lemma RotatedMeansEntry(lines: seq<string>, k: Key, r: Spec, f: Format)
    requires k.idx < |lines| && Edited(lines, k, r, f).1 == Rotated
    ensures !k.empty && BlockKey(k) == k && !NoEntryFor(lines, k, r.id, f)
    ensures var rot := Rotate(Region(lines, k, f), f.reader(ItemIndent(k)), r.id, f.hashLine(ItemIndent(k), r.tokenSha256));
      rot.Some? && Edited(lines, k, r, f).0 == Head(lines, k, f) + rot.value + Foot(lines, k, f)
  {
    AddedMeansNoEntry(lines, k, r, f);
    RotationOf(lines, k, r, f);
  }

  /** The list a rotation leaves in the file. */
  lemma RotatedRegion(lines: seq<string>, k: Key, r: Spec, f: Format, w: nat, line: string)
    requires Lawful(f) && KeyOf(lines, f) == Ok(k) && IsHash(r.tokenSha256) && Edited(lines, k, r, f).1 == Rotated
    requires w == ItemIndent(k) && line == f.hashLine(w, r.tokenSha256)
    ensures !k.empty && Rotate(Region(lines, k, f), f.reader(w), r.id, line).Some?
    ensures var out := Edited(lines, k, r, f).0;
      && KeyOf(out, f) == Ok(k) && Head(out, k, f) == Head(lines, k, f) && Foot(out, k, f) == Foot(lines, k, f)
      && Region(out, k, f) == Rotate(Region(lines, k, f), f.reader(w), r.id, line).value
      && out == Head(out, k, f) + Region(out, k, f) + Foot(out, k, f)
  {
    RotatedMeansEntry(lines, k, r, f);
    assert WritesHashes(f, w, r.tokenSha256);
    RegionInList(lines, k, f);
    RotatedInList(Region(lines, k, f), w, f.reader(w), r.id, line, f);
    NoTailOfABlock(lines, k, f);
    SecondFile(lines, k, Rotate(Region(lines, k, f), f.reader(w), r.id, line).value, f);
  }

  /** Rotating leaves the line l at place p; so does a list without the id, as it stands. */
  ghost predicate Leaves(region: seq<string>, rd: Reader, id: string, line: string, p: nat, l: string) {
    var rot := Rotate(region, rd, id, line);
    if rot.Some? then p < |rot.value| && rot.value[p] == l else p < |region| && region[p] == l
  }

  /** The line an edit leaves in the file at place p of the list. */
  lemma LineOfEdited(lines: seq<string>, k: Key, r: Spec, f: Format, region: seq<string>, w: nat, line: string, p: nat, l: string)
    requires k.idx < |lines| && !k.empty && region == Region(lines, k, f) && w == ItemIndent(k) && line == f.hashLine(w, r.tokenSha256)
    requires Leaves(region, f.reader(w), r.id, line, p, l)
    ensures var out, q := Edited(lines, k, r, f).0, |Head(lines, k, f)| + p; q < |out| && out[q] == l
  {
    RotationOf(lines, k, r, f);
    if Rotation(lines, k, r, f).None? {
      AdditionOf(lines, k, f.entry(w, r), f);
    }
  }

  lemma StillThere(region: seq<string>, mid: seq<string>, rd: Reader, id: string, l1: string, h1: string, l2: string) returns (p: nat)
    requires OneFieldALine(rd) && GivesHash(rd, l1, h1) && Rotate(region, rd, id, l1) == Some(mid) && !Repeatable(region, rd, id)
    ensures Leaves(region, rd, id, l2, p, l2) && Leaves(mid, rd, id, l2, p, l1)
  {
    p := Place(region, rd, Target(Entries(region, rd), rd, id));
    InlineRotationTwice(region, rd, id, l1, h1, l2);
  }

  /** Two rotations of one id equal the last alone exactly when the list is
      Repeatable; cmd/ingest-token/edit.go:55-58 expects it of every list. */
  lemma RotateTwiceLines(lines: seq<string>, k: Key, r1: Spec, r2: Spec, f: Format)
    requires Lawful(f) && KeyOf(lines, f) == Ok(k) && IsHash(r1.tokenSha256) && IsHash(r2.tokenSha256)
    requires r1.id == r2.id && r1.tokenSha256 != r2.tokenSha256 && Edited(lines, k, r1, f).1 == Rotated
    ensures KeyOf(Edited(lines, k, r1, f).0, f) == Ok(k)
    ensures Edited(Edited(lines, k, r1, f).0, k, r2, f).0 == Edited(lines, k, r2, f).0
        <==> Repeatable(Region(lines, k, f), f.reader(ItemIndent(k)), r1.id)
  {
    var w := ItemIndent(k);
    var rd, l1, l2 := f.reader(w), f.hashLine(w, r1.tokenSha256), f.hashLine(w, r2.tokenSha256);
    assert WritesHashes(f, w, r1.tokenSha256) && WritesHashes(f, w, r2.tokenSha256);
    RotatedRegion(lines, k, r1, f, w, l1);
    if Repeatable(Region(lines, k, f), rd, r1.id) {
      RepeatedRotation(lines, k, r1, r2, f, w, l1, l2);
    } else {
      var out := Edited(lines, k, r1, f).0;
      var q := UnrepeatableRotation(lines, out, k, r2, f, Region(lines, k, f), Region(out, k, f), w, l1, r1.tokenSha256, l2);
    }
  }

  /** Otherwise the line with the first hash is still in the file. */
  lemma UnrepeatableRotation(lines: seq<string>, out: seq<string>, k: Key, r2: Spec, f: Format, region: seq<string>, mid: seq<string>,
                             w: nat, l1: string, h1: string, l2: string) returns (q: nat)
    requires OneFieldALine(f.reader(w)) && GivesHash(f.reader(w), l1, h1)
    requires k.idx < |lines| && k.idx < |out| && !k.empty && w == ItemIndent(k) && l2 == f.hashLine(w, r2.tokenSha256)
    requires Region(lines, k, f) == region && Region(out, k, f) == mid && Head(out, k, f) == Head(lines, k, f)
    requires Rotate(region, f.reader(w), r2.id, l1) == Some(mid) && !Repeatable(region, f.reader(w), r2.id)
    ensures var twice, alone := Edited(out, k, r2, f).0, Edited(lines, k, r2, f).0;
      q < |twice| && q < |alone| && twice[q] == l1 && alone[q] == l2
  {
    var p := StillThere(region, mid, f.reader(w), r2.id, l1, h1, l2);
    LineOfEdited(lines, k, r2, f, region, w, l2, p, l2);
    LineOfEdited(out, k, r2, f, mid, w, l2, p, l1);
    q := |Head(lines, k, f)| + p;
  }

  lemma RepeatedRotation(lines: seq<string>, k: Key, r1: Spec, r2: Spec, f: Format, w: nat, l1: string, l2: string)
    requires Lawful(f) && KeyOf(lines, f) == Ok(k) && IsHash(r1.tokenSha256) && r1.id == r2.id && Edited(lines, k, r1, f).1 == Rotated
    requires w == ItemIndent(k) && l1 == f.hashLine(w, r1.tokenSha256) && l2 == f.hashLine(w, r2.tokenSha256)
    requires Repeatable(Region(lines, k, f), f.reader(w), r1.id)
    ensures Edited(Edited(lines, k, r1, f).0, k, r2, f) == Edited(lines, k, r2, f)
  {
    var rd, region, out := f.reader(w), Region(lines, k, f), Edited(lines, k, r1, f).0;
    assert WritesHashes(f, w, r1.tokenSha256);
    RotatedRegion(lines, k, r1, f, w, l1);
    if Inline(Entries(region, rd)[Target(Entries(region, rd), rd, r1.id)], rd) {
      InlineRotationTwice(region, rd, r1.id, l1, r1.tokenSha256, l2);
    } else {
      PlainRotation(region, rd, r1.id, l1, r1.tokenSha256, l2);
    }
    RotationOf(lines, k, r2, f);
    RotationOf(out, k, r2, f);
  }
}
