/** What upsertReporter promises its operator, on whole files. */
module ReporterPromises {
  import opened Wrappers
  import opened Text
  import opened EntryList
  import opened EntryListLaws
  import opened ReporterEdit
  import opened ReporterEditLaws
  import opened ReporterYaml

  // -------------------------------------------------------- what the list says

  function RegistryOf(lines: seq<string>, k: Key, f: Format): seq<Row>
    requires k.idx < |lines|
  {
    Registry(Region(lines, k, f), f.reader(ItemIndent(k)))
  }

  lemma RowInFront(x: seq<string>, more: seq<string>, rd: Reader)
    requires Has(x, rd, Id) && Has(x, rd, Hash)
    ensures RowOf(x + more, rd) == RowOf(x, rd)
  {
    FieldInFront(x, more, rd, Id);
    FieldInFront(x, more, rd, Hash);
  }

  lemma RowsOfParts(es: seq<seq<string>>, e: seq<string>, rest: seq<seq<string>>, rd: Reader)
    ensures Rows(es + [e] + rest, rd) == Rows(es, rd) + [RowOf(e, rd)] + Rows(rest, rd)
  {
  }

  /** Adding puts one row at the end of the list, and changes none. */
  lemma AdditionAddsARow(lines: seq<string>, k: Key, r: Spec, f: Format)
    requires Lawful(f) && KeyOf(lines, f) == Ok(k) && IsSpec(r) && Edited(lines, k, r, f).1 == Added
    ensures var out := Edited(lines, k, r, f).0;
      && KeyOf(out, f) == Ok(BlockKey(k))
      && RegistryOf(out, BlockKey(k), f)
         == RegistryOf(lines, k, f) + [(Some(r.id), Some(r.tokenSha256))] + Registry(Tail(lines, k, f), f.reader(ItemIndent(k)))
  {
    var w := ItemIndent(k);
    var x, region, tail := f.entry(w, r), Region(lines, k, f), Tail(lines, k, f);
    AdditionOf(lines, k, x, f);
    AddedEntryRows(region, x, tail, f, w, r);
    RegionInList(lines, k, f);
    assert RendersEntries(f, w, r);
    SecondFile(lines, k, region + x, f);
  }

  lemma AddedEntryRows(region: seq<string>, x: seq<string>, tail: seq<string>, f: Format, w: nat, r: Spec)
    requires Lawful(f) && IsSpec(r) && x == f.entry(w, r)
    ensures Registry(region + x + tail, f.reader(w))
         == Registry(region, f.reader(w)) + [(Some(r.id), Some(r.tokenSha256))] + Registry(tail, f.reader(w))
  {
    var rd := f.reader(w);
    assert RendersEntries(f, w, r);
    AddedEntry(region, x, tail, rd);
    RowInFront(x, Preamble(tail, rd), rd);
    RowsOfParts(Entries(region, rd), x + Preamble(tail, rd), Entries(tail, rd), rd);
  }

  /** The entry rotation works on. */
  function TargetOf(lines: seq<string>, k: Key, id: string, f: Format): nat
    requires k.idx < |lines|
  {
    Target(Entries(Region(lines, k, f), f.reader(ItemIndent(k))), f.reader(ItemIndent(k)), id)
  }

  function EntryAt(lines: seq<string>, k: Key, j: nat, f: Format): seq<string>
    requires k.idx < |lines|
  {
    var es := Entries(Region(lines, k, f), f.reader(ItemIndent(k)));
    if j < |es| then es[j] else []
  }

  /** Rotating changes the hash of the first row with the id and no other row:
      exactly when that entry's hash is not its inline first field. */
  lemma RotationChangesARow(lines: seq<string>, k: Key, r: Spec, f: Format)
    requires Lawful(f) && KeyOf(lines, f) == Ok(k) && IsHash(r.tokenSha256) && Edited(lines, k, r, f).1 == Rotated
    ensures var out, j := Edited(lines, k, r, f).0, TargetOf(lines, k, r.id, f);
      && KeyOf(out, f) == Ok(k) && j < |RegistryOf(lines, k, f)|
      && (RegistryOf(out, k, f) == RegistryOf(lines, k, f)[j := (Some(r.id), Some(r.tokenSha256))]
          <==> !Inline(EntryAt(lines, k, j, f), f.reader(ItemIndent(k))))
  {
    var w := ItemIndent(k);
    var line := f.hashLine(w, r.tokenSha256);
    assert WritesHashes(f, w, r.tokenSha256);
    RotatedRegion(lines, k, r, f, w, line);
    RotatedRows(Region(lines, k, f), f.reader(w), r.id, line, r.tokenSha256);
  }

  lemma RotatedRows(region: seq<string>, rd: Reader, id: string, line: string, h: string)
    requires OneFieldALine(rd) && GivesHash(rd, line, h) && Rotate(region, rd, id, line).Some?
    ensures var j := Target(Entries(region, rd), rd, id);
      Registry(Rotate(region, rd, id, line).value, rd) == Registry(region, rd)[j := (Some(id), Some(h))]
      <==> !Inline(Entries(region, rd)[j], rd)
  {
    var j := Target(Entries(region, rd), rd, id);
    if Inline(Entries(region, rd)[j], rd) {
      InlineRotationMerges(region, rd, id, line);
    } else {
      PlainRotation(region, rd, id, line, h, line);
    }
  }

  /** The lines of the entry that rotation works on. */
  function TargetRange(lines: seq<string>, k: Key, id: string, f: Format): (nat, nat)
    requires k.idx < |lines|
  {
    var rs := Ranges(lines, ListStart(k), RegionEnd(lines, k, f), f.reader(ItemIndent(k)));
    var j := TargetOf(lines, k, id, f);
    if j < |rs| then rs[j] else (0, 0)
  }

  /** Rotating replaces one line of the named entry, or inserts one after its
      id; no other line moves or changes. */
  lemma RotationIsOneLine(lines: seq<string>, k: Key, r: Spec, f: Format)
    requires k.idx < |lines| && Edited(lines, k, r, f).1 == Rotated
    ensures var rd, range := f.reader(ItemIndent(k)), TargetRange(lines, k, r.id, f);
      && ListStart(k) <= range.0 < range.1 <= RegionEnd(lines, k, f)
      && SplicedAt(lines, range, rd, r.id, f.hashLine(ItemIndent(k), r.tokenSha256), Edited(lines, k, r, f).0)
  {
    RotatedMeansEntry(lines, k, r, f);
    OneLineRotated(lines, ListStart(k), RegionEnd(lines, k, f), f.reader(ItemIndent(k)), TargetOf(lines, k, r.id, f), r.id,
      f.hashLine(ItemIndent(k), r.tokenSha256));
  }

  /** `out` is `lines` with one line replaced, or put after the id, in the entry at the range. */
  ghost predicate SplicedAt(lines: seq<string>, range: (nat, nat), rd: Reader, id: string, line: string, out: seq<string>) {
    && range.0 <= range.1 <= |lines|
    && var e := lines[range.0..range.1];
      var d, t := FieldAt(e, rd, Id), FieldAt(e, rd, Hash);
      && d < |e| && Lookup(e, rd, Id) == Some(id)
      && out == if t < |e| then lines[range.0 + t := line] else lines[..range.0 + d + 1] + [line] + lines[range.0 + d + 1..]
  }

  lemma OneLineRotated(lines: seq<string>, start: nat, end: nat, rd: Reader, j: nat, id: string, line: string)
    requires start <= end <= |lines| && Target(Entries(lines[start..end], rd), rd, id) == j < |Entries(lines[start..end], rd)|
    ensures j < |Ranges(lines, start, end, rd)| && Ranges(lines, start, end, rd)[j].0 < Ranges(lines, start, end, rd)[j].1
    ensures RotateAt(lines, start, end, rd, id, line).Some?
      && SplicedAt(lines, Ranges(lines, start, end, rd)[j], rd, id, line, RotateAt(lines, start, end, rd, id, line).value)
  {
    RangesAreEntries(lines, start, end, rd);
    assert RangeIsEntry(lines, start, end, rd, j);
    var range := Ranges(lines, start, end, rd)[j];
    RangeSplice(lines, start, end, rd, j, id, line);
    SplicedByEntry(lines, range, rd, id, line, RotateAt(lines, start, end, rd, id, line).value);
  }

  lemma SplicedByEntry(lines: seq<string>, range: (nat, nat), rd: Reader, id: string, line: string, out: seq<string>)
    requires range.0 <= range.1 <= |lines|
    requires var e := lines[range.0..range.1];
      Has(e, rd, Id) && Lookup(e, rd, Id) == Some(id) && out == lines[..range.0] + RotateEntry(e, rd, line) + lines[range.1..]
    ensures SplicedAt(lines, range, rd, id, line, out)
  {
    var e := lines[range.0..range.1];
    EntrySplice(lines, range.0, range.1, e, rd, line);
    SplicedByLine(lines, range, e, rd, id, line, out, lines[..range.0] + RotateEntry(e, rd, line) + lines[range.1..]);
  }

  lemma SplicedByLine(lines: seq<string>, range: (nat, nat), e: seq<string>, rd: Reader, id: string, line: string, out: seq<string>, whole: seq<string>)
    requires range.0 <= range.1 <= |lines| && lines[range.0..range.1] == e && Lookup(e, rd, Id) == Some(id) && out == whole
    requires var d, t := FieldAt(e, rd, Id), FieldAt(e, rd, Hash);
      && d < |e|
      && (t < |e| ==> whole == lines[range.0 + t := line])
      && (t == |e| ==> whole == lines[..range.0 + d + 1] + [line] + lines[range.0 + d + 1..])
    ensures SplicedAt(lines, range, rd, id, line, out)
  {
  }

  // --------------------------------------------------------------- whole files

  lemma SplitsBack(lines: seq<string>)
    requires lines != [] && AllOneLine(lines)
    ensures Split(Join(lines, "\n"), '\n') == lines
  {
    assert "\n" == ['\n'];
    SplitJoin(lines, '\n');
  }

  lemma SourceLines(src: string)
    ensures AllOneLine(Split(src, '\n'))
  {
    SplitParts(src, '\n');
  }

  /** Editing keeps lines whole, so an edited text is read back as the edited lines. */
  lemma EditedLines(lines: seq<string>, k: Key, r: Spec, f: Format)
    requires Lawful(f) && KeyOf(lines, f) == Ok(k) && IsSpec(r) && AllOneLine(lines)
    ensures var out := Edited(lines, k, r, f).0; out != [] && AllOneLine(out)
    ensures Split(Join(Edited(lines, k, r, f).0, "\n"), '\n') == Edited(lines, k, r, f).0
  {
    var w, out := ItemIndent(k), Edited(lines, k, r, f).0;
    if Edited(lines, k, r, f).1 == Rotated {
      RotationIsOneLine(lines, k, r, f);
      assert WritesHashes(f, w, r.tokenSha256);
      SplicedOneLine(lines, TargetRange(lines, k, r.id, f), f.reader(w), r.id, f.hashLine(w, r.tokenSha256), out);
    } else {
      AddedOneLine(lines, k, r, f);
    }
    SplitsBack(out);
  }

  lemma SplicedOneLine(lines: seq<string>, range: (nat, nat), rd: Reader, id: string, line: string, out: seq<string>)
    requires SplicedAt(lines, range, rd, id, line, out) && range.0 < range.1 && AllOneLine(lines) && OneLine(line)
    ensures out != [] && AllOneLine(out)
  {
  }

  lemma AddedOneLine(lines: seq<string>, k: Key, r: Spec, f: Format)
    requires Lawful(f) && KeyOf(lines, f) == Ok(k) && IsSpec(r) && AllOneLine(lines)
    ensures var out := Addition(lines, k, f.entry(ItemIndent(k), r), f); out != [] && AllOneLine(out)
  {
    ReporterEditLaws.KeyLineReads(lines, k, f);
    assert RendersEntries(f, ItemIndent(k), r);
    assert k.empty ==> WritesKeys(f, k.indent);
    var end := RegionEnd(lines, k, f);
    FivePartsOneLine(lines[..k.idx], [KeyLine(lines, k, f)], lines[ListStart(k)..end], f.entry(ItemIndent(k), r), lines[end..]);
  }

  lemma FivePartsOneLine(a: seq<string>, b: seq<string>, c: seq<string>, d: seq<string>, e: seq<string>)
    requires AllOneLine(a) && AllOneLine(b) && AllOneLine(c) && AllOneLine(d) && AllOneLine(e)
    ensures AllOneLine(a + b + c + d + e)
  {
  }

  /** Adding a reporter and running the command again with a new hash gives the
      file that adding it with the new hash gives, and says it rotated. */
  lemma AddThenRotateIsAdd(src: string, r: Spec, h: string)
    requires IsSpec(r) && IsHash(h)
    requires Upsert(src, r, Yaml()).Ok? && Upsert(src, r, Yaml()).value.1 == Added
    ensures var r' := r.(tokenSha256 := h);
      && Upsert(src, r', Yaml()).Ok?
      && Upsert(Upsert(src, r, Yaml()).value.0, r', Yaml()) == Ok((Upsert(src, r', Yaml()).value.0, Rotated))
  {
    var lines, f := Split(src, '\n'), Yaml();
    YamlIsLawful();
    SourceLines(src);
    EditedLines(lines, KeyOf(lines, f).value, r, f);
    AddThenRotateLines(lines, KeyOf(lines, f).value, r, h, f);
  }

  /** When two rotations equal the last one: the hash line of the entry is not
      its item line, or the entry above would take it in unnoticed. */
  predicate RotationRepeats(src: string, id: string) {
    var lines := Split(src, '\n');
    var key := KeyOf(lines, Yaml());
    key.Ok? ==> Repeatable(Region(lines, key.value, Yaml()), Yaml().reader(ItemIndent(key.value)), id)
  }

  lemma RotateTwiceIsRotateLast(src: string, r1: Spec, r2: Spec)
    requires IsSpec(r1) && IsSpec(r2) && r1.id == r2.id && r1.tokenSha256 != r2.tokenSha256
    requires Upsert(src, r1, Yaml()).Ok? && Upsert(src, r1, Yaml()).value.1 == Rotated
    ensures Upsert(src, r2, Yaml()).Ok? && Upsert(Upsert(src, r1, Yaml()).value.0, r2, Yaml()).Ok?
    ensures Upsert(Upsert(src, r1, Yaml()).value.0, r2, Yaml()).value.0 == Upsert(src, r2, Yaml()).value.0 <==> RotationRepeats(src, r1.id)
  {
    var lines, f := Split(src, '\n'), Yaml();
    var k := KeyOf(lines, f).value;
    YamlIsLawful();
    SourceLines(src);
    RotateTwiceLines(lines, k, r1, r2, f);
    var once := Edited(lines, k, r1, f).0;
    EditedLines(lines, k, r1, f);
    EditedLines(lines, k, r2, f);
    EditedLines(once, k, r2, f);
  }

  // ---------------------------------------------------- a list that is not repeatable

  /** A list of one reporter, written with its hash before its id. */
  function HashFirst(): seq<string> {
    ["  ingest:", Spaces(4) + "reporters:", Spaces(6) + "- " + HashField("a"), Field(6, IdField("pi"))]
  }

  lemma KeyOnSecondLine(lines: seq<string>, n: nat, f: Format)
    requires |lines| > 1 && f.isIngest(lines[0]) && forall m :: 0 < m < |lines| ==> !f.isIngest(lines[m])
    requires f.step(lines[1]) == AtKey(false) && f.indent(lines[1]) == n
    ensures KeyOf(lines, f) == Ok(Key(1, n, false))
  {
    OnlyOneIs(lines, f.isIngest, 0);
  }

  lemma HashFirstKey()
    ensures KeyOf(HashFirst(), Yaml()) == Ok(Key(1, 4, false))
  {
    KeysWrite();
    assert WritesKeys(Yaml(), 4);
    OnlyIngest();
    KeyOnSecondLine(HashFirst(), 4, Yaml());
  }

  lemma OnlyIngest()
    ensures IsIngest(HashFirst()[0]) && forall m :: 0 < m < 4 ==> !IsIngest(HashFirst()[m])
  {
    assert "  ingest:"[8] == ':';
    forall m | 0 < m < 4 ensures !IsIngest(HashFirst()[m]) {
      NotIngest(HashFirst()[m]);
    }
  }

  lemma PiIsASlug()
    ensures IsSlug("pi")
  {
  }

  lemma HashFirstField()
    ensures var field := HashFirst()[3]; !IsItem(field, 6) && InList(field, 6) && FieldOf(Body(field, 6), Id) == Some("pi")
  {
    PiIsASlug();
    SlugEnds("pi");
    IdEnds("pi");
    FieldReads(6, IdField("pi"));
    SlugValue("pi");
  }

  lemma HashFirstLines()
    ensures var item, field, rd := HashFirst()[2], HashFirst()[3], Yaml().reader(6);
      && rd.isItem(item) && rd.field(item, Hash) == Some("a") && rd.field(item, Id) == None
      && !rd.isItem(field) && rd.field(field, Id) == Some("pi")
  {
    HashItemReads(6, "a");
    HashFirstField();
  }

  lemma HashFirstExtent()
    ensures Region(HashFirst(), Key(1, 4, false), Yaml()) == [HashFirst()[2], HashFirst()[3]]
  {
    HashItemReads(6, "a");
    HashFirstField();
    ListOfTwo(HashFirst(), Key(1, 4, false), 6, Yaml());
  }

  lemma ListOfTwo(lines: seq<string>, k: Key, w: nat, f: Format)
    requires |lines| == 4 && k == Key(1, k.indent, false) && ItemIndent(k) == w
    requires f.inList(lines[2], w) && f.inList(lines[3], w)
    ensures Region(lines, k, f) == [lines[2], lines[3]]
  {
    ListEndIs(lines, 2, 4, w, f);
  }

  lemma HashThenId(rd: Reader, item: string, field: string, h: string, id: string)
    requires rd.isItem(item) && rd.field(item, Hash) == Some(h) && rd.field(item, Id) == None
    requires !rd.isItem(field) && rd.field(field, Id) == Some(id)
    ensures var region := [item, field];
      Entries(region, rd) == [region] && Target(Entries(region, rd), rd, id) == 0 && !Repeatable(region, rd, id)
  {
    var e := [item, field];
    assert e[1..] == [field];
    ChopIsUnique([], [e], rd);
    assert Flatten([e]) == e && [] + e == e;
    SameFirst(e, rd, Id, 1);
    SameFirst(e, rd, Hash, 0);
    TargetIs([e], rd, id, 0);
  }

  lemma HashFirstTarget()
    ensures var rd, region := Yaml().reader(6), Region(HashFirst(), Key(1, 4, false), Yaml());
      && |Entries(region, rd)| == 1 && Target(Entries(region, rd), rd, "pi") == 0 && !Repeatable(region, rd, "pi")
  {
    HashFirstExtent();
    HashFirstLines();
    HashThenId(Yaml().reader(6), HashFirst()[2], HashFirst()[3], "a", "pi");
  }

  /** The claim that re-running only moves the hash fails here: the second
      rotation no longer finds the reporter, and adds it again. */
  lemma RotatingAnInlineHashTwice(r1: Spec, r2: Spec)
    requires IsSpec(r1) && IsSpec(r2) && r1.id == "pi" == r2.id && r1.tokenSha256 != r2.tokenSha256
    ensures var src := Join(HashFirst(), "\n");
      && Upsert(src, r1, Yaml()).Ok? && Upsert(src, r1, Yaml()).value.1 == Rotated
      && Upsert(Upsert(src, r1, Yaml()).value.0, r2, Yaml()).Ok?
      && Upsert(Upsert(src, r1, Yaml()).value.0, r2, Yaml()).value.0 != Upsert(src, r2, Yaml()).value.0
  {
    var lines, src, k := HashFirst(), Join(HashFirst(), "\n"), Key(1, 4, false);
    HashFirstOneLine();
    SplitsBack(lines);
    HashFirstKey();
    HashFirstTarget();
    AddedMeansNoEntry(lines, k, r1, Yaml());
    RotateTwiceIsRotateLast(src, r1, r2);
  }

  lemma HashFirstOneLine()
    ensures AllOneLine(HashFirst())
  {
    var lines := HashFirst();
    HashOneLine("a");
    IdEnds("pi");
    OneLineParts(Spaces(6), "- ", HashField("a"));
    OneLineParts(Spaces(8), IdField("pi"), "");
    OneLineParts(Spaces(4), "reporters:", "");
    assert Spaces(8) + IdField("pi") + "" == lines[3] && Spaces(4) + "reporters:" + "" == lines[1];
    assert OneLine(lines[0]) && OneLine(lines[1]) && OneLine(lines[2]) && OneLine(lines[3]);
  }
}
