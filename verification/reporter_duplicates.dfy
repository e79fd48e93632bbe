/** When the reporter editor (cmd/ingest-token/edit.go) writes a second entry for
  an id: its list ends at the first line that is blank or indented less than an
  item, but the file's list may go on below. */
module ReporterDuplicates {
  import opened Wrappers
  import opened Text
  import opened EntryList
  import opened EntryListLaws
  import opened ReporterEdit
  import opened ReporterEditLaws
  import opened ReporterYaml
  import opened ReporterPromises

  /** How many rows have the id. */
  function Named(rows: seq<Row>, id: string): (n: nat)
    ensures n > 0 <==> exists row :: row in rows && row.0 == Some(id)
  {
    if rows == [] then 0 else (if rows[0].0 == Some(id) then 1 else 0) + Named(rows[1..], id)
  }

  lemma {:induction false} NamedAppend(a: seq<Row>, b: seq<Row>, id: string)
    ensures Named(a + b, id) == Named(a, id) + Named(b, id)
  {
    if a == [] {
      assert a + b == b;
    } else {
      assert (a + b)[1..] == a[1..] + b;
      NamedAppend(a[1..], b, id);
    }
  }

  /** The rows of the entries whose items are among the lines from `from` to `to`. */
  function RowsIn(lines: seq<string>, from: nat, to: nat, rd: Reader): seq<Row>
    requires from <= to <= |lines|
  {
    Registry(lines[from..to], rd)
  }

  lemma {:induction false} NoTargetNoRow(es: seq<seq<string>>, rd: Reader, id: string)
    requires Target(es, rd, id) == |es|
    ensures Named(Rows(es, rd), id) == 0
  {
    forall row | row in Rows(es, rd) ensures row.0 != Some(id) {
      var j :| 0 <= j < |es| && Rows(es, rd)[j] == row;
    }
  }

  /** After an addition the lines from the key down to any line below the editor's
      list have as many entries with the id as stood below that list, and one
      more: so it writes a second one exactly if an item below has the id. */
  lemma AdditionDuplicates(lines: seq<string>, k: Key, r: Spec, f: Format, to: nat, out: seq<string>)
    requires Lawful(f) && IsSpec(r) && k.idx < |lines| && RegionEnd(lines, k, f) <= to <= |lines|
    requires Edited(lines, k, r, f) == (out, Added)
    ensures var rd, to' := f.reader(ItemIndent(k)), to + |f.entry(ItemIndent(k), r)|;
      && to' <= |out|
      && Named(RowsIn(out, ListStart(k), to', rd), r.id) == Named(RowsIn(lines, RegionEnd(lines, k, f), to, rd), r.id) + 1
  {
    AddedIffUnnamed(lines, k, r, f);
    EditedDownTo(lines, k, r, f, to, out);
    NamedInAddition(lines, k, r, f, to, ItemIndent(k), f.entry(ItemIndent(k), r), out);
  }

  lemma EditedDownTo(lines: seq<string>, k: Key, r: Spec, f: Format, to: nat, out: seq<string>)
    requires k.idx < |lines| && RegionEnd(lines, k, f) <= to <= |lines| && Edited(lines, k, r, f) == (out, Added)
    ensures var x := f.entry(ItemIndent(k), r);
      to + |x| <= |out| && out[ListStart(k)..to + |x|] == Region(lines, k, f) + x + lines[RegionEnd(lines, k, f)..to]
  {
    AddedDownTo(lines, k, f.entry(ItemIndent(k), r), f, to);
  }

  lemma NamedInAddition(lines: seq<string>, k: Key, r: Spec, f: Format, to: nat, w: nat, x: seq<string>, out: seq<string>)
    requires Lawful(f) && IsSpec(r) && k.idx < |lines| && RegionEnd(lines, k, f) <= to <= |lines|
    requires w == ItemIndent(k) && x == f.entry(w, r) && Named(RegistryOf(lines, k, f), r.id) == 0
    requires to + |x| <= |out| && out[ListStart(k)..to + |x|] == Region(lines, k, f) + x + lines[RegionEnd(lines, k, f)..to]
    ensures Named(RowsIn(out, ListStart(k), to + |x|, f.reader(w)), r.id)
      == Named(RowsIn(lines, RegionEnd(lines, k, f), to, f.reader(w)), r.id) + 1
  {
    NamedAdded(Region(lines, k, f), x, lines[RegionEnd(lines, k, f)..to], f, w, r);
  }

  lemma NamedAdded(region: seq<string>, x: seq<string>, below: seq<string>, f: Format, w: nat, r: Spec)
    requires Lawful(f) && IsSpec(r) && x == f.entry(w, r)
    ensures Named(Registry(region + x + below, f.reader(w)), r.id)
      == Named(Registry(region, f.reader(w)), r.id) + Named(Registry(below, f.reader(w)), r.id) + 1
  {
    var a, mid, b := Registry(region, f.reader(w)), [(Some(r.id), Some(r.tokenSha256))], Registry(below, f.reader(w));
    AddedEntryRows(region, x, below, f, w, r);
    NamedAppend(a + mid, b, r.id);
    NamedAppend(a, mid, r.id);
    assert Named(mid, r.id) == 1;
  }

  /** An upsert is an addition exactly if no entry of the editor's list has the id. */
  lemma AddedIffUnnamed(lines: seq<string>, k: Key, r: Spec, f: Format)
    requires k.idx < |lines|
    ensures Edited(lines, k, r, f).1 == Added <==> Named(RegistryOf(lines, k, f), r.id) == 0
  {
    var rd := f.reader(ItemIndent(k));
    var es := Entries(Region(lines, k, f), rd);
    AddedMeansNoEntry(lines, k, r, f);
    var j := Target(es, rd, r.id);
    if j == |es| {
      NoTargetNoRow(es, rd, r.id);
    } else {
      assert Rows(es, rd)[j] == RowOf(es[j], rd) && RowOf(es[j], rd) in Rows(es, rd);
    }
  }

  lemma AddedDownTo(lines: seq<string>, k: Key, x: seq<string>, f: Format, to: nat)
    requires k.idx < |lines| && RegionEnd(lines, k, f) <= to <= |lines|
    ensures var out := Addition(lines, k, x, f);
      to + |x| <= |out| && out[ListStart(k)..to + |x|] == Region(lines, k, f) + x + lines[RegionEnd(lines, k, f)..to]
  {
    var end := RegionEnd(lines, k, f);
    var a, b, c := lines[..k.idx], [KeyLine(lines, k, f)], lines[ListStart(k)..end];
    Window(a + b, c + x, lines[end..to], lines[to..]);
    assert lines[end..] == lines[end..to] + lines[to..];
    assert Addition(lines, k, x, f) == (a + b) + (c + x) + lines[end..to] + lines[to..];
  }

  lemma Window(a: seq<string>, b: seq<string>, c: seq<string>, d: seq<string>)
    ensures (a + b + c + d)[|a|..|a| + |b| + |c|] == b + c
  {
  }

  // ------------------------------------------------- a blank line between two entries

  /** A list of two entries with one line between them. */
  function Spaced(ingest: string, key: string, a: seq<string>, gap: string, b: seq<string>): seq<string> {
    [ingest, key] + a + [gap] + b
  }

  lemma SpacedKey(ingest: string, n: nat, a: seq<string>, gap: string, b: seq<string>, f: Format)
    requires Lawful(f) && n > 2 && f.isIngest(ingest) && !f.isIngest(gap)
    requires AllInList(a, n + 2, f) && AllInList(b, n + 2, f)
    ensures KeyOf(Spaced(ingest, f.keyLine(n), a, gap, b), f) == Ok(Key(1, n, false))
  {
    var lines := Spaced(ingest, f.keyLine(n), a, gap, b);
    assert WritesKeys(f, n);
    forall m | 0 < m < |lines| ensures !f.isIngest(lines[m]) {
      assert ReadsKeys(f, lines[m]);
      if m == 1 || m == 2 + |a| {
      } else if m < 2 + |a| {
        assert lines[m] == a[m - 2];
      } else {
        assert lines[m] == b[m - 3 - |a|];
      }
    }
    KeyOnSecondLine(lines, n, f);
  }

  lemma SpacedExtent(ingest: string, key: string, k: Key, w: nat, a: seq<string>, gap: string, b: seq<string>, f: Format)
    requires k == Key(1, k.indent, false) && w == ItemIndent(k) && AllInList(a, w, f) && !f.inList(gap, w)
    ensures var lines := Spaced(ingest, key, a, gap, b);
      RegionEnd(lines, k, f) == 2 + |a| && lines[2..2 + |a|] == a && lines[2..|lines|] == a + [gap] + b && lines[2 + |a|..|lines|] == [gap] + b
  {
    var lines := Spaced(ingest, key, a, gap, b);
    forall m | 2 <= m < 2 + |a| ensures f.inList(lines[m], w) {
      assert lines[m] == a[m - 2];
    }
    ListEndIs(lines, 2, 2 + |a|, w, f);
  }

  lemma OneEntryRow(pre: seq<string>, a: seq<string>, rd: Reader)
    requires NoItems(pre, rd) && IsEntry(a, rd)
    ensures Registry(pre + a, rd) == [RowOf(a, rd)]
  {
    assert Flatten([a]) == a;
    ChopIsUnique(pre, [a], rd);
  }

  lemma TwoEntryRows(a: seq<string>, gap: string, b: seq<string>, rd: Reader)
    requires IsEntry(a, rd) && IsEntry(b, rd) && !rd.isItem(gap) && Has(a, rd, Id) && Has(a, rd, Hash)
    ensures Registry(a + [gap] + b, rd) == [RowOf(a, rd), RowOf(b, rd)]
  {
    var first := a + [gap];
    assert first[1..] == a[1..] + [gap];
    FlattenPair(first, b);
    ChopIsUnique([], [first, b], rd);
    RowInFront(a, [gap], rd);
  }

  lemma FlattenPair(a: seq<string>, b: seq<string>)
    ensures [] + Flatten([a, b]) == a + b
  {
    assert [a, b][1..] == [b] && [b][1..] == [];
    assert Flatten([b]) == b;
  }

  /** The editor sees the first entry only; the file's list holds both. */
  lemma SpacedRows(ingest: string, key: string, k: Key, w: nat, a: seq<string>, gap: string, b: seq<string>, f: Format, rd: Reader)
    requires k == Key(1, k.indent, false) && w == ItemIndent(k) && AllInList(a, w, f) && !f.inList(gap, w)
    requires rd == f.reader(w) && !rd.isItem(gap) && IsEntry(a, rd) && IsEntry(b, rd) && Has(a, rd, Id) && Has(a, rd, Hash)
    ensures var lines := Spaced(ingest, key, a, gap, b);
      && RegionEnd(lines, k, f) == 2 + |a|
      && RegistryOf(lines, k, f) == [RowOf(a, rd)]
      && RowsIn(lines, 2, |lines|, rd) == [RowOf(a, rd), RowOf(b, rd)]
      && RowsIn(lines, 2 + |a|, |lines|, rd) == [RowOf(b, rd)]
  {
    SpacedExtent(ingest, key, k, w, a, gap, b, f);
    assert [] + a == a;
    OneEntryRow([], a, rd);
    OneEntryRow([gap], b, rd);
    TwoEntryRows(a, gap, b, rd);
  }

  lemma BlankLine(w: nat)
    ensures !IsIngest("") && !InList("", w) && !IsItem("", w)
  {
    assert TrimBlanks("") == "" && TrimSpace("") == "";
  }

  lemma IngestLine()
    ensures IsIngest("  ingest:")
  {
    assert "  ingest:"[8] == ':';
  }

  /** The lines down to `to` have the id once; those of `out`, which grew by n, twice. */
  ghost predicate Doubled(lines: seq<string>, out: seq<string>, k: Key, to: nat, n: nat, rd: Reader, id: string) {
    && ListStart(k) <= to <= |lines| && to + n <= |out|
    && Named(RowsIn(lines, ListStart(k), to, rd), id) == 1
    && Named(RowsIn(out, ListStart(k), to + n, rd), id) == 2
  }

  lemma OneBelowIsDoubled(lines: seq<string>, k: Key, r: Spec, f: Format, to: nat, out: seq<string>)
    requires Lawful(f) && IsSpec(r) && k.idx < |lines| && RegionEnd(lines, k, f) <= to <= |lines|
    requires Edited(lines, k, r, f) == (out, Added)
    requires var rd := f.reader(ItemIndent(k));
      Named(RowsIn(lines, ListStart(k), to, rd), r.id) == 1 == Named(RowsIn(lines, RegionEnd(lines, k, f), to, rd), r.id)
    ensures Doubled(lines, out, k, to, |f.entry(ItemIndent(k), r)|, f.reader(ItemIndent(k)), r.id)
  {
    AdditionDuplicates(lines, k, r, f, to, out);
  }

  /** The file's list has the id once, the command for it adds it, and then it is there twice. */
  ghost predicate AddedAgain(f: Format, lines: seq<string>, k: Key, r: Spec)
    requires k.idx < |lines|
  {
    && Edited(lines, k, r, f).1 == Added
    && Doubled(lines, Edited(lines, k, r, f).0, k, |lines|, |f.entry(ItemIndent(k), r)|, f.reader(ItemIndent(k)), r.id)
  }

  /** The id is not in the editor's list, and once below it. */
  ghost predicate OnceBelow(f: Format, lines: seq<string>, k: Key, rd: Reader, id: string) {
    && k.idx < |lines| && RegionEnd(lines, k, f) <= |lines|
    && Named(RegistryOf(lines, k, f), id) == 0
    && Named(RowsIn(lines, ListStart(k), |lines|, rd), id) == 1 == Named(RowsIn(lines, RegionEnd(lines, k, f), |lines|, rd), id)
  }

  lemma AddedAgainIf(f: Format, lines: seq<string>, k: Key, r: Spec)
    requires Lawful(f) && IsSpec(r) && OnceBelow(f, lines, k, f.reader(ItemIndent(k)), r.id)
    ensures AddedAgain(f, lines, k, r)
  {
    AddedIffUnnamed(lines, k, r, f);
    OneBelowIsDoubled(lines, k, r, f, |lines|, Edited(lines, k, r, f).0);
  }

  lemma TheSecondIsBelow(f: Format, ingest: string, k: Key, w: nat, gap: string, r1: Spec, r2: Spec)
    requires Lawful(f) && IsSpec(r1) && IsSpec(r2) && r1.id != r2.id
    requires k == Key(1, k.indent, false) && w == ItemIndent(k) && !f.inList(gap, w) && !f.reader(w).isItem(gap)
    ensures OnceBelow(f, Spaced(ingest, f.keyLine(k.indent), f.entry(w, r1), gap, f.entry(w, r2)), k, f.reader(w), r2.id)
  {
    assert RendersEntries(f, w, r1) && RendersEntries(f, w, r2);
    SpacedRows(ingest, f.keyLine(k.indent), k, w, f.entry(w, r1), gap, f.entry(w, r2), f, f.reader(w));
    NamedPair(r1, r2);
  }

  lemma AGapHidesAReporter(f: Format, ingest: string, k: Key, w: nat, gap: string, r1: Spec, r2: Spec, h: string)
    requires Lawful(f) && IsSpec(r1) && IsSpec(r2) && r1.id != r2.id && IsHash(h)
    requires k == Key(1, k.indent, false) && w == ItemIndent(k) && !f.inList(gap, w) && !f.reader(w).isItem(gap)
    ensures var lines, r := Spaced(ingest, f.keyLine(k.indent), f.entry(w, r1), gap, f.entry(w, r2)), r2.(tokenSha256 := h);
      k.idx < |lines| && AddedAgain(f, lines, k, r)
  {
    TheSecondIsBelow(f, ingest, k, w, gap, r1, r2);
    AddedAgainIf(f, Spaced(ingest, f.keyLine(k.indent), f.entry(w, r1), gap, f.entry(w, r2)), k, r2.(tokenSha256 := h));
  }

  lemma TheKeyIsFound(f: Format, ingest: string, k: Key, w: nat, gap: string, r1: Spec, r2: Spec)
    requires Lawful(f) && IsSpec(r1) && IsSpec(r2) && k == Key(1, k.indent, false) && k.indent > 2 && w == ItemIndent(k)
    requires f.isIngest(ingest) && !f.isIngest(gap)
    ensures KeyOf(Spaced(ingest, f.keyLine(k.indent), f.entry(w, r1), gap, f.entry(w, r2)), f) == Ok(k)
  {
    assert RendersEntries(f, w, r1) && RendersEntries(f, w, r2);
    SpacedKey(ingest, k.indent, f.entry(w, r1), gap, f.entry(w, r2), f);
  }

  lemma NamedPair(r1: Spec, r2: Spec)
    requires r1.id != r2.id
    ensures var x, y := (Some(r1.id), Some(r1.tokenSha256)), (Some(r2.id), Some(r2.tokenSha256));
      Named([x], r2.id) == 0 && Named([y], r2.id) == 1 && Named([x, y], r2.id) == 1
  {
    var x, y := (Some(r1.id), Some(r1.tokenSha256)), (Some(r2.id), Some(r2.tokenSha256));
    assert [x, y][1..] == [y];
  }

  /** Two reporters with a blank line between them: the editor adds the second
      again instead of rotating it. */
  lemma ABlankLineHidesAReporter(r1: Spec, r2: Spec, h: string)
    requires IsSpec(r1) && IsSpec(r2) && r1.id != r2.id && IsHash(h)
    ensures var f, k, r := Yaml(), Key(1, 4, false), r2.(tokenSha256 := h);
      var lines := Spaced("  ingest:", f.keyLine(4), f.entry(6, r1), "", f.entry(6, r2));
      KeyOf(lines, f) == Ok(k) && AddedAgain(f, lines, k, r)
  {
    YamlIsLawful();
    IngestLine();
    BlankLine(6);
    TheKeyIsFound(Yaml(), "  ingest:", Key(1, 4, false), 6, "", r1, r2);
    AGapHidesAReporter(Yaml(), "  ingest:", Key(1, 4, false), 6, "", r1, r2, h);
  }
}
