/** A list of entries kept as lines (entryRanges, entryField and rotateToken of
  cmd/ingest-token/edit.go). How a single line reads is a parameter: these
  algorithms only ask whether it opens an item and what field it holds. */
module EntryList {
  import opened Wrappers

  /** Reads one line: does it open an item, and the value it gives a field. */
  datatype Reader = Reader(isItem: string -> bool, field: (string, string) -> Option<string>)

  const Id := "id"
  const Hash := "tokenSha256"

  // ---------------------------------------------------------------- searching

  /** The first place where p holds; the length if it holds nowhere. */
  function First<T>(s: seq<T>, p: T -> bool): (i: nat)
    ensures i <= |s| && (i < |s| ==> p(s[i]))
    ensures forall m :: 0 <= m < i ==> !p(s[m])
  {
    if s == [] || p(s[0]) then 0 else 1 + First(s[1..], p)
  }

  // ------------------------------------------------------------------- entries

  /** The lines of a region before its first item. */
  function Preamble(region: seq<string>, rd: Reader): seq<string> {
    if region == [] || rd.isItem(region[0]) then [] else [region[0]] + Preamble(region[1..], rd)
  }

  /** The entries of a region: an item line and what follows it up to the next. */
  function Entries(region: seq<string>, rd: Reader): seq<seq<string>> {
    if region == [] then []
    else if rd.isItem(region[0]) then [[region[0]] + Preamble(region[1..], rd)] + Entries(region[1..], rd)
    else Entries(region[1..], rd)
  }

  function Flatten(es: seq<seq<string>>): seq<string> {
    if es == [] then [] else es[0] + Flatten(es[1..])
  }

  predicate NoItems(ls: seq<string>, rd: Reader) {
    forall i :: 0 <= i < |ls| ==> !rd.isItem(ls[i])
  }

  predicate IsEntry(e: seq<string>, rd: Reader) {
    e != [] && rd.isItem(e[0]) && NoItems(e[1..], rd)
  }

  predicate AreEntries(es: seq<seq<string>>, rd: Reader) {
    forall j :: 0 <= j < |es| ==> IsEntry(es[j], rd)
  }

  lemma {:induction false} FlattenAppend(es: seq<seq<string>>, fs: seq<seq<string>>)
    ensures Flatten(es + fs) == Flatten(es) + Flatten(fs)
  {
    if es == [] {
      assert es + fs == fs;
    } else {
      assert (es + fs)[1..] == es[1..] + fs;
      FlattenAppend(es[1..], fs);
    }
  }

  /** Replacing one entry replaces its lines and no others. */
  lemma FlattenUpdate(es: seq<seq<string>>, j: nat, e: seq<string>)
    requires j < |es|
    ensures Flatten(es[j := e]) == Flatten(es[..j]) + e + Flatten(es[j + 1..])
  {
    assert es[j := e] == es[..j] + ([e] + es[j + 1..]);
    FlattenAppend(es[..j], [e] + es[j + 1..]);
    assert ([e] + es[j + 1..])[1..] == es[j + 1..];
  }

  /** Preamble and entries give the region back. */
  lemma {:induction false} Chopped(region: seq<string>, rd: Reader)
    ensures Preamble(region, rd) + Flatten(Entries(region, rd)) == region
    ensures NoItems(Preamble(region, rd), rd) && AreEntries(Entries(region, rd), rd)
  {
    if region != [] {
      Chopped(region[1..], rd);
      assert region == [region[0]] + region[1..];
      if rd.isItem(region[0]) {
        var e := [region[0]] + Preamble(region[1..], rd);
        assert e[1..] == Preamble(region[1..], rd);
        assert Entries(region, rd)[1..] == Entries(region[1..], rd);
      }
    }
  }

  /** No other cut of the region into a preamble and entries exists. */
  lemma {:induction false} ChopIsUnique(pre: seq<string>, es: seq<seq<string>>, rd: Reader)
    requires NoItems(pre, rd) && AreEntries(es, rd)
    ensures Preamble(pre + Flatten(es), rd) == pre && Entries(pre + Flatten(es), rd) == es
    decreases |es|, |pre|
  {
    var region := pre + Flatten(es);
    if pre != [] {
      assert region[1..] == pre[1..] + Flatten(es);
      ChopIsUnique(pre[1..], es, rd);
    } else if es != [] {
      assert region == es[0] + Flatten(es[1..]);
      assert region[1..] == es[0][1..] + Flatten(es[1..]);
      ChopIsUnique(es[0][1..], es[1..], rd);
      assert es[0] == [es[0][0]] + es[0][1..];
    }
  }

  function NextItem(lines: seq<string>, i: nat, end: nat, rd: Reader): (j: nat)
    requires i <= end <= |lines|
    ensures i <= j <= end
    decreases end - i
  {
    if i == end || rd.isItem(lines[i]) then i else NextItem(lines, i + 1, end, rd)
  }

  /** One range per item, up to the next item or the end. */
  function Ranges(lines: seq<string>, i: nat, end: nat, rd: Reader): (rs: seq<(nat, nat)>)
    requires i <= end <= |lines|
    ensures forall j :: 0 <= j < |rs| ==> i <= rs[j].0 <= rs[j].1 <= end
    decreases end - i
  {
    if i == end then []
    else if rd.isItem(lines[i]) then [(i, NextItem(lines, i + 1, end, rd))] + Ranges(lines, i + 1, end, rd)
    else Ranges(lines, i + 1, end, rd)
  }

  method EntryRanges(lines: seq<string>, start: nat, end: nat, rd: Reader) returns (out: seq<(nat, nat)>)
    requires start <= end <= |lines|
    ensures out == Ranges(lines, start, end, rd)
  {
    out := [];
    for i := start to end
      invariant Ranges(lines, start, end, rd) == Closed(out, NextItem(lines, i, end, rd)) + Ranges(lines, i, end, rd)
      invariant out != [] ==> out[|out| - 1].1 == end
    {
      if !rd.isItem(lines[i]) {
        continue;
      }
      ghost var before := out;
      var n := |out|;
      if n > 0 {
        out := out[n - 1 := (out[n - 1].0, i)];
      }
      assert out == Closed(before, i);
      out := out + [(i, end)];
      assert Closed(out, NextItem(lines, i + 1, end, rd)) == Closed(before, i) + [(i, NextItem(lines, i + 1, end, rd))];
    }
    assert Closed(out, end) == out;
  }

  /** The ranges with the last one closed at `at`. */
  function Closed(out: seq<(nat, nat)>, at: nat): seq<(nat, nat)> {
    if out == [] then [] else out[..|out| - 1] + [(out[|out| - 1].0, at)]
  }

  lemma {:induction false} PreambleIsUpToNext(lines: seq<string>, i: nat, end: nat, rd: Reader)
    requires i <= end <= |lines|
    ensures Preamble(lines[i..end], rd) == lines[i..NextItem(lines, i, end, rd)]
    decreases end - i
  {
    if i < end && !rd.isItem(lines[i]) {
      PreambleIsUpToNext(lines, i + 1, end, rd);
      assert lines[i..end][1..] == lines[i + 1..end];
    }
  }

  /** The ranges cut the region exactly where Preamble and Entries do. */
  lemma {:induction false} RangesAreEntries(lines: seq<string>, i: nat, end: nat, rd: Reader)
    requires i <= end <= |lines|
    ensures |Ranges(lines, i, end, rd)| == |Entries(lines[i..end], rd)|
    ensures forall j :: 0 <= j < |Ranges(lines, i, end, rd)| ==> RangeIsEntry(lines, i, end, rd, j)
    decreases end - i
  {
    if i < end {
      RangesAreEntries(lines, i + 1, end, rd);
      PreambleIsUpToNext(lines, i + 1, end, rd);
      assert lines[i..end][1..] == lines[i + 1..end];
      forall j | 0 <= j < |Ranges(lines, i, end, rd)| ensures RangeIsEntry(lines, i, end, rd, j) {
        if !rd.isItem(lines[i]) {
          PlainLine(lines, i, end, rd, j);
        } else if j > 0 {
          assert RangeIsEntry(lines, i + 1, end, rd, j - 1);
          ItemLine(lines, i, end, rd, j);
        }
      }
    }
  }

  lemma PlainLine(lines: seq<string>, i: nat, end: nat, rd: Reader, j: nat)
    requires i < end <= |lines| && lines[i..end][1..] == lines[i + 1..end] && !rd.isItem(lines[i])
    requires RangeIsEntry(lines, i + 1, end, rd, j)
    ensures RangeIsEntry(lines, i, end, rd, j)
  {
    var a := Ranges(lines, i, end, rd)[j].0;
    assert lines[i..a] == [lines[i]] + lines[i + 1..a];
  }

  lemma ItemLine(lines: seq<string>, i: nat, end: nat, rd: Reader, j: nat)
    requires i < end <= |lines| && lines[i..end][1..] == lines[i + 1..end] && rd.isItem(lines[i]) && j > 0
    requires RangeIsEntry(lines, i + 1, end, rd, j - 1)
    ensures RangeIsEntry(lines, i, end, rd, j)
  {
    var a := Ranges(lines, i, end, rd)[j].0;
    EntriesStep(lines[i..end], rd, j);
    assert lines[i..a] == [lines[i]] + lines[i + 1..a];
  }

  lemma EntriesStep(region: seq<string>, rd: Reader, j: nat)
    requires region != [] && rd.isItem(region[0]) && 0 < j <= |Entries(region, rd)|
    ensures Flatten(Entries(region, rd)[..j]) == [region[0]] + Preamble(region[1..], rd) + Flatten(Entries(region[1..], rd)[..j - 1])
  {
    assert Entries(region, rd)[..j][1..] == Entries(region[1..], rd)[..j - 1];
  }

  predicate RangeIsEntry(lines: seq<string>, i: nat, end: nat, rd: Reader, j: nat)
    requires i <= end <= |lines|
  {
    var rs, es := Ranges(lines, i, end, rd), Entries(lines[i..end], rd);
    && j < |rs| && j < |es|
    && lines[rs[j].0..rs[j].1] == es[j]
    && lines[i..rs[j].0] == Preamble(lines[i..end], rd) + Flatten(es[..j])
  }

  // ------------------------------------------------------------------- rotation

  /** The first line of an entry that holds the field; the length of the entry if none does. */
  function FieldAt(e: seq<string>, rd: Reader, name: string): (i: nat)
    ensures i <= |e| && (i < |e| ==> rd.field(e[i], name).Some?)
    ensures forall m :: 0 <= m < i ==> rd.field(e[m], name).None?
  {
    First(e, line => rd.field(line, name).Some?)
  }

  predicate Has(e: seq<string>, rd: Reader, name: string) {
    FieldAt(e, rd, name) < |e|
  }

  function Lookup(e: seq<string>, rd: Reader, name: string): Option<string> {
    var i := FieldAt(e, rd, name);
    if i < |e| then rd.field(e[i], name) else None
  }

  method EntryField(lines: seq<string>, r: (nat, nat), rd: Reader, name: string) returns (i: nat, value: string, ok: bool)
    requires r.0 <= r.1 <= |lines|
    ensures ok == Has(lines[r.0..r.1], rd, name)
    ensures ok ==> i == r.0 + FieldAt(lines[r.0..r.1], rd, name) && Some(value) == Lookup(lines[r.0..r.1], rd, name)
  {
    ghost var e := lines[r.0..r.1];
    for k := r.0 to r.1
      invariant k <= r.0 + FieldAt(e, rd, name)
    {
      assert lines[k] == e[k - r.0];
      var v := rd.field(lines[k], name);
      if v.Some? {
        return k, v.value, true;
      }
    }
    return 0, "", false;
  }

  /** An entry with its hash line replaced, or put after its id when it has none. */
  function RotateEntry(e: seq<string>, rd: Reader, line: string): seq<string>
    requires Has(e, rd, Id)
  {
    var t := FieldAt(e, rd, Hash);
    if t < |e| then e[t := line]
    else
      var d := FieldAt(e, rd, Id);
      e[..d + 1] + [line] + e[d + 1..]
  }

  /** The first entry with the id; the number of entries if none has it. */
  function Target(es: seq<seq<string>>, rd: Reader, id: string): (j: nat)
    ensures j <= |es| && (j < |es| ==> Lookup(es[j], rd, Id) == Some(id) && Has(es[j], rd, Id))
    ensures forall m :: 0 <= m < j ==> Lookup(es[m], rd, Id) != Some(id)
  {
    First(es, e => Lookup(e, rd, Id) == Some(id))
  }

  function Rotate(region: seq<string>, rd: Reader, id: string, line: string): Option<seq<string>> {
    var es := Entries(region, rd);
    var j := Target(es, rd, id);
    if j == |es| then None
    else Some(Preamble(region, rd) + Flatten(es[j := RotateEntry(es[j], rd, line)]))
  }

  method RotateToken(lines: seq<string>, start: nat, end: nat, rd: Reader, id: string, line: string) returns (out: Option<seq<string>>)
    requires start <= end <= |lines|
    ensures out == RotateAt(lines, start, end, rd, id, line)
  {
    var ranges := EntryRanges(lines, start, end, rd);
    RangesAreEntries(lines, start, end, rd);
    for j := 0 to |ranges|
      invariant Target(Entries(lines[start..end], rd), rd, id) >= j
    {
      assert RangeIsEntry(lines, start, end, rd, j);
      var _, got, ok := EntryField(lines, ranges[j], rd, Id);
      if !ok || got != id {
        continue;
      }
      RangeSplice(lines, start, end, rd, j, id, line);
      var spliced := SpliceHash(lines, ranges[j], rd, line);
      return Some(spliced);
    }
    return None;
  }

  /** What rotateToken does once it has found the entry. */
  method SpliceHash(lines: seq<string>, r: (nat, nat), rd: Reader, line: string) returns (out: seq<string>)
    requires r.0 <= r.1 <= |lines| && Has(lines[r.0..r.1], rd, Id)
    ensures out == lines[..r.0] + RotateEntry(lines[r.0..r.1], rd, line) + lines[r.1..]
  {
    EntrySplice(lines, r.0, r.1, lines[r.0..r.1], rd, line);
    var t, _, hasHash := EntryField(lines, r, rd, Hash);
    if hasHash {
      return lines[t := line];
    }
    var d, _, _ := EntryField(lines, r, rd, Id);
    return lines[..d + 1] + [line] + lines[d + 1..];
  }

  /** Rotate, in the file around the region. */
  function RotateAt(lines: seq<string>, start: nat, end: nat, rd: Reader, id: string, line: string): Option<seq<string>>
    requires start <= end <= |lines|
  {
    var rot := Rotate(lines[start..end], rd, id, line);
    if rot.None? then None else Some(lines[..start] + rot.value + lines[end..])
  }

  /** Splicing at the field's line in the file is rotating the entry. */
  lemma EntrySplice(lines: seq<string>, a: nat, b: nat, e: seq<string>, rd: Reader, line: string)
    requires a <= b <= |lines| && lines[a..b] == e && Has(e, rd, Id)
    ensures var d, t, whole := FieldAt(e, rd, Id), FieldAt(e, rd, Hash), lines[..a] + RotateEntry(e, rd, line) + lines[b..];
      && (t < |e| ==> whole == lines[a + t := line])
      && (t == |e| ==> whole == lines[..a + d + 1] + [line] + lines[a + d + 1..])
  {
    assert lines == lines[..a] + e + lines[b..];
  }

  lemma RangeSplice(lines: seq<string>, start: nat, end: nat, rd: Reader, j: nat, id: string, line: string)
    requires start <= end <= |lines| && RangeIsEntry(lines, start, end, rd, j) && Target(Entries(lines[start..end], rd), rd, id) == j
    ensures var r := Ranges(lines, start, end, rd)[j];
      && Has(lines[r.0..r.1], rd, Id)
      && RotateAt(lines, start, end, rd, id, line) == Some(lines[..r.0] + RotateEntry(lines[r.0..r.1], rd, line) + lines[r.1..])
  {
    var region, r := lines[start..end], Ranges(lines, start, end, rd)[j];
    var es := Entries(region, rd);
    OneEntryRotated(region, rd, j, id, line);
    Splice3(lines, start, end, r.0, r.1, Preamble(region, rd), Flatten(es[..j]), es[j], Flatten(es[j + 1..]), RotateEntry(es[j], rd, line));
  }

  lemma OneEntryRotated(region: seq<string>, rd: Reader, j: nat, id: string, line: string)
    requires Target(Entries(region, rd), rd, id) == j < |Entries(region, rd)|
    ensures var es, pre := Entries(region, rd), Preamble(region, rd);
      && region == pre + (Flatten(es[..j]) + es[j] + Flatten(es[j + 1..]))
      && Rotate(region, rd, id, line) == Some(pre + (Flatten(es[..j]) + RotateEntry(es[j], rd, line) + Flatten(es[j + 1..])))
  {
    var es := Entries(region, rd);
    Chopped(region, rd);
    FlattenUpdate(es, j, RotateEntry(es[j], rd, line));
    FlattenUpdate(es, j, es[j]);
    assert es[j := es[j]] == es;
  }

  lemma Splice3(lines: seq<string>, start: nat, end: nat, a: nat, b: nat, pre: seq<string>, before: seq<string>, former: seq<string>, after: seq<string>, e: seq<string>)
    requires start <= a <= b <= end <= |lines|
    requires lines[start..a] == pre + before && lines[a..b] == former && lines[start..end] == pre + (before + former + after)
    ensures lines[..a] + e + lines[b..] == lines[..start] + (pre + (before + e + after)) + lines[end..]
  {
    assert lines[start..end][b - start..] == lines[b..end];
    assert (pre + (before + former + after))[b - start..] == after;
    assert lines[..a] == lines[..start] + lines[start..a];
    assert lines[b..] == lines[b..end] + lines[end..];
  }
}
