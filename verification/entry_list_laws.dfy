/** What rotating and adding do to a region, entry by entry. */
module EntryListLaws {
  import opened Wrappers
  import opened EntryList

  /** No line holds both an id and a hash. */
  ghost predicate OneFieldALine(rd: Reader) {
    forall l :: rd.field(l, Hash).Some? ==> rd.field(l, Id).None?
  }

  /** A line that gives only the hash h, and opens no item. */
  predicate GivesHash(rd: Reader, line: string, h: string) {
    !rd.isItem(line) && rd.field(line, Hash) == Some(h) && rd.field(line, Id).None?
  }

  /** The hash is the item's own first field: `- tokenSha256: …`. */
  predicate Inline(e: seq<string>, rd: Reader) {
    FieldAt(e, rd, Hash) == 0
  }

  type Row = (Option<string>, Option<string>)

  function RowOf(e: seq<string>, rd: Reader): Row {
    (Lookup(e, rd, Id), Lookup(e, rd, Hash))
  }

  /** What a region says: the id and hash of each entry, in order. */
  function Registry(region: seq<string>, rd: Reader): (rows: seq<Row>) {
    Rows(Entries(region, rd), rd)
  }

  function Rows(es: seq<seq<string>>, rd: Reader): (rows: seq<Row>)
    ensures |rows| == |es|
  {
    seq(|es|, j requires 0 <= j < |es| => RowOf(es[j], rd))
  }

  // ------------------------------------------------------------------ one entry

  /** A rotated entry is still that entry, holds the new hash, and remembers nothing of the old one. */
  lemma RotatedEntry(e: seq<string>, rd: Reader, line: string, h: string, later: string)
    requires OneFieldALine(rd) && GivesHash(rd, line, h) && IsEntry(e, rd) && Has(e, rd, Id) && !Inline(e, rd)
    ensures var e' := RotateEntry(e, rd, line);
      && IsEntry(e', rd) && Has(e', rd, Id)
      && RowOf(e', rd) == (Lookup(e, rd, Id), Some(h))
      && RotateEntry(e', rd, later) == RotateEntry(e, rd, later)
  {
    var e', d, t := RotateEntry(e, rd, line), FieldAt(e, rd, Id), FieldAt(e, rd, Hash);
    if t < |e| {
      assert rd.field(e[t], Id).None?;
      SameFirst(e', rd, Id, d);
      SameFirst(e', rd, Hash, t);
      assert e'[1..] == e[1..][t - 1 := line];
    } else {
      assert e'[d + 1] == line;
      SameFirst(e', rd, Id, d);
      SameFirst(e', rd, Hash, d + 1);
      assert e'[1..] == e[1..d + 1] + [line] + e[d + 1..];
      assert e'[d + 1 := later] == e[..d + 1] + [later] + e[d + 1..];
    }
  }

  lemma SameFirst(e: seq<string>, rd: Reader, name: string, i: nat)
    requires i < |e| && rd.field(e[i], name).Some?
    requires forall m :: 0 <= m < i ==> rd.field(e[m], name).None?
    ensures FieldAt(e, rd, name) == i
  {
  }

  lemma FieldInFront(p: seq<string>, q: seq<string>, rd: Reader, name: string)
    ensures FieldAt(p + q, rd, name) == if Has(p, rd, name) then FieldAt(p, rd, name) else |p| + FieldAt(q, rd, name)
  {
    var e, a, b := p + q, FieldAt(p, rd, name), FieldAt(q, rd, name);
    if a < |p| {
      assert forall m :: 0 <= m < a ==> e[m] == p[m];
      SameFirst(e, rd, name, a);
    } else if b < |q| {
      assert forall m :: 0 <= m < |p| + b ==> e[m] == if m < |p| then p[m] else q[m - |p|];
      SameFirst(e, rd, name, |p| + b);
    } else {
      assert forall m :: 0 <= m < |e| ==> e[m] == if m < |p| then p[m] else q[m - |p|];
    }
  }

  // --------------------------------------------------------------- plain rotation

  lemma UpdatedEntries(region: seq<string>, rd: Reader, j: nat, e: seq<string>)
    requires j < |Entries(region, rd)| && IsEntry(e, rd)
    ensures var region' := Preamble(region, rd) + Flatten(Entries(region, rd)[j := e]);
      Preamble(region', rd) == Preamble(region, rd) && Entries(region', rd) == Entries(region, rd)[j := e]
  {
    Chopped(region, rd);
    ChopIsUnique(Preamble(region, rd), Entries(region, rd)[j := e], rd);
  }

  lemma TargetIs(es: seq<seq<string>>, rd: Reader, id: string, j: nat)
    requires j < |es| && Lookup(es[j], rd, Id) == Some(id)
    requires forall m :: 0 <= m < j ==> Lookup(es[m], rd, Id) != Some(id)
    ensures Target(es, rd, id) == j
  {
  }

  /** Rotating an entry whose hash has a line of its own changes its row and no
      other, and a later rotation gives what it would have given alone. */
  lemma PlainRotation(region: seq<string>, rd: Reader, id: string, line: string, h: string, later: string)
    requires OneFieldALine(rd) && GivesHash(rd, line, h)
    requires var es := Entries(region, rd); var j := Target(es, rd, id); j < |es| && !Inline(es[j], rd)
    ensures var region', j := Rotate(region, rd, id, line).value, Target(Entries(region, rd), rd, id);
      && Registry(region', rd) == Registry(region, rd)[j := (Some(id), Some(h))]
      && Rotate(region', rd, id, later) == Rotate(region, rd, id, later)
  {
    var es := Entries(region, rd);
    var j := Target(es, rd, id);
    Chopped(region, rd);
    assert IsEntry(es[j], rd);
    RotatedEntry(es[j], rd, line, h, later);
    var e := RotateEntry(es[j], rd, line);
    UpdatedEntries(region, rd, j, e);
    UpdatedRows(es, rd, id, j, e, RotateEntry(es[j], rd, later));
  }

  lemma UpdatedRows(es: seq<seq<string>>, rd: Reader, id: string, j: nat, e: seq<string>, later: seq<string>)
    requires j < |es| && Target(es, rd, id) == j && Lookup(e, rd, Id) == Some(id)
    ensures Target(es[j := e], rd, id) == j
    ensures Rows(es[j := e], rd) == Rows(es, rd)[j := RowOf(e, rd)]
    ensures es[j := e][j := later] == es[j := later]
  {
    assert forall m :: 0 <= m < j ==> es[j := e][m] == es[m];
    TargetIs(es[j := e], rd, id, j);
  }

  // ------------------------------------------------------- an inline hash is lost

  /** Replacing an inline hash line undoes the item: what was its entry becomes
      part of the entry above, or of the preamble. */
  lemma InlineRotationMerges(region: seq<string>, rd: Reader, id: string, line: string)
    requires !rd.isItem(line)
    requires var es := Entries(region, rd); var j := Target(es, rd, id); j < |es| && Inline(es[j], rd)
    ensures var region', es := Rotate(region, rd, id, line).value, Entries(region, rd);
      var j := Target(es, rd, id);
      var rest := es[j][0 := line];
      if j == 0 then Entries(region', rd) == es[1..] && Preamble(region', rd) == Preamble(region, rd) + rest
      else Entries(region', rd) == Merged(es, j, rest) && Preamble(region', rd) == Preamble(region, rd)
  {
    var es, pre := Entries(region, rd), Preamble(region, rd);
    var j := Target(es, rd, id);
    var rest := es[j][0 := line];
    Chopped(region, rd);
    assert RotateEntry(es[j], rd, line) == rest;
    Headless(es[j], rd, line);
    FlattenUpdate(es, j, rest);
    CutWithoutItem(pre, es, j, rest, rd);
  }

  lemma Headless(e: seq<string>, rd: Reader, line: string)
    requires IsEntry(e, rd) && !rd.isItem(line)
    ensures NoItems(e[0 := line], rd)
  {
    var rest := e[0 := line];
    forall i | 0 <= i < |rest| ensures !rd.isItem(rest[i]) {
      assert i > 0 ==> rest[i] == e[1..][i - 1];
    }
  }

  function Merged(es: seq<seq<string>>, j: nat, rest: seq<string>): seq<seq<string>>
    requires 0 < j < |es|
  {
    es[..j - 1] + [es[j - 1] + rest] + es[j + 1..]
  }

  lemma CutWithoutItem(pre: seq<string>, es: seq<seq<string>>, j: nat, rest: seq<string>, rd: Reader)
    requires NoItems(pre, rd) && AreEntries(es, rd) && NoItems(rest, rd) && j < |es|
    ensures var region := pre + (Flatten(es[..j]) + rest + Flatten(es[j + 1..]));
      && Preamble(region, rd) == (if j == 0 then pre + rest else pre)
      && Entries(region, rd) == (if j == 0 then es[1..] else Merged(es, j, rest))
  {
    if j == 0 {
      assert pre + (Flatten(es[..0]) + rest + Flatten(es[1..])) == (pre + rest) + Flatten(es[1..]);
      ChopIsUnique(pre + rest, es[1..], rd);
    } else {
      MergedAreEntries(es, j, rest, rd);
      MergedFlatten(es, j, rest);
      ChopIsUnique(pre, Merged(es, j, rest), rd);
    }
  }

  lemma MergedAreEntries(es: seq<seq<string>>, j: nat, rest: seq<string>, rd: Reader)
    requires 0 < j < |es| && AreEntries(es, rd) && NoItems(rest, rd)
    ensures AreEntries(Merged(es, j, rest), rd)
  {
    var m := es[j - 1] + rest;
    assert m[1..] == es[j - 1][1..] + rest;
  }

  lemma MergedFlatten(es: seq<seq<string>>, j: nat, rest: seq<string>)
    requires 0 < j < |es|
    ensures Flatten(Merged(es, j, rest)) == Flatten(es[..j]) + rest + Flatten(es[j + 1..])
  {
    var m := es[j - 1] + rest;
    assert es[..j] == es[..j - 1] + [es[j - 1]];
    FlattenAppend(es[..j - 1], [es[j - 1]]);
    FlattenAppend(es[..j - 1] + [m], es[j + 1..]);
    FlattenAppend(es[..j - 1], [m]);
    assert Flatten([m]) == m && Flatten([es[j - 1]]) == es[j - 1];
  }

  /** When rotation can be repeated: the hash has a line of its own, or the entry
      above would lend the orphaned lines an item, having neither field itself. */
  predicate Repeatable(region: seq<string>, rd: Reader, id: string) {
    var es := Entries(region, rd);
    var j := Target(es, rd, id);
    j < |es| && Inline(es[j], rd) ==> j > 0 && !Has(es[j - 1], rd, Id) && !Has(es[j - 1], rd, Hash)
  }

  /** The place of the first line of entry j. */
  function Place(region: seq<string>, rd: Reader, j: nat): nat
    requires j <= |Entries(region, rd)|
  {
    |Preamble(region, rd) + Flatten(Entries(region, rd)[..j])|
  }

  /** Rotation leaves the lines before its entry, and those of the entry other than its hash, alone. */
  lemma RotationIsLocal(region: seq<string>, rd: Reader, id: string, line: string, p: nat)
    requires Rotate(region, rd, id, line).Some?
    requires var es := Entries(region, rd); var j := Target(es, rd, id);
      j < |es| && p < Place(region, rd, j) + |es[j]| && (p < Place(region, rd, j) || p - Place(region, rd, j) > FieldAt(es[j], rd, Hash))
    ensures p < |region| && p < |Rotate(region, rd, id, line).value| && Rotate(region, rd, id, line).value[p] == region[p]
  {
    var j := Target(Entries(region, rd), rd, id);
    OneEntryRotated(region, rd, j, id, line);
  }

  /** At the place of an inline hash the first rotation's line stands, and a
      second rotation replaces it exactly when the region is Repeatable. */
  lemma InlineRotationTwice(region: seq<string>, rd: Reader, id: string, l1: string, h1: string, l2: string)
    requires OneFieldALine(rd) && GivesHash(rd, l1, h1)
    requires var es := Entries(region, rd); var j := Target(es, rd, id); j < |es| && Inline(es[j], rd)
    ensures var es := Entries(region, rd); var p := Place(region, rd, Target(es, rd, id));
      var once, alone := Rotate(region, rd, id, l1).value, Rotate(region, rd, id, l2).value;
      var twice := Rotate(once, rd, id, l2);
      && p < |once| && once[p] == l1 && p < |alone| && alone[p] == l2
      && (Repeatable(region, rd, id) ==> twice == Some(alone))
      && (!Repeatable(region, rd, id) && twice.Some? ==> p < |twice.value| && twice.value[p] == l1)
  {
    var es := Entries(region, rd);
    var j := Target(es, rd, id);
    var p, once := Place(region, rd, j), Rotate(region, rd, id, l1).value;
    OneEntryRotated(region, rd, j, id, l1);
    OneEntryRotated(region, rd, j, id, l2);
    if j == 0 {
      InlineRotationMerges(region, rd, id, l1);
      LaterTargetKeeps(once, rd, id, l2, p, 0);
    } else {
      RotationJoins(region, rd, id, l1, j);
      MergedTarget(region, rd, id, l1, h1, l2, j, once);
    }
  }

  /** The entry `es[j]` after its inline hash line is replaced by `line`, joined to the one above. */
  ghost predicate Joined(region: seq<string>, rd: Reader, id: string, l1: string, j: nat, once: seq<string>) {
    var es := Entries(region, rd);
    && 0 < j < |es| && Target(es, rd, id) == j && Inline(es[j], rd) && Has(es[j], rd, Id)
    && Preamble(once, rd) == Preamble(region, rd)
    && Entries(once, rd) == Merged(es, j, es[j][0 := l1])
    && Place(region, rd, j) == Place(once, rd, j - 1) + |es[j - 1]|
    && Place(once, rd, j) == Place(region, rd, j) + |es[j]|
  }

  /** Joined to an entry that has an id, the lines answer to that id. */
  lemma AboveHasId(region: seq<string>, rd: Reader, id: string, l1: string, l2: string, j: nat, once: seq<string>)
    requires Joined(region, rd, id, l1, j, once) && Has(Entries(region, rd)[j - 1], rd, Id)
    ensures var p, twice := Place(region, rd, j), Rotate(once, rd, id, l2);
      twice.Some? ==> p < |once| && p < |twice.value| && twice.value[p] == once[p]
  {
    var es, es' := Entries(region, rd), Entries(once, rd);
    FieldInFront(es[j - 1], es[j][0 := l1], rd, Id);
    assert Lookup(es'[j - 1], rd, Id) == Lookup(es[j - 1], rd, Id);
    assert forall k :: 0 <= k < j - 1 ==> es'[k] == es[k];
    LaterTargetKeeps(once, rd, id, l2, Place(region, rd, j), j);
  }

  /** Otherwise they still answer to their own. */
  lemma AboveHasNoId(region: seq<string>, rd: Reader, id: string, l1: string, h1: string, j: nat, once: seq<string>)
    requires OneFieldALine(rd) && GivesHash(rd, l1, h1)
    requires Joined(region, rd, id, l1, j, once) && !Has(Entries(region, rd)[j - 1], rd, Id)
    ensures Target(Entries(once, rd), rd, id) == j - 1
    ensures var above := Entries(region, rd)[j - 1];
      FieldAt(Entries(once, rd)[j - 1], rd, Hash) == FieldAt(above, rd, Hash)
  {
    var es, es' := Entries(region, rd), Entries(once, rd);
    var rest := es[j][0 := l1];
    RestReads(es[j], rd, l1, h1);
    FieldInFront(es[j - 1], rest, rd, Id);
    FieldInFront(es[j - 1], rest, rd, Hash);
    assert es'[j - 1] == es[j - 1] + rest && (es[j - 1] + rest)[|es[j - 1]| + FieldAt(rest, rd, Id)] == rest[FieldAt(rest, rd, Id)];
    assert forall k :: 0 <= k < j - 1 ==> es'[k] == es[k];
    TargetIs(es', rd, id, j - 1);
  }

  lemma ReplaceInMerged(es: seq<seq<string>>, j: nat, l1: string, l2: string)
    requires 0 < j < |es| && es[j] != []
    ensures var m := Merged(es, j, es[j][0 := l1]);
      && m[j - 1] == es[j - 1] + es[j][0 := l1]
      && Flatten(m[j - 1 := m[j - 1][|es[j - 1]| := l2]]) == Flatten(es[..j]) + es[j][0 := l2] + Flatten(es[j + 1..])
  {
    var above, rest, rest' := es[j - 1], es[j][0 := l1], es[j][0 := l2];
    assert (above + rest)[|above| := l2] == above + rest';
    assert Merged(es, j, rest)[j - 1 := above + rest'] == Merged(es, j, rest');
    MergedFlatten(es, j, rest');
  }

  /** And without a hash above, the line just written is found again. */
  lemma AboveGivesWay(region: seq<string>, rd: Reader, id: string, l1: string, l2: string, j: nat, once: seq<string>)
    requires Joined(region, rd, id, l1, j, once) && Target(Entries(once, rd), rd, id) == j - 1
    requires var above := Entries(region, rd)[j - 1]; FieldAt(Entries(once, rd)[j - 1], rd, Hash) == |above|
    ensures Rotate(once, rd, id, l2) == Rotate(region, rd, id, l2)
  {
    var es, es' := Entries(region, rd), Entries(once, rd);
    ReplaceInMerged(es, j, l1, l2);
    assert RotateEntry(es'[j - 1], rd, l2) == es'[j - 1][|es[j - 1]| := l2];
    FlattenUpdate(es, j, es[j][0 := l2]);
  }

  /** After a merge: the entry above has its own id, or its own hash, or gives way. */
  lemma MergedTarget(region: seq<string>, rd: Reader, id: string, l1: string, h1: string, l2: string, j: nat, once: seq<string>)
    requires OneFieldALine(rd) && GivesHash(rd, l1, h1) && Joined(region, rd, id, l1, j, once)
    ensures var p, twice := Place(region, rd, j), Rotate(once, rd, id, l2);
      && (Repeatable(region, rd, id) ==> twice == Rotate(region, rd, id, l2))
      && (!Repeatable(region, rd, id) && twice.Some? ==> p < |once| && p < |twice.value| && twice.value[p] == once[p])
  {
    var above := Entries(region, rd)[j - 1];
    if Has(above, rd, Id) {
      AboveHasId(region, rd, id, l1, l2, j, once);
    } else {
      AboveHasNoId(region, rd, id, l1, h1, j, once);
      if Has(above, rd, Hash) {
        RotationIsLocal(once, rd, id, l2, Place(region, rd, j));
      } else {
        AboveGivesWay(region, rd, id, l1, l2, j, once);
      }
    }
  }

  lemma RestReads(e: seq<string>, rd: Reader, l1: string, h1: string)
    requires OneFieldALine(rd) && GivesHash(rd, l1, h1) && Has(e, rd, Id) && Inline(e, rd)
    ensures var rest := e[0 := l1]; FieldAt(rest, rd, Hash) == 0 && Lookup(rest, rd, Id) == Lookup(e, rd, Id) && Has(rest, rd, Id)
  {
    assert rd.field(e[0], Id).None?;
    SameFirst(e[0 := l1], rd, Id, FieldAt(e, rd, Id));
    SameFirst(e[0 := l1], rd, Hash, 0);
  }

  lemma RotationJoins(region: seq<string>, rd: Reader, id: string, l1: string, j: nat)
    requires !rd.isItem(l1)
    requires var es := Entries(region, rd); 0 < j < |es| && Target(es, rd, id) == j && Inline(es[j], rd)
    ensures Joined(region, rd, id, l1, j, Rotate(region, rd, id, l1).value)
  {
    InlineRotationMerges(region, rd, id, l1);
    MergedPlace(Entries(region, rd), j, Entries(region, rd)[j][0 := l1]);
  }

  lemma MergedPlace(es: seq<seq<string>>, j: nat, rest: seq<string>)
    requires 0 < j < |es|
    ensures Flatten(es[..j]) == Flatten(Merged(es, j, rest)[..j - 1]) + es[j - 1]
    ensures Flatten(Merged(es, j, rest)[..j]) == Flatten(es[..j]) + rest
  {
    var es' := Merged(es, j, rest);
    assert es'[..j - 1] == es[..j - 1] && es'[..j] == es[..j - 1] + [es[j - 1] + rest] && es[..j] == es[..j - 1] + [es[j - 1]];
    FlattenAppend(es[..j - 1], [es[j - 1] + rest]);
    FlattenAppend(es[..j - 1], [es[j - 1]]);
    assert Flatten([es[j - 1] + rest]) == es[j - 1] + rest && Flatten([es[j - 1]]) == es[j - 1];
  }

  lemma LaterTargetKeeps(region: seq<string>, rd: Reader, id: string, line: string, p: nat, from: nat)
    requires from <= |Entries(region, rd)| && p < Place(region, rd, from)
    requires forall m :: 0 <= m < from ==> Lookup(Entries(region, rd)[m], rd, Id) != Some(id)
    ensures var r := Rotate(region, rd, id, line); r.Some? ==> p < |r.value| && p < |region| && r.value[p] == region[p]
  {
    var es := Entries(region, rd);
    var k := Target(es, rd, id);
    if k < |es| {
      assert k >= from;
      assert es[..k] == es[..from] + es[from..k];
      FlattenAppend(es[..from], es[from..k]);
      RotationIsLocal(region, rd, id, line, p);
    }
  }

  // ------------------------------------------------------------------- addition

  /** An entry put after a region opens a new entry there, which takes in the
      lines that follow up to the next item. */
  lemma AddedEntry(region: seq<string>, x: seq<string>, tail: seq<string>, rd: Reader)
    requires IsEntry(x, rd)
    ensures Preamble(region + x + tail, rd) == Preamble(region, rd)
    ensures Entries(region + x + tail, rd) == Entries(region, rd) + [x + Preamble(tail, rd)] + Entries(tail, rd)
  {
    var pre, es, more, rest := Preamble(region, rd), Entries(region, rd), Preamble(tail, rd), Entries(tail, rd);
    Chopped(region, rd);
    Chopped(tail, rd);
    assert (x + more)[1..] == x[1..] + more;
    FlattenAround(es, x + more, rest);
    Regroup(pre, Flatten(es), x, more, Flatten(rest));
    ChopIsUnique(pre, es + [x + more] + rest, rd);
  }

  lemma FlattenAround(es: seq<seq<string>>, e: seq<string>, rest: seq<seq<string>>)
    ensures Flatten(es + [e] + rest) == Flatten(es) + e + Flatten(rest)
  {
    FlattenAppend(es + [e], rest);
    FlattenAppend(es, [e]);
    assert Flatten([e]) == e;
  }

  lemma Regroup(a: seq<string>, b: seq<string>, c: seq<string>, d: seq<string>, e: seq<string>)
    ensures (a + b) + c + (d + e) == a + (b + (c + d) + e)
  {
  }

  /** Rotating an id just added rewrites the added entry, and nothing else. */
  lemma AddThenRotate(region: seq<string>, x: seq<string>, tail: seq<string>, rd: Reader, id: string, h: string, later: string)
    requires IsEntry(x, rd) && RowOf(x, rd) == (Some(id), Some(h)) && Has(x, rd, Id) && Has(x, rd, Hash)
    requires Target(Entries(region, rd), rd, id) == |Entries(region, rd)|
    ensures Rotate(region + x + tail, rd, id, later) == Some(region + RotateEntry(x, rd, later) + tail)
  {
    var pre, es, more, rest := Preamble(region, rd), Entries(region, rd), Preamble(tail, rd), Entries(tail, rd);
    AddedEntry(region, x, tail, rd);
    RotateAdded(region + x + tail, es, x, more, rest, rd, id, h, later);
    Chopped(region, rd);
    Chopped(tail, rd);
    Regroup(pre, Flatten(es), RotateEntry(x, rd, later), more, Flatten(rest));
  }

  lemma RotateAdded(whole: seq<string>, es: seq<seq<string>>, x: seq<string>, more: seq<string>, rest: seq<seq<string>>,
                    rd: Reader, id: string, h: string, later: string)
    requires RowOf(x, rd) == (Some(id), Some(h)) && Has(x, rd, Id) && Has(x, rd, Hash) && Target(es, rd, id) == |es|
    requires Entries(whole, rd) == es + [x + more] + rest
    ensures Rotate(whole, rd, id, later)
         == Some(Preamble(whole, rd) + (Flatten(es) + (RotateEntry(x, rd, later) + more) + Flatten(rest)))
  {
    AddedReads(es, x, more, rest, rd, id, h);
    var y := RotateEntry(x, rd, later) + more;
    assert RotateEntry(x + more, rd, later) == y;
    assert (es + [x + more] + rest)[|es| := y] == es + [y] + rest;
    FlattenAround(es, y, rest);
  }

  lemma AddedReads(es: seq<seq<string>>, x: seq<string>, more: seq<string>, rest: seq<seq<string>>, rd: Reader, id: string, h: string)
    requires RowOf(x, rd) == (Some(id), Some(h)) && Has(x, rd, Id) && Has(x, rd, Hash) && Target(es, rd, id) == |es|
    ensures Target(es + [x + more] + rest, rd, id) == |es|
    ensures FieldAt(x + more, rd, Hash) == FieldAt(x, rd, Hash)
  {
    FieldInFront(x, more, rd, Id);
    FieldInFront(x, more, rd, Hash);
    var all := es + [x + more] + rest;
    assert all[|es|] == x + more;
    assert forall m :: 0 <= m < |es| ==> all[m] == es[m];
    TargetIs(all, rd, id, |es|);
  }
}
