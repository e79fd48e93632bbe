/** The reporter editor (cmd/ingest-token/edit.go): it splices one entry into the
  list at grid.ingest.reporters of a YAML file, treating the file as lines. How
  single lines read and are written is a Format; ReporterYaml gives the one the
  program uses. */
module ReporterEdit {
  import opened Wrappers
  import opened Text
  import opened EntryList

  datatype Action = Added | Rotated

  datatype Spec = Spec(id: string, name: string, streams: seq<string>, tokenSha256: string,
                       staleAfter: string, minInterval: string, priority: int)

  datatype EditError = ManyIngestBlocks | NoIngestBlock | UnsupportedValue(value: string) | NoReportersKey

  datatype Result<+T> = Ok(value: T) | Err(error: EditError)

  /** What the key scan does with a line: goes on, or stops with an answer. */
  datatype Step = GoOn | LeaveBlock | AtKey(empty: bool) | Unreadable(value: string)

  datatype Format = Format(
    isIngest: string -> bool,
    step: string -> Step,
    indent: string -> nat,
    inList: (string, nat) -> bool,
    reader: nat -> Reader,
    keyLine: nat -> string,
    hashLine: (nat, string) -> string,
    entry: (nat, Spec) -> seq<string>)

  // ------------------------------------------------------------ finding the key

  datatype Key = Key(idx: nat, indent: nat, empty: bool)

  function OnlyOne(lines: seq<string>, p: string -> bool): (r: Result<nat>)
    ensures r.Ok? ==> r.value < |lines| && p(lines[r.value]) && forall m :: 0 <= m < |lines| && m != r.value ==> !p(lines[m])
  {
    var i := First(lines, p);
    if i == |lines| then Err(NoIngestBlock)
    else if First(lines[i + 1..], p) < |lines| - i - 1 then Err(ManyIngestBlocks)
    else
      assert forall m :: i < m < |lines| ==> lines[m] == lines[i + 1..][m - i - 1];
      Ok(i)
  }

  /** findReportersKey's first loop: the only line where p holds. */
  method OnlyLine(lines: seq<string>, p: string -> bool) returns (r: Result<nat>)
    ensures r == OnlyOne(lines, p)
  {
    var found: Option<nat> := None;
    for i := 0 to |lines|
      invariant found.None? ==> First(lines, p) >= i
      invariant found.Some? ==> First(lines, p) == found.value < i <= found.value + 1 + First(lines[found.value + 1..], p)
    {
      if p(lines[i]) {
        if found.Some? {
          assert lines[found.value + 1..][i - found.value - 1] == lines[i];
          return Err(ManyIngestBlocks);
        }
        found := Some(i);
      }
    }
    if found.None? {
      return Err(NoIngestBlock);
    }
    return Ok(found.value);
  }

  function KeyScan(lines: seq<string>, i: nat, f: Format): (r: Result<Key>)
    requires i <= |lines|
    ensures r.Ok? ==> i <= r.value.idx < |lines| && f.step(lines[r.value.idx]) == AtKey(r.value.empty) && r.value.indent == f.indent(lines[r.value.idx])
    decreases |lines| - i
  {
    if i == |lines| then Err(NoReportersKey)
    else match f.step(lines[i])
      case GoOn => KeyScan(lines, i + 1, f)
      case LeaveBlock => Err(NoReportersKey)
      case AtKey(empty) => Ok(Key(i, f.indent(lines[i]), empty))
      case Unreadable(v) => Err(UnsupportedValue(v))
  }

  /** The key of the reporters list: the one inside the only `ingest:` block. */
  function KeyOf(lines: seq<string>, f: Format): (r: Result<Key>)
    ensures r.Ok? ==> r.value.idx < |lines|
  {
    var ingest := OnlyOne(lines, f.isIngest);
    if ingest.Err? then Err(ingest.error) else KeyScan(lines, ingest.value + 1, f)
  }

  method FindReportersKey(lines: seq<string>, f: Format) returns (r: Result<Key>)
    ensures r == KeyOf(lines, f)
  {
    var ingest := OnlyLine(lines, f.isIngest);
    if ingest.Err? {
      return Err(ingest.error);
    }
    for i := ingest.value + 1 to |lines|
      invariant KeyScan(lines, ingest.value + 1, f) == KeyScan(lines, i, f)
    {
      match f.step(lines[i])
      case GoOn =>
      case LeaveBlock => return Err(NoReportersKey);
      case AtKey(empty) => return Ok(Key(i, f.indent(lines[i]), empty));
      case Unreadable(v) => return Err(UnsupportedValue(v));
    }
    return Err(NoReportersKey);
  }

  // ----------------------------------------------------------- the list's extent

  /** Just past the last line of the list. */
  function ListEnd(lines: seq<string>, i: nat, w: nat, f: Format): (e: nat)
    requires i <= |lines|
    ensures i <= e <= |lines| && forall m :: i <= m < e ==> f.inList(lines[m], w)
    ensures e < |lines| ==> !f.inList(lines[e], w)
    decreases |lines| - i
  {
    if i < |lines| && f.inList(lines[i], w) then ListEnd(lines, i + 1, w, f) else i
  }

  method ListExtent(lines: seq<string>, start: nat, w: nat, f: Format) returns (end: nat)
    requires start <= |lines|
    ensures end == ListEnd(lines, start, w, f)
  {
    end := start;
    for i := start to |lines|
      invariant end == i && ListEnd(lines, start, w, f) == ListEnd(lines, i, w, f)
    {
      if !f.inList(lines[i], w) {
        break;
      }
      end := i + 1;
    }
  }

  // --------------------------------------------------------------------- the edit

  /** The line after the key, and the indent of the list's items. */
  function ListStart(k: Key): nat { k.idx + 1 }
  function ItemIndent(k: Key): nat { k.indent + 2 }

  /** Where the list's lines end: an empty `[]` has none. */
  function RegionEnd(lines: seq<string>, k: Key, f: Format): (e: nat)
    requires k.idx < |lines|
    ensures k.idx < ListStart(k) <= e <= |lines|
  {
    if k.empty then ListStart(k) else ListEnd(lines, ListStart(k), ItemIndent(k), f)
  }

  function KeyLine(lines: seq<string>, k: Key, f: Format): string
    requires k.idx < |lines|
  {
    if k.empty then f.keyLine(k.indent) else lines[k.idx]
  }

  /** The file with the entry's hash replaced, if the list has an entry with the id. */
  function Rotation(lines: seq<string>, k: Key, r: Spec, f: Format): Option<seq<string>>
    requires k.idx < |lines|
  {
    if k.empty then None
    else RotateAt(lines, ListStart(k), RegionEnd(lines, k, f), f.reader(ItemIndent(k)), r.id, f.hashLine(ItemIndent(k), r.tokenSha256))
  }

  /** The file with a new entry at the end of the list, and `[]` made a block list. */
  function Addition(lines: seq<string>, k: Key, entry: seq<string>, f: Format): seq<string>
    requires k.idx < |lines|
  {
    var end := RegionEnd(lines, k, f);
    lines[..k.idx] + [KeyLine(lines, k, f)] + lines[ListStart(k)..end] + entry + lines[end..]
  }

  /** The edit on lines, once the key is known. */
  function Edited(lines: seq<string>, k: Key, r: Spec, f: Format): (seq<string>, Action)
    requires k.idx < |lines|
  {
    var rot := Rotation(lines, k, r, f);
    if rot.Some? then (rot.value, Rotated) else (Addition(lines, k, f.entry(ItemIndent(k), r), f), Added)
  }

  function Upsert(src: string, r: Spec, f: Format): Result<(string, Action)> {
    var lines := Split(src, '\n');
    var key := KeyOf(lines, f);
    if key.Err? then Err(key.error)
    else
      var edit := Edited(lines, key.value, r, f);
      Ok((Join(edit.0, "\n"), edit.1))
  }

  method UpsertReporter(src: string, r: Spec, f: Format) returns (res: Result<(string, Action)>)
    ensures res == Upsert(src, r, f)
  {
    var lines := Split(src, '\n');
    var key := FindReportersKey(lines, f);
    if key.Err? {
      return Err(key.error);
    }
    var updated, end := TryRotation(lines, key.value, r, f);
    if updated.Some? {
      return Ok((Join(updated.value, "\n"), Rotated));
    }
    var out := AddAt(lines, key.value, end, f.entry(ItemIndent(key.value), r), f);
    return Ok((Join(out, "\n"), Added));
  }

  /** upsertReporter up to its first successful return: the extent, and the rotation. */
  method TryRotation(lines: seq<string>, k: Key, r: Spec, f: Format) returns (updated: Option<seq<string>>, end: nat)
    requires k.idx < |lines|
    ensures updated == Rotation(lines, k, r, f) && end == RegionEnd(lines, k, f)
  {
    end := ListStart(k);
    if k.empty {
      return None, end;
    }
    end := ListExtent(lines, ListStart(k), ItemIndent(k), f);
    updated := RotateToken(lines, ListStart(k), end, f.reader(ItemIndent(k)), r.id, f.hashLine(ItemIndent(k), r.tokenSha256));
  }

  /** The rest of upsertReporter: append the entry. */
  method AddAt(lines: seq<string>, k: Key, end: nat, entry: seq<string>, f: Format) returns (out: seq<string>)
    requires k.idx < |lines| && end == RegionEnd(lines, k, f)
    ensures out == Addition(lines, k, entry, f)
  {
    out := lines[..k.idx];
    if k.empty {
      out := out + [f.keyLine(k.indent)];
    } else {
      out := out + [lines[k.idx]];
    }
    out := out + lines[ListStart(k)..end];
    out := out + entry;
    out := out + lines[end..];
  }
}
