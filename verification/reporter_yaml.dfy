/** The lines of prefab.yaml as cmd/ingest-token/edit.go reads and writes them,
  and the proof that they keep the laws the editor relies on. */
module ReporterYaml {
  import opened Wrappers
  import opened Text
  import opened EntryList
  import opened EntryListLaws
  import opened ReporterEdit
  import opened ReporterEditLaws

  // ------------------------------------------------------------------- reading

  function Spaces(n: nat): (s: string)
    ensures |s| == n && forall i :: 0 <= i < n ==> s[i] == ' '
  {
    seq(n, _ => ' ')
  }

  /** leadingSpaces. */
  function Leading(s: string): (n: nat)
    ensures n <= |s| && forall i :: 0 <= i < n ==> s[i] == ' '
  {
    if s != "" && s[0] == ' ' then 1 + Leading(s[1..]) else 0
  }

  /** strings.TrimRight(s, " \t"). */
  function TrimBlanks(s: string): (r: string)
    ensures r <= s
  {
    if s != "" && s[|s| - 1] in " \t" then TrimBlanks(s[..|s| - 1]) else s
  }

  predicate IsQuote(c: char) {
    c == '"' || c == '\''
  }

  /** strings.Trim(s, `"'`). */
  function Unquote(s: string): string
    decreases |s|
  {
    if s != "" && IsQuote(s[0]) then Unquote(s[1..])
    else if s != "" && IsQuote(s[|s| - 1]) then Unquote(s[..|s| - 1])
    else s
  }

  predicate IsIngest(line: string) {
    TrimBlanks(line) == "  ingest:"
  }

  function StepAt(line: string): Step {
    var trimmed := TrimSpace(line);
    if trimmed == "" || "#" <= trimmed then GoOn
    else if Leading(line) <= 2 then LeaveBlock
    else if !("reporters:" <= trimmed) then GoOn
    else
      var v := TrimSpace(trimmed[10..]);
      if v == "" then AtKey(false) else if v == "[]" then AtKey(true) else Unreadable(v)
  }

  predicate InList(line: string, w: nat) {
    TrimSpace(line) != "" && Leading(line) >= w
  }

  predicate IsItem(line: string, w: nat) {
    Spaces(w) + "- " <= line
  }

  /** A line as entryField reads it: without the item's dash, trimmed. */
  function Body(line: string, w: nat): string {
    TrimSpace(if IsItem(line, w) then line[w + 2..] else line)
  }

  function FieldOf(body: string, name: string): Option<string> {
    if name + ":" <= body then Some(Unquote(TrimSpace(body[|name| + 1..]))) else None
  }

  /** How the lines of a list whose items are indented by w read. */
  function ReaderAt(w: nat): Reader {
    Reader(line => IsItem(line, w), (line, name) => FieldOf(Body(line, w), name))
  }

  // ------------------------------------------------------------------- writing

  function ReplaceChar(s: string, c: char, rep: string): string {
    if s == "" then "" else (if s[0] == c then rep else [s[0]]) + ReplaceChar(s[1..], c, rep)
  }

  function YamlEscape(s: string): string {
    ReplaceChar(ReplaceChar(s, '\\', "\\\\"), '"', "\\\"")
  }

  function Number(n: int): string {
    if n < 0 then "-" + Decimal(-n) else Decimal(n)
  }

  function Quoted(streams: seq<string>): seq<string> {
    seq(|streams|, i requires 0 <= i < |streams| => "\"" + streams[i] + "\"")
  }

  const SilenceNote := "Silence past this degrades" + " this row on /api/v1/sources" + " AND suppresses"
  const SweepNote := "the mesh disappearance sweep" + " (absence must not read as" + " departure)."
  const PriorityNote := "Breaks ties when two monitors" + " disagree about a node's" + " identity."

  function Comment(text: string): (c: string)
    ensures c != "" && c[0] == '#'
  {
    "# " + text
  }

  function Field(w: nat, text: string): string {
    Spaces(w + 2) + text
  }

  function IdField(id: string): string {
    Id + ":" + (" " + id)
  }

  function HashField(hash: string): string {
    Hash + ":" + (" " + ("\"" + hash + "\""))
  }

  function NameField(r: Spec): string {
    "name: \"" + YamlEscape(r.name) + "\""
  }

  /** The fields after the hash. */
  function LaterFields(r: Spec): (fs: seq<string>)
    ensures forall i :: 0 <= i < |fs| ==> fs[i] != "" && !IsSpace(fs[i][0])
  {
    var streams, stale, gap := "streams: [" + Join(Quoted(r.streams), ", ") + "]", "staleAfter: \"" + r.staleAfter + "\"", "minInterval: \"" + r.minInterval + "\"";
    var priority := "priority: " + Number(r.priority);
    assert streams[0] == 's' && stale[0] == 's' && gap[0] == 'm' && priority[0] == 'p';
    [streams, Comment(SilenceNote), Comment(SweepNote), stale, gap, Comment(PriorityNote), priority]
  }

  function Fields(w: nat, texts: seq<string>): seq<string> {
    seq(|texts|, i requires 0 <= i < |texts| => Field(w, texts[i]))
  }

  function AllFields(r: Spec): (fs: seq<string>)
    ensures |fs| > 2 && fs[0] == NameField(r) && fs[1] == HashField(r.tokenSha256)
    ensures forall i :: 0 <= i < |fs| ==> fs[i] != "" && !IsSpace(fs[i][0])
  {
    assert NameField(r)[0] == 'n' && HashField(r.tokenSha256)[0] == 't';
    [NameField(r), HashField(r.tokenSha256)] + LaterFields(r)
  }

  function RenderEntry(w: nat, r: Spec): seq<string> {
    [Spaces(w) + "- " + IdField(r.id)] + Fields(w, AllFields(r))
  }

  function Yaml(): Format {
    Format(line => IsIngest(line), line => StepAt(line), line => Leading(line), (line: string, w: nat) => InList(line, w),
           (w: nat) => ReaderAt(w), (n: nat) => Spaces(n) + "reporters:", (w: nat, h: string) => Field(w, HashField(h)),
           (w: nat, r: Spec) => RenderEntry(w, r))
  }

  // -------------------------------------------------------------- trimming laws

  lemma {:induction false} LeadingOf(n: nat, x: string)
    requires x != "" && x[0] != ' '
    ensures Leading(Spaces(n) + x) == n
  {
    if n > 0 {
      assert (Spaces(n) + x)[1..] == Spaces(n - 1) + x;
      LeadingOf(n - 1, x);
    } else {
      assert Spaces(0) + x == x;
    }
  }

  lemma {:induction false} TrimLeftOf(n: nat, x: string)
    requires x != "" && !IsSpace(x[0])
    ensures TrimLeft(Spaces(n) + x) == x
  {
    if n > 0 {
      assert (Spaces(n) + x)[1..] == Spaces(n - 1) + x;
      TrimLeftOf(n - 1, x);
    } else {
      assert Spaces(0) + x == x;
    }
  }

  /** Trimming an indented text leaves its beginning, and all of it if it ends in no space. */
  lemma TrimOf(n: nat, x: string)
    requires x != "" && !IsSpace(x[0])
    ensures var t := TrimSpace(Spaces(n) + x); t == TrimRight(x) && t != "" && t[0] == x[0]
    ensures !IsSpace(x[|x| - 1]) ==> TrimSpace(Spaces(n) + x) == x
  {
    TrimLeftOf(n, x);
    TrimRightKeepsHead(x);
  }

  lemma {:induction false} TrimRightKeepsHead(x: string)
    requires x != "" && !IsSpace(x[0])
    ensures TrimRight(x) != "" && TrimRight(x)[0] == x[0]
  {
    if IsSpace(x[|x| - 1]) {
      TrimRightKeepsHead(x[..|x| - 1]);
    }
  }

  lemma UnquoteNone(s: string)
    requires forall i :: 0 <= i < |s| ==> !IsQuote(s[i])
    ensures Unquote(s) == s
    ensures Unquote("\"" + s + "\"") == s
  {
    assert ("\"" + s + "\"")[1..] == s + "\"";
    assert (s + "\"")[..|s|] == s;
    if s == "" {
      assert s + "\"" == "\"";
      assert "\""[1..] == "";
    }
  }

  // ----------------------------------------------------------------- field lines

  /** A field line is in the list, opens no item, and reads as its text begins. */
  lemma FieldReads(w: nat, x: string)
    requires x != "" && !IsSpace(x[0])
    ensures InList(Field(w, x), w) && !IsItem(Field(w, x), w)
    ensures Body(Field(w, x), w) == TrimRight(x) && TrimRight(x) != "" && TrimRight(x)[0] == x[0]
    ensures !IsSpace(x[|x| - 1]) ==> Body(Field(w, x), w) == x
  {
    LeadingOf(w + 2, x);
    TrimOf(w + 2, x);
    assert Field(w, x)[w] == ' ' && (Spaces(w) + "- ")[w] == '-';
  }

  lemma FieldNamed(body: string, name: string, c: char)
    requires body != "" && body[0] == c && name != "" && name[0] != c
    ensures FieldOf(body, name) == None
  {
    assert (name + ":")[0] == name[0];
  }

  lemma FieldOfItsOwn(name: string, rest: string)
    ensures FieldOf(name + ":" + rest, name) == Some(Unquote(TrimSpace(rest)))
  {
    assert (name + ":" + rest)[|name| + 1..] == rest;
  }

  lemma SpacedValue(x: string)
    requires x != "" && !IsSpace(x[0]) && !IsSpace(x[|x| - 1])
    ensures TrimSpace(" " + x) == x
  {
    TrimOf(1, x);
    assert Spaces(1) == " ";
  }

  lemma HashValue(h: string)
    requires forall i :: 0 <= i < |h| ==> !IsQuote(h[i])
    ensures FieldOf(HashField(h), Hash) == Some(h)
  {
    var q := "\"" + h + "\"";
    assert q[0] == '"' && q[|q| - 1] == '"';
    FieldOfItsOwn(Hash, " " + q);
    SpacedValue(q);
    UnquoteNone(h);
  }

  lemma HashEnds(h: string)
    ensures var x := HashField(h); x != "" && x[0] == 't' && x[|x| - 1] == '"' && !IsSpace('t') && !IsSpace('"')
  {
  }

  lemma HashText(h: string)
    requires IsHash(h)
    ensures var x := HashField(h);
      && x != "" && !IsSpace(x[0]) && !IsSpace(x[|x| - 1])
      && FieldOf(x, Hash) == Some(h) && FieldOf(x, Id) == None
  {
    HashEnds(h);
    HashValue(h);
    FieldNamed(HashField(h), Id, 't');
  }

  lemma HashReads(w: nat, h: string)
    requires IsHash(h)
    ensures InList(Field(w, HashField(h)), w) && !IsItem(Field(w, HashField(h)), w)
    ensures FieldOf(Body(Field(w, HashField(h)), w), Hash) == Some(h)
    ensures FieldOf(Body(Field(w, HashField(h)), w), Id) == None
  {
    HashText(h);
    FieldReads(w, HashField(h));
  }

  lemma KeyStep(l: string)
    requires TrimSpace(l) == "reporters:" && Leading(l) > 2
    ensures StepAt(l) == AtKey(false)
  {
    var trimmed := TrimSpace(l);
    assert trimmed[0] == 'r' && "#"[0] == '#';
    assert trimmed[10..] == "";
  }

  lemma NotIngest(l: string)
    requires |l| > 2 && l[2] == ' '
    ensures !IsIngest(l)
  {
    var t := TrimBlanks(l);
    assert |t| > 2 ==> t[2] == l[2];
  }

  lemma KeyLineFacts(n: nat)
    requires n > 2
    ensures var l := Spaces(n) + "reporters:"; TrimSpace(l) == "reporters:" && Leading(l) == n && l[2] == ' ' && OneLine(l)
  {
    var key := "reporters:";
    assert key[0] == 'r' && key[|key| - 1] == ':' && OneLine(key);
    KeyLineTrims(n, key);
  }

  lemma KeyLineTrims(n: nat, key: string)
    requires key != "" && !IsSpace(key[0]) && !IsSpace(key[|key| - 1])
    ensures Leading(Spaces(n) + key) == n && TrimSpace(Spaces(n) + key) == key
    ensures n > 2 ==> (Spaces(n) + key)[2] == ' '
    ensures OneLine(key) ==> OneLine(Spaces(n) + key)
  {
    LeadingOf(n, key);
    TrimOf(n, key);
  }

  lemma ListLinesAreNotIngest(l: string)
    ensures ReadsKeys(Yaml(), l)
  {
    if Leading(l) > 4 {
      NotIngest(l);
    }
  }

  lemma OneFieldEach(w: nat)
    ensures OneFieldALine(ReaderAt(w))
  {
    forall l | FieldOf(Body(l, w), Hash).Some? ensures FieldOf(Body(l, w), Id).None? {
      assert (Hash + ":")[0] == 't';
      FieldNamed(Body(l, w), Id, 't');
    }
  }

  // --------------------------------------------------------------------- entries

  lemma {:induction false} JoinOneLine(parts: seq<string>, sep: string)
    requires OneLine(sep) && forall i :: 0 <= i < |parts| ==> OneLine(parts[i])
    ensures OneLine(Join(parts, sep))
  {
    if |parts| > 1 {
      JoinOneLine(parts[1..], sep);
    }
  }

  lemma {:induction false} ReplaceOneLine(s: string, c: char, rep: string)
    requires OneLine(s) && OneLine(rep)
    ensures OneLine(ReplaceChar(s, c, rep))
  {
    if s != "" {
      ReplaceOneLine(s[1..], c, rep);
    }
  }

  lemma {:induction false} DecimalOneLine(n: nat)
    ensures OneLine(Decimal(n))
  {
    if n >= 10 {
      DecimalOneLine(n / 10);
    }
  }

  lemma OneLineParts(a: string, b: string, c: string)
    requires OneLine(a) && OneLine(b) && OneLine(c)
    ensures OneLine(a + b + c)
  {
  }

  lemma SilenceOneLine()
    ensures OneLine(SilenceNote)
  {
    OneLineParts("Silence past this degrades", " this row on /api/v1/sources", " AND suppresses");
  }

  lemma SweepOneLine()
    ensures OneLine(SweepNote)
  {
    OneLineParts("the mesh disappearance sweep", " (absence must not read as", " departure).");
  }

  lemma PriorityOneLine()
    ensures OneLine(PriorityNote)
  {
    OneLineParts("Breaks ties when two monitors", " disagree about a node's", " identity.");
  }

  lemma CommentOneLine(text: string)
    requires OneLine(text)
    ensures OneLine(Comment(text))
  {
  }

  lemma NotesOneLine()
    ensures OneLine(Comment(SilenceNote)) && OneLine(Comment(SweepNote)) && OneLine(Comment(PriorityNote))
  {
    SilenceOneLine();
    SweepOneLine();
    PriorityOneLine();
    CommentOneLine(SilenceNote);
    CommentOneLine(SweepNote);
    CommentOneLine(PriorityNote);
  }

  lemma NameOneLine(name: string)
    requires OneLine(name)
    ensures OneLine(YamlEscape(name))
  {
    ReplaceOneLine(name, '\\', "\\\\");
    ReplaceOneLine(ReplaceChar(name, '\\', "\\\\"), '"', "\\\"");
  }

  lemma StreamsOneLine(streams: seq<string>)
    requires forall i :: 0 <= i < |streams| ==> OneLine(streams[i])
    ensures OneLine(Join(Quoted(streams), ", "))
  {
    JoinOneLine(Quoted(streams), ", ");
  }

  lemma NumberOneLine(n: int)
    ensures OneLine(Number(n))
  {
    DecimalOneLine(if n < 0 then -n else n);
  }

  lemma FieldsOneLine(r: Spec)
    requires IsSpec(r)
    ensures OneLine(NameField(r)) && AllOneLine(LaterFields(r))
  {
    NameOneLine(r.name);
    StreamsOneLine(r.streams);
    NumberOneLine(r.priority);
    NotesOneLine();
    OneLineParts("name: \"", YamlEscape(r.name), "\"");
    OneLineParts("streams: [", Join(Quoted(r.streams), ", "), "]");
    OneLineParts("staleAfter: \"", r.staleAfter, "\"");
    OneLineParts("minInterval: \"", r.minInterval, "\"");
    OneLineParts("priority: ", Number(r.priority), "");
    assert "priority: " + Number(r.priority) + "" == "priority: " + Number(r.priority);
  }

  lemma SlugEnds(id: string)
    requires IsSlug(id)
    ensures OneLine(id) && !IsSpace(id[0]) && !IsSpace(id[|id| - 1]) && forall i :: 0 <= i < |id| ==> !IsQuote(id[i])
  {
    assert IsSlugChar(id[0]) && IsSlugChar(id[|id| - 1]);
  }

  lemma SlugValue(id: string)
    requires id != "" && !IsSpace(id[0]) && !IsSpace(id[|id| - 1]) && forall i :: 0 <= i < |id| ==> !IsQuote(id[i])
    ensures FieldOf(IdField(id), Id) == Some(id)
  {
    FieldOfItsOwn(Id, " " + id);
    SpacedValue(id);
    UnquoteNone(id);
  }

  /** An item line reads as what follows its dash. */
  lemma ItemReads(w: nat, x: string)
    requires x != "" && !IsSpace(x[0]) && !IsSpace(x[|x| - 1])
    ensures var l := Spaces(w) + "- " + x;
      IsItem(l, w) && InList(l, w) && Body(l, w) == x && (OneLine(x) ==> OneLine(l))
  {
    ItemBody(w, x);
    ItemInList(w, x, Spaces(w) + "- " + x);
    if OneLine(x) {
      OneLineParts(Spaces(w), "- ", x);
    }
  }

  lemma ItemBody(w: nat, x: string)
    requires x != "" && !IsSpace(x[0]) && !IsSpace(x[|x| - 1])
    ensures var l := Spaces(w) + "- " + x; IsItem(l, w) && Body(l, w) == x
  {
    assert (Spaces(w) + "- " + x)[w + 2..] == x;
    TrimSame(x);
  }

  lemma ItemInList(w: nat, x: string, l: string)
    requires l == Spaces(w) + "- " + x
    ensures InList(l, w)
  {
    var y := "- " + x;
    assert l == Spaces(w) + y && y[0] == '-';
    LeadingOf(w, y);
    TrimOf(w, y);
  }

  lemma IdReads(w: nat, id: string)
    requires IsSlug(id)
    ensures var l := Spaces(w) + "- " + IdField(id);
      && IsItem(l, w) && InList(l, w) && OneLine(l)
      && FieldOf(Body(l, w), Id) == Some(id) && FieldOf(Body(l, w), Hash) == None
  {
    SlugEnds(id);
    SlugValue(id);
    IdEnds(id);
    ItemReads(w, IdField(id));
    FieldNamed(IdField(id), Hash, 'i');
  }

  lemma HashItemReads(w: nat, h: string)
    requires IsHash(h)
    ensures var l := Spaces(w) + "- " + HashField(h);
      && IsItem(l, w) && InList(l, w)
      && FieldOf(Body(l, w), Hash) == Some(h) && FieldOf(Body(l, w), Id) == None
  {
    HashText(h);
    ItemReads(w, HashField(h));
  }

  lemma IdEnds(id: string)
    requires id != "" && OneLine(id)
    ensures var x := IdField(id); x != "" && x[0] == 'i' && x[|x| - 1] == id[|id| - 1] && OneLine(x) && !IsSpace('i')
  {
  }

  lemma LowerLine(w: nat, fields: seq<string>, i: nat)
    requires i < |fields| && fields[i] != "" && !IsSpace(fields[i][0]) && OneLine(fields[i])
    ensures var l := Fields(w, fields)[i]; InList(l, w) && !IsItem(l, w) && OneLine(l)
  {
    FieldReads(w, fields[i]);
  }

  lemma AllOneLines(r: Spec)
    requires IsSpec(r)
    ensures AllOneLine(AllFields(r))
  {
    FieldsOneLine(r);
    HashOneLine(r.tokenSha256);
    var fs := AllFields(r);
    forall i | 0 <= i < |fs| ensures OneLine(fs[i]) {
      assert i > 1 ==> fs[i] == LaterFields(r)[i - 2];
    }
  }

  lemma HashOneLine(h: string)
    requires IsHash(h)
    ensures OneLine(HashField(h))
  {
  }

  lemma NameReads(w: nat, r: Spec)
    ensures FieldOf(Body(Field(w, NameField(r)), w), Hash) == None
  {
    assert NameField(r)[0] == 'n' && !IsSpace('n');
    FieldReads(w, NameField(r));
    FieldNamed(Body(Field(w, NameField(r)), w), Hash, 'n');
  }

  /** Any lines below an item line, of which the second gives the hash, make one entry. */
  lemma OneEntry(rd: Reader, item: string, below: seq<string>, id: string, h: string)
    requires |below| > 1 && rd.isItem(item) && NoItems(below, rd)
    requires rd.field(item, Id) == Some(id) && rd.field(item, Hash) == None
    requires rd.field(below[0], Hash) == None && rd.field(below[1], Hash) == Some(h)
    ensures var e := [item] + below;
      && IsEntry(e, rd) && RowOf(e, rd) == (Some(id), Some(h)) && FieldAt(e, rd, Hash) == 2 && Has(e, rd, Id)
  {
    var e := [item] + below;
    assert e[1..] == below && e[0] == item && e[1] == below[0] && e[2] == below[1];
    SameFirst(e, rd, Id, 0);
    SameFirst(e, rd, Hash, 2);
  }

  lemma LinesBelow(w: nat, r: Spec)
    requires IsSpec(r)
    ensures var below := Fields(w, AllFields(r));
      forall i :: 0 <= i < |below| ==> InList(below[i], w) && !IsItem(below[i], w) && OneLine(below[i])
  {
    AllOneLines(r);
    forall i | 0 <= i < |AllFields(r)| ensures var l := Fields(w, AllFields(r))[i]; InList(l, w) && !IsItem(l, w) && OneLine(l) {
      LowerLine(w, AllFields(r), i);
    }
  }

  lemma EntryLines(w: nat, r: Spec)
    requires IsSpec(r)
    ensures AllLinesGood(RenderEntry(w, r), w)
  {
    IdReads(w, r.id);
    LinesBelow(w, r);
    GoodBelow(Spaces(w) + "- " + IdField(r.id), Fields(w, AllFields(r)), w);
  }

  ghost predicate AllLinesGood(ls: seq<string>, w: nat) {
    forall i :: 0 <= i < |ls| ==> InList(ls[i], w) && OneLine(ls[i])
  }

  lemma GoodBelow(l: string, below: seq<string>, w: nat)
    requires InList(l, w) && OneLine(l) && AllLinesGood(below, w)
    ensures AllLinesGood([l] + below, w)
  {
  }

  lemma Rehashed(r: Spec, h: string)
    ensures AllFields(r.(tokenSha256 := h)) == AllFields(r)[1 := HashField(h)]
  {
    assert LaterFields(r.(tokenSha256 := h)) == LaterFields(r);
  }

  lemma ThirdLine(w: nat, item: string, fields: seq<string>, x: string)
    requires |fields| > 1
    ensures ([item] + Fields(w, fields))[2 := Field(w, x)] == [item] + Fields(w, fields[1 := x])
  {
    assert Fields(w, fields[1 := x]) == Fields(w, fields)[1 := Field(w, x)];
  }

  lemma RotatesThird(e: seq<string>, rd: Reader, line: string)
    requires FieldAt(e, rd, Hash) == 2 < |e| && Has(e, rd, Id)
    ensures RotateEntry(e, rd, line) == e[2 := line]
  {
  }

  lemma EntryRotates(w: nat, r: Spec, h: string)
    requires FieldAt(RenderEntry(w, r), ReaderAt(w), Hash) == 2 && Has(RenderEntry(w, r), ReaderAt(w), Id)
    ensures RotateEntry(RenderEntry(w, r), ReaderAt(w), Field(w, HashField(h))) == RenderEntry(w, r.(tokenSha256 := h))
  {
    Rehashed(r, h);
    ThirdLine(w, Spaces(w) + "- " + IdField(r.id), AllFields(r), HashField(h));
    RotatesThird(RenderEntry(w, r), ReaderAt(w), Field(w, HashField(h)));
  }

  lemma EntriesRender(w: nat, r: Spec)
    requires IsSpec(r)
    ensures RendersEntries(Yaml(), w, r)
  {
    var item, below := Spaces(w) + "- " + IdField(r.id), Fields(w, AllFields(r));
    IdReads(w, r.id);
    NameReads(w, r);
    HashReads(w, r.tokenSha256);
    LinesBelow(w, r);
    OneEntry(ReaderAt(w), item, below, r.id, r.tokenSha256);
    EntryLines(w, r);
    forall h | IsHash(h) ensures RotateEntry(RenderEntry(w, r), ReaderAt(w), Field(w, HashField(h))) == RenderEntry(w, r.(tokenSha256 := h)) {
      EntryRotates(w, r, h);
    }
  }

  lemma HashGives(w: nat, h: string)
    requires IsHash(h)
    ensures GivesHash(ReaderAt(w), Field(w, HashField(h)), h) && InList(Field(w, HashField(h)), w)
  {
    HashReads(w, h);
  }

  lemma HashLineIsOne(w: nat, h: string)
    requires IsHash(h)
    ensures OneLine(Field(w, HashField(h)))
  {
    HashOneLine(h);
    FieldOneLine(w, HashField(h));
  }

  lemma HashesWrite(w: nat, h: string)
    requires IsHash(h)
    ensures WritesHashes(Yaml(), w, h)
  {
    HashGives(w, h);
    HashLineIsOne(w, h);
  }

  lemma FieldOneLine(w: nat, x: string)
    requires OneLine(x)
    ensures OneLine(Field(w, x))
  {
  }

  lemma WritesLawfully()
    ensures forall w: nat, h :: IsHash(h) ==> WritesHashes(Yaml(), w, h)
  {
    forall w: nat, h | IsHash(h) ensures WritesHashes(Yaml(), w, h) { HashesWrite(w, h); }
  }

  lemma KeysWrite()
    ensures forall n :: n > 2 ==> WritesKeys(Yaml(), n)
  {
    forall n: nat | n > 2 ensures WritesKeys(Yaml(), n) {
      var l := Spaces(n) + "reporters:";
      KeyLineFacts(n);
      KeyStep(l);
      NotIngest(l);
    }
  }

  lemma ReadsLawfully()
    ensures forall l :: ReadsKeys(Yaml(), l)
    ensures forall w: nat :: OneFieldALine(Yaml().reader(w))
  {
    forall l ensures ReadsKeys(Yaml(), l) { ListLinesAreNotIngest(l); }
    forall w: nat ensures OneFieldALine(Yaml().reader(w)) { OneFieldEach(w); }
  }

  /** The editor's laws hold of the lines it really reads and writes. */
  lemma YamlIsLawful()
    ensures Lawful(Yaml())
  {
    ReadsLawfully();
    WritesLawfully();
    KeysWrite();
    forall w: nat, r | IsSpec(r) ensures RendersEntries(Yaml(), w, r) { EntriesRender(w, r); }
  }

  // ---------------------------------------------------------------- escaped names

  /** Reads a double-quoted YAML scalar up to its closing quote. */
  function ReadQuoted(s: string): Option<(string, string)> {
    if s == "" then None
    else if s[0] == '"' then Some(("", s[1..]))
    else if s[0] == '\\' then
      if |s| == 1 then None
      else
        var rest := ReadQuoted(s[2..]);
        if rest.None? then None else Some(([s[1]] + rest.value.0, rest.value.1))
    else
      var rest := ReadQuoted(s[1..]);
      if rest.None? then None else Some(([s[0]] + rest.value.0, rest.value.1))
  }

  lemma {:induction false} EscapeByCharacter(s: string)
    requires s != ""
    ensures YamlEscape(s) == (if s[0] == '\\' || s[0] == '"' then ['\\', s[0]] else [s[0]]) + YamlEscape(s[1..])
  {
    var t, u := ReplaceChar(s, '\\', "\\\\"), ReplaceChar(s[1..], '\\', "\\\\");
    if s[0] == '\\' {
      var t' := ['\\'] + u;
      assert t == ['\\'] + t' && t[1..] == t' && t'[1..] == u;
      assert ReplaceChar(t', '"', "\\\"") == ['\\'] + ReplaceChar(u, '"', "\\\"");
    } else {
      assert t == [s[0]] + u && t[1..] == u;
    }
  }

  lemma ReadPlain(c: char, e: string, v: (string, string))
    requires ReadQuoted(e) == Some(v) && c != '"' && c != '\\'
    ensures ReadQuoted([c] + e) == Some(([c] + v.0, v.1))
  {
    assert ([c] + e)[1..] == e;
  }

  lemma ReadEscaped(c: char, e: string, v: (string, string))
    requires ReadQuoted(e) == Some(v)
    ensures ReadQuoted(['\\', c] + e) == Some(([c] + v.0, v.1))
  {
    assert (['\\', c] + e)[2..] == e;
  }

  /** An escaped name reads back as the name, whatever follows its closing quote. */
  lemma {:induction false} EscapedNameReadsBack(s: string, rest: string)
    ensures ReadQuoted(YamlEscape(s) + (['"'] + rest)) == Some((s, rest))
  {
    if s == "" {
      assert YamlEscape(s) + (['"'] + rest) == ['"'] + rest && (['"'] + rest)[1..] == rest;
    } else {
      EscapedNameReadsBack(s[1..], rest);
      EscapeByCharacter(s);
      ReadCharacter(s[0], YamlEscape(s[1..]) + (['"'] + rest), YamlEscape(s), YamlEscape(s[1..]), ['"'] + rest, (s[1..], rest));
      assert s == [s[0]] + s[1..];
    }
  }

  lemma ReadCharacter(c: char, e: string, escaped: string, tail: string, end: string, v: (string, string))
    requires e == tail + end && ReadQuoted(e) == Some(v)
    requires escaped == (if c == '\\' || c == '"' then ['\\', c] else [c]) + tail
    ensures ReadQuoted(escaped + end) == Some(([c] + v.0, v.1))
  {
    if c == '\\' || c == '"' {
      ReadEscaped(c, e, v);
      assert escaped + end == ['\\', c] + e;
    } else {
      ReadPlain(c, e, v);
      assert escaped + end == [c] + e;
    }
  }
}
