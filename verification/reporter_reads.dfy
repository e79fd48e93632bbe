/** What the reporter editor (cmd/ingest-token/edit.go) looks for in a file, and
  that everything it writes of a new reporter reads back. */
module ReporterReads {
  import opened Wrappers
  import opened Text
  import opened EntryList
  import opened EntryListLaws
  import opened ReporterEdit
  import opened ReporterEditLaws
  import opened ReporterYaml

  // ---------------------------------------------------------------- one new entry

  /** A value that a YAML scalar in double quotes holds as it is. */
  predicate IsPlain(x: string) {
    forall i :: 0 <= i < |x| ==> !IsQuote(x[i])
  }

  function Line(w: nat, name: string, value: string): string {
    Field(w, name + ":" + (" " + value))
  }

  lemma LineReads(w: nat, name: string, value: string)
    requires name != "" && !IsSpace(name[0]) && value != "" && !IsSpace(value[0]) && !IsSpace(value[|value| - 1])
    ensures FieldOf(Body(Line(w, name, value), w), name) == Some(Unquote(value))
  {
    var x := name + ":" + (" " + value);
    assert x[0] == name[0] && x[|x| - 1] == value[|value| - 1];
    FieldReads(w, x);
    FieldOfItsOwn(name, " " + value);
    SpacedValue(value);
  }

  lemma QuotedReads(w: nat, name: string, value: string)
    requires name != "" && !IsSpace(name[0]) && IsPlain(value)
    ensures FieldOf(Body(Line(w, name, "\"" + value + "\""), w), name) == Some(value)
  {
    var q := "\"" + value + "\"";
    assert q[0] == '"' && q[|q| - 1] == '"';
    LineReads(w, name, q);
    UnquoteNone(value);
  }

  /** A line that does not begin with the field's first letter does not give it. */
  lemma OtherLine(w: nat, x: string, name: string)
    requires x != "" && !IsSpace(x[0]) && name != "" && name[0] != x[0]
    ensures FieldOf(Body(Field(w, x), w), name) == None
  {
    FieldReads(w, x);
    FieldNamed(Body(Field(w, x), w), name, x[0]);
  }

  /** A line of an entry below its id, with the name of its field. */
  function Setting(name: string, value: string): string {
    name + ":" + (" " + value)
  }

  /** What the lines below the id hold: each begins with its letter, and four of
      them hold the settings of the reporter. */
  ghost predicate HoldSettings(fs: seq<string>, r: Spec, letters: string, streams: string, stale: string, gap: string, priority: string) {
    && |fs| == 9 == |letters| && (forall i :: 0 <= i < 9 ==> fs[i] != "" && fs[i][0] == letters[i] && !IsSpace(letters[i]))
    && fs[2] == Setting(streams, "[" + Join(Quoted(r.streams), ", ") + "]")
    && fs[5] == Setting(stale, "\"" + r.staleAfter + "\"")
    && fs[6] == Setting(gap, "\"" + r.minInterval + "\"")
    && fs[8] == Setting(priority, Number(r.priority))
  }

  lemma SettingsAreHeld(r: Spec, letters: string, streams: string, stale: string, gap: string, priority: string)
    requires letters == "nts##sm#p" && streams == "streams" && stale == "staleAfter" && gap == "minInterval" && priority == "priority"
    ensures HoldSettings(AllFields(r), r, letters, streams, stale, gap, priority)
  {
    var fs := AllFields(r);
    assert HashField(r.tokenSha256)[0] == 't' && NameField(r)[0] == 'n';
    assert fs[2][0] == 's' && fs[3][0] == '#' && fs[4][0] == '#' && fs[5][0] == 's' && fs[6][0] == 'm' && fs[7][0] == '#' && fs[8][0] == 'p';
    assert fs[2] == Setting(streams, "[" + Join(Quoted(r.streams), ", ") + "]");
    assert fs[8] == Setting(priority, Number(r.priority));
  }

  /** A line that begins with another letter does not hold the field. */
  lemma LetterIsOther(w: nat, x: string, name: string, rd: Reader)
    requires x != "" && !IsSpace(x[0]) && name != "" && name[0] != x[0] && rd == ReaderAt(w)
    ensures rd.field(Field(w, x), name) == None
  {
    OtherLine(w, x, name);
  }

  lemma ItemIsOther(w: nat, id: string, name: string, rd: Reader)
    requires IsSlug(id) && name != "" && name[0] != 'i' && rd == ReaderAt(w)
    ensures rd.field(Spaces(w) + "- " + IdField(id), name) == None
  {
    SlugEnds(id);
    IdEnds(id);
    ItemReads(w, IdField(id));
    FieldNamed(IdField(id), name, 'i');
  }

  lemma NotAPrefix(body: string, name: string, i: nat)
    requires i < |name| && i < |body| && body[i] != name[i]
    ensures FieldOf(body, name) == None
  {
    assert (name + ":")[i] == name[i];
  }

  /** `streams` is not `staleAfter`, although it begins with the same letter. */
  lemma StreamsAreOther(w: nat, x: string, other: string, rd: Reader)
    requires |x| > 2 && x[0] == 's' && x[2] == 'r' && !IsSpace(x[|x| - 1]) && |other| > 2 && other[2] == 'a' && rd == ReaderAt(w)
    ensures rd.field(Field(w, x), other) == None
  {
    FieldReads(w, x);
    NotAPrefix(x, other, 2);
  }

  /** What the lines of an entry say of a field, up to the first that holds it. */
  ghost predicate FirstHolds(e: seq<string>, rd: Reader, name: string, m: nat, value: string) {
    m < |e| && rd.field(e[m], name) == Some(value) && forall j :: 0 <= j < m ==> rd.field(e[j], name) == None
  }

  lemma FirstIsLookup(e: seq<string>, rd: Reader, name: string, m: nat, value: string)
    requires FirstHolds(e, rd, name, m, value)
    ensures Lookup(e, rd, name) == Some(value)
  {
    SameFirst(e, rd, name, m);
  }

  lemma OneMoreLine(e: seq<string>, rd: Reader, name: string, item: string, below: seq<string>, m: nat, value: string)
    requires e == [item] + below && rd.field(item, name) == None && FirstHolds(below, rd, name, m, value)
    ensures Lookup(e, rd, name) == Some(value)
  {
    assert forall j :: 0 < j < |e| ==> e[j] == below[j - 1];
    FirstIsLookup(e, rd, name, m + 1, value);
  }

  lemma {:induction false} DigitsArePlain(n: nat)
    ensures IsPlain(Decimal(n)) && forall i :: 0 <= i < |Decimal(n)| ==> !IsSpace(Decimal(n)[i])
  {
    if n >= 10 {
      DigitsArePlain(n / 10);
    }
  }

  lemma NumberIsPlain(n: int)
    ensures var x := Number(n); x != "" && IsPlain(x) && !IsSpace(x[0]) && !IsSpace(x[|x| - 1])
  {
    DigitsArePlain(if n < 0 then -n else n);
  }

  lemma UnquoteBrackets(value: string)
    requires |value| > 1 && value[0] == '[' && value[|value| - 1] == ']'
    ensures Unquote(value) == value
  {
  }

  lemma SettingReads(w: nat, name: string, value: string, read: string, rd: Reader)
    requires name != "" && !IsSpace(name[0]) && value != "" && !IsSpace(value[0]) && !IsSpace(value[|value| - 1]) && Unquote(value) == read
    requires rd == ReaderAt(w)
    ensures rd.field(Field(w, Setting(name, value)), name) == Some(read)
  {
    LineReads(w, name, value);
  }

  lemma QuotedSetting(w: nat, name: string, value: string, rd: Reader)
    requires name != "" && !IsSpace(name[0]) && IsPlain(value) && rd == ReaderAt(w)
    ensures rd.field(Field(w, Setting(name, "\"" + value + "\"")), name) == Some(value)
  {
    QuotedReads(w, name, value);
  }

  /** The lines of an entry below its id, as one list. */
  ghost predicate AreLines(below: seq<string>, w: nat, fs: seq<string>) {
    |below| == |fs| && forall i :: 0 <= i < |fs| ==> below[i] == Field(w, fs[i])
  }

  lemma NoneAbove(w: nat, below: seq<string>, fs: seq<string>, name: string, from: nat, to: nat, rd: Reader)
    requires AreLines(below, w, fs) && rd == ReaderAt(w) && name != "" && from <= to <= |fs|
    requires forall i :: from <= i < to ==> fs[i] != "" && !IsSpace(fs[i][0]) && fs[i][0] != name[0]
    ensures forall i :: from <= i < to ==> rd.field(below[i], name) == None
  {
    forall i | from <= i < to ensures rd.field(below[i], name) == None {
      LetterIsOther(w, fs[i], name, rd);
    }
  }

  lemma StreamsSetting(x: string, streams: string, value: string, end: string)
    requires x == Setting(streams, value + end) && streams == "streams" && end == "]"
    ensures |x| > 2 && x[0] == 's' && x[2] == 'r' && !IsSpace(x[|x| - 1])
  {
    assert streams[0] == 's' && streams[2] == 'r' && x[|x| - 1] == end[0];
  }

  lemma ThirdIsOther(w: nat, x: string, streams: string, stale: string, value: string, end: string, rd: Reader)
    requires x == Setting(streams, value + end) && streams == "streams" && end == "]" && stale == "staleAfter" && rd == ReaderAt(w)
    ensures rd.field(Field(w, x), stale) == None
  {
    StreamsSetting(x, streams, value, end);
    assert stale[2] == 'a';
    StreamsAreOther(w, x, stale, rd);
  }

  lemma FiveLines(below: seq<string>, rd: Reader, name: string)
    requires |below| >= 5 && rd.field(below[0], name) == None && rd.field(below[1], name) == None && rd.field(below[2], name) == None
    requires rd.field(below[3], name) == None && rd.field(below[4], name) == None
    ensures forall j :: 0 <= j < 5 ==> rd.field(below[j], name) == None
  {
  }

  lemma NoStaleAbove(w: nat, below: seq<string>, fs: seq<string>, r: Spec, letters: string, streams: string, stale: string, gap: string, priority: string, rd: Reader)
    requires HoldSettings(fs, r, letters, streams, stale, gap, priority) && letters == "nts##sm#p" && streams == "streams" && stale == "staleAfter"
    requires AreLines(below, w, fs) && rd == ReaderAt(w)
    ensures forall j :: 0 <= j < 5 ==> rd.field(below[j], stale) == None
  {
    LetterIsOther(w, fs[0], stale, rd);
    LetterIsOther(w, fs[1], stale, rd);
    ThirdIsOther(w, fs[2], streams, stale, "[" + Join(Quoted(r.streams), ", "), "]", rd);
    LetterIsOther(w, fs[3], stale, rd);
    LetterIsOther(w, fs[4], stale, rd);
    FiveLines(below, rd, stale);
  }

  lemma StaleAfterReads(w: nat, below: seq<string>, fs: seq<string>, r: Spec, letters: string, streams: string, stale: string, gap: string, priority: string, rd: Reader)
    requires HoldSettings(fs, r, letters, streams, stale, gap, priority) && letters == "nts##sm#p" && streams == "streams" && stale == "staleAfter"
    requires AreLines(below, w, fs) && rd == ReaderAt(w) && IsPlain(r.staleAfter)
    ensures FirstHolds(below, rd, stale, 5, r.staleAfter)
  {
    NoStaleAbove(w, below, fs, r, letters, streams, stale, gap, priority, rd);
    QuotedSetting(w, stale, r.staleAfter, rd);
  }

  lemma MinIntervalReads(w: nat, below: seq<string>, fs: seq<string>, r: Spec, letters: string, streams: string, stale: string, gap: string, priority: string, rd: Reader)
    requires HoldSettings(fs, r, letters, streams, stale, gap, priority) && letters == "nts##sm#p" && gap == "minInterval"
    requires AreLines(below, w, fs) && rd == ReaderAt(w) && IsPlain(r.minInterval)
    ensures FirstHolds(below, rd, gap, 6, r.minInterval)
  {
    NoneAbove(w, below, fs, gap, 0, 6, rd);
    QuotedSetting(w, gap, r.minInterval, rd);
  }

  lemma NumberSetting(w: nat, name: string, n: int, rd: Reader)
    requires name != "" && !IsSpace(name[0]) && rd == ReaderAt(w)
    ensures rd.field(Field(w, Setting(name, Number(n))), name) == Some(Number(n))
  {
    NumberIsPlain(n);
    UnquoteNone(Number(n));
    SettingReads(w, name, Number(n), Number(n), rd);
  }

  lemma PriorityReads(w: nat, below: seq<string>, fs: seq<string>, r: Spec, letters: string, streams: string, stale: string, gap: string, priority: string, rd: Reader)
    requires HoldSettings(fs, r, letters, streams, stale, gap, priority) && letters == "nts##sm#p" && priority == "priority"
    requires AreLines(below, w, fs) && rd == ReaderAt(w)
    ensures FirstHolds(below, rd, priority, 8, Number(r.priority))
  {
    NoneAbove(w, below, fs, priority, 0, 8, rd);
    NumberSetting(w, priority, r.priority, rd);
  }

  lemma StreamsRead(w: nat, below: seq<string>, fs: seq<string>, r: Spec, letters: string, streams: string, stale: string, gap: string, priority: string, rd: Reader)
    requires HoldSettings(fs, r, letters, streams, stale, gap, priority) && letters == "nts##sm#p" && streams == "streams"
    requires AreLines(below, w, fs) && rd == ReaderAt(w)
    ensures FirstHolds(below, rd, streams, 2, "[" + Join(Quoted(r.streams), ", ") + "]")
  {
    var value := "[" + Join(Quoted(r.streams), ", ") + "]";
    NoneAbove(w, below, fs, streams, 0, 2, rd);
    assert value[0] == '[' && value[|value| - 1] == ']';
    UnquoteBrackets(value);
    SettingReads(w, streams, value, value, rd);
  }

  lemma SettingsReadBack(w: nat, r: Spec, letters: string, streams: string, stale: string, gap: string, priority: string)
    requires IsSpec(r) && IsPlain(r.staleAfter) && IsPlain(r.minInterval)
    requires letters == "nts##sm#p" && streams == "streams" && stale == "staleAfter" && gap == "minInterval" && priority == "priority"
    ensures var e, rd := RenderEntry(w, r), ReaderAt(w);
      && Lookup(e, rd, streams) == Some("[" + Join(Quoted(r.streams), ", ") + "]") && Lookup(e, rd, stale) == Some(r.staleAfter)
      && Lookup(e, rd, gap) == Some(r.minInterval) && Lookup(e, rd, priority) == Some(Number(r.priority))
  {
    var item, fs, below, rd := Spaces(w) + "- " + IdField(r.id), AllFields(r), ReporterYaml.Fields(w, AllFields(r)), ReaderAt(w);
    SettingsAreHeld(r, letters, streams, stale, gap, priority);
    ItemIsOther(w, r.id, streams, rd);
    ItemIsOther(w, r.id, stale, rd);
    ItemIsOther(w, r.id, gap, rd);
    ItemIsOther(w, r.id, priority, rd);
    StreamsRead(w, below, fs, r, letters, streams, stale, gap, priority, rd);
    StaleAfterReads(w, below, fs, r, letters, streams, stale, gap, priority, rd);
    MinIntervalReads(w, below, fs, r, letters, streams, stale, gap, priority, rd);
    PriorityReads(w, below, fs, r, letters, streams, stale, gap, priority, rd);
    OneMoreLine(RenderEntry(w, r), rd, streams, item, below, 2, "[" + Join(Quoted(r.streams), ", ") + "]");
    OneMoreLine(RenderEntry(w, r), rd, stale, item, below, 5, r.staleAfter);
    OneMoreLine(RenderEntry(w, r), rd, gap, item, below, 6, r.minInterval);
    OneMoreLine(RenderEntry(w, r), rd, priority, item, below, 8, Number(r.priority));
  }

  // Reading a number and a list of plain words again.

  function DigitsValue(s: string): int {
    if s == "" then 0 else 10 * DigitsValue(s[..|s| - 1]) + (s[|s| - 1] as int - '0' as int)
  }

  function NumberValue(s: string): int {
    if s != "" && s[0] == '-' then -DigitsValue(s[1..]) else DigitsValue(s)
  }

  lemma {:induction false} DecimalValue(n: nat)
    ensures DigitsValue(Decimal(n)) == n && Decimal(n)[0] != '-'
  {
    if n >= 10 {
      DecimalValue(n / 10);
      assert Decimal(n)[..|Decimal(n)| - 1] == Decimal(n / 10);
    } else {
      assert Decimal(n)[..0] == "";
    }
  }

  lemma NumberReadsBack(n: int)
    ensures NumberValue(Number(n)) == n
  {
    DecimalValue(if n < 0 then -n else n);
    if n < 0 {
      assert Number(n)[0] == '-' && Number(n)[1..] == Decimal(-n);
    }
  }

  function Led(parts: seq<string>): (r: seq<string>)
    ensures |r| == |parts|
  {
    seq(|parts|, i requires 0 <= i < |parts| => " " + parts[i])
  }

  lemma {:induction false} JoinLed(parts: seq<string>, comma: string, gap: string)
    requires parts != [] && comma == "," && gap == ", "
    ensures " " + Join(parts, gap) == Join(Led(parts), comma)
  {
    assert gap == comma + " ";
    if |parts| > 1 {
      JoinLed(parts[1..], comma, gap);
      assert Led(parts)[1..] == Led(parts[1..]);
      var rest := Join(parts[1..], gap);
      assert " " + (parts[0] + gap + rest) == (" " + parts[0]) + comma + (" " + rest);
    }
  }

  lemma ListParts(parts: seq<string>, comma: string, gap: string)
    requires parts != [] && comma == "," && gap == ", " && forall p :: p in parts ==> ',' !in p
    ensures Split(Join(parts, gap), ',') == [parts[0]] + Led(parts[1..])
  {
    var spaced := [parts[0]] + Led(parts[1..]);
    assert gap == comma + " " && comma == [','];
    forall p | p in spaced ensures ',' !in p {
      assert parts[0] in parts;
      if p in Led(parts[1..]) {
        var i :| 0 <= i < |parts| - 1 && Led(parts[1..])[i] == p;
        assert parts[1..][i] in parts;
      }
    }
    if |parts| > 1 {
      JoinLed(parts[1..], comma, gap);
      assert spaced[1..] == Led(parts[1..]);
      assert Join(parts, gap) == parts[0] + comma + (" " + Join(parts[1..], gap));
    }
    SplitJoin(spaced, ',');
  }

  lemma QuotedHaveNoComma(streams: seq<string>, qs: seq<string>)
    requires qs == Quoted(streams) && forall s :: s in streams ==> ',' !in s
    ensures forall q :: q in qs ==> ',' !in q
  {
    forall q | q in qs ensures ',' !in q {
      var k :| 0 <= k < |qs| && qs[k] == q;
      assert streams[k] in streams;
    }
  }

  lemma LedAt(parts: seq<string>, i: nat)
    requires i < |parts|
    ensures ([parts[0]] + Led(parts[1..]))[i] == if i == 0 then parts[0] else " " + parts[i]
  {
    if i > 0 {
      assert parts[1..][i - 1] == parts[i];
    }
  }

  /** The list of streams reads back word by word. */
  lemma StreamsReadBack(streams: seq<string>, i: nat)
    requires i < |streams| && forall s :: s in streams ==> IsPlain(s) && ',' !in s
    ensures var parts := Split(Join(Quoted(streams), ", "), ',');
      |parts| == |streams| && Unquote(TrimSpace(parts[i])) == streams[i]
  {
    var qs := Quoted(streams);
    QuotedHaveNoComma(streams, qs);
    ListParts(qs, ",", ", ");
    LedAt(qs, i);
    assert streams[i] in streams;
    OneStreamReads(qs[i], streams[i]);
  }

  lemma OneStreamReads(q: string, s: string)
    requires q == "\"" + s + "\"" && IsPlain(s)
    ensures Unquote(TrimSpace(q)) == s && Unquote(TrimSpace(" " + q)) == s
  {
    assert q[0] == '"' && q[|q| - 1] == '"';
    TrimSame(q);
    SpacedValue(q);
    UnquoteNone(s);
  }

  lemma NameReads(name: string, quote: string)
    requires quote == "\""
    ensures ReadQuoted(YamlEscape(name) + quote) == Some((name, ""))
  {
    assert quote == ['"'] + "";
    EscapedNameReadsBack(name, "");
  }

  /** The name is written in double quotes, escaped so that it reads back. */
  lemma NameReadsBack(w: nat, r: Spec)
    ensures RenderEntry(w, r)[1] == Spaces(w + 2) + ("name: \"" + YamlEscape(r.name) + "\"")
    ensures ReadQuoted(YamlEscape(r.name) + "\"") == Some((r.name, ""))
  {
    NameReads(r.name, "\"");
  }

  /** What is written of a new reporter reads back: the id, the hash, the streams as
      a list, the two durations and the priority. */
  lemma AnEntryReadsBack(w: nat, r: Spec)
    requires IsSpec(r) && IsPlain(r.staleAfter) && IsPlain(r.minInterval)
    ensures var e, rd := RenderEntry(w, r), ReaderAt(w);
      && Lookup(e, rd, "id") == Some(r.id) && Lookup(e, rd, "tokenSha256") == Some(r.tokenSha256)
      && Lookup(e, rd, "streams") == Some("[" + Join(Quoted(r.streams), ", ") + "]")
      && Lookup(e, rd, "staleAfter") == Some(r.staleAfter) && Lookup(e, rd, "minInterval") == Some(r.minInterval)
      && Lookup(e, rd, "priority").Some? && NumberValue(Lookup(e, rd, "priority").value) == r.priority
  {
    NumberReadsBack(r.priority);
    EntriesRender(w, r);
    SettingsReadBack(w, r, "nts##sm#p", "streams", "staleAfter", "minInterval", "priority");
  }

  /** Its item is indented by w, and its fields by two more. */
  lemma AnEntryIsIndented(w: nat, r: Spec, j: nat)
    requires j < |RenderEntry(w, r)|
    ensures Leading(RenderEntry(w, r)[j]) == if j == 0 then w else w + 2
    ensures RenderEntry(w, r)[0][w..w + 2] == "- "
  {
    ItemIsIndented(w, IdField(r.id), "- ");
    FieldsAreIndented(w, AllFields(r));
    if j > 0 {
      assert RenderEntry(w, r)[j] == ReporterYaml.Fields(w, AllFields(r))[j - 1];
    }
  }

  lemma ItemIsIndented(w: nat, x: string, dash: string)
    requires dash == "- "
    ensures Leading(Spaces(w) + dash + x) == w && (Spaces(w) + dash + x)[w..w + 2] == dash
  {
    assert Spaces(w) + dash + x == Spaces(w) + (dash + x) && (dash + x)[0] == '-';
    LeadingOf(w, dash + x);
  }

  lemma FieldsAreIndented(w: nat, fs: seq<string>)
    requires forall i :: 0 <= i < |fs| ==> fs[i] != "" && !IsSpace(fs[i][0])
    ensures forall i :: 0 <= i < |fs| ==> Leading(ReporterYaml.Fields(w, fs)[i]) == w + 2
  {
    forall i | 0 <= i < |fs| ensures Leading(ReporterYaml.Fields(w, fs)[i]) == w + 2 {
      LeadingOf(w + 2, fs[i]);
    }
  }

  lemma ColonAt(a: string, b: string, x: string, y: string, colon: string)
    requires colon == ":" && ':' !in a && ':' !in b && a + colon + x == b + colon + y
    ensures a == b
  {
    var s, t := a + colon + x, b + colon + y;
    assert s[|a|] == ':' && t[|b|] == ':';
    assert forall i :: 0 <= i < |a| ==> s[i] == a[i] != ':';
    assert forall i :: 0 <= i < |b| ==> t[i] == b[i] != ':';
    assert s[..|a|] == a && t[..|b|] == b;
  }

  lemma OnlyItsOwn(key: string, value: string, name: string, colon: string)
    requires colon == ":" && ':' !in key && ':' !in name
    ensures FieldOf(key + colon + value, name) == if name == key then Some(Unquote(TrimSpace(value))) else None
  {
    var body := key + colon + value;
    if name + colon <= body {
      assert body == name + colon + body[|name| + 1..];
      ColonAt(name, key, body[|name| + 1..], value, colon);
    }
    FieldOfItsOwn(key, value);
  }

  /** A line `key: value` holds the field of its own name, and no other's. */
  lemma OnlyItsOwnNameReads(w: nat, key: string, value: string, name: string)
    requires key != "" && !IsSpace(key[0]) && ':' !in key && ':' !in name
    requires value != "" && !IsSpace(value[0]) && !IsSpace(value[|value| - 1])
    ensures FieldOf(Body(Line(w, key, value), w), name) == if name == key then Some(Unquote(value)) else None
  {
    var x := key + ":" + (" " + value);
    assert x[0] == key[0] && x[|x| - 1] == value[|value| - 1];
    FieldReads(w, x);
    OnlyItsOwn(key, " " + value, name, ":");
    SpacedValue(value);
  }

  // --------------------------------------------------------------- the key that is found

  /** A blank line, a comment, or a deeper line with another key: passed over. */
  predicate IsPassed(l: string) {
    var t := TrimSpace(l);
    t == "" || t[0] == '#' || (Leading(l) > 2 && !("reporters:" <= t))
  }

  /** `reporters:` deeper than two spaces, with nothing or `[]` behind it. */
  predicate IsKeyLine(l: string, n: nat, empty: bool) {
    var t := TrimSpace(l);
    Leading(l) == n > 2 && "reporters:" <= t && TrimSpace(t[10..]) == if empty then "[]" else ""
  }

  /** Line g is the only one that opens an ingest block. */
  ghost predicate IsBlock(lines: seq<string>, g: nat) {
    g < |lines| && IsIngest(lines[g]) && forall m :: 0 <= m < |lines| && m != g ==> !IsIngest(lines[m])
  }

  ghost predicate KeyIsAt(lines: seq<string>, k: Key, g: nat) {
    IsBlock(lines, g) && g < k.idx < |lines| && IsKeyLine(lines[k.idx], k.indent, k.empty) && forall m :: g < m < k.idx ==> IsPassed(lines[m])
  }

  lemma StartsAre(t: string, hash: string, key: string)
    requires hash == "#" && key == "reporters:"
    ensures hash <= t <==> t != "" && t[0] == '#'
    ensures key <= t ==> t != "" && t[0] == 'r'
  {
    assert key[0] == 'r';
  }

  lemma PassedIffGoOn(l: string, hash: string, key: string)
    requires hash == "#" && key == "reporters:"
    ensures StepAt(l) == GoOn <==> IsPassed(l)
  {
    StartsAre(TrimSpace(l), hash, key);
  }

  lemma KeyLineIffAtKey(l: string, n: nat, empty: bool, hash: string, key: string)
    requires hash == "#" && key == "reporters:"
    ensures StepAt(l) == AtKey(empty) && Leading(l) == n <==> IsKeyLine(l, n, empty)
  {
    StartsAre(TrimSpace(l), hash, key);
  }

  lemma {:induction false} ScanFinds(lines: seq<string>, i: nat, k: Key, f: Format)
    requires i <= |lines|
    ensures KeyScan(lines, i, f) == Ok(k) <==>
      && i <= k.idx < |lines| && f.step(lines[k.idx]) == AtKey(k.empty) && f.indent(lines[k.idx]) == k.indent
      && forall m :: i <= m < k.idx ==> f.step(lines[m]) == GoOn
    decreases |lines| - i
  {
    if i < |lines| {
      ScanFinds(lines, i + 1, k, f);
    }
  }

  ghost predicate FoundAt(lines: seq<string>, k: Key, g: nat, f: Format) {
    && g < |lines| && f.isIngest(lines[g]) && (forall m :: 0 <= m < |lines| && m != g ==> !f.isIngest(lines[m]))
    && g < k.idx < |lines| && f.step(lines[k.idx]) == AtKey(k.empty) && f.indent(lines[k.idx]) == k.indent
    && forall m :: g < m < k.idx ==> f.step(lines[m]) == GoOn
  }

  lemma FoundIff(lines: seq<string>, k: Key, f: Format)
    ensures KeyOf(lines, f) == Ok(k) <==> exists g: nat :: FoundAt(lines, k, g, f)
  {
    var block := OnlyOne(lines, f.isIngest);
    if block.Ok? {
      ScanFinds(lines, block.value + 1, k, f);
      if KeyOf(lines, f) == Ok(k) {
        assert FoundAt(lines, k, block.value, f);
      }
    }
    if g: nat :| FoundAt(lines, k, g, f) {
      OnlyOneIs(lines, f.isIngest, g);
      ScanFinds(lines, g + 1, k, f);
    }
  }

  lemma FoundAtMeans(lines: seq<string>, k: Key, g: nat)
    ensures FoundAt(lines, k, g, Yaml()) <==> KeyIsAt(lines, k, g)
  {
    forall m | 0 <= m < |lines| ensures Yaml().step(lines[m]) == GoOn <==> IsPassed(lines[m]) {
      PassedIffGoOn(lines[m], "#", "reporters:");
    }
    if k.idx < |lines| {
      KeyLineIffAtKey(lines[k.idx], k.indent, k.empty, "#", "reporters:");
    }
  }

  /** The editor edits under the first key it comes to in the only ingest block,
      past other keys, blanks and comments, and before a line that leaves the block. */
  lemma KeyFoundIff(lines: seq<string>, k: Key)
    ensures KeyOf(lines, Yaml()) == Ok(k) <==> exists g: nat :: KeyIsAt(lines, k, g)
  {
    FoundIff(lines, k, Yaml());
    forall g: nat ensures FoundAt(lines, k, g, Yaml()) <==> KeyIsAt(lines, k, g) {
      FoundAtMeans(lines, k, g);
    }
  }

  // ------------------------------------------------------------------ refusals

  /** A line of the file's next part: neither blank nor a comment, at most two deep. */
  predicate IsLeaving(l: string) {
    var t := TrimSpace(l);
    t != "" && t[0] != '#' && Leading(l) <= 2
  }

  /** `reporters:` with another value behind it. */
  predicate IsOtherValue(l: string, v: string) {
    var t := TrimSpace(l);
    Leading(l) > 2 && "reporters:" <= t && TrimSpace(t[10..]) == v && v != "" && v != "[]"
  }

  lemma LeavingIff(l: string, hash: string, key: string)
    requires hash == "#" && key == "reporters:"
    ensures StepAt(l) == LeaveBlock <==> IsLeaving(l)
  {
    StartsAre(TrimSpace(l), hash, key);
  }

  lemma OtherValueIff(l: string, v: string, hash: string, key: string)
    requires hash == "#" && key == "reporters:"
    ensures StepAt(l) == Unreadable(v) <==> IsOtherValue(l, v)
  {
    StartsAre(TrimSpace(l), hash, key);
  }

  ghost predicate StopsAt(lines: seq<string>, i: nat, n: nat, step: Step, f: Format) {
    i <= n < |lines| && f.step(lines[n]) == step && forall m :: i <= m < n ==> f.step(lines[m]) == GoOn
  }

  ghost predicate GoesOn(lines: seq<string>, i: nat, f: Format) {
    forall m :: i <= m < |lines| ==> f.step(lines[m]) == GoOn
  }

  lemma StopsLater(lines: seq<string>, i: nat, j: nat, step: Step, f: Format)
    requires i < |lines| && j == i + 1 && f.step(lines[i]) == GoOn != step
    ensures (exists n: nat :: StopsAt(lines, i, n, step, f)) <==> exists n: nat :: StopsAt(lines, j, n, step, f)
    ensures GoesOn(lines, i, f) <==> GoesOn(lines, j, f)
  {
    if n: nat :| StopsAt(lines, i, n, step, f) {
      assert StopsAt(lines, j, n, step, f);
    }
    if n: nat :| StopsAt(lines, j, n, step, f) {
      assert StopsAt(lines, i, n, step, f);
    }
  }

  lemma StopsHere(lines: seq<string>, i: nat, step: Step, f: Format)
    requires i < |lines| && f.step(lines[i]) != GoOn
    ensures (exists n: nat :: StopsAt(lines, i, n, step, f)) <==> f.step(lines[i]) == step
  {
    if f.step(lines[i]) == step {
      assert StopsAt(lines, i, i, step, f);
    }
  }

  lemma {:induction false} ScanStops(lines: seq<string>, i: nat, v: string, f: Format)
    requires i <= |lines|
    ensures KeyScan(lines, i, f) == Err(UnsupportedValue(v)) <==> exists n: nat :: StopsAt(lines, i, n, Unreadable(v), f)
    ensures KeyScan(lines, i, f) == Err(NoReportersKey) <==> GoesOn(lines, i, f) || exists n: nat :: StopsAt(lines, i, n, LeaveBlock, f)
    decreases |lines| - i
  {
    if i < |lines| {
      if f.step(lines[i]) == GoOn {
        ScanStops(lines, i + 1, v, f);
        StopsLater(lines, i, i + 1, Unreadable(v), f);
        StopsLater(lines, i, i + 1, LeaveBlock, f);
      } else {
        StopsHere(lines, i, Unreadable(v), f);
        StopsHere(lines, i, LeaveBlock, f);
      }
    }
  }

  lemma OnlyOneFails(lines: seq<string>, p: string -> bool)
    ensures OnlyOne(lines, p) == Err(NoIngestBlock) <==> forall m :: 0 <= m < |lines| ==> !p(lines[m])
    ensures OnlyOne(lines, p) == Err(ManyIngestBlocks) <==> exists a, b :: 0 <= a < b < |lines| && p(lines[a]) && p(lines[b])
  {
    var i := First(lines, p);
    if i < |lines| {
      var rest := lines[i + 1..];
      var j := First(rest, p);
      if j < |rest| {
        assert rest[j] == lines[i + 1 + j];
      }
    }
  }

  ghost predicate OpensAt(lines: seq<string>, g: nat, f: Format) {
    g < |lines| && f.isIngest(lines[g]) && forall m :: 0 <= m < |lines| && m != g ==> !f.isIngest(lines[m])
  }

  ghost predicate StopsIn(lines: seq<string>, g: nat, n: nat, step: Step, f: Format) {
    OpensAt(lines, g, f) && StopsAt(lines, g + 1, n, step, f)
  }

  ghost predicate RunsOut(lines: seq<string>, g: nat, f: Format) {
    OpensAt(lines, g, f) && GoesOn(lines, g + 1, f)
  }

  lemma RefusedBy(lines: seq<string>, v: string, f: Format)
    ensures KeyOf(lines, f) == Err(NoIngestBlock) <==> OnlyOne(lines, f.isIngest) == Err(NoIngestBlock)
    ensures KeyOf(lines, f) == Err(ManyIngestBlocks) <==> OnlyOne(lines, f.isIngest) == Err(ManyIngestBlocks)
    ensures KeyOf(lines, f) == Err(UnsupportedValue(v)) <==> exists g: nat, n: nat :: StopsIn(lines, g, n, Unreadable(v), f)
    ensures KeyOf(lines, f) == Err(NoReportersKey) <==>
      (exists g: nat :: RunsOut(lines, g, f)) || exists g: nat, n: nat :: StopsIn(lines, g, n, LeaveBlock, f)
  {
    OnlyOneFails(lines, f.isIngest);
    forall g: nat | OpensAt(lines, g, f) ensures OnlyOne(lines, f.isIngest) == Ok(g) {
      OnlyOneIs(lines, f.isIngest, g);
    }
    var block := OnlyOne(lines, f.isIngest);
    if block.Ok? {
      BlockRefusedBy(lines, block.value, v, f);
    }
  }

  lemma BlockRefusedBy(lines: seq<string>, g: nat, v: string, f: Format)
    requires OpensAt(lines, g, f) && OnlyOne(lines, f.isIngest) == Ok(g)
    ensures KeyOf(lines, f) != Err(NoIngestBlock) && KeyOf(lines, f) != Err(ManyIngestBlocks)
    ensures KeyOf(lines, f) == Err(UnsupportedValue(v)) <==> exists n: nat :: StopsIn(lines, g, n, Unreadable(v), f)
    ensures KeyOf(lines, f) == Err(NoReportersKey) <==> RunsOut(lines, g, f) || exists n: nat :: StopsIn(lines, g, n, LeaveBlock, f)
  {
    ScanStops(lines, g + 1, v, f);
    NeverBoth(lines, g + 1, f);
    StopsInIff(lines, g, g + 1, Unreadable(v), f);
    StopsInIff(lines, g, g + 1, LeaveBlock, f);
  }

  lemma StopsInIff(lines: seq<string>, g: nat, i: nat, step: Step, f: Format)
    requires OpensAt(lines, g, f) && i == g + 1
    ensures (exists n: nat :: StopsIn(lines, g, n, step, f)) <==> exists n: nat :: StopsAt(lines, i, n, step, f)
  {
    if n: nat :| StopsAt(lines, i, n, step, f) {
      assert StopsIn(lines, g, n, step, f);
    }
    if n: nat :| StopsIn(lines, g, n, step, f) {
      assert StopsAt(lines, i, n, step, f);
    }
  }

  lemma {:induction false} NeverBoth(lines: seq<string>, i: nat, f: Format)
    requires i <= |lines|
    ensures KeyScan(lines, i, f) != Err(NoIngestBlock) && KeyScan(lines, i, f) != Err(ManyIngestBlocks)
    decreases |lines| - i
  {
    if i < |lines| {
      NeverBoth(lines, i + 1, f);
    }
  }

  /** The editor refuses a file without an ingest block, or with several. */
  lemma BlocksRefusedIff(lines: seq<string>)
    ensures KeyOf(lines, Yaml()) == Err(NoIngestBlock) <==> forall m :: 0 <= m < |lines| ==> !IsIngest(lines[m])
    ensures KeyOf(lines, Yaml()) == Err(ManyIngestBlocks) <==> exists a, b :: 0 <= a < b < |lines| && IsIngest(lines[a]) && IsIngest(lines[b])
  {
    RefusedBy(lines, "", Yaml());
    OnlyOneFails(lines, Yaml().isIngest);
  }

  /** From the block at g to line n every line is passed over. */
  ghost predicate PassesTo(lines: seq<string>, g: nat, n: nat) {
    IsBlock(lines, g) && g < n <= |lines| && forall m :: g < m < n ==> IsPassed(lines[m])
  }

  ghost predicate ValueIsAt(lines: seq<string>, g: nat, n: nat, v: string) {
    PassesTo(lines, g, n) && n < |lines| && IsOtherValue(lines[n], v)
  }

  ghost predicate IsLeftAt(lines: seq<string>, g: nat, n: nat) {
    PassesTo(lines, g, n) && n < |lines| && IsLeaving(lines[n])
  }

  lemma StopsInMeans(lines: seq<string>, g: nat, n: nat, v: string)
    ensures StopsIn(lines, g, n, Unreadable(v), Yaml()) <==> ValueIsAt(lines, g, n, v)
    ensures StopsIn(lines, g, n, LeaveBlock, Yaml()) <==> IsLeftAt(lines, g, n)
  {
    StepsMean(lines, v, "#", "reporters:");
    assert OpensAt(lines, g, Yaml()) <==> IsBlock(lines, g);
  }

  lemma RunsOutMeans(lines: seq<string>, g: nat)
    ensures RunsOut(lines, g, Yaml()) <==> PassesTo(lines, g, |lines|)
  {
    StepsMean(lines, "", "#", "reporters:");
    assert OpensAt(lines, g, Yaml()) <==> IsBlock(lines, g);
  }

  /** Else it refuses a value behind the key that it cannot edit. */
  lemma ValueRefusedIff(lines: seq<string>, v: string)
    ensures KeyOf(lines, Yaml()) == Err(UnsupportedValue(v)) <==> exists g: nat, n: nat :: ValueIsAt(lines, g, n, v)
  {
    RefusedBy(lines, v, Yaml());
    forall g: nat, n: nat ensures StopsIn(lines, g, n, Unreadable(v), Yaml()) <==> ValueIsAt(lines, g, n, v) {
      StopsInMeans(lines, g, n, v);
    }
  }

  /** And it refuses a block that ends, with the file or at a line of the next part,
      before it comes to a key. */
  lemma NoKeyIff(lines: seq<string>)
    ensures KeyOf(lines, Yaml()) == Err(NoReportersKey) <==>
      (exists g: nat :: PassesTo(lines, g, |lines|)) || exists g: nat, n: nat :: IsLeftAt(lines, g, n)
  {
    forall g: nat, n: nat ensures StopsIn(lines, g, n, LeaveBlock, Yaml()) <==> IsLeftAt(lines, g, n) {
      StopsInMeans(lines, g, n, "");
    }
    forall g: nat ensures RunsOut(lines, g, Yaml()) <==> PassesTo(lines, g, |lines|) {
      RunsOutMeans(lines, g);
    }
    NoKeyBy(lines, Yaml(), (g: nat) => PassesTo(lines, g, |lines|), (g: nat, n: nat) => IsLeftAt(lines, g, n));
  }

  lemma NoKeyBy(lines: seq<string>, f: Format, runsOut: nat -> bool, stops: (nat, nat) -> bool)
    requires forall g: nat :: runsOut(g) <==> RunsOut(lines, g, f)
    requires forall g: nat, n: nat :: stops(g, n) <==> StopsIn(lines, g, n, LeaveBlock, f)
    ensures KeyOf(lines, f) == Err(NoReportersKey) <==> (exists g: nat :: runsOut(g)) || exists g: nat, n: nat :: stops(g, n)
  {
    RefusedBy(lines, "", f);
  }

  lemma StepsMean(lines: seq<string>, v: string, hash: string, key: string)
    requires hash == "#" && key == "reporters:"
    ensures forall m :: 0 <= m < |lines| ==>
      && (Yaml().step(lines[m]) == GoOn <==> IsPassed(lines[m]))
      && (Yaml().step(lines[m]) == LeaveBlock <==> IsLeaving(lines[m]))
      && (Yaml().step(lines[m]) == Unreadable(v) <==> IsOtherValue(lines[m], v))
  {
    forall m | 0 <= m < |lines|
      ensures (Yaml().step(lines[m]) == GoOn <==> IsPassed(lines[m])) && (Yaml().step(lines[m]) == LeaveBlock <==> IsLeaving(lines[m]))
        && (Yaml().step(lines[m]) == Unreadable(v) <==> IsOtherValue(lines[m], v))
    {
      PassedIffGoOn(lines[m], hash, key);
      LeavingIff(lines[m], hash, key);
      OtherValueIff(lines[m], v, hash, key);
    }
  }

  lemma {:induction false} TrimBlanksOf(x: string, blanks: string)
    requires x != "" && x[|x| - 1] !in " \t" && forall i :: 0 <= i < |blanks| ==> blanks[i] in " \t"
    ensures TrimBlanks(x + blanks) == x
  {
    if blanks == "" {
      assert x + blanks == x;
    } else {
      TrimBlanksOf(x, blanks[..|blanks| - 1]);
      assert (x + blanks)[..|x + blanks| - 1] == x + blanks[..|blanks| - 1];
    }
  }

  lemma {:induction false} TrimmedBlanks(s: string)
    ensures forall i :: |TrimBlanks(s)| <= i < |s| ==> s[i] in " \t"
  {
    if s != "" && s[|s| - 1] in " \t" {
      TrimmedBlanks(s[..|s| - 1]);
    }
  }

  /** The line that opens the block: two spaces, `ingest:`, and nothing but blanks. */
  lemma IngestIff(l: string, key: string)
    requires key == "  ingest:"
    ensures IsIngest(l) <==> key <= l && forall i :: |key| <= i < |l| ==> l[i] == ' ' || l[i] == '\t'
  {
    TrimmedBlanks(l);
    if key <= l && forall i :: |key| <= i < |l| ==> l[i] == ' ' || l[i] == '\t' {
      assert key[8] == ':';
      TrimBlanksOf(key, l[|key|..]);
      assert l == key + l[|key|..];
    }
  }
}
