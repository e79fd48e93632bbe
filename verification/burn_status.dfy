/** Residential burning status (internal/ingest/burn_status.go): when a county is
  told that burning is allowed. */
module BurnStatus {
  import opened Wrappers
  import opened Text

  // -------------------------------------------------------------------- answers

  datatype BurnDay = DayUnknown | Yes | No | Marginal

  datatype Calfire = CalfireUnknown | Suspended | PermitRequired | NoPermitRequired

  datatype Permission = PermissionUnknown | Prohibited | Allowed

  /** burnDayProto: green, red and orange; anything else is unknown. */
  function DayOf(status: string): BurnDay {
    var s := ToLower(TrimSpace(status));
    if s == "green" then Yes else if s == "red" then No else if s == "orange" then Marginal else DayUnknown
  }

  predicate Permissive(c: Calfire) {
    c == PermitRequired || c == NoPermitRequired
  }

  function DerivePermission(day: BurnDay, calfire: Calfire): Permission {
    if day == No || calfire == Suspended then Prohibited
    else if day == Yes && Permissive(calfire) then Allowed
    else PermissionUnknown
  }

  // ---------------------------------------------------------------------- lines

  /** A recorded phone line and the counties it speaks for. */
  datatype Line = Line(id: string, phone: string, enabled: bool, counties: seq<string>)

  predicate Dialed(l: Line) {
    l.enabled && l.phone != "" && l.id != ""
  }

  predicate SpeaksFor(l: Line, county: string) {
    exists i :: 0 <= i < |l.counties| && EqualFold(l.counties[i], county)
  }

  function LinesForCounty(lines: seq<Line>, county: string): (ls: seq<Line>)
    ensures forall l :: l in ls <==> l in lines && SpeaksFor(l, county)
  {
    if lines == [] then []
    else
      var rest := LinesForCounty(lines[1..], county);
      if SpeaksFor(lines[0], county) then [lines[0]] + rest else rest
  }

  /** A pushed reading; a missing timestamp is None. Times are in seconds. */
  datatype Reading = Reading(status: string, observedAt: Option<int>)

  const DefaultBurnDayStaleAfter: int := 129600

  function BurnDayStale(configured: int): int {
    if configured != 0 then configured else DefaultBurnDayStaleAfter
  }

  /** freshnessError finds nothing wrong; a limit of zero or less turns the gate off. */
  predicate Fresh(r: Reading, now: int, limit: int) {
    limit <= 0 || (r.observedAt.Some? && now - r.observedAt.value <= limit)
  }

  // -------------------------------------------------------- the per-line loop

  /** What a poll knows of the lines; `staleAfter` is the configured age limit. */
  datatype Desk = Desk(staged: map<string, Reading>, now: int, staleAfter: int)

  /** The reading a line may be believed with: staged under its lower-case id, and fresh. */
  function Usable(id: string, d: Desk): Option<Reading> {
    var key := ToLower(id);
    if key in d.staged && Fresh(d.staged[key], d.now, BurnDayStale(d.staleAfter)) then Some(d.staged[key]) else None
  }

  function DialedLines(lines: seq<Line>): nat {
    if lines == [] then 0 else DialedLines(lines[..|lines| - 1]) + if Dialed(lines[|lines| - 1]) then 1 else 0
  }

  /** A line we call has nothing to say: no reading, or none in its time. */
  predicate Silent(l: Line, d: Desk) {
    Dialed(l) && Usable(l.id, d).None?
  }

  predicate AllSilent(lines: seq<Line>, d: Desk) {
    forall l :: l in lines && Dialed(l) ==> Silent(l, d)
  }

  predicate SomeSilent(lines: seq<Line>, d: Desk) {
    exists l :: l in lines && Silent(l, d)
  }

  function LineErrors(lines: seq<Line>, d: Desk): (n: nat)
    ensures n <= DialedLines(lines)
    ensures n == DialedLines(lines) <==> AllSilent(lines, d)
  {
    if lines == [] then 0
    else
      var before, last := lines[..|lines| - 1], lines[|lines| - 1];
      assert lines == before + [last];
      LineErrors(before, d) + if Silent(last, d) then 1 else 0
  }

  ghost predicate UsableFor(usable: map<string, Reading>, lines: seq<Line>, d: Desk) {
    forall l :: l in lines ==> (if l.id in usable then Some(usable[l.id]) else None) == Usable(l.id, d)
  }

  method JudgeLines(lines: seq<Line>, d: Desk) returns (usable: map<string, Reading>, lineErrors: nat)
    ensures UsableFor(usable, lines, d)
    ensures lineErrors == LineErrors(lines, d)
  {
    usable, lineErrors := map[], 0;
    for n := 0 to |lines|
      invariant forall id :: id in usable ==> Usable(id, d) == Some(usable[id])
      invariant forall k :: 0 <= k < n && Usable(lines[k].id, d).Some? ==> lines[k].id in usable
      invariant lineErrors == LineErrors(lines[..n], d)
    {
      assert lines[..n + 1][..n] == lines[..n];
      var l := lines[n];
      var key := ToLower(l.id);
      if key !in d.staged {
        if Dialed(l) { lineErrors := lineErrors + 1; }
        continue;
      }
      if !Fresh(d.staged[key], d.now, BurnDayStale(d.staleAfter)) {
        if Dialed(l) { lineErrors := lineErrors + 1; }
        continue;
      }
      usable := usable[l.id := d.staged[key]];
    }
    assert lines[..|lines|] == lines;
  }

  // ---------------------------------------------------------------------- merging

  /** What a county gets from one line: whether we call it, and its usable answer. */
  datatype Answer = Answer(dialed: bool, day: Option<BurnDay>)

  function AnswerOf(l: Line, d: Desk): Answer {
    var r := Usable(l.id, d);
    Answer(Dialed(l), if r.None? then None else Some(DayOf(r.value.status)))
  }

  function Answers(lines: seq<Line>, d: Desk): (answers: seq<Answer>)
    ensures |answers| == |lines| && forall i :: 0 <= i < |answers| ==> answers[i] == AnswerOf(lines[i], d)
  {
    seq(|lines|, i requires 0 <= i < |lines| => AnswerOf(lines[i], d))
  }

  predicate Says(answers: seq<Answer>, day: BurnDay) {
    exists i :: 0 <= i < |answers| && answers[i].day == Some(day)
  }

  /** A dialed line without a usable answer. */
  predicate Gap(a: Answer) {
    a.dialed && (a.day == None || a.day == Some(DayUnknown))
  }

  predicate HasGap(answers: seq<Answer>) {
    exists i :: 0 <= i < |answers| && Gap(answers[i])
  }

  /** The most restrictive answer, whatever the order of the lines. */
  function Merged(answers: seq<Answer>): BurnDay {
    if Says(answers, No) then No
    else if Says(answers, Marginal) then Marginal
    else if Says(answers, Yes) && !HasGap(answers) then Yes
    else DayUnknown
  }

  method MergeBurnDays(answers: seq<Answer>) returns (day: BurnDay)
    ensures day == Merged(answers)
  {
    var sawYes, sawMarginal, missingDialed := false, false, false;
    for n := 0 to |answers|
      invariant sawYes <==> Says(answers[..n], Yes)
      invariant sawMarginal <==> Says(answers[..n], Marginal)
      invariant missingDialed <==> HasGap(answers[..n])
      invariant !Says(answers[..n], No)
    {
      var a := answers[n];
      OneMore(answers, n);
      if a.day.None? {
        if a.dialed { missingDialed := true; }
        continue;
      }
      match a.day.value
      case No =>
        assert Says(answers, No);
        return No;
      case Marginal => sawMarginal := true;
      case Yes => sawYes := true;
      case DayUnknown => if a.dialed { missingDialed := true; }
    }
    assert answers[..|answers|] == answers;
    if sawMarginal {
      return Marginal;
    }
    if sawYes && !missingDialed {
      return Yes;
    }
    return DayUnknown;
  }

  lemma OneMore(answers: seq<Answer>, n: nat)
    requires n < |answers|
    ensures forall day :: Says(answers[..n + 1], day) <==> Says(answers[..n], day) || answers[n].day == Some(day)
    ensures HasGap(answers[..n + 1]) <==> HasGap(answers[..n]) || Gap(answers[n])
  {
    forall day ensures Says(answers[..n + 1], day) <==> Says(answers[..n], day) || answers[n].day == Some(day) {
      if Says(answers[..n], day) {
        var i :| 0 <= i < n && answers[..n][i].day == Some(day);
        assert answers[..n + 1][i].day == Some(day);
      }
      if answers[n].day == Some(day) {
        assert answers[..n + 1][n].day == Some(day);
      }
    }
    if HasGap(answers[..n]) {
      var i :| 0 <= i < n && Gap(answers[..n][i]);
      assert Gap(answers[..n + 1][i]);
    }
    if Gap(answers[n]) {
      assert Gap(answers[..n + 1][n]);
    }
  }

  /** Reordering or repeating lines changes nothing. */
  lemma MergeIgnoresOrder(answers: seq<Answer>, bs: seq<Answer>)
    requires forall a :: a in answers <==> a in bs
    ensures Merged(answers) == Merged(bs)
  {
    SameAnswers(answers, bs);
    SameAnswers(bs, answers);
  }

  lemma SameAnswers(answers: seq<Answer>, bs: seq<Answer>)
    requires forall a :: a in answers ==> a in bs
    ensures forall day :: Says(answers, day) ==> Says(bs, day)
    ensures HasGap(answers) ==> HasGap(bs)
  {
    forall i | 0 <= i < |answers| ensures exists j :: 0 <= j < |bs| && bs[j] == answers[i] {
      assert answers[i] in bs;
    }
  }

  // --------------------------------------------------------------- one county's event

  /** countyKey: the CAL FIRE table's name for a place. */
  function CountyKey(place: string): string {
    var s := ToLower(place);
    if |s| >= 7 && s[|s| - 7..] == "-county" then s[..|s| - 7] else s
  }

  /** CAL FIRE's answer now, or else the one stored with the county's event. */
  function CarriedForward(fetched: Calfire, stored: Calfire): Calfire {
    if fetched != CalfireUnknown then fetched else stored
  }

  datatype Event = Event(place: string, day: BurnDay, calfire: Calfire, permission: Permission)

  /** What a fetch of the CAL FIRE table gives a county; None is a failed fetch. */
  function FetchedFor(rows: Option<map<string, Calfire>>, place: string): Calfire {
    if rows.Some? && CountyKey(place) in rows.value then rows.value[CountyKey(place)] else CalfireUnknown
  }

  function StoredFor(stored: map<string, Calfire>, place: string): Calfire {
    if place in stored then stored[place] else CalfireUnknown
  }

  function EventFor(place: string, rows: Option<map<string, Calfire>>, lines: seq<Line>, d: Desk, stored: map<string, Calfire>): Event {
    var day := Merged(Answers(LinesForCounty(lines, place), d));
    var calfire := CarriedForward(FetchedFor(rows, place), StoredFor(stored, place));
    Event(place, day, calfire, DerivePermission(day, calfire))
  }

  /** The configuration a poll works with. */
  datatype Config = Config(counties: seq<string>, lines: seq<Line>, staleAfter: int)

  /** What one poll finds: the CAL FIRE table and the staging table, None when they
      cannot be read; the time; and the counties whose places can be looked up. */
  datatype Round = Round(rows: Option<map<string, Calfire>>, staging: Option<map<string, Reading>>, now: int, places: string -> bool)

  function DeskOf(c: Config, r: Round): Desk
    requires r.staging.Some?
  {
    Desk(r.staging.value, r.now, c.staleAfter)
  }

  /** The polls that end in an error and so publish nothing. */
  predicate Fails(c: Config, r: Round) {
    || c.counties == [] || r.staging.None?
    || (r.rows.None? && AllSilent(c.lines, DeskOf(c, r)))
    || exists p :: p in c.counties && !r.places(p)
  }

  datatype Polled = HardError | Polled(events: seq<Event>, calfireDegraded: bool, linesDegraded: bool)

  method Poll(c: Config, r: Round, stored: map<string, Calfire>) returns (p: Polled)
    ensures p.HardError? <==> Fails(c, r)
    ensures p.Polled? ==>
      && p.events == EventsFor(c.counties, r.rows, c.lines, DeskOf(c, r), stored)
      && (p.calfireDegraded <==> r.rows.None?)
      && (p.linesDegraded <==> SomeSilent(c.lines, DeskOf(c, r)))
  {
    if c.counties == [] || r.staging.None? {
      return HardError;
    }
    var d := DeskOf(c, r);
    var usable, lineErrors := JudgeLines(c.lines, d);
    var expected := DialedLines(c.lines);
    ErrorsAreGaps(c.lines, d);
    if r.rows.None? && expected > 0 && lineErrors == expected {
      return HardError;
    }
    if r.rows.None? && expected == 0 {
      return HardError;
    }
    var events := BuildEvents(c.counties, r.rows, c.lines, usable, d, stored, r.places);
    if events.None? {
      return HardError;
    }
    return Polled(events.value, r.rows.None?, lineErrors > 0);
  }

  function EventsFor(counties: seq<string>, rows: Option<map<string, Calfire>>, lines: seq<Line>, d: Desk, stored: map<string, Calfire>): (es: seq<Event>)
    ensures |es| == |counties|
  {
    seq(|counties|, i requires 0 <= i < |counties| => EventFor(counties[i], rows, lines, d, stored))
  }

  /** Poll's loop over the counties; a county whose places cannot be looked up ends it. */
  method BuildEvents(counties: seq<string>, rows: Option<map<string, Calfire>>, lines: seq<Line>, usable: map<string, Reading>, ghost d: Desk,
                     stored: map<string, Calfire>, places: string -> bool) returns (events: Option<seq<Event>>)
    requires UsableFor(usable, lines, d)
    ensures events.None? <==> exists p :: p in counties && !places(p)
    ensures events.Some? ==> events.value == EventsFor(counties, rows, lines, d, stored)
  {
    var built: seq<Event> := [];
    for i := 0 to |counties|
      invariant |built| == i && forall k :: 0 <= k < i ==> built[k] == EventFor(counties[k], rows, lines, d, stored)
      invariant forall k :: 0 <= k < i ==> places(counties[k])
    {
      var event := BuildEvent(counties[i], rows, lines, usable, d, stored);
      if !places(counties[i]) {
        return None;
      }
      built := built + [event];
    }
    return Some(built);
  }

  /** buildEvent; `d` is only what `usable` was made from. */
  method BuildEvent(place: string, rows: Option<map<string, Calfire>>, lines: seq<Line>, usable: map<string, Reading>, ghost d: Desk,
                    stored: map<string, Calfire>) returns (e: Event)
    requires UsableFor(usable, lines, d)
    ensures e == EventFor(place, rows, lines, d, stored)
  {
    var mine := LinesForCounty(lines, place);
    var answers := seq(|mine|, k requires 0 <= k < |mine| => AnswerFrom(mine[k], usable));
    forall k | 0 <= k < |mine| ensures answers[k] == AnswerOf(mine[k], d) {
      assert mine[k] in mine && mine[k] in lines;
    }
    assert answers == Answers(mine, d);
    var day := MergeBurnDays(answers);
    var calfire := CarriedForward(FetchedFor(rows, place), StoredFor(stored, place));
    return Event(place, day, calfire, DerivePermission(day, calfire));
  }

  function AnswerFrom(l: Line, usable: map<string, Reading>): Answer {
    Answer(Dialed(l), if l.id in usable then Some(DayOf(usable[l.id].status)) else None)
  }

  lemma {:induction false} ErrorsAreGaps(lines: seq<Line>, d: Desk)
    ensures LineErrors(lines, d) > 0 <==> SomeSilent(lines, d)
  {
    if lines != [] {
      var before, last := lines[..|lines| - 1], lines[|lines| - 1];
      ErrorsAreGaps(before, d);
      assert lines == before + [last];
    }
  }

  // ------------------------------------------------------------- when it is allowed

  /** Burning is allowed in a county iff CAL FIRE, now or as last heard, permits
      it, some line says green, every line we call says green and is fresh, and no
      usable line says red or orange. */
  lemma AllowedIff(place: string, rows: Option<map<string, Calfire>>, lines: seq<Line>, d: Desk, stored: map<string, Calfire>)
    ensures var answers := Answers(LinesForCounty(lines, place), d);
      EventFor(place, rows, lines, d, stored).permission == Allowed <==>
        && Permissive(CarriedForward(FetchedFor(rows, place), StoredFor(stored, place)))
        && Says(answers, Yes)
        && (forall i :: 0 <= i < |answers| && answers[i].dialed ==> answers[i].day == Some(Yes))
        && (forall i :: 0 <= i < |answers| ==> answers[i].day !in {Some(No), Some(Marginal)})
  {
    MergedYesIff(Answers(LinesForCounty(lines, place), d));
  }

  lemma MergedYesIff(answers: seq<Answer>)
    ensures Merged(answers) == Yes <==>
      && Says(answers, Yes)
      && (forall i :: 0 <= i < |answers| && answers[i].dialed ==> answers[i].day == Some(Yes))
      && (forall i :: 0 <= i < |answers| ==> answers[i].day !in {Some(No), Some(Marginal)})
  {
    if Merged(answers) == Yes {
      forall i | 0 <= i < |answers| && answers[i].dialed ensures answers[i].day == Some(Yes) {
        assert !Gap(answers[i]);
        match answers[i].day
        case None =>
        case Some(day) => assert day != No && day != Marginal && day != DayUnknown;
      }
    }
  }

  /** Losing the reading of a line we call never allows burning, whatever else is known. */
  lemma LosingADialedLineNeverAllows(place: string, rows: Option<map<string, Calfire>>, lines: seq<Line>, d: Desk, stored: map<string, Calfire>, l: Line)
    requires l in lines && SpeaksFor(l, place) && Dialed(l)
    ensures var lost := d.(staged := d.staged - {ToLower(l.id)});
      EventFor(place, rows, lines, lost, stored).permission != Allowed
  {
    var lost := d.(staged := d.staged - {ToLower(l.id)});
    var mine := LinesForCounty(lines, place);
    AllowedIff(place, rows, lines, lost, stored);
    var i :| 0 <= i < |mine| && mine[i] == l;
    assert Answers(mine, lost)[i] == AnswerOf(l, lost);
  }

  function Without(d: Desk, key: string): Desk {
    d.(staged := d.staged - {key})
  }

  lemma LostUsable(id: string, d: Desk, key: string)
    ensures Usable(id, Without(d, key)) == if ToLower(id) == key then None else Usable(id, d)
  {
  }

  predicate Restriction(a: Answer) {
    a.day == Some(No) || a.day == Some(Marginal)
  }

  /** `left` is `was` with the answers at `lost` gone. */
  ghost predicate Lost(was: seq<Answer>, left: seq<Answer>, lost: nat -> bool) {
    |was| == |left| && forall i: nat :: i < |was| ==> left[i] == if lost(i) then Answer(was[i].dialed, None) else was[i]
  }

  lemma YesAfterALoss(was: seq<Answer>, left: seq<Answer>, lost: nat -> bool)
    requires Lost(was, left, lost) && Merged(left) == Yes
    ensures forall i: nat :: i < |was| && lost(i) ==> !was[i].dialed
    ensures Merged(was) == Yes <==> forall i: nat :: i < |was| && lost(i) ==> !Restriction(was[i])
  {
    MergedYesIff(was);
    MergedYesIff(left);
    var y: nat :| y < |left| && left[y].day == Some(Yes);
    assert was[y] == left[y];
    forall i: nat | i < |was| && lost(i) ensures !was[i].dialed {
      assert left[i].day == None;
    }
    if forall i: nat :: i < |was| && lost(i) ==> !Restriction(was[i]) {
      forall i: nat | i < |was| ensures was[i].day !in {Some(No), Some(Marginal)} {
        assert !lost(i) ==> was[i] == left[i];
        assert lost(i) ==> !Restriction(was[i]);
      }
    }
  }

  /** If burning is allowed after a reading is lost, it was allowed before, unless
      what was lost was a restriction, which then came from a line nobody calls. */
  lemma LosingAReading(place: string, rows: Option<map<string, Calfire>>, lines: seq<Line>, d: Desk, stored: map<string, Calfire>, key: string)
    requires EventFor(place, rows, lines, Without(d, key), stored).permission == Allowed
    ensures var mine := LinesForCounty(lines, place);
      && (forall i :: 0 <= i < |mine| && ToLower(mine[i].id) == key ==> !Dialed(mine[i]))
      && (EventFor(place, rows, lines, d, stored).permission == Allowed
          <==> forall i :: 0 <= i < |mine| && ToLower(mine[i].id) == key ==> !Restriction(Answers(mine, d)[i]))
  {
    var mine := LinesForCounty(lines, place);
    var was, left := Answers(mine, d), Answers(mine, Without(d, key));
    var lost := (i: nat) => i < |mine| && ToLower(mine[i].id) == key;
    forall i: nat | i < |was| ensures left[i] == if lost(i) then Answer(was[i].dialed, None) else was[i] {
      LostUsable(mine[i].id, d, key);
    }
    YesAfterALoss(was, left, lost);
    assert forall i: nat :: i < |was| && lost(i) ==> was[i].dialed == Dialed(mine[i]);
  }

  // ------------------------------------------------------- a county not in the table

  /** A county absent from a successful fetch reads as it is stored: unknown only
      if nothing known is stored for it. */
  lemma AbsentCountyReadsAsStored(place: string, rows: map<string, Calfire>, lines: seq<Line>, d: Desk, stored: map<string, Calfire>)
    requires CountyKey(place) !in rows
    ensures EventFor(place, Some(rows), lines, d, stored).calfire == StoredFor(stored, place)
    ensures EventFor(place, Some(rows), lines, d, stored).calfire == CalfireUnknown <==> StoredFor(stored, place) == CalfireUnknown
  {
  }

  predicate PlainWord(s: string) {
    s != "" && forall i :: 0 <= i < |s| ==> 'a' <= s[i] <= 'z'
  }

  lemma DayOfPlainWord(s: string)
    requires PlainWord(s)
    ensures ToLower(TrimSpace(s)) == s
  {
    TrimSame(s);
    LowerSame(s);
  }

  lemma GreenIsPlain()
    ensures PlainWord("green")
  {
  }

  lemma GreenIsYes()
    ensures DayOf("green") == Yes
  {
    GreenIsPlain();
    DayOfPlainWord("green");
  }

  lemma OneLineForCounty(l: Line, place: string)
    requires l.counties == [place]
    ensures LinesForCounty([l], place) == [l]
  {
    assert EqualFold(l.counties[0], place);
    assert LinesForCounty([l][1..], place) == [];
  }

  lemma OneYes()
    ensures Merged([Answer(true, Some(Yes))]) == Yes
  {
    assert [Answer(true, Some(Yes))][0].day == Some(Yes);
  }

  lemma OneFreshReading(l: Line, r: Reading, d: Desk)
    requires d.staged == map[ToLower(l.id) := r] && Dialed(l) && r.observedAt == Some(d.now) && BurnDayStale(d.staleAfter) >= 0
    ensures Answers([l], d) == [Answer(true, Some(DayOf(r.status)))]
  {
    assert Usable(l.id, d) == Some(r);
  }

  /** So a county that CAL FIRE's table does not list can be told that burning is
      allowed: an empty table, a permissive answer stored earlier, one green line. */
  lemma AnUnlistedCountyCanBeAllowed(place: string, l: Line, now: int)
    requires l == Line("l", "1", true, [place])
    ensures var d := Desk(map[ToLower(l.id) := Reading("green", Some(now))], now, 0);
      EventFor(place, Some(map[]), [l], d, map[place := PermitRequired]).permission == Allowed
  {
    var r := Reading("green", Some(now));
    GreenIsYes();
    OneLineForCounty(l, place);
    OneFreshReading(l, r, Desk(map[ToLower(l.id) := r], now, 0));
    OneYes();
  }

  // ------------------------------------------------------------------ runs of polls

  /** CAL FIRE's answer for a county in a poll, or unknown if the poll published nothing. */
  function HeardIn(c: Config, r: Round, place: string): Calfire {
    if Fails(c, r) then CalfireUnknown else FetchedFor(r.rows, place)
  }

  /** What the store holds of each county after a poll. */
  function AfterPoll(c: Config, r: Round, stored: map<string, Calfire>): map<string, Calfire> {
    if Fails(c, r) then stored
    else stored + map p | p in c.counties :: p := EventFor(p, r.rows, c.lines, DeskOf(c, r), stored).calfire
  }

  function AfterRun(c: Config, rounds: seq<Round>, stored: map<string, Calfire>): map<string, Calfire> {
    if rounds == [] then stored else AfterPoll(c, rounds[|rounds| - 1], AfterRun(c, rounds[..|rounds| - 1], stored))
  }

  lemma OnePollStores(c: Config, r: Round, stored: map<string, Calfire>, place: string)
    requires place in c.counties
    ensures StoredFor(AfterPoll(c, r, stored), place) == CarriedForward(HeardIn(c, r, place), StoredFor(stored, place))
  {
  }

  /** The stored answer is the last one CAL FIRE gave a poll; outages, unlisted
      counties and failed polls in between change nothing. */
  lemma {:induction false} LastKnownIsKept(c: Config, rounds: seq<Round>, stored: map<string, Calfire>, place: string, k: nat)
    requires place in c.counties && k < |rounds| && HeardIn(c, rounds[k], place) != CalfireUnknown
    requires forall i :: k < i < |rounds| ==> HeardIn(c, rounds[i], place) == CalfireUnknown
    ensures StoredFor(AfterRun(c, rounds, stored), place) == HeardIn(c, rounds[k], place)
  {
    var front, last := rounds[..|rounds| - 1], rounds[|rounds| - 1];
    OnePollStores(c, last, AfterRun(c, front, stored), place);
    if k < |rounds| - 1 {
      LastKnownIsKept(c, front, stored, place, k);
    }
  }

  lemma {:induction false} SuspensionIsKept(c: Config, rounds: seq<Round>, stored: map<string, Calfire>, place: string)
    requires place in c.counties && StoredFor(stored, place) == Suspended
    requires forall i :: 0 <= i < |rounds| ==> HeardIn(c, rounds[i], place) in {CalfireUnknown, Suspended}
    ensures StoredFor(AfterRun(c, rounds, stored), place) == Suspended
  {
    if rounds != [] {
      SuspensionIsKept(c, rounds[..|rounds| - 1], stored, place);
      OnePollStores(c, rounds[|rounds| - 1], AfterRun(c, rounds[..|rounds| - 1], stored), place);
    }
  }

  /** Once suspended, every later poll that publishes says prohibited, until CAL FIRE itself says something else. */
  lemma SuspensionOutlivesOutages(c: Config, rounds: seq<Round>, stored: map<string, Calfire>, place: string, next: Round)
    requires place in c.counties && StoredFor(stored, place) == Suspended && !Fails(c, next)
    requires forall r :: r in rounds + [next] ==> HeardIn(c, r, place) in {CalfireUnknown, Suspended}
    ensures EventFor(place, next.rows, c.lines, DeskOf(c, next), AfterRun(c, rounds, stored)).permission == Prohibited
  {
    forall i | 0 <= i < |rounds| ensures HeardIn(c, rounds[i], place) in {CalfireUnknown, Suspended} {
      assert rounds[i] in rounds + [next];
    }
    SuspensionIsKept(c, rounds, stored, place);
    assert next in rounds + [next];
  }
}
