/** What a county is told about burning (internal/ingest/burn_status.go), from the
  facts of a poll: the staged words and times, the lines, and CAL FIRE's table. */
module BurnFacts {
  import opened Wrappers
  import opened Text
  import opened BurnStatus

  // ----------------------------------------------------------------- single facts

  /** The staged reading of the line is recent enough: within 36 hours, or the
      configured limit; a limit below zero accepts any age. */
  predicate InTime(r: Reading, d: Desk) {
    var limit := if d.staleAfter == 0 then 129600 else d.staleAfter;
    limit < 0 || (r.observedAt.Some? && d.now <= r.observedAt.value + limit)
  }

  /** A reading of the line, staged under its id in lower case, is in time. */
  predicate HasReading(l: Line, d: Desk) {
    ToLower(l.id) in d.staged && InTime(d.staged[ToLower(l.id)], d)
  }

  /** The line's word of the day, without regard to case or blanks around it. */
  predicate ReadsWord(l: Line, d: Desk, word: string) {
    HasReading(l, d) && ToLower(TrimSpace(d.staged[ToLower(l.id)].status)) == word
  }

  /** A line that is called: switched on, with a number and an id. */
  predicate Called(l: Line) {
    l.enabled && l.phone != "" && l.id != ""
  }

  predicate Serves(l: Line, place: string) {
    exists i :: 0 <= i < |l.counties| && ToLower(l.counties[i]) == ToLower(place)
  }

  /** Some line of the county reads the word. */
  predicate SomeLineReads(lines: seq<Line>, place: string, d: Desk, word: string) {
    exists l :: l in lines && Serves(l, place) && ReadsWord(l, d, word)
  }

  predicate EveryCalledLineReads(lines: seq<Line>, place: string, d: Desk, word: string) {
    forall l :: l in lines && Serves(l, place) && Called(l) ==> ReadsWord(l, d, word)
  }

  /** What CAL FIRE says, in its table now or else as last stored. */
  function SaysCalfire(rows: Option<map<string, Calfire>>, stored: map<string, Calfire>, place: string): Calfire {
    if rows.Some? && CountyKey(place) in rows.value && rows.value[CountyKey(place)] != CalfireUnknown then rows.value[CountyKey(place)]
    else if place in stored then stored[place]
    else CalfireUnknown
  }

  lemma DayReads(status: string, red: string, orange: string, green: string)
    requires red == "red" && orange == "orange" && green == "green"
    ensures var s := ToLower(TrimSpace(status));
      && (DayOf(status) == No <==> s == red) && (DayOf(status) == Marginal <==> s == orange) && (DayOf(status) == Yes <==> s == green)
  {
    assert red[0] != orange[0] && red[0] != green[0] && orange[0] != green[0];
  }

  lemma UsableReads(l: Line, d: Desk)
    ensures Usable(l.id, d).Some? <==> HasReading(l, d)
    ensures HasReading(l, d) ==> Usable(l.id, d) == Some(d.staged[ToLower(l.id)])
  {
  }

  lemma AnswerReads(l: Line, d: Desk, red: string, orange: string, green: string)
    requires red == "red" && orange == "orange" && green == "green"
    ensures AnswerOf(l, d).dialed <==> Called(l)
    ensures AnswerOf(l, d).day == Some(No) <==> ReadsWord(l, d, red)
    ensures AnswerOf(l, d).day == Some(Marginal) <==> ReadsWord(l, d, orange)
    ensures AnswerOf(l, d).day == Some(Yes) <==> ReadsWord(l, d, green)
  {
    UsableReads(l, d);
    if HasReading(l, d) {
      DayReads(d.staged[ToLower(l.id)].status, red, orange, green);
    }
  }

  lemma SaidBy(lines: seq<Line>, place: string, mine: seq<Line>, answers: seq<Answer>, day: BurnDay, saysSo: Line -> bool)
    requires |answers| == |mine| && forall i :: 0 <= i < |mine| ==> (answers[i].day == Some(day) <==> saysSo(mine[i]))
    requires forall l :: l in mine <==> l in lines && Serves(l, place)
    ensures Says(answers, day) <==> exists l :: l in lines && Serves(l, place) && saysSo(l)
  {
    if Says(answers, day) {
      var i :| 0 <= i < |answers| && answers[i].day == Some(day);
      assert mine[i] in mine && saysSo(mine[i]);
    }
    if l :| l in lines && Serves(l, place) && saysSo(l) {
      assert l in mine;
      var i :| 0 <= i < |mine| && mine[i] == l;
      assert answers[i].day == Some(day);
    }
  }

  lemma ServedBy(lines: seq<Line>, place: string)
    ensures forall l :: l in LinesForCounty(lines, place) <==> l in lines && Serves(l, place)
  {
    forall l ensures SpeaksFor(l, place) <==> Serves(l, place) {
    }
  }

  lemma SaidOfLines(place: string, lines: seq<Line>, d: Desk, day: BurnDay, word: string)
    requires forall l :: AnswerOf(l, d).day == Some(day) <==> ReadsWord(l, d, word)
    ensures Says(Answers(LinesForCounty(lines, place), d), day) <==> SomeLineReads(lines, place, d, word)
  {
    ServedBy(lines, place);
    SaidBy(lines, place, LinesForCounty(lines, place), Answers(LinesForCounty(lines, place), d), day, l => ReadsWord(l, d, word));
  }

  lemma WordsSaid(place: string, lines: seq<Line>, d: Desk, red: string, orange: string, green: string)
    requires red == "red" && orange == "orange" && green == "green"
    ensures var answers := Answers(LinesForCounty(lines, place), d);
      && (Says(answers, No) <==> SomeLineReads(lines, place, d, red))
      && (Says(answers, Marginal) <==> SomeLineReads(lines, place, d, orange))
      && (Says(answers, Yes) <==> SomeLineReads(lines, place, d, green))
  {
    forall l ensures AnswerOf(l, d).day == Some(No) <==> ReadsWord(l, d, red) { AnswerReads(l, d, red, orange, green); }
    forall l ensures AnswerOf(l, d).day == Some(Marginal) <==> ReadsWord(l, d, orange) { AnswerReads(l, d, red, orange, green); }
    forall l ensures AnswerOf(l, d).day == Some(Yes) <==> ReadsWord(l, d, green) { AnswerReads(l, d, red, orange, green); }
    SaidOfLines(place, lines, d, No, red);
    SaidOfLines(place, lines, d, Marginal, orange);
    SaidOfLines(place, lines, d, Yes, green);
  }

  // --------------------------------------------------------------- a county's day

  /** Red if any line of the county reads red; else orange if any reads orange;
      green only if some line reads green and every line that is called does. */
  lemma DayOnTheFacts(place: string, rows: Option<map<string, Calfire>>, lines: seq<Line>, d: Desk, stored: map<string, Calfire>)
    ensures var day := EventFor(place, rows, lines, d, stored).day;
      var red, orange, green := SomeLineReads(lines, place, d, "red"), SomeLineReads(lines, place, d, "orange"), SomeLineReads(lines, place, d, "green");
      && (day == No <==> red)
      && (day == Marginal <==> !red && orange)
      && (day == Yes <==> !red && !orange && green && EveryCalledLineReads(lines, place, d, "green"))
  {
    WordsSaid(place, lines, d, "red", "orange", "green");
    CalledReadGreen(place, lines, d, "red", "orange", "green");
    MergedYesIff(Answers(LinesForCounty(lines, place), d));
  }

  predicate DialedSayYes(answers: seq<Answer>) {
    forall i :: 0 <= i < |answers| && answers[i].dialed ==> answers[i].day == Some(Yes)
  }

  lemma CalledReadGreen(place: string, lines: seq<Line>, d: Desk, red: string, orange: string, green: string)
    requires red == "red" && orange == "orange" && green == "green"
    ensures DialedSayYes(Answers(LinesForCounty(lines, place), d)) <==> EveryCalledLineReads(lines, place, d, green)
  {
    var mine := LinesForCounty(lines, place);
    var answers := Answers(mine, d);
    if DialedSayYes(answers) {
      forall l | l in lines && Serves(l, place) && Called(l) ensures ReadsWord(l, d, green) {
        assert SpeaksFor(l, place) && l in mine;
        var i :| 0 <= i < |mine| && mine[i] == l;
        AnswerReads(l, d, red, orange, green);
        assert answers[i] == AnswerOf(l, d) && answers[i].dialed;
      }
    }
    if EveryCalledLineReads(lines, place, d, green) {
      forall i | 0 <= i < |answers| && answers[i].dialed ensures answers[i].day == Some(Yes) {
        assert mine[i] in mine && SpeaksFor(mine[i], place) && Serves(mine[i], place);
        AnswerReads(mine[i], d, red, orange, green);
      }
    }
  }

  // ------------------------------------------------------------------ a permission

  /** Prohibited exactly if a line of the county reads red, or CAL FIRE has
      suspended burning; allowed exactly if CAL FIRE permits it, some line reads
      green, every line that is called does, and none reads red or orange. */
  lemma PermissionOnTheFacts(place: string, rows: Option<map<string, Calfire>>, lines: seq<Line>, d: Desk, stored: map<string, Calfire>)
    ensures var told, calfire := EventFor(place, rows, lines, d, stored).permission, SaysCalfire(rows, stored, place);
      && (told == Prohibited <==> SomeLineReads(lines, place, d, "red") || calfire == Suspended)
      && (told == Allowed <==>
            && (calfire == PermitRequired || calfire == NoPermitRequired)
            && SomeLineReads(lines, place, d, "green") && EveryCalledLineReads(lines, place, d, "green")
            && !SomeLineReads(lines, place, d, "red") && !SomeLineReads(lines, place, d, "orange"))
  {
    DayOnTheFacts(place, rows, lines, d, stored);
  }

  /** A county that is red today is told not to burn. */
  lemma RedProhibits(place: string, rows: Option<map<string, Calfire>>, lines: seq<Line>, d: Desk, stored: map<string, Calfire>, l: Line)
    requires l in lines && Serves(l, place) && ReadsWord(l, d, "red")
    ensures EventFor(place, rows, lines, d, stored).permission == Prohibited
  {
    PermissionOnTheFacts(place, rows, lines, d, stored);
  }

  /** The event's CAL FIRE answer, and the key under which the table lists a county. */
  lemma CalfireOnTheFacts(place: string, rows: Option<map<string, Calfire>>, lines: seq<Line>, d: Desk, stored: map<string, Calfire>, name: string)
    ensures EventFor(place, rows, lines, d, stored).place == place
    ensures EventFor(place, rows, lines, d, stored).calfire == SaysCalfire(rows, stored, place)
    ensures ToLower(place) == name + "-county" ==> CountyKey(place) == name
    ensures (forall n: string :: ToLower(place) != n + "-county") ==> CountyKey(place) == ToLower(place)
  {
    var s := ToLower(place);
    if s == name + "-county" {
      assert s[..|name|] == name && s[|s| - 7..] == "-county";
    }
    if |s| >= 7 && s[|s| - 7..] == "-county" {
      assert s == s[..|s| - 7] + "-county";
    }
  }

  // ------------------------------------------------------------------- a poll

  /** When a poll publishes nothing, and when it marks the lines as degraded. */
  lemma FailsOnTheFacts(c: Config, r: Round)
    ensures Fails(c, r) <==>
      || c.counties == [] || r.staging.None?
      || (r.rows.None? && forall l :: l in c.lines && Called(l) ==> !HasReading(l, DeskOf(c, r)))
      || exists p :: p in c.counties && !r.places(p)
    ensures r.staging.Some? ==>
      (SomeSilent(c.lines, DeskOf(c, r)) <==> exists l :: l in c.lines && Called(l) && !HasReading(l, DeskOf(c, r)))
  {
    if r.staging.Some? {
      var d := DeskOf(c, r);
      forall l ensures Silent(l, d) <==> Called(l) && !HasReading(l, d) {
      }
    }
  }
}
