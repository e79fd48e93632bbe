/** What a Cal OES poll (internal/ingest/evacuation.go) makes of the words in a
  row's status (internal/hazards/severity.go): the level of every event, told from
  the text. */
module EvacuationLevels {
  import opened Wrappers
  import opened Text
  import opened StableSort
  import opened EvacuationPoll
  import opened EvacuationZones
  import Ids = EvacuationIds

  // ------------------------------------------------------------- words of a status

  /** A word is read wherever it stands in the text. */
  lemma AWordIsAnyPart(s: string, word: string)
    ensures WordsIn(s)(word) <==> exists before, after :: s == before + word + after
  {
    if WordsIn(s)(word) {
      var i :| 0 <= i <= |s| && word <= s[i..];
      assert s == s[..i] + word + s[i + |word|..];
    }
    if before, after :| s == before + word + after {
      assert s[|before|..] == word + after;
    }
  }

  /** The words that end an evacuation. */
  predicate SaysOver(says: Words) {
    says("lifted") || says("normal") || says("all clear") || says("all-clear") || says("repopulat") || says("no evac")
  }

  predicate SaysOrder(says: Words) {
    says("order") || says("mandatory")
  }

  predicate SaysAdvisory(says: Words) {
    says("advisory") || says("voluntary")
  }

  /** The level told by the strongest word; no known word tells a warning. */
  predicate WordsTell(says: Words, l: Level) {
    && !SaysOver(says)
    && match l
       case Order => SaysOrder(says)
       case ShelterInPlace => !SaysOrder(says) && says("shelter")
       case Warning => !SaysOrder(says) && !says("shelter") && (says("warning") || !SaysAdvisory(says))
       case Advisory => !SaysOrder(says) && !says("shelter") && !says("warning") && SaysAdvisory(says)
  }

  /** The words of a status, without regard to case or blanks around it. */
  function WordsOf(status: string): Words {
    WordsIn(ToLower(TrimSpace(status)))
  }

  predicate Tells(status: string, l: Level) {
    WordsTell(WordsOf(status), l)
  }

  lemma NothingInABlank(s: string)
    requires s == ""
    ensures forall word: string :: word != "" ==> !WordsIn(s)(word)
  {
  }

  lemma SilenceTellsAWarning(says: Words)
    requires forall word: string :: word != "" ==> !says(word)
    ensures !SaysOver(says) && forall l :: WordsTell(says, l) <==> l == Warning
  {
  }

  lemma WordsAreTold(says: Words)
    ensures forall l :: LevelOf(says) == Some(l) <==> WordsTell(says, l)
    ensures LevelOf(says) == None <==> SaysOver(says)
    ensures SaysInactive(says) <==> SaysOver(says)
  {
  }

  /** What the poll gives a status is what its words tell, and a blank tells a warning. */
  lemma LevelsAreTold(status: string)
    ensures forall l :: PolledLevel(status) == Some(l) <==> Tells(status, l)
    ensures PolledLevel(status) == None <==> SaysOver(WordsOf(status))
    ensures TrimSpace(status) == "" ==> PolledLevel(status) == Some(Warning)
  {
    WordsAreTold(WordsOf(status));
    if Folded(status) == "" {
      NothingInABlank(Folded(status));
      SilenceTellsAWarning(WordsOf(status));
    }
  }

  // ------------------------------------------------------------------ every poll

  /** ORDER, then SHELTER_IN_PLACE, WARNING and ADVISORY. */
  predicate AtLeast(a: Level, b: Level) {
    match b
    case Order => a == Order
    case ShelterInPlace => a == Order || a == ShelterInPlace
    case Warning => a != Advisory
    case Advisory => true
  }

  /** The two rows are of one zone: one zone id, or without any the name and county,
      or without those the county and shape. */
  predicate OneZone(a: Row, b: Row) {
    && a.zoneId == b.zoneId
    && (a.zoneId == "" ==> a.county == b.county && a.zoneName == b.zoneName && (a.zoneName == "" ==> a.geometry == b.geometry))
  }

  lemma OneZoneIff(a: Row, b: Row)
    ensures OneZone(a, b) <==> SameZone(a, b)
    ensures OneZone(a, b) <==> KeyOf(a) == KeyOf(b)
  {
  }

  type Telling = (string, Level) -> bool

  /** The row's zone has an event at the level or a stronger one. */
  ghost predicate HasEvent(events: seq<Emitted>, r: Row, l: Level) {
    exists e :: e in events && OneZone(e.row, r) && AtLeast(e.level, l)
  }

  /** Every telling row has an event of its zone at its level or a stronger one,
      and every event has the level its own row tells. */
  ghost predicate AsTold(events: seq<Emitted>, rows: seq<Row>, tells: Telling) {
    && (forall r, l {:trigger HasEvent(events, r, l)} :: r in rows && tells(r.status, l) ==> HasEvent(events, r, l))
    && (forall e :: e in events ==> e.row in rows && tells(e.row.status, e.level))
  }

  lemma FaithfulIsAsTold(events: seq<Emitted>, rows: seq<Row>, level: Classifier, tells: Telling)
    requires forall st, l :: level(st) == Some(l) <==> tells(st, l)
    requires Faithful(events, rows, level)
    ensures AsTold(events, rows, tells)
  {
    var ws := Sources(events);
    forall r, l | r in rows && tells(r.status, l) ensures HasEvent(events, r, l) {
      assert level(r.status) == Some(l);
      assert Covered(ws, Cand(r, l));
      var i :| 0 <= i < |ws| && StandsFor(ws[i], Cand(r, l));
      OneZoneIff(events[i].row, r);
      RankIsAtLeast(events[i].level, l);
      assert events[i] in events;
    }
    forall e | e in events ensures e.row in rows && tells(e.row.status, e.level) {
      var i :| 0 <= i < |events| && events[i] == e;
      assert ws[i] in ws && level(e.row.status) == Some(e.level);
    }
  }

  lemma RankIsAtLeast(a: Level, b: Level)
    ensures Rank(a) >= Rank(b) <==> AtLeast(a, b)
  {
  }

  function Told(): Telling {
    (st, l) => Tells(st, l)
  }

  /** Every row whose status ends nothing has an event of its zone at the level it
      tells or a stronger one, and every event has the level its own row tells. */
  lemma EveryLevelIsTold(prior: seq<Ids.Event>, rows: seq<Row>, digest: Digest)
    ensures AsTold(Polled(prior, rows, digest, PolledLevel), rows, Told())
  {
    forall st, l ensures PolledLevel(st) == Some(l) <==> Told()(st, l) {
      LevelsAreTold(st);
    }
    PollByIsFaithful(prior, rows, digest, PolledLevel);
    FaithfulIsAsTold(Polled(prior, rows, digest, PolledLevel), rows, PolledLevel, Told());
  }

  lemma ToldOrder(events: seq<Emitted>, rows: seq<Row>, tells: Telling, r: Row)
    requires AsTold(events, rows, tells) && r in rows && tells(r.status, Order)
    ensures exists e :: e in events && OneZone(e.row, r) && e.level == Order
  {
    assert HasEvent(events, r, Order);
  }

  lemma PlainOrderTells(status: string, s: string)
    requires s == ToLower(TrimSpace(status)) && Contains(s, "order") && !Contains(s, "lifted") && !Contains(s, "normal")
    requires !Contains(s, "all clear") && !Contains(s, "all-clear") && !Contains(s, "repopulat") && !Contains(s, "no evac")
    ensures Told()(status, Order)
  {
  }

  /** A row that says "order", and nothing that ends it, is an event of its zone at level ORDER. */
  lemma AnOrderIsPolledAsOne(prior: seq<Ids.Event>, rows: seq<Row>, digest: Digest, r: Row)
    requires r in rows
    requires var s := ToLower(TrimSpace(r.status));
      && Contains(s, "order") && !Contains(s, "lifted") && !Contains(s, "normal") && !Contains(s, "all clear")
      && !Contains(s, "all-clear") && !Contains(s, "repopulat") && !Contains(s, "no evac")
    ensures exists e :: e in Polled(prior, rows, digest, PolledLevel) && OneZone(e.row, r) && e.level == Order
  {
    PlainOrderTells(r.status, ToLower(TrimSpace(r.status)));
    EveryLevelIsTold(prior, rows, digest);
    ToldOrder(Polled(prior, rows, digest, PolledLevel), rows, Told(), r);
  }

  lemma ToldStrongest(events: seq<Emitted>, rows: seq<Row>, tells: Telling, e: Emitted, r: Row, l: Level)
    requires AsTold(events, rows, tells) && DistinctZones(Sources(events))
    requires e in events && r in rows && OneZone(e.row, r) && tells(r.status, l)
    ensures AtLeast(e.level, l)
  {
    assert HasEvent(events, r, l);
    var f :| f in events && OneZone(f.row, r) && AtLeast(f.level, l);
    OneZoneIff(e.row, r);
    OneZoneIff(f.row, r);
    var i :| 0 <= i < |events| && events[i] == e;
    var j :| 0 <= j < |events| && events[j] == f;
    assert Sources(events)[i].row == e.row && Sources(events)[j].row == f.row;
  }

  /** Where no zone is split, the event of a zone has the strongest level listed for it. */
  lemma TheStrongestLevelWins(prior: seq<Ids.Event>, rows: seq<Row>, digest: Digest, e: Emitted, r: Row, l: Level)
    requires e in Polled(prior, rows, digest, PolledLevel) && NoZoneSplit(rows, digest, PolledLevel)
    requires r in rows && OneZone(e.row, r) && Tells(r.status, l)
    ensures AtLeast(e.level, l)
  {
    EveryLevelIsTold(prior, rows, digest);
    OneEventPerZoneIff(prior, rows, digest, PolledLevel);
    ToldStrongest(Polled(prior, rows, digest, PolledLevel), rows, Told(), e, r, l);
  }

  // -------------------------------------------------------------------- an example

  lemma NothingElse(low: string)
    requires low == "order"
    ensures !Contains(low, "lifted") && !Contains(low, "normal") && !Contains(low, "all clear") && !Contains(low, "all-clear")
    ensures !Contains(low, "repopulat") && !Contains(low, "no evac") && Contains(low, "order")
  {
    assert low[0..] == low;
  }

  lemma Trimmed(status: string, s: string)
    requires status == [' '] + s && s != "" && !IsSpace(s[0]) && !IsSpace(s[|s| - 1])
    ensures TrimSpace(status) == s
  {
    assert status[1..] == s && status[0] == ' ';
    TrimSame(s);
    assert TrimLeft(s) == s;
  }

  /** The words are read in any case and with blanks around them: " ORDER" is an order. */
  lemma CapitalsAreRead(status: string, s: string)
    requires status == [' '] + s && s == "ORDER"
    ensures PolledLevel(status) == Some(Order)
  {
    Trimmed(status, s);
    var low := ToLower(s);
    assert low == "order";
    NothingElse(low);
  }
}
