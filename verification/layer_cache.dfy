/** The in-memory cache (internal/cache/cache.go). Times are readings of one clock;
  data goes through the codec unchanged. */
module CacheStore {
  import opened Wrappers

  type Time = int

  datatype Entry<+T> = Entry(data: seq<T>, createdAt: Time, expiresAt: Time, interval: Time, source: string)

  function NewEntry<T>(data: seq<T>, interval: Time, source: string, now: Time): Entry<T> {
    Entry(data, now, now + interval, interval, source)
  }

  predicate VeryStale<T>(e: Entry<T>, now: Time) {
    now > e.createdAt + 2 * e.interval
  }

  /** What CleanupStale leaves. */
  function Kept<T>(m: map<string, Entry<T>>, now: Time): (r: map<string, Entry<T>>) {
    map k | k in m && !VeryStale(m[k], now) :: m[k]
  }

  class Cache<T> {
    var entries: map<string, Entry<T>>

    constructor ()
      ensures entries == map[]
    {
      entries := map[];
    }

    method Set(key: string, data: seq<T>, refreshInterval: Time, source: string, now: Time)
      modifies this
      ensures entries == old(entries)[key := NewEntry(data, refreshInterval, source, now)]
    {
      var entry := Entry(data, now, now + refreshInterval, refreshInterval, source);
      entries := entries[key := entry];
    }

    method Get(key: string, now: Time) returns (data: Option<seq<T>>)
      ensures data.Some? <==> key in entries && now <= entries[key].expiresAt
      ensures data.Some? ==> data.value == entries[key].data
    {
      if key !in entries {
        return None;
      }
      var stale := IsStale(key, now);
      if stale {
        return None;
      }
      return Some(entries[key].data);
    }

    method IsStale(key: string, now: Time) returns (stale: bool)
      ensures stale <==> key !in entries || now > entries[key].expiresAt
    {
      if key !in entries {
        return true;
      }
      return now > entries[key].expiresAt;
    }

    method IsVeryStale(key: string, now: Time) returns (stale: bool)
      ensures stale <==> key !in entries || VeryStale(entries[key], now)
    {
      if key !in entries {
        return true;
      }
      return now > entries[key].createdAt + entries[key].interval * 2;
    }

    method GetWithMetadata(key: string) returns (entry: Option<Entry<T>>)
      ensures entry == if key in entries then Some(entries[key]) else None
    {
      if key !in entries {
        return None;
      }
      return Some(entries[key]);
    }

    method Delete(key: string)
      modifies this
      ensures entries == old(entries) - {key}
    {
      entries := entries - {key};
    }

    method CleanupStale(now: Time) returns (removed: nat)
      modifies this
      ensures entries == Kept(old(entries), now)
      ensures removed == |old(entries)| - |entries|
    {
      removed := 0;
      var before := entries;
      var keys := before.Keys;
      while keys != {}
        invariant keys <= before.Keys
        invariant entries.Keys <= before.Keys && forall k :: k in entries ==> entries[k] == before[k]
        invariant forall k :: k in keys ==> k in entries
        invariant forall k :: k in before.Keys - keys ==> (k in entries <==> !VeryStale(before[k], now))
        invariant removed == |before| - |entries|
        decreases keys
      {
        var key :| key in keys;
        if now > before[key].createdAt + before[key].interval * 2 {
          RemoveOne(entries, key);
          entries := entries - {key};
          removed := removed + 1;
        }
        keys := keys - {key};
      }
      assert entries == Kept(before, now);
    }
  }

  lemma RemoveOne<T>(m: map<string, Entry<T>>, key: string)
    requires key in m
    ensures |m - {key}| == |m| - 1
  {
    assert (m - {key}).Keys == m.Keys - {key};
    assert |m.Keys - {key}| == |m.Keys| - 1;
    assert |(m - {key}).Keys| == |m - {key}| && |m.Keys| == |m|;
  }

  /** An entry that still answers Get is never cleaned up, and neither is one in
      the interval after that, when it serves as the fallback for a failed fetch. */
  lemma CleanupKeepsTheFallback<T>(m: map<string, Entry<T>>, key: string, now: Time)
    requires key in m && m[key].interval >= 0 && m[key].expiresAt == m[key].createdAt + m[key].interval
    ensures now <= m[key].expiresAt + m[key].interval <==> key in Kept(m, now)
    ensures key in Kept(m, now) ==> Kept(m, now)[key] == m[key]
  {
  }
}

/** buildLayer over whole runs (internal/hazards/service.go): cached answers are
  refined to the history of builds they came from. */
module LayerCache {
  import opened Wrappers
  import opened CacheStore

  datatype Layer = Earthquake | Wildfire | ChainControl | FireWeather | MessageSign | RoadSegment | Evacuation

  function Name(l: Layer): (s: string)
    ensures ':' !in s
  {
    match l
    case Earthquake => "earthquake"
    case Wildfire => "wildfire"
    case ChainControl => "chain_control"
    case FireWeather => "fire_weather"
    case MessageSign => "message_sign"
    case RoadSegment => "road_segment"
    case Evacuation => "evacuation"
  }

  /** layerTTL, in seconds; 0 means the layer is not cached here. */
  function Ttl(l: Layer): (t: Time)
    ensures t >= 0
  {
    match l
    case Evacuation => 120
    case RoadSegment => 0
    case _ => 300
  }

  predicate CacheEmptyResults(l: Layer) {
    l != Evacuation
  }

  function Key(area: string, l: Layer): string {
    "hazard:" + area + ":" + Name(l)
  }

  function CleanSource(l: Layer): string {
    "hazard:" + Name(l)
  }

  function PartialSource(l: Layer): string {
    "hazard:" + Name(l) + ":partial"
  }

  // --------------------------------------------------------------- one build

  /** What the layer's builder produced. */
  datatype Built<+F> = Clean(features: seq<F>) | Partial(features: seq<F>) | Failed

  datatype Status = OK | STALE | UNAVAILABLE

  /** `lastSourceUpdate` is None for Go's zero time. */
  datatype Served<+F> = Served(features: seq<F>, status: Status, lastSourceUpdate: Option<Time>)

  type Store<F> = map<string, Entry<F>>

  /** The first half of buildLayer: a fresh entry answers without building. */
  function Lookup<F>(m: Store<F>, area: string, l: Layer, now: Time): Option<Served<F>> {
    var key := Key(area, l);
    if Ttl(l) > 0 && key in m && now < m[key].expiresAt then
      if m[key].source == PartialSource(l) then Some(Served(m[key].data, STALE, Some(m[key].createdAt)))
      else Some(Served(m[key].data, OK, None))
    else None
  }

  /** Whether a build is put in the cache. */
  predicate Cacheable<F>(l: Layer, b: Built<F>) {
    Ttl(l) > 0
    && match b
       case Clean(fs) => fs != [] || CacheEmptyResults(l)
       case Partial(fs) => fs != []
       case Failed => false
  }

  /** The second half: the answer to a build finished at `builtAt`. */
  function Answer<F>(m: Store<F>, area: string, l: Layer, b: Built<F>, builtAt: Time): Served<F> {
    match b
    case Clean(fs) => Served(fs, OK, None)
    case Partial(fs) => Served(fs, STALE, Some(builtAt))
    case Failed =>
      var key := Key(area, l);
      if Ttl(l) > 0 && key in m && m[key].data != [] then Served(m[key].data, STALE, Some(m[key].createdAt))
      else Served([], UNAVAILABLE, None)
  }

  /** And what it leaves in the cache, written at `storedAt`. */
  function Stored<F>(m: Store<F>, area: string, l: Layer, b: Built<F>, storedAt: Time): Store<F> {
    if !Cacheable(l, b) then m
    else m[Key(area, l) := NewEntry(b.features, Ttl(l), if b.Clean? then CleanSource(l) else PartialSource(l), storedAt)]
  }

  /** buildLayer. The clock is read before the build, after it, and when storing. */
  method BuildLayer<F>(cache: Cache<F>, area: string, l: Layer, build: () -> Built<F>, checkedAt: Time, builtAt: Time, storedAt: Time)
    returns (r: Served<F>)
    requires checkedAt <= builtAt <= storedAt
    modifies cache
    ensures var hit := Lookup(old(cache.entries), area, l, checkedAt);
      && r == (if hit.Some? then hit.value else Answer(old(cache.entries), area, l, build(), builtAt))
      && cache.entries == (if hit.Some? then old(cache.entries) else Stored(old(cache.entries), area, l, build(), storedAt))
  {
    var ttl, key := Ttl(l), Key(area, l);
    if ttl > 0 {
      var entry := cache.GetWithMetadata(key);
      if entry.Some? && checkedAt < entry.value.expiresAt {
        if entry.value.source == PartialSource(l) {
          return Served(entry.value.data, STALE, Some(entry.value.createdAt));
        }
        return Served(entry.value.data, OK, None);
      }
    }
    match build()
    case Partial(features) =>
      if ttl > 0 && |features| > 0 {
        cache.Set(key, features, ttl, PartialSource(l), storedAt);
      }
      return Served(features, STALE, Some(builtAt));
    case Failed =>
      if ttl > 0 {
        var stale := cache.GetWithMetadata(key);
        if stale.Some? && |stale.value.data| > 0 {
          return Served(stale.value.data, STALE, Some(stale.value.createdAt));
        }
      }
      return Served([], UNAVAILABLE, None);
    case Clean(features) =>
      if ttl > 0 && (|features| > 0 || CacheEmptyResults(l)) {
        cache.Set(key, features, ttl, CleanSource(l), storedAt);
      }
      return Served(features, OK, None);
  }

  // ----------------------------------------------------------------------- keys

  lemma NamesDiffer(l: Layer, l': Layer)
    requires Name(l) == Name(l')
    ensures l == l'
  {
    var n := Name(l);
    assert |n| == |Name(l')| && n[0] == Name(l')[0] && n[1] == Name(l')[1];
  }

  lemma ColonBefore(k: string, n: string, i: nat)
    requires |n| <= |k| && k[|k| - |n|..] == n && ':' !in n && i < |k| && k[i] == ':'
    ensures i < |k| - |n|
  {
    assert forall j :: |k| - |n| <= j < |k| ==> k[j] == n[j - (|k| - |n|)];
  }

  /** No two areas and layers share a cache entry, whatever the area is called. */
  lemma KeysDiffer(area: string, l: Layer, area': string, l': Layer)
    requires Key(area, l) == Key(area', l')
    ensures area == area' && l == l'
  {
    var k, n, n' := Key(area, l), Name(l), Name(l');
    assert k[|k| - |n|..] == n && k[|k| - |n'|..] == n';
    ColonBefore(k, n, |k| - |n'| - 1);
    ColonBefore(k, n', |k| - |n| - 1);
    NamesDiffer(l, l');
    assert area == k[7..|k| - |n| - 1] && area' == k[7..|k| - |n'| - 1];
  }

  lemma SourcesDiffer(l: Layer)
    ensures CleanSource(l) != PartialSource(l)
  {
    assert |CleanSource(l)| < |PartialSource(l)|;
  }

  // ----------------------------------------------------------------------- runs

  /** What happens to the cache: the two halves of buildLayer calls, interleaved
      in any way, and periodic cleanups. */
  datatype Event<+F> =
    | Look(area: string, l: Layer, at: Time)
    | Finish(area: string, l: Layer, built: Built<F>, builtAt: Time, at: Time)
    | Sweep(at: Time)

  function Apply<F>(m: Store<F>, e: Event<F>): Store<F> {
    match e
    case Look(_, _, _) => m
    case Finish(area, l, b, _, at) => Stored(m, area, l, b, at)
    case Sweep(at) => Kept(m, at)
  }

  /** The cache after a run from empty. */
  function Run<F>(events: seq<Event<F>>): Store<F> {
    if events == [] then map[] else Apply(Run(events[..|events| - 1]), events[|events| - 1])
  }

  datatype Write<+F> = Write(features: seq<F>, partial: bool, at: Time)

  predicate Writes<F>(e: Event<F>, area: string, l: Layer) {
    e.Finish? && e.area == area && e.l == l && Cacheable(l, e.built)
  }

  function WriteOf<F>(e: Event<F>): Write<F>
    requires e.Finish? && Cacheable(e.l, e.built)
  {
    Write(e.built.features, e.built.Partial?, e.at)
  }

  /** The latest build of a layer that was worth caching. */
  function Latest<F>(events: seq<Event<F>>, area: string, l: Layer): Option<Write<F>> {
    if events == [] then None
    else
      var e := events[|events| - 1];
      if Writes(e, area, l) then Some(WriteOf(e)) else Latest(events[..|events| - 1], area, l)
  }

  /** The same, unless a cleanup has found it older than twice its lifetime. */
  function Current<F>(events: seq<Event<F>>, area: string, l: Layer): Option<Write<F>> {
    if events == [] then None
    else
      var e, w := events[|events| - 1], Current(events[..|events| - 1], area, l);
      if Writes(e, area, l) then Some(WriteOf(e))
      else if e.Sweep? && w.Some? && e.at > w.value.at + 2 * Ttl(l) then None
      else w
  }

  function EntryOf<F>(w: Write<F>, l: Layer): Entry<F> {
    NewEntry(w.features, Ttl(l), if w.partial then PartialSource(l) else CleanSource(l), w.at)
  }

  ghost predicate Holds<F>(m: Store<F>, area: string, l: Layer, w: Option<Write<F>>) {
    match w
    case None => Key(area, l) !in m
    case Some(w) => Key(area, l) in m && m[Key(area, l)] == EntryOf(w, l)
  }

  /** The cache holds exactly the current build of every layer. */
  lemma {:induction false} CacheHoldsTheCurrentBuild<F>(events: seq<Event<F>>, area: string, l: Layer)
    ensures Holds(Run(events), area, l, Current(events, area, l))
  {
    if events != [] {
      var before, e := events[..|events| - 1], events[|events| - 1];
      CacheHoldsTheCurrentBuild(before, area, l);
      if e.Finish? && Key(e.area, e.l) == Key(area, l) {
        KeysDiffer(e.area, e.l, area, l);
      }
    }
  }

  /** What the history says about a request, without any cache. */
  function FromHistory<F>(w: Option<Write<F>>, l: Layer, now: Time): Option<Served<F>> {
    if w.Some? && now < w.value.at + Ttl(l) then
      Some(if w.value.partial then Served(w.value.features, STALE, Some(w.value.at)) else Served(w.value.features, OK, None))
    else None
  }

  function Fallback<F>(w: Option<Write<F>>): Served<F> {
    if w.Some? && w.value.features != [] then Served(w.value.features, STALE, Some(w.value.at)) else Served([], UNAVAILABLE, None)
  }

  lemma {:induction false} WritesAreCacheable<F>(events: seq<Event<F>>, area: string, l: Layer)
    ensures Current(events, area, l).Some? ==> Ttl(l) > 0
    ensures Latest(events, area, l).Some? ==> Ttl(l) > 0
  {
    if events != [] {
      WritesAreCacheable(events[..|events| - 1], area, l);
    }
  }

  /** Cached answers are those of the history: a hit is the current build while
      it lasts, and a failed build falls back to the current one if it had features. */
  lemma AnswersComeFromTheHistory<F>(events: seq<Event<F>>, area: string, l: Layer, now: Time)
    ensures Lookup(Run(events), area, l, now) == FromHistory(Current(events, area, l), l, now)
    ensures Answer(Run(events), area, l, Failed, now) == Fallback(Current(events, area, l))
  {
    CacheHoldsTheCurrentBuild(events, area, l);
    WritesAreCacheable(events, area, l);
    SourcesDiffer(l);
  }

  ghost predicate UpTo<F>(events: seq<Event<F>>, now: Time) {
    forall i :: 0 <= i < |events| ==> events[i].at <= now
  }

  /** Cleanups never cost a hit. */
  lemma {:induction false} CleanupIsInvisibleToHits<F>(events: seq<Event<F>>, area: string, l: Layer, now: Time)
    requires UpTo(events, now)
    ensures FromHistory(Current(events, area, l), l, now) == FromHistory(Latest(events, area, l), l, now)
    ensures Current(events, area, l).Some? ==> Current(events, area, l) == Latest(events, area, l)
  {
    if events != [] {
      var before, e := events[..|events| - 1], events[|events| - 1];
      assert UpTo(before, now);
      CleanupIsInvisibleToHits(before, area, l, now);
      assert e.at <= now;
    }
  }

  lemma {:induction false} LatestIsABuild<F>(events: seq<Event<F>>, area: string, l: Layer) returns (j: nat)
    requires Latest(events, area, l).Some?
    ensures j < |events| && Writes(events[j], area, l) && Latest(events, area, l) == Some(WriteOf(events[j]))
    ensures forall k :: j < k < |events| ==> !Writes(events[k], area, l)
  {
    if Writes(events[|events| - 1], area, l) {
      j := |events| - 1;
    } else {
      var before := events[..|events| - 1];
      j := LatestIsABuild(before, area, l);
      assert forall k :: j < k < |before| ==> events[k] == before[k];
    }
  }

  // ------------------------------------------------- an error never becomes a zero

  /** The answer given at step i of a run, if that step gives one. */
  function AnswerAt<F>(events: seq<Event<F>>, i: nat): Option<Served<F>>
    requires i < |events|
  {
    var m, e := Run(events[..i]), events[i];
    match e
    case Look(area, l, at) => Lookup(m, area, l, at)
    case Finish(area, l, b, builtAt, _) => Some(Answer(m, area, l, b, builtAt))
    case Sweep(_) => None
  }

  predicate CleanEmpty<F>(e: Event<F>, area: string, l: Layer) {
    e.Finish? && e.area == area && e.l == l && e.built == Clean([])
  }

  /** "OK, nothing there" is said only of a clean build that returned nothing:
      this one, or the last one worth caching, within its lifetime, and never so
      for evacuations. */
  lemma NothingThereIsNeverMadeUp<F>(events: seq<Event<F>>, i: nat) returns (j: nat)
    requires i < |events| && UpTo(events[..i], events[i].at)
    requires var a := AnswerAt(events, i); a.Some? && a.value.status == OK && a.value.features == []
    ensures j <= i && CleanEmpty(events[j], events[i].area, events[i].l)
    ensures j < i ==> events[i].Look? && events[i].at < events[j].at + Ttl(events[i].l) && events[i].l != Evacuation
    ensures forall k :: j < k < i ==> !Writes(events[k], events[i].area, events[i].l)
  {
    var e := events[i];
    if e.Finish? {
      j := i;
    } else {
      var before := events[..i];
      AnswersComeFromTheHistory(before, e.area, e.l, e.at);
      CleanupIsInvisibleToHits(before, e.area, e.l, e.at);
      j := LatestIsABuild(before, e.area, e.l);
      assert forall k :: j < k < i ==> events[k] == before[k];
    }
  }

  /** A failed build is never answered with OK, nor with a cached nothing; what it
      serves is the latest cached build, dated. */
  lemma FailureNeverClears<F>(events: seq<Event<F>>, i: nat)
    requires i < |events| && UpTo(events[..i], events[i].at) && events[i].Finish? && events[i].built == Failed
    ensures var a, w := AnswerAt(events, i).value, Latest(events[..i], events[i].area, events[i].l);
      || (a.status == STALE && a.features != [] && w.Some? && a == Served(w.value.features, STALE, Some(w.value.at)))
      || a == Served([], UNAVAILABLE, None)
  {
    var e := events[i];
    AnswersComeFromTheHistory(events[..i], e.area, e.l, e.builtAt);
    CleanupIsInvisibleToHits(events[..i], e.area, e.l, e.at);
  }

  /** A cached partial build stays STALE, dated, until another build replaces it or it expires. */
  lemma PartialStaysStale<F>(events: seq<Event<F>>, i: nat)
    requires i < |events| && UpTo(events[..i], events[i].at) && events[i].Look?
    ensures var w := Latest(events[..i], events[i].area, events[i].l);
      w.Some? && w.value.partial ==>
        AnswerAt(events, i) == if events[i].at < w.value.at + Ttl(events[i].l) then Some(Served(w.value.features, STALE, Some(w.value.at))) else None
  {
    var e := events[i];
    AnswersComeFromTheHistory(events[..i], e.area, e.l, e.at);
    CleanupIsInvisibleToHits(events[..i], e.area, e.l, e.at);
  }

  /** UNAVAILABLE always comes with nothing to draw, and only from a failed build. */
  lemma UnavailableIsEmpty<F>(events: seq<Event<F>>, i: nat)
    requires i < |events|
    ensures var a := AnswerAt(events, i);
      a.Some? && a.value.status == UNAVAILABLE ==>
        a.value.features == [] && a.value.lastSourceUpdate == None && events[i].Finish? && events[i].built == Failed
  {
  }
}
