/** ValidateEnvOverrides (internal/config/envcheck.go): the variables it reports,
  and that following its suggestion is always a fix. */
module EnvOverrides {
  import opened Wrappers
  import opened Text
  import opened EnvCheck
  import opened EnvNames

  /** An override that sets nothing; `fix` names the variable and key it offers instead. */
  datatype Problem = Problem(name: string, key: string, fix: Option<(string, string)>)

  function KeyName(segs: seq<string>): string {
    Join(segs, ".")
  }

  /** strings.Cut(kv, "="). */
  function NameOf(kv: string): (r: Option<string>)
    ensures r.Some? ==> r.value <= kv && '=' !in r.value
  {
    if kv == "" then None
    else if kv[0] == '=' then Some("")
    else
      var rest := NameOf(kv[1..]);
      if rest.None? then None else Some([kv[0]] + rest.value)
  }

  function CheckKey(cfg: CfgType, name: string, key: string): Option<Problem> {
    var segs := Split(key, '.');
    if !OwnsNamespace(cfg, segs[0]) || Resolve(cfg, segs, false).Some? then None
    else
      var canonical := Resolve(cfg, segs, true);
      Some(Problem(name, key, if canonical.None? then None else Some((EnvName(canonical.value), KeyName(canonical.value)))))
  }

  function Check(cfg: CfgType, kv: string): Option<Problem> {
    var name := NameOf(kv);
    if name.None? || !("PF__" <= name.value) then None
    else CheckKey(cfg, name.value, KeyName(KeySegments(name.value)))
  }

  function Problems(cfg: CfgType, environ: seq<string>): seq<Problem> {
    if environ == [] then []
    else
      var before, p := Problems(cfg, environ[..|environ| - 1]), Check(cfg, environ[|environ| - 1]);
      if p.None? then before else before + [p.value]
  }

  /** The problems in the order of the environment; none means no error. */
  method ValidateEnvOverrides(cfg: CfgType, environ: seq<string>) returns (problems: seq<Problem>)
    ensures problems == Problems(cfg, environ)
  {
    problems := [];
    for i := 0 to |environ|
      invariant problems == Problems(cfg, environ[..i])
    {
      assert environ[..i + 1][..i] == environ[..i];
      var name := NameOf(environ[i]);
      if name.None? || !("PF__" <= name.value) {
        continue;
      }
      var key := EnvToConfigKey(name.value);
      var segs := Split(key, '.');
      if !OwnsNamespace(cfg, segs[0]) {
        continue;
      }
      if Resolve(cfg, segs, false).Some? {
        continue;
      }
      var fix := None;
      var canonical := Resolve(cfg, segs, true);
      if canonical.Some? {
        var env := ConfigKeyToEnv(canonical.value);
        fix := Some((env, Join(canonical.value, ".")));
      }
      problems := problems + [Problem(name.value, key, fix)];
    }
    assert environ[..|environ|] == environ;
  }

  /** An override is reported exactly when it is one of ours and leads nowhere. */
  lemma {:induction false} ReportedIffIgnored(cfg: CfgType, environ: seq<string>, p: Problem)
    ensures p in Problems(cfg, environ) <==> exists kv :: kv in environ && Check(cfg, kv) == Some(p)
  {
    if environ != [] {
      var before, last := environ[..|environ| - 1], environ[|environ| - 1];
      ReportedIffIgnored(cfg, before, p);
      InFrontOrLast(environ, before, last);
    }
  }

  lemma InFrontOrLast(environ: seq<string>, before: seq<string>, last: string)
    requires environ != [] && before == environ[..|environ| - 1] && last == environ[|environ| - 1]
    ensures forall kv :: kv in environ <==> kv in before || kv == last
  {
    assert environ == before + [last];
  }

  lemma IgnoredMeansNoKey(cfg: CfgType, kv: string)
    requires NameOf(kv).Some?
    ensures var name := NameOf(kv).value;
      var segs := Split(KeyName(KeySegments(name)), '.');
      && (Check(cfg, kv).Some? <==> "PF__" <= name && OwnsNamespace(cfg, segs[0]) && Resolve(cfg, segs, false).None?)
      && (Check(cfg, kv).Some? && Unambiguous(cfg) && (exists p :: AllFold(p, segs) && Resolve(cfg, p, false).Some?) ==>
            Check(cfg, kv).value.fix.Some?)
  {
    var segs := Split(KeyName(KeySegments(NameOf(kv).value)), '.');
    if p :| AllFold(p, segs) && Resolve(cfg, p, false).Some? && Unambiguous(cfg) {
      CaseSlipsAreCanonicalised(cfg, p, segs);
    }
  }

  // ------------------------------------------------------------- characters kept

  /** ASCII without `=`: what an environment variable's name is made of. */
  predicate Simple(s: string) {
    forall i :: 0 <= i < |s| ==> SimpleChar(s[i])
  }

  predicate SimpleChar(c: char) {
    c < '\U{0080}' && c != '='
  }

  /** A segment that both spellings can carry. */
  predicate PlainSeg(s: string) {
    Simple(s) && Plain(s) && '.' !in s
  }

  predicate PlainSegs(segs: seq<string>) {
    forall i :: 0 <= i < |segs| ==> PlainSeg(segs[i])
  }

  predicate PlainTags(t: CfgType) {
    match t
    case Struct(fields) => forall i :: 0 <= i < |fields| ==> PlainSeg(Tag(fields[i])) && PlainTags(fields[i].ty)
    case Map(elem) => PlainTags(elem)
    case Pointer(to) => PlainTags(to)
    case Slice => true
    case Scalar => true
  }

  lemma {:induction false} SplitKeepsSimple(s: string, c: char)
    requires Simple(s)
    ensures forall i :: 0 <= i < |Split(s, c)| ==> Simple(Split(s, c)[i]) && c !in Split(s, c)[i]
  {
    if s != "" {
      SplitKeepsSimple(s[1..], c);
      var rest := Split(s[1..], c);
      assert SimpleChar(s[0]);
      assert Split(s, c) == if s[0] == c then [""] + rest else [[s[0]] + rest[0]] + rest[1..];
    }
  }

  lemma {:induction false} SplitDoubleKeepsSimple(s: string)
    requires Simple(s)
    ensures forall i :: 0 <= i < |SplitDouble(s)| ==> Simple(SplitDouble(s)[i])
    decreases |s|
  {
    if |s| >= 2 {
      if s[0] == '_' && s[1] == '_' {
        SplitDoubleKeepsSimple(s[2..]);
      } else {
        SplitDoubleKeepsSimple(s[1..]);
      }
    }
  }

  predicate Clean(s: string) {
    Simple(s) && '_' !in s
  }

  lemma {:induction false} CapitalsAreClean(parts: seq<string>)
    requires forall i :: 0 <= i < |parts| ==> Clean(parts[i])
    ensures Clean(Capitals(parts))
  {
    if parts != [] {
      CapitalsAreClean(parts[1..]);
      assert parts[0] != "" ==> SimpleChar(parts[0][0]) && SimpleChar(Upper(parts[0][0])) && Upper(parts[0][0]) != '_';
    }
  }

  lemma CamelIsClean(segment: string)
    requires Simple(segment)
    ensures Clean(Camel(segment))
  {
    SplitKeepsSimple(segment, '_');
    CapitalsAreClean(Split(segment, '_')[1..]);
  }

  lemma {:induction false} JoinIsClean(segs: seq<string>)
    requires forall i :: 0 <= i < |segs| ==> Clean(segs[i])
    ensures Clean(Join(segs, "."))
  {
    if |segs| > 1 {
      JoinIsClean(segs[1..]);
    }
  }

  /** The segments a simple name leads to are plain. */
  lemma KeyIsPlain(name: string)
    requires Simple(name)
    ensures PlainSegs(Split(KeyName(KeySegments(name)), '.'))
  {
    var s := ToLower(WithoutPrefix(name));
    assert Simple(WithoutPrefix(name));
    forall i | 0 <= i < |s| ensures SimpleChar(s[i]) {
      assert SimpleChar(WithoutPrefix(name)[i]);
    }
    SplitDoubleKeepsSimple(s);
    forall i | 0 <= i < |SplitDouble(s)| ensures Clean(Camel(SplitDouble(s)[i])) {
      CamelIsClean(SplitDouble(s)[i]);
    }
    JoinIsClean(KeySegments(name));
    CleanSplitsPlain(KeyName(KeySegments(name)));
  }

  lemma {:induction false} CleanSplitsPlain(key: string)
    requires Clean(key)
    ensures PlainSegs(Split(key, '.'))
  {
    SplitKeepsSimple(key, '.');
    if key != "" {
      CleanSplitsPlain(key[1..]);
    }
  }

  lemma {:induction false} CanonicalIsPlain(t: CfgType, segs: seq<string>)
    requires PlainTags(t) && PlainSegs(segs) && Resolve(t, segs, true).Some?
    ensures PlainSegs(Resolve(t, segs, true).value) && |Resolve(t, segs, true).value| == |segs|
    decreases t
  {
    if segs != [] {
      match t
      case Pointer(to) => CanonicalIsPlain(to, segs);
      case Struct(fields) => CanonicalIsPlain(fields[FieldFor(fields, segs[0], true)].ty, segs[1..]);
      case Map(elem) => CanonicalIsPlain(elem, segs[1..]);
      case Slice =>
      case Scalar =>
    }
  }

  // ------------------------------------------------------------- suggestions work

  lemma {:induction false} SnakeIsSimple(seg: string)
    requires Simple(seg)
    ensures Simple(Snake(seg))
  {
    if seg != "" {
      SnakeIsSimple(seg[1..]);
      assert SimpleChar(seg[0]) && SimpleChar(Upper(seg[0])) && SimpleChar('_');
    }
  }

  lemma {:induction false} JoinedNameIsSimple(parts: seq<string>)
    requires forall i :: 0 <= i < |parts| ==> Simple(parts[i])
    ensures Simple(Join(parts, "__"))
  {
    if |parts| > 1 {
      JoinedNameIsSimple(parts[1..]);
    }
  }

  lemma {:induction false} NameReadsBack(name: string, value: string)
    requires Simple(name)
    ensures NameOf(name + "=" + value) == Some(name)
  {
    var kv := name + "=" + value;
    if name != "" {
      assert SimpleChar(name[0]);
      NameReadsBack(name[1..], value);
      assert kv[1..] == name[1..] + "=" + value;
      assert kv[0] == name[0] && name == [name[0]] + name[1..];
    }
  }

  lemma EnvNameIsSimple(segs: seq<string>)
    requires PlainSegs(segs)
    ensures Simple(EnvName(segs)) && "PF__" <= EnvName(segs)
  {
    forall i | 0 <= i < |segs| ensures Simple(Snakes(segs)[i]) {
      SnakeIsSimple(segs[i]);
    }
    JoinedNameIsSimple(Snakes(segs));
  }

  /** Setting the suggested variable instead, to anything, is accepted, and it
      sets exactly the key the message names, which exists. */
  lemma EverySuggestionWorks(cfg: CfgType, kv: string, value: string)
    requires PlainTags(cfg) && NameOf(kv).Some? && Simple(NameOf(kv).value)
    requires Check(cfg, kv).Some? && Check(cfg, kv).value.fix.Some?
    ensures var (env, key) := Check(cfg, kv).value.fix.value;
      && KeyName(KeySegments(env)) == key
      && Resolve(cfg, Split(key, '.'), false) == Some(Split(key, '.'))
      && AllFold(Split(key, '.'), Split(Check(cfg, kv).value.key, '.'))
      && NameOf(env + "=" + value) == Some(env)
      && Check(cfg, env + "=" + value) == None
  {
    var name := NameOf(kv).value;
    var segs := Split(KeyName(KeySegments(name)), '.');
    var c := Resolve(cfg, segs, true).value;
    KeyIsPlain(name);
    CanonicalIsPlain(cfg, segs);
    CanonicalResolvesExactly(cfg, segs);
    EnvNameReadsBack(c);
    DotsReadBack(c);
    EnvNameIsSimple(c);
    NameReadsBack(EnvName(c), value);
  }

  lemma DotsReadBack(segs: seq<string>)
    requires segs != [] && PlainSegs(segs)
    ensures Split(KeyName(segs), '.') == segs
  {
    assert "." == ['.'];
    SplitJoin(segs, '.');
  }

  // ------------------------------------------------------------------ what is reported

  /** The key's first segment is the tag of one of our own sections, in some case. */
  predicate IsOurs(cfg: CfgType, seg: string) {
    cfg.Struct? && exists i :: 0 <= i < |cfg.fields| && IsSection(cfg.fields[i], seg)
  }

  predicate IsSection(f: Field, seg: string) {
    var tag := Split(f.koanf, ',')[0];
    tag != "" && ToLower(tag) == ToLower(seg)
  }

  lemma OursOwns(cfg: CfgType, seg: string)
    ensures OwnsNamespace(cfg, seg) <==> IsOurs(cfg, seg)
  {
    if cfg.Struct? {
      forall i | 0 <= i < |cfg.fields| ensures Owns(cfg.fields[i], seg) <==> IsSection(cfg.fields[i], seg) {
      }
    }
  }

  /** The variable of a key is reported exactly if the key begins in a section of ours
      and is no path of the configuration, with its own name and the key it reads as. */
  lemma AnOverrideIsReportedIff(cfg: CfgType, segs: seq<string>, value: string)
    requires segs != [] && PlainSegs(segs)
    ensures var p := Check(cfg, EnvName(segs) + "=" + value);
      && (p.Some? <==> IsOurs(cfg, segs[0]) && !IsPath(cfg, segs))
      && (p.Some? ==> p.value.name == EnvName(segs) && p.value.key == Join(segs, "."))
  {
    EnvNameIsSimple(segs);
    NameReadsBack(EnvName(segs), value);
    EnvNameReadsBack(segs);
    DotsReadBack(segs);
    OursOwns(cfg, segs[0]);
    ResolvesIffPath(cfg, segs);
  }

  /** A variable without our prefix, and a line that is none, are never reported. */
  lemma OthersAreNotReported(cfg: CfgType, name: string, value: string, line: string)
    requires Simple(name) && !("PF__" <= name) && '=' !in line
    ensures Check(cfg, name + "=" + value) == None && Check(cfg, line) == None
  {
    NameReadsBack(name, value);
    if NameOf(line).Some? {
      NoEquals(line);
    }
  }

  lemma {:induction false} NoEquals(line: string)
    requires '=' !in line
    ensures NameOf(line) == None
  {
    if line != "" {
      assert line[0] in line;
      NoEquals(line[1..]);
    }
  }

  function Found(cfg: CfgType, kv: string): seq<Problem> {
    if Check(cfg, kv).Some? then [Check(cfg, kv).value] else []
  }

  lemma LastProblem(cfg: CfgType, front: seq<string>, kv: string)
    ensures Problems(cfg, front + [kv]) == Problems(cfg, front) + Found(cfg, kv)
  {
    assert (front + [kv])[..|front|] == front;
  }

  /** What grows by a part for each element is made of the parts in order. */
  lemma {:induction false} InOrder<T(!new), P>(all: seq<T> -> seq<P>, one: T -> seq<P>, a: seq<T>, b: seq<T>)
    requires all([]) == [] && forall s, x :: all(s + [x]) == all(s) + one(x)
    ensures all(a + b) == all(a) + all(b)
  {
    if b == [] {
      assert a + b == a;
    } else {
      var front, x := b[..|b| - 1], b[|b| - 1];
      InOrder(all, one, a, front);
      assert front + [x] == b && (a + front) + [x] == a + b;
    }
  }

  /** The problems come in the order of the environment, */
  lemma ProblemsAreInOrder(cfg: CfgType, a: seq<string>, b: seq<string>)
    ensures Problems(cfg, a + b) == Problems(cfg, a) + Problems(cfg, b)
  {
    forall s, x ensures Problems(cfg, s + [x]) == Problems(cfg, s) + Found(cfg, x) {
      LastProblem(cfg, s, x);
    }
    InOrder(environ => Problems(cfg, environ), kv => Found(cfg, kv), a, b);
  }

  /** one for each variable that has one. */
  lemma OneProblemEach(cfg: CfgType, kv: string)
    ensures Problems(cfg, [kv]) == if Check(cfg, kv).Some? then [Check(cfg, kv).value] else []
  {
    LastProblem(cfg, [], kv);
    assert [] + [kv] == [kv];
  }
}
