/** The two spellings of a configuration key (envToConfigKey and configKeyToEnv
  of internal/config/envcheck.go), and that they are inverse. Letters are mapped
  as ASCII. */
module EnvNames {
  import opened Text

  predicate IsUpper(c: char) {
    'A' <= c <= 'Z'
  }

  // -------------------------------------------------------------- env var to key

  /** strings.Split(s, "__"): leftmost separators first, none overlapping. */
  function SplitDouble(s: string): (parts: seq<string>)
    ensures |parts| > 0
    decreases |s|
  {
    if |s| < 2 then [s]
    else if s[0] == '_' && s[1] == '_' then [""] + SplitDouble(s[2..])
    else
      var rest := SplitDouble(s[1..]);
      [[s[0]] + rest[0]] + rest[1..]
  }

  function Capital(part: string): string {
    if part == "" then "" else [Upper(part[0])] + part[1..]
  }

  function Capitals(parts: seq<string>): string {
    if parts == [] then "" else Capital(parts[0]) + Capitals(parts[1..])
  }

  /** A segment's camel case: each part after the first capitalised, underscores dropped. */
  function Camel(segment: string): string {
    var parts := Split(segment, '_');
    parts[0] + Capitals(parts[1..])
  }

  function Camels(segments: seq<string>): (r: seq<string>)
    ensures |r| == |segments|
  {
    seq(|segments|, i requires 0 <= i < |segments| => Camel(segments[i]))
  }

  function WithoutPrefix(name: string): string {
    if "PF__" <= name then name[4..] else name
  }

  function KeySegments(name: string): seq<string> {
    Camels(SplitDouble(ToLower(WithoutPrefix(name))))
  }

  method EnvToConfigKey(name: string) returns (key: string)
    ensures key == Join(KeySegments(name), ".")
  {
    var split := SplitDouble(ToLower(WithoutPrefix(name)));
    var segments := split;
    for i := 0 to |split|
      invariant |segments| == |split|
      invariant forall k :: 0 <= k < |split| ==> segments[k] == if k < i then Camel(split[k]) else split[k]
    {
      var parts := Split(split[i], '_');
      ghost var whole := parts;
      for j := 1 to |parts|
        invariant |parts| == |whole|
        invariant forall k :: 0 <= k < |parts| ==> parts[k] == if 1 <= k < j then Capital(whole[k]) else whole[k]
      {
        if parts[j] != "" {
          parts := parts[j := [Upper(parts[j][0])] + parts[j][1..]];
        }
      }
      CapitalsOf(whole[1..], parts[1..]);
      ConcatCons(parts);
      segments := segments[i := Concat(parts)];
    }
    assert segments == Camels(split);
    key := Join(segments, ".");
  }

  /** strings.Join(parts, ""). */
  function Concat(parts: seq<string>): string {
    if parts == [] then "" else parts[0] + Concat(parts[1..])
  }

  lemma ConcatCons(parts: seq<string>)
    requires parts != []
    ensures Concat(parts) == parts[0] + Concat(parts[1..])
  {
  }

  lemma {:induction false} CapitalsOf(parts: seq<string>, capitals: seq<string>)
    requires |capitals| == |parts| && forall i :: 0 <= i < |parts| ==> capitals[i] == Capital(parts[i])
    ensures Concat(capitals) == Capitals(parts)
  {
    if parts != [] {
      CapitalsOf(parts[1..], capitals[1..]);
    }
  }

  // -------------------------------------------------------------- key to env var

  /** One segment in upper snake case. */
  function Snake(seg: string): string {
    if seg == "" then ""
    else (if IsUpper(seg[0]) then "_" else "") + [Upper(seg[0])] + Snake(seg[1..])
  }

  function Snakes(segs: seq<string>): (r: seq<string>)
    ensures |r| == |segs|
  {
    seq(|segs|, i requires 0 <= i < |segs| => Snake(segs[i]))
  }

  function EnvName(segs: seq<string>): string {
    "PF__" + Join(Snakes(segs), "__")
  }

  method ConfigKeyToEnv(segs: seq<string>) returns (name: string)
    ensures name == EnvName(segs)
  {
    var out: seq<string> := [];
    for i := 0 to |segs|
      invariant out == Snakes(segs[..i])
    {
      var seg, b := segs[i], "";
      for j := 0 to |seg|
        invariant b + Snake(seg[j..]) == Snake(seg)
      {
        assert seg[j..][1..] == seg[j + 1..] && seg[j..][0] == seg[j];
        if IsUpper(seg[j]) {
          b := b + "_";
        }
        b := b + [Upper(seg[j])];
      }
      assert seg[|seg|..] == "" && b + "" == b;
      out := out + [b];
    }
    assert segs[..|segs|] == segs;
    name := "PF__" + Join(out, "__");
  }

  // ------------------------------------------------------------------- round trip

  /** What a key segment may be for its environment name to lead back to it. */
  predicate Plain(seg: string) {
    forall i :: 0 <= i < |seg| ==> seg[i] < '\U{0080}' && seg[i] != '_'
  }

  /** A segment as it comes back lowered. */
  function Lowered(seg: string): string {
    ToLower(Snake(seg))
  }

  lemma LoweredByCharacter(seg: string)
    requires seg != "" && Plain(seg)
    ensures Lowered(seg) == (if IsUpper(seg[0]) then "_" else "") + [Lower(seg[0])] + Lowered(seg[1..])
    ensures !IsUpper(seg[0]) ==> Lower(seg[0]) == seg[0]
    ensures IsUpper(seg[0]) ==> Upper(Lower(seg[0])) == seg[0]
    ensures Lower(seg[0]) != '_' && Plain(seg[1..])
  {
    assert Lower(Upper(seg[0])) == Lower(seg[0]) && Lower('_') == '_';
    var head := (if IsUpper(seg[0]) then "_" else "") + [Upper(seg[0])];
    assert ToLower(head + Snake(seg[1..])) == ToLower(head) + ToLower(Snake(seg[1..]));
  }

  lemma CamelPlain(c: char, s: string)
    requires c != '_'
    ensures Camel([c] + s) == [c] + Camel(s)
  {
    SplitAt(c, s, '_');
    assert Split([c] + s, '_')[1..] == Split(s, '_')[1..];
  }

  lemma CamelCapital(c: char, s: string)
    requires c != '_'
    ensures Camel(['_', c] + s) == [Upper(c)] + Camel(s)
  {
    assert ['_', c] + s == ['_'] + ([c] + s);
    SplitAt('_', [c] + s, '_');
    SplitAt(c, s, '_');
    var parts := Split(['_', c] + s, '_');
    assert parts[1..] == Split([c] + s, '_') && parts[1..][1..] == Split(s, '_')[1..];
    assert Capital([c] + Split(s, '_')[0]) == [Upper(c)] + Split(s, '_')[0];
  }

  lemma {:induction false} CamelUndoesSnake(seg: string)
    requires Plain(seg)
    ensures Camel(Lowered(seg)) == seg
  {
    if seg != "" {
      LoweredByCharacter(seg);
      CamelUndoesSnake(seg[1..]);
      var c := Lower(seg[0]);
      if IsUpper(seg[0]) {
        assert Lowered(seg) == ['_', c] + Lowered(seg[1..]);
        CamelCapital(c, Lowered(seg[1..]));
      } else {
        assert Lowered(seg) == [c] + Lowered(seg[1..]);
        CamelPlain(c, Lowered(seg[1..]));
      }
      assert seg == [seg[0]] + seg[1..];
    }
  }

  /** No two underscores in a row, and none at the end. */
  predicate Separate(s: string) {
    forall i :: 0 <= i < |s| && s[i] == '_' ==> i + 1 < |s| && s[i + 1] != '_'
  }

  lemma {:induction false} LoweredIsSeparate(seg: string)
    requires Plain(seg)
    ensures Separate(Lowered(seg))
  {
    if seg != "" {
      LoweredByCharacter(seg);
      LoweredIsSeparate(seg[1..]);
      var rest, head := Lowered(seg[1..]), (if IsUpper(seg[0]) then "_" else "") + [Lower(seg[0])];
      var s := head + rest;
      forall i | 0 <= i < |s| && s[i] == '_' ensures i + 1 < |s| && s[i + 1] != '_' {
        assert i >= |head| ==> rest[i - |head|] == '_';
      }
    }
  }

  lemma {:induction false} SplitDoubleJoin(parts: seq<string>)
    requires |parts| > 0 && forall i :: 0 <= i < |parts| ==> Separate(parts[i])
    ensures SplitDouble(Join(parts, "__")) == parts
    decreases |parts|, |parts[0]|
  {
    var s, p := Join(parts, "__"), parts[0];
    if p == "" {
      if |parts| > 1 {
        assert s == "__" + Join(parts[1..], "__");
        assert s[2..] == Join(parts[1..], "__");
        SplitDoubleJoin(parts[1..]);
      }
    } else {
      var tail := [p[1..]] + parts[1..];
      assert Separate(p[1..]) by {
        forall i | 0 <= i < |p[1..]| && p[1..][i] == '_' ensures i + 1 < |p[1..]| && p[1..][i + 1] != '_' {
          assert p[i + 1] == '_';
        }
      }
      SplitDoubleJoin(tail);
      assert tail[1..] == parts[1..];
      JoinHead(parts, tail);
      assert p == [p[0]] + p[1..];
      assert parts == [p] + parts[1..];
    }
  }

  lemma JoinHead(parts: seq<string>, tail: seq<string>)
    requires |parts| > 0 && parts[0] != "" && tail == [parts[0][1..]] + parts[1..]
    ensures Join(parts, "__") == [parts[0][0]] + Join(tail, "__") && Join(parts, "__")[1..] == Join(tail, "__")
    ensures |parts[0]| > 1 ==> |Join(parts, "__")| > 1 && Join(parts, "__")[1] == parts[0][1]
  {
    assert parts[0] == [parts[0][0]] + parts[0][1..];
    assert tail[1..] == parts[1..];
  }

  lemma {:induction false} ToLowerJoin(parts: seq<string>, lowered: seq<string>)
    requires |lowered| == |parts| && forall i :: 0 <= i < |parts| ==> lowered[i] == ToLower(parts[i])
    ensures ToLower(Join(parts, "__")) == Join(lowered, "__")
  {
    if |parts| > 1 {
      ToLowerJoin(parts[1..], lowered[1..]);
      LowerConcat(parts[0] + "__", Join(parts[1..], "__"));
      LowerConcat(parts[0], "__");
    }
  }

  lemma LowerConcat(s: string, t: string)
    ensures ToLower(s + t) == ToLower(s) + ToLower(t)
  {
  }

  /** Turning a key's segments into a variable name and back gives the segments. */
  lemma EnvNameReadsBack(segs: seq<string>)
    requires segs != [] && forall i :: 0 <= i < |segs| ==> Plain(segs[i])
    ensures KeySegments(EnvName(segs)) == segs
  {
    var lowered := seq(|segs|, i requires 0 <= i < |segs| => Lowered(segs[i]));
    assert WithoutPrefix(EnvName(segs)) == Join(Snakes(segs), "__");
    ToLowerJoin(Snakes(segs), lowered);
    forall i | 0 <= i < |segs| ensures Separate(lowered[i]) && Camel(lowered[i]) == segs[i] {
      LoweredIsSeparate(segs[i]);
      CamelUndoesSnake(segs[i]);
    }
    SplitDoubleJoin(lowered);
  }
}
