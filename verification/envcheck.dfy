/** The environment-override check (internal/config/envcheck.go): which PF__
  variables are reported, and that every "did you mean" is a real fix. */
module EnvCheck {
  import opened Wrappers
  import opened Text

  // ---------------------------------------------------------------- config types

  /** What reflection sees of a configuration type. */
  datatype CfgType =
    | Struct(fields: seq<Field>)
    | Map(elem: CfgType)
    | Slice
    | Scalar
    | Pointer(to: CfgType)

  datatype Field = Field(koanf: string, ty: CfgType)

  /** koanfTag: the struct tag up to its first comma. */
  function Tag(f: Field): string {
    Split(f.koanf, ',')[0]
  }

  predicate Matches(f: Field, seg: string, fold: bool) {
    Tag(f) != "" && (Tag(f) == seg || (fold && EqualFold(Tag(f), seg)))
  }

  function FieldFor(fields: seq<Field>, seg: string, fold: bool): (i: nat)
    ensures i <= |fields| && (i < |fields| ==> Matches(fields[i], seg, fold))
    ensures forall j :: 0 <= j < i ==> !Matches(fields[j], seg, fold)
  {
    if fields == [] || Matches(fields[0], seg, fold) then 0 else 1 + FieldFor(fields[1..], seg, fold)
  }

  /** resolveConfigPath: the canonical spelling of a path, if it leads somewhere. */
  function Resolve(t: CfgType, segs: seq<string>, fold: bool): (r: Option<seq<string>>)
    decreases t
  {
    if segs == [] then Some([])
    else match t
      case Pointer(to) => Resolve(to, segs, fold)
      case Struct(fields) =>
        var i := FieldFor(fields, segs[0], fold);
        if i == |fields| then None else Prefixed(Tag(fields[i]), Resolve(fields[i].ty, segs[1..], fold))
      case Map(elem) => Prefixed(segs[0], Resolve(elem, segs[1..], fold))
      case Slice => Some(segs)
      case Scalar => None
  }

  function Prefixed(seg: string, rest: Option<seq<string>>): Option<seq<string>> {
    if rest.None? then None else Some([seg] + rest.value)
  }

  predicate OwnsNamespace(t: CfgType, seg: string) {
    t.Struct? && exists i :: 0 <= i < |t.fields| && Owns(t.fields[i], seg)
  }

  predicate Owns(f: Field, seg: string) {
    Tag(f) != "" && EqualFold(Tag(f), seg)
  }

  // -------------------------------------------------------- paths and their fixes

  predicate AllFold(p: seq<string>, q: seq<string>) {
    |p| == |q| && forall i :: 0 <= i < |p| ==> EqualFold(p[i], q[i])
  }

  /** The spelling the case-folding walk gives resolves to itself without folding. */
  lemma {:induction false} CanonicalResolvesExactly(t: CfgType, segs: seq<string>)
    requires Resolve(t, segs, true).Some?
    ensures var c := Resolve(t, segs, true).value; Resolve(t, c, false) == Some(c) && AllFold(c, segs)
    decreases t
  {
    if segs != [] {
      match t
      case Pointer(to) => CanonicalResolvesExactly(to, segs);
      case Struct(fields) =>
        var i := FieldFor(fields, segs[0], true);
        CanonicalResolvesExactly(fields[i].ty, segs[1..]);
        var c := Resolve(t, segs, true).value;
        assert c[1..] == Resolve(fields[i].ty, segs[1..], true).value;
        FirstFoldIsFirstExact(fields, segs[0]);
        ConsFold(c, segs);
      case Map(elem) =>
        CanonicalResolvesExactly(elem, segs[1..]);
        var c := Resolve(t, segs, true).value;
        assert c[1..] == Resolve(elem, segs[1..], true).value;
        ConsFold(c, segs);
      case Slice =>
      case Scalar =>
    }
  }

  lemma ConsFold(c: seq<string>, segs: seq<string>)
    requires c != [] && segs != [] && EqualFold(c[0], segs[0]) && AllFold(c[1..], segs[1..])
    ensures AllFold(c, segs)
  {
    forall i | 0 <= i < |c| ensures EqualFold(c[i], segs[i]) {
      if i > 0 { assert c[1..][i - 1] == c[i] && segs[1..][i - 1] == segs[i]; }
    }
  }

  /** Were an earlier field to match the canonical tag, it would have matched the folded one. */
  lemma FirstFoldIsFirstExact(fields: seq<Field>, seg: string)
    requires FieldFor(fields, seg, true) < |fields|
    ensures FieldFor(fields, Tag(fields[FieldFor(fields, seg, true)]), false) == FieldFor(fields, seg, true)
  {
    var i := FieldFor(fields, seg, true);
    var j := FieldFor(fields, Tag(fields[i]), false);
    if j < i {
      assert Matches(fields[j], seg, true);
    }
  }

  /** No struct has two tags that differ only in case. */
  predicate Unambiguous(t: CfgType) {
    match t
    case Struct(fields) =>
      && (forall i, j :: 0 <= i < j < |fields| && Tag(fields[i]) != "" ==> !EqualFold(Tag(fields[i]), Tag(fields[j])))
      && (forall i :: 0 <= i < |fields| ==> Unambiguous(fields[i].ty))
    case Map(elem) => Unambiguous(elem)
    case Pointer(to) => Unambiguous(to)
    case Slice => true
    case Scalar => true
  }

  /** A path that is wrong only in its case always gets a suggestion. */
  lemma {:induction false} CaseSlipsAreCanonicalised(t: CfgType, p: seq<string>, segs: seq<string>)
    requires Unambiguous(t) && Resolve(t, p, false).Some? && AllFold(p, segs)
    ensures Resolve(t, segs, true).Some?
    decreases t
  {
    if segs != [] {
      assert EqualFold(p[0], segs[0]);
      assert AllFold(p[1..], segs[1..]) by {
        forall i | 0 <= i < |p| - 1 ensures EqualFold(p[1..][i], segs[1..][i]) {
          assert EqualFold(p[i + 1], segs[i + 1]);
        }
      }
      match t
      case Pointer(to) => CaseSlipsAreCanonicalised(to, p, segs);
      case Struct(fields) =>
        SlipFindsField(fields, p[0], segs[0]);
        CaseSlipsAreCanonicalised(fields[FieldFor(fields, p[0], false)].ty, p[1..], segs[1..]);
      case Map(elem) => CaseSlipsAreCanonicalised(elem, p[1..], segs[1..]);
      case Slice =>
      case Scalar =>
    }
  }

  lemma SlipFindsField(fields: seq<Field>, tag: string, seg: string)
    requires Unambiguous(Struct(fields)) && EqualFold(tag, seg) && FieldFor(fields, tag, false) < |fields|
    ensures FieldFor(fields, seg, true) == FieldFor(fields, tag, false)
  {
    var i, j := FieldFor(fields, seg, true), FieldFor(fields, tag, false);
    assert Matches(fields[j], seg, true);
    assert i < j ==> EqualFold(Tag(fields[i]), Tag(fields[j]));
  }

  // ------------------------------------------------------------- which paths there are

  /** Field i is the first with this tag. */
  predicate IsFirst(fields: seq<Field>, i: nat, tag: string) {
    && i < |fields| && tag != "" && Split(fields[i].koanf, ',')[0] == tag
    && forall j :: 0 <= j < i ==> Split(fields[j].koanf, ',')[0] != tag
  }

  /** The path leads somewhere: through structs by their tags, through maps by any
      key, through pointers unnoticed, into slices no matter how, and no further than a value. */
  ghost predicate IsPath(t: CfgType, segs: seq<string>)
    decreases t
  {
    segs == [] ||
    match t
    case Struct(fields) => exists i: nat :: IsFirst(fields, i, segs[0]) && IsPath(fields[i].ty, segs[1..])
    case Map(elem) => IsPath(elem, segs[1..])
    case Slice => true
    case Scalar => false
    case Pointer(to) => IsPath(to, segs)
  }

  /** A key is accepted exactly if its path leads somewhere, and then as it is spelled. */
  lemma {:induction false} ResolvesIffPath(t: CfgType, segs: seq<string>)
    ensures Resolve(t, segs, false).Some? <==> IsPath(t, segs)
    ensures Resolve(t, segs, false).Some? ==> Resolve(t, segs, false).value == segs
    decreases t
  {
    if segs != [] {
      assert segs == [segs[0]] + segs[1..];
      match t
      case Pointer(to) => ResolvesIffPath(to, segs);
      case Struct(fields) =>
        var i := FieldFor(fields, segs[0], false);
        FirstIsFieldFor(fields, segs[0]);
        if i < |fields| {
          ResolvesIffPath(fields[i].ty, segs[1..]);
        }
      case Map(elem) => ResolvesIffPath(elem, segs[1..]);
      case Slice =>
      case Scalar =>
    }
  }

  lemma FirstIsFieldFor(fields: seq<Field>, tag: string)
    ensures var f := FieldFor(fields, tag, false); f < |fields| ==> IsFirst(fields, f, tag)
    ensures forall i: nat :: IsFirst(fields, i, tag) ==> FieldFor(fields, tag, false) == i
  {
    forall i: nat | IsFirst(fields, i, tag) ensures FieldFor(fields, tag, false) == i {
      assert Matches(fields[i], tag, false);
    }
  }
}
