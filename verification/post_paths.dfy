/** The paths of declared post-install steps: a base and a relative template,
    which together never leave the base. */
module PostPaths {
  import opened Options
  import opened FileTree
  import Templates
  import opened LinkSteps
  import opened UpgradeLaws
  import opened Linking
  import PostInstall

  /** A path as declared; without a base it must begin with the prefix marker. */
  datatype Spec = Spec(base: string, text: string)

  datatype Declared =
    | Mkdir(path: Spec)
    | LinkTree(source: Spec, target: Spec)
    | LinkEach(source: Spec, target: Spec, suffix: string)
    | Ignored

  // Relative paths.

  /** The stretches between slashes. */
  function Segments(s: string): (r: seq<string>)
    ensures r != []
  {
    if s == "" then [""]
    else
      var rest := Segments(s[1..]);
      if s[0] == '/' then [""] + rest else [[s[0]] + rest[0]] + rest[1..]
  }

  /** Empty stretches and single dots name nothing. */
  function Named(segments: seq<string>): Path {
    if segments == [] then []
    else if segments[0] == "" || segments[0] == "." then Named(segments[1..])
    else [segments[0]] + Named(segments[1..])
  }

  /** A nonempty relative path that neither begins with a dot nor goes up. */
  function Relative(s: string): Option<Path> {
    var segments := Segments(s);
    if s == "" || s[0] == '/' || segments[0] == "." || ".." in segments then None else Some(Named(segments))
  }

  /** A name that stands for one entry of a directory. */
  predicate PlainName(n: string) {
    n != "" && '/' !in n && n != "." && n != ".."
  }

  lemma {:induction false} SegmentsHaveNoSlash(s: string)
    ensures forall n :: n in Segments(s) ==> '/' !in n
  {
    if s != "" {
      SegmentsHaveNoSlash(s[1..]);
    }
  }

  lemma {:induction false} NamedIsPlain(segments: seq<string>)
    requires forall n :: n in segments ==> '/' !in n && n != ".."
    ensures forall n :: n in Named(segments) ==> PlainName(n)
  {
    if segments != [] {
      NamedIsPlain(segments[1..]);
    }
  }

  /** An accepted path goes down at least one step, and only down. */
  lemma RelativeGoesDown(s: string)
    ensures Relative(s).Some? ==> Relative(s).value != [] && forall n :: n in Relative(s).value ==> PlainName(n)
  {
    if Relative(s).Some? {
      SegmentsHaveNoSlash(s);
      NamedIsPlain(Segments(s));
      assert Segments(s)[0] != "" by { FirstSegment(s); }
    }
  }

  lemma FirstSegment(s: string)
    requires s != "" && s[0] != '/'
    ensures Segments(s)[0] != ""
  {
  }

  /** How names are written down as a path. */
  function Joined(names: Path): string
    requires names != []
  {
    if |names| == 1 then names[0] else names[0] + "/" + Joined(names[1..])
  }

  lemma {:induction false} SegmentsOfName(n: string, rest: string)
    requires '/' !in n
    ensures Segments(n) == [n]
    ensures Segments(n + "/" + rest) == [n] + Segments(rest)
  {
    if n == "" {
      assert n + "/" + rest == "/" + rest && ("/" + rest)[1..] == rest;
    } else {
      SegmentsOfName(n[1..], rest);
      assert n == [n[0]] + n[1..];
      assert (n + "/" + rest)[1..] == n[1..] + "/" + rest;
      assert ([n[1..]] + Segments(rest))[1..] == Segments(rest);
    }
  }

  /** The stretches of a path written down are its names. */
  lemma {:induction false} SegmentsOfJoined(names: Path)
    requires names != [] && forall n :: n in names ==> PlainName(n)
    ensures Segments(Joined(names)) == names
  {
    assert PlainName(names[0]) && '/' !in names[0];
    hide Segments, PlainName;
    if |names| == 1 {
      SegmentsOfName(names[0], "");
    } else {
      SegmentsOfName(names[0], Joined(names[1..]));
      SegmentsOfJoined(names[1..]);
      assert names == [names[0]] + names[1..];
    }
  }

  lemma {:induction false} NamedKeepsPlain(names: Path)
    requires forall n :: n in names ==> PlainName(n)
    ensures Named(names) == names
  {
    if names != [] {
      assert PlainName(names[0]);
      NamedKeepsPlain(names[1..]);
      assert names == [names[0]] + names[1..];
    }
  }

  /** Every path of plain names is accepted as it is written down. */
  lemma WrittenPathIsRead(names: Path)
    requires names != [] && forall n :: n in names ==> PlainName(n)
    ensures Relative(Joined(names)) == Some(names)
  {
    assert PlainName(names[0]);
    SegmentsOfJoined(names);
    NamedKeepsPlain(names);
    assert |names| > 1 ==> Joined(names) == names[0] + "/" + Joined(names[1..]);
  }

  // Bases.

  function PrefixMarker(): string { "{{HOMEBREW_PREFIX}}/" }

  /** The base and what follows it. */
  function Based(spec: Spec): Option<(string, string)> {
    if spec.base != "" then Some((spec.base, spec.text))
    else if PrefixMarker() <= spec.text then Some(("homebrew_prefix", spec.text[|PrefixMarker()|..]))
    else None
  }

  /** Sources lie in the keg, targets below the prefix. */
  function BasePath(base: string, keg: Path, source: bool): Option<Path> {
    if source then (if base == "prefix" then Some(keg) else None)
    else if base == "homebrew_prefix" then Some([])
    else if base == "var" then Some(["var"])
    else if base == "etc" then Some(["etc"])
    else None
  }

  function PathOf(vars: Templates.KegVars, keg: Path, spec: Spec, source: bool): Option<Path> {
    match Based(spec)
    case None => None
    case Some((base, text)) =>
      match (BasePath(base, keg, source), Templates.Expansion(text, vars))
      case (Some(below), Some(expanded)) =>
        (match Relative(expanded)
         case None => None
         case Some(names) => Some(below + names))
      case _ => None
  }

  method PostInstallPath(vars: Templates.KegVars, keg: Path, spec: Spec, source: bool) returns (r: Option<Path>)
    ensures r == PathOf(vars, keg, spec, source)
    ensures r.Some? ==> r.value != []
    ensures r.Some? && source ==> keg <= r.value && r.value != keg
    ensures r.Some? ==> forall n :: n in r.value[if source then |keg| else 0..] ==> PlainName(n)
  {
    hide Templates.Expansion, Relative, PlainName;
    var base, value := spec.base, spec.text;
    if spec.base == "" {
      if !(PrefixMarker() <= spec.text) {
        return None;
      }
      base, value := "homebrew_prefix", spec.text[|PrefixMarker()|..];
    }
    var below := BasePath(base, keg, source);
    if below.None? {
      return None;
    }
    var expanded := Templates.Expand(vars, value);
    if expanded.None? {
      return None;
    }
    RelativeGoesDown(expanded.value);
    var names := Relative(expanded.value);
    if names.None? {
      return None;
    }
    BasesArePlain();
    r := Some(below.value + names.value);
    assert source ==> r.value[|keg|..] == names.value;
    assert r.value[0..] == r.value;
  }

  lemma BasesArePlain()
    ensures PlainName("var") && PlainName("etc")
  {
    assert |"var"| == |"etc"| == 3;
  }

  /** What every worked-out path keeps to. */
  lemma PathStaysBelow(vars: Templates.KegVars, keg: Path, spec: Spec, source: bool)
    ensures var r := PathOf(vars, keg, spec, source);
            r.Some? ==> r.value != [] && (source ==> keg <= r.value && r.value != keg)
  {
    hide Templates.Expansion, Relative;
    match Based(spec)
    case Some((_, text)) =>
      if Templates.Expansion(text, vars).Some? {
        RelativeGoesDown(Templates.Expansion(text, vars).value);
      }
    case None =>
  }

  // Steps.

  /** The part of a version before the first dot. */
  function MajorOf(version: string): string {
    if version == "" || version[0] == '.' then "" else [version[0]] + MajorOf(version[1..])
  }

  function VarsOf(keg: Path): Option<Templates.KegVars> {
    if |keg| < 2 then None else Some(Templates.KegVars(keg[|keg| - 2], MajorOf(keg[|keg| - 1])))
  }

  function StepFor(vars: Templates.KegVars, keg: Path, d: Declared): Option<PostInstall.Step> {
    match d
    case Ignored => Some(PostInstall.Unsupported)
    case Mkdir(path) =>
      (match PathOf(vars, keg, path, false)
       case None => None
       case Some(p) => Some(PostInstall.MkdirP(p)))
    case LinkTree(source, target) =>
      (match (PathOf(vars, keg, source, true), PathOf(vars, keg, target, false))
       case (Some(s), Some(t)) => Some(PostInstall.LinkDir(s, t))
       case _ => None)
    case LinkEach(source, target, suffix) =>
      (match (PathOf(vars, keg, source, true), PathOf(vars, keg, target, false), Templates.SuffixOf(vars, suffix))
       case (Some(s), Some(t), Some(x)) => Some(PostInstall.LinkChildren(s, t, x))
       case _ => None)
  }

  /** Every declared step can be worked out. */
  predicate Accepted(keg: Path, declared: seq<Declared>) {
    declared == [] || (VarsOf(keg).Some? && forall i :: 0 <= i < |declared| ==> StepFor(VarsOf(keg).value, keg, declared[i]).Some?)
  }

  function StepsFor(keg: Path, declared: seq<Declared>): seq<PostInstall.Step>
    requires Accepted(keg, declared)
  {
    if declared == [] then [] else
      seq(|declared|, i requires 0 <= i < |declared| => StepFor(VarsOf(keg).value, keg, declared[i]).value)
  }

  method WorkOutStep(vars: Templates.KegVars, keg: Path, d: Declared) returns (r: Option<PostInstall.Step>)
    ensures r == StepFor(vars, keg, d)
  {
    hide PathOf, Templates.SuffixOf, PlainName;
    match d
    case Ignored => return Some(PostInstall.Unsupported);
    case Mkdir(path) =>
      var p := PostInstallPath(vars, keg, path, false);
      return if p.Some? then Some(PostInstall.MkdirP(p.value)) else None;
    case LinkTree(source, target) =>
      var s := PostInstallPath(vars, keg, source, true);
      var t := PostInstallPath(vars, keg, target, false);
      return if s.Some? && t.Some? then Some(PostInstall.LinkDir(s.value, t.value)) else None;
    case LinkEach(source, target, suffix) =>
      var s := PostInstallPath(vars, keg, source, true);
      var t := PostInstallPath(vars, keg, target, false);
      var x := Templates.Suffix(vars, suffix);
      return if s.Some? && t.Some? && x.Some? then Some(PostInstall.LinkChildren(s.value, t.value, x.value)) else None;
  }

  /** Works out all steps, or refuses the declaration as a whole. */
  method WorkOut(keg: Path, declared: seq<Declared>) returns (r: Option<seq<PostInstall.Step>>)
    ensures r == if Accepted(keg, declared) then Some(StepsFor(keg, declared)) else None
  {
    hide StepFor;
    if declared == [] {
      return Some([]);
    }
    var vars := VarsOf(keg);
    if vars.None? {
      return None;
    }
    var steps: seq<PostInstall.Step> := [];
    var i := 0;
    while i < |declared|
      invariant |steps| == i <= |declared|
      invariant forall j :: 0 <= j < i ==> StepFor(vars.value, keg, declared[j]) == Some(steps[j])
    {
      var step := WorkOutStep(vars.value, keg, declared[i]);
      if step.None? {
        return None;
      }
      steps := steps + [step.value];
      i := i + 1;
    }
    assert Accepted(keg, declared);
    assert steps == StepsFor(keg, declared);
    return Some(steps);
  }

  /** Declared targets lie strictly below the prefix, declared sources strictly below the keg. */
  lemma StepsStayBelow(keg: Path, declared: seq<Declared>, step: PostInstall.Step)
    requires Accepted(keg, declared) && step in StepsFor(keg, declared)
    ensures !step.Unsupported? ==> step.target != []
    ensures step.LinkDir? || step.LinkChildren? ==> keg <= step.source && step.source != keg
  {
    var steps := StepsFor(keg, declared);
    var i :| 0 <= i < |steps| && steps[i] == step;
    var d, vars := declared[i], VarsOf(keg).value;
    assert Some(step) == StepFor(vars, keg, d);
    hide PathOf, Templates.SuffixOf, Accepted, StepsFor;
    match d
    case Ignored =>
    case Mkdir(path) => PathStaysBelow(vars, keg, path, false);
    case LinkTree(source, target) =>
      PathStaysBelow(vars, keg, source, true);
      PathStaysBelow(vars, keg, target, false);
    case LinkEach(source, target, _) =>
      PathStaysBelow(vars, keg, source, true);
      PathStaysBelow(vars, keg, target, false);
  }

  /** So no operation touches the prefix itself. */
  lemma OperationsStayBelow(w: World, keg: Path, declared: seq<Declared>, op: PostInstall.Operation)
    requires Accepted(keg, declared) && op in PostInstall.AllOps(w, StepsFor(keg, declared))
    ensures op.dst != []
  {
    var steps := StepsFor(keg, declared);
    var i := PostInstall.StepOf(w, steps, op);
    assert steps[i] in steps;
    hide Accepted, StepsFor, PostInstall.AllOps;
    StepsStayBelow(keg, declared, steps[i]);
  }

  /** Applies a declaration: what cannot be worked out changes nothing. */
  method ApplyDeclared(linker: Linker, keg: Path, declared: seq<Declared>) returns (r: Result<()>)
    requires ValidWorld(linker.world) && ValidPrefix(linker.fs)
    requires Accepted(keg, declared) ==>
               PostInstall.Separate(linker.world, PostInstall.AllOps(linker.world, StepsFor(keg, declared)))
    modifies linker`fs
    ensures ValidPrefix(linker.fs)
    ensures !Accepted(keg, declared) ==> r.Err? && linker.fs == old(linker.fs)
    ensures r.Ok? ==> Accepted(keg, declared)
                      && var ops := PostInstall.AllOps(linker.world, StepsFor(keg, declared));
                         PostInstall.Applied(linker.world, old(linker.fs), ops, ops, linker.fs)
    ensures Accepted(keg, declared) && PostInstall.Applicable(linker.world, old(linker.fs), keg, StepsFor(keg, declared)) ==> r.Ok?
  {
    hide Accepted, StepsFor, ValidWorld, ValidPrefix, PostInstall.AllOps, PostInstall.Applied, PostInstall.Separate,
      PostInstall.Applicable, PostInstall.StepOk, PostInstall.Clear;
    var steps := WorkOut(keg, declared);
    if steps.None? {
      return Err(StoreCorruption);
    }
    forall op | op in PostInstall.AllOps(linker.world, steps.value)
      ensures op.dst != []
    {
      OperationsStayBelow(linker.world, keg, declared, op);
    }
    forall i | 0 <= i < |steps.value| && steps.value[i].MkdirP?
      ensures steps.value[i].target != []
    {
      StepsStayBelow(keg, declared, steps.value[i]);
    }
    r := PostInstall.ApplyPostInstall(linker, keg, steps.value);
  }
}
