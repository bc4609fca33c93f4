/** The templates allowed in declared post-install paths. */
module Templates {
  import opened Options
  import opened Text

  datatype Variable = FormulaName | VersionMajor

  /** What a keg supplies for the variables. */
  datatype KegVars = KegVars(formulaName: string, versionMajor: string)

  /** Literal text, with variables in between. */
  datatype Template = Text(literal: string) | Use(literal: string, variable: Variable, rest: Template)

  function Name(v: Variable): string {
    match v
    case FormulaName => "formula_name"
    case VersionMajor => "version.major"
  }

  function Value(vars: KegVars, v: Variable): string {
    match v
    case FormulaName => vars.formulaName
    case VersionMajor => vars.versionMajor
  }

  function Lookup(name: string): Option<Variable> {
    if name == Name(FormulaName) then Some(FormulaName)
    else if name == Name(VersionMajor) then Some(VersionMajor)
    else None
  }

  function Opening(): string { "{{" }

  function Closing(): string { "}}" }

  /** How a template is written down. */
  function Print(t: Template): string {
    match t
    case Text(l) => l
    case Use(l, v, rest) => l + Opening() + Name(v) + Closing() + Print(rest)
  }

  /** What it stands for. */
  function Substitute(t: Template, vars: KegVars): string {
    match t
    case Text(l) => l
    case Use(l, v, rest) => l + Value(vars, v) + Substitute(rest, vars)
  }

  predicate Plain(l: string) {
    Find(l, Opening()).None? && Find(l, Closing()).None?
  }

  /** No literal holds a brace pair, and none before a variable ends in an opening brace. */
  predicate WellFormed(t: Template) {
    match t
    case Text(l) => Plain(l)
    case Use(l, _, rest) => Plain(l) && (l == "" || l[|l| - 1] != '{') && WellFormed(rest)
  }

  /** Reads a template from the left. */
  function Parse(s: string): Option<Template>
    decreases |s|
  {
    match Find(s, Opening())
    case None => if Find(s, Closing()).Some? then None else Some(Text(s))
    case Some(start) =>
      if Find(s[..start], Closing()).Some? then None
      else
        match Find(s[start + 2..], Closing())
        case None => None
        case Some(end) =>
          match Lookup(s[start + 2..][..end])
          case None => None
          case Some(v) =>
            match Parse(s[start + 2..][end + 2..])
            case None => None
            case Some(rest) => Some(Use(s[..start], v, rest))
  }

  function Expansion(s: string, vars: KegVars): Option<string> {
    match Parse(s)
    case None => None
    case Some(t) => Some(Substitute(t, vars))
  }

  function Prepend(out: string, r: Option<string>): Option<string> {
    match r
    case None => None
    case Some(x) => Some(out + x)
  }

  // The loop.

  /** One variable further: what the loop does between two openings. */
  lemma ExpansionStep(s: string, vars: KegVars, start: nat, end: nat, v: Variable)
    requires Find(s, Opening()) == Some(start) && start + 2 <= |s|
    requires Find(s[..start], Closing()) == None
    requires Find(s[start + 2..], Closing()) == Some(end) && end + 2 <= |s[start + 2..]|
    requires Lookup(s[start + 2..][..end]) == Some(v)
    ensures Expansion(s, vars) == Prepend(s[..start] + Value(vars, v), Expansion(s[start + 2..][end + 2..], vars))
  {
  }

  lemma ExpansionFails(s: string, vars: KegVars, start: nat)
    requires Find(s, Opening()) == Some(start) && start + 2 <= |s|
    requires || Find(s[..start], Closing()).Some?
             || Find(s[start + 2..], Closing()).None?
             || (&& Find(s[start + 2..], Closing()).value <= |s[start + 2..]|
                 && Lookup(s[start + 2..][..Find(s[start + 2..], Closing()).value]).None?)
    ensures Expansion(s, vars) == None
  {
  }

  lemma PrependTwice(a: string, b: string, r: Option<string>)
    ensures Prepend(a, Prepend(b, r)) == Prepend(a + b, r)
  {
    if r.Some? {
      assert a + (b + r.value) == a + b + r.value;
    }
  }

  /** Expands `value`, or refuses it. */
  method Expand(vars: KegVars, value: string) returns (r: Option<string>)
    ensures r == Expansion(value, vars)
  {
    hide Substitute, Find, Expansion, Prepend, Opening, Closing;
    var first := Find(value, Opening());
    if first.None? {
      NoVariable(value, vars);
      return if Find(value, Closing()).Some? then None else Some(value);
    }
    var out, rest, start := "", value, first.value;
    FindFits(rest, Opening(), start);
    PrependNothing(Expansion(value, vars));
    while true
      invariant Find(rest, Opening()) == Some(start) && start + 2 <= |rest|
      invariant Expansion(value, vars) == Prepend(out, Expansion(rest, vars))
      decreases |rest|
    {
      var literal := rest[..start];
      if Find(literal, Closing()).Some? {
        ExpansionFails(rest, vars, start);
        PrependNone(out);
        return None;
      }
      var after := rest[start + 2..];
      var close := Find(after, Closing());
      if close.None? {
        ExpansionFails(rest, vars, start);
        PrependNone(out);
        return None;
      }
      var end := close.value;
      FindFits(after, Closing(), end);
      var v := Lookup(after[..end]);
      if v.None? {
        ExpansionFails(rest, vars, start);
        PrependNone(out);
        return None;
      }
      ExpansionStep(rest, vars, start, end, v.value);
      PrependTwice(out, literal + Value(vars, v.value), Expansion(after[end + 2..], vars));
      out := out + (literal + Value(vars, v.value));
      rest := after[end + 2..];
      var next := Find(rest, Opening());
      if next.None? {
        NoVariable(rest, vars);
        if Find(rest, Closing()).Some? {
          PrependNone(out);
          return None;
        }
        break;
      }
      start := next.value;
      FindFits(rest, Opening(), start);
    }
    r := Some(out + rest);
    PrependSome(out, rest);
  }

  lemma NoVariable(s: string, vars: KegVars)
    requires Find(s, Opening()) == None
    ensures Expansion(s, vars) == if Find(s, Closing()).Some? then None else Some(s)
  {
  }

  lemma FindFits(s: string, pat: string, k: nat)
    requires Find(s, pat) == Some(k)
    ensures k + |pat| <= |s|
    ensures |Opening()| == |Closing()| == 2
  {
  }

  lemma PrependNothing(r: Option<string>)
    ensures Prepend("", r) == r
  {
    if r.Some? {
      assert "" + r.value == r.value;
    }
  }

  lemma PrependNone(out: string)
    ensures Prepend(out, None) == None
  {
  }

  lemma PrependSome(out: string, rest: string)
    ensures Prepend(out, Some(rest)) == Some(out + rest)
  {
  }

  // What is accepted.

  lemma Names(v: Variable)
    ensures Lookup(Name(v)) == Some(v)
    ensures forall i :: 0 <= i < |Name(v)| ==> Name(v)[i] != '}' && Name(v)[i] != '{'
  {
  }

  lemma LookupIs(name: string, v: Variable)
    requires Lookup(name) == Some(v)
    ensures name == Name(v)
  {
  }

  /** What the reader accepts is a well-formed template written down. */
  lemma {:induction false} ParsePrints(s: string, t: Template)
    requires Parse(s) == Some(t)
    ensures WellFormed(t) && Print(t) == s
    decreases |s|
  {
    if Find(s, Opening()).Some? {
      var start := Find(s, Opening()).value;
      var after := s[start + 2..];
      var end := Find(after, Closing()).value;
      LookupIs(after[..end], t.variable);
      ParsePrints(after[end + 2..], t.rest);
      NoEarlierOpening(s, start);
      hide Find, Lookup, Name, Parse, Occurs;
      CutAt(s, Opening(), start);
      CutAt(after, Closing(), end);
      Nest(s[..start], Opening(), Name(t.variable), Closing(), after[end + 2..]);
    }
  }

  lemma CutAt(s: string, pat: string, k: nat)
    requires Find(s, pat) == Some(k)
    ensures k + |pat| <= |s| && s == s[..k] + pat + s[k + |pat|..]
  {
    hide Find;
    assert Occurs(s, pat, k);
    assert s == s[..k] + s[k..k + |pat|] + s[k + |pat|..];
  }

  lemma Nest(a: string, b: string, c: string, d: string, e: string)
    ensures a + b + (c + d + e) == a + b + c + d + e
  {
  }

  lemma NoEarlierOpening(s: string, start: nat)
    requires Find(s, Opening()) == Some(start)
    ensures start + 2 <= |s| && Find(s[..start], Opening()) == None
    ensures start > 0 ==> s[start - 1] != '{'
  {
    hide Find;
    assert Occurs(s, Opening(), start);
    forall j: nat
      ensures !Occurs(s[..start], Opening(), j)
    {
      if j + 2 <= start {
        assert s == s[..start] + s[start..];
        OccursWithin(s[..start], s[start..], Opening(), j);
      }
    }
    if start > 0 {
      assert !Occurs(s, Opening(), start - 1);
      CharAt(s, Opening(), start, 0);
      assert s[start - 1..start + 1] == [s[start - 1], '{'];
    }
  }

  /** Every well-formed template is read back as it was. */
  lemma {:induction false} PrintParses(t: Template)
    requires WellFormed(t)
    ensures Parse(Print(t)) == Some(t)
  {
    match t
    case Text(_) =>
    case Use(l, v, rest) =>
      PrintParses(rest);
      PrintedUseParses(l, v, rest, Print(rest));
      assert Print(t) == l + Opening() + Name(v) + Closing() + Print(rest);
  }

  lemma PrintedUseParses(l: string, v: Variable, rest: Template, tail: string)
    requires Plain(l) && (l == "" || l[|l| - 1] != '{') && Parse(tail) == Some(rest)
    ensures Parse(l + Opening() + Name(v) + Closing() + tail) == Some(Use(l, v, rest))
  {
    OpeningFound(l, Name(v) + Closing() + tail);
    ClosingFound(v, tail);
    Names(v);
    hide *;
    var s := l + Opening() + (Name(v) + Closing() + tail);
    Nest(l, Opening(), Name(v), Closing(), tail);
    ParseUse(l, v, rest, tail, s);
  }

  lemma ParseUse(l: string, v: Variable, rest: Template, tail: string, s: string)
    requires Plain(l) && Lookup(Name(v)) == Some(v) && Parse(tail) == Some(rest)
    requires s == l + Opening() + (Name(v) + Closing() + tail)
    requires Find(s, Opening()) == Some(|l|)
    requires Find(Name(v) + Closing() + tail, Closing()) == Some(|Name(v)|)
    ensures Parse(s) == Some(Use(l, v, rest))
  {
    hide Find, Lookup, Name;
    var after := s[|l| + 2..];
    assert s[..|l|] == l && after == Name(v) + Closing() + tail;
    assert after[..|Name(v)|] == Name(v) && after[|Name(v)| + 2..] == tail;
  }

  lemma OpeningFound(l: string, rest: string)
    requires Plain(l) && (l == "" || l[|l| - 1] != '{')
    ensures Find(l + Opening() + rest, Opening()) == Some(|l|)
  {
    var s := l + Opening() + rest;
    assert s[|l|..|l| + 2] == Opening();
    forall j: nat | j < |l|
      ensures !Occurs(s, Opening(), j)
    {
      if j + 2 <= |l| {
        assert s[j..j + 2] == l[j..j + 2];
        assert !Occurs(l, Opening(), j);
      } else {
        assert s[j..j + 2][0] == l[|l| - 1];
      }
    }
    FindIs(s, Opening(), |l|);
  }

  lemma ClosingFound(v: Variable, tail: string)
    ensures Find(Name(v) + Closing() + tail, Closing()) == Some(|Name(v)|)
  {
    Names(v);
    hide Name, Lookup;
    var s := Name(v) + Closing() + tail;
    assert s[|Name(v)|..|Name(v)| + 2] == Closing();
    forall j: nat | j < |Name(v)|
      ensures !Occurs(s, Closing(), j)
    {
      if j + 2 <= |s| {
        assert s[j..j + 2][0] == Name(v)[j];
      }
    }
    FindIs(s, Closing(), |Name(v)|);
  }

  /** Expansion accepts exactly the well-formed templates, in one way, and
      substitutes; what it puts in is never expanded again. */
  lemma ExpandsExactly(s: string, vars: KegVars)
    ensures Expansion(s, vars).Some? <==> exists t :: WellFormed(t) && Print(t) == s
    ensures forall t :: WellFormed(t) && Print(t) == s ==> Expansion(s, vars) == Some(Substitute(t, vars))
  {
    if Parse(s).Some? {
      ParsePrints(s, Parse(s).value);
    }
    forall t | WellFormed(t) && Print(t) == s
      ensures Parse(s) == Some(t)
    {
      PrintParses(t);
    }
    hide Parse, WellFormed, Print, Substitute;
  }

  /** Two readings of one text are the same. */
  lemma ReadingIsUnique(a: Template, b: Template)
    requires WellFormed(a) && WellFormed(b) && Print(a) == Print(b)
    ensures a == b
  {
    PrintParses(a);
    PrintParses(b);
  }

  predicate HasSeparator(s: string) {
    '/' in s || '\\' in s
  }

  /** The names of a path, cut at every separator. */
  function Components(path: string): (c: seq<string>)
    ensures c != []
  {
    if path == "" then [""] else Prefixed(path[0], Components(path[1..]))
  }

  /** One character in front of a path. */
  function Prefixed(c: char, names: seq<string>): seq<string>
    requires names != []
  {
    if HasSeparator([c]) then [""] + names else [[c] + names[0]] + names[1..]
  }

  /** `tail` behind the last name. */
  function Longer(names: seq<string>, tail: string): seq<string>
    requires names != []
  {
    names[..|names| - 1] + [names[|names| - 1] + tail]
  }

  /** Put behind a path, `tail` changes its last name and adds none. */
  ghost predicate StaysInName(tail: string) {
    forall path :: Components(path + tail) == Longer(Components(path), tail)
  }

  lemma PrefixedLonger(c: char, names: seq<string>, tail: string)
    requires names != []
    ensures Prefixed(c, Longer(names, tail)) == Longer(Prefixed(c, names), tail)
  {
    if |names| == 1 {
      assert [c] + (names[0] + tail) == [c] + names[0] + tail;
    }
  }

  lemma {:induction false} OneName(tail: string)
    requires !HasSeparator(tail)
    ensures Components(tail) == [tail]
  {
    if tail != "" {
      OneName(tail[1..]);
      assert [tail[0]] + tail[1..] == tail;
    }
  }

  lemma {:induction false} NoNewName(path: string, tail: string)
    requires !HasSeparator(tail)
    ensures Components(path + tail) == Longer(Components(path), tail)
  {
    if path == "" {
      OneName(tail);
      assert path + tail == tail;
    } else {
      NoNewName(path[1..], tail);
      PrefixedLonger(path[0], Components(path[1..]), tail);
      hide HasSeparator, Prefixed, Longer;
      assert (path + tail)[1..] == path[1..] + tail && (path + tail)[0] == path[0];
    }
  }

  lemma {:induction false} SeparatorSplits(tail: string)
    requires HasSeparator(tail)
    ensures |Components(tail)| > 1
  {
    if !HasSeparator([tail[0]]) {
      SeparatorSplits(tail[1..]);
    }
  }

  lemma SeparatorsMatter(tail: string)
    ensures StaysInName(tail) <==> !HasSeparator(tail)
  {
    if HasSeparator(tail) {
      SeparatorSplits(tail);
      assert "" + tail == tail;
      assert Components("" + tail) != Longer(Components(""), tail);
    } else {
      forall path
        ensures Components(path + tail) == Longer(Components(path), tail)
      {
        NoNewName(path, tail);
      }
    }
  }

  function SuffixOf(vars: KegVars, suffix: string): Option<string> {
    var r := Expansion(suffix, vars);
    if r.Some? && HasSeparator(r.value) then None else r
  }

  /** A link suffix: a template whose expansion never adds a path component. */
  method Suffix(vars: KegVars, suffix: string) returns (r: Option<string>)
    ensures r == SuffixOf(vars, suffix)
    ensures r.Some? ==> exists t :: WellFormed(t) && Print(t) == suffix
    ensures forall t :: WellFormed(t) && Print(t) == suffix ==>
              r == if StaysInName(Substitute(t, vars)) then Some(Substitute(t, vars)) else None
  {
    ExpandsExactly(suffix, vars);
    if Expansion(suffix, vars).Some? {
      SeparatorsMatter(Expansion(suffix, vars).value);
    }
    hide Expansion, WellFormed, Print, Substitute, StaysInName;
    r := Expand(vars, suffix);
    if r.Some? && HasSeparator(r.value) {
      return None;
    }
  }
}
