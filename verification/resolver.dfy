/** The dependency resolver: the closure of the requested names and an order in
    which every package comes after its dependencies. */
module Resolver {
  import opened Names
  import opened Sets

  datatype Formula = Formula(
    name: Name,
    version: string,
    dependencies: seq<Name>,
    buildDependencies: seq<Name>,
    hasSource: bool,
    hasBottle: bool)

  type Formulas = map<Name, Formula>

  datatype ResolveError = MissingFormula(name: Name) | DependencyCycle(cycle: seq<Name>)

  datatype Result<+T> = Ok(value: T) | Err(error: ResolveError)

  function Elements(s: seq<Name>): set<Name> {
    set x | x in s
  }

  lemma ElementsAppend(s: seq<Name>, x: Name)
    ensures Elements(s + [x]) == Elements(s) + {x}
  {
  }

  /** The known dependencies of `n`; unknown ones are ignored. */
  function KnownDeps(fs: Formulas, n: Name): set<Name>
    requires n in fs
  {
    set d | d in fs[n].dependencies && d in fs
  }

  ghost predicate Closed(fs: Formulas, s: set<Name>) {
    forall n :: n in s && n in fs ==> KnownDeps(fs, n) <= s
  }

  /** The smallest closed set holding the roots. */
  ghost predicate IsClosure(roots: seq<Name>, fs: Formulas, s: set<Name>) {
    && Elements(roots) <= s && s <= fs.Keys && Closed(fs, s)
    && forall t :: Elements(roots) <= t && Closed(fs, t) ==> s <= t
  }

  /** Everything found so far is in every closed set that holds the roots. */
  ghost predicate Forced(roots: seq<Name>, fs: Formulas, s: set<Name>) {
    forall t :: Elements(roots) <= t && Closed(fs, t) ==> s <= t
  }

  /** Pushes the known dependencies of `name` that are not in the closure yet. */
  method PushDependencies(stack: seq<Name>, name: Name, fs: Formulas, closure: set<Name>) returns (r: seq<Name>)
    requires name in fs
    ensures stack <= r
    ensures forall i :: |stack| <= i < |r| ==> r[i] in KnownDeps(fs, name)
    ensures KnownDeps(fs, name) <= closure + Elements(r)
  {
    hide Sort;
    r := stack;
    var deps := Sort(fs[name].dependencies);
    SortKeeps(fs[name].dependencies);
    var i := 0;
    while i < |deps|
      invariant i <= |deps|
      invariant stack <= r
      invariant forall j :: |stack| <= j < |r| ==> r[j] in KnownDeps(fs, name)
      invariant forall j :: 0 <= j < i && deps[j] in fs ==> deps[j] in closure + Elements(r)
    {
      var dep := deps[i];
      if dep in fs && dep !in closure {
        ElementsAppend(r, dep);
        r := r + [dep];
      }
      i := i + 1;
    }
  }

  /** From position `k` on the stack holds known names. */
  ghost predicate Known(fs: Formulas, stack: seq<Name>, k: nat) {
    forall i :: k <= i < |stack| ==> stack[i] in fs
  }

  /** The state of the walk: of the roots the first `k` are still at the bottom of the stack. */
  ghost predicate Walk(roots: seq<Name>, fs: Formulas, closure: set<Name>, stack: seq<Name>, k: nat) {
    && k <= |roots| && k <= |stack| && stack[..k] == roots[..k]
    && (forall i :: k <= i < |roots| ==> roots[i] in fs)
    && Known(fs, stack, k) && closure <= fs.Keys
    && Elements(roots) <= closure + Elements(stack)
    && (forall n :: n in closure ==> KnownDeps(fs, n) <= closure + Elements(stack))
    && Forced(roots, fs, closure + Elements(stack))
  }

  lemma WalkStart(roots: seq<Name>, fs: Formulas)
    ensures Walk(roots, fs, {}, roots, |roots|)
  {
  }

  /** How far up the roots still reach once the top is taken off. */
  function RootsLeft(stack: seq<Name>, k: nat): nat {
    if k == |stack| > 0 then k - 1 else k
  }

  lemma WalkTop(roots: seq<Name>, fs: Formulas, closure: set<Name>, stack: seq<Name>, k: nat)
    requires Walk(roots, fs, closure, stack, k) && stack != []
    ensures var name := stack[|stack| - 1];
            && Elements(stack) == Elements(stack[..|stack| - 1]) + {name}
            && (name !in fs ==> k == |stack| && k > 0 && roots[k - 1] == name && forall j :: k <= j < |roots| ==> roots[j] in fs)
            && var left := RootsLeft(stack, k);
               && left <= |stack| - 1 && stack[..|stack| - 1][..left] == roots[..left]
               && Known(fs, stack[..|stack| - 1], left)
               && (left < k ==> left < |roots| && roots[left] == name)
  {
    var rest, name := stack[..|stack| - 1], stack[|stack| - 1];
    assert stack == rest + [name];
    ElementsAppend(rest, name);
    if k == |stack| {
      assert roots[k - 1] == stack[..k][k - 1] == name;
      assert roots[..k][..k - 1] == roots[..k - 1];
    }
  }

  /** The top was in the closure already. */
  lemma WalkSkip(roots: seq<Name>, fs: Formulas, closure: set<Name>, stack: seq<Name>, k: nat)
    requires Walk(roots, fs, closure, stack, k) && stack != [] && stack[|stack| - 1] in closure
    ensures Walk(roots, fs, closure, stack[..|stack| - 1], RootsLeft(stack, k))
  {
  }

  /** The top joined the closure and its dependencies went on the stack. */
  lemma WalkVisit(roots: seq<Name>, fs: Formulas, closure: set<Name>, stack: seq<Name>, k: nat, r: seq<Name>)
    requires Walk(roots, fs, closure, stack, k) && stack != [] && stack[|stack| - 1] in fs
    requires var name, rest := stack[|stack| - 1], stack[..|stack| - 1];
             && rest <= r && (forall i :: |rest| <= i < |r| ==> r[i] in KnownDeps(fs, name))
             && KnownDeps(fs, name) <= closure + {name} + Elements(r)
    ensures Walk(roots, fs, closure + {stack[|stack| - 1]}, r, RootsLeft(stack, k))
  {
    WalkTop(roots, fs, closure, stack, k);
    var name, rest := stack[|stack| - 1], stack[..|stack| - 1];
    var left, grown := RootsLeft(stack, k), closure + {name};
    assert r[..left] == rest[..left];
    forall i | left <= i < |r|
      ensures r[i] in fs
    {
      if i < |rest| {
        assert r[i] == rest[i];
      }
    }
    assert Elements(rest) <= Elements(r) by {
      assert forall i :: 0 <= i < |rest| ==> rest[i] == r[i];
    }
    assert closure + Elements(stack) <= grown + Elements(r);
    VisitForced(roots, fs, closure + Elements(stack), name, grown + Elements(r));
  }

  lemma VisitForced(roots: seq<Name>, fs: Formulas, before: set<Name>, name: Name, after: set<Name>)
    requires Forced(roots, fs, before) && name in before && name in fs
    requires after <= before + KnownDeps(fs, name)
    ensures Forced(roots, fs, after)
  {
  }

  lemma WalkEnd(roots: seq<Name>, fs: Formulas, closure: set<Name>, k: nat)
    requires Walk(roots, fs, closure, [], k)
    ensures IsClosure(roots, fs, closure) && forall n :: n in roots ==> n in fs
  {
  }

  /** Walks the dependencies of the roots with a stack. Only a root can be
      unknown; the last such root is reported. */
  method ComputeClosure(roots: seq<Name>, fs: Formulas) returns (r: Result<set<Name>>)
    ensures r.Ok? <==> forall n :: n in roots ==> n in fs
    ensures r.Ok? ==> IsClosure(roots, fs, r.value)
    ensures r.Err? ==> exists k :: 0 <= k < |roots| && r.error == MissingFormula(roots[k]) && roots[k] !in fs
                                   && forall j :: k < j < |roots| ==> roots[j] in fs
  {
    hide Sort, Walk, IsClosure;
    var closure: set<Name> := {};
    var stack := roots;
    ghost var k: nat := |roots|;
    WalkStart(roots, fs);
    while stack != []
      invariant Walk(roots, fs, closure, stack, k)
      decreases fs.Keys - closure, |stack|
    {
      ghost var before := stack;
      var name := stack[|stack| - 1];
      stack := stack[..|stack| - 1];
      if name in closure {
        WalkSkip(roots, fs, closure, before, k);
        k := RootsLeft(before, k);
        continue;
      }
      if name !in fs {
        WalkTop(roots, fs, closure, before, k);
        return Err(MissingFormula(name));
      }
      ghost var rest := stack;
      stack := PushDependencies(stack, name, fs, closure + {name});
      WalkVisit(roots, fs, closure, before, k, stack);
      closure := closure + {name};
      k := RootsLeft(before, k);
    }
    WalkEnd(roots, fs, closure, k);
    return Ok(closure);
  }

  // The graph.

  /** List positions of `deps` that name a member of `closure`. */
  function CountIn(deps: seq<Name>, closure: set<Name>): nat {
    if deps == [] then 0 else (if deps[0] in closure then 1 else 0) + CountIn(deps[1..], closure)
  }

  function DepsIn(deps: seq<Name>, closure: set<Name>): set<Name> {
    set d | d in deps && d in closure
  }

  predicate RepeatFree(deps: seq<Name>, closure: set<Name>) {
    deps == [] || ((deps[0] in closure ==> deps[0] !in deps[1..]) && RepeatFree(deps[1..], closure))
  }

  /** A list counts at least its distinct members, and exactly them when none is repeated. */
  lemma {:induction false} CountBounds(deps: seq<Name>, closure: set<Name>)
    ensures |DepsIn(deps, closure)| <= CountIn(deps, closure)
    ensures |DepsIn(deps, closure)| == CountIn(deps, closure) <==> RepeatFree(deps, closure)
  {
    if deps == [] {
      assert DepsIn(deps, closure) == {};
    } else {
      CountBounds(deps[1..], closure);
      var rest := DepsIn(deps[1..], closure);
      if deps[0] in closure {
        assert DepsIn(deps, closure) == rest + {deps[0]};
      } else {
        assert DepsIn(deps, closure) == rest;
      }
    }
  }

  lemma {:induction false} CountInsert(s: seq<Name>, n: Name, closure: set<Name>)
    ensures CountIn(Insert(s, n), closure) == CountIn([n] + s, closure)
  {
    if s != [] && !AtMost(n, s[0]) {
      CountInsert(s[1..], n, closure);
      assert ([n] + s)[1..] == s && ([n] + s[1..])[1..] == s[1..];
    }
  }

  lemma {:induction false} CountSort(s: seq<Name>, closure: set<Name>)
    ensures CountIn(Sort(s), closure) == CountIn(s, closure)
  {
    if s != [] {
      CountSort(s[1..], closure);
      CountInsert(Sort(s[1..]), s[0], closure);
      assert ([s[0]] + Sort(s[1..]))[1..] == Sort(s[1..]);
    }
  }

  lemma {:induction false} CountConcat(a: seq<Name>, b: seq<Name>, closure: set<Name>)
    ensures CountIn(a + b, closure) == CountIn(a, closure) + CountIn(b, closure)
  {
    if a == [] {
      assert a + b == b;
    } else {
      CountConcat(a[1..], b, closure);
      assert (a + b)[1..] == a[1..] + b;
    }
  }

  type InDegrees = map<Name, nat>
  type Adjacency = map<Name, set<Name>>

  function Followers(adjacency: Adjacency, d: Name): set<Name> {
    if d in adjacency then adjacency[d] else {}
  }

  /** The members of the closure that depend on `d`. */
  function Dependents(fs: Formulas, closure: set<Name>, d: Name): set<Name>
    requires closure <= fs.Keys
  {
    set n | n in closure && d in closure && d in fs[n].dependencies
  }

  /** Adds the edges into `name`; a dependency listed twice counts twice but gives one edge. */
  method AddEdges(name: Name, dependencies: seq<Name>, closure: set<Name>, adjacency: Adjacency)
    returns (count: nat, r: Adjacency)
    ensures count == CountIn(dependencies, closure)
    ensures forall d :: Followers(r, d) == Followers(adjacency, d) + if d in DepsIn(dependencies, closure) then {name} else {}
  {
    hide Sort;
    count, r := 0, adjacency;
    var deps := Sort(dependencies);
    SortKeeps(dependencies);
    CountSort(dependencies, closure);
    assert DepsIn(deps, closure) == DepsIn(dependencies, closure);
    var i := 0;
    while i < |deps|
      invariant i <= |deps|
      invariant count == CountIn(deps[..i], closure)
      invariant forall d :: Followers(r, d) == Followers(adjacency, d) + if d in DepsIn(deps[..i], closure) then {name} else {}
    {
      var dep := deps[i];
      assert deps[..i + 1] == deps[..i] + [dep];
      CountConcat(deps[..i], [dep], closure);
      assert forall d :: d in deps[..i + 1] <==> d in deps[..i] || d == dep;
      if dep in closure {
        count := count + 1;
        r := r[dep := Followers(r, dep) + {name}];
      }
      i := i + 1;
    }
    assert deps[..|deps|] == deps;
  }

  /** The graph is complete but for the packages in `todo`. */
  ghost predicate GraphExcept(fs: Formulas, closure: set<Name>, todo: set<Name>, indegree: InDegrees, adjacency: Adjacency)
    requires closure <= fs.Keys
  {
    && indegree.Keys == closure - todo
    && (forall n :: n in indegree ==> indegree[n] == CountIn(fs[n].dependencies, closure))
    && (forall d :: Followers(adjacency, d) == Dependents(fs, closure, d) - todo)
  }

  lemma GraphNext(fs: Formulas, closure: set<Name>, todo: set<Name>, name: Name, indegree: InDegrees, adjacency: Adjacency,
                  count: nat, more: Adjacency)
    requires closure <= fs.Keys && todo + {name} <= closure && name !in todo
    requires GraphExcept(fs, closure, todo + {name}, indegree, adjacency)
    requires count == CountIn(fs[name].dependencies, closure)
    requires forall d :: Followers(more, d) ==
                           Followers(adjacency, d) + if d in DepsIn(fs[name].dependencies, closure) then {name} else {}
    ensures GraphExcept(fs, closure, todo, indegree[name := count], more)
  {
  }

  method BuildGraph(closure: set<Name>, fs: Formulas) returns (indegree: InDegrees, adjacency: Adjacency)
    requires closure <= fs.Keys
    ensures indegree.Keys == closure
    ensures forall n :: n in closure ==> indegree[n] == CountIn(fs[n].dependencies, closure)
    ensures forall d :: Followers(adjacency, d) == Dependents(fs, closure, d)
  {
    indegree, adjacency := map[], map[];
    var todo := closure;
    while todo != {}
      invariant todo <= closure && GraphExcept(fs, closure, todo, indegree, adjacency)
      decreases |todo|
    {
      hide Sort, GraphExcept;
      var name := First(todo);
      assert todo == todo - {name} + {name};
      todo := todo - {name};
      var count, more := AddEdges(name, fs[name].dependencies, closure, adjacency);
      GraphNext(fs, closure, todo, name, indegree, adjacency, count, more);
      indegree, adjacency := indegree[name := count], more;
    }
  }

  // Taking packages whose dependencies are all placed, the smallest first.

  /** `n` can be placed: its dependencies are, and none is listed twice. */
  ghost predicate Placeable(fs: Formulas, closure: set<Name>, placed: set<Name>, n: Name)
    requires n in fs
  {
    DepsIn(fs[n].dependencies, closure) <= placed && RepeatFree(fs[n].dependencies, closure)
  }

  ghost function Waiting(fs: Formulas, closure: set<Name>, placed: set<Name>): set<Name>
    requires closure <= fs.Keys
  {
    set n | n in closure - placed && Placeable(fs, closure, placed, n)
  }

  /** Each element is the first of those that could be placed at its turn. */
  ghost predicate Greedy(fs: Formulas, closure: set<Name>, ordered: seq<Name>)
    requires closure <= fs.Keys
  {
    forall i :: 0 <= i < |ordered| ==> IsFirst(Waiting(fs, closure, Elements(ordered[..i])), ordered[i])
  }

  ghost predicate RightCount(fs: Formulas, closure: set<Name>, placed: set<Name>, n: Name, count: int)
    requires n in fs
  {
    var deps := fs[n].dependencies;
    count == CountIn(deps, closure) - |DepsIn(deps, closure) * placed|
  }

  lemma CountDecides(fs: Formulas, closure: set<Name>, placed: set<Name>, n: Name, count: int)
    requires n in fs && RightCount(fs, closure, placed, n, count)
    ensures count >= 0
    ensures count == 0 <==> Placeable(fs, closure, placed, n)
  {
    var deps := fs[n].dependencies;
    var all := DepsIn(deps, closure);
    CountBounds(deps, closure);
    Subset(all * placed, all);
    if count == 0 {
      assert all * placed == all;
    }
    if all <= placed {
      assert all * placed == all;
    }
  }

  /** What is placed has all its dependencies placed. */
  ghost predicate Settled(fs: Formulas, closure: set<Name>, placed: set<Name>)
    requires closure <= fs.Keys
  {
    forall n :: n in placed ==> n in closure && Placeable(fs, closure, placed, n)
  }

  /** The state of the pass: in-degrees and the ready set say what is placed. */
  ghost predicate Pass(fs: Formulas, closure: set<Name>, indegree: InDegrees, ready: set<Name>, placed: set<Name>)
    requires closure <= fs.Keys
  {
    && indegree.Keys == closure
    && (forall n :: n in closure ==> RightCount(fs, closure, placed, n, indegree[n]))
    && ready == Waiting(fs, closure, placed)
    && Settled(fs, closure, placed)
  }

  /** Halfway through the dependents of `name`: those in `todo` still count it. */
  ghost predicate Midway(fs: Formulas, closure: set<Name>, indegree: InDegrees, ready: set<Name>,
                         placed: set<Name>, name: Name, todo: set<Name>)
    requires closure <= fs.Keys
  {
    && Settled(fs, closure, placed) && name in Waiting(fs, closure, placed)
    && Counts(fs, closure, indegree, placed, name, todo)
    && ready == (Waiting(fs, closure, placed) - {name}) + (Waiting(fs, closure, placed + {name}) - todo)
  }

  lemma DependentCount(fs: Formulas, closure: set<Name>, placed: set<Name>, name: Name, n: Name)
    requires closure <= fs.Keys && n in closure && name in closure && name !in placed
    ensures var all := DepsIn(fs[n].dependencies, closure);
            |all * (placed + {name})| == |all * placed| + if n in Dependents(fs, closure, name) then 1 else 0
  {
    var all := DepsIn(fs[n].dependencies, closure);
    if name in all {
      assert all * (placed + {name}) == all * placed + {name};
    } else {
      assert all * (placed + {name}) == all * placed;
    }
  }

  lemma MidwayStart(fs: Formulas, closure: set<Name>, indegree: InDegrees, ready: set<Name>, placed: set<Name>, name: Name)
    requires closure <= fs.Keys && Pass(fs, closure, indegree, ready, placed) && name in ready
    ensures Midway(fs, closure, indegree, ready - {name}, placed, name, Dependents(fs, closure, name))
  {
    hide RightCount, Placeable, CountIn, DepsIn, RepeatFree;
    var todo := Dependents(fs, closure, name);
    forall n | n in closure
      ensures RightCount(fs, closure, if n in todo then placed else placed + {name}, n, indegree[n])
    {
      IndependentCount(fs, closure, placed, name, n, indegree[n]);
    }
    forall n | n in Waiting(fs, closure, placed + {name}) - todo
      ensures n in Waiting(fs, closure, placed)
    {
      WaitedBefore(fs, closure, placed, name, n);
    }
  }

  lemma IndependentCount(fs: Formulas, closure: set<Name>, placed: set<Name>, name: Name, n: Name, count: int)
    requires closure <= fs.Keys && n in closure && name in closure && name !in placed
    requires RightCount(fs, closure, placed, n, count)
    ensures n !in Dependents(fs, closure, name) ==> RightCount(fs, closure, placed + {name}, n, count)
  {
    DependentCount(fs, closure, placed, name, n);
    hide CountIn;
  }

  lemma WaitedBefore(fs: Formulas, closure: set<Name>, placed: set<Name>, name: Name, n: Name)
    requires closure <= fs.Keys && name in closure
    requires n in Waiting(fs, closure, placed + {name}) && n !in Dependents(fs, closure, name)
    ensures n in Waiting(fs, closure, placed)
  {
  }

  lemma MidwayStep(fs: Formulas, closure: set<Name>, indegree: InDegrees, ready: set<Name>, placed: set<Name>,
                   name: Name, todo: set<Name>, child: Name)
    requires closure <= fs.Keys
    requires Midway(fs, closure, indegree, ready, placed, name, todo)
    requires child in todo && todo <= Dependents(fs, closure, name)
    ensures indegree.Keys == closure && indegree[child] >= 1
    ensures Midway(fs, closure, indegree[child := indegree[child] - 1],
                   if indegree[child] == 1 then ready + {child} else ready, placed, name, todo - {child})
  {
    var before: int := indegree[child];
    var count := before - 1;
    DependentCount(fs, closure, placed, name, child);
    assert RightCount(fs, closure, placed + {name}, child, count);
    CountDecides(fs, closure, placed + {name}, child, count);
    DependentUnplaced(fs, closure, placed, name, child);
    hide CountIn, RepeatFree, DepsIn, RightCount, Placeable;
    hide Counts;
    var now, next := Waiting(fs, closure, placed), Waiting(fs, closure, placed + {name});
    assert child in next <==> count == 0;
    hide Waiting, Dependents, Settled;
    ReadyStep(now - {name}, next, todo, child, ready, count == 0);
    CountsStep(fs, closure, indegree, placed, name, todo, child, count);
  }

  ghost predicate Counts(fs: Formulas, closure: set<Name>, indegree: InDegrees, placed: set<Name>, name: Name, todo: set<Name>)
    requires closure <= fs.Keys
  {
    && indegree.Keys == closure
    && forall n :: n in closure ==> RightCount(fs, closure, if n in todo then placed else placed + {name}, n, indegree[n])
  }

  lemma CountsStep(fs: Formulas, closure: set<Name>, indegree: InDegrees, placed: set<Name>, name: Name, todo: set<Name>,
                   child: Name, count: nat)
    requires closure <= fs.Keys && child in closure && Counts(fs, closure, indegree, placed, name, todo)
    requires RightCount(fs, closure, placed + {name}, child, count)
    ensures Counts(fs, closure, indegree[child := count], placed, name, todo - {child})
  {
    hide RightCount;
  }

  lemma ReadyStep(now: set<Name>, next: set<Name>, todo: set<Name>, child: Name, ready: set<Name>, zero: bool)
    requires ready == now + (next - todo) && child in todo && (child in next <==> zero)
    ensures (if zero then ready + {child} else ready) == now + (next - (todo - {child}))
  {
  }

  /** A dependent of the package being placed is not placed itself. */
  lemma DependentUnplaced(fs: Formulas, closure: set<Name>, placed: set<Name>, name: Name, child: Name)
    requires closure <= fs.Keys && Settled(fs, closure, placed)
    requires name in Waiting(fs, closure, placed) && child in Dependents(fs, closure, name)
    ensures child !in placed + {name}
  {
  }

  lemma MidwayEnd(fs: Formulas, closure: set<Name>, indegree: InDegrees, ready: set<Name>, placed: set<Name>, name: Name)
    requires closure <= fs.Keys && Midway(fs, closure, indegree, ready, placed, name, {})
    ensures Pass(fs, closure, indegree, ready, placed + {name})
  {
  }

  /** Lists a set in ascending order. */
  method ListAscending(s: set<Name>) returns (r: seq<Name>)
    ensures Ascending(r) && Elements(r) == s
  {
    r := [];
    var todo := s;
    while todo != {}
      invariant todo <= s && Elements(r) == s - todo
      invariant Ascending(r)
      invariant forall x, y :: x in r && y in todo ==> Less(x, y)
      decreases |todo|
    {
      var n := First(todo);
      ElementsAppend(r, n);
      r := r + [n];
      todo := todo - {n};
    }
  }

  /** One package taken: its dependents' in-degrees go down, and those reaching zero become ready. */
  method Place(name: Name, children: set<Name>, indegree: InDegrees, ready: set<Name>,
               ghost fs: Formulas, ghost closure: set<Name>, ghost placed: set<Name>)
    returns (degrees: InDegrees, next: set<Name>)
    requires closure <= fs.Keys && name in ready && Pass(fs, closure, indegree, ready, placed)
    requires children == Dependents(fs, closure, name)
    ensures Pass(fs, closure, degrees, next, placed + {name})
  {
    hide Pass, Midway;
    MidwayStart(fs, closure, indegree, ready, placed, name);
    degrees, next := indegree, ready - {name};
    var todo := children;
    while todo != {}
      invariant todo <= children
      invariant Midway(fs, closure, degrees, next, placed, name, todo)
      decreases |todo|
    {
      var child := First(todo);
      MidwayStep(fs, closure, degrees, next, placed, name, todo, child);
      todo := todo - {child};
      degrees := degrees[child := degrees[child] - 1];
      if degrees[child] == 0 {
        next := next + {child};
      }
    }
    MidwayEnd(fs, closure, degrees, next, placed, name);
  }

  lemma PassStart(fs: Formulas, closure: set<Name>, indegree: InDegrees, ready: set<Name>)
    requires closure <= fs.Keys && indegree.Keys == closure
    requires forall n :: n in closure ==> indegree[n] == CountIn(fs[n].dependencies, closure)
    requires ready == set n | n in closure && indegree[n] == 0
    ensures Pass(fs, closure, indegree, ready, {})
  {
    forall n | n in closure
      ensures RightCount(fs, closure, {}, n, indegree[n])
      ensures indegree[n] == 0 <==> Placeable(fs, closure, {}, n)
    {
      assert DepsIn(fs[n].dependencies, closure) * {} == {};
      CountDecides(fs, closure, {}, n, indegree[n]);
    }
  }

  lemma PassEnd(fs: Formulas, closure: set<Name>, indegree: InDegrees, placed: set<Name>)
    requires closure <= fs.Keys && Pass(fs, closure, indegree, {}, placed)
    ensures (set n | n in closure && indegree[n] > 0) == closure - placed
  {
    forall n | n in closure
      ensures indegree[n] > 0 <==> n !in placed
    {
      CountDecides(fs, closure, placed, n, indegree[n]);
      assert n !in Waiting(fs, closure, placed);
    }
  }

  /** `ordered` lists what the pass places before it gets stuck or is done. */
  ghost predicate Outcome(fs: Formulas, closure: set<Name>, ordered: seq<Name>)
    requires closure <= fs.Keys
  {
    && Greedy(fs, closure, ordered)
    && Elements(ordered) <= closure && |ordered| == |Elements(ordered)|
    && Waiting(fs, closure, Elements(ordered)) == {}
  }

  /** Takes packages until none is ready. */
  method PlaceAll(fs: Formulas, closure: set<Name>, degrees: InDegrees, adjacency: Adjacency)
    returns (ordered: seq<Name>, indegree: InDegrees)
    requires closure <= fs.Keys && degrees.Keys == closure
    requires forall n :: n in closure ==> degrees[n] == CountIn(fs[n].dependencies, closure)
    requires forall d :: Followers(adjacency, d) == Dependents(fs, closure, d)
    ensures Outcome(fs, closure, ordered) && indegree.Keys == closure
    ensures (set n | n in closure && indegree[n] > 0) == closure - Elements(ordered)
  {
    indegree := degrees;
    var ready := set n | n in closure && indegree[n] == 0;
    PassStart(fs, closure, indegree, ready);
    ordered := [];
    assert Elements(ordered) == {};
    hide CountIn, RepeatFree, DepsIn, Placeable, RightCount, Settled, Waiting;
    while ready != {}
      invariant Pass(fs, closure, indegree, ready, Elements(ordered))
      invariant Greedy(fs, closure, ordered)
      invariant Elements(ordered) <= closure && |ordered| == |Elements(ordered)|
      decreases closure - Elements(ordered)
    {
      var name := First(ready);
      ReadyIsNew(fs, closure, indegree, ready, Elements(ordered), name);
      ElementsAppend(ordered, name);
      GreedyAppend(fs, closure, ordered, name);
      hide Greedy, Pass, Elements, Dependents;
      indegree, ready := Place(name, Followers(adjacency, name), indegree, ready, fs, closure, Elements(ordered));
      ordered := ordered + [name];
    }
    PassEnd(fs, closure, indegree, Elements(ordered));
  }

  lemma ReadyIsNew(fs: Formulas, closure: set<Name>, indegree: InDegrees, ready: set<Name>, placed: set<Name>, name: Name)
    requires closure <= fs.Keys && Pass(fs, closure, indegree, ready, placed) && name in ready
    ensures name in closure && name !in placed && ready == Waiting(fs, closure, placed)
  {
  }

  /** The order of installation, or the packages no order can place. */
  method ResolveClosure(roots: seq<Name>, fs: Formulas) returns (r: Result<seq<Name>>, ghost closure: set<Name>, ghost ordered: seq<Name>)
    ensures r.Err? && r.error.MissingFormula? <==> exists n :: n in roots && n !in fs
    ensures r.Err? && r.error.MissingFormula? ==>
              exists k :: 0 <= k < |roots| && r.error.name == roots[k] && roots[k] !in fs && forall j :: k < j < |roots| ==> roots[j] in fs
    ensures !(r.Err? && r.error.MissingFormula?) ==> IsClosure(roots, fs, closure) && Outcome(fs, closure, ordered)
    ensures r.Ok? ==> r.value == ordered && Elements(ordered) == closure
    ensures r.Err? && r.error.DependencyCycle? ==>
              Elements(ordered) != closure && Ascending(r.error.cycle) && Elements(r.error.cycle) == closure - Elements(ordered)
  {
    hide Greedy, Waiting, Dependents, CountIn;
    closure, ordered := {}, [];
    var c := ComputeClosure(roots, fs);
    if c.Err? {
      return Err(c.error), {}, [];
    }
    closure := c.value;
    var indegree, adjacency := BuildGraph(c.value, fs);
    var order, degrees := PlaceAll(fs, c.value, indegree, adjacency);
    ordered := order;
    if |order| != |c.value| {
      var stuck := set n | n in c.value && degrees[n] > 0;
      var cycle := ListAscending(stuck);
      return Err(DependencyCycle(cycle)), closure, ordered;
    }
    Subset(Elements(order), closure);
    return Ok(order), closure, ordered;
  }

  lemma GreedyAppend(fs: Formulas, closure: set<Name>, ordered: seq<Name>, n: Name)
    requires closure <= fs.Keys && Greedy(fs, closure, ordered)
    requires IsFirst(Waiting(fs, closure, Elements(ordered)), n)
    ensures Greedy(fs, closure, ordered + [n])
  {
    var longer := ordered + [n];
    forall i | 0 <= i < |longer|
      ensures IsFirst(Waiting(fs, closure, Elements(longer[..i])), longer[i])
    {
      if i < |ordered| {
        assert longer[..i] == ordered[..i];
      } else {
        assert longer[..i] == ordered;
      }
    }
  }
}
