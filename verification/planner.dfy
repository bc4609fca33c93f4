/** From requested names to an ordered install plan. */
module Planner {
  import opened Names
  import opened Resolver
  import opened ResolverLaws

  /** What the registry answers for a name. */
  datatype Reply = Has(formula: Formula) | Unreadable | Broken

  type Registry = map<Name, Reply>

  /** The version of the keg that is found for a name, if any. */
  type Installed = map<Name, string>

  datatype Request = Request(names: seq<Name>, buildFromSource: bool, force: seq<Name>, upgradeInstalled: bool)

  datatype PlanError = FetchFailed(name: Name) | UnsupportedBottle(name: Name) | Unresolved(error: ResolveError)

  datatype Planned<+T> = Plan(value: T) | NoPlan(error: PlanError)

  datatype InstallMethod = Bottle | Source

  datatype Item = Item(installName: Name, formula: Formula, how: InstallMethod)

  function Answer(remote: Registry, n: Name): Reply {
    if n in remote then remote[n] else Unreadable
  }

  // Two decisions, written down separately.

  /** Asked before the graph is built: is this formula going to be compiled? */
  function NeedsSourceBuild(installed: Installed, req: Request, n: Name, f: Formula): bool {
    if !f.hasSource then false
    else
      var forced := n in req.force;
      if !forced && n in installed && (!req.upgradeInstalled || installed[n] == f.version) then false
      else if !req.buildFromSource && !forced && n !in req.names && !f.hasBottle && n in installed then false
      else req.buildFromSource || !f.hasBottle
  }

  datatype Decision = Skip | Keep | Take(how: InstallMethod) | Refuse

  /** Taken when the plan is written. */
  function Decide(installed: Installed, req: Request, n: Name, f: Formula): Decision {
    if n !in req.force && n in installed && (!req.upgradeInstalled || installed[n] == f.version) then Skip
    else if !req.buildFromSource && n !in req.names && n !in req.force && !f.hasBottle && n in installed then Keep
    else if req.buildFromSource then
      if f.hasSource then Take(Source) else if f.hasBottle then Take(Bottle) else Refuse
    else if f.hasBottle then Take(Bottle)
    else if f.hasSource then Take(Source)
    else Refuse
  }

  /** The two decide alike. */
  lemma DecisionsAgree(installed: Installed, req: Request, n: Name, f: Formula)
    ensures NeedsSourceBuild(installed, req, n, f) <==> Decide(installed, req, n, f) == Take(Source)
  {
  }

  // Fetching.

  function Wanted(installed: Installed, req: Request, n: Name, f: Formula): seq<Name> {
    f.dependencies + if NeedsSourceBuild(installed, req, n, f) then f.buildDependencies else []
  }

  /** An installed dependency stands in for a formula that cannot be read or used. */
  predicate KeptAsIs(remote: Registry, installed: Installed, req: Request, n: Name) {
    && n !in req.names && n in installed
    && match Answer(remote, n)
       case Has(f) => !f.hasBottle && !f.hasSource
       case Unreadable => true
       case Broken => false
  }

  predicate Usable(remote: Registry, n: Name) {
    Answer(remote, n).Has? && (Answer(remote, n).formula.hasBottle || Answer(remote, n).formula.hasSource)
  }

  function Mentioned(remote: Registry, req: Request): set<Name> {
    (set n | n in req.names)
    + (set m, d | m in remote && remote[m].Has? && d in remote[m].formula.dependencies :: d)
    + (set m, d | m in remote && remote[m].Has? && d in remote[m].formula.buildDependencies :: d)
  }

  /** What has been fetched, what is being processed, and what is still to be fetched fit together. */
  ghost predicate Fetching(remote: Registry, installed: Installed, req: Request, formulas: Formulas,
                           fetched: set<Name>, pending: set<Name>, toFetch: seq<Name>)
  {
    && fetched <= Mentioned(remote, req) && Elements(toFetch) <= Mentioned(remote, req) && pending <= fetched
    && Elements(req.names) <= fetched + Elements(toFetch)
    && (forall n :: n in formulas ==> Usable(remote, n) && Answer(remote, n) == Has(formulas[n]) && n in fetched)
    && (forall n :: n in fetched ==> n in formulas || n in pending || KeptAsIs(remote, installed, req, n))
    && (forall n, d :: n in formulas && d in Wanted(installed, req, n, formulas[n]) ==> d in fetched || d in toFetch)
  }

  /** Nothing is left to fetch. */
  ghost predicate AllFetched(remote: Registry, installed: Installed, req: Request, formulas: Formulas) {
    && (forall n :: n in req.names ==> n in formulas)
    && (forall n :: n in formulas ==> Usable(remote, n) && Answer(remote, n) == Has(formulas[n]))
    && (forall n, d :: n in formulas && d in Wanted(installed, req, n, formulas[n]) ==>
          d in formulas || KeptAsIs(remote, installed, req, d))
  }

  /** A set that holds the requested names and everything its members need, all of it usable or kept as installed. */
  ghost predicate NeedsMet(remote: Registry, installed: Installed, req: Request, s: set<Name>) {
    && Elements(req.names) <= s
    && forall n :: n in s ==>
         || KeptAsIs(remote, installed, req, n)
         || (Usable(remote, n) && Elements(Wanted(installed, req, n, Answer(remote, n).formula)) <= s)
  }

  ghost predicate Fetchable(remote: Registry, installed: Installed, req: Request) {
    exists s :: NeedsMet(remote, installed, req, s)
  }

  /** Nothing is asked for that is not needed. */
  ghost predicate OnlyNeeded(remote: Registry, installed: Installed, req: Request, asked: set<Name>) {
    forall s :: NeedsMet(remote, installed, req, s) ==> asked <= s
  }

  lemma NeededToo(remote: Registry, installed: Installed, req: Request, asked: set<Name>, n: Name, more: set<Name>)
    requires OnlyNeeded(remote, installed, req, asked) && n in asked && Usable(remote, n)
    requires more <= asked + Elements(Wanted(installed, req, n, Answer(remote, n).formula))
    ensures OnlyNeeded(remote, installed, req, more)
  {
    hide Mentioned, Wanted;
    forall s | NeedsMet(remote, installed, req, s)
      ensures more <= s
    {
      assert !KeptAsIs(remote, installed, req, n);
    }
  }

  lemma NotFetchable(remote: Registry, installed: Installed, req: Request, asked: set<Name>, n: Name)
    requires OnlyNeeded(remote, installed, req, asked) && n in asked
    requires !Usable(remote, n) && !KeptAsIs(remote, installed, req, n)
    ensures !Fetchable(remote, installed, req)
  {
  }

  lemma FetchedMeetsNeeds(remote: Registry, installed: Installed, req: Request, formulas: Formulas)
    requires AllFetched(remote, installed, req, formulas)
    ensures Fetchable(remote, installed, req)
  {
    var s := formulas.Keys + set n | n in Mentioned(remote, req) && KeptAsIs(remote, installed, req, n);
    hide KeptAsIs;
    forall n | n in formulas
      ensures Elements(Wanted(installed, req, n, formulas[n])) <= s
    {
      WantedIsMentioned(remote, installed, req, n, formulas[n]);
    }
    hide Wanted, Mentioned;
    assert NeedsMet(remote, installed, req, s);
  }

  lemma WantedIsMentioned(remote: Registry, installed: Installed, req: Request, n: Name, f: Formula)
    requires Answer(remote, n) == Has(f)
    ensures Elements(Wanted(installed, req, n, f)) <= Mentioned(remote, req)
  {
    hide NeedsSourceBuild;
    assert n in remote && remote[n] == Has(f);
  }

  /** The names of a batch that have not been fetched yet. */
  method Unfetched(toFetch: seq<Name>, fetched: set<Name>) returns (batch: seq<Name>)
    ensures forall n :: n in batch <==> n in toFetch && n !in fetched
  {
    batch := [];
    var i := 0;
    while i < |toFetch|
      invariant i <= |toFetch|
      invariant forall n :: n in batch <==> n in toFetch[..i] && n !in fetched
    {
      assert toFetch[..i + 1] == toFetch[..i] + [toFetch[i]];
      if toFetch[i] !in fetched {
        batch := batch + [toFetch[i]];
      }
      i := i + 1;
    }
    assert toFetch[..|toFetch|] == toFetch;
  }

  method PushWanted(deps: seq<Name>, fetched: set<Name>, toFetch: seq<Name>) returns (r: seq<Name>)
    ensures forall n :: n in r <==> n in toFetch || (n in deps && n !in fetched)
  {
    r := toFetch;
    var i := 0;
    while i < |deps|
      invariant i <= |deps|
      invariant forall n :: n in r <==> n in toFetch || (n in deps[..i] && n !in fetched)
    {
      assert deps[..i + 1] == deps[..i] + [deps[i]];
      if deps[i] !in fetched && deps[i] !in r {
        r := r + [deps[i]];
      }
      i := i + 1;
    }
    assert deps[..|deps|] == deps;
  }

  lemma BatchTaken(remote: Registry, installed: Installed, req: Request, formulas: Formulas,
                   fetched: set<Name>, toFetch: seq<Name>, batch: seq<Name>)
    requires Fetching(remote, installed, req, formulas, fetched, {}, toFetch)
    requires forall n :: n in batch <==> n in toFetch && n !in fetched
    ensures Fetching(remote, installed, req, formulas, fetched + Elements(batch), Elements(batch), [])
  {
  }

  lemma FormulaAdded(remote: Registry, installed: Installed, req: Request, formulas: Formulas,
                     fetched: set<Name>, pending: set<Name>, toFetch: seq<Name>, n: Name, f: Formula, more: seq<Name>)
    requires Fetching(remote, installed, req, formulas, fetched, pending, toFetch) && n in fetched
    requires Usable(remote, n) && Answer(remote, n) == Has(f)
    requires forall d :: d in more <==> d in toFetch || (d in Wanted(installed, req, n, f) && d !in fetched)
    ensures Fetching(remote, installed, req, formulas[n := f], fetched, pending - {n}, more)
  {
  }

  lemma NameKept(remote: Registry, installed: Installed, req: Request, formulas: Formulas,
                 fetched: set<Name>, pending: set<Name>, toFetch: seq<Name>, n: Name)
    requires Fetching(remote, installed, req, formulas, fetched, pending, toFetch) && KeptAsIs(remote, installed, req, n)
    ensures Fetching(remote, installed, req, formulas, fetched, pending - {n}, toFetch)
  {
  }

  /** Reads the formulas of the names and of everything they need, batch by batch. */
  method FetchAllFormulas(remote: Registry, installed: Installed, req: Request) returns (r: Planned<Formulas>)
    ensures r.Plan? <==> Fetchable(remote, installed, req)
    ensures r.Plan? ==> AllFetched(remote, installed, req, r.value)
    ensures r.NoPlan? ==> !r.error.Unresolved?
    ensures r.NoPlan? ==> exists n :: n in Mentioned(remote, req) && !Usable(remote, n) && !KeptAsIs(remote, installed, req, n)
  {
    hide Fetching, Mentioned, AllFetched, KeptAsIs, NeedsSourceBuild, Fetchable, OnlyNeeded, NeedsMet;
    var formulas: Formulas := map[];
    var fetched: set<Name> := {};
    var toFetch := req.names;
    FetchStart(remote, installed, req);
    while toFetch != []
      invariant Fetching(remote, installed, req, formulas, fetched, {}, toFetch)
      invariant OnlyNeeded(remote, installed, req, fetched + Elements(toFetch))
      decreases Mentioned(remote, req) - fetched
    {
      var batch := Unfetched(toFetch, fetched);
      if batch == [] {
        FetchEnd(remote, installed, req, formulas, fetched, toFetch);
        break;
      }
      BatchTaken(remote, installed, req, formulas, fetched, toFetch, batch);
      ghost var before, pending := fetched, Elements(batch);
      FetchBounded(remote, installed, req, formulas, fetched + Elements(batch), pending, []);
      assert batch[0] in batch && batch[0] in fetched + Elements(batch) && batch[0] !in fetched;
      StillNeeded(remote, installed, req, fetched + Elements(toFetch), fetched + Elements(batch));
      fetched := fetched + set n | n in batch;
      toFetch := [];
      assert fetched + Elements(toFetch) == before + Elements(batch);
      var i := 0;
      while i < |batch|
        invariant i <= |batch|
        invariant Fetching(remote, installed, req, formulas, fetched, pending, toFetch)
        invariant pending <= Elements(batch[i..])
        invariant OnlyNeeded(remote, installed, req, fetched + Elements(toFetch))
      {
        var n := batch[i];
        assert batch[i..] == [n] + batch[i + 1..];
        assert n in Elements(batch) && n in fetched;
        FetchBounded(remote, installed, req, formulas, fetched, pending, toFetch);
        var reply := Answer(remote, n);
        if reply.Has? && (reply.formula.hasBottle || reply.formula.hasSource) {
          var f := reply.formula;
          var deps := f.dependencies;
          if NeedsSourceBuild(installed, req, n, f) {
            deps := deps + f.buildDependencies;
          }
          var more := PushWanted(deps, fetched, toFetch);
          assert Wanted(installed, req, n, f) == deps;
          FormulaAdded(remote, installed, req, formulas, fetched, pending, toFetch, n, f, more);
          NeededToo(remote, installed, req, fetched + Elements(toFetch), n, fetched + Elements(more));
          formulas, toFetch := formulas[n := f], more;
        } else {
          KeptMeans(remote, installed, req, n);
          if !(n !in req.names && n in installed && !reply.Broken?) {
            NotFetchable(remote, installed, req, fetched + Elements(toFetch), n);
            return NoPlan(if reply.Has? then UnsupportedBottle(n) else FetchFailed(n));
          }
          NameKept(remote, installed, req, formulas, fetched, pending, toFetch, n);
        }
        pending := pending - {n};
        i := i + 1;
      }
      assert pending == {};
    }
    if toFetch == [] {
      FetchEnd(remote, installed, req, formulas, fetched, toFetch);
    }
    FetchedMeetsNeeds(remote, installed, req, formulas);
    return Plan(formulas);
  }

  lemma FetchStart(remote: Registry, installed: Installed, req: Request)
    ensures Fetching(remote, installed, req, map[], {}, {}, req.names)
    ensures OnlyNeeded(remote, installed, req, {} + Elements(req.names))
  {
  }

  lemma StillNeeded(remote: Registry, installed: Installed, req: Request, asked: set<Name>, fewer: set<Name>)
    requires OnlyNeeded(remote, installed, req, asked) && fewer <= asked
    ensures OnlyNeeded(remote, installed, req, fewer)
  {
  }

  lemma FetchBounded(remote: Registry, installed: Installed, req: Request, formulas: Formulas,
                     fetched: set<Name>, pending: set<Name>, toFetch: seq<Name>)
    requires Fetching(remote, installed, req, formulas, fetched, pending, toFetch)
    ensures fetched <= Mentioned(remote, req)
  {
  }

  lemma FetchEnd(remote: Registry, installed: Installed, req: Request, formulas: Formulas, fetched: set<Name>, toFetch: seq<Name>)
    requires Fetching(remote, installed, req, formulas, fetched, {}, toFetch)
    requires forall n :: n in toFetch ==> n in fetched
    ensures AllFetched(remote, installed, req, formulas)
  {
    assert forall n :: n in req.names ==> n in Elements(req.names) && !KeptAsIs(remote, installed, req, n);
    assert forall n :: n in toFetch <==> n in Elements(toFetch);
    assert fetched + Elements(toFetch) == fetched;
  }

  lemma KeptMeans(remote: Registry, installed: Installed, req: Request, n: Name)
    ensures KeptAsIs(remote, installed, req, n) <==>
            && n !in req.names && n in installed && !Answer(remote, n).Broken?
            && !Usable(remote, n)
  {
  }

  // The graph and the plan.

  function Dedup(s: seq<Name>): seq<Name> {
    if |s| < 2 then s
    else if s[0] == s[1] then Dedup(s[1..])
    else [s[0]] + Dedup(s[1..])
  }

  lemma {:induction false} DedupKeeps(s: seq<Name>, n: Name)
    ensures n in Dedup(s) <==> n in s
  {
    if |s| >= 2 {
      DedupKeeps(s[1..], n);
      assert s == [s[0]] + s[1..];
    }
  }

  /** A formula as a node of the graph: what is built also waits for its build dependencies. */
  function Node(installed: Installed, req: Request, n: Name, f: Formula): Formula {
    if NeedsSourceBuild(installed, req, n, f) then f.(dependencies := Dedup(Sort(f.dependencies + f.buildDependencies))) else f
  }

  lemma NodeWants(installed: Installed, req: Request, n: Name, f: Formula, d: Name)
    ensures d in Node(installed, req, n, f).dependencies <==> d in Wanted(installed, req, n, f)
  {
    var all := f.dependencies + f.buildDependencies;
    SortKeeps(all);
    DedupKeeps(Sort(all), d);
  }

  function Graph(installed: Installed, req: Request, formulas: Formulas): Formulas {
    map n | n in formulas :: Node(installed, req, n, formulas[n])
  }

  method BuildPlanGraph(installed: Installed, req: Request, formulas: Formulas) returns (graph: Formulas)
    ensures graph == Graph(installed, req, formulas)
  {
    graph := formulas;
    var todo := formulas.Keys;
    while todo != {}
      invariant todo <= formulas.Keys && graph.Keys == formulas.Keys
      invariant forall n :: n in formulas ==> graph[n] == if n in todo then formulas[n] else Node(installed, req, n, formulas[n])
      decreases |todo|
    {
      hide Sort, Dedup, NeedsSourceBuild;
      var name := First(todo);
      todo := todo - {name};
      var formula := graph[name];
      if NeedsSourceBuild(installed, req, name, formula) {
        var deps := formula.dependencies + formula.buildDependencies;
        deps := Sort(deps);
        deps := Dedup(deps);
        graph := graph[name := formula.(dependencies := deps)];
      }
    }
  }

  /** The items for a list of names, in order. */
  function ItemsOf(installed: Installed, req: Request, formulas: Formulas, order: seq<Name>): seq<Item>
    requires Elements(order) <= formulas.Keys
  {
    if order == [] then []
    else
      var front, n := order[..|order| - 1], order[|order| - 1];
      assert n in Elements(order);
      assert Elements(front) <= Elements(order);
      ItemsOf(installed, req, formulas, front)
      + match Decide(installed, req, n, formulas[n])
        case Take(how) => [Item(n, formulas[n], how)]
        case _ => []
  }

  /** What a plan is made from. */
  ghost predicate Basis(remote: Registry, installed: Installed, req: Request, formulas: Formulas, closure: set<Name>, order: seq<Name>) {
    && AllFetched(remote, installed, req, formulas)
    && closure <= Graph(installed, req, formulas).Keys && IsClosure(req.names, Graph(installed, req, formulas), closure)
    && IsTopological(Graph(installed, req, formulas), closure, order)
  }

  /** The graph over what can be fetched has an order: no cycle, and no dependency listed twice. */
  ghost predicate Plannable(remote: Registry, installed: Installed, req: Request, formulas: Formulas, closure: set<Name>) {
    && AllFetched(remote, installed, req, formulas)
    && var graph := Graph(installed, req, formulas);
       && closure <= graph.Keys && IsClosure(req.names, graph, closure)
       && AllRepeatFree(graph, closure) && !exists ring :: IsCycle(graph, closure, ring)
  }

  /** Whatever else is fetched, the closure only reaches what every fetch holds. */
  lemma ClosureWithin(remote: Registry, installed: Installed, req: Request, fs: Formulas, gs: Formulas, closure: set<Name>)
    requires AllFetched(remote, installed, req, fs) && AllFetched(remote, installed, req, gs)
    requires closure <= fs.Keys && IsClosure(req.names, Graph(installed, req, fs), closure)
    ensures closure <= gs.Keys && Closed(Graph(installed, req, gs), closure)
    ensures forall n :: n in closure ==> fs[n] == gs[n]
  {
    var f, g, both := Graph(installed, req, fs), Graph(installed, req, gs), closure * gs.Keys;
    hide Node, Wanted, NeedsSourceBuild;
    forall n, d | n in both && d in KnownDeps(f, n)
      ensures d in both
    {
      NodeWants(installed, req, n, fs[n], d);
      assert d in closure;
    }
    assert Elements(req.names) <= both && Closed(f, both);
    assert closure <= both;
    forall n, d | n in closure && d in KnownDeps(g, n)
      ensures d in closure
    {
      NodeWants(installed, req, n, gs[n], d);
      assert d in KnownDeps(f, n);
    }
  }

  /** So it does not matter by which fetch a plan is judged. */
  lemma PlannableAgain(remote: Registry, installed: Installed, req: Request, fs: Formulas, c: set<Name>, gs: Formulas, e: set<Name>)
    requires Plannable(remote, installed, req, fs, c) && AllFetched(remote, installed, req, gs)
    requires e <= gs.Keys && IsClosure(req.names, Graph(installed, req, gs), e)
    ensures Plannable(remote, installed, req, gs, e)
  {
    ClosureWithin(remote, installed, req, fs, gs, c);
    ClosureWithin(remote, installed, req, gs, fs, e);
    hide AllFetched, Node;
    var f, g := Graph(installed, req, fs), Graph(installed, req, gs);
    assert c == e;
    forall n | n in c
      ensures f[n] == g[n]
    {
    }
    forall ring
      ensures IsCycle(f, c, ring) <==> IsCycle(g, c, ring)
    {
      SameCycles(f, g, c, ring);
    }
  }

  lemma SameCycles(f: Formulas, g: Formulas, closure: set<Name>, ring: seq<Name>)
    requires closure <= f.Keys && closure <= g.Keys && forall n :: n in closure ==> f[n] == g[n]
    ensures IsCycle(f, closure, ring) <==> IsCycle(g, closure, ring)
  {
  }

  /** The pass over a fetched graph is complete exactly when some fetch is plannable. */
  lemma PlannedExactly(remote: Registry, installed: Installed, req: Request, formulas: Formulas, closure: set<Name>, order: seq<Name>)
    requires AllFetched(remote, installed, req, formulas)
    requires var graph := Graph(installed, req, formulas);
             closure <= graph.Keys && IsClosure(req.names, graph, closure) && Outcome(graph, closure, order)
    ensures Elements(order) == closure <==> exists fs, c :: Plannable(remote, installed, req, fs, c)
  {
    var graph := Graph(installed, req, formulas);
    SucceedsExactly(graph, closure, order);
    hide Graph, AllFetched, IsClosure, Outcome, AllRepeatFree, IsCycle;
    if Elements(order) == closure {
      assert Plannable(remote, installed, req, formulas, closure);
    }
    if fs, c :| Plannable(remote, installed, req, fs, c) {
      PlannableAgain(remote, installed, req, fs, c, formulas, closure);
    }
  }

  lemma PlannableIsFetched(remote: Registry, installed: Installed, req: Request, formulas: Formulas, closure: set<Name>)
    requires Plannable(remote, installed, req, formulas, closure)
    ensures Fetchable(remote, installed, req)
  {
    hide *;
    FetchedOfPlannable(remote, installed, req, formulas, closure);
    FetchedMeetsNeeds(remote, installed, req, formulas);
  }

  lemma FetchedOfPlannable(remote: Registry, installed: Installed, req: Request, formulas: Formulas, closure: set<Name>)
    requires Plannable(remote, installed, req, formulas, closure)
    ensures AllFetched(remote, installed, req, formulas)
  {
  }

  method PlanForcing(remote: Registry, installed: Installed, req: Request)
    returns (r: Planned<seq<Item>>, ghost formulas: Formulas, ghost closure: set<Name>, ghost order: seq<Name>)
    ensures r.Plan? ==> Basis(remote, installed, req, formulas, closure, order)
    ensures r.Plan? ==> Elements(order) <= formulas.Keys && r.value == ItemsOf(installed, req, formulas, order)
    ensures r.Plan? <==> exists fs, c :: Plannable(remote, installed, req, fs, c)
    ensures r.NoPlan? ==> (r.error.Unresolved? <==> Fetchable(remote, installed, req))
    ensures r.NoPlan? && r.error.Unresolved? ==> r.error.error.DependencyCycle?
  {
    formulas, closure, order := map[], {}, [];
    hide AllFetched, Graph, IsClosure, Outcome, IsTopological, ItemsOf, NeedsSourceBuild, Fetchable, Plannable;
    var fetched := FetchAllFormulas(remote, installed, req);
    if fetched.NoPlan? {
      forall fs, c
        ensures !Plannable(remote, installed, req, fs, c)
      {
        if Plannable(remote, installed, req, fs, c) {
          PlannableIsFetched(remote, installed, req, fs, c);
        }
      }
      return NoPlan(fetched.error), formulas, closure, order;
    }
    formulas := fetched.value;
    var graph := BuildPlanGraph(installed, req, fetched.value);
    RootsKnown(remote, installed, req, formulas);
    var resolved, c, o := ResolveClosure(req.names, graph);
    ClosureKnown(req.names, graph, c);
    PlannedExactly(remote, installed, req, formulas, c, o);
    if resolved.Err? {
      return NoPlan(Unresolved(resolved.error)), formulas, closure, order;
    }
    closure, order := c, o;
    CompletePass(graph, c, o);
    assert Elements(o) <= fetched.value.Keys by { GraphKeys(installed, req, formulas); }
    var ordered := resolved.value;
    var items := [];
    var i := 0;
    EmptyItems(installed, req, formulas);
    assert ordered[..0] == [];
    while i < |ordered|
      invariant i <= |ordered| && Elements(ordered[..i]) <= fetched.value.Keys
      invariant items == ItemsOf(installed, req, fetched.value, ordered[..i])
    {
      var installName := ordered[i];
      assert installName in Elements(ordered);
      ItemsNext(installed, req, fetched.value, ordered, i);
      var formula := fetched.value[installName];
      i := i + 1;
      if !(installName in req.force)
         && (installName in installed && (!req.upgradeInstalled || installed[installName] == formula.version)) {
        continue;
      }
      if !req.buildFromSource && !(installName in req.names) && !(installName in req.force)
         && !formula.hasBottle && installName in installed {
        continue;
      }
      // What has been fetched is usable, so neither branch ends in a refusal.
      FetchedIsUsable(remote, installed, req, formulas, installName);
      var how;
      if req.buildFromSource {
        if formula.hasSource {
          how := Source;
        } else if formula.hasBottle {
          how := Bottle;
        } else {
          assert false;
          how := Bottle;
        }
      } else {
        if formula.hasBottle {
          how := Bottle;
        } else if formula.hasSource {
          how := Source;
        } else {
          assert false;
          how := Bottle;
        }
      }
      items := items + [Item(installName, formula, how)];
    }
    assert ordered[..|ordered|] == ordered;
    return Plan(items), formulas, closure, order;
  }

  lemma FetchedIsUsable(remote: Registry, installed: Installed, req: Request, formulas: Formulas, n: Name)
    requires AllFetched(remote, installed, req, formulas) && n in formulas
    ensures formulas[n].hasBottle || formulas[n].hasSource
  {
  }

  lemma RootsKnown(remote: Registry, installed: Installed, req: Request, formulas: Formulas)
    requires AllFetched(remote, installed, req, formulas)
    ensures forall n :: n in req.names ==> n in Graph(installed, req, formulas)
  {
  }

  lemma GraphKeys(installed: Installed, req: Request, formulas: Formulas)
    ensures Graph(installed, req, formulas).Keys == formulas.Keys
  {
  }

  lemma ClosureKnown(roots: seq<Name>, fs: Formulas, s: set<Name>)
    requires IsClosure(roots, fs, s)
    ensures s <= fs.Keys
  {
  }

  lemma EmptyItems(installed: Installed, req: Request, formulas: Formulas)
    ensures ItemsOf(installed, req, formulas, []) == []
  {
  }

  lemma ItemsNext(installed: Installed, req: Request, formulas: Formulas, order: seq<Name>, i: nat)
    requires i < |order| && Elements(order[..i]) <= formulas.Keys && order[i] in formulas
    ensures Elements(order[..i + 1]) <= formulas.Keys
    ensures ItemsOf(installed, req, formulas, order[..i + 1]) ==
              ItemsOf(installed, req, formulas, order[..i])
              + match Decide(installed, req, order[i], formulas[order[i]])
                case Take(how) => [Item(order[i], formulas[order[i]], how)]
                case _ => []
  {
    assert order[..i + 1] == order[..i] + [order[i]];
    ElementsAppend(order[..i], order[i]);
    assert order[..i + 1][..i] == order[..i];
  }

  // What a plan promises.

  /** An item comes from its place in the order, behind the items of all earlier names. */
  lemma {:induction false} Origin(installed: Installed, req: Request, formulas: Formulas, order: seq<Name>, i: nat) returns (p: nat)
    requires Elements(order) <= formulas.Keys && i < |ItemsOf(installed, req, formulas, order)|
    ensures p < |order| && Elements(order[..p]) <= formulas.Keys
    ensures var item := ItemsOf(installed, req, formulas, order)[i];
            && item.installName == order[p] && order[p] in formulas && item.formula == formulas[order[p]]
            && Decide(installed, req, order[p], formulas[order[p]]) == Take(item.how)
    ensures |ItemsOf(installed, req, formulas, order[..p])| == i
    decreases |order|
  {
    var k := |order| - 1;
    assert order[..k + 1] == order;
    assert order[k] in Elements(order);
    assert Elements(order[..k]) <= Elements(order);
    ItemsNext(installed, req, formulas, order, k);
    hide Decide;
    if i < |ItemsOf(installed, req, formulas, order[..k])| {
      p := Origin(installed, req, formulas, order[..k], i);
      assert order[..k][..p] == order[..p];
    } else {
      p := k;
    }
  }

  /** A taken name has its item behind those of the names before it. */
  lemma {:induction false} Destination(installed: Installed, req: Request, formulas: Formulas, order: seq<Name>, q: nat, p: nat)
    requires Elements(order) <= formulas.Keys && q < p <= |order|
    requires order[q] in formulas && Decide(installed, req, order[q], formulas[order[q]]).Take?
    ensures Elements(order[..q]) <= formulas.Keys && Elements(order[..p]) <= formulas.Keys
    ensures var j := |ItemsOf(installed, req, formulas, order[..q])|;
            var items := ItemsOf(installed, req, formulas, order[..p]);
            j < |items| && items[j] == Item(order[q], formulas[order[q]], Decide(installed, req, order[q], formulas[order[q]]).how)
    ensures ItemsOf(installed, req, formulas, order[..p]) <= ItemsOf(installed, req, formulas, order)
    decreases p
  {
    assert Elements(order[..q]) <= Elements(order) && Elements(order[..p - 1]) <= Elements(order);
    assert order[p - 1] in Elements(order);
    ItemsNext(installed, req, formulas, order, p - 1);
    ItemsPrefix(installed, req, formulas, order, p);
    hide Decide, ItemsOf;
    if q < p - 1 {
      Destination(installed, req, formulas, order, q, p - 1);
    }
  }

  lemma {:induction false} ItemsPrefix(installed: Installed, req: Request, formulas: Formulas, order: seq<Name>, p: nat)
    requires Elements(order) <= formulas.Keys && p <= |order|
    ensures Elements(order[..p]) <= formulas.Keys
    ensures ItemsOf(installed, req, formulas, order[..p]) <= ItemsOf(installed, req, formulas, order)
    decreases |order| - p
  {
    assert Elements(order[..p]) <= Elements(order);
    if p == |order| {
      assert order[..p] == order;
    } else {
      ItemsPrefix(installed, req, formulas, order, p + 1);
      assert order[p] in Elements(order);
      ItemsNext(installed, req, formulas, order, p);
    }
  }

  /** An installed package, or one planned before position `i`. */
  predicate Provided(installed: Installed, items: seq<Item>, i: nat, d: Name) {
    d in installed || exists j :: 0 <= j < i && j < |items| && items[j].installName == d
  }

  /** What an item needs: its dependencies, and its build dependencies if it is built. */
  predicate Needs(item: Item, d: Name) {
    d in item.formula.dependencies || (item.how.Source? && d in item.formula.buildDependencies)
  }

  /** Whatever an item needs is installed or planned strictly earlier. */
  lemma PlanIsComplete(remote: Registry, installed: Installed, req: Request, formulas: Formulas,
                       closure: set<Name>, order: seq<Name>, items: seq<Item>, i: nat, d: Name)
    requires Basis(remote, installed, req, formulas, closure, order) && Elements(order) <= formulas.Keys
    requires items == ItemsOf(installed, req, formulas, order) && i < |items|
    requires Needs(items[i], d)
    ensures Provided(installed, items, i, d)
  {
    hide *;
    var p := Origin(installed, req, formulas, order, i);
    ItemWants(installed, req, items[i], d);
    WantedIsThere(remote, installed, req, formulas, closure, order, items[i].installName, d);
    if d in formulas {
      var q := DependencyFirst(remote, installed, req, formulas, closure, order, p, d);
      if Decide(installed, req, d, formulas[d]).Take? {
        Destination(installed, req, formulas, order, q, p);
        var j := |ItemsOf(installed, req, formulas, order[..q])|;
        assert items[j].installName == d;
        ProvidedBy(installed, items, i, j);
      } else {
        NotTakenIsInstalled(remote, installed, req, formulas, closure, order, d);
        ProvidedAlready(installed, items, i, d);
      }
    } else {
      ProvidedAlready(installed, items, i, d);
    }
  }

  lemma ProvidedBy(installed: Installed, items: seq<Item>, i: nat, j: nat)
    requires j < i && j < |items|
    ensures Provided(installed, items, i, items[j].installName)
  {
  }

  lemma ProvidedAlready(installed: Installed, items: seq<Item>, i: nat, d: Name)
    requires d in installed
    ensures Provided(installed, items, i, d)
  {
  }

  lemma ItemWants(installed: Installed, req: Request, item: Item, d: Name)
    requires Decide(installed, req, item.installName, item.formula) == Take(item.how)
    requires Needs(item, d)
    ensures d in Wanted(installed, req, item.installName, item.formula)
  {
  }

  lemma WantedIsThere(remote: Registry, installed: Installed, req: Request, formulas: Formulas,
                      closure: set<Name>, order: seq<Name>, n: Name, d: Name)
    requires Basis(remote, installed, req, formulas, closure, order) && n in formulas
    requires d in Wanted(installed, req, n, formulas[n])
    ensures d in formulas || d in installed
  {
  }

  lemma NotTakenIsInstalled(remote: Registry, installed: Installed, req: Request, formulas: Formulas,
                            closure: set<Name>, order: seq<Name>, n: Name)
    requires Basis(remote, installed, req, formulas, closure, order) && n in formulas
    requires !Decide(installed, req, n, formulas[n]).Take?
    ensures n in installed
  {
  }

  lemma DependencyFirst(remote: Registry, installed: Installed, req: Request, formulas: Formulas,
                        closure: set<Name>, order: seq<Name>, p: nat, d: Name) returns (q: nat)
    requires Basis(remote, installed, req, formulas, closure, order) && p < |order| && order[p] in formulas
    requires d in Wanted(installed, req, order[p], formulas[order[p]]) && d in formulas
    ensures q < p && order[q] == d
  {
    var graph, n := Graph(installed, req, formulas), order[p];
    NodeWants(installed, req, n, formulas[n], d);
    hide Node, Wanted, AllFetched;
    assert n in Elements(order) && n in closure;
    assert d in KnownDeps(graph, n) && d in closure;
    assert d in DepsIn(graph[n].dependencies, closure);
    assert d in Elements(order[..p]);
    q :| 0 <= q < p && order[..p][q] == d;
  }

  /** Every requested package is planned, or installed and not due for an upgrade. */
  lemma RequestedIsPlanned(remote: Registry, installed: Installed, req: Request, formulas: Formulas,
                           closure: set<Name>, order: seq<Name>, items: seq<Item>, n: Name)
    requires Basis(remote, installed, req, formulas, closure, order) && Elements(order) <= formulas.Keys
    requires items == ItemsOf(installed, req, formulas, order) && n in req.names
    ensures n in formulas
    ensures (exists j :: 0 <= j < |items| && items[j].installName == n) <==>
            !(n !in req.force && n in installed && (!req.upgradeInstalled || installed[n] == formulas[n].version))
  {
    assert n in Elements(req.names) && n in closure && n in Elements(order);
    var q :| 0 <= q < |order| && order[q] == n;
    NamedIsTaken(remote, installed, req, formulas, n);
    hide Decide, Graph, AllFetched, IsClosure;
    assert order[..|order|] == order;
    if Decide(installed, req, n, formulas[n]).Take? {
      Destination(installed, req, formulas, order, q, |order|);
    } else if j :| 0 <= j < |items| && items[j].installName == n {
      var p := Origin(installed, req, formulas, order, j);
    }
  }

  lemma NamedIsTaken(remote: Registry, installed: Installed, req: Request, formulas: Formulas, n: Name)
    requires AllFetched(remote, installed, req, formulas) && n in req.names
    ensures n in formulas
    ensures Decide(installed, req, n, formulas[n]).Take? <==>
            !(n !in req.force && n in installed && (!req.upgradeInstalled || installed[n] == formulas[n].version))
  {
  }

  // The order of execution.

  function Only(items: seq<Item>, how: InstallMethod): seq<Item> {
    if items == [] then []
    else
      var last := items[|items| - 1];
      Only(items[..|items| - 1], how) + if last.how == how then [last] else []
  }

  /** Bottles in whatever order their downloads arrive, then the source builds one by one. */
  ghost predicate IsExecution(items: seq<Item>, attempts: seq<Item>) {
    exists first :: multiset(first) == multiset(Only(items, Bottle)) && attempts == first + Only(items, Source)
  }

  /** An item's place among those installed the same way. */
  lemma {:induction false} OnlyAt(items: seq<Item>, how: InstallMethod, i: nat)
    requires i < |items| && items[i].how == how
    ensures |Only(items[..i], how)| < |Only(items, how)| && Only(items, how)[|Only(items[..i], how)|] == items[i]
    ensures Only(items[..i], how) <= Only(items, how)
    decreases |items|
  {
    var k := |items| - 1;
    if i < k {
      OnlyAt(items[..k], how, i);
      assert items[..k][..i] == items[..i];
    }
  }

  /** The attempt to build an item, counted over a whole execution. */
  function BuildTurn(items: seq<Item>, i: nat): nat
    requires i < |items|
  {
    |Only(items, Bottle)| + |Only(items[..i], Source)|
  }

  /** Before a source build is attempted everything it needs is installed already or has been attempted. */
  lemma BuildsAfterNeeds(remote: Registry, installed: Installed, req: Request, formulas: Formulas,
                         closure: set<Name>, order: seq<Name>, items: seq<Item>, attempts: seq<Item>, i: nat, d: Name)
    requires Basis(remote, installed, req, formulas, closure, order) && Elements(order) <= formulas.Keys
    requires items == ItemsOf(installed, req, formulas, order) && i < |items| && items[i].how.Source?
    requires Needs(items[i], d)
    requires IsExecution(items, attempts)
    ensures BuildTurn(items, i) < |attempts| && attempts[BuildTurn(items, i)] == items[i]
    ensures Provided(installed, attempts, BuildTurn(items, i), d)
  {
    hide *;
    PlanIsComplete(remote, installed, req, formulas, closure, order, items, i, d);
    var first := FirstBottles(items, attempts);
    BuiltAtTurn(items, first, i);
    if d in installed {
      ProvidedAlready(installed, attempts, BuildTurn(items, i), d);
    } else {
      var j := Provider(installed, items, i, d);
      var b: nat;
      if items[j].how.Bottle? {
        b := AttemptedFirst(items, first, j);
      } else {
        b := BuiltEarlier(items, first, i, j);
      }
      assert attempts[b] == items[j];
      ProvidedBy(installed, attempts, BuildTurn(items, i), b);
    }
  }

  lemma FirstBottles(items: seq<Item>, attempts: seq<Item>) returns (first: seq<Item>)
    requires IsExecution(items, attempts)
    ensures multiset(first) == multiset(Only(items, Bottle)) && |first| == |Only(items, Bottle)|
    ensures attempts == first + Only(items, Source)
  {
    first :| multiset(first) == multiset(Only(items, Bottle)) && attempts == first + Only(items, Source);
    SameSize(first, Only(items, Bottle));
  }

  lemma BuiltAtTurn(items: seq<Item>, first: seq<Item>, i: nat)
    requires i < |items| && items[i].how.Source? && |first| == |Only(items, Bottle)|
    ensures |first| <= BuildTurn(items, i) < |first + Only(items, Source)|
    ensures (first + Only(items, Source))[BuildTurn(items, i)] == items[i]
  {
    OnlyAt(items, Source, i);
    hide Only;
  }

  lemma Provider(installed: Installed, items: seq<Item>, i: nat, d: Name) returns (j: nat)
    requires Provided(installed, items, i, d) && d !in installed
    ensures j < i && j < |items| && items[j].installName == d
  {
    j :| 0 <= j < i && j < |items| && items[j].installName == d;
  }

  lemma SameSize(a: seq<Item>, b: seq<Item>)
    requires multiset(a) == multiset(b)
    ensures |a| == |b|
  {
    assert |a| == |multiset(a)| && |b| == |multiset(b)|;
  }

  lemma AttemptedFirst(items: seq<Item>, first: seq<Item>, j: nat) returns (b: nat)
    requires j < |items| && items[j].how.Bottle? && multiset(first) == multiset(Only(items, Bottle))
    ensures b < |first| && first[b] == items[j]
  {
    OnlyAt(items, Bottle, j);
    hide Only;
    assert items[j] in multiset(Only(items, Bottle));
    assert items[j] in multiset(first);
    b :| 0 <= b < |first| && first[b] == items[j];
  }

  lemma BuiltEarlier(items: seq<Item>, first: seq<Item>, i: nat, j: nat) returns (b: nat)
    requires j < i < |items| && items[j].how.Source? && |first| == |Only(items, Bottle)|
    ensures b < BuildTurn(items, i) && b < |first + Only(items, Source)| && (first + Only(items, Source))[b] == items[j]
  {
    OnlyAt(items, Source, j);
    OnlyAt(items[..i], Source, j);
    hide Only;
    assert items[..i][..j] == items[..j];
    b := |first| + |Only(items[..j], Source)|;
  }

  /** In every execution the need is installed or attempted before the item is. */
  ghost predicate AlwaysBefore(installed: Installed, items: seq<Item>, i: nat, d: Name)
    requires i < |items|
  {
    forall attempts, a: nat :: IsExecution(items, attempts) && a < |attempts| && attempts[a] == items[i] ==>
      Provided(installed, attempts, a, d)
  }

  /** A plan lists what an item needs before it; its executions keep to that
      exactly for source builds, and for bottles only where it is installed. */
  lemma NeedsComeFirst(remote: Registry, installed: Installed, req: Request, formulas: Formulas,
                       closure: set<Name>, order: seq<Name>, items: seq<Item>, i: nat, d: Name)
    requires Basis(remote, installed, req, formulas, closure, order) && Elements(order) <= formulas.Keys
    requires items == ItemsOf(installed, req, formulas, order) && i < |items| && Needs(items[i], d)
    ensures AlwaysBefore(installed, items, i, d) <==> items[i].how.Source? || d in installed
  {
    if items[i].how.Bottle? {
      var attempts := BottleFirst(items, i);
      hide *;
      assert attempts[0] == items[i];
      BottleBefore(installed, items, attempts, i, d);
    } else {
      assert items[i].how.Source?;
      forall attempts, a: nat | IsExecution(items, attempts) && a < |attempts| && attempts[a] == items[i]
        ensures Provided(installed, attempts, a, d)
      {
        hide Basis, Only, ItemsOf, Provided;
        var j := TurnOf(items, attempts, a);
        BuildsAfterNeeds(remote, installed, req, formulas, closure, order, items, attempts, j, d);
      }
    }
  }

  /** An execution may begin with any bottle. */
  lemma BottleFirst(items: seq<Item>, i: nat) returns (attempts: seq<Item>)
    requires i < |items| && items[i].how.Bottle?
    ensures IsExecution(items, attempts) && attempts != [] && attempts[0] == items[i]
  {
    OnlyAt(items, Bottle, i);
    var bottles, k := Only(items, Bottle), |Only(items[..i], Bottle)|;
    var first := [items[i]] + (bottles[..k] + bottles[k + 1..]);
    assert bottles == bottles[..k] + [items[i]] + bottles[k + 1..];
    assert multiset(first) == multiset(bottles);
    attempts := first + Only(items, Source);
  }

  lemma BottleBefore(installed: Installed, items: seq<Item>, attempts: seq<Item>, i: nat, d: Name)
    requires i < |items| && IsExecution(items, attempts) && attempts != [] && attempts[0] == items[i]
    ensures AlwaysBefore(installed, items, i, d) <==> d in installed
  {
    assert Provided(installed, attempts, 0, d) <==> d in installed;
  }

  /** A source build attempted in an execution has its turn there. */
  lemma TurnOf(items: seq<Item>, attempts: seq<Item>, a: nat) returns (j: nat)
    requires IsExecution(items, attempts) && a < |attempts| && attempts[a].how.Source?
    ensures j < |items| && items[j] == attempts[a] && BuildTurn(items, j) == a
  {
    var first := FirstBottles(items, attempts);
    if a < |first| {
      assert first[a] in multiset(first);
      assert first[a] in multiset(Only(items, Bottle));
      var k :| 0 <= k < |Only(items, Bottle)| && Only(items, Bottle)[k] == first[a];
      OnlyIs(items, Bottle, k);
    }
    j := OnlyFrom(items, Source, a - |first|);
  }

  lemma {:induction false} OnlyFrom(items: seq<Item>, how: InstallMethod, k: nat) returns (j: nat)
    requires k < |Only(items, how)|
    ensures j < |items| && items[j] == Only(items, how)[k] && |Only(items[..j], how)| == k
  {
    var n := |items| - 1;
    if k < |Only(items[..n], how)| {
      j := OnlyFrom(items[..n], how, k);
      assert items[..n][..j] == items[..j];
    } else {
      j := n;
    }
  }

  const BOTTLED := Formula("a", "1", ["b"], [], false, true)
  const BUILT := Formula("b", "1", [], [], true, false)
  const REMOTE: Registry := map["a" := Has(BOTTLED), "b" := Has(BUILT)]
  const WISH := Request(["a"], false, [], false)
  const FETCHED: Formulas := map["a" := BOTTLED, "b" := BUILT]

  /** A bottle that needs a package only a build can provide: the plan lists
      the build first, and every execution attempts the bottle first. */
  lemma BottlesComeFirst()
    ensures Basis(REMOTE, map[], WISH, FETCHED, {"a", "b"}, ["b", "a"]) && Elements(["b", "a"]) <= FETCHED.Keys
    ensures ItemsOf(map[], WISH, FETCHED, ["b", "a"]) == [Item("b", BUILT, Source), Item("a", BOTTLED, Bottle)]
    ensures forall attempts :: IsExecution(ItemsOf(map[], WISH, FETCHED, ["b", "a"]), attempts) <==>
                               attempts == [Item("a", BOTTLED, Bottle), Item("b", BUILT, Source)]
  {
    BuildBeforeBottle();
    BuildThenBottle();
    hide *;
    TwoAttempts([Item("b", BUILT, Source), Item("a", BOTTLED, Bottle)]);
  }

  lemma BuildBeforeBottle()
    ensures Basis(REMOTE, map[], WISH, FETCHED, {"a", "b"}, ["b", "a"])
  {
    TwoNodes();
    hide Node, KnownDeps, IsClosure, IsTopological, Graph, Dedup;
    OneDependency(Graph(map[], WISH, FETCHED), "a", "b");
    assert AllFetched(REMOTE, map[], WISH, FETCHED);
  }

  lemma TwoNodes()
    ensures "a" != "b"
    ensures var graph := Graph(map[], WISH, FETCHED);
            graph.Keys == {"a", "b"} && graph["a"].dependencies == ["b"] && graph["b"].dependencies == []
  {
    assert "a"[0] != "b"[0];
    assert Node(map[], WISH, "a", BOTTLED) == BOTTLED;
    assert Node(map[], WISH, "b", BUILT).dependencies == [];
  }

  /** Two packages of which the first depends on the second. */
  lemma OneDependency(graph: Formulas, a: Name, b: Name)
    requires a != b && graph.Keys == {a, b} && graph[a].dependencies == [b] && graph[b].dependencies == []
    ensures IsClosure([a], graph, {a, b}) && IsTopological(graph, {a, b}, [b, a])
  {
    var order := [b, a];
    assert Elements(order) == {a, b} && order[..0] == [] && order[..1] == [b];
    assert Elements([a]) == {a} && Elements([b]) == {b};
    assert KnownDeps(graph, a) == {b} && KnownDeps(graph, b) == {};
    assert DepsIn(graph[a].dependencies, {a, b}) == {b} && DepsIn(graph[b].dependencies, {a, b}) == {};
  }

  lemma BuildThenBottle()
    ensures Elements(["b", "a"]) <= FETCHED.Keys
    ensures ItemsOf(map[], WISH, FETCHED, ["b", "a"]) == [Item("b", BUILT, Source), Item("a", BOTTLED, Bottle)]
  {
    assert ["b", "a"][..1] == ["b"] && ["b"][..0] == [];
    assert ItemsOf(map[], WISH, FETCHED, []) == [];
    assert ItemsOf(map[], WISH, FETCHED, ["b"]) == [Item("b", BUILT, Source)];
  }

  /** The executions of one build followed by one bottle. */
  lemma TwoAttempts(items: seq<Item>)
    requires |items| == 2 && items[0].how.Source? && items[1].how.Bottle?
    ensures forall attempts :: IsExecution(items, attempts) <==> attempts == [items[1], items[0]]
  {
    assert items[..1] == [items[0]] && items[..1][..0] == [];
    assert Only(items[..1], Source) == [items[0]] && Only(items[..1], Bottle) == [];
    assert Only(items, Source) == [items[0]] && Only(items, Bottle) == [items[1]];
    forall attempts
      ensures IsExecution(items, attempts) <==> attempts == [items[1], items[0]]
    {
      if IsExecution(items, attempts) {
        var first := FirstBottles(items, attempts);
        assert |first| == 1 && first[0] in multiset(first);
        assert first == [items[1]];
      }
      assert [items[1]] + [items[0]] == [items[1], items[0]];
    }
  }

  lemma {:induction false} OnlyIs(items: seq<Item>, how: InstallMethod, k: nat)
    requires k < |Only(items, how)|
    ensures Only(items, how)[k].how == how
  {
    if k < |Only(items[..|items| - 1], how)| {
      OnlyIs(items[..|items| - 1], how, k);
    }
  }
}
