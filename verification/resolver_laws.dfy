/** What the resolver's answer means: the least topological order when there is
    one, and a real cycle otherwise. */
module ResolverLaws {
  import opened Names
  import opened Sets
  import opened Resolver

  ghost predicate NoRepeats(s: seq<Name>) {
    forall i, j :: 0 <= i < j < |s| ==> s[i] != s[j]
  }

  /** Lists the closure once, every package after its dependencies. */
  ghost predicate IsTopological(fs: Formulas, closure: set<Name>, order: seq<Name>)
    requires closure <= fs.Keys
  {
    && Elements(order) == closure && NoRepeats(order)
    && forall i :: 0 <= i < |order| && order[i] in fs ==> DepsIn(fs[order[i]].dependencies, closure) <= Elements(order[..i])
  }

  ghost predicate AllRepeatFree(fs: Formulas, closure: set<Name>)
    requires closure <= fs.Keys
  {
    forall n :: n in closure ==> RepeatFree(fs[n].dependencies, closure)
  }

  /** The element before position `i`, going around. */
  function Before(ring: seq<Name>, i: nat): Name
    requires i < |ring|
  {
    ring[if i == 0 then |ring| - 1 else i - 1]
  }

  /** A ring of packages each of which depends on the one before it. */
  ghost predicate IsCycle(fs: Formulas, closure: set<Name>, ring: seq<Name>)
    requires closure <= fs.Keys
  {
    && ring != [] && Elements(ring) <= closure
    && forall i :: 0 <= i < |ring| ==> Follows(fs, closure, Before(ring, i), ring[i])
  }

  /** `n` depends on `d`. */
  predicate Follows(fs: Formulas, closure: set<Name>, d: Name, n: Name)
    requires closure <= fs.Keys
  {
    n in closure && d in DepsIn(fs[n].dependencies, closure)
  }

  lemma GreedyTurn(fs: Formulas, closure: set<Name>, ordered: seq<Name>, i: nat)
    requires closure <= fs.Keys && Greedy(fs, closure, ordered) && i < |ordered|
    ensures ordered[i] in closure - Elements(ordered[..i])
    ensures Placeable(fs, closure, Elements(ordered[..i]), ordered[i])
    ensures forall x :: x in Waiting(fs, closure, Elements(ordered[..i])) ==> AtMost(ordered[i], x)
  {
  }

  /** A complete pass is a topological order, and no dependency it met was listed twice. */
  lemma CompletePass(fs: Formulas, closure: set<Name>, ordered: seq<Name>)
    requires closure <= fs.Keys && Outcome(fs, closure, ordered) && Elements(ordered) == closure
    ensures IsTopological(fs, closure, ordered) && AllRepeatFree(fs, closure)
  {
  }

  /** Of all topological orders the pass gives the one that comes first name by name. */
  lemma LeastOrder(fs: Formulas, closure: set<Name>, ordered: seq<Name>, other: seq<Name>)
    requires closure <= fs.Keys && Outcome(fs, closure, ordered) && Elements(ordered) == closure
    requires IsTopological(fs, closure, other)
    ensures ListAtMost(ordered, other)
  {
    CompletePass(fs, closure, ordered);
    SameLength(ordered, other);
    LeastFrom(fs, closure, ordered, other, 0);
    assert ordered[0..] == ordered && other[0..] == other;
  }

  lemma {:induction false} LeastFrom(fs: Formulas, closure: set<Name>, ordered: seq<Name>, other: seq<Name>, i: nat)
    requires closure <= fs.Keys && Greedy(fs, closure, ordered) && AllRepeatFree(fs, closure)
    requires IsTopological(fs, closure, other) && |ordered| == |other|
    requires i <= |ordered| && ordered[..i] == other[..i]
    ensures ListAtMost(ordered[i..], other[i..])
    decreases |ordered| - i
  {
    if i < |ordered| {
      NextIsWaiting(fs, closure, other, i);
      GreedyTurn(fs, closure, ordered, i);
      if ordered[i] == other[i] {
        assert ordered[..i + 1] == ordered[..i] + [ordered[i]] == other[..i + 1];
        LeastFrom(fs, closure, ordered, other, i + 1);
        assert ordered[i..][1..] == ordered[i + 1..] && other[i..][1..] == other[i + 1..];
      }
    }
  }

  lemma NextIsWaiting(fs: Formulas, closure: set<Name>, other: seq<Name>, i: nat)
    requires closure <= fs.Keys && AllRepeatFree(fs, closure)
    requires IsTopological(fs, closure, other) && i < |other|
    ensures other[i] in Waiting(fs, closure, Elements(other[..i]))
  {
  }

  lemma {:induction false} CountNoRepeats(s: seq<Name>)
    requires NoRepeats(s)
    ensures |Elements(s)| == |s|
  {
    if s == [] {
      assert Elements(s) == {};
    } else {
      var rest := s[..|s| - 1];
      CountNoRepeats(rest);
      ElementsAppend(rest, s[|s| - 1]);
      assert s == rest + [s[|s| - 1]];
      assert s[|s| - 1] !in rest;
    }
  }

  lemma SameLength(a: seq<Name>, b: seq<Name>)
    requires NoRepeats(a) && NoRepeats(b) && Elements(a) == Elements(b)
    ensures |a| == |b|
  {
    CountNoRepeats(a);
    CountNoRepeats(b);
  }

  // Cycles.

  /** A topological order leaves no room for a cycle. */
  lemma OrderedHasNoCycle(fs: Formulas, closure: set<Name>, order: seq<Name>, ring: seq<Name>)
    requires closure <= fs.Keys && IsTopological(fs, closure, order)
    requires IsCycle(fs, closure, ring)
    ensures false
  {
    var last := |ring| - 1;
    assert ring[last] in Elements(ring);
    var p :| 0 <= p < |order| && order[p] == ring[last];
    EarlierInOrder(fs, closure, order, ring, last, p);
  }

  /** Going back around the ring leads ever further to the front of the order. */
  lemma {:induction false} EarlierInOrder(fs: Formulas, closure: set<Name>, order: seq<Name>, ring: seq<Name>, i: nat, p: nat)
    requires closure <= fs.Keys && IsTopological(fs, closure, order) && IsCycle(fs, closure, ring)
    requires i < |ring| && p < |order| && order[p] == ring[i]
    ensures false
    decreases p
  {
    var j := if i == 0 then |ring| - 1 else i - 1;
    assert Follows(fs, closure, Before(ring, i), ring[i]);
    assert ring[j] in Elements(order[..p]);
    var q :| 0 <= q < p && order[..p][q] == ring[j];
    EarlierInOrder(fs, closure, order, ring, j, q);
  }

  ghost predicate DependsWithin(fs: Formulas, closure: set<Name>, s: set<Name>, n: Name)
    requires closure <= fs.Keys
  {
    exists d :: d in s && Follows(fs, closure, d, n)
  }

  /** Every stuck package has a stuck dependency. */
  lemma StuckDependency(fs: Formulas, closure: set<Name>, ordered: seq<Name>, n: Name)
    requires closure <= fs.Keys && Outcome(fs, closure, ordered)
    requires n in closure - Elements(ordered)
    ensures RepeatFree(fs[n].dependencies, closure) ==> DependsWithin(fs, closure, closure - Elements(ordered), n)
  {
    assert n !in Waiting(fs, closure, Elements(ordered));
    if RepeatFree(fs[n].dependencies, closure) {
      var d :| d in DepsIn(fs[n].dependencies, closure) && d !in Elements(ordered);
      assert Follows(fs, closure, d, n);
    }
  }

  /** Each element of the walk depends on the next, all within `stuck`. */
  ghost predicate IsWalk(fs: Formulas, closure: set<Name>, stuck: set<Name>, walk: seq<Name>)
    requires closure <= fs.Keys
  {
    && Elements(walk) <= stuck
    && forall i :: 0 <= i < |walk| - 1 ==> Follows(fs, closure, walk[i + 1], walk[i])
  }

  lemma {:induction false} LongWalk(fs: Formulas, closure: set<Name>, stuck: set<Name>, k: nat) returns (walk: seq<Name>)
    requires closure <= fs.Keys && stuck <= closure && stuck != {}
    requires forall n :: n in stuck ==> DependsWithin(fs, closure, stuck, n)
    ensures |walk| == k + 1 && IsWalk(fs, closure, stuck, walk)
  {
    hide Follows;
    if k == 0 {
      var n :| n in stuck;
      walk := [n];
    } else {
      var w := LongWalk(fs, closure, stuck, k - 1);
      var n := w[|w| - 1];
      assert n in Elements(w);
      assert DependsWithin(fs, closure, stuck, n);
      var d :| d in stuck && Follows(fs, closure, d, n);
      walk := w + [d];
      ElementsAppend(w, d);
    }
  }

  /** A walk longer than the set it stays in comes back to where it was. */
  lemma Repeats(s: seq<Name>, all: set<Name>) returns (i: nat, j: nat)
    requires Elements(s) <= all && |s| > |all|
    ensures i < j < |s| && s[i] == s[j]
  {
    if NoRepeats(s) {
      CountNoRepeats(s);
      Subset(Elements(s), all);
      assert false;
    }
    i, j :| 0 <= i < j < |s| && s[i] == s[j];
  }

  lemma StuckCycle(fs: Formulas, closure: set<Name>, stuck: set<Name>) returns (ring: seq<Name>)
    requires closure <= fs.Keys && stuck <= closure && stuck != {}
    requires forall n :: n in stuck ==> DependsWithin(fs, closure, stuck, n)
    ensures IsCycle(fs, closure, ring) && Elements(ring) <= stuck
  {
    var walk := LongWalk(fs, closure, stuck, |stuck|);
    var i, j := Repeats(walk, stuck);
    ring := Loop(walk, i, j);
    hide Follows;
    forall k | 0 <= k < |ring|
      ensures ring[k] in stuck
    {
      assert walk[j - 1 - k] in Elements(walk);
    }
    forall k | 0 <= k < |ring|
      ensures Follows(fs, closure, Before(ring, k), ring[k])
    {
      assert Follows(fs, closure, walk[j - k], walk[j - 1 - k]);
    }
  }

  /** The part of a walk between two visits of the same place, read backwards. */
  function Loop(walk: seq<Name>, i: nat, j: nat): (ring: seq<Name>)
    requires i < j < |walk| && walk[i] == walk[j]
    ensures |ring| == j - i
    ensures forall k :: 0 <= k < |ring| ==> ring[k] == walk[j - 1 - k]
    ensures forall k :: 0 <= k < |ring| ==> Before(ring, k) == walk[j - k]
  {
    seq(j - i, k requires 0 <= k < j - i => walk[j - 1 - k])
  }

  /** The resolver answers with an order exactly when the closure has no cycle
      and no package lists a dependency of the closure twice. */
  lemma SucceedsExactly(fs: Formulas, closure: set<Name>, ordered: seq<Name>)
    requires closure <= fs.Keys && Outcome(fs, closure, ordered)
    ensures Elements(ordered) == closure <==>
            AllRepeatFree(fs, closure) && !exists ring :: IsCycle(fs, closure, ring)
  {
    if Elements(ordered) == closure {
      CompletePass(fs, closure, ordered);
      forall ring
        ensures !IsCycle(fs, closure, ring)
      {
        if IsCycle(fs, closure, ring) {
          OrderedHasNoCycle(fs, closure, ordered, ring);
        }
      }
    } else if AllRepeatFree(fs, closure) {
      var ring := ReportedCycle(fs, closure, ordered);
    }
  }

  /** When no list repeats a dependency the reported packages contain a real cycle. */
  lemma ReportedCycle(fs: Formulas, closure: set<Name>, ordered: seq<Name>) returns (ring: seq<Name>)
    requires closure <= fs.Keys && Outcome(fs, closure, ordered)
    requires Elements(ordered) != closure && AllRepeatFree(fs, closure)
    ensures IsCycle(fs, closure, ring) && Elements(ring) <= closure - Elements(ordered)
  {
    var stuck := closure - Elements(ordered);
    assert stuck != {} by {
      assert closure == stuck + Elements(ordered);
    }
    forall n | n in stuck
      ensures DependsWithin(fs, closure, stuck, n)
    {
      StuckDependency(fs, closure, ordered, n);
    }
    hide Outcome, AllRepeatFree, DependsWithin;
    ring := StuckCycle(fs, closure, stuck);
  }

  /** A repeated dependency alone makes the resolver report a cycle that is not there. */
  lemma RepeatedDependency()
    ensures var fs := map["a" := Formula("a", "1", ["b", "b"], [], false, true), "b" := Formula("b", "1", [], [], false, true)];
            && fs.Keys == {"a", "b"}
            && !RepeatFree(fs["a"].dependencies, fs.Keys)
            && IsTopological(fs, {"a", "b"}, ["b", "a"])
            && (!exists ring :: IsCycle(fs, {"a", "b"}, ring))
            && (forall ordered :: Outcome(fs, {"a", "b"}, ordered) ==> Elements(ordered) != {"a", "b"})
  {
    var fs := map["a" := Formula("a", "1", ["b", "b"], [], false, true), "b" := Formula("b", "1", [], [], false, true)];
    var order := ["b", "a"];
    assert order[..0] == [] && order[..1] == ["b"];
    assert "a" != "b" by { assert "a"[0] != "b"[0]; }
    assert Elements(order) == {"a", "b"};
    assert DepsIn(fs["a"].dependencies, {"a", "b"}) == {"b"};
    assert DepsIn(fs["b"].dependencies, {"a", "b"}) == {};
    forall ring
      ensures !IsCycle(fs, {"a", "b"}, ring)
    {
      if IsCycle(fs, {"a", "b"}, ring) {
        OrderedHasNoCycle(fs, {"a", "b"}, order, ring);
      }
    }
    forall ordered | Outcome(fs, {"a", "b"}, ordered)
      ensures Elements(ordered) != {"a", "b"}
    {
      SucceedsExactly(fs, {"a", "b"}, ordered);
    }
  }

  // The order of the roots and of the dependency lists does not matter.

  ghost predicate SameGraph(fs: Formulas, gs: Formulas) {
    fs.Keys == gs.Keys && forall n :: n in fs ==> Elements(fs[n].dependencies) == Elements(gs[n].dependencies)
  }

  lemma SameDeps(fs: Formulas, gs: Formulas, n: Name, s: set<Name>)
    requires SameGraph(fs, gs) && n in fs
    ensures DepsIn(fs[n].dependencies, s) == DepsIn(gs[n].dependencies, s)
    ensures KnownDeps(fs, n) == KnownDeps(gs, n)
  {
    assert forall d :: d in fs[n].dependencies <==> d in Elements(fs[n].dependencies);
    assert forall d :: d in gs[n].dependencies <==> d in Elements(gs[n].dependencies);
  }

  lemma SameClosure(roots: seq<Name>, others: seq<Name>, fs: Formulas, gs: Formulas, s: set<Name>, t: set<Name>)
    requires SameGraph(fs, gs) && Elements(roots) == Elements(others)
    requires IsClosure(roots, fs, s) && IsClosure(others, gs, t)
    ensures s == t
  {
    forall n | n in fs
      ensures KnownDeps(fs, n) == KnownDeps(gs, n)
    {
      SameDeps(fs, gs, n, {});
    }
    assert Closed(gs, s) && Closed(fs, t);
  }

  /** Reordering roots or dependency lists yields the same order. */
  lemma OrderIndependent(roots: seq<Name>, others: seq<Name>, fs: Formulas, gs: Formulas,
                         s: set<Name>, t: set<Name>, a: seq<Name>, b: seq<Name>)
    requires SameGraph(fs, gs) && Elements(roots) == Elements(others)
    requires IsClosure(roots, fs, s) && IsClosure(others, gs, t)
    requires Outcome(fs, s, a) && Elements(a) == s
    requires Outcome(gs, t, b) && Elements(b) == t
    ensures a == b
  {
    SameClosure(roots, others, fs, gs, s, t);
    CompletePass(fs, s, a);
    CompletePass(gs, s, b);
    forall n | n in fs
      ensures DepsIn(fs[n].dependencies, s) == DepsIn(gs[n].dependencies, s)
    {
      SameDeps(fs, gs, n, s);
    }
    assert forall i :: 0 <= i < |a| ==> a[i] in Elements(a);
    assert forall i :: 0 <= i < |b| ==> b[i] in Elements(b);
    assert IsTopological(gs, s, a) && IsTopological(fs, s, b);
    LeastOrder(fs, s, a, b);
    LeastOrder(gs, s, b, a);
    ListAntisymmetric(a, b);
  }
}
