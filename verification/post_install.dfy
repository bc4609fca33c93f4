/** Declared post-install links: made after a keg is materialized, taken out
    when it goes. */
module PostInstall {
  import opened Options
  import opened FileTree
  import opened Overlay
  import opened LinkSteps
  import opened DryRun
  import opened Succession
  import opened UpgradeLaws
  import opened Linking

  /** A declared step with its paths worked out: sources in the keg, targets below the prefix. */
  datatype Step =
    | MkdirP(target: Path)
    | LinkDir(source: Path, target: Path)
    | LinkChildren(source: Path, target: Path, suffix: string)
    | Unsupported

  datatype Operation =
    | Directory(dst: Path)
    | Tree(src: Path, dst: Path)
    | Child(src: Path, dst: Path)

  function TreeMount(op: Operation): Mount
    requires op.Tree?
  {
    Mount(op.src, op.dst, None)
  }

  /** Where an operation puts a link, and what the link points to. */
  predicate Places(w: World, op: Operation, p: Path) {
    match op
    case Directory(_) => false
    case Tree(_, dst) => p != dst && CoversFile(w, TreeMount(op), p)
    case Child(_, dst) => p == dst
  }

  function Target(w: World, op: Operation, p: Path): Path
    requires Places(w, op, p)
  {
    if op.Tree? then Image(TreeMount(op), p) else op.src
  }

  /** A directory symlink of the prefix where the operation's source has a directory. */
  predicate Tangles(w: World, f: Prefix, op: Operation, d: Path) {
    op.Tree? && d != op.dst && CoversFolder(w, TreeMount(op), d) && IsLink(f, d)
  }

  ghost predicate Untangled(w: World, f: Prefix, op: Operation) {
    forall d :: !Tangles(w, f, op, d)
  }

  /** What one operation makes of the prefix at `p`. */
  ghost predicate EffectAt(w: World, f: Prefix, op: Operation, g: Prefix, p: Path) {
    && (Untangled(w, f, op) ==> Leaf(g, p) == if Places(w, op, p) then Some(Link(Target(w, op, p))) else Leaf(f, p))
    && (Get(f, p) == Some(Dir) ==> Get(g, p) == Some(Dir))
    && (Tangles(w, f, op, p) ==> Get(g, p) == Some(Dir))
    && (IsLink(f, p) && !Places(w, op, p) ==> Get(g, p) == Get(f, p) || Get(g, p) == Some(Dir))
    && (IsLink(g, p) ==> Places(w, op, p) || LinkPoint(f, p).Some?)
    && (Get(g, p) == Some(File) ==> Get(f, p) == Some(File))
  }

  ghost predicate Effect(w: World, f: Prefix, op: Operation, g: Prefix) {
    forall p :: EffectAt(w, f, op, g, p)
  }

  // One operation.

  lemma DirectoryEffect(w: World, f: Prefix, d: Path, g: Prefix)
    requires ValidPrefix(f) && Rooted(f, d) && g == MakeDirs(f, d)
    ensures Effect(w, f, Directory(d), g)
  {
    MakeDirsKeeps(f, d);
    hide MakeDirs;
    forall p
      ensures EffectAt(w, f, Directory(d), g, p)
    {
      DirectoryAt(w, f, d, g, p);
    }
  }

  lemma DirectoryAt(w: World, f: Prefix, d: Path, g: Prefix, p: Path)
    requires Get(g, p) == if p !in f && p <= d then Some(Dir) else Get(f, p)
    ensures EffectAt(w, f, Directory(d), g, p)
  {
  }

  lemma ChildEffect(w: World, f: Prefix, src: Path, dst: Path, g: Prefix)
    requires ValidPrefix(f) && Get(f, dst) != Some(Dir) && g == f[dst := Link(src)]
    ensures Effect(w, f, Child(src, dst), g)
  {
  }

  lemma TreeEffect(w: World, f: Prefix, op: Operation, g: Prefix)
    requires ValidWorld(w) && ValidPrefix(f) && op.Tree? && op.dst != [] && NoLinkUpTo(f, op.dst)
    requires Rooted(f, op.dst) && Linkable(w, f, TreeMount(op), op.dst)
    requires IsAfter(w, f, TreeMount(op), op.dst, g) && SameOutside(g, MakeDirs(f, op.dst), op.dst)
    ensures Effect(w, f, op, g)
  {
    MakeDirsKeeps(f, op.dst);
    hide MakeDirs, Places, Target, Tangles, Leaf, EffectAt, After, Linkable;
    forall p
      ensures EffectAt(w, f, op, g, p)
    {
      if op.dst <= p {
        TreeInside(w, f, op, g, p);
      } else {
        TreeOutside(w, f, op, g, p);
      }
    }
  }

  lemma TreeOutside(w: World, f: Prefix, op: Operation, g: Prefix, p: Path)
    requires op.Tree? && !(op.dst <= p)
    requires Get(g, p) == if p !in f && p <= op.dst then Some(Dir) else Get(f, p)
    ensures EffectAt(w, f, op, g, p)
  {
  }

  lemma TreeInside(w: World, f: Prefix, op: Operation, g: Prefix, p: Path)
    requires ValidWorld(w) && ValidPrefix(f) && op.Tree? && op.dst != [] && NoLinkUpTo(f, op.dst)
    requires Linkable(w, f, TreeMount(op), op.dst) && op.dst <= p && Get(g, p) == After(w, f, TreeMount(op), p)
    requires Rooted(f, op.dst)
    ensures EffectAt(w, f, op, g, p)
  {
    var m, d := TreeMount(op), op.dst;
    assert p[..|p|] == p && d[..|d|] == d;
    assert p != d ==> Fits(w, f, m, p);
    assert forall j :: 0 <= j <= |d| ==> d[..j] == p[..j];
    match LinkPoint(f, p)
    case None =>
    case Some(k) =>
      assert k > |d|;
      if p in f && k < |p| {
        AncestorsAreDirs(f, p, k);
      }
      if Untangled(w, f, op) {
        assert !Tangles(w, f, op, p[..k]);
      }
      if IsLink(f, p) {
        LinkPointUnique(f, p, |p|);
      }
  }

  // A whole plan.

  function OpsOf(w: World, step: Step): set<Operation> {
    match step
    case MkdirP(t) => {Directory(t)}
    case LinkDir(s, t) => {Tree(s, t)}
    case LinkChildren(s, t, suffix) => {Directory(t)} + set c | c in Children(w, s) :: Child(s + [c], t + [c + suffix])
    case Unsupported => {}
  }

  function AllOps(w: World, steps: seq<Step>): set<Operation> {
    if steps == [] then {} else AllOps(w, steps[..|steps| - 1]) + OpsOf(w, steps[|steps| - 1])
  }

  predicate Elsewhere(w: World, op: Operation, q: Path) {
    && (!op.Child? ==> !(q <= op.dst))
    && !(op.Tree? && CoversFolder(w, TreeMount(op), q))
  }

  /** No link of the plan lands on or above a directory the plan needs. */
  ghost predicate Separate(w: World, ops: set<Operation>) {
    forall op, other, q :: op in ops && other in ops && Places(w, op, q) ==> Elsewhere(w, other, q)
  }

  ghost predicate AllUntangled(w: World, f: Prefix, ops: set<Operation>) {
    forall op :: op in ops ==> Untangled(w, f, op)
  }

  predicate Placed(w: World, ops: set<Operation>, p: Path) {
    exists op :: op in ops && Places(w, op, p)
  }

  /** The files and links at `p` after the operations in `done`. */
  ghost predicate LeafAfter(w: World, f: Prefix, done: set<Operation>, g: Prefix, p: Path) {
    if Placed(w, done, p) then exists op :: op in done && Places(w, op, p) && Leaf(g, p) == Some(Link(Target(w, op, p)))
    else Leaf(g, p) == Leaf(f, p)
  }

  ghost predicate Open(g: Prefix, ops: set<Operation>) {
    forall op :: op in ops && !op.Child? ==> NoLinkUpTo(g, op.dst)
  }

  ghost predicate Kept(w: World, f: Prefix, ops: set<Operation>, g: Prefix, d: Path) {
    && (IsLink(f, d) && !Placed(w, ops, d) ==> Get(g, d) == Get(f, d) || Get(g, d) == Some(Dir))
    && (Get(g, d) == Some(File) ==> Get(f, d) == Some(File))
  }

  /** Of the plan `ops` the operations in `done` have been carried out. */
  ghost predicate Applied(w: World, f: Prefix, ops: set<Operation>, done: set<Operation>, g: Prefix) {
    && ValidPrefix(g) && Open(g, ops)
    && (AllUntangled(w, f, ops) ==> forall p :: LeafAfter(w, f, done, g, p))
    && (forall op, d :: op in done && Tangles(w, f, op, d) ==> Get(g, d) == Some(Dir))
    && (forall d :: Kept(w, f, ops, g, d))
  }

  lemma AppliedStart(w: World, f: Prefix, ops: set<Operation>)
    requires ValidPrefix(f) && Open(f, ops)
    ensures Applied(w, f, ops, {}, f)
  {
  }

  lemma OpenStays(w: World, ops: set<Operation>, g: Prefix, op: Operation, h: Prefix)
    requires Separate(w, ops) && op in ops && Open(g, ops) && Effect(w, g, op, h)
    ensures Open(h, ops)
  {
    forall other, j | other in ops && !other.Child? && 0 <= j <= |other.dst|
      ensures !IsLink(h, other.dst[..j])
    {
      var q := other.dst[..j];
      assert EffectAt(w, g, op, h, q);
      assert Places(w, op, q) ==> Elsewhere(w, other, q);
      assert NoLinkUpTo(g, other.dst);
      assert forall i :: 0 <= i <= |q| ==> q[..i] == other.dst[..i];
    }
  }

  lemma StillUntangled(w: World, f: Prefix, ops: set<Operation>, done: set<Operation>, g: Prefix, op: Operation)
    requires Separate(w, ops) && op in ops && done <= ops && AllUntangled(w, f, ops)
    requires forall p :: LeafAfter(w, f, done, g, p)
    ensures Untangled(w, g, op)
  {
    forall d
      ensures !Tangles(w, g, op, d)
    {
      assert LeafAfter(w, f, done, g, d);
      assert !Tangles(w, f, op, d);
      assert forall first :: first in done && Places(w, first, d) ==> Elsewhere(w, op, d);
    }
  }

  lemma LeafNext(w: World, f: Prefix, done: set<Operation>, g: Prefix, op: Operation, h: Prefix, p: Path)
    requires LeafAfter(w, f, done, g, p)
    requires Leaf(h, p) == if Places(w, op, p) then Some(Link(Target(w, op, p))) else Leaf(g, p)
    ensures LeafAfter(w, f, done + {op}, h, p)
  {
  }

  lemma KeptNext(w: World, f: Prefix, ops: set<Operation>, g: Prefix, op: Operation, h: Prefix, d: Path)
    requires op in ops && Kept(w, f, ops, g, d) && EffectAt(w, g, op, h, d)
    ensures Kept(w, f, ops, h, d)
  {
  }

  lemma TangledNext(w: World, f: Prefix, ops: set<Operation>, g: Prefix, op: Operation, h: Prefix, d: Path)
    requires Separate(w, ops) && op in ops && Kept(w, f, ops, g, d) && EffectAt(w, g, op, h, d)
    requires Tangles(w, f, op, d)
    ensures Get(h, d) == Some(Dir)
  {
  }

  lemma AppliedNext(w: World, f: Prefix, ops: set<Operation>, done: set<Operation>, g: Prefix, op: Operation, h: Prefix)
    requires Separate(w, ops) && op in ops && done <= ops && Applied(w, f, ops, done, g)
    requires ValidPrefix(h) && Effect(w, g, op, h)
    ensures Applied(w, f, ops, done + {op}, h)
  {
    OpenStays(w, ops, g, op, h);
    hide Tangles, Places, Target, Leaf, Kept, LeafAfter, Separate, Open;
    if AllUntangled(w, f, ops) {
      StillUntangled(w, f, ops, done, g, op);
      forall p
        ensures LeafAfter(w, f, done + {op}, h, p)
      {
        assert EffectAt(w, g, op, h, p);
        LeafNext(w, f, done, g, op, h, p);
      }
    }
    forall d
      ensures Kept(w, f, ops, h, d)
      ensures Tangles(w, f, op, d) ==> Get(h, d) == Some(Dir)
      ensures Get(g, d) == Some(Dir) ==> Get(h, d) == Some(Dir)
    {
      assert EffectAt(w, g, op, h, d);
      KeptNext(w, f, ops, g, op, h, d);
      if Tangles(w, f, op, d) {
        TangledNext(w, f, ops, g, op, h, d);
      }
    }
  }

  // Taking the links out again.

  predicate HasSuffix(n: Name, suffix: string) {
    |suffix| <= |n| && n[|n| - |suffix|..] == suffix
  }

  /** The entry is a link that this step makes, whether or not its source is still there. */
  predicate Owns(step: Step, p: Path, e: Entry) {
    match step
    case LinkDir(s, t) => t <= p && p != t && e == Link(s + p[|t|..])
    case LinkChildren(s, t, suffix) =>
      && t <= p && |p| == |t| + 1 && HasSuffix(p[|t|], suffix)
      && e == Link(s + [p[|t|][..|p[|t|]| - |suffix|]])
    case _ => false
  }

  predicate OwnedBySteps(steps: seq<Step>, f: Prefix, p: Path) {
    p in f && exists i :: 0 <= i < |steps| && Owns(steps[i], p, f[p])
  }

  ghost predicate Removed(steps: seq<Step>, f: Prefix, g: Prefix) {
    forall p :: Get(g, p) == if OwnedBySteps(steps, f, p) then None else Get(f, p)
  }

  /** What an operation of a step puts in place the step owns. */
  lemma PlacedIsOwned(w: World, step: Step, op: Operation, p: Path)
    requires op in OpsOf(w, step) && Places(w, op, p)
    ensures Owns(step, p, Link(Target(w, op, p)))
  {
  }

  lemma {:induction false} StepOf(w: World, steps: seq<Step>, op: Operation) returns (i: nat)
    requires op in AllOps(w, steps)
    ensures i < |steps| && op in OpsOf(w, steps[i])
  {
    if op in OpsOf(w, steps[|steps| - 1]) {
      i := |steps| - 1;
    } else {
      i := StepOf(w, steps[..|steps| - 1], op);
    }
  }

  /** Applying the steps and removing them again restores every file and link of
      the prefix exactly when the places were free, no link of the formula's
      own was there, and no directory symlink had to be unfolded. */
  lemma PostInstallRoundTrip(w: World, f: Prefix, steps: seq<Step>, g: Prefix, h: Prefix)
    requires Applied(w, f, AllOps(w, steps), AllOps(w, steps), g) && Removed(steps, g, h)
    ensures (forall p :: Leaf(h, p) == Leaf(f, p)) <==>
            && (forall p :: Placed(w, AllOps(w, steps), p) ==> Leaf(f, p) == None)
            && (forall p :: !OwnedBySteps(steps, f, p))
            && AllUntangled(w, f, AllOps(w, steps))
  {
    var ops := AllOps(w, steps);
    hide AllOps;
    forall p
      ensures OwnedBySteps(steps, f, p) ==> Leaf(h, p) != Leaf(f, p)
    {
      OwnedIsGone(steps, f, g, h, p);
    }
    forall op, d | op in ops && Tangles(w, f, op, d)
      ensures Leaf(h, d) != Leaf(f, d)
    {
      assert Get(g, d) == Some(Dir);
      DirStaysBare(steps, f, g, h, d);
    }
    if AllUntangled(w, f, ops) {
      forall p
        ensures Placed(w, ops, p) ==> Leaf(h, p) == None
        ensures !Placed(w, ops, p) && !OwnedBySteps(steps, f, p) ==> Leaf(h, p) == Leaf(f, p)
      {
        assert LeafAfter(w, f, ops, g, p);
        if Placed(w, ops, p) {
          var op :| op in ops && Places(w, op, p) && Leaf(g, p) == Some(Link(Target(w, op, p)));
          var i := StepOf(w, steps, op);
          PlacedIsOwned(w, steps[i], op, p);
          assert OwnedBySteps(steps, g, p);
        } else if !OwnedBySteps(steps, f, p) {
          UnplacedStays(steps, f, g, h, p);
        }
      }
    }
    hide Placed, Leaf, OwnedBySteps, Tangles, Places;
  }

  /** After a plan has been applied its links can be taken out again: no target is refused. */
  lemma AppliedCanBeRemoved(w: World, f: Prefix, keg: Path, steps: seq<Step>, g: Prefix, i: nat)
    requires Applied(w, f, AllOps(w, steps), AllOps(w, steps), g)
    requires i < |steps| && StepOk(w, f, keg, steps[i]) && (steps[i].LinkDir? || steps[i].LinkChildren?)
    ensures DestinationOk(g, steps[i].target)
  {
    var ops, t := AllOps(w, steps), steps[i].target;
    var op := if steps[i].LinkDir? then Tree(steps[i].source, t) else Directory(t);
    OpOf(w, steps, i, op);
    hide AllOps;
    assert NoLinkUpTo(g, op.dst);
    forall j | 0 <= j <= |t| && t[..j] in g
      ensures g[t[..j]].Dir?
    {
      assert Kept(w, f, ops, g, t[..j]);
    }
  }

  lemma {:induction false} OpOf(w: World, steps: seq<Step>, i: nat, op: Operation)
    requires i < |steps| && op in OpsOf(w, steps[i])
    ensures op in AllOps(w, steps)
  {
    hide OpsOf;
    if i < |steps| - 1 {
      OpOf(w, steps[..|steps| - 1], i, op);
    }
  }

  lemma OwnedIsGone(steps: seq<Step>, f: Prefix, g: Prefix, h: Prefix, p: Path)
    requires Removed(steps, g, h)
    ensures OwnedBySteps(steps, f, p) ==> Leaf(h, p) != Leaf(f, p)
  {
    if OwnedBySteps(steps, f, p) {
      assert f[p].Link?;
      assert Get(g, p) == Get(f, p) ==> OwnedBySteps(steps, g, p);
      assert Get(h, p) != Get(f, p);
    }
  }

  lemma DirStaysBare(steps: seq<Step>, f: Prefix, g: Prefix, h: Prefix, d: Path)
    requires Removed(steps, g, h) && Get(g, d) == Some(Dir) && IsLink(f, d)
    ensures Leaf(h, d) != Leaf(f, d)
  {
  }

  lemma UnplacedStays(steps: seq<Step>, f: Prefix, g: Prefix, h: Prefix, p: Path)
    requires Removed(steps, g, h) && Leaf(g, p) == Leaf(f, p) && !OwnedBySteps(steps, f, p)
    ensures Leaf(h, p) == Leaf(f, p)
  {
    OwnedIsLink(steps, g, p);
    if p in g && !g[p].Dir? {
      assert Get(f, p) == Get(g, p);
      assert OwnedBySteps(steps, g, p) == OwnedBySteps(steps, f, p);
    }
    assert Get(h, p) == Get(g, p);
  }

  lemma OwnedIsLink(steps: seq<Step>, f: Prefix, p: Path)
    ensures OwnedBySteps(steps, f, p) ==> p in f && f[p].Link?
  {
  }

  // The two passes over a plan.

  /** The target can be reached through real directories only, or made. */
  ghost predicate DestinationOk(f: Prefix, dst: Path) {
    forall j :: 0 <= j <= |dst| && dst[..j] in f ==> f[dst[..j]].Dir?
  }

  ghost predicate StepOk(w: World, f: Prefix, keg: Path, step: Step) {
    step.LinkDir? || step.LinkChildren? ==>
      DestinationOk(f, step.target) && step.source in w && w[step.source].Folder? && keg <= step.source
  }

  /** Nothing of another owner is where the operation puts its links. */
  ghost predicate Clear(w: World, f: Prefix, op: Operation) {
    match op
    case Directory(dst) => DestinationOk(f, dst)
    case Tree(_, dst) => DestinationOk(f, dst) && forall p :: dst <= p && p != dst ==> !ConflictAt(w, f, TreeMount(op), p)
    case Child(src, dst) => dst !in f || (f[dst].Link? && (f[dst].target == src || SameFormula(w, f[dst].target, src)))
  }

  method CheckDestination(linker: Linker, dst: Path) returns (ok: bool)
    ensures ok <==> DestinationOk(linker.fs, dst)
  {
    var j := 0;
    while j <= |dst|
      invariant j <= |dst| + 1
      invariant forall i :: 0 <= i < j && dst[..i] in linker.fs ==> linker.fs[dst[..i]].Dir?
    {
      if dst[..j] in linker.fs && !linker.fs[dst[..j]].Dir? {
        return false;
      }
      j := j + 1;
    }
    return true;
  }

  /** Works out every operation before anything is touched. */
  method PlanSteps(linker: Linker, keg: Path, steps: seq<Step>) returns (r: Option<seq<Operation>>)
    ensures r.Some? <==> forall i :: 0 <= i < |steps| ==> StepOk(linker.world, linker.fs, keg, steps[i])
    ensures r.Some? ==> forall op :: op in r.value <==> op in AllOps(linker.world, steps)
    ensures r.Some? ==> DirectoriesFirst(r.value)
  {
    var ops := [];
    var i := 0;
    while i < |steps|
      invariant i <= |steps|
      invariant forall j :: 0 <= j < i ==> StepOk(linker.world, linker.fs, keg, steps[j])
      invariant forall op :: op in ops <==> op in AllOps(linker.world, steps[..i])
      invariant DirectoriesFirst(ops)
    {
      var step := steps[i];
      assert steps[..i + 1][..i] == steps[..i];
      if step.LinkDir? || step.LinkChildren? {
        var ok := CheckDestination(linker, step.target);
        if !ok || !(step.source in linker.world && linker.world[step.source].Folder? && keg <= step.source) {
          return None;
        }
      }
      var more := PlanStep(linker, step);
      OrderKept(ops, more);
      ops := ops + more;
      i := i + 1;
    }
    assert steps[..|steps|] == steps;
    return Some(ops);
  }

  /** Every child is linked behind the operation that makes its directory. */
  ghost predicate DirectoriesFirst(ops: seq<Operation>) {
    forall k :: 0 <= k < |ops| && ops[k].Child? ==> ops[k].dst != [] && Directory(Parent(ops[k].dst)) in ops[..k]
  }

  lemma OrderKept(a: seq<Operation>, b: seq<Operation>)
    requires DirectoriesFirst(a) && DirectoriesFirst(b)
    ensures DirectoriesFirst(a + b)
  {
    var all := a + b;
    forall k | 0 <= k < |all| && all[k].Child?
      ensures all[k].dst != [] && Directory(Parent(all[k].dst)) in all[..k]
    {
      if k < |a| {
        assert all[..k] == a[..k];
      } else {
        assert all[k] == b[k - |a|];
        assert all[..k] == a + b[..k - |a|];
      }
    }
  }

  lemma DirectoryFirst(ops: seq<Operation>, t: Path)
    requires ops != [] && ops[0] == Directory(t)
    requires forall k :: 0 <= k < |ops| && ops[k].Child? ==> ops[k].dst != [] && Parent(ops[k].dst) == t
    ensures DirectoriesFirst(ops)
  {
    forall k | 0 <= k < |ops| && ops[k].Child?
      ensures Directory(t) in ops[..k]
    {
      assert ops[..k][0] == ops[0];
    }
  }

  method PlanStep(linker: Linker, step: Step) returns (ops: seq<Operation>)
    ensures forall op :: op in ops <==> op in OpsOf(linker.world, step)
    ensures DirectoriesFirst(ops)
  {
    match step
    case MkdirP(t) => return [Directory(t)];
    case LinkDir(s, t) => return [Tree(s, t)];
    case Unsupported => return [];
    case LinkChildren(s, t, suffix) =>
      ops := [Directory(t)];
      var todo := Children(linker.world, s);
      while todo != {}
        invariant todo <= Children(linker.world, s)
        invariant ops != [] && ops[0] == Directory(t)
        invariant forall k :: 0 <= k < |ops| && ops[k].Child? ==> ops[k].dst != [] && Parent(ops[k].dst) == t
        invariant forall op :: op in ops <==> op == Directory(t) || exists c :: c in Children(linker.world, s) - todo && op == Child(s + [c], t + [c + suffix])
        decreases |todo|
      {
        var c :| c in todo;
        todo := todo - {c};
        ops := ops + [Child(s + [c], t + [c + suffix])];
        assert Parent(t + [c + suffix]) == t;
      }
      assert DirectoriesFirst(ops) by { DirectoryFirst(ops, t); }
  }

  ghost predicate ClearUpTo(w: World, f: Prefix, ops: seq<Operation>, i: nat)
    requires i <= |ops|
  {
    forall j :: 0 <= j < i ==> Clear(w, f, ops[j])
  }

  lemma MoreChecked(w: World, f: Prefix, ops: seq<Operation>, i: nat, conflicts: seq<ConflictedLink>, found: seq<ConflictedLink>)
    requires i < |ops| && (conflicts == [] <==> ClearUpTo(w, f, ops, i)) && (found == [] <==> Clear(w, f, ops[i]))
    ensures conflicts + found == [] <==> ClearUpTo(w, f, ops, i + 1)
  {
  }

  /** Checks the complete plan; nothing has been written when it fails. */
  method CheckPlan(linker: Linker, ops: seq<Operation>) returns (r: Result<()>)
    requires ValidWorld(linker.world) && ValidPrefix(linker.fs)
    ensures r.Ok? <==> forall op :: op in ops ==> Clear(linker.world, linker.fs, op)
  {
    ghost var bound := LongestPath(linker.world.Keys);
    var conflicts: seq<ConflictedLink> := [];
    var i := 0;
    while i < |ops|
      invariant i <= |ops|
      invariant conflicts == [] <==> ClearUpTo(linker.world, linker.fs, ops, i)
    {
      var op := ops[i];
      assert ops[..i + 1] == ops[..i] + [op];
      var found: seq<ConflictedLink> := [];
      match op {
        case Directory(dst) =>
          var ok := CheckDestination(linker, dst);
          if !ok {
            assert op in ops && !Clear(linker.world, linker.fs, op);
            return Err(StoreCorruption);
          }
        case Tree(src, dst) =>
          var ok := CheckDestination(linker, dst);
          if !ok {
            assert op in ops && !Clear(linker.world, linker.fs, op);
            return Err(StoreCorruption);
          }
          PlainDestination(linker.world, linker.fs, dst);
          assert Image(TreeMount(op), dst) == src;
          found := linker.CollectConflicts(src, dst, false, TreeMount(op), bound);
          NothingReported(linker.world, linker.fs, op, found);
        case Child(src, dst) =>
          if dst in linker.fs {
            var mine := linker.fs[dst].Link? && (linker.fs[dst].target == src || SameFormula(linker.world, linker.fs[dst].target, src));
            if !mine {
              var owner := if linker.fs[dst].Link? && linker.fs[dst].target in linker.world then KegName(linker.fs[dst].target) else None;
              found := [ConflictedLink(dst, owner)];
            }
          }
      }
      assert found == [] <==> Clear(linker.world, linker.fs, op);
      MoreChecked(linker.world, linker.fs, ops, i, conflicts, found);
      conflicts := conflicts + found;
      i := i + 1;
    }
    assert conflicts == [] <==> forall op :: op in ops ==> Clear(linker.world, linker.fs, op);
    return if conflicts == [] then Ok(()) else Err(LinkConflict(conflicts));
  }

  lemma PlainDestination(w: World, f: Prefix, dst: Path)
    requires DestinationOk(f, dst)
    ensures Plain(w, f, dst) && NoLinkUpTo(f, dst)
  {
  }

  lemma NothingReported(w: World, f: Prefix, op: Operation, found: seq<ConflictedLink>)
    requires op.Tree? && DestinationOk(f, op.dst) && Reports(w, f, TreeMount(op), op.dst, found)
    ensures found == [] <==> Clear(w, f, op)
  {
    hide ConflictAt, OwnerAt, DestinationOk;
    if found != [] {
      assert found[0] in found;
    }
  }

  // When the operations go through.

  /** What one operation has done. */
  ghost predicate Changes(w: World, f: Prefix, op: Operation, g: Prefix) {
    match op
    case Directory(dst) => Rooted(f, dst) && g == MakeDirs(f, dst)
    case Tree(_, dst) =>
      && Rooted(f, dst) && Linkable(w, f, TreeMount(op), dst)
      && IsAfter(w, f, TreeMount(op), dst, g) && SameOutside(g, MakeDirs(f, dst), dst)
    case Child(src, dst) => Get(f, dst) != Some(Dir) && g == f[dst := Link(src)]
  }

  lemma ChangeEffect(w: World, f: Prefix, op: Operation, g: Prefix)
    requires ValidWorld(w) && ValidPrefix(f) && op.dst != [] && (!op.Child? ==> NoLinkUpTo(f, op.dst))
    requires Changes(w, f, op, g)
    ensures Effect(w, f, op, g)
  {
    hide Effect, MakeDirs, Linkable, IsAfter, SameOutside, NoLinkUpTo, ValidWorld;
    match op
    case Directory(dst) => DirectoryEffect(w, f, dst, g);
    case Tree(_, _) => TreeEffect(w, f, op, g);
    case Child(src, dst) => ChildEffect(w, f, src, dst, g);
  }

  /** The prefix leaves room for the operation. */
  ghost predicate OpFits(w: World, f: Prefix, op: Operation) {
    match op
    case Directory(dst) => DestinationOk(f, dst)
    case Tree(_, dst) =>
      && DestinationOk(f, dst) && CoversFolder(w, TreeMount(op), dst)
      && forall p :: Below(TreeMount(op), p) ==> Fits(w, f, TreeMount(op), p)
    case Child(_, dst) => Get(f, dst) == None || IsLink(f, dst)
  }

  /** The operations link files of one keg, and make the directories they link into. */
  ghost predicate OneKeg(w: World, keg: Path, ops: set<Operation>) {
    && KegName(keg).Some?
    && (forall op :: op in ops ==> op.dst != [])
    && (forall op :: op in ops && !op.Directory? ==> keg <= op.src)
    && (forall op :: op in ops && op.Child? ==> op.src in w && Directory(Parent(op.dst)) in ops)
  }

  ghost predicate PlanFits(w: World, f: Prefix, ops: set<Operation>) {
    forall op :: op in ops ==> OpFits(w, f, op)
  }

  lemma SameKeg(w: World, keg: Path, x: Path, y: Path)
    requires KegName(keg).Some? && keg <= x && keg <= y && x in w && y in w
    ensures SameFormula(w, x, y)
  {
    KegNameExtends(keg, x);
    KegNameExtends(keg, y);
  }

  lemma SourceIn(m: Mount, keg: Path, p: Path)
    requires m.dst <= p && keg <= m.src
    ensures keg <= Image(m, p)
  {
  }

  /** New directories leave a tree's places alone: its files are not above a directory of the plan. */
  lemma DirectoryStillFits(w: World, f: Prefix, d: Path, other: Operation, p: Path)
    requires ValidPrefix(f) && Rooted(f, d) && other.Tree? && Below(TreeMount(other), p)
    requires forall q :: Places(w, other, q) ==> !(q <= d)
    requires Fits(w, f, TreeMount(other), p)
    ensures Fits(w, MakeDirs(f, d), TreeMount(other), p)
  {
    MakeDirsGrows(f, d, p);
    assert CoversFile(w, TreeMount(other), p) ==> Places(w, other, p);
    hide MakeDirs, Fits, Places, Rooted, ValidPrefix, CoversFile;
    GrownFits(w, f, MakeDirs(f, d), TreeMount(other), p);
  }

  lemma MakeDirsGrows(f: Prefix, d: Path, p: Path)
    requires ValidPrefix(f) && Rooted(f, d)
    ensures GrownAlong(f, MakeDirs(f, d), p)
    ensures Get(MakeDirs(f, d), p) != Get(f, p) ==> p <= d
  {
    MakeDirsKeeps(f, d);
    hide MakeDirs;
    forall j | 0 <= j <= |p|
      ensures Grown(f, MakeDirs(f, d), p[..j])
    {
      assert Get(MakeDirs(f, d), p[..j]) == if p[..j] !in f && p[..j] <= d then Some(Dir) else Get(f, p[..j]);
    }
  }

  /** A child's link is in no tree's way, but may stand where a tree of the same keg has a file. */
  lemma ChildStillFits(w: World, keg: Path, f: Prefix, op: Operation, g: Prefix, other: Operation, p: Path)
    requires ValidWorld(w) && ValidPrefix(f) && ValidPrefix(g)
    requires op.Child? && op.dst != [] && g == f[op.dst := Link(op.src)]
    requires other.Tree? && Elsewhere(w, other, op.dst) && Below(TreeMount(other), p) && Fits(w, f, TreeMount(other), p)
    requires KegName(keg).Some? && keg <= op.src && op.src in w && keg <= other.src
    ensures Fits(w, g, TreeMount(other), p)
  {
    var m, d := TreeMount(other), op.dst;
    if !(d <= p) {
      forall j | 0 <= j <= |p|
        ensures Grown(f, g, p[..j])
      {
        assert p[..j] != d by { assert p[..j] <= p; }
      }
      GrownFits(w, f, g, m, p);
    } else if d != p {
      assert p[..|d|] == d;
      NotCoveredUnder(w, m, d, p);
    } else if CoversFile(w, m, p) {
      SourceIn(m, keg, p);
      SameKeg(w, keg, op.src, Image(m, p));
      assert p[..|p|] == p;
      LinkPointUnique(g, p, |p|);
      ParentIsDir(g, p);
      hide LinkPoint, Image, SameFormula;
    }
  }

  lemma NotCoveredUnder(w: World, m: Mount, d: Path, p: Path)
    requires ValidWorld(w) && m.hidden == None && d <= p && d != p && m.dst <= p
    requires !(d <= m.dst) && !CoversFolder(w, m, d)
    ensures !Covers(w, m, p)
  {
    assert p[..|d|] == d;
    hide ValidWorld, Image;
    if Covers(w, m, p) {
      CoverIsClosed(w, m, p, |d|);
    }
  }

  /** What one tree links leaves room for the other. */
  lemma TreeStillFits(w: World, keg: Path, f: Prefix, op: Operation, g: Prefix, other: Operation, p: Path)
    requires ValidWorld(w) && ValidPrefix(f) && ValidPrefix(g) && op.Tree? && other.Tree? && op.dst != []
    requires Changes(w, f, op, g) && OpFits(w, f, op) && OpFits(w, f, other) && Below(TreeMount(other), p)
    requires forall q :: Places(w, op, q) ==> Elsewhere(w, other, q)
    requires forall q :: Places(w, other, q) ==> Elsewhere(w, op, q)
    requires KegName(keg).Some? && keg <= op.src && keg <= other.src
    ensures Fits(w, g, TreeMount(other), p)
  {
    var first, second, made := TreeMount(op), TreeMount(other), MakeDirs(f, op.dst);
    MakeDirsKeeps(f, op.dst);
    assert NoLinkUpTo(f, op.dst) && NoLinkUpTo(f, other.dst);
    MadeNoLinks(f, op.dst, op.dst);
    MadeNoLinks(f, op.dst, other.dst);
    hide MakeDirs, Fits;
    forall j | 0 <= j <= |p| && Below(second, p[..j])
      ensures Fits(w, made, second, p[..j])
    {
      DirectoryStillFits(w, f, op.dst, other, p[..j]);
    }
    assert FitsAlone(w, made, second, p);
    TreeAlong(w, f, op, g, p);
    TreesCompatible(w, op, other, p);
    if CoversFile(w, first, p) && CoversFile(w, second, p) {
      SourceIn(first, keg, p);
      SourceIn(second, keg, p);
      SameKeg(w, keg, Image(first, p), Image(second, p));
    }
    assert Ordinary(w, made, first, g, second);
    hide *;
    StillFits(w, made, first, g, second, p);
  }

  lemma MadeNoLinks(f: Prefix, d: Path, t: Path)
    requires ValidPrefix(f) && Rooted(f, d) && NoLinkUpTo(f, t)
    ensures NoLinkUpTo(MakeDirs(f, d), t)
  {
    MakeDirsKeeps(f, d);
    hide MakeDirs;
    forall j | 0 <= j <= |t|
      ensures !IsLink(MakeDirs(f, d), t[..j])
    {
      assert Get(MakeDirs(f, d), t[..j]) == if t[..j] !in f && t[..j] <= d then Some(Dir) else Get(f, t[..j]);
    }
  }

  lemma TreeAlong(w: World, f: Prefix, op: Operation, g: Prefix, p: Path)
    requires ValidPrefix(f) && op.Tree? && Changes(w, f, op, g) && OpFits(w, f, op)
    ensures Along(w, MakeDirs(f, op.dst), TreeMount(op), g, p)
  {
    var m, d, made := TreeMount(op), op.dst, MakeDirs(f, op.dst);
    hide MakeDirs, Covers;
    forall j | 0 <= j <= |p|
      ensures if Below(m, p[..j]) then Get(g, p[..j]) == After(w, made, m, p[..j]) && Fits(w, made, m, p[..j])
              else Get(g, p[..j]) == Get(made, p[..j])
    {
      var q := p[..j];
      MakeDirsGrows(f, d, q);
      if Below(m, q) {
        assert !(q <= d);
        GrownBase(w, f, made, m, q);
        GrownFits(w, f, made, m, q);
        hide Base, Fits;
      } else if q == d {
        TreeRoot(w, f, op, g);
      }
    }
  }

  lemma TreeRoot(w: World, f: Prefix, op: Operation, g: Prefix)
    requires ValidPrefix(f) && op.Tree? && Changes(w, f, op, g) && OpFits(w, f, op)
    ensures Get(g, op.dst) == Get(MakeDirs(f, op.dst), op.dst) == Some(Dir)
  {
    var m, d := TreeMount(op), op.dst;
    MakeDirsKeeps(f, d);
    hide MakeDirs;
    assert Get(g, d) == After(w, f, m, d);
    assert d[..|d|] == d;
    assert LinkPoint(f, d) == None;
    assert Get(MakeDirs(f, d), d) == if d !in f && d <= d then Some(Dir) else Get(f, d);
  }

  lemma TreesCompatible(w: World, op: Operation, other: Operation, p: Path)
    requires op.Tree? && other.Tree? && Below(TreeMount(other), p)
    requires forall q :: Places(w, op, q) ==> Elsewhere(w, other, q)
    requires forall q :: Places(w, other, q) ==> Elsewhere(w, op, q)
    ensures Compatible(w, TreeMount(op), TreeMount(other), p)
  {
    var first, second := TreeMount(op), TreeMount(other);
    forall j | 0 <= j <= |p| && Below(first, p[..j])
      ensures if Below(second, p[..j]) then KindsAlike(w, first, second, p[..j]) else !CoversFile(w, first, p[..j])
    {
      var q := p[..j];
      assert CoversFile(w, first, q) ==> Places(w, op, q);
      if Below(second, q) {
        assert CoversFile(w, second, q) ==> Places(w, other, q);
      } else {
        assert q <= other.dst;
      }
    }
  }

  lemma DestinationStays(w: World, f: Prefix, op: Operation, g: Prefix, dst: Path)
    requires Effect(w, f, op, g) && DestinationOk(f, dst)
    requires forall q :: Places(w, op, q) ==> !(q <= dst)
    ensures DestinationOk(g, dst)
  {
    forall j | 0 <= j <= |dst| && dst[..j] in g
      ensures g[dst[..j]].Dir?
    {
      var q := dst[..j];
      assert EffectAt(w, f, op, g, q);
      assert forall i :: 0 <= i <= |q| ==> q[..i] == dst[..i];
      assert LinkPoint(f, q) == None;
      assert q <= dst;
    }
  }

  /** A child's place stays free, or taken by a link. */
  lemma ChildStays(w: World, f: Prefix, op: Operation, g: Prefix, other: Operation)
    requires ValidPrefix(f) && other.Child? && other.dst != [] && DestinationOk(f, Parent(other.dst)) && OpFits(w, f, other)
    requires Changes(w, f, op, g) && Elsewhere(w, op, other.dst)
    ensures OpFits(w, g, other)
  {
    var c := other.dst;
    match op
    case Directory(d) =>
      MakeDirsKeeps(f, d);
      hide MakeDirs;
      assert Get(g, c) == if c !in f && c <= d then Some(Dir) else Get(f, c);
    case Child(_, _) =>
    case Tree(_, d) =>
      var m := TreeMount(op);
      if d <= c {
        assert Get(g, c) == After(w, f, m, c);
        assert forall j :: 0 <= j < |c| ==> c[..j] == Parent(c)[..j];
        assert c[..|c|] == c;
        assert !Unfolds(w, f, m, c);
        hide LinkPoint, MakeDirs, Covers, Linkable;
      } else {
        MakeDirsKeeps(f, d);
        hide MakeDirs, Linkable;
        assert Get(g, c) == Get(MakeDirs(f, d), c);
        assert Get(MakeDirs(f, d), c) == if c !in f && c <= d then Some(Dir) else Get(f, c);
      }
  }

  /** Each operation leaves room for all of the plan. */
  lemma PlanStillFits(w: World, keg: Path, ops: set<Operation>, f: Prefix, op: Operation, g: Prefix)
    requires ValidWorld(w) && ValidPrefix(f) && ValidPrefix(g)
    requires Separate(w, ops) && OneKeg(w, keg, ops) && op in ops && PlanFits(w, f, ops) && Changes(w, f, op, g)
    ensures PlanFits(w, g, ops)
  {
    assert OpFits(w, f, op);
    ChangeEffect(w, f, op, g);
    forall other | other in ops
      ensures OpFits(w, g, other)
    {
      assert forall q :: Places(w, op, q) ==> Elsewhere(w, other, q);
      assert forall q :: Places(w, other, q) ==> Elsewhere(w, op, q);
      assert OpFits(w, f, other) && other.dst != [] && op.dst != [];
      if other.Child? {
        assert OpFits(w, f, Directory(Parent(other.dst)));
        assert Places(w, other, other.dst);
        hide Separate, PlanFits, OneKeg, Changes, Places, ValidWorld, ValidPrefix, Effect;
        ChildStays(w, f, op, g, other);
      } else {
        OtherStays(w, keg, ops, f, op, g, other);
      }
    }
  }

  lemma OtherStays(w: World, keg: Path, ops: set<Operation>, f: Prefix, op: Operation, g: Prefix, other: Operation)
    requires ValidWorld(w) && ValidPrefix(f) && ValidPrefix(g) && op.dst != []
    requires OneKeg(w, keg, ops) && op in ops && other in ops && !other.Child?
    requires forall q :: Places(w, op, q) ==> Elsewhere(w, other, q)
    requires forall q :: Places(w, other, q) ==> Elsewhere(w, op, q)
    requires OpFits(w, f, op) && OpFits(w, f, other) && Changes(w, f, op, g) && Effect(w, f, op, g)
    ensures OpFits(w, g, other)
  {
    assert !op.Directory? ==> keg <= op.src;
    assert op.Child? ==> Places(w, op, op.dst) && op.src in w;
    assert DestinationOk(f, other.dst);
    DestinationStays(w, f, op, g, other.dst);
    hide OneKeg, Effect, DestinationOk, Fits, CoversFolder, MakeDirs, ValidWorld, ValidPrefix, Rooted;
    if other.Tree? {
      assert keg <= other.src && KegName(keg).Some? by { KegOf(w, keg, ops, other); }
      forall p | Below(TreeMount(other), p)
        ensures Fits(w, g, TreeMount(other), p)
      {
        match op
        case Directory(d) => DirectoryStillFits(w, f, d, other, p);
        case Child(_, _) => ChildStillFits(w, keg, f, op, g, other, p);
        case Tree(_, _) => TreeStillFits(w, keg, f, op, g, other, p);
      }
    }
  }

  lemma KegOf(w: World, keg: Path, ops: set<Operation>, op: Operation)
    requires OneKeg(w, keg, ops) && op in ops && !op.Directory?
    ensures KegName(keg).Some? && keg <= op.src
  {
  }

  /** Carries out one operation. */
  method Execute(linker: Linker, op: Operation, ghost bound: nat) returns (ok: bool)
    requires ValidWorld(linker.world) && ValidPrefix(linker.fs) && op.dst != []
    requires forall p :: p in linker.world ==> |p| <= bound
    requires !op.Child? ==> NoLinkUpTo(linker.fs, op.dst)
    modifies linker`fs
    ensures ValidPrefix(linker.fs)
    ensures ok ==> Changes(linker.world, old(linker.fs), op, linker.fs)
    ensures OpFits(linker.world, old(linker.fs), op) && (op.Child? ==> Get(old(linker.fs), Parent(op.dst)) == Some(Dir)) ==> ok
  {
    hide MakeDirs, IsAfter, SameOutside, NoLinkUpTo, ValidWorld, Fits;
    ghost var f := linker.fs;
    match op
    case Directory(dst) =>
      assert dst[..|dst|] == dst;
      ok := linker.CreateDirAll(dst);
      if ok {
        MakeDirsKeeps(f, dst);
      }
    case Tree(src, dst) =>
      assert Image(TreeMount(op), dst) == src;
      var r := linker.LinkRecursive(src, dst, false, TreeMount(op), false, bound);
      ok := r.Ok?;
    case Child(src, dst) =>
      if dst in linker.fs {
        if linker.fs[dst].Dir? {
          return false;
        }
        linker.fs := linker.fs - {dst};
      }
      LeafRemoval(f, dst);
      assert Parent(dst) != dst;
      ok := linker.Symlink(src, dst);
      if ok {
        assert linker.fs == f[dst := Link(src)];
      }
  }

  /** Files meet files and directories meet directories where the trees of the plan go. */
  ghost predicate NoClash(w: World, f: Prefix, op: Operation) {
    op.Tree? ==> forall p :: Below(TreeMount(op), p) ==> !KindClash(w, f, TreeMount(op), p)
  }

  /** The plan can be carried out as a whole. */
  ghost predicate Applicable(w: World, f: Prefix, keg: Path, steps: seq<Step>) {
    && KegName(keg).Some?
    && (forall i :: 0 <= i < |steps| ==> StepOk(w, f, keg, steps[i]))
    && (forall op :: op in AllOps(w, steps) ==> Clear(w, f, op) && NoClash(w, f, op))
  }

  lemma ApplicableFits(w: World, f: Prefix, keg: Path, steps: seq<Step>)
    requires ValidWorld(w) && ValidPrefix(f) && Applicable(w, f, keg, steps)
    requires forall op :: op in AllOps(w, steps) ==> op.dst != []
    ensures PlanFits(w, f, AllOps(w, steps)) && OneKeg(w, keg, AllOps(w, steps))
  {
    var ops := AllOps(w, steps);
    hide AllOps;
    forall op | op in ops
      ensures OpFits(w, f, op)
      ensures !op.Directory? ==> keg <= op.src
      ensures op.Child? ==> op.src in w && Directory(Parent(op.dst)) in ops
    {
      var i := StepOf(w, steps, op);
      assert StepOk(w, f, keg, steps[i]) && Clear(w, f, op) && NoClash(w, f, op);
      match op
      case Directory(_) =>
      case Tree(_, _) => TreeFits(w, f, op);
      case Child(_, dst) =>
        assert Parent(dst) == steps[i].target;
        OpOf(w, steps, i, Directory(steps[i].target));
    }
  }

  lemma TreeFits(w: World, f: Prefix, op: Operation)
    requires ValidWorld(w) && ValidPrefix(f) && op.Tree? && op.src in w && w[op.src].Folder?
    requires Clear(w, f, op) && NoClash(w, f, op)
    ensures OpFits(w, f, op)
  {
    var m := TreeMount(op);
    assert Image(m, op.dst) == op.src;
    assert NoLinkUpTo(f, op.dst);
    hide ConflictAt, KindClash, Fits, ValidWorld, ValidPrefix, NoLinkUpTo;
    forall p | Below(m, p)
      ensures Fits(w, f, m, p)
    {
      CheckIsExact(w, f, m, p);
    }
  }

  /** Plans, checks and only then links; a plan that cannot be checked changes nothing. */
  method ApplyPostInstall(linker: Linker, keg: Path, steps: seq<Step>) returns (r: Result<()>)
    requires ValidWorld(linker.world) && ValidPrefix(linker.fs)
    requires forall op :: op in AllOps(linker.world, steps) ==> op.dst != []
    requires forall i :: 0 <= i < |steps| && steps[i].MkdirP? ==> steps[i].target != []
    requires Separate(linker.world, AllOps(linker.world, steps))
    modifies linker`fs
    ensures ValidPrefix(linker.fs)
    ensures r.Ok? ==> Applied(linker.world, old(linker.fs), AllOps(linker.world, steps), AllOps(linker.world, steps), linker.fs)
    ensures Applicable(linker.world, old(linker.fs), keg, steps) ==> r.Ok?
    ensures !(&& (forall i :: 0 <= i < |steps| ==> StepOk(linker.world, old(linker.fs), keg, steps[i]))
              && (forall op :: op in AllOps(linker.world, steps) ==> Clear(linker.world, old(linker.fs), op))) ==>
              r.Err? && linker.fs == old(linker.fs)
  {
    hide AllOps, Applied, Separate, Clear, StepOk, ValidWorld, NoClash, PlanFits, OneKeg, Changes, ValidPrefix, OpFits, Effect, DirectoriesFirst,
      NoLinkUpTo, DirsMade, DoneIs;
    ghost var f, w := linker.fs, linker.world;
    ghost var all, smooth := AllOps(w, steps), Applicable(w, linker.fs, keg, steps);
    if smooth {
      ApplicableFits(w, f, keg, steps);
    }
    var plan := PlanSteps(linker, keg, steps);
    if plan.None? {
      return Err(StoreCorruption);
    }
    var ops := plan.value;
    r := CheckPlan(linker, ops);
    if r.Err? {
      return;
    }
    hide Applicable;
    ClearIsOpen(w, f, all);
    AppliedStart(w, f, all);
    ghost var bound := LongestPath(w.Keys);
    ghost var done: set<Operation> := {};
    assert DirsMade(done, f) && DoneIs(done, ops, 0) by { NoneMade(f, ops); }
    var i := 0;
    while i < |ops|
      invariant i <= |ops|
      invariant ValidPrefix(linker.fs)
      invariant DoneIs(done, ops, i)
      invariant done <= all && Applied(w, f, all, done, linker.fs)
      invariant smooth ==> PlanFits(w, linker.fs, all) && DirsMade(done, linker.fs)
    {
      var op := ops[i];
      assert op in ops;
      ghost var before := linker.fs;
      OneMoreDone(done, ops, i);
      AppliedMeans(w, f, all, done, before, op);
      if smooth {
        GoesThrough(w, all, done, ops, i, before);
      }
      var ok := Execute(linker, op, bound);
      if !ok {
        return Err(StoreCorruption);
      }
      ChangeEffect(w, before, op, linker.fs);
      AppliedNext(w, f, all, done, before, op, linker.fs);
      if smooth {
        PlanStillFits(w, keg, all, before, op, linker.fs);
        DirsStay(w, done, before, op, linker.fs);
      }
      done := done + {op};
      i := i + 1;
    }
    AllDoneNow(done, ops);
    assert done == all;
    return Ok(());
  }

  /** The directories of the plan made so far are there. */
  ghost predicate DirsMade(done: set<Operation>, g: Prefix) {
    forall op :: op in done && op.Directory? ==> Get(g, op.dst) == Some(Dir)
  }

  /** The operations carried out are the first `i`. */
  ghost predicate DoneIs(done: set<Operation>, order: seq<Operation>, i: nat) {
    i <= |order| && forall op :: op in done <==> op in order[..i]
  }

  lemma NoneMade(g: Prefix, order: seq<Operation>)
    ensures DirsMade({}, g) && DoneIs({}, order, 0)
  {
  }

  lemma OneMoreDone(done: set<Operation>, order: seq<Operation>, i: nat)
    requires i < |order| && DoneIs(done, order, i)
    ensures DoneIs(done + {order[i]}, order, i + 1)
  {
    assert order[..i + 1] == order[..i] + [order[i]];
  }

  lemma AllDoneNow(done: set<Operation>, order: seq<Operation>)
    requires DoneIs(done, order, |order|)
    ensures forall op :: op in done <==> op in order
  {
    assert order[..|order|] == order;
  }

  lemma GoesThrough(w: World, ops: set<Operation>, done: set<Operation>, order: seq<Operation>, i: nat, g: Prefix)
    requires i < |order| && DirectoriesFirst(order) && order[i] in ops && PlanFits(w, g, ops) && DirsMade(done, g)
    requires DoneIs(done, order, i)
    requires order[i].dst != []
    ensures OpFits(w, g, order[i]) && (order[i].Child? ==> Get(g, Parent(order[i].dst)) == Some(Dir))
  {
    if order[i].Child? {
      assert Directory(Parent(order[i].dst)) in done;
    }
  }

  lemma DirsStay(w: World, done: set<Operation>, f: Prefix, op: Operation, g: Prefix)
    requires ValidPrefix(f) && DirsMade(done, f) && Effect(w, f, op, g) && Changes(w, f, op, g) && OpFits(w, f, op)
    ensures DirsMade(done + {op}, g)
  {
    forall made | made in done && made.Directory?
      ensures Get(g, made.dst) == Some(Dir)
    {
      assert EffectAt(w, f, op, g, made.dst);
    }
    if op.Directory? {
      MakeDirsKeeps(f, op.dst);
      hide MakeDirs;
      var d := op.dst;
      assert d[..|d|] == d;
      assert Get(g, d) == if d !in f && d <= d then Some(Dir) else Get(f, d);
    }
  }

  lemma ClearIsOpen(w: World, f: Prefix, ops: set<Operation>)
    requires forall op :: op in ops ==> Clear(w, f, op)
    ensures Open(f, ops)
  {
  }

  lemma AppliedMeans(w: World, f: Prefix, ops: set<Operation>, done: set<Operation>, g: Prefix, op: Operation)
    requires Applied(w, f, ops, done, g) && op in ops
    ensures ValidPrefix(g) && (!op.Child? ==> NoLinkUpTo(g, op.dst))
  {
  }

  // Removal.

  /** The links below `dst` that point to the same place below `src` go; the source is never looked at. */
  method RemoveRuntimeTree(linker: Linker, src: Path, dst: Path, ghost bound: nat)
    requires ValidPrefix(linker.fs) && (forall p :: p in linker.fs ==> |p| <= bound)
    requires dst in linker.fs ==> linker.fs[dst].Dir?
    modifies linker`fs
    decreases bound - |dst| + 1
    ensures ValidPrefix(linker.fs)
    ensures forall p :: TakenAt(old(linker.fs), src, dst, linker.fs, p)
  {
    hide Owns, TakenAt, TakenExcept, ValidPrefix;
    ghost var f := linker.fs;
    if dst !in linker.fs {
      NothingTaken(f, src, dst);
      return;
    }
    var todo := Listing(linker.fs, dst);
    TreeStart(f, src, dst);
    while todo != {}
      invariant todo <= Listing(f, dst)
      invariant ValidPrefix(linker.fs)
      invariant TakenExcept(f, src, dst, todo, linker.fs)
      decreases |todo|
    {
      var n :| n in todo;
      ghost var g, all := linker.fs, todo;
      todo := todo - {n};
      assert all == todo + {n};
      var srcPath, dstPath := src + [n], dst + [n];
      EntryUntouched(f, src, dst, all, g, n);
      TakenShrinks(f, src, dst, all, g);
      if linker.fs[dstPath].Link? {
        if linker.fs[dstPath].target == srcPath {
          linker.fs := linker.fs - {dstPath};
        }
        LinkTaken(f, src, dst, todo, n, g, linker.fs);
      } else if linker.fs[dstPath].Dir? {
        RemoveRuntimeTree(linker, srcPath, dstPath, bound);
        SubtreeTaken(f, src, dst, todo, n, g, linker.fs);
      } else {
        LinkTaken(f, src, dst, todo, n, g, linker.fs);
      }
    }
    TreeTaken(f, src, dst, linker.fs);
  }

  ghost predicate TakenAt(f: Prefix, src: Path, dst: Path, g: Prefix, p: Path) {
    Get(g, p) == if p in f && Owns(LinkDir(src, dst), p, f[p]) then None else Get(f, p)
  }

  /** Below `dst` the entries in `todo` are untouched, the others done. */
  ghost predicate TakenExcept(f: Prefix, src: Path, dst: Path, todo: set<Name>, g: Prefix) {
    forall p :: if dst <= p && p != dst && p[|dst|] in todo then Get(g, p) == Get(f, p) else TakenAt(f, src, dst, g, p)
  }

  lemma NothingBelow(f: Prefix, dst: Path)
    requires ValidPrefix(f) && dst !in f
    ensures forall p :: dst <= p ==> p !in f
  {
    forall p | dst <= p
      ensures p !in f
    {
      assert p[..|dst|] == dst && p[..|p|] == p;
      if p in f && |dst| < |p| {
        AncestorsAreDirs(f, p, |dst|);
      }
    }
  }

  lemma NothingTaken(f: Prefix, src: Path, dst: Path)
    requires ValidPrefix(f) && dst !in f
    ensures forall p :: TakenAt(f, src, dst, f, p)
  {
    NothingBelow(f, dst);
  }

  lemma TakenShrinks(f: Prefix, src: Path, dst: Path, todo: set<Name>, g: Prefix)
    requires TakenExcept(f, src, dst, todo, g)
    ensures forall p :: p in g ==> p in f
  {
    forall p | p in g
      ensures p in f
    {
      assert Get(g, p) != None;
    }
  }

  lemma TreeStart(f: Prefix, src: Path, dst: Path)
    requires ValidPrefix(f)
    ensures TakenExcept(f, src, dst, Listing(f, dst), f)
  {
    hide *;
    forall p | !(dst <= p && p != dst && p[|dst|] in Listing(f, dst))
      ensures TakenAt(f, src, dst, f, p)
    {
      if dst <= p && p != dst {
        NothingBelow(f, dst + [p[|dst|]]);
        assert dst + [p[|dst|]] <= p;
      }
      UntakenAt(f, src, dst, p);
    }
    StartsTaken(f, src, dst);
  }

  lemma UntakenAt(f: Prefix, src: Path, dst: Path, p: Path)
    requires p !in f || !(dst <= p && p != dst)
    ensures TakenAt(f, src, dst, f, p)
  {
  }

  lemma StartsTaken(f: Prefix, src: Path, dst: Path)
    requires forall p :: (dst <= p && p != dst && p[|dst|] in Listing(f, dst)) || TakenAt(f, src, dst, f, p)
    ensures TakenExcept(f, src, dst, Listing(f, dst), f)
  {
  }

  lemma EntryUntouched(f: Prefix, src: Path, dst: Path, todo: set<Name>, g: Prefix, n: Name)
    requires TakenExcept(f, src, dst, todo, g) && n in todo && todo <= Listing(f, dst)
    ensures Get(g, dst + [n]) == Get(f, dst + [n]) && dst + [n] in f
  {
  }

  lemma LinkTaken(f: Prefix, src: Path, dst: Path, todo: set<Name>, n: Name, g: Prefix, h: Prefix)
    requires ValidPrefix(f) && ValidPrefix(g) && TakenExcept(f, src, dst, todo + {n}, g) && n !in todo
    requires Get(g, dst + [n]) == Get(f, dst + [n]) && dst + [n] in g && !g[dst + [n]].Dir?
    requires h == if g[dst + [n]] == Link(src + [n]) then g - {dst + [n]} else g
    ensures ValidPrefix(h) && TakenExcept(f, src, dst, todo, h)
  {
    var c := dst + [n];
    LeafRemoval(g, c);
    LeafRemoval(f, c);
    forall p
      ensures if dst <= p && p != dst && p[|dst|] in todo then Get(h, p) == Get(f, p) else TakenAt(f, src, dst, h, p)
    {
      if dst <= p && p != dst && p[|dst|] == n {
        assert c <= p;
        assert p == c ==> p[|dst|..] == [n];
      }
    }
  }

  lemma SubtreeTaken(f: Prefix, src: Path, dst: Path, todo: set<Name>, n: Name, g: Prefix, h: Prefix)
    requires TakenExcept(f, src, dst, todo + {n}, g) && n !in todo
    requires forall p :: TakenAt(g, src + [n], dst + [n], h, p)
    requires Get(f, dst + [n]) == Some(Dir)
    ensures TakenExcept(f, src, dst, todo, h)
  {
    var c := dst + [n];
    forall p
      ensures if dst <= p && p != dst && p[|dst|] in todo then Get(h, p) == Get(f, p) else TakenAt(f, src, dst, h, p)
    {
      assert TakenAt(g, src + [n], c, h, p);
      if dst <= p && p != dst && p[|dst|] == n {
        assert c <= p;
        assert src + [n] + p[|c|..] == src + p[|dst|..];
      } else {
        assert !(c <= p);
      }
    }
  }

  lemma TreeTaken(f: Prefix, src: Path, dst: Path, g: Prefix)
    requires TakenExcept(f, src, dst, {}, g)
    ensures forall p :: TakenAt(f, src, dst, g, p)
  {
  }

  /** The direct entries of `dst` that the step linked go. */
  method RemoveChildren(linker: Linker, step: Step)
    requires ValidPrefix(linker.fs) && step.LinkChildren?
    modifies linker`fs
    ensures ValidPrefix(linker.fs)
    ensures Removed([step], old(linker.fs), linker.fs)
  {
    hide Removed, ChildrenExcept, ValidPrefix;
    ghost var f := linker.fs;
    var todo := Listing(linker.fs, step.target);
    ChildrenStart(f, step);
    while todo != {}
      invariant todo <= Listing(f, step.target)
      invariant ValidPrefix(linker.fs)
      invariant ChildrenExcept(f, step, todo, linker.fs)
      decreases |todo|
    {
      var n :| n in todo;
      ghost var g, all := linker.fs, todo;
      todo := todo - {n};
      assert all == todo + {n};
      var path := step.target + [n];
      ChildUntouched(f, step, all, g, n);
      if linker.fs[path].Link? && HasSuffix(n, step.suffix)
         && linker.fs[path].target == step.source + [n[..|n| - |step.suffix|]] {
        linker.fs := linker.fs - {path};
      }
      ChildTaken(f, step, todo, n, g, linker.fs);
    }
    ChildrenRemoved(f, step, linker.fs);
  }

  lemma ChildUntouched(f: Prefix, step: Step, todo: set<Name>, g: Prefix, n: Name)
    requires step.LinkChildren? && ChildrenExcept(f, step, todo, g) && n in todo && todo <= Listing(f, step.target)
    ensures var path := step.target + [n];
            && path in f && path in g && g[path] == f[path]
            && (Owns(step, path, f[path]) <==>
                  && f[path].Link? && HasSuffix(n, step.suffix)
                  && f[path].target == step.source + [n[..|n| - |step.suffix|]])
  {
  }

  lemma ChildrenRemoved(f: Prefix, step: Step, g: Prefix)
    requires step.LinkChildren? && ChildrenExcept(f, step, {}, g)
    ensures Removed([step], f, g)
  {
    hide Owns;
    forall p
      ensures OwnedBySteps([step], f, p) <==> p in f && Owns(step, p, f[p])
    {
      assert [step][0] == step;
    }
  }

  ghost predicate ChildrenExcept(f: Prefix, step: Step, todo: set<Name>, g: Prefix)
    requires step.LinkChildren?
  {
    forall p :: Get(g, p) ==
      if p in f && Owns(step, p, f[p]) && p[|step.target|] !in todo then None else Get(f, p)
  }

  lemma ChildrenStart(f: Prefix, step: Step)
    requires step.LinkChildren?
    ensures ChildrenExcept(f, step, Listing(f, step.target), f)
  {
  }

  lemma ChildTaken(f: Prefix, step: Step, todo: set<Name>, n: Name, g: Prefix, h: Prefix)
    requires step.LinkChildren? && ChildrenExcept(f, step, todo + {n}, g) && n !in todo && ValidPrefix(g)
    requires var path := step.target + [n];
             && path in f && Get(g, path) == Get(f, path)
             && h == if Owns(step, path, f[path]) then g - {path} else g
    ensures ValidPrefix(h) && ChildrenExcept(f, step, todo, h)
  {
    var path := step.target + [n];
    if Owns(step, path, f[path]) {
      LeafRemoval(g, path);
    }
    forall p | p in f && Owns(step, p, f[p]) && p[|step.target|] == n
      ensures p == path
    {
    }
  }

  /** Takes out the links of every step; fails only at a target that is no directory. */
  method RemovePostInstall(linker: Linker, steps: seq<Step>) returns (ok: bool)
    requires ValidPrefix(linker.fs)
    modifies linker`fs
    ensures (forall i :: 0 <= i < |steps| && (steps[i].LinkDir? || steps[i].LinkChildren?) ==>
               DestinationOk(old(linker.fs), steps[i].target)) ==> ok
    ensures ok ==> Removed(steps, old(linker.fs), linker.fs)
  {
    hide Removed, ValidPrefix;
    ghost var f := linker.fs;
    NoStepRemoves(f);
    assert steps[..0] == [];
    var i := 0;
    while i < |steps|
      invariant i <= |steps|
      invariant ValidPrefix(linker.fs) && Removed(steps[..i], f, linker.fs)
    {
      var step := steps[i];
      ghost var g := linker.fs;
      if step.LinkDir? || step.LinkChildren? {
        var fine := CheckDestination(linker, step.target);
        if !fine {
          if DestinationOk(f, step.target) {
            StillOk(steps[..i], f, g, step.target);
          }
          return false;
        }
      }
      match step {
        case LinkDir(s, t) =>
          assert t[..|t|] == t;
          ghost var bound := LongestPath(g.Keys);
          RemoveRuntimeTree(linker, s, t, bound);
          TreeRemoved(g, step, linker.fs);
        case LinkChildren(_, _, _) =>
          RemoveChildren(linker, step);
        case _ =>
          NothingRemoved(g, step);
      }
      RemovedNext(steps, i, f, g, linker.fs);
      i := i + 1;
    }
    assert steps[..|steps|] == steps;
    return true;
  }

  lemma NoStepRemoves(f: Prefix)
    ensures Removed([], f, f)
  {
  }

  lemma NothingRemoved(f: Prefix, step: Step)
    requires step.MkdirP? || step.Unsupported?
    ensures Removed([step], f, f)
  {
  }

  lemma TreeRemoved(f: Prefix, step: Step, g: Prefix)
    requires step.LinkDir? && forall p :: TakenAt(f, step.source, step.target, g, p)
    ensures Removed([step], f, g)
  {
    hide Owns;
    forall p
      ensures Get(g, p) == if OwnedBySteps([step], f, p) then None else Get(f, p)
    {
      assert [step][0] == step;
      assert TakenAt(f, step.source, step.target, g, p);
    }
  }

  /** Removal takes out links only, so a target that was fine stays fine. */
  lemma StillOk(steps: seq<Step>, f: Prefix, g: Prefix, dst: Path)
    requires Removed(steps, f, g) && DestinationOk(f, dst)
    ensures DestinationOk(g, dst)
  {
    forall j | 0 <= j <= |dst| && dst[..j] in g
      ensures g[dst[..j]].Dir?
    {
      assert Get(g, dst[..j]) == Get(f, dst[..j]);
    }
  }

  lemma RemovedNext(steps: seq<Step>, i: nat, f: Prefix, g: Prefix, h: Prefix)
    requires i < |steps| && Removed(steps[..i], f, g) && Removed([steps[i]], g, h)
    ensures Removed(steps[..i + 1], f, h)
  {
    forall p
      ensures Get(h, p) == if OwnedBySteps(steps[..i + 1], f, p) then None else Get(f, p)
    {
      OwnedNext(steps, i, f, p);
      assert OwnedBySteps([steps[i]], g, p) <==> p in g && Owns(steps[i], p, g[p]) by {
        assert [steps[i]][0] == steps[i];
      }
      assert Get(g, p) == if OwnedBySteps(steps[..i], f, p) then None else Get(f, p);
      assert Get(h, p) == if OwnedBySteps([steps[i]], g, p) then None else Get(g, p);
      hide OwnedBySteps;
    }
  }

  lemma OwnedNext(steps: seq<Step>, i: nat, f: Prefix, p: Path)
    requires i < |steps|
    ensures OwnedBySteps(steps[..i + 1], f, p) <==> OwnedBySteps(steps[..i], f, p) || (p in f && Owns(steps[i], p, f[p]))
  {
  }
}
