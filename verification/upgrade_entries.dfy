/** Upgrading, entry by entry: what is on disk afterwards, not only what paths
    resolve to. */
module UpgradeEntries {
  import opened Options
  import opened FileTree
  import opened Overlay
  import opened LinkSteps
  import opened DryRun
  import opened KegLinks
  import opened LinkLaws
  import opened UpgradeLaws

  function LeafOf(e: Option<Entry>): Option<Entry> {
    if e.Some? && !e.value.Dir? then e else None
  }

  lemma LeafIs(f: Prefix, q: Path)
    ensures Leaf(f, q) == LeafOf(Get(f, q))
  {
  }

  /** Where the keg has no file, linking leaves the file or link that was there, unfolding included. */
  lemma AfterLeaf(w: World, f: Prefix, m: Mount, q: Path)
    requires !CoversFile(w, m, q) && Fits(w, f, m, q)
    ensures LeafOf(After(w, f, m, q)) == LeafOf(Base(w, f, m, q))
  {
  }

  /** A symlink to a file cannot be unfolded. */
  lemma FileIsNotUnfolded(w: World, f: Prefix, keg: Path, g: Prefix, q: Path)
    requires LinkedOver(w, f, keg, g) && InLinkDirs(q) && IsLink(f, q)
    requires f[q].target in w && w[f[q].target].Regular?
    ensures !CoversFolder(w, KegMount(keg), q)
  {
    LinkedBasics(w, f, keg, g);
    LinkedFits(w, f, keg, g, q);
    hide LinkedOver, LinkDirs;
    assert q[..|q|] == q;
    LinkPointUnique(f, q, |q|);
    assert f[q].target + q[|q|..] == f[q].target;
  }

  /** On a fresh prefix no file or link is at or below a place where the old
      version has a file, nor behind a symlink there. */
  lemma OldPlaceFree(w: World, f: Prefix, old_: Path, f1: Prefix, formula: Name, m: Mount, q: Path, p: Path)
    requires LinkedOver(w, f, old_, f1) && KegName(old_) == Some(formula) && Fresh(w, f, formula)
    requires KegFile(w, old_, q) && q <= p
    ensures LeafOf(Base(w, f, m, p)) == None
  {
    LinkedBasics(w, f, old_, f1);
    LinkedFits(w, f, old_, f1, q);
    KegNameExtends(old_, old_ + q);
    hide LinkedOver, LinkDirs, Fresh, Fits, KegFile, KegName;
    assert p[..|q|] == q && q[..|q|] == q && p[..|p|] == p;
    match LinkPoint(f, p)
    case None =>
      assert forall j :: 0 <= j <= |q| ==> q[..j] == p[..j];
      FreshPlain(w, f, KegMount(old_), q, p);
    case Some(k) =>
      if k > |q| {
        FreshAbove(w, f, KegMount(old_), q, p, k);
      } else {
        assert q[..k] == p[..k];
        LinkPointUnique(f, q, k);
        FreshBehind(w, f, old_, formula, q, k);
        BehindMissing(w, f, m, q, p, k);
      }
  }

  lemma BehindMissing(w: World, f: Prefix, m: Mount, q: Path, p: Path, k: nat)
    requires ValidWorld(w) && ValidPrefix(f) && Get(f, []) == Some(Dir)
    requires q <= p && k < |q| && LinkPoint(f, p) == Some(k) && p[..k] == q[..k]
    requires 0 < k ==> f[p[..k]].target + q[k..] !in w
    ensures LeafOf(Base(w, f, m, p)) == None
  {
    assert p[..0] == [] && k != 0 && p[..|p|] == p;
    var y, x := f[p[..k]].target + q[k..], f[p[..k]].target + p[k..];
    assert x[..|y|] == y && x[..|x|] == x;
    if x in w && |y| < |x| {
      AncestorsAreFolders(w, x, |y|);
    }
    if p in f {
      AncestorsAreDirs(f, p, k);
    }
    hide LinkPoint;
  }

  /** Where the old version neither has nor shadows anything and unfolds
      nothing, the new version finds what it would have found without it. */
  lemma PlainBase(w: World, f: Prefix, old_: Path, f1: Prefix, m: Mount, q: Path)
    requires LinkedOver(w, f, old_, f1) && InLinkDirs(q)
    requires !KegFile(w, old_, q) && !Shadowed(w, old_, q) && !Unfolds(w, f, KegMount(old_), q)
    ensures LeafOf(Base(w, f1, m, q)) == LeafOf(Base(w, f, m, q))
  {
    LinkedBasics(w, f, old_, f1);
    forall j | 0 <= j <= |q|
      ensures IsLink(f1, q[..j]) == IsLink(f, q[..j])
      ensures IsLink(f, q[..j]) ==> f1[q[..j]] == f[q[..j]]
    {
      PlainEntry(w, f, old_, f1, q, j);
    }
    LinkPointAgrees(f1, f, q);
    assert LeafOf(Get(f1, q)) == LeafOf(Get(f, q)) by {
      PlainLeaf(w, f, old_, f1, q);
    }
    hide LinkedOver, InLinkDirs, KegFile, Shadowed, LinkPoint, KegMount;
    assert q[..|q|] == q;
  }

  lemma PlainLeaf(w: World, f: Prefix, old_: Path, f1: Prefix, q: Path)
    requires LinkedOver(w, f, old_, f1) && InLinkDirs(q) && !KegFile(w, old_, q) && !Unfolds(w, f, KegMount(old_), q)
    ensures LeafOf(Get(f1, q)) == LeafOf(Get(f, q))
  {
    LinkedFits(w, f, old_, f1, q);
    if |q| > 1 {
      assert !CoversFile(w, KegMount(old_), q);
      AfterLeaf(w, f, KegMount(old_), q);
    }
  }

  /** Where it does unfold a symlink that the new version would unfold as well, the same holds. */
  lemma UnfoldedSame(w: World, f: Prefix, old_: Path, f1: Prefix, new_: Path, f2: Prefix, q: Path, k: nat)
    requires LinkedOver(w, f, old_, f1) && LinkedOver(w, f1, new_, f2) && InLinkDirs(q)
    requires !KegFile(w, old_, q) && !Shadowed(w, old_, q)
    requires UnfoldsAt(w, f, old_, q, k) && CoversFolder(w, KegMount(new_), q[..k])
    ensures LeafOf(Base(w, f1, KegMount(new_), q)) == LeafOf(Base(w, f, KegMount(new_), q))
  {
    UnfoldPoint(w, f, old_, f1, q, k);
    NotUnfoldedAgain(w, f, old_, f1, new_, f2, q, k);
    LinkedFits(w, f, old_, f1, q);
    assert q[..|q|] == q;
    assert !CoversFile(w, KegMount(old_), q);
    AfterLeaf(w, f, KegMount(old_), q);
    hide LinkedOver, InLinkDirs, KegFile, Shadowed, LinkPoint, Covers, After, Fits;
    assert Base(w, f, KegMount(new_), q) == Base(w, f, KegMount(old_), q);
  }

  lemma NotUnfoldedAgain(w: World, f: Prefix, old_: Path, f1: Prefix, new_: Path, f2: Prefix, q: Path, k: nat)
    requires LinkedOver(w, f, old_, f1) && LinkedOver(w, f1, new_, f2) && InLinkDirs(q)
    requires !KegFile(w, old_, q) && !Shadowed(w, old_, q) && UnfoldsAt(w, f, old_, q, k)
    ensures Base(w, f1, KegMount(new_), q) == Get(f1, q)
  {
    match LinkPoint(f1, q)
    case None =>
    case Some(j) =>
      if j < k {
        UnfoldedAbove(w, f, old_, f1, q, k, j);
      } else {
        UnfoldedBehind(w, f, old_, f1, q, k, j);
        assert q[..j][0] == q[0];
        FileIsNotUnfolded(w, f1, new_, f2, q[..j]);
      }
      hide LinkedOver, InLinkDirs, KegFile, Shadowed, LinkPoint, CoversFolder;
  }

  /** Below an old file nothing is left to be found either. */
  lemma ShadowedBase(w: World, f: Prefix, old_: Path, f1: Prefix, new_: Path, f2: Prefix, q: Path)
    requires LinkedOver(w, f, old_, f1) && LinkedOver(w, f1, new_, f2) && InLinkDirs(q) && Shadowed(w, old_, q)
    ensures LeafOf(Base(w, f1, KegMount(new_), q)) == None
  {
    var j :| 0 <= j < |q| && KegFile(w, old_, q[..j]);
    KegFileResolves(w, f, old_, f1, q[..j]);
    OldFileIsFile(w, old_, q[..j]);
    LinkedBasics(w, f1, new_, f2);
    FileIsNotUnfolded(w, f1, new_, f2, q[..j]);
    LinkPointUnique(f1, q, j);
    assert q[..|q|] == q;
    if q in f1 {
      AncestorsAreDirs(f1, q, j);
    }
    hide LinkedOver, InLinkDirs, KegFile, Shadowed, LinkPoint, CoversFolder;
  }

  lemma OldFileIsFile(w: World, keg: Path, q: Path)
    requires KegFile(w, keg, q)
    ensures InLinkDirs(q) && keg + q in w && w[keg + q].Regular?
  {
  }

  /** What the new version finds is the same with and without the old one, away from both versions' files. */
  lemma SameBase(w: World, f: Prefix, old_: Path, new_: Path, formula: Name, f1: Prefix, f2: Prefix, q: Path)
    requires LinkedOver(w, f, old_, f1) && LinkedOver(w, f1, new_, f2)
    requires Fresh(w, f, formula) && KegName(old_) == Some(formula)
    requires InLinkDirs(q) && !KegFile(w, old_, q)
    requires forall d :: UnfoldedLink(w, f, old_, d) ==> UnfoldedLink(w, f, new_, d)
    ensures LeafOf(Base(w, f1, KegMount(new_), q)) == LeafOf(Base(w, f, KegMount(new_), q))
  {
    hide *;
    if Shadowed(w, old_, q) {
      ShadowedBase(w, f, old_, f1, new_, f2, q);
      var j := ShadowedAt(w, old_, q);
      OldPlaceFree(w, f, old_, f1, formula, KegMount(new_), q[..j], q);
    } else if Unfolds(w, f, KegMount(old_), q) {
      var k := UnfoldsWhere(w, f, old_, f1, new_, q);
      UnfoldedSame(w, f, old_, f1, new_, f2, q, k);
    } else {
      PlainBase(w, f, old_, f1, KegMount(new_), q);
    }
  }

  lemma ShadowedAt(w: World, keg: Path, q: Path) returns (j: nat)
    requires Shadowed(w, keg, q)
    ensures j < |q| && KegFile(w, keg, q[..j])
  {
    j :| 0 <= j < |q| && KegFile(w, keg, q[..j]);
  }

  lemma UnfoldsWhere(w: World, f: Prefix, old_: Path, f1: Prefix, new_: Path, q: Path) returns (k: nat)
    requires LinkedOver(w, f, old_, f1) && InLinkDirs(q) && Unfolds(w, f, KegMount(old_), q)
    requires forall d :: UnfoldedLink(w, f, old_, d) ==> UnfoldedLink(w, f, new_, d)
    ensures UnfoldsAt(w, f, old_, q, k) && CoversFolder(w, KegMount(new_), q[..k])
  {
    k := LinkPoint(f, q).value;
    UnfoldPoint(w, f, old_, f1, q, k);
    hide LinkDirs, LinkedOver;
    assert q[..k][0] == q[0];
    assert UnfoldedLink(w, f, old_, q[..k]);
  }

  /** The entries at one path after the upgrade and after a fresh install of the new version. */
  lemma EntryUpgraded(w: World, f: Prefix, old_: Path, new_: Path, formula: Name, f1: Prefix, f2: Prefix, f3: Prefix,
                      g: Prefix, q: Path)
    requires Upgrade(w, f, old_, new_, formula, f1, f2, f3) && LinkedOver(w, f, new_, g)
    requires forall d :: UnfoldedLink(w, f, old_, d) ==> UnfoldedLink(w, f, new_, d)
    ensures Leaf(f3, q) == Leaf(g, q)
  {
    hide *;
    UpgradeFacts(w, f, old_, new_, formula, f1, f2, f3);
    UnlinkedEntry(w, f2, old_, f3, q);
    LeftOver(w, f, old_, new_, formula, f1, f2, f3, q);
    LeafFrom(f2, f3, q);
    LeafIs(f2, q);
    LeafIs(g, q);
    LinkedEntry(w, f, old_, f1, q);
    LinkedEntry(w, f1, new_, f2, q);
    LinkedEntry(w, f, new_, g, q);
    NotOpt(q, new_);
    if q == OptPath(new_) || !InLinkDirs(q) {
      FilesInside(w, old_, new_, q);
    } else if KegFile(w, new_, q) {
      KegFileResolves(w, f1, new_, f2, q);
      KegFileResolves(w, f, new_, g, q);
    } else {
      NoNewFile(w, f1, new_, f2, q);
      NoNewFile(w, f, new_, g, q);
      if KegFile(w, old_, q) {
        OldPlaceFree(w, f, old_, f1, formula, KegMount(new_), q, q);
        GoneLeaf(f3, q);
      } else {
        SameBase(w, f, old_, new_, formula, f1, f2, q);
      }
    }
  }

  lemma GoneLeaf(f: Prefix, q: Path)
    requires Get(f, q) == None
    ensures Leaf(f, q) == None
  {
  }

  lemma FilesInside(w: World, old_: Path, new_: Path, q: Path)
    requires |new_| >= 2 && (q == OptPath(new_) || !InLinkDirs(q))
    ensures !KegFile(w, old_, q) && !KegFile(w, new_, q)
  {
  }

  lemma NotOpt(q: Path, keg: Path)
    requires |keg| >= 2
    ensures q == OptPath(keg) ==> !InLinkDirs(q)
  {
  }

  lemma NoNewFile(w: World, f: Prefix, keg: Path, g: Prefix, q: Path)
    requires LinkedOver(w, f, keg, g) && InLinkDirs(q) && !KegFile(w, keg, q)
    ensures LeafOf(Get(g, q)) == LeafOf(Base(w, f, KegMount(keg), q))
  {
    LinkedFits(w, f, keg, g, q);
    if |q| > 1 {
      assert !CoversFile(w, KegMount(keg), q);
      AfterLeaf(w, f, KegMount(keg), q);
    } else {
      TopIsPlain(w, f, keg, g, q);
    }
  }

  lemma TopIsPlain(w: World, f: Prefix, keg: Path, g: Prefix, q: Path)
    requires LinkedOver(w, f, keg, g) && |q| == 1 && Get(f, q) == Get(g, q) == Some(Dir)
    ensures LeafOf(Base(w, f, KegMount(keg), q)) == None && LeafOf(Get(g, q)) == None
  {
  }

  /** An upgrade leaves exactly the files and links of a fresh install when
      every directory symlink the old version unfolded is one the new version
      unfolds too; one it does not stays unfolded for good. */
  lemma UpgradeEntriesExactly(w: World, f: Prefix, old_: Path, new_: Path, formula: Name, f1: Prefix, f2: Prefix, f3: Prefix,
                              g: Prefix)
    requires Upgrade(w, f, old_, new_, formula, f1, f2, f3) && LinkedOver(w, f, new_, g)
    ensures (forall q :: Leaf(f3, q) == Leaf(g, q)) <==>
            (forall d :: UnfoldedLink(w, f, old_, d) ==> UnfoldedLink(w, f, new_, d))
  {
    hide *;
    if forall d :: UnfoldedLink(w, f, old_, d) ==> UnfoldedLink(w, f, new_, d) {
      forall q
        ensures Leaf(f3, q) == Leaf(g, q)
      {
        EntryUpgraded(w, f, old_, new_, formula, f1, f2, f3, g, q);
      }
    } else {
      var d :| UnfoldedLink(w, f, old_, d) && !UnfoldedLink(w, f, new_, d);
      StaysUnfolded(w, f, old_, new_, formula, f1, f2, f3, g, d);
    }
  }

  lemma StaysUnfolded(w: World, f: Prefix, old_: Path, new_: Path, formula: Name, f1: Prefix, f2: Prefix, f3: Prefix,
                      g: Prefix, d: Path)
    requires Upgrade(w, f, old_, new_, formula, f1, f2, f3) && LinkedOver(w, f, new_, g)
    requires UnfoldedLink(w, f, old_, d) && !UnfoldedLink(w, f, new_, d)
    ensures Leaf(f3, d) == None && Leaf(g, d) != None
  {
    hide *;
    UpgradeFacts(w, f, old_, new_, formula, f1, f2, f3);
    UnfoldedInside(w, f, old_, d);
    UnfoldedIsLink(w, f, old_, d);
    UnfoldedLeaf(w, f, old_, f1, d);
    DirKept(w, f1, new_, f2, d);
    UnlinkedEntry(w, f2, old_, f3, d);
    LeafFrom(f2, f3, d);
    LinkKept(w, f, new_, g, f1, f2, d);
  }

  lemma UnfoldedIsLink(w: World, f: Prefix, keg: Path, d: Path)
    requires UnfoldedLink(w, f, keg, d)
    ensures IsLink(f, d)
  {
  }

  lemma DirKept(w: World, f: Prefix, keg: Path, g: Prefix, d: Path)
    requires LinkedOver(w, f, keg, g) && InLinkDirs(d) && Get(f, d) == Some(Dir)
    ensures Get(g, d) == Some(Dir) && !KegFile(w, keg, d)
  {
    LinkedBasics(w, f, keg, g);
    LinkedFits(w, f, keg, g, d);
    hide LinkedOver, LinkDirs;
    assert d[..|d|] == d;
    if LinkPoint(f, d).Some? {
      AncestorsAreDirs(f, d, LinkPoint(f, d).value);
    }
    if |d| > 1 {
      DirStaysDir(w, f, KegMount(keg), d);
    }
  }

  lemma LinkKept(w: World, f: Prefix, new_: Path, g: Prefix, f1: Prefix, f2: Prefix, d: Path)
    requires LinkedOver(w, f, new_, g) && LinkedOver(w, f1, new_, f2) && InLinkDirs(d) && IsLink(f, d)
    requires Get(f1, d) == Some(Dir) && !UnfoldedLink(w, f, new_, d)
    ensures Leaf(g, d) != None
  {
    DirKept(w, f1, new_, f2, d);
    LinkedBasics(w, f, new_, g);
    LinkedFits(w, f, new_, g, d);
    hide LinkedOver, LinkDirs;
    assert d[..|d|] == d;
    LinkPointUnique(f, d, |d|);
  }
}
