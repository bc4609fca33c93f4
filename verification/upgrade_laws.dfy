/** What linking, unlinking and upgrading do together. */
module UpgradeLaws {
  import opened Options
  import opened FileTree
  import opened Overlay
  import opened LinkSteps
  import opened DryRun
  import opened KegLinks
  import opened LinkLaws
  import opened Succession

  // Linking a keg and unlinking it again.

  /** An entry that linking and unlinking the keg leaves empty: one of its files,
      or an old link to its private post-install helper. */
  predicate Touched(w: World, f: Prefix, keg: Path, q: Path) {
    KegFile(w, keg, q) || (Hides(KegMount(keg), q) && OwnedAt(w, f, keg, q))
  }

  ghost predicate Gone(w: World, f: Prefix, keg: Path, p: Path)
    requires |keg| >= 2
  {
    OptPath(keg) <= p || exists j :: 1 < j <= |p| && Touched(w, f, keg, p[..j])
  }

  lemma HiddenEntry(w: World, f: Prefix, keg: Path, q: Path)
    requires Ready(f) && Hides(KegMount(keg), q)
    ensures After(w, f, KegMount(keg), q) == Get(f, q)
  {
    var m := KegMount(keg);
    assert q[..1] == ["libexec"] && q[..0] == [];
    assert "libexec" in LinkDirs() by { assert LinkDirs()[3] == "libexec"; }
    assert Get(f, q[..1]) == Some(Dir);
    match LinkPoint(f, q)
    case None =>
    case Some(k) =>
      assert k >= 2;
      assert ["libexec", "post-install"] <= q[..k];
  }

  lemma OwnedAfterLink(w: World, f: Prefix, keg: Path, g: Prefix, q: Path)
    requires LinkedOver(w, f, keg, g)
    ensures OwnedAt(w, g, keg, q) <==> Touched(w, f, keg, q)
    ensures KegFile(w, keg, q) ==> |q| > 1
  {
    if InLinkDirs(q) {
      LinkedFits(w, f, keg, g, q);
      if Hides(KegMount(keg), q) {
        HiddenEntry(w, f, keg, q);
      }
    } else {
      assert LinkDirs()[3] == "libexec";
    }
  }

  /** Linking a keg and unlinking it again empties the places of its files and
      its opt link; every other path resolves as before. */
  lemma RoundTrip(w: World, f: Prefix, keg: Path, g: Prefix, h: Prefix, p: Path)
    requires LinkedOver(w, f, keg, g) && UnlinkedFrom(w, g, keg, h)
    ensures Resolve(w, h, p) == if Gone(w, f, keg, p) then None else Resolve(w, f, p)
  {
    LinkedBasics(w, f, keg, g);
    assert OptOwned(g, keg) by {
      assert Get(g, OptPath(keg)) == Linked(w, f, keg, OptPath(keg));
    }
    UnlinkView(w, g, keg, h, p);
    LinkRefinesView(w, f, keg, g, p);
    hide LinkedOver, UnlinkedFrom, Touched, OwnedAt, KegFile;
    assert TakenOut(w, g, keg, p) <==> exists j :: 1 < j <= |p| && Touched(w, f, keg, p[..j]) by {
      forall j | 1 < j <= |p|
        ensures OwnedAt(w, g, keg, p[..j]) <==> Touched(w, f, keg, p[..j])
      {
        OwnedAfterLink(w, f, keg, g, p[..j]);
      }
    }
    if !Gone(w, f, keg, p) {
      NotGone(w, f, keg, g, p);
    }
  }

  lemma NotGone(w: World, f: Prefix, keg: Path, g: Prefix, p: Path)
    requires LinkedOver(w, f, keg, g) && !Gone(w, f, keg, p)
    ensures !KegFile(w, keg, p) && !Shadowed(w, keg, p)
  {
    assert p[..|p|] == p;
    forall j | 0 <= j <= |p|
      ensures !KegFile(w, keg, p[..j])
    {
      OwnedAfterLink(w, f, keg, g, p[..j]);
      assert j > 1 ==> !Touched(w, f, keg, p[..j]);
    }
  }

  /** The round trip restores what every path resolves to exactly when nothing was visible where the keg went. */
  lemma RoundTripExact(w: World, f: Prefix, keg: Path, g: Prefix, h: Prefix)
    requires LinkedOver(w, f, keg, g) && UnlinkedFrom(w, g, keg, h)
    ensures (forall p :: Resolve(w, h, p) == Resolve(w, f, p)) <==>
            (forall p :: Gone(w, f, keg, p) ==> Resolve(w, f, p) == None)
  {
    forall p
      ensures Resolve(w, h, p) == if Gone(w, f, keg, p) then None else Resolve(w, f, p)
    {
      RoundTrip(w, f, keg, g, h, p);
    }
  }

  // Entries rather than resolutions.

  /** The file or symlink at `p`; directories do not count. */
  function Leaf(f: Prefix, p: Path): Option<Entry> {
    if p in f && !f[p].Dir? then Some(f[p]) else None
  }

  predicate UnfoldedLink(w: World, f: Prefix, keg: Path, q: Path) {
    InLinkDirs(q) && IsLink(f, q) && CoversFolder(w, KegMount(keg), q)
  }

  lemma LeafRoundTrip(w: World, f: Prefix, keg: Path, g: Prefix, h: Prefix, q: Path)
    requires LinkedOver(w, f, keg, g) && UnlinkedFrom(w, g, keg, h)
    ensures q == OptPath(keg) || Touched(w, f, keg, q) ==> Leaf(h, q) == None
    ensures UnfoldedLink(w, f, keg, q) ==> Leaf(h, q) == None
    ensures (forall d :: !UnfoldedLink(w, f, keg, d)) && !(q == OptPath(keg) || Touched(w, f, keg, q)) ==>
              Leaf(h, q) == Leaf(f, q)
  {
    hide *;
    LinkedEntry(w, f, keg, g, q);
    OptOwnedAfterLink(w, f, keg, g);
    UnlinkedEntry(w, g, keg, h, q);
    OwnedAfterLink(w, f, keg, g, q);
    LeafFrom(g, h, q);
    LeafFrom(f, g, q);
    if UnfoldedLink(w, f, keg, q) {
      UnfoldedInside(w, f, keg, q);
      UnfoldedLeaf(w, f, keg, g, q);
    }
    if !(q == OptPath(keg) || Touched(w, f, keg, q)) && InLinkDirs(q) && forall d :: !UnfoldedLink(w, f, keg, d) {
      UntouchedIsNoFile(w, f, keg, q);
      ReadyOf(w, f, keg, g);
      NothingUnfolded(w, f, keg, q);
    }
  }

  lemma OptOwnedAfterLink(w: World, f: Prefix, keg: Path, g: Prefix)
    requires LinkedOver(w, f, keg, g)
    ensures |keg| >= 2 && OptOwned(g, keg)
  {
  }

  /** What `g` shows at `q` compared with `f`, in terms of leaves. */
  lemma LeafFrom(f: Prefix, g: Prefix, q: Path)
    ensures Get(g, q) == Get(f, q) ==> Leaf(g, q) == Leaf(f, q)
    ensures Get(g, q) == None || Get(g, q) == Some(Dir) ==> Leaf(g, q) == None
    ensures Get(f, q) == Some(Dir) ==> Leaf(f, q) == None
  {
  }

  lemma UntouchedIsNoFile(w: World, f: Prefix, keg: Path, q: Path)
    requires InLinkDirs(q) && !Touched(w, f, keg, q)
    ensures !CoversFile(w, KegMount(keg), q)
  {
  }

  lemma ReadyOf(w: World, f: Prefix, keg: Path, g: Prefix)
    requires LinkedOver(w, f, keg, g)
    ensures Ready(f)
  {
  }

  lemma UnfoldedInside(w: World, f: Prefix, keg: Path, q: Path)
    requires UnfoldedLink(w, f, keg, q)
    ensures InLinkDirs(q)
  {
  }

  lemma LinkedEntry(w: World, f: Prefix, keg: Path, g: Prefix, q: Path)
    requires LinkedOver(w, f, keg, g)
    ensures |keg| >= 2
    ensures q == OptPath(keg) ==> Get(g, q) == Some(Link(keg))
    ensures q != OptPath(keg) && !InLinkDirs(q) ==> Get(g, q) == Get(f, q)
    ensures q != OptPath(keg) && InLinkDirs(q) ==> Get(g, q) == After(w, f, KegMount(keg), q)
  {
  }

  lemma UnfoldedLeaf(w: World, f: Prefix, keg: Path, g: Prefix, q: Path)
    requires LinkedOver(w, f, keg, g) && UnfoldedLink(w, f, keg, q)
    ensures Get(g, q) == Some(Dir)
  {
  }

  lemma NothingUnfolded(w: World, f: Prefix, keg: Path, q: Path)
    requires Ready(f) && InLinkDirs(q) && !CoversFile(w, KegMount(keg), q)
    requires forall d :: !UnfoldedLink(w, f, keg, d)
    ensures After(w, f, KegMount(keg), q) == Get(f, q) || (After(w, f, KegMount(keg), q) == Some(Dir) && Leaf(f, q) == None)
  {
    var m := KegMount(keg);
    assert !Unfolds(w, f, m, q) by {
      hide LinkDirs;
      if LinkPoint(f, q).Some? && LinkPoint(f, q).value > 0 {
        var d := q[..LinkPoint(f, q).value];
        assert d[0] == q[0];
        assert !UnfoldedLink(w, f, keg, d);
      }
    }
    assert IsLink(f, q) ==> !CoversFolder(w, m, q) by {
      hide LinkDirs, CoversFolder;
      assert !UnfoldedLink(w, f, keg, q);
    }
    hide InLinkDirs, Unfolds, CoversFile, CoversFolder, UnfoldedLink, LinkPoint, Ready;
  }

  /** Unlinking restores every file and symlink of the prefix exactly when the
      keg's places were free and linking met no directory symlink to unfold:
      an unfolded symlink is never put back. */
  lemma EntriesRestored(w: World, f: Prefix, keg: Path, g: Prefix, h: Prefix)
    requires LinkedOver(w, f, keg, g) && UnlinkedFrom(w, g, keg, h)
    ensures (forall q :: Leaf(h, q) == Leaf(f, q)) <==>
            && (forall q :: q == OptPath(keg) || Touched(w, f, keg, q) ==> Leaf(f, q) == None)
            && (forall d :: !UnfoldedLink(w, f, keg, d))
  {
    forall q
      ensures q == OptPath(keg) || Touched(w, f, keg, q) ==> Leaf(h, q) == None
      ensures UnfoldedLink(w, f, keg, q) ==> Leaf(h, q) == None && Leaf(f, q) != None
      ensures (forall d :: !UnfoldedLink(w, f, keg, d)) && !(q == OptPath(keg) || Touched(w, f, keg, q)) ==>
                Leaf(h, q) == Leaf(f, q)
    {
      LeafRoundTrip(w, f, keg, g, h, q);
    }
    if d :| UnfoldedLink(w, f, keg, d) {
      assert Leaf(h, d) != Leaf(f, d);
    }
  }

  // Upgrading.

  /** Nothing of the formula is linked or visible in the prefix. */
  ghost predicate Fresh(w: World, f: Prefix, formula: Name) {
    && (forall q :: IsLink(f, q) ==> KegName(f[q].target) != Some(formula))
    && (forall p, x :: Resolve(w, f, p) == Some(Stored(x)) ==> KegName(x) != Some(formula))
  }

  /** Two different kegs of one formula. */
  ghost predicate Versions(old_: Path, new_: Path, formula: Name) {
    && |old_| >= 2 && |new_| >= 2 && old_ != new_ && |old_| == |new_| && Parent(old_) == Parent(new_)
    && KegName(old_) == Some(formula) && KegName(new_) == Some(formula)
  }

  /** On a fresh prefix nothing is visible where a file of the keg is going to be linked. */
  lemma FreshBelow(w: World, f: Prefix, keg: Path, g: Prefix, formula: Name, q: Path, p: Path)
    requires LinkedOver(w, f, keg, g) && KegName(keg) == Some(formula) && Fresh(w, f, formula)
    requires KegFile(w, keg, q) && q <= p
    ensures Resolve(w, f, p) == None
  {
    LinkedBasics(w, f, keg, g);
    LinkedFits(w, f, keg, g, q);
    KegNameExtends(keg, keg + q);
    hide LinkedOver, LinkDirs, Fresh, Fits, KegFile, KegName;
    assert p[..|q|] == q && q[..|q|] == q && p[..|p|] == p;
    match LinkPoint(f, p)
    case None =>
      assert forall j :: 0 <= j <= |q| ==> q[..j] == p[..j];
      FreshPlain(w, f, KegMount(keg), q, p);
    case Some(k) =>
      if k > |q| {
        FreshAbove(w, f, KegMount(keg), q, p, k);
      } else {
        assert q[..k] == p[..k];
        LinkPointUnique(f, q, k);
        FreshLink(w, f, keg, formula, q, p, k);
      }
  }

  lemma FreshAbove(w: World, f: Prefix, m: Mount, q: Path, p: Path, k: nat)
    requires ValidPrefix(f) && CoversFile(w, m, q) && Fits(w, f, m, q)
    requires q <= p && |q| < k <= |p|
    ensures !IsLink(f, p[..k])
  {
    var d := p[..k];
    assert d[..|q|] == q && q[..|q|] == q;
    if IsLink(f, d) {
      AncestorsAreDirs(f, d, |q|);
      if LinkPoint(f, q).Some? {
        var i := LinkPoint(f, q).value;
        assert q[..i] == d[..i];
        AncestorsAreDirs(f, d, i);
      }
    }
  }

  /** A fitting source file finds no entry of the prefix's own at its place. */
  lemma FreshPlain(w: World, f: Prefix, m: Mount, q: Path, p: Path)
    requires ValidPrefix(f) && CoversFile(w, m, q) && Fits(w, f, m, q)
    requires q <= p && LinkPoint(f, q) == None
    ensures p !in f
  {
    assert p[..|q|] == q && p[..|p|] == p;
    if p in f && |q| < |p| {
      AncestorsAreDirs(f, p, |q|);
    }
  }

  /** Nor does it find a link of its formula, or anything behind a directory symlink. */
  lemma FreshBehind(w: World, f: Prefix, keg: Path, formula: Name, q: Path, k: nat)
    requires ValidWorld(w) && ValidPrefix(f) && Fresh(w, f, formula)
    requires KegFile(w, keg, q) && Fits(w, f, KegMount(keg), q) && KegName(keg + q) == Some(formula)
    requires LinkPoint(f, q) == Some(k)
    ensures 0 < k < |q| ==> f[q[..k]].target + q[k..] !in w
    ensures k != |q|
  {
    var m := KegMount(keg);
    assert Image(m, q) == keg + q;
    hide KegFile, LinkDirs;
    assert q[..|q|] == q;
    var y := f[q[..k]].target + q[k..];
    assert forall t: Path :: t + q[|q|..] == t;
    if 0 < k < |q| {
      CoverIsClosed(w, m, q, k);
      assert y in w && w[y].Regular? ==> Resolve(w, f, q) == Some(Stored(y));
    }
  }

  lemma FreshLink(w: World, f: Prefix, keg: Path, formula: Name, q: Path, p: Path, k: nat)
    requires ValidWorld(w) && ValidPrefix(f) && Fresh(w, f, formula) && Get(f, []) == Some(Dir)
    requires KegFile(w, keg, q) && Fits(w, f, KegMount(keg), q) && KegName(keg + q) == Some(formula)
    requires q <= p && k <= |q| && LinkPoint(f, q) == Some(k) && LinkPoint(f, p) == Some(k) && p[..k] == q[..k]
    ensures Resolve(w, f, p) == None
  {
    FreshBehind(w, f, keg, formula, q, k);
    assert q[..0] == [] && k != 0;
    var t := f[q[..k]].target;
    var y, x := t + q[k..], t + p[k..];
    assert y !in w;
    assert Resolve(w, f, p) == Stat(w, x);
    hide *;
    BelowMissing(w, y, x);
  }

  lemma BelowMissing(w: World, y: Path, x: Path)
    requires ValidWorld(w) && y !in w && y <= x
    ensures Stat(w, x) == None
  {
    assert x[..|y|] == y && x[..|x|] == x;
    if x in w && |y| < |x| {
      AncestorsAreFolders(w, x, |y|);
    }
  }

  // Linking the new version over the old one.

  /** What is a file in one version and a directory in the other lies outside the linked directories. */
  ghost predicate KindsMatch(w: World, old_: Path, new_: Path) {
    forall p :: InLinkDirs(p) ==> KindsAlike(w, KegMount(old_), KegMount(new_), p)
  }

  /** What the old version's links leave for the new one at one place. */
  lemma NewFits(w: World, f: Prefix, old_: Path, f1: Prefix, new_: Path, formula: Name, p: Path)
    requires LinkedOver(w, f, old_, f1) && Versions(old_, new_, formula) && KegLinkable(w, f, new_)
    requires KindsMatch(w, old_, new_) && InLinkDirs(p)
    ensures Fits(w, f1, KegMount(new_), p)
  {
    LinkedBasics(w, f, old_, f1);
    var first, second := KegMount(old_), KegMount(new_);
    forall j | 0 < j <= |p|
      ensures InLinkDirs(p[..j]) && Below(first, p[..j]) && Below(second, p[..j])
    {
      assert p[..j][0] == p[0];
    }
    assert p[..0] == [];
    assert Ready(f);
    hide LinkDirs, InLinkDirs, Ready;
    forall j | 0 < j <= |p|
      ensures Get(f1, p[..j]) == After(w, f, first, p[..j]) && Fits(w, f, first, p[..j]) && Fits(w, f, second, p[..j])
    {
      LinkedFits(w, f, old_, f1, p[..j]);
      LinkableFits(w, f, new_, p[..j]);
    }
    hide LinkedOver, KegLinkable, After, Fits;
    assert Along(w, f, first, f1, p) && FitsAlone(w, f, second, p) && Compatible(w, first, second, p);
    hide Along, FitsAlone, Compatible, KindsMatch;
    if CoversFile(w, first, p) && CoversFile(w, second, p) {
      OneFormula(w, old_, new_, formula, p);
    }
    assert p[..|p|] == p;
    StillFits(w, f, first, f1, second, p);
  }

  lemma OneFormula(w: World, old_: Path, new_: Path, formula: Name, p: Path)
    requires Versions(old_, new_, formula)
    requires CoversFile(w, KegMount(old_), p) && CoversFile(w, KegMount(new_), p)
    ensures SameFormula(w, Image(KegMount(old_), p), Image(KegMount(new_), p))
  {
    assert Image(KegMount(old_), p) == old_ + p && Image(KegMount(new_), p) == new_ + p;
    KegNameExtends(old_, old_ + p);
    KegNameExtends(new_, new_ + p);
  }

  /** A file of the old version stops a directory of the new one. */
  lemma FileThenFolder(w: World, f: Prefix, old_: Path, f1: Prefix, new_: Path, p: Path)
    requires LinkedOver(w, f, old_, f1) && KegFile(w, old_, p) && CoversFolder(w, KegMount(new_), p)
    ensures !KegLinkable(w, f1, new_)
  {
    KegFileResolves(w, f, old_, f1, p);
    OwnedAfterLink(w, f, old_, f1, p);
    assert Image(KegMount(old_), p) == old_ + p;
    hide KegLinkable;
    ClashSlipsThrough(w, f1, new_, p);
  }

  /** And a directory of the old version a file of the new one. */
  lemma FolderThenFile(w: World, f: Prefix, old_: Path, f1: Prefix, new_: Path, p: Path)
    requires LinkedOver(w, f, old_, f1) && InLinkDirs(p)
    requires CoversFolder(w, KegMount(old_), p) && CoversFile(w, KegMount(new_), p)
    ensures !KegLinkable(w, f1, new_)
  {
    LinkedBasics(w, f, old_, f1);
    LinkedFits(w, f, old_, f1, p);
    var first := KegMount(old_);
    assert Get(f1, p) == Some(Dir) || Get(f1, p) == Some(File);
    if LinkPoint(f1, p).Some? {
      assert p[..|p|] == p;
      AncestorsAreDirs(f1, p, LinkPoint(f1, p).value);
    }
    assert Ready(f1);
    hide LinkPoint, LinkDirs, Ready;
    assert Base(w, f1, KegMount(new_), p) == Get(f1, p);
    assert !Fits(w, f1, KegMount(new_), p);
    hide Fits;
    if KegLinkable(w, f1, new_) {
      LinkableFits(w, f1, new_, p);
    }
  }

  /** A version that could be linked by itself can be linked over the other one
      exactly when no linked path is a file in one and a directory in the other. */
  lemma SuccessorLinkable(w: World, f: Prefix, old_: Path, f1: Prefix, new_: Path, formula: Name)
    requires LinkedOver(w, f, old_, f1) && Versions(old_, new_, formula) && KegLinkable(w, f, new_)
    ensures KegLinkable(w, f1, new_) <==> KindsMatch(w, old_, new_)
  {
    if KindsMatch(w, old_, new_) {
      OptReplaced(w, f, old_, f1, new_, formula);
      hide LinkDirs, LinkedOver, KindsMatch, OptLinkable;
      forall i | 0 <= i < |LinkDirs()|
        ensures DirLinkable(w, f1, new_, i)
      {
        assert DirLinkable(w, f, new_, i);
        forall p | [LinkDirs()[i]] <= p
          ensures Fits(w, f1, KegMount(new_), p)
        {
          assert p[0] == LinkDirs()[i];
          NewFits(w, f, old_, f1, new_, formula, p);
        }
      }
    } else {
      var p :| InLinkDirs(p) && !KindsAlike(w, KegMount(old_), KegMount(new_), p);
      hide LinkedOver, KindsMatch, KegLinkable, InLinkDirs;
      if CoversFile(w, KegMount(old_), p) {
        FileThenFolder(w, f, old_, f1, new_, p);
      } else {
        FolderThenFile(w, f, old_, f1, new_, p);
      }
    }
  }

  lemma SameOpt(old_: Path, new_: Path, formula: Name)
    requires Versions(old_, new_, formula)
    ensures |old_| >= 2 && |new_| >= 2 && OptPath(old_) == OptPath(new_)
  {
    assert Parent(old_)[|old_| - 2] == Parent(new_)[|new_| - 2];
  }

  lemma OptReplaced(w: World, f: Prefix, old_: Path, f1: Prefix, new_: Path, formula: Name)
    requires LinkedOver(w, f, old_, f1) && Versions(old_, new_, formula)
    ensures OptLinkable(f1, new_)
  {
    SameOpt(old_, new_, formula);
    LinkedEntry(w, f, old_, f1, OptPath(old_));
  }

  /** The chain of an upgrade: the old version linked, the new one over it, the
      old one taken out. Both could be linked by themselves, and their kinds match. */
  ghost predicate Upgrade(w: World, f: Prefix, old_: Path, new_: Path, formula: Name, f1: Prefix, f2: Prefix, f3: Prefix) {
    && Versions(old_, new_, formula) && Fresh(w, f, formula)
    && LinkedOver(w, f, old_, f1) && KegLinkable(w, f, new_) && KindsMatch(w, old_, new_)
    && Ready(f2) && IsLinked(w, f1, new_, f2) && UnlinkedFrom(w, f2, old_, f3)
  }

  /** The new version links successfully. */
  lemma UpgradeLinks(w: World, f: Prefix, old_: Path, new_: Path, formula: Name, f1: Prefix, f2: Prefix, f3: Prefix)
    requires Upgrade(w, f, old_, new_, formula, f1, f2, f3)
    ensures LinkedOver(w, f1, new_, f2)
  {
    hide KegLinkable, KindsMatch, IsLinked, Ready, ValidWorld, Versions, Fresh, UnlinkedFrom;
    SuccessorLinkable(w, f, old_, f1, new_, formula);
  }

  /** After the new version is linked, the old one's links are those of its files the new one has not. */
  lemma LeftOver(w: World, f: Prefix, old_: Path, new_: Path, formula: Name, f1: Prefix, f2: Prefix, f3: Prefix, q: Path)
    requires Upgrade(w, f, old_, new_, formula, f1, f2, f3)
    ensures OwnedAt(w, f2, old_, q) <==> KegFile(w, old_, q) && !KegFile(w, new_, q)
  {
    UpgradeLinks(w, f, old_, new_, formula, f1, f2, f3);
    hide KindsMatch, KegLinkable, IsLinked;
    if KegFile(w, old_, q) && !KegFile(w, new_, q) {
      KeptOldFile(w, f, old_, f1, new_, f2, q);
    }
    if OwnedAt(w, f2, old_, q) {
      LinkedBasics(w, f1, new_, f2);
      assert q[..|q|] == q;
      LinkPointUnique(f2, q, |q|);
      assert old_ + q + q[|q|..] == old_ + q;
      KegNameExtends(old_, old_ + q);
      if w[old_ + q].Regular? {
        LinkRefinesView(w, f1, new_, f2, q);
        assert new_ + q != old_ + q by {
          assert (new_ + q)[..|new_|] == new_ && (old_ + q)[..|new_|] == old_;
        }
        OptIsNoLinkDir();
        LinkRefinesView(w, f, old_, f1, q);
      } else {
        FolderLinkIsOld(w, f1, new_, f2, q, old_ + q);
        FolderLinkIsOld(w, f, old_, f1, q, old_ + q);
      }
    }
  }

  lemma KeptOldFile(w: World, f: Prefix, old_: Path, f1: Prefix, new_: Path, f2: Prefix, q: Path)
    requires LinkedOver(w, f, old_, f1) && LinkedOver(w, f1, new_, f2)
    requires KegFile(w, old_, q) && !KegFile(w, new_, q)
    ensures OwnedAt(w, f2, old_, q)
  {
    KegFileResolves(w, f, old_, f1, q);
    LinkedBasics(w, f, old_, f1);
    LinkedFits(w, f, old_, f1, q);
    LinkedFits(w, f1, new_, f2, q);
    assert q[..|q|] == q;
    LinkPointUnique(f1, q, |q|);
    assert old_ + q + q[|q|..] == old_ + q;
  }

  /** Linking creates no link to a directory. */
  lemma FolderLinkIsOld(w: World, f: Prefix, keg: Path, g: Prefix, q: Path, t: Path)
    requires LinkedOver(w, f, keg, g) && InLinkDirs(q)
    requires Get(g, q) == Some(Link(t)) && t in w && w[t].Folder?
    ensures Get(f, q) == Some(Link(t))
  {
  }

  /** Upgrading in place ends where a fresh install of the new version would. */
  lemma UpgradeLaw(w: World, f: Prefix, old_: Path, new_: Path, formula: Name, f1: Prefix, f2: Prefix, f3: Prefix,
                   g: Prefix, p: Path)
    requires Upgrade(w, f, old_, new_, formula, f1, f2, f3) && LinkedOver(w, f, new_, g)
    ensures Resolve(w, f3, p) == Resolve(w, g, p)
  {
    hide *;
    UpgradeFacts(w, f, old_, new_, formula, f1, f2, f3);
    UnlinkView(w, f2, old_, f3, p);
    LinkRefinesView(w, f1, new_, f2, p);
    LinkRefinesView(w, f, old_, f1, p);
    LinkRefinesView(w, f, new_, g, p);
    if OptPath(new_) <= p {
      OptTaken(w, f2, old_, p);
    } else if KegFile(w, new_, p) {
      NewFileStays(w, f1, new_, f2, old_, p);
    } else if Shadowed(w, new_, p) {
    } else {
      LeftOvers(w, f, old_, new_, formula, f1, f2, f3, p);
      if TakenOut(w, f2, old_, p) {
        var j :| 1 < j <= |p| && KegFile(w, old_, p[..j]) && !KegFile(w, new_, p[..j]);
        FreshBelow(w, f, old_, f1, formula, p[..j], p);
      } else {
        NothingOld(w, f, old_, f1, new_, p);
      }
    }
  }

  lemma UpgradeFacts(w: World, f: Prefix, old_: Path, new_: Path, formula: Name, f1: Prefix, f2: Prefix, f3: Prefix)
    requires Upgrade(w, f, old_, new_, formula, f1, f2, f3)
    ensures |old_| == |new_| >= 2 && old_ != new_ && OptPath(old_) == OptPath(new_)
    ensures LinkedOver(w, f, old_, f1) && LinkedOver(w, f1, new_, f2) && UnlinkedFrom(w, f2, old_, f3)
    ensures Fresh(w, f, formula) && KegName(old_) == Some(formula)
    ensures !OptOwned(f2, old_)
  {
    UpgradeLinks(w, f, old_, new_, formula, f1, f2, f3);
    SameOpt(old_, new_, formula);
    hide KindsMatch, KegLinkable, IsLinked, LinkedOver, UnlinkedFrom, Fresh, KegName, OptPath, Parent;
    LinkedEntry(w, f1, new_, f2, OptPath(new_));
  }

  lemma LeftOvers(w: World, f: Prefix, old_: Path, new_: Path, formula: Name, f1: Prefix, f2: Prefix, f3: Prefix, p: Path)
    requires Upgrade(w, f, old_, new_, formula, f1, f2, f3)
    ensures TakenOut(w, f2, old_, p) <==>
            exists j :: 1 < j <= |p| && KegFile(w, old_, p[..j]) && !KegFile(w, new_, p[..j])
  {
    forall j | 1 < j <= |p|
      ensures OwnedAt(w, f2, old_, p[..j]) <==> KegFile(w, old_, p[..j]) && !KegFile(w, new_, p[..j])
    {
      LeftOver(w, f, old_, new_, formula, f1, f2, f3, p[..j]);
    }
  }

  lemma OptTaken(w: World, f: Prefix, keg: Path, p: Path)
    requires |keg| >= 2 && OptPath(keg) <= p
    ensures !TakenOut(w, f, keg, p)
  {
  }

  lemma NewFileStays(w: World, f1: Prefix, new_: Path, f2: Prefix, old_: Path, p: Path)
    requires LinkedOver(w, f1, new_, f2) && KegFile(w, new_, p) && old_ != new_ && |old_| == |new_|
    ensures !TakenOut(w, f2, old_, p)
  {
    LinkedBasics(w, f1, new_, f2);
    KegFileResolves(w, f1, new_, f2, p);
    assert p[..|p|] == p;
    forall j | 1 < j <= |p|
      ensures !OwnedAt(w, f2, old_, p[..j])
    {
      assert (new_ + p)[..|new_|] == new_ && (old_ + p)[..|new_|] == old_;
      LinkPointUnique(f2, p, |p|);
      if OwnedAt(w, f2, old_, p[..j]) {
        LinkPointUnique(f2, p, j);
      }
    }
  }

  lemma NothingOld(w: World, f: Prefix, old_: Path, f1: Prefix, new_: Path, p: Path)
    requires LinkedOver(w, f, old_, f1)
    requires !KegFile(w, new_, p) && !Shadowed(w, new_, p)
    requires !exists j :: 1 < j <= |p| && KegFile(w, old_, p[..j]) && !KegFile(w, new_, p[..j])
    ensures !KegFile(w, old_, p) && !Shadowed(w, old_, p)
  {
    assert p[..|p|] == p;
    forall j | 0 <= j <= |p|
      ensures !KegFile(w, old_, p[..j])
    {
      OwnedAfterLink(w, f, old_, f1, p[..j]);
      assert j < |p| ==> !KegFile(w, new_, p[..j]);
    }
  }
}
