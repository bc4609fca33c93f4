/** Laws of linking and unlinking, stated on what every path resolves to. */
module LinkLaws {
  import opened Options
  import opened FileTree
  import opened Overlay
  import opened LinkSteps
  import opened DryRun
  import opened KegLinks

  /** `p` is where a file of the keg gets linked. */
  predicate KegFile(w: World, keg: Path, p: Path) {
    InLinkDirs(p) && CoversFile(w, KegMount(keg), p)
  }

  /** `p` lies strictly below a file of the keg. */
  ghost predicate Shadowed(w: World, keg: Path, p: Path) {
    exists j :: 0 <= j < |p| && KegFile(w, keg, p[..j])
  }

  /** `g` is `f` after the keg has been linked successfully. */
  ghost predicate LinkedOver(w: World, f: Prefix, keg: Path, g: Prefix) {
    && ValidWorld(w) && Ready(f) && Ready(g)
    && KegLinkable(w, f, keg) && IsLinked(w, f, keg, g)
  }

  lemma LinkedBasics(w: World, f: Prefix, keg: Path, g: Prefix)
    requires LinkedOver(w, f, keg, g)
    ensures ValidWorld(w) && ValidPrefix(f) && ValidPrefix(g) && |keg| >= 2
    ensures Get(f, []) == Get(g, []) == Some(Dir)
  {
  }

  /** Whatever the keg has at a place in the linked directories fits there. */
  lemma LinkableFits(w: World, f: Prefix, keg: Path, p: Path)
    requires ValidWorld(w) && Ready(f) && KegLinkable(w, f, keg) && InLinkDirs(p)
    ensures Fits(w, f, KegMount(keg), p)
    ensures |p| == 1 ==> Get(f, p) == Some(Dir) && !CoversFile(w, KegMount(keg), p)
  {
    hide LinkDirs;
    LinkableMeans(w, f, keg);
    if |p| > 1 {
      CheckIsExact(w, f, KegMount(keg), p);
    } else {
      assert p == [p[0]] && Parent(p) == [];
      assert Get(f, p) == Some(Dir) && Get(f, []) == Some(Dir);
      assert keg + [p[0]] in w ==> w[keg + [p[0]]].Folder?;
      assert p[..0] == [] && p[..1] == p;
    }
  }

  lemma LinkedFits(w: World, f: Prefix, keg: Path, g: Prefix, p: Path)
    requires LinkedOver(w, f, keg, g) && InLinkDirs(p)
    ensures Get(g, p) == After(w, f, KegMount(keg), p)
    ensures Fits(w, f, KegMount(keg), p)
    ensures |p| == 1 ==> Get(f, p) == Get(g, p) == Some(Dir) && !CoversFile(w, KegMount(keg), p)
  {
    hide LinkDirs;
    LinkableFits(w, f, keg, p);
    OptIsNoLinkDir();
    assert Get(g, p) == Linked(w, f, keg, p);
    if |p| == 1 {
      assert p == [p[0]];
    }
  }

  /** What the keg's own files resolve to afterwards. */
  lemma KegFileResolves(w: World, f: Prefix, keg: Path, g: Prefix, p: Path)
    requires LinkedOver(w, f, keg, g) && KegFile(w, keg, p)
    ensures Get(g, p) == Some(Link(keg + p))
    ensures Resolve(w, g, p) == Some(Stored(keg + p))
  {
    LinkedFits(w, f, keg, g, p);
    assert p[..|p|] == p;
    LinkPointUnique(g, p, |p|);
    assert keg + p + p[|p|..] == keg + p;
  }

  lemma ShadowedResolves(w: World, f: Prefix, keg: Path, g: Prefix, p: Path)
    requires LinkedOver(w, f, keg, g) && Shadowed(w, keg, p)
    ensures Resolve(w, g, p) == None
  {
    var j :| 0 <= j < |p| && KegFile(w, keg, p[..j]);
    KegFileResolves(w, f, keg, g, p[..j]);
    LinkPointUnique(g, p, j);
    NothingBelowRegular(w, keg + p[..j], p[j..]);
  }

  /** Paths the keg neither provides nor shadows, when no symlink is unfolded on the way. */
  lemma PlainResolves(w: World, f: Prefix, keg: Path, g: Prefix, p: Path)
    requires LinkedOver(w, f, keg, g) && InLinkDirs(p)
    requires !KegFile(w, keg, p) && !Shadowed(w, keg, p)
    requires !Unfolds(w, f, KegMount(keg), p)
    ensures Resolve(w, g, p) == Resolve(w, f, p)
  {
    var m := KegMount(keg);
    assert p[..|p|] == p;
    forall j | 0 <= j <= |p|
      ensures IsLink(g, p[..j]) == IsLink(f, p[..j])
      ensures IsLink(f, p[..j]) ==> g[p[..j]] == f[p[..j]]
    {
      PlainEntry(w, f, keg, g, p, j);
    }
    LinkPointAgrees(g, f, p);
    LinkedFits(w, f, keg, g, p);
  }

  lemma NoFileAbove(w: World, keg: Path, p: Path, j: nat)
    requires InLinkDirs(p) && 0 < j <= |p| && !KegFile(w, keg, p) && !Shadowed(w, keg, p)
    ensures InLinkDirs(p[..j]) && !CoversFile(w, KegMount(keg), p[..j])
  {
    hide LinkDirs, CoversFile;
    assert p[..|p|] == p && p[..j][0] == p[0];
    assert j < |p| ==> !KegFile(w, keg, p[..j]);
  }

  lemma PlainEntry(w: World, f: Prefix, keg: Path, g: Prefix, p: Path, j: nat)
    requires LinkedOver(w, f, keg, g) && InLinkDirs(p) && j <= |p|
    requires !KegFile(w, keg, p) && !Shadowed(w, keg, p)
    requires !Unfolds(w, f, KegMount(keg), p)
    ensures IsLink(g, p[..j]) == IsLink(f, p[..j])
    ensures IsLink(f, p[..j]) ==> g[p[..j]] == f[p[..j]]
  {
    LinkedBasics(w, f, keg, g);
    hide LinkDirs, LinkedOver, KegLinkable, KegFile, Shadowed;
    var m := KegMount(keg);
    var q := p[..j];
    if j == 0 {
      assert q == [];
    } else {
      NoFileAbove(w, keg, p, j);
      hide InLinkDirs, Fits;
      LinkedFits(w, f, keg, g, q);
      if LinkPoint(f, q).Some? {
        var k := LinkPoint(f, q).value;
        assert q[..k] == p[..k];
        LinkPointUnique(f, p, k);
      }
    }
  }

  /** The directory symlink `p[..k]` is the one unfolded on the way to `p`. */
  ghost predicate UnfoldsAt(w: World, f: Prefix, keg: Path, p: Path, k: nat) {
    LinkPoint(f, p) == Some(k) && CoversFolder(w, KegMount(keg), p[..k])
  }

  lemma UnfoldedAbove(w: World, f: Prefix, keg: Path, g: Prefix, p: Path, k: nat, j: nat)
    requires LinkedOver(w, f, keg, g) && InLinkDirs(p) && j < k && k <= |p|
    requires UnfoldsAt(w, f, keg, p, k)
    ensures !IsLink(g, p[..j])
  {
    LinkedBasics(w, f, keg, g);
    hide LinkDirs, LinkedOver, KegLinkable;
    var d := p[..k];
    AncestorsAreDirs(f, d, j);
    assert d[..j] == p[..j];
    if j > 0 {
      var q := p[..j];
      if LinkPoint(f, q).Some? {
        var i := LinkPoint(f, q).value;
        assert q[..i] == d[..i];
        AncestorsAreDirs(f, d, i);
      }
      LinkedFits(w, f, keg, g, q);
      DirStaysDir(w, f, KegMount(keg), q);
      hide After, Fits, LinkPoint, CoversFile;
    } else {
      assert p[..j] == [];
    }
  }

  lemma DirStaysDir(w: World, f: Prefix, m: Mount, q: Path)
    requires LinkPoint(f, q) == None && Get(f, q) == Some(Dir) && (Fits(w, f, m, q) || !CoversFile(w, m, q))
    ensures After(w, f, m, q) == Some(Dir)
  {
  }

  /** The entry left behind the unfolded symlink. */
  lemma UnfoldedBehind(w: World, f: Prefix, keg: Path, g: Prefix, p: Path, k: nat, j: nat)
    requires LinkedOver(w, f, keg, g) && InLinkDirs(p) && k <= j <= |p|
    requires !KegFile(w, keg, p) && !Shadowed(w, keg, p)
    requires UnfoldsAt(w, f, keg, p, k)
    ensures k > 1
    ensures var x := f[p[..k]].target + p[k..j];
            if x in w && w[x].Regular? then Get(g, p[..j]) == Some(Link(x))
            else Get(g, p[..j]) == None || Get(g, p[..j]) == Some(Dir)
  {
    hide KegFile, Shadowed, LinkDirs, KegLinkable, IsLinked;
    UnfoldPoint(w, f, keg, g, p, k);
    UnfoldTargetIsFolder(w, f, keg, g, p, k);
    NoFileAbove(w, keg, p, j);
    var q := p[..j];
    assert q[..k] == p[..k] && q[k..] == p[k..j];
    assert KegMount(keg).dst == [] && ValidPrefix(f);
    assert UnfoldsAt(w, f, keg, q, k) by {
      LinkPointUnique(f, q, k);
    }
    hide InLinkDirs, LinkedOver, LinkPoint, Covers, Image, After, Fits, ValidPrefix, KegMount;
    LinkedFits(w, f, keg, g, q);
    BehindAfter(w, f, KegMount(keg), q, k);
  }

  lemma UnfoldPoint(w: World, f: Prefix, keg: Path, g: Prefix, p: Path, k: nat)
    requires LinkedOver(w, f, keg, g) && InLinkDirs(p) && UnfoldsAt(w, f, keg, p, k)
    ensures k > 1
  {
    LinkedBasics(w, f, keg, g);
    hide LinkDirs, LinkedOver, KegLinkable;
    assert p[..0] == [];
    if k == 1 {
      LinkedFits(w, f, keg, g, p[..1]);
    }
  }

  lemma BehindAfter(w: World, f: Prefix, m: Mount, q: Path, k: nat)
    requires LinkPoint(f, q) == Some(k) && |m.dst| < k && CoversFolder(w, m, q[..k])
    requires f[q[..k]].target in w && w[f[q[..k]].target].Folder?
    requires !CoversFile(w, m, q) && Fits(w, f, m, q)
    ensures var x := f[q[..k]].target + q[k..];
            if x in w && w[x].Regular? then After(w, f, m, q) == Some(Link(x))
            else After(w, f, m, q) == None || After(w, f, m, q) == Some(Dir)
  {
    if k == |q| {
      assert f[q[..k]].target + q[k..] == f[q[..k]].target;
    }
  }

  lemma UnfoldTargetIsFolder(w: World, f: Prefix, keg: Path, g: Prefix, p: Path, k: nat)
    requires LinkedOver(w, f, keg, g) && InLinkDirs(p) && 1 < k <= |p|
    requires UnfoldsAt(w, f, keg, p, k)
    ensures f[p[..k]].target in w && w[f[p[..k]].target].Folder?
  {
    LinkedBasics(w, f, keg, g);
    hide LinkDirs, LinkedOver, KegLinkable;
    var d := p[..k];
    assert d[..k] == d;
    LinkPointUnique(f, d, k);
    LinkedFits(w, f, keg, g, d);
    assert f[d].target + d[k..] == f[d].target;
  }

  /** Unfolding a directory symlink changes no path's resolution. */
  lemma UnfoldedResolves(w: World, f: Prefix, keg: Path, g: Prefix, p: Path)
    requires LinkedOver(w, f, keg, g) && InLinkDirs(p)
    requires !KegFile(w, keg, p) && !Shadowed(w, keg, p)
    requires Unfolds(w, f, KegMount(keg), p)
    ensures Resolve(w, g, p) == Resolve(w, f, p)
  {
    LinkedBasics(w, f, keg, g);
    hide LinkDirs, InLinkDirs, LinkedOver, KegFile, Shadowed;
    var k := LinkPoint(f, p).value;
    var t := f[p[..k]].target;
    UnfoldedBehind(w, f, keg, g, p, k, |p|);
    assert p[..|p|] == p && p[k..|p|] == p[k..];
    match LinkPoint(g, p)
    case None =>
    case Some(j) =>
      if j < k {
        UnfoldedAbove(w, f, keg, g, p, k, j);
      } else {
        UnfoldedBehind(w, f, keg, g, p, k, j);
      }
      Rejoin(t, p, k, j);
      if j < |p| {
        NothingBelowRegular(w, t + p[k..j], p[j..]);
      }
  }

  /** Linking changes what a path resolves to only at the keg's own files and below its opt link. */
  lemma LinkRefinesView(w: World, f: Prefix, keg: Path, g: Prefix, p: Path)
    requires LinkedOver(w, f, keg, g)
    ensures Resolve(w, g, p) ==
              if OptPath(keg) <= p then Stat(w, keg + p[2..])
              else if KegFile(w, keg, p) then Some(Stored(keg + p))
              else if Shadowed(w, keg, p) then None
              else Resolve(w, f, p)
  {
    var o := OptPath(keg);
    if o <= p {
      assert p[..2] == o;
      assert Get(g, o) == Linked(w, f, keg, o);
      LinkPointUnique(g, p, 2);
    } else if KegFile(w, keg, p) {
      KegFileResolves(w, f, keg, g, p);
    } else if Shadowed(w, keg, p) {
      ShadowedResolves(w, f, keg, g, p);
    } else if !InLinkDirs(p) {
      OutsideResolves(w, f, keg, g, p);
    } else if Unfolds(w, f, KegMount(keg), p) {
      UnfoldedResolves(w, f, keg, g, p);
    } else {
      PlainResolves(w, f, keg, g, p);
    }
  }

  lemma OutsideResolves(w: World, f: Prefix, keg: Path, g: Prefix, p: Path)
    requires LinkedOver(w, f, keg, g) && !InLinkDirs(p) && !(OptPath(keg) <= p)
    ensures Resolve(w, g, p) == Resolve(w, f, p)
  {
    hide LinkDirs;
    assert p[..|p|] == p;
    forall j | 0 <= j <= |p|
      ensures Get(g, p[..j]) == Get(f, p[..j])
    {
      assert Get(g, p[..j]) == Linked(w, f, keg, p[..j]);
      assert p[..j] <= p;
    }
    LinkPointAgrees(g, f, p);
  }

  /** Where the keg has a directory and the prefix a symlink to a file, the dry
      run finds nothing wrong at or below that place, so it passes as a whole
      exactly when it does everywhere else; and linking still fails. */
  lemma ClashSlipsThrough(w: World, f: Prefix, keg: Path, p: Path)
    requires ValidWorld(w) && Ready(f) && InLinkDirs(p) && |p| > 1
    requires CoversFolder(w, KegMount(keg), p) && IsLink(f, p) && f[p].target in w && w[f[p].target].Regular?
    ensures forall q :: p <= q ==> !ConflictAt(w, f, KegMount(keg), q)
    ensures ConflictFree(w, f, keg) <==>
            forall q :: InLinkDirs(q) && |q| > 1 && !(p <= q) ==> !ConflictAt(w, f, KegMount(keg), q)
    ensures !KegLinkable(w, f, keg)
  {
    LinkableMeans(w, f, keg);
    var m, t := KegMount(keg), f[p].target;
    hide LinkDirs, InLinkDirs;
    assert p[..|p|] == p;
    assert t + p[|p|..] == t;
    LinkPointUnique(f, p, |p|);
    forall q | p <= q
      ensures !ConflictAt(w, f, m, q)
    {
      assert q[..|p|] == p;
      LinkPointUnique(f, q, |p|);
      if q != p {
        NothingBelowRegular(w, t, q[|p|..]);
      }
    }
    assert KindClash(w, f, m, p);
  }

  // Unlinking.

  /** A link into the keg at or above `p` is taken out. */
  ghost predicate TakenOut(w: World, f: Prefix, keg: Path, p: Path) {
    exists j :: 1 < j <= |p| && OwnedAt(w, f, keg, p[..j])
  }

  predicate OwnedAt(w: World, f: Prefix, keg: Path, q: Path) {
    InLinkDirs(q) && |q| > 1 && Owned(w, f, KegOut(keg), q)
  }

  /** `g` is `f` after the keg has been unlinked. */
  ghost predicate UnlinkedFrom(w: World, f: Prefix, keg: Path, g: Prefix) {
    ValidWorld(w) && Ready(f) && Ready(g) && |keg| >= 2 && IsUnlinked(w, f, keg, g)
  }

  ghost predicate OptOwned(f: Prefix, keg: Path)
    requires |keg| >= 2
  {
    Get(f, OptPath(keg)) == Some(Link(keg))
  }

  /** Unlinking one entry at a time: a link or file stays as it is unless it is the keg's. */
  lemma UnlinkedEntry(w: World, f: Prefix, keg: Path, g: Prefix, q: Path)
    requires UnlinkedFrom(w, f, keg, g)
    ensures OwnedAt(w, f, keg, q) || (OptOwned(f, keg) && q == OptPath(keg)) ==> Get(g, q) == None
    ensures !(OwnedAt(w, f, keg, q) || (OptOwned(f, keg) && q == OptPath(keg))) && Get(f, q) != Some(Dir) ==>
              Get(g, q) == Get(f, q)
    ensures Get(f, q) == Some(Dir) ==> Get(g, q) == None || Get(g, q) == Some(Dir)
  {
    UnlinkedMeans(w, f, keg, g, q);
    hide *;
    if InLinkDirs(q) && |q| > 1 {
      EntryInside(w, f, keg, g, q);
    } else {
      EntryOutside(w, f, keg, g, q);
    }
  }

  lemma UnlinkedMeans(w: World, f: Prefix, keg: Path, g: Prefix, q: Path)
    requires UnlinkedFrom(w, f, keg, g)
    ensures InLinkDirs(q) && |q| > 1 ==> Cleared(w, f, KegOut(keg), g, q)
    ensures !(InLinkDirs(q) && |q| > 1) ==>
              Get(g, q) == if q == OptPath(keg) && Get(f, q) == Some(Link(keg)) then None else Get(f, q)
    ensures |keg| >= 2
  {
  }

  lemma EntryInside(w: World, f: Prefix, keg: Path, g: Prefix, q: Path)
    requires |keg| >= 2 && InLinkDirs(q) && |q| > 1 && Cleared(w, f, KegOut(keg), g, q)
    ensures q != OptPath(keg)
    ensures OwnedAt(w, f, keg, q) ==> Get(g, q) == None
    ensures !OwnedAt(w, f, keg, q) && Get(f, q) != Some(Dir) ==> Get(g, q) == Get(f, q)
    ensures Get(f, q) == Some(Dir) ==> Get(g, q) == None || Get(g, q) == Some(Dir)
  {
  }

  lemma EntryOutside(w: World, f: Prefix, keg: Path, g: Prefix, q: Path)
    requires |keg| >= 2 && !(InLinkDirs(q) && |q| > 1)
    requires Get(g, q) == if q == OptPath(keg) && Get(f, q) == Some(Link(keg)) then None else Get(f, q)
    ensures !OwnedAt(w, f, keg, q)
    ensures OptOwned(f, keg) && q == OptPath(keg) ==> Get(g, q) == None
    ensures !(OptOwned(f, keg) && q == OptPath(keg)) ==> Get(g, q) == Get(f, q)
  {
  }

  /** Unlinking makes exactly the paths at or below the keg's links resolve to nothing. */
  lemma UnlinkView(w: World, f: Prefix, keg: Path, g: Prefix, p: Path)
    requires UnlinkedFrom(w, f, keg, g)
    ensures Resolve(w, g, p) ==
              if TakenOut(w, f, keg, p) || (OptOwned(f, keg) && OptPath(keg) <= p) then None else Resolve(w, f, p)
  {
    hide LinkDirs, IsUnlinked, Ready;
    assert ValidPrefix(f) && ValidPrefix(g) by { UnlinkedValid(w, f, keg, g); }
    hide UnlinkedFrom;
    assert p[..|p|] == p;
    forall j | 0 <= j <= |p|
      ensures IsLink(g, p[..j]) ==> IsLink(f, p[..j]) && g[p[..j]] == f[p[..j]]
      ensures IsLink(f, p[..j]) && !IsLink(g, p[..j]) ==>
                OwnedAt(w, f, keg, p[..j]) || (OptOwned(f, keg) && p[..j] == OptPath(keg))
    {
      UnlinkedEntry(w, f, keg, g, p[..j]);
    }
    UnlinkedEntry(w, f, keg, g, p);
    if TakenOut(w, f, keg, p) {
      var j :| 1 < j <= |p| && OwnedAt(w, f, keg, p[..j]);
      UnlinkedEntry(w, f, keg, g, p[..j]);
      GoneBelow(w, f, g, p, j);
    } else if OptOwned(f, keg) && OptPath(keg) <= p {
      assert p[..2] == OptPath(keg);
      UnlinkedEntry(w, f, keg, g, p[..2]);
      GoneBelow(w, f, g, p, 2);
    } else {
      forall j | 0 <= j <= |p|
        ensures IsLink(g, p[..j]) == IsLink(f, p[..j])
      {
        assert p[..j] <= p;
        assert |p[..j]| == j;
      }
      LinkPointAgrees(g, f, p);
    }
  }

  lemma UnlinkedValid(w: World, f: Prefix, keg: Path, g: Prefix)
    requires UnlinkedFrom(w, f, keg, g)
    ensures ValidPrefix(f) && ValidPrefix(g)
  {
  }

  /** Once the symlink at `p[..j]` is gone nothing is found below it. */
  lemma GoneBelow(w: World, f: Prefix, g: Prefix, p: Path, j: nat)
    requires ValidPrefix(f) && ValidPrefix(g) && j <= |p|
    requires IsLink(f, p[..j]) && Get(g, p[..j]) == None
    requires forall i :: 0 <= i <= |p| && IsLink(g, p[..i]) ==> IsLink(f, p[..i])
    requires p in g ==> p in f
    ensures Resolve(w, g, p) == None
  {
    LinkPointUnique(f, p, j);
    assert p[..|p|] == p;
    if LinkPoint(g, p).Some? {
      LinkPointUnique(f, p, LinkPoint(g, p).value);
    }
    if p in g && j < |p| {
      AncestorsAreDirs(g, p, j);
    }
  }
}
