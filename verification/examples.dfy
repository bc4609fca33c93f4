/** Small kegs and prefixes, and what the linker makes of them: upgrades go
    through, but some linking cannot be undone, and some fails half-way. */
module Examples {
  import opened Options
  import opened FileTree
  import opened Overlay
  import opened LinkSteps
  import opened DryRun
  import opened KegLinks
  import opened LinkLaws
  import opened Succession
  import opened UpgradeLaws
  import opened UpgradeEntries
  import opened Linking
  import opened PostInstall

  // Upgrades go through.

  /** Two versions that could each be linked by themselves: when their kinds
      match, every step of the upgrade succeeds, whatever else is in the prefix. */
  method UpgradeSucceeds(w: World, f: Prefix, old_: Path, new_: Path, formula: Name) returns (f1: Prefix, f2: Prefix, f3: Prefix)
    requires ValidWorld(w) && Ready(f) && Versions(old_, new_, formula) && Fresh(w, f, formula)
    requires KegLinkable(w, f, old_) && KegLinkable(w, f, new_) && KindsMatch(w, old_, new_)
    ensures Upgrade(w, f, old_, new_, formula, f1, f2, f3)
  {
    hide Ready, ValidWorld, Fresh, KindsMatch, ConflictFree, KindsAgree, OptLinkable, IsLinked, IsUnlinked, KegLists, KegReports;
    var linker := new Linker(w, f);
    LinkableMeans(w, f, old_);
    Clearable(w, f, old_);
    hide KegLinkable, Versions, KegClearable;
    SameOpt(old_, new_, formula);
    var r := linker.LinkKeg(old_);
    f1 := linker.fs;
    assert LinkedOver(w, f, old_, f1);
    SuccessorLinkable(w, f, old_, f1, new_, formula);
    LinkableMeans(w, f1, new_);
    r := linker.LinkKeg(new_);
    f2 := linker.fs;
    var gone := linker.UnlinkKeg(old_);
    f3 := linker.fs;
    assert UnlinkedFrom(w, f2, old_, f3);
  }

  lemma Clearable(w: World, f: Prefix, keg: Path)
    requires KegLinkable(w, f, keg)
    ensures KegClearable(w, keg)
  {
    hide LinkDirs;
    forall i | 0 <= i < |LinkDirs()|
      ensures DirClearable(w, keg, i)
    {
      assert DirLinkable(w, f, keg, i);
      assert Image(KegMount(keg), [LinkDirs()[i]]) == keg + [LinkDirs()[i]];
    }
  }

  // Worlds given by the files of their kegs.

  type Kegs = map<Path, set<Path>>

  function Files(kegs: Kegs): set<Path> {
    set k, t | k in kegs && t in kegs[k] :: k + t
  }

  function AllPrefixes(files: set<Path>): set<Path> {
    set p, j | p in files && 0 <= j <= |p| :: p[..j]
  }

  function Holding(kegs: Kegs): World {
    map p | p in AllPrefixes(Files(kegs)) :: if p in Files(kegs) then Regular else Folder
  }

  /** A path at or above one of the files. */
  ghost predicate Within(own: set<Path>, p: Path) {
    exists t :: t in own && p <= t
  }

  /** Kegs of one depth, none of whose files lies below another. */
  ghost predicate Unnested(kegs: Kegs) {
    && (forall k, l :: k in kegs && l in kegs ==> |k| == |l|)
    && (forall k, a, b :: k in kegs && a in kegs[k] && b in kegs[k] && a <= b ==> a == b)
  }

  lemma SameKegPrefix(k: Path, l: Path, a: Path, b: Path)
    requires |k| == |l| && k + a <= l + b
    ensures k == l && a <= b
  {
    assert (k + a)[..|k|] == k && (l + b)[..|k|] == l;
    assert (k + a)[|k|..] == a && (l + b)[|k|..] == b;
  }

  lemma FileFrom(kegs: Kegs, q: Path) returns (k: Path, t: Path)
    requires q in Files(kegs)
    ensures k in kegs && t in kegs[k] && q == k + t
  {
    k, t :| k in kegs && t in kegs[k] && k + t == q;
  }

  lemma FileOfKeg(kegs: Kegs, k: Path, t: Path)
    requires k in kegs && t in kegs[k]
    ensures k + t in Files(kegs)
  {
  }

  lemma PrefixesMean(files: set<Path>, p: Path)
    ensures p in AllPrefixes(files) <==> Within(files, p)
  {
    if Within(files, p) {
      var q :| q in files && p <= q;
      assert p == q[..|p|];
    }
  }

  /** No file lies strictly below another. */
  lemma NoneBelow(kegs: Kegs, p: Path, q: Path)
    requires Unnested(kegs) && p in Files(kegs) && q in Files(kegs) && p <= q
    ensures p == q
  {
    var k, a := FileFrom(kegs, p);
    var l, b := FileFrom(kegs, q);
    hide Files;
    SameKegPrefix(k, l, a, b);
  }

  lemma InHolding(kegs: Kegs, p: Path)
    ensures p in Holding(kegs) <==> Within(Files(kegs), p)
    ensures p in Holding(kegs) ==> (Holding(kegs)[p].Regular? <==> p in Files(kegs))
  {
    PrefixesMean(Files(kegs), p);
    hide Files, Within;
  }

  lemma ParentHeld(kegs: Kegs, p: Path)
    requires Unnested(kegs) && p in Holding(kegs) && p != []
    ensures Parent(p) in Holding(kegs) && Holding(kegs)[Parent(p)].Folder?
  {
    InHolding(kegs, p);
    InHolding(kegs, Parent(p));
    hide Holding, Files;
    var q :| q in Files(kegs) && p <= q;
    assert Parent(p) <= q;
    if Parent(p) in Files(kegs) {
      NoneBelow(kegs, Parent(p), q);
    }
  }

  lemma HoldingValid(kegs: Kegs)
    requires Unnested(kegs)
    ensures ValidWorld(Holding(kegs))
  {
    hide Holding, Unnested;
    forall p | p in Holding(kegs) && p != []
      ensures Parent(p) in Holding(kegs) && Holding(kegs)[Parent(p)].Folder?
    {
      ParentHeld(kegs, p);
    }
  }

  lemma KegHolds(kegs: Kegs, k: Path, p: Path)
    requires Unnested(kegs) && k in kegs
    ensures p != [] ==> (k + p in Holding(kegs) <==> Within(kegs[k], p))
    ensures k + p in Holding(kegs) ==> (Holding(kegs)[k + p].Regular? <==> p in kegs[k])
  {
    InHolding(kegs, k + p);
    WithinKeg(kegs, k, p);
    if p in kegs[k] {
      FileOfKeg(kegs, k, p);
    }
    hide Holding, Files, Within;
    if k + p in Files(kegs) {
      var l, b := FileFrom(kegs, k + p);
      SameKegPrefix(k, l, p, b);
      SameKegPrefix(l, k, b, p);
      assert p == b;
    }
  }

  lemma WithinKeg(kegs: Kegs, k: Path, p: Path)
    requires Unnested(kegs) && k in kegs
    ensures p != [] ==> (Within(Files(kegs), k + p) <==> Within(kegs[k], p))
  {
    hide Files;
    if Within(Files(kegs), k + p) && p != [] {
      var q :| q in Files(kegs) && k + p <= q;
      var l, b := FileFrom(kegs, q);
      SameKegPrefix(k, l, p, b);
    }
    if Within(kegs[k], p) {
      var t :| t in kegs[k] && p <= t;
      FileOfKeg(kegs, k, t);
      assert k + p <= k + t;
    }
  }

  // Prefixes.

  /** A prefix as it is set up, nothing linked yet. */
  function NewPrefix(): Prefix {
    var dirs := set d | d in LinkDirs() :: [d];
    map p | p in {[], ["opt"]} + dirs :: Dir
  }

  lemma NewPrefixReady()
    ensures Ready(NewPrefix()) && forall p :: p in NewPrefix() ==> NewPrefix()[p] == Dir && |p| <= 1
  {
    hide LinkDirs;
  }

  /** With one symlink in one of the linked directories. */
  function OneLink(at: Path, target: Path): Prefix {
    NewPrefix()[at := Link(target)]
  }

  lemma OneLinkReady(at: Path, target: Path)
    requires |at| == 2 && at[0] in LinkDirs()
    ensures Ready(OneLink(at, target))
    ensures forall p :: p in OneLink(at, target) && p != at ==> OneLink(at, target)[p] == Dir && |p| <= 1
    ensures forall p :: LinkPoint(OneLink(at, target), p) == if at <= p then Some(2) else None
  {
    hide LinkDirs;
    var f := OneLink(at, target);
    NewPrefixReady();
    assert Parent(at) == [at[0]];
    assert Get(NewPrefix(), [at[0]]) == Some(Dir);
    assert Ready(f);
    hide NewPrefix, Ready;
    forall p
      ensures LinkPoint(f, p) == if at <= p then Some(2) else None
    {
      forall j | 0 <= j <= |p| && IsLink(f, p[..j])
        ensures j == 2 && at <= p
      {
        assert p[..j] == at;
      }
      if at <= p {
        assert p[..2] == at;
        assert IsLink(f, p[..2]);
      }
    }
  }

  /** Where `m` and the symlink's target both have something it is a directory in both. */
  ghost predicate OnlyFoldersMeet(w: World, at: Path, target: Path, m: Mount, p: Path) {
    && |at| == 2 && |m.dst| < 2 && target in w && w[target].Folder?
    && (at <= p && Covers(w, m, p) && target + p[2..] in w ==> w[Image(m, p)].Folder? && w[target + p[2..]].Folder?)
  }

  lemma LinkableBeside(w: World, at: Path, target: Path, keg: Path)
    requires ValidWorld(w) && |at| == 2 && at[0] in LinkDirs() && |keg| >= 2
    requires forall d :: d in LinkDirs() && keg + [d] in w ==> w[keg + [d]].Folder?
    requires forall p :: OnlyFoldersMeet(w, at, target, KegMount(keg), p)
    ensures Ready(OneLink(at, target)) && KegLinkable(w, OneLink(at, target), keg)
  {
    var f, m := OneLink(at, target), KegMount(keg);
    OneLinkReady(at, target);
    LinkableMeans(w, f, keg);
    OptIsNoLinkDir();
    assert f[at] == Link(target);
    hide LinkDirs, OneLink, Ready, KegLinkable, OnlyFoldersMeet;
    assert OptPath(keg)[0] == "opt";
    forall p | InLinkDirs(p) && |p| > 1
      ensures !ConflictAt(w, f, m, p) && !KindClash(w, f, m, p)
    {
      BesideAt(w, f, at, target, m, p);
    }
  }

  lemma BesideAt(w: World, f: Prefix, at: Path, target: Path, m: Mount, p: Path)
    requires ValidWorld(w) && OnlyFoldersMeet(w, at, target, m, p) && |p| > 1 && m.dst <= p
    requires at in f && f[at] == Link(target) && forall q :: q in f && q != at ==> f[q] == Dir && |q| <= 1
    requires forall q :: LinkPoint(f, q) == if at <= q then Some(2) else None
    ensures !ConflictAt(w, f, m, p) && !KindClash(w, f, m, p)
  {
    hide LinkPoint, Image, Hides, ValidWorld;
    assert LinkPoint(f, p) == if at <= p then Some(2) else None;
    assert LinkPoint(f, Parent(p)) == if at <= Parent(p) then Some(2) else None;
    if Covers(w, m, p) {
      if at <= p {
        assert p[..2] == at;
        assert at == p ==> target + p[2..] == target;
        CoverAt(w, m, p, 2);
        if at <= Parent(p) {
          assert Parent(p)[..2] == at;
        }
      }
    }
  }

  lemma CoverAt(w: World, m: Mount, p: Path, k: nat)
    requires ValidWorld(w) && Covers(w, m, p) && |m.dst| <= k <= |p|
    ensures Covers(w, m, p[..k]) && (k < |p| ==> CoversFolder(w, m, p[..k]))
  {
    assert p[..|p|] == p;
    if k < |p| {
      CoverIsClosed(w, m, p, k);
    }
  }

  // The kegs of the examples.

  function KegA1(): Path { ["Cellar", "a", "1"] }
  function KegA2(): Path { ["Cellar", "a", "2"] }
  function KegB(): Path { ["Cellar", "b", "1"] }

  lemma KegNames()
    ensures |KegA1()| == |KegA2()| == |KegB()| == 3 && KegA1() != KegA2() && !(KegB() <= KegA1()) && !(KegB() <= KegA2())
    ensures KegName(KegA1()) == KegName(KegA2()) == Some("a") && KegName(KegB()) == Some("b") && "a" != "b"
    ensures Versions(KegA1(), KegA2(), "a")
  {
    assert KegA1()[2] == "1" && KegA2()[2] == "2" && "1"[0] != "2"[0];
    assert KegA1()[1] == "a" && KegB()[1] == "b" && "a"[0] != "b"[0];
    assert Parent(KegA1()) == ["Cellar", "a"] == Parent(KegA2());
    var c := "Cellar";
    assert c[0] == 'C' && c[1] == 'e' && c[2] == 'l' && c[3] == 'l' && c[4] == 'a' && c[5] == 'r';
    assert IsCellar(c);
  }

  lemma LinkableFresh(w: World, keg: Path)
    requires ValidWorld(w) && |keg| >= 2
    requires forall d :: d in LinkDirs() && keg + [d] in w ==> w[keg + [d]].Folder?
    ensures Ready(NewPrefix()) && KegLinkable(w, NewPrefix(), keg)
  {
    var f := NewPrefix();
    NewPrefixReady();
    LinkableMeans(w, f, keg);
    hide LinkDirs, NewPrefix, Ready, KegLinkable;
    forall p | |p| > 1
      ensures !ConflictAt(w, f, KegMount(keg), p) && !KindClash(w, f, KegMount(keg), p)
    {
      NoLinkOf(f, p);
      NoLinkOf(f, Parent(p));
    }
  }

  lemma NoLinkOf(f: Prefix, p: Path)
    requires forall q :: q in f ==> f[q] == Dir
    ensures LinkPoint(f, p) == None
  {
  }

  lemma NothingFresh(w: World, f: Prefix, formula: Name)
    requires forall q :: q in f ==> f[q] == Dir
    ensures Fresh(w, f, formula)
  {
    forall p
      ensures Resolve(w, f, p) == None
    {
      NoLinkOf(f, p);
    }
    hide KegName;
  }

  // An upgrade between versions that share one file and differ in another.

  function BinX(): Path { ["bin", "x"] }
  function BinY(): Path { ["bin", "y"] }
  function BinZ(): Path { ["bin", "z"] }

  function Binaries(): Kegs {
    map[KegA1() := {BinX(), BinY()}, KegA2() := {BinX(), BinZ()}]
  }

  lemma BinariesApart()
    ensures Unnested(Binaries()) && KegA1() in Binaries() && KegA2() in Binaries()
    ensures Binaries()[KegA1()] == {BinX(), BinY()} && Binaries()[KegA2()] == {BinX(), BinZ()}
    ensures BinY() != BinX() && BinY() != BinZ() && |BinX()| == |BinY()| == |BinZ()| == 2
    ensures BinX()[0] == BinY()[0] == BinZ()[0] == "bin"
  {
    KegNames();
    assert BinX()[1] == "x" && BinY()[1] == "y" && BinZ()[1] == "z";
    assert "y"[0] != "x"[0] && "y"[0] != "z"[0];
  }

  /** A keg whose files are all two deep has directories only in the linked directories. */
  lemma TopFolders(kegs: Kegs, keg: Path)
    requires Unnested(kegs) && keg in kegs && forall t :: t in kegs[keg] ==> |t| >= 2
    ensures forall d :: keg + [d] in Holding(kegs) ==> Holding(kegs)[keg + [d]].Folder?
  {
    forall d | keg + [d] in Holding(kegs)
      ensures Holding(kegs)[keg + [d]].Folder?
    {
      KegHolds(kegs, keg, [d]);
    }
  }

  lemma FileOf(kegs: Kegs, keg: Path, p: Path)
    requires Unnested(kegs) && keg in kegs && |p| >= 2 && p[0] in LinkDirs() && p[0] != "libexec"
    ensures KegFile(Holding(kegs), keg, p) <==> p in kegs[keg]
    ensures CoversFolder(Holding(kegs), KegMount(keg), p) <==> p !in kegs[keg] && Within(kegs[keg], p)
  {
    KegHolds(kegs, keg, p);
    SeenAt(Holding(kegs), keg, p);
    hide Holding, LinkDirs, Unnested, KegMount, CoversFolder, CoversFile;
    assert p in kegs[keg] ==> Within(kegs[keg], p);
  }

  /** What the linker sees of a keg outside its private helper. */
  lemma SeenAt(w: World, keg: Path, p: Path)
    requires p != [] && p[0] != "libexec"
    ensures Image(KegMount(keg), p) == keg + p
    ensures CoversFile(w, KegMount(keg), p) <==> keg + p in w && w[keg + p].Regular?
    ensures CoversFolder(w, KegMount(keg), p) <==> keg + p in w && w[keg + p].Folder?
  {
  }

  lemma WithinOne(t: Path, p: Path)
    ensures Within({t}, p) <==> p <= t
  {
    assert t in {t};
  }

  lemma BinariesLink()
    ensures var w := Holding(Binaries());
            && ValidWorld(w) && Ready(NewPrefix())
            && KegLinkable(w, NewPrefix(), KegA1()) && KegLinkable(w, NewPrefix(), KegA2())
  {
    BinariesApart();
    KegNames();
    hide *;
    HoldingValid(Binaries());
    TopFolders(Binaries(), KegA1());
    TopFolders(Binaries(), KegA2());
    LinkableFresh(Holding(Binaries()), KegA1());
    LinkableFresh(Holding(Binaries()), KegA2());
  }

  lemma BinariesMatch()
    ensures KindsMatch(Holding(Binaries()), KegA1(), KegA2())
  {
    forall p
      ensures KindsAlike(Holding(Binaries()), KegMount(KegA1()), KegMount(KegA2()), p)
    {
      BinariesAlikeAt(p);
    }
    hide *;
    MatchingKinds(Holding(Binaries()), KegA1(), KegA2());
  }

  lemma MatchingKinds(w: World, old_: Path, new_: Path)
    requires forall p :: KindsAlike(w, KegMount(old_), KegMount(new_), p)
    ensures KindsMatch(w, old_, new_)
  {
  }

  lemma BinariesAlikeAt(p: Path)
    ensures KindsAlike(Holding(Binaries()), KegMount(KegA1()), KegMount(KegA2()), p)
  {
    hide *;
    BinariesApart();
    if p == [] {
      RootsAlike(Binaries(), KegA1(), KegA2());
    } else {
      KegHolds(Binaries(), KegA1(), p);
      KegHolds(Binaries(), KegA2(), p);
      BinariesAlike(Holding(Binaries()), p);
    }
  }

  /** The kegs themselves are directories. */
  lemma RootsAlike(kegs: Kegs, k: Path, l: Path)
    requires Unnested(kegs) && k in kegs && l in kegs && [] !in kegs[k] && [] !in kegs[l]
    ensures KindsAlike(Holding(kegs), KegMount(k), KegMount(l), [])
  {
    KegHolds(kegs, k, []);
    KegHolds(kegs, l, []);
    hide Holding, Unnested;
    assert Image(KegMount(k), []) == k + [] && Image(KegMount(l), []) == l + [];
  }

  lemma BinariesAlike(w: World, p: Path)
    requires KegA1() + p in w ==> Within({BinX(), BinY()}, p) && (w[KegA1() + p].Regular? <==> p in {BinX(), BinY()})
    requires KegA2() + p in w ==> Within({BinX(), BinZ()}, p) && (w[KegA2() + p].Regular? <==> p in {BinX(), BinZ()})
    ensures KindsAlike(w, KegMount(KegA1()), KegMount(KegA2()), p)
  {
    assert Image(KegMount(KegA1()), p) == KegA1() + p && Image(KegMount(KegA2()), p) == KegA2() + p;
    if KegA1() + p in w && KegA2() + p in w {
      var s :| s in {BinX(), BinY()} && p <= s;
      var t :| t in {BinX(), BinZ()} && p <= t;
      assert |s| == |t| == 2;
      assert |p| == 2 ==> p == s && p == t;
    }
  }

  /** The chain of an upgrade, on kegs that share `bin/x` and differ in `bin/y` and `bin/z`. */
  method UpgradeIsPossible() returns (f1: Prefix, f2: Prefix, f3: Prefix)
    ensures var w := Holding(Binaries());
            && Upgrade(w, NewPrefix(), KegA1(), KegA2(), "a", f1, f2, f3)
            && KegFile(w, KegA1(), BinX()) && KegFile(w, KegA2(), BinX()) && KegFile(w, KegA1(), BinY()) && !KegFile(w, KegA2(), BinY())
  {
    hide *;
    BinariesLink();
    BinariesMatch();
    KegNames();
    NothingLinked("a");
    BinariesApart();
    BinIsLinked();
    FileOf(Binaries(), KegA1(), BinX());
    FileOf(Binaries(), KegA2(), BinX());
    FileOf(Binaries(), KegA1(), BinY());
    FileOf(Binaries(), KegA2(), BinY());
    f1, f2, f3 := UpgradeSucceeds(Holding(Binaries()), NewPrefix(), KegA1(), KegA2(), "a");
  }

  lemma NothingLinked(formula: Name)
    ensures Fresh(Holding(Binaries()), NewPrefix(), formula)
  {
    NewPrefixReady();
    hide *;
    NothingFresh(Holding(Binaries()), NewPrefix(), formula);
  }

  lemma BinIsLinked()
    ensures "bin" in LinkDirs() && "lib" in LinkDirs() && "bin" != "libexec" && "lib" != "libexec"
  {
    assert LinkDirs()[0] == "bin" && LinkDirs()[2] == "lib";
    assert |"bin"| == |"lib"| == 3 && |"libexec"| == 7;
  }

  // The dry run passes, and linking fails.

  function Nested(): Kegs {
    map[KegA1() := {["bin", "x", "y"]}, KegB() := {BinX()}]
  }

  function Deep(): Path { ["bin", "x", "y"] }

  lemma NestedApart()
    ensures Unnested(Nested()) && KegA1() in Nested() && KegB() in Nested()
    ensures Nested()[KegA1()] == {Deep()} && Nested()[KegB()] == {BinX()}
    ensures BinX() <= Deep() && BinX() != Deep() && |BinX()| == 2 && BinX()[0] == "bin"
  {
    KegNames();
  }

  lemma NestedHeld()
    ensures ValidWorld(Holding(Nested())) && CoversFolder(Holding(Nested()), KegMount(KegA1()), BinX())
    ensures KegB() + BinX() in Holding(Nested()) && Holding(Nested())[KegB() + BinX()].Regular?
  {
    hide *;
    NestedApart();
    BinIsLinked();
    HoldingValid(Nested());
    KegHolds(Nested(), KegB(), BinX());
    WithinOne(BinX(), BinX());
    WithinOne(Deep(), BinX());
    FileOf(Nested(), KegA1(), BinX());
  }

  lemma NestedClear(f: Prefix, q: Path)
    requires |q| > 1 && !(BinX() <= q)
    ensures !ConflictAt(Holding(Nested()), f, KegMount(KegA1()), q)
  {
    NestedApart();
    KegHolds(Nested(), KegA1(), q);
    hide Holding, Nested, Unnested, KegA1, KegB, BinX, Deep, Within;
    assert Image(KegMount(KegA1()), q) == KegA1() + q;
  }

  lemma ClashBuilt()
    ensures var w, f := Holding(Nested()), OneLink(BinX(), KegB() + BinX());
            ValidWorld(w) && Ready(f) && ConflictFree(w, f, KegA1()) && !KegLinkable(w, f, KegA1())
  {
    hide *;
    var w, f := Holding(Nested()), OneLink(BinX(), KegB() + BinX());
    NestedApart();
    NestedHeld();
    BinIsLinked();
    OneLinkReady(BinX(), KegB() + BinX());
    LinkIsThere(BinX(), KegB() + BinX());
    assert InLinkDirs(BinX()) by { IsInLinkDirs(BinX()); }
    ClashSlipsThrough(w, f, KegA1(), BinX());
    forall q | InLinkDirs(q) && |q| > 1 && !(BinX() <= q)
      ensures !ConflictAt(w, f, KegMount(KegA1()), q)
    {
      NestedClear(f, q);
    }
  }

  lemma IsInLinkDirs(p: Path)
    requires p != [] && p[0] in LinkDirs()
    ensures InLinkDirs(p)
  {
  }

  lemma LinkIsThere(at: Path, target: Path)
    ensures IsLink(OneLink(at, target), at) && at in OneLink(at, target) && OneLink(at, target)[at] == Link(target)
  {
  }

  /** A directory of the keg meets a symlink to a file: the check passes as a whole and linking fails. */
  method ClashExample() returns (checked: Result<()>, linked: Result<()>)
    ensures var w, f := Holding(Nested()), OneLink(BinX(), KegB() + BinX());
            ValidWorld(w) && Ready(f) && ConflictFree(w, f, KegA1()) && !KegLinkable(w, f, KegA1())
    ensures checked.Ok? && linked.Err?
  {
    var w, f := Holding(Nested()), OneLink(BinX(), KegB() + BinX());
    ClashBuilt();
    hide *;
    LinkableMeans(w, f, KegA1());
    var linker := new Linker(w, f);
    checked := linker.CheckConflicts(KegA1());
    linked := linker.LinkKeg(KegA1());
  }

  // A directory symlink of another keg, unfolded for good.

  function LibD(): Path { ["lib", "d"] }
  function LibX(): Path { ["lib", "d", "x"] }
  function LibY(): Path { ["lib", "d", "y"] }
  function LibZ(): Path { ["lib", "z"] }

  /** The old version has files in `lib/d`, the new one has not; `b` has. */
  function Libraries(): Kegs {
    map[KegA1() := {LibX()}, KegA2() := {LibZ()}, KegB() := {LibY()}]
  }

  /** `lib/d` is a symlink to the directory of `b`. */
  function Shared(): Prefix {
    OneLink(LibD(), KegB() + LibD())
  }

  lemma LibrariesApart()
    ensures Unnested(Libraries()) && KegA1() in Libraries() && KegA2() in Libraries() && KegB() in Libraries()
    ensures Libraries()[KegA1()] == {LibX()} && Libraries()[KegA2()] == {LibZ()} && Libraries()[KegB()] == {LibY()}
    ensures |LibD()| == |LibZ()| == 2 && |LibX()| == |LibY()| == 3 && LibD()[0] == "lib"
    ensures LibD() <= LibX() && LibD() <= LibY() && !(LibD() <= LibZ()) && LibX() != LibY()
    ensures !(LibX() <= LibZ()) && !(LibZ() <= LibX())
    ensures ValidWorld(Holding(Libraries()))
  {
    KegNames();
    assert LibD()[1] == "d" && LibZ()[1] == "z" && "d"[0] != "z"[0];
    assert LibX()[1] == "d";
    assert LibX()[2] == "x" && LibY()[2] == "y" && "x"[0] != "y"[0];
    assert KegB() != KegA1() && KegB() != KegA2();
    HoldingValid(Libraries());
  }

  /** What lies behind the symlink. */
  lemma BehindShared(p: Path)
    requires LibD() <= p
    ensures var w := Holding(Libraries());
            && (KegB() + LibD() + p[2..] in w <==> p <= LibY()) && (KegB() + LibD() + p[2..] in w ==> (w[KegB() + LibD() + p[2..]].Folder? <==> p != LibY()))
            && (KegA1() + p in w <==> p <= LibX()) && (KegA1() + p in w ==> (w[KegA1() + p].Folder? <==> p != LibX()))
            && KegA2() + p !in w
  {
    hide *;
    LibrariesApart();
    KegHolds(Libraries(), KegA1(), p);
    KegHolds(Libraries(), KegA2(), p);
    KegHolds(Libraries(), KegB(), p);
    assert LibD() + p[2..] == p by { assert p[..2] == LibD(); }
    assert KegB() + LibD() + p[2..] == KegB() + p;
    WithinOne(LibX(), p);
    WithinOne(LibY(), p);
    WithinOne(LibZ(), p);
  }

  lemma SharedLink()
    ensures LibD() in Shared() && Shared()[LibD()] == Link(KegB() + LibD())
    ensures Ready(Shared()) && IsLink(Shared(), LibD()) && InLinkDirs(LibD())
    ensures Leaf(Shared(), LibD()) == Some(Link(KegB() + LibD()))
    ensures forall p :: p in Shared() && p != LibD() ==> Shared()[p] == Dir && |p| <= 1
    ensures forall p :: LinkPoint(Shared(), p) == if LibD() <= p then Some(2) else None
  {
    BinIsLinked();
    LibrariesApart();
    OneLinkReady(LibD(), KegB() + LibD());
    hide LinkDirs, Ready, NewPrefix, Holding;
  }

  /** What the kegs have behind the symlink beside what `b` has there. */
  lemma SharedBehind(m: Mount, p: Path)
    requires |m.dst| < 2 && (LibD() <= p && m.dst <= p ==> Image(m, p) in {KegA1() + p, KegA2() + p})
    ensures OnlyFoldersMeet(Holding(Libraries()), LibD(), KegB() + LibD(), m, p)
  {
    LibrariesApart();
    BehindShared(LibD());
    hide Holding, Libraries, Unnested, ValidWorld, Image, LibD, LibX, LibY, LibZ, KegA1, KegA2, KegB;
    assert LibD()[2..] == [] && KegB() + LibD() + [] == KegB() + LibD();
    if LibD() <= p {
      BehindShared(p);
      assert p == LibX() ==> !(p <= LibY());
    }
  }

  lemma SharedFits(keg: Path)
    requires keg == KegA1() || keg == KegA2()
    ensures Ready(Shared()) && KegLinkable(Holding(Libraries()), Shared(), keg)
  {
    hide *;
    LibrariesApart();
    BinIsLinked();
    KegNames();
    TopFolders(Libraries(), keg);
    forall p
      ensures OnlyFoldersMeet(Holding(Libraries()), LibD(), KegB() + LibD(), KegMount(keg), p)
    {
      KegImage(keg, p);
      SharedBehind(KegMount(keg), p);
    }
    LinkableBeside(Holding(Libraries()), LibD(), KegB() + LibD(), keg);
    SharedIs();
  }

  lemma SharedIs()
    ensures Shared() == OneLink(LibD(), KegB() + LibD())
  {
  }

  lemma KegImage(keg: Path, p: Path)
    ensures KegMount(keg).dst == [] && KegMount(keg).dst <= p && Image(KegMount(keg), p) == keg + p
  {
  }

  lemma SharedIsFresh()
    ensures Fresh(Holding(Libraries()), Shared(), "a")
  {
    hide *;
    KegNames();
    forall p, x | Resolve(Holding(Libraries()), Shared(), p) == Some(Stored(x))
      ensures KegName(x) == Some("b")
    {
      FoundBehind(Holding(Libraries()), p, x);
      KegNameExtends(KegB(), x);
    }
    SharedLink();
    KegNameExtends(KegB(), KegB() + LibD());
    OneStranger(Holding(Libraries()), Shared(), LibD(), "a");
  }

  /** Everything stored that the prefix shows lies behind the symlink. */
  lemma FoundBehind(w: World, p: Path, x: Path)
    requires Resolve(w, Shared(), p) == Some(Stored(x))
    ensures KegB() <= x
  {
    SharedLink();
    hide Shared, KegA1, KegB, LibD, LinkPoint, Ready;
    assert LinkPoint(Shared(), p) == if LibD() <= p then Some(2) else None;
    assert LibD() <= p ==> p[..2] == LibD();
    assert p in Shared() ==> !Shared()[p].File?;
  }

  lemma OneStranger(w: World, f: Prefix, at: Path, formula: Name)
    requires forall p :: p in f && p != at ==> f[p] == Dir
    requires IsLink(f, at) && KegName(f[at].target) != Some(formula)
    requires forall p, x :: Resolve(w, f, p) == Some(Stored(x)) ==> KegName(x) != Some(formula)
    ensures Fresh(w, f, formula)
  {
  }

  lemma LibrariesMatch()
    ensures KindsMatch(Holding(Libraries()), KegA1(), KegA2())
  {
    hide *;
    forall p
      ensures KindsAlike(Holding(Libraries()), KegMount(KegA1()), KegMount(KegA2()), p)
    {
      LibrariesAlike(p);
    }
    MatchingKinds(Holding(Libraries()), KegA1(), KegA2());
  }

  lemma LibrariesAlike(p: Path)
    ensures KindsAlike(Holding(Libraries()), KegMount(KegA1()), KegMount(KegA2()), p)
  {
    hide *;
    LibrariesApart();
    if p == [] {
      RootsAlike(Libraries(), KegA1(), KegA2());
    } else {
      KegHolds(Libraries(), KegA1(), p);
      KegHolds(Libraries(), KegA2(), p);
      WithinOne(LibX(), p);
      WithinOne(LibZ(), p);
      FilesApart(Holding(Libraries()), KegA1(), LibX(), KegA2(), LibZ(), p);
    }
  }

  /** Kegs with one file each, neither above the other. */
  lemma FilesApart(w: World, k: Path, x: Path, l: Path, z: Path, p: Path)
    requires !(x <= z) && !(z <= x)
    requires k + p in w ==> p <= x && (w[k + p].Regular? <==> p == x)
    requires l + p in w ==> p <= z && (w[l + p].Regular? <==> p == z)
    ensures KindsAlike(w, KegMount(k), KegMount(l), p)
  {
    assert Image(KegMount(k), p) == k + p && Image(KegMount(l), p) == l + p;
  }

  lemma SharedUnfolds()
    ensures UnfoldedLink(Holding(Libraries()), Shared(), KegA1(), LibD())
    ensures !UnfoldedLink(Holding(Libraries()), Shared(), KegA2(), LibD())
  {
    hide *;
    SharedLink();
    LibrariesApart();
    BehindShared(LibD());
    BinIsLinked();
    SeenAt(Holding(Libraries()), KegA1(), LibD());
    SeenAt(Holding(Libraries()), KegA2(), LibD());
    UnfoldedWhen(Holding(Libraries()), Shared(), KegA1(), LibD());
    UnfoldedWhen(Holding(Libraries()), Shared(), KegA2(), LibD());
  }

  lemma UnfoldedWhen(w: World, f: Prefix, keg: Path, q: Path)
    ensures UnfoldedLink(w, f, keg, q) <==> InLinkDirs(q) && IsLink(f, q) && CoversFolder(w, KegMount(keg), q)
  {
  }

  /** Linking a keg and taking it out again: the symlink is gone. */
  method RoundTripExample() returns (g: Prefix, h: Prefix)
    ensures var w, f := Holding(Libraries()), Shared();
            && LinkedOver(w, f, KegA1(), g) && UnlinkedFrom(w, g, KegA1(), h)
            && Leaf(f, LibD()) == Some(Link(KegB() + LibD())) && Leaf(h, LibD()) == None
  {
    var w, f := Holding(Libraries()), Shared();
    assert ValidWorld(w) by { LibrariesApart(); }
    assert Leaf(f, LibD()) == Some(Link(KegB() + LibD())) by { SharedLink(); }
    SharedFits(KegA1());
    SharedUnfolds();
    LinkableMeans(w, f, KegA1());
    Clearable(w, f, KegA1());
    hide Holding, Libraries, Shared, ValidWorld, Ready, KegLinkable, KegClearable, UnfoldedLink, Leaf, IsLinked, IsUnlinked,
      OptLinkable, ConflictFree, KindsAgree, KegReports, KegLists;
    var linker := new Linker(w, f);
    var linked := linker.LinkKeg(KegA1());
    g := linker.fs;
    var gone := linker.UnlinkKeg(KegA1());
    h := linker.fs;
    assert LinkedOver(w, f, KegA1(), g);
    assert UnlinkedFrom(w, g, KegA1(), h);
    LeafRoundTrip(w, f, KegA1(), g, h, LibD());
  }

  /** Upgrading to a version without the directory: the symlink a fresh install keeps is gone. */
  method UpgradeExample() returns (f1: Prefix, f2: Prefix, f3: Prefix, g: Prefix)
    ensures var w, f := Holding(Libraries()), Shared();
            && Upgrade(w, f, KegA1(), KegA2(), "a", f1, f2, f3) && LinkedOver(w, f, KegA2(), g)
            && Leaf(f3, LibD()) == None && Leaf(g, LibD()) != None
  {
    var w, f := Holding(Libraries()), Shared();
    assert ValidWorld(w) by { LibrariesApart(); }
    KegNames();
    SharedFits(KegA1());
    SharedFits(KegA2());
    SharedIsFresh();
    LibrariesMatch();
    SharedUnfolds();
    LinkableMeans(w, f, KegA2());
    hide Holding, Libraries, Shared, ValidWorld, Ready, KegLinkable, KegClearable, UnfoldedLink, Leaf, IsLinked, IsUnlinked,
      OptLinkable, ConflictFree, KindsAgree, KegReports, KegLists, Versions, KegName, Fresh, KindsMatch, Upgrade;
    f1, f2, f3 := UpgradeSucceeds(w, f, KegA1(), KegA2(), "a");
    var linker := new Linker(w, f);
    var linked := linker.LinkKeg(KegA2());
    g := linker.fs;
    assert LinkedOver(w, f, KegA2(), g);
    StaysUnfolded(w, f, KegA1(), KegA2(), "a", f1, f2, f3, g, LibD());
  }

  // The same by a declared step.

  function LinkLib(): Step {
    LinkDir(KegA1() + ["lib"], ["lib"])
  }

  function LinkLibTree(): Operation {
    Tree(KegA1() + ["lib"], ["lib"])
  }

  lemma LinkLibOps(w: World)
    ensures AllOps(w, [LinkLib()]) == {LinkLibTree()}
  {
    assert [LinkLib()][..0] == [];
    assert AllOps(w, []) == {};
  }

  /** The step covers what the keg has in `lib`. */
  lemma LinkLibCovers(w: World, p: Path)
    requires ["lib"] <= p
    ensures Image(TreeMount(LinkLibTree()), p) == KegA1() + p
    ensures Covers(w, TreeMount(LinkLibTree()), p) <==> KegA1() + p in w
  {
    assert p == ["lib"] + p[1..];
    assert KegA1() + ["lib"] + p[1..] == KegA1() + p;
  }

  lemma LibHolds(p: Path)
    requires p != []
    ensures KegA1() + p in Holding(Libraries()) <==> p <= LibX()
    ensures KegA1() + p in Holding(Libraries()) ==> (Holding(Libraries())[KegA1() + p].Regular? <==> p == LibX())
  {
    LibrariesApart();
    KegHolds(Libraries(), KegA1(), p);
    hide Holding, Libraries, Unnested;
    assert Within({LibX()}, p) <==> p <= LibX();
  }

  lemma LinkLibSeparate()
    ensures Separate(Holding(Libraries()), {LinkLibTree()})
  {
    var w, op := Holding(Libraries()), LinkLibTree();
    hide Holding, Libraries;
    forall q | Places(w, op, q)
      ensures Elsewhere(w, op, q)
    {
      assert ["lib"] <= q;
      LinkLibCovers(w, q);
      LibHolds(q);
    }
  }

  lemma LinkLibClear(p: Path)
    requires ["lib"] <= p && p != ["lib"]
    ensures var w, f, m := Holding(Libraries()), Shared(), TreeMount(LinkLibTree());
            !ConflictAt(w, f, m, p) && !KindClash(w, f, m, p)
  {
    SharedLink();
    LibrariesApart();
    LinkLibCovers(Holding(Libraries()), p);
    var m := TreeMount(LinkLibTree());
    hide *;
    SharedBehind(m, p);
    BesideAt(Holding(Libraries()), Shared(), LibD(), KegB() + LibD(), m, p);
  }

  lemma LinkLibDestination()
    ensures DestinationOk(Shared(), ["lib"])
  {
    SharedLink();
    hide Shared, LinkPoint, Ready;
    assert ["lib"][..0] == [] && ["lib"][..1] == ["lib"];
    assert LibD() != ["lib"] && LibD() != [];
  }

  lemma LinkLibSource()
    ensures KegA1() + ["lib"] in Holding(Libraries()) && Holding(Libraries())[KegA1() + ["lib"]].Folder?
  {
    LibHolds(["lib"]);
    assert LibX()[..1] == ["lib"] && LibX() != ["lib"];
  }

  lemma LinkLibApplicable()
    ensures Applicable(Holding(Libraries()), Shared(), KegA1(), [LinkLib()])
  {
    var w, f, op := Holding(Libraries()), Shared(), LinkLibTree();
    KegNames();
    LinkLibOps(w);
    LinkLibSource();
    LinkLibDestination();
    hide Holding, Libraries, Shared, AllOps, ConflictAt, KindClash, KegName, Versions, DestinationOk;
    forall p | ["lib"] <= p && p != ["lib"]
      ensures !ConflictAt(w, f, TreeMount(op), p) && !KindClash(w, f, TreeMount(op), p)
    {
      LinkLibClear(p);
    }
    assert Clear(w, f, op) && NoClash(w, f, op);
  }

  method PostInstallExample() returns (g: Prefix, h: Prefix)
    ensures var w, f := Holding(Libraries()), Shared();
            && Applied(w, f, AllOps(w, [LinkLib()]), AllOps(w, [LinkLib()]), g) && Removed([LinkLib()], g, h)
            && Leaf(h, LibD()) != Leaf(f, LibD())
  {
    var w, f, steps := Holding(Libraries()), Shared(), [LinkLib()];
    assert ValidWorld(w) by { LibrariesApart(); }
    assert ValidPrefix(f) by { SharedLink(); }
    LinkLibOps(w);
    LinkLibSeparate();
    LinkLibApplicable();
    var linker := new Linker(w, f);
    hide Holding, Libraries, Shared, AllOps, Separate, ValidWorld, ValidPrefix, Leaf, Applied, Removed, DestinationOk;
    assert StepOk(w, f, KegA1(), steps[0]);
    hide StepOk;
    var r := ApplyPostInstall(linker, KegA1(), steps);
    g := linker.fs;
    hide Applicable;
    AppliedCanBeRemoved(w, f, KegA1(), steps, g, 0);
    var ok := RemovePostInstall(linker, steps);
    h := linker.fs;
    LibStaysUnfolded(g, h);
  }

  lemma LibStaysUnfolded(g: Prefix, h: Prefix)
    requires var w := Holding(Libraries()); Applied(w, Shared(), AllOps(w, [LinkLib()]), AllOps(w, [LinkLib()]), g)
    requires Removed([LinkLib()], g, h)
    ensures Leaf(h, LibD()) != Leaf(Shared(), LibD())
  {
    hide *;
    var w, op := Holding(Libraries()), LinkLibTree();
    SharedLink();
    LinkLibOps(w);
    LinkLibTangles();
    TangledIsDir(w, Shared(), {op}, g, op, LibD());
    DirStaysBare([LinkLib()], Shared(), g, h, LibD());
  }

  lemma LinkLibTangles()
    ensures Tangles(Holding(Libraries()), Shared(), LinkLibTree(), LibD())
  {
    hide *;
    SharedLink();
    LibrariesApart();
    LinkLibCovers(Holding(Libraries()), LibD());
    LibHolds(LibD());
    TanglesWhen(Holding(Libraries()), Shared(), LibD());
  }

  lemma TanglesWhen(w: World, f: Prefix, d: Path)
    requires |d| > 1 && d[0] == "lib" && IsLink(f, d)
    requires Image(TreeMount(LinkLibTree()), d) == KegA1() + d && Covers(w, TreeMount(LinkLibTree()), d)
    requires KegA1() + d in w && w[KegA1() + d].Folder?
    ensures Tangles(w, f, LinkLibTree(), d)
  {
    hide Image, KegA1;
  }

  lemma TangledIsDir(w: World, f: Prefix, ops: set<Operation>, g: Prefix, op: Operation, d: Path)
    requires Applied(w, f, ops, ops, g) && op in ops && Tangles(w, f, op, d)
    ensures Get(g, d) == Some(Dir)
  {
  }
}
