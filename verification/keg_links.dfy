/** What linking and unlinking a whole keg mean for every path of the prefix. */
module KegLinks {
  import opened Options
  import opened FileTree
  import opened Overlay
  import opened LinkSteps
  import opened DryRun

  /** The directories of a keg that are linked into the prefix. */
  function LinkDirs(): (dirs: seq<Name>)
    ensures |dirs| == 8
  {
    ["bin", "sbin", "lib", "libexec", "cli-plugins", "include", "share", "etc"]
  }

  /** The directories the linker creates when it is set up. */
  ghost predicate Ready(f: Prefix) {
    && ValidPrefix(f)
    && Get(f, []) == Some(Dir) && Get(f, ["opt"]) == Some(Dir)
    && forall d :: d in LinkDirs() ==> Get(f, [d]) == Some(Dir)
  }

  predicate InLinkDirs(p: Path) {
    p != [] && p[0] in LinkDirs()
  }

  /** The keg as laid over the prefix; its top-level post-install helper stays private. */
  function KegMount(keg: Path): Mount {
    Mount(keg, [], Some(["libexec", "post-install"]))
  }

  /** The keg as it is taken out again. */
  function KegOut(keg: Path): Mount {
    Mount(keg, [], None)
  }

  function OptPath(keg: Path): Path
    requires |keg| >= 2
  {
    ["opt", keg[|keg| - 2]]
  }

  ghost predicate OptLinkable(f: Prefix, keg: Path) {
    |keg| >= 2 && Get(f, OptPath(keg)) != Some(Dir)
  }

  /** What stands in the way of linking beside conflicts: the wrong kind of entry somewhere. */
  ghost predicate KindsAgree(w: World, f: Prefix, keg: Path) {
    && (forall d :: d in LinkDirs() && keg + [d] in w ==> w[keg + [d]].Folder?)
    && (forall p :: InLinkDirs(p) && |p| > 1 ==> !KindClash(w, f, KegMount(keg), p))
  }

  ghost predicate ConflictFree(w: World, f: Prefix, keg: Path) {
    forall p :: InLinkDirs(p) && |p| > 1 ==> !ConflictAt(w, f, KegMount(keg), p)
  }

  /** The entry at `p` once the keg is linked. */
  function Linked(w: World, f: Prefix, keg: Path, p: Path): Option<Entry>
    requires |keg| >= 2
  {
    if p == OptPath(keg) then Some(Link(keg))
    else if InLinkDirs(p) then After(w, f, KegMount(keg), p)
    else Get(f, p)
  }

  ghost predicate IsLinked(w: World, f: Prefix, keg: Path, g: Prefix)
    requires |keg| >= 2
  {
    forall p :: Get(g, p) == Linked(w, f, keg, p)
  }

  /** How `g` at `p` follows from `f` when the links into the source are taken
      out: exactly those links go, and of the directories the source also has
      those that end up empty. */
  ghost predicate Cleared(w: World, f: Prefix, m: Mount, g: Prefix, p: Path) {
    match Get(f, p)
    case None => Get(g, p) == None
    case Some(Dir) =>
      if CoversFolder(w, m, p) && Listing(g, p) == {} then Get(g, p) == None else Get(g, p) == Some(Dir)
    case Some(File) => Get(g, p) == Some(File)
    case Some(Link(t)) => Get(g, p) == if Covers(w, m, p) && t == Image(m, p) then None else Some(Link(t))
  }

  predicate Owned(w: World, f: Prefix, m: Mount, p: Path) {
    Covers(w, m, p) && Get(f, p) == Some(Link(Image(m, p)))
  }

  /** `g` is `f` with the keg unlinked. */
  ghost predicate IsUnlinked(w: World, f: Prefix, keg: Path, g: Prefix) {
    && (forall p :: InLinkDirs(p) && |p| > 1 ==> Cleared(w, f, KegOut(keg), g, p))
    && (forall p :: !(InLinkDirs(p) && |p| > 1) ==>
                      Get(g, p) == if |keg| >= 2 && p == OptPath(keg) && Get(f, p) == Some(Link(keg)) then None else Get(f, p))
  }

  lemma LinkDirMember(i: nat, j: nat)
    requires i < |LinkDirs()| && j < |LinkDirs()| && i != j
    ensures LinkDirs()[i] != LinkDirs()[j] && LinkDirs()[i] != "opt"
  {
  }

  // The conflict check, directory by directory.

  /** `found` lists the conflicts in the first `i` linked directories. */
  ghost predicate KegReports(w: World, f: Prefix, keg: Path, i: nat, found: seq<ConflictedLink>)
    requires i <= |LinkDirs()|
  {
    && Distinct(found)
    && (forall c :: c in found ==> |c.path| > 1 && c.path[0] in LinkDirs()[..i] && ConflictAt(w, f, KegMount(keg), c.path)
                                   && c.ownedBy == OwnerAt(w, f, c.path))
    && (forall p :: |p| > 1 && p[0] in LinkDirs()[..i] && ConflictAt(w, f, KegMount(keg), p)
                    ==> ConflictedLink(p, OwnerAt(w, f, p)) in found)
  }

  lemma KegReportsNext(w: World, f: Prefix, keg: Path, i: nat, found: seq<ConflictedLink>, more: seq<ConflictedLink>)
    requires i < |LinkDirs()| && KegReports(w, f, keg, i, found)
    requires Reports(w, f, KegMount(keg), [LinkDirs()[i]], more)
    ensures KegReports(w, f, keg, i + 1, found + more)
  {
    hide LinkDirs;
    var d := LinkDirs()[i];
    var all := found + more;
    assert LinkDirs()[..i + 1] == LinkDirs()[..i] + [d];
    assert d !in LinkDirs()[..i] by {
      forall j | 0 <= j < i
        ensures LinkDirs()[j] != d
      {
        LinkDirMember(i, j);
      }
    }
    forall c | c in more
      ensures |c.path| > 1 && c.path[0] == d
    {
      assert [d] <= c.path;
    }
    ConcatDistinct(found, more);
    forall p | |p| > 1 && p[0] in LinkDirs()[..i + 1] && ConflictAt(w, f, KegMount(keg), p)
      ensures ConflictedLink(p, OwnerAt(w, f, p)) in all
    {
      if p[0] == d {
        assert [d] <= p && p != [d];
      }
    }
  }

  lemma KegReportsStart(w: World, f: Prefix, keg: Path)
    ensures KegReports(w, f, keg, 0, [])
  {
  }

  lemma AllKegReported(w: World, f: Prefix, keg: Path, found: seq<ConflictedLink>)
    requires KegReports(w, f, keg, |LinkDirs()|, found)
    ensures found == [] <==> ConflictFree(w, f, keg)
  {
    hide LinkDirs, ConflictAt, OwnerAt;
    assert LinkDirs()[..|LinkDirs()|] == LinkDirs();
    if found == [] {
      forall p | InLinkDirs(p) && |p| > 1
        ensures !ConflictAt(w, f, KegMount(keg), p)
      {
        assert ConflictAt(w, f, KegMount(keg), p) ==> ConflictedLink(p, OwnerAt(w, f, p)) in found;
      }
    } else {
      assert found[0] in found;
      assert InLinkDirs(found[0].path);
    }
  }

  lemma NoConflictsListed(w: World, f: Prefix, keg: Path, i: nat)
    requires ValidWorld(w) && i < |LinkDirs()| && keg + [LinkDirs()[i]] !in w
    ensures Reports(w, f, KegMount(keg), [LinkDirs()[i]], [])
  {
    hide LinkDirs;
    var d := [LinkDirs()[i]];
    forall p | d <= p && p != d
      ensures !ConflictAt(w, f, KegMount(keg), p)
    {
      assert p[..1] == d;
      if Covers(w, KegMount(keg), p) {
        CoverIsClosed(w, KegMount(keg), p, 1);
      }
    }
  }

  // The link pass, directory by directory.

  /** The first `i` linked directories are done, the others untouched. */
  ghost predicate LinkedUpTo(w: World, f: Prefix, keg: Path, i: nat, g: Prefix)
    requires i <= |LinkDirs()|
  {
    && Ready(g)
    && (forall j :: 0 <= j < i ==> DirLinkable(w, f, keg, j))
    && (forall p :: p != [] && p[0] in LinkDirs()[..i] ==> Get(g, p) == After(w, f, KegMount(keg), p))
    && (forall p :: p == [] || p[0] !in LinkDirs()[..i] ==> Get(g, p) == Get(f, p))
  }

  ghost predicate DirLinkable(w: World, f: Prefix, keg: Path, i: nat)
    requires i < |LinkDirs()|
  {
    keg + [LinkDirs()[i]] in w ==> Linkable(w, f, KegMount(keg), [LinkDirs()[i]])
  }

  lemma NotYet(i: nat)
    requires i < |LinkDirs()|
    ensures LinkDirs()[..i + 1] == LinkDirs()[..i] + [LinkDirs()[i]]
    ensures LinkDirs()[i] !in LinkDirs()[..i]
    ensures LinkDirs()[i] in LinkDirs() && LinkDirs()[i] != "opt"
  {
  }

  /** A linked directory still untouched is judged as it would have been at the start. */
  lemma DirLocal(w: World, f: Prefix, keg: Path, i: nat, g: Prefix)
    requires ValidWorld(w) && Ready(f) && i < |LinkDirs()| && LinkedUpTo(w, f, keg, i, g)
    ensures var m, d := KegMount(keg), [LinkDirs()[i]];
            && (Linkable(w, g, m, d) <==> Linkable(w, f, m, d))
            && (forall p :: d <= p ==> After(w, g, m, p) == After(w, f, m, p))
  {
    hide LinkDirs;
    var m, d := KegMount(keg), [LinkDirs()[i]];
    NotYet(i);
    assert forall p :: d <= p ==> Get(f, p) == Get(g, p);
    assert Parent(d) == [];
    forall p | d <= p
      ensures After(w, g, m, p) == After(w, f, m, p)
      ensures Fits(w, g, m, p) == Fits(w, f, m, p)
    {
      LocalBase(w, f, g, m, d, p);
      assert Base(w, f, m, []) == Get(f, []);
      assert Base(w, g, m, []) == Get(g, []);
      LocalFits(w, f, g, m, d, p);
    }
  }

  lemma LinkedStart(w: World, f: Prefix, keg: Path)
    requires Ready(f)
    ensures LinkedUpTo(w, f, keg, 0, f)
  {
  }

  /** What the link pass over directory `i` needs and when it goes through. */
  lemma DirPrepare(w: World, f: Prefix, keg: Path, i: nat, g: Prefix)
    requires ValidWorld(w) && Ready(f) && i < |LinkDirs()| && LinkedUpTo(w, f, keg, i, g)
    ensures var m, d := KegMount(keg), [LinkDirs()[i]];
            && ValidPrefix(g) && !Hides(m, d) && Image(m, d) == keg + d && NoLinkUpTo(g, d)
            && Rooted(g, d) && MakeDirs(g, d) == g
            && (if LinkDirs()[i] == "libexec" then m.hidden == Some(d + ["post-install"])
                else !(m.hidden.Some? && d <= m.hidden.value))
            && (keg + d in w ==> (Linkable(w, g, m, d) <==> DirLinkable(w, f, keg, i)))
            && (keg + d !in w ==> DirLinkable(w, f, keg, i))
            && SameOutside(g, g, d)
  {
    hide LinkDirs;
    DirLocal(w, f, keg, i, g);
    ReadyDir(g, i);
    NoConflictsHere(w, g, keg, i);
  }

  lemma DirDone(w: World, f: Prefix, keg: Path, i: nat, g: Prefix, h: Prefix)
    requires ValidWorld(w) && Ready(f) && i < |LinkDirs()| && LinkedUpTo(w, f, keg, i, g)
    requires ValidPrefix(h) && SameOutside(h, g, [LinkDirs()[i]])
    requires DirLinkable(w, f, keg, i)
    requires if keg + [LinkDirs()[i]] in w then IsAfter(w, g, KegMount(keg), [LinkDirs()[i]], h) else h == g
    ensures LinkedUpTo(w, f, keg, i + 1, h)
  {
    hide LinkDirs;
    var m, d := KegMount(keg), [LinkDirs()[i]];
    NotYet(i);
    forall p | d <= p
      ensures Get(h, p) == After(w, f, m, p)
    {
      DirDoneAt(w, f, keg, i, g, h, p);
    }
    assert Get(h, d) == Some(Dir) by {
      DirStays(w, f, keg, i, g, h);
    }
    hide After, Base, DirLinkable, IsAfter, ValidWorld, ValidPrefix, Covers, Image;
    forall p | p != [] && p[0] in LinkDirs()[..i + 1]
      ensures Get(h, p) == After(w, f, m, p)
    {
      if p[0] == d[0] {
        assert d <= p;
      } else {
        assert !(d <= p);
      }
    }
    forall p | p == [] || p[0] !in LinkDirs()[..i + 1]
      ensures Get(h, p) == Get(f, p)
    {
      assert !(d <= p);
    }
    forall e | e in LinkDirs()
      ensures Get(h, [e]) == Some(Dir)
    {
      if e != d[0] {
        assert !(d <= [e]);
      }
    }
    assert !(d <= []) && !(d <= ["opt"]);
  }

  lemma DirStays(w: World, f: Prefix, keg: Path, i: nat, g: Prefix, h: Prefix)
    requires ValidWorld(w) && Ready(f) && i < |LinkDirs()| && LinkedUpTo(w, f, keg, i, g)
    requires DirLinkable(w, f, keg, i)
    requires if keg + [LinkDirs()[i]] in w then IsAfter(w, g, KegMount(keg), [LinkDirs()[i]], h) else h == g
    ensures Get(h, [LinkDirs()[i]]) == Some(Dir)
  {
  }

  lemma DirDoneAt(w: World, f: Prefix, keg: Path, i: nat, g: Prefix, h: Prefix, p: Path)
    requires ValidWorld(w) && Ready(f) && i < |LinkDirs()| && LinkedUpTo(w, f, keg, i, g) && [LinkDirs()[i]] <= p
    requires if keg + [LinkDirs()[i]] in w then IsAfter(w, g, KegMount(keg), [LinkDirs()[i]], h) else h == g
    ensures Get(h, p) == After(w, f, KegMount(keg), p)
  {
    hide LinkDirs;
    var m, d := KegMount(keg), [LinkDirs()[i]];
    NotYet(i);
    DirLocal(w, f, keg, i, g);
    ReadyDir(f, i);
    assert Image(m, d) == keg + d;
    assert p[..1] == d && p[..0] == [];
    hide After, Base;
    if keg + d !in w {
      OutsideCover(w, f, m, p, 1);
      assert Get(h, p) == Get(f, p);
    }
  }

  /** Linking goes through exactly when nothing conflicts, the kinds agree and the opt link can be made. */
  ghost predicate KegLinkable(w: World, f: Prefix, keg: Path) {
    OptLinkable(f, keg) && forall i :: 0 <= i < |LinkDirs()| ==> DirLinkable(w, f, keg, i)
  }

  lemma LinkableMeans(w: World, f: Prefix, keg: Path)
    requires ValidWorld(w) && Ready(f)
    ensures KegLinkable(w, f, keg) <==> OptLinkable(f, keg) && ConflictFree(w, f, keg) && KindsAgree(w, f, keg)
  {
    hide LinkDirs;
    var m := KegMount(keg);
    forall p | InLinkDirs(p) && |p| > 1
      ensures Fits(w, f, m, p) <==> !ConflictAt(w, f, m, p) && !KindClash(w, f, m, p)
    {
      CheckIsExact(w, f, m, p);
    }
    if KegLinkable(w, f, keg) {
      forall d | d in LinkDirs() && keg + [d] in w
        ensures w[keg + [d]].Folder?
      {
        var i :| 0 <= i < |LinkDirs()| && LinkDirs()[i] == d;
        assert DirLinkable(w, f, keg, i);
        assert Image(m, [d]) == keg + [d];
      }
      forall p | InLinkDirs(p) && |p| > 1
        ensures Fits(w, f, m, p)
      {
        var i :| 0 <= i < |LinkDirs()| && LinkDirs()[i] == p[0];
        assert DirLinkable(w, f, keg, i);
        assert p[..1] == [p[0]] && p[..0] == [];
        assert [p[0]] <= p && p != [p[0]];
        if keg + [p[0]] !in w {
          OutsideCover(w, f, m, p, 1);
        }
      }
    }
    if ConflictFree(w, f, keg) && KindsAgree(w, f, keg) {
      forall i | 0 <= i < |LinkDirs()|
        ensures DirLinkable(w, f, keg, i)
      {
        var d := [LinkDirs()[i]];
        assert Image(m, d) == keg + d;
        forall p | d <= p && p != d
          ensures Fits(w, f, m, p)
        {
          assert InLinkDirs(p) && |p| > 1;
        }
      }
    }
  }

  lemma DirFails(w: World, f: Prefix, keg: Path, i: nat)
    requires i < |LinkDirs()| && !DirLinkable(w, f, keg, i)
    ensures !KegLinkable(w, f, keg)
  {
  }

  lemma KegDone(w: World, f: Prefix, keg: Path, f1: Prefix, g: Prefix)
    requires ValidWorld(w) && Ready(f) && OptLinkable(f, keg) && f1 == f[OptPath(keg) := Link(keg)]
    requires LinkedUpTo(w, f1, keg, |LinkDirs()|, g)
    ensures Ready(g) && IsLinked(w, f, keg, g) && KegLinkable(w, f, keg)
  {
    hide LinkDirs;
    OptApart(w, f, keg, f1);
    AllDone(w, f1, keg, g);
    OptIsNoLinkDir();
    forall p
      ensures Get(g, p) == Linked(w, f, keg, p)
    {
    }
  }

  lemma AllDone(w: World, f: Prefix, keg: Path, g: Prefix)
    requires LinkedUpTo(w, f, keg, |LinkDirs()|, g)
    ensures forall p :: Get(g, p) == if InLinkDirs(p) then After(w, f, KegMount(keg), p) else Get(f, p)
  {
  }

  /** The opt link is outside the linked directories, so it does not disturb their linking. */
  lemma OptApart(w: World, f: Prefix, keg: Path, g: Prefix)
    requires |keg| >= 2 && Ready(f) && g == f[OptPath(keg) := Link(keg)] && Get(f, OptPath(keg)) != Some(Dir)
    ensures Ready(g)
    ensures forall i :: 0 <= i < |LinkDirs()| ==> DirLinkable(w, f, keg, i) == DirLinkable(w, g, keg, i)
    ensures KegLinkable(w, f, keg) ==> KegLinkable(w, g, keg)
    ensures forall p :: InLinkDirs(p) ==> After(w, g, KegMount(keg), p) == After(w, f, KegMount(keg), p)
  {
    OptReady(f, keg, g);
    hide LinkDirs, Ready, OptPath;
    forall p | InLinkDirs(p)
      ensures After(w, g, KegMount(keg), p) == After(w, f, KegMount(keg), p)
      ensures Fits(w, g, KegMount(keg), p) == Fits(w, f, KegMount(keg), p)
    {
      OptApartAt(w, f, keg, g, p);
    }
    hide After, Fits, CoversFolder, KegMount;
    forall i | 0 <= i < |LinkDirs()|
      ensures DirLinkable(w, f, keg, i) == DirLinkable(w, g, keg, i)
    {
      assert forall p :: [LinkDirs()[i]] <= p ==> InLinkDirs(p);
    }
  }

  lemma OptReady(f: Prefix, keg: Path, g: Prefix)
    requires |keg| >= 2 && Ready(f) && g == f[OptPath(keg) := Link(keg)] && Get(f, OptPath(keg)) != Some(Dir)
    ensures Ready(g)
  {
    hide LinkDirs;
    LeafRemoval(f, OptPath(keg));
    assert Parent(OptPath(keg)) == ["opt"];
  }

  lemma OptApartAt(w: World, f: Prefix, keg: Path, g: Prefix, p: Path)
    requires |keg| >= 2 && Ready(f) && Ready(g) && g == f[OptPath(keg) := Link(keg)] && InLinkDirs(p)
    ensures After(w, g, KegMount(keg), p) == After(w, f, KegMount(keg), p)
    ensures Fits(w, g, KegMount(keg), p) == Fits(w, f, KegMount(keg), p)
  {
    OptIsNoLinkDir();
    hide LinkDirs;
    var d := [p[0]];
    assert Parent(d) == [] && d <= p;
    assert SameWithin(f, g, d) && LinkPoint(f, []) == None && LinkPoint(g, []) == None;
    hide After, Fits, LinkPoint;
    LocalBase(w, f, g, KegMount(keg), d, p);
    LocalFits(w, f, g, KegMount(keg), d, p);
  }

  /** Only the top-level post-install helper is hidden. */
  lemma NoConflictsHere(w: World, f: Prefix, keg: Path, i: nat)
    requires Ready(f) && i < |LinkDirs()|
    ensures var m, d := KegMount(keg), [LinkDirs()[i]];
            && !Hides(m, d) && Image(m, d) == keg + d && Plain(w, f, d) && NoLinkUpTo(f, d)
            && if LinkDirs()[i] == "libexec" then m.hidden == Some(d + ["post-install"])
               else !(m.hidden.Some? && d <= m.hidden.value)
  {
    hide LinkDirs;
    var m, d := KegMount(keg), [LinkDirs()[i]];
    ReadyDir(f, i);
    assert ["libexec"] + ["post-install"] == ["libexec", "post-install"];
    if d <= m.hidden.value {
      assert m.hidden.value[0] == d[0];
    }
  }

  lemma ReadyDir(f: Prefix, i: nat)
    requires Ready(f) && i < |LinkDirs()|
    ensures var d := [LinkDirs()[i]];
            d in f && f[d].Dir? && NoLinkUpTo(f, d) && Rooted(f, d) && MakeDirs(f, d) == f && LinkPoint(f, d) == None
  {
    hide LinkDirs;
    var d := [LinkDirs()[i]];
    assert LinkDirs()[i] in LinkDirs() && Get(f, d) == Some(Dir);
    assert d[..0] == [] && d[..1] == d && Parent(d) == [];
  }

  lemma OptIsNoLinkDir()
    ensures "opt" !in LinkDirs()
  {
  }

  // Unlinking, entry by entry.

  /** Below `d`, entries whose first name is not in `todo` are done, the others untouched. */
  ghost predicate ClearedExcept(w: World, f: Prefix, m: Mount, d: Path, todo: set<Name>, g: Prefix) {
    && ValidPrefix(g) && SameOutside(g, f, d) && Get(g, d) == Get(f, d)
    && (forall p :: d <= p && p != d ==> if p[|d|] in todo then Get(g, p) == Get(f, p) else Cleared(w, f, m, g, p))
  }

  /** `gone` lists the links of `f` below `d` that point into the source, each once. */
  ghost predicate Lists(w: World, f: Prefix, m: Mount, d: Path, todo: set<Name>, gone: seq<Path>) {
    && (forall p :: p in gone <==> d <= p && p != d && p[|d|] !in todo && Owned(w, f, m, p))
    && (forall i, j :: 0 <= i < j < |gone| ==> gone[i] != gone[j])
  }

  ghost predicate ListsAt(w: World, f: Prefix, m: Mount, c: Path, gone: seq<Path>) {
    && (forall p :: p in gone <==> c <= p && Owned(w, f, m, p))
    && (forall i, j :: 0 <= i < j < |gone| ==> gone[i] != gone[j])
  }

  ghost predicate ClearedAt(w: World, f: Prefix, m: Mount, c: Path, g: Prefix) {
    && ValidPrefix(g) && SameOutside(g, f, c)
    && (forall p :: c <= p ==> Cleared(w, f, m, g, p))
  }

  lemma UncoveredStays(w: World, f: Prefix, m: Mount, p: Path)
    requires !Covers(w, m, p) || (CoversFile(w, m, p) && Get(f, p) == Some(Dir))
    ensures Cleared(w, f, m, f, p) && !Owned(w, f, m, p)
  {
  }

  lemma NotListed(w: World, m: Mount, d: Path, p: Path)
    requires ValidWorld(w) && m.dst <= d && d <= p && p != d
    requires p[|d|] !in Children(w, Image(m, d))
    ensures !Covers(w, m, p)
  {
    var c := d + [p[|d|]];
    assert p[..|d| + 1] == c && p[..|p|] == p;
    assert !Covers(w, m, c) by {
      ImageChild(m, d, p[|d|]);
    }
    hide Children, Image, Covers, ValidWorld;
    if Covers(w, m, p) && |c| < |p| {
      CoverIsClosed(w, m, p, |c|);
    }
  }

  lemma ClearStart(w: World, f: Prefix, m: Mount, d: Path)
    requires ValidWorld(w) && ValidPrefix(f) && m.dst <= d
    ensures ClearedExcept(w, f, m, d, Children(w, Image(m, d)), f)
    ensures Lists(w, f, m, d, Children(w, Image(m, d)), [])
  {
    var todo := Children(w, Image(m, d));
    Untouched(f, d);
    forall p | d <= p && p != d && p[|d|] !in todo
      ensures Cleared(w, f, m, f, p) && !Owned(w, f, m, p)
    {
      NotListed(w, m, d, p);
      UncoveredStays(w, f, m, p);
    }
    hide Children, Cleared, Owned, Image, ValidWorld, ValidPrefix;
    assert ClearedExcept(w, f, m, d, todo, f);
  }

  lemma NothingToClear(w: World, f: Prefix, m: Mount, d: Path)
    requires ValidPrefix(f) && d !in f
    ensures ClearedExcept(w, f, m, d, {}, f) && Lists(w, f, m, d, {}, [])
  {
    Untouched(f, d);
    hide Covers, CoversFolder;
    forall p | d <= p && p != d
      ensures Cleared(w, f, m, f, p) && !Owned(w, f, m, p)
    {
      assert p[..|d|] == d;
      if p in f {
        AncestorsAreDirs(f, p, |d|);
      }
    }
  }

  lemma ClearNext(w: World, f: Prefix, m: Mount, d: Path, n: Name, todo: set<Name>, g: Prefix, h: Prefix)
    requires n !in todo
    requires ClearedExcept(w, f, m, d, todo + {n}, g)
    requires ClearedAt(w, g, m, d + [n], h)
    ensures ClearedExcept(w, f, m, d, todo, h)
  {
    assert !(d + [n] <= d);
    forall p | !(d <= p)
      ensures Get(h, p) == Get(f, p)
    {
      assert d + [n] <= p ==> d <= p;
    }
    forall p | d <= p && p != d
      ensures if p[|d|] in todo then Get(h, p) == Get(f, p) else Cleared(w, f, m, h, p)
    {
      assert d + [n] <= p <==> p[|d|] == n;
      if p[|d|] != n && p[|d|] !in todo {
        assert Get(h, p) == Get(g, p);
        forall e
          ensures Get(h, p + [e]) == Get(g, p + [e])
        {
          assert (p + [e])[|d|] == p[|d|];
          assert !(d + [n] <= p + [e]);
        }
        SameListing(g, h, p);
      }
      if p[|d|] == n {
        assert Cleared(w, g, m, h, p);
        assert Get(g, p) == Get(f, p);
      }
    }
  }

  lemma SameListing(f: Prefix, g: Prefix, p: Path)
    requires forall e :: Get(f, p + [e]) == Get(g, p + [e])
    ensures Listing(f, p) == Listing(g, p)
  {
  }

  lemma JoinDistinct(gone: seq<Path>, more: seq<Path>)
    requires forall i, j :: 0 <= i < j < |gone| ==> gone[i] != gone[j]
    requires forall i, j :: 0 <= i < j < |more| ==> more[i] != more[j]
    requires forall p :: p in gone ==> p !in more
    ensures forall i, j :: 0 <= i < j < |gone + more| ==> (gone + more)[i] != (gone + more)[j]
  {
    var all := gone + more;
    forall i, j | 0 <= i < j < |all|
      ensures all[i] != all[j]
    {
      if i < |gone| <= j {
        assert gone[i] in gone && more[j - |gone|] in more;
      }
    }
  }

  lemma ListNext(w: World, f: Prefix, m: Mount, d: Path, n: Name, todo: set<Name>, g: Prefix, gone: seq<Path>, more: seq<Path>)
    requires n !in todo
    requires ClearedExcept(w, f, m, d, todo + {n}, g)
    requires Lists(w, f, m, d, todo + {n}, gone) && ListsAt(w, g, m, d + [n], more)
    ensures Lists(w, f, m, d, todo, gone + more)
  {
    forall p | d + [n] <= p
      ensures Owned(w, g, m, p) == Owned(w, f, m, p)
      ensures d <= p && p != d && p[|d|] == n
    {
      assert Get(g, p) == Get(f, p);
    }
    forall p
      ensures p in gone + more <==> d <= p && p != d && p[|d|] !in todo && Owned(w, f, m, p)
    {
      assert p in gone + more <==> p in gone || p in more;
      if d <= p && p != d {
        assert d + [n] <= p <==> p[|d|] == n;
      }
    }
    JoinDistinct(gone, more);
    assert Lists(w, f, m, d, todo, gone + more);
  }

  /** An entry that is not a directory on both sides goes exactly when it links to the source entry. */
  lemma ClearEntry(w: World, f: Prefix, m: Mount, c: Path, g: Prefix)
    requires ValidWorld(w) && ValidPrefix(f) && m.dst <= c && Covers(w, m, c)
    requires !(CoversFolder(w, m, c) && Get(f, c) == Some(Dir))
    requires g == if Owned(w, f, m, c) then f - {c} else f
    ensures ClearedAt(w, f, m, c, g)
    ensures ListsAt(w, f, m, c, if Owned(w, f, m, c) then [c] else [])
  {
    if Get(f, c) == Some(Dir) {
      ClearSourceFile(w, f, m, c);
    } else {
      ClearLeaf(w, f, m, c, g);
    }
  }

  lemma ClearLeaf(w: World, f: Prefix, m: Mount, c: Path, g: Prefix)
    requires ValidPrefix(f) && Covers(w, m, c) && Get(f, c) != Some(Dir)
    requires g == if Owned(w, f, m, c) then f - {c} else f
    ensures ClearedAt(w, f, m, c, g)
    ensures ListsAt(w, f, m, c, if Owned(w, f, m, c) then [c] else [])
  {
    LeafRemoval(f, c);
    assert forall p :: c <= p && p != c ==> Get(f, p) == None;
    assert forall p :: c <= p && p != c ==> !Owned(w, f, m, p);
    assert forall p :: p != c ==> Get(g, p) == Get(f, p);
  }

  lemma ClearSourceFile(w: World, f: Prefix, m: Mount, c: Path)
    requires ValidWorld(w) && ValidPrefix(f) && CoversFile(w, m, c) && Get(f, c) == Some(Dir)
    ensures ClearedAt(w, f, m, c, f) && ListsAt(w, f, m, c, [])
  {
    Untouched(f, c);
    hide Cleared, Owned, ValidWorld, ValidPrefix, Covers;
    forall p | c <= p
      ensures Cleared(w, f, m, f, p) && !Owned(w, f, m, p)
    {
      if p != c {
        NothingBelowFile(w, m, c, p);
      }
      UncoveredStays(w, f, m, p);
    }
    assert ClearedAt(w, f, m, c, f);
  }

  /** Clearing a directory and then dropping it if nothing is left. */
  lemma ClearFolder(w: World, f: Prefix, m: Mount, c: Path, g: Prefix, h: Prefix)
    requires ValidPrefix(f) && c != [] && CoversFolder(w, m, c) && Get(f, c) == Some(Dir)
    requires ClearedExcept(w, f, m, c, {}, g)
    requires h == if Listing(g, c) == {} then g - {c} else g
    ensures ClearedAt(w, f, m, c, h)
  {
  }

  lemma ListFolder(w: World, f: Prefix, m: Mount, c: Path, gone: seq<Path>)
    requires Get(f, c) == Some(Dir) && Lists(w, f, m, c, {}, gone)
    ensures ListsAt(w, f, m, c, gone)
  {
  }

  // Unlinking, directory by directory.

  ghost predicate UnlinkedUpTo(w: World, f: Prefix, keg: Path, i: nat, g: Prefix)
    requires i <= |LinkDirs()|
  {
    && Ready(g)
    && (forall j :: 0 <= j < i ==> DirClearable(w, keg, j))
    && (forall p :: |p| > 1 && p[0] in LinkDirs()[..i] ==> Cleared(w, f, KegOut(keg), g, p))
    && (forall p :: !(|p| > 1 && p[0] in LinkDirs()[..i]) ==> Get(g, p) == Get(f, p))
  }

  predicate DirClearable(w: World, keg: Path, i: nat)
    requires i < |LinkDirs()|
  {
    keg + [LinkDirs()[i]] in w ==> w[keg + [LinkDirs()[i]]].Folder?
  }

  /** Every linked directory the keg has is a directory there. */
  ghost predicate KegClearable(w: World, keg: Path) {
    forall i :: 0 <= i < |LinkDirs()| ==> DirClearable(w, keg, i)
  }

  ghost predicate KegLists(w: World, f: Prefix, keg: Path, i: nat, gone: seq<Path>)
    requires i <= |LinkDirs()|
  {
    && (forall p :: p in gone <==> |p| > 1 && p[0] in LinkDirs()[..i] && Owned(w, f, KegOut(keg), p))
    && (forall a, b :: 0 <= a < b < |gone| ==> gone[a] != gone[b])
  }

  /** What clearing the directory `d` leaves alone. */
  lemma DirApart(f: Prefix, d: Path, g: Prefix, p: Path)
    requires SameOutside(g, f, d) && |d| == 1 && p != [] && p[0] != d[0]
    ensures Get(g, p) == Get(f, p) && Listing(g, p) == Listing(f, p)
  {
    forall e
      ensures Get(f, p + [e]) == Get(g, p + [e])
    {
      assert (p + [e])[0] == p[0];
    }
    SameListing(f, g, p);
  }

  /** The directory `LinkDirs()[i]` has been cleared, or there was nothing to clear. */
  ghost predicate DirCleared(w: World, g: Prefix, keg: Path, i: nat, h: Prefix, more: seq<Path>)
    requires i < |LinkDirs()|
  {
    var d := [LinkDirs()[i]];
    if keg + d in w then ClearedExcept(w, g, KegOut(keg), d, {}, h) && Lists(w, g, KegOut(keg), d, {}, more)
    else h == g && more == []
  }

  lemma UnlinkedStart(w: World, f: Prefix, keg: Path)
    requires Ready(f)
    ensures UnlinkedUpTo(w, f, keg, 0, f) && KegLists(w, f, keg, 0, [])
  {
  }

  lemma ClearPrepare(w: World, f: Prefix, keg: Path, i: nat, g: Prefix)
    requires i < |LinkDirs()| && UnlinkedUpTo(w, f, keg, i, g)
    ensures ValidPrefix(g) && Get(g, [LinkDirs()[i]]) == Some(Dir)
    ensures Image(KegOut(keg), [LinkDirs()[i]]) == keg + [LinkDirs()[i]]
    ensures KegClearable(w, keg) ==> DirClearable(w, keg, i)
  {
  }

  lemma DirClearedMeans(w: World, g: Prefix, keg: Path, i: nat, h: Prefix, more: seq<Path>)
    requires ValidWorld(w) && i < |LinkDirs()| && ValidPrefix(g) && DirCleared(w, g, keg, i, h, more)
    ensures ValidPrefix(h) && SameOutside(h, g, [LinkDirs()[i]]) && Get(h, [LinkDirs()[i]]) == Get(g, [LinkDirs()[i]])
    ensures forall p :: |p| > 1 && p[0] == LinkDirs()[i] ==> Cleared(w, g, KegOut(keg), h, p)
    ensures forall p :: p in more <==> |p| > 1 && p[0] == LinkDirs()[i] && Owned(w, g, KegOut(keg), p)
    ensures forall a, b :: 0 <= a < b < |more| ==> more[a] != more[b]
  {
    hide LinkDirs;
    var m, d := KegOut(keg), [LinkDirs()[i]];
    assert forall p :: |p| > 1 && p[0] == d[0] ==> d <= p && p != d;
    if keg + d !in w {
      forall p | |p| > 1 && p[0] == d[0]
        ensures !Covers(w, m, p)
      {
        assert p[..1] == d;
        if Covers(w, m, p) {
          CoverIsClosed(w, m, p, 1);
        }
      }
    }
  }

  lemma ClearedFrom(w: World, f: Prefix, m: Mount, g: Prefix, h: Prefix, p: Path)
    requires Get(g, p) == Get(f, p) && Cleared(w, g, m, h, p)
    ensures Cleared(w, f, m, h, p)
  {
  }

  lemma ClearedStill(w: World, f: Prefix, m: Mount, g: Prefix, h: Prefix, p: Path)
    requires Cleared(w, f, m, g, p) && Get(h, p) == Get(g, p) && Listing(h, p) == Listing(g, p)
    ensures Cleared(w, f, m, h, p)
  {
  }

  lemma UnlinkNext(w: World, f: Prefix, keg: Path, i: nat, g: Prefix, h: Prefix, more: seq<Path>)
    requires ValidWorld(w) && i < |LinkDirs()| && UnlinkedUpTo(w, f, keg, i, g)
    requires DirCleared(w, g, keg, i, h, more) && DirClearable(w, keg, i)
    ensures UnlinkedUpTo(w, f, keg, i + 1, h)
  {
    hide LinkDirs;
    var m, d := KegOut(keg), [LinkDirs()[i]];
    DirClearedMeans(w, g, keg, i, h, more);
    NotYet(i);
    hide DirCleared, Cleared, Listing, ValidPrefix, ValidWorld, KegOut;
    forall p | |p| > 1 && p[0] in LinkDirs()[..i + 1]
      ensures Cleared(w, f, m, h, p)
    {
      if p[0] == d[0] {
        ClearedFrom(w, f, m, g, h, p);
      } else {
        DirApart(g, d, h, p);
        ClearedStill(w, f, m, g, h, p);
      }
    }
    forall p | !(|p| > 1 && p[0] in LinkDirs()[..i + 1])
      ensures Get(h, p) == Get(f, p)
    {
      assert d <= p ==> p == d;
    }
    assert forall e :: e in LinkDirs() ==> Get(f, [e]) == Get(g, [e]) == Get(h, [e]);
    assert Get(h, []) == Get(g, []);
    assert Get(h, ["opt"]) == Get(g, ["opt"]);
  }

  lemma UnlinkNextLists(w: World, f: Prefix, keg: Path, i: nat, g: Prefix, h: Prefix, gone: seq<Path>, more: seq<Path>)
    requires ValidWorld(w) && i < |LinkDirs()| && UnlinkedUpTo(w, f, keg, i, g) && KegLists(w, f, keg, i, gone)
    requires DirCleared(w, g, keg, i, h, more)
    ensures KegLists(w, f, keg, i + 1, gone + more)
  {
    hide LinkDirs;
    DirClearedMeans(w, g, keg, i, h, more);
    hide DirCleared;
    NotYet(i);
    forall p | |p| > 1 && p[0] == LinkDirs()[i]
      ensures Owned(w, f, KegOut(keg), p) == Owned(w, g, KegOut(keg), p)
    {
      assert Get(g, p) == Get(f, p);
    }
    JoinDistinct(gone, more);
  }

  lemma OptRemoved(f: Prefix, keg: Path, g: Prefix)
    requires Ready(f)
    requires OptOut(f, keg, g)
    ensures Ready(g)
    ensures forall p :: InLinkDirs(p) ==> Get(g, p) == Get(f, p)
  {
  }

  ghost predicate OptOut(f: Prefix, keg: Path, g: Prefix) {
    g == if |keg| >= 2 && Get(f, OptPath(keg)) == Some(Link(keg)) then f - {OptPath(keg)} else f
  }

  lemma OptOutElsewhere(f: Prefix, keg: Path, g: Prefix, p: Path)
    requires OptOut(f, keg, g)
    ensures Get(g, p) == if |keg| >= 2 && p == OptPath(keg) && Get(f, OptPath(keg)) == Some(Link(keg)) then None else Get(f, p)
  {
  }

  lemma UnlinkedWithin(w: World, f: Prefix, keg: Path, g: Prefix, h: Prefix, p: Path)
    requires UnlinkedUpTo(w, g, keg, |LinkDirs()|, h) && InLinkDirs(p) && |p| > 1 && Get(g, p) == Get(f, p)
    ensures Cleared(w, f, KegOut(keg), h, p)
  {
  }

  lemma UnlinkedElsewhere(w: World, keg: Path, g: Prefix, h: Prefix, p: Path)
    requires UnlinkedUpTo(w, g, keg, |LinkDirs()|, h) && !(InLinkDirs(p) && |p| > 1)
    ensures Get(h, p) == Get(g, p)
  {
  }

  lemma ListedAll(w: World, f: Prefix, keg: Path, g: Prefix, gone: seq<Path>)
    requires KegLists(w, g, keg, |LinkDirs()|, gone)
    requires forall p :: InLinkDirs(p) ==> Get(g, p) == Get(f, p)
    ensures KegLists(w, f, keg, |LinkDirs()|, gone)
  {
  }

  lemma UnlinkedAll(w: World, f: Prefix, keg: Path, g: Prefix, h: Prefix, gone: seq<Path>)
    requires Ready(f) && UnlinkedUpTo(w, g, keg, |LinkDirs()|, h) && KegLists(w, g, keg, |LinkDirs()|, gone)
    requires OptOut(f, keg, g)
    ensures Ready(h) && KegClearable(w, keg) && IsUnlinked(w, f, keg, h)
    ensures KegLists(w, f, keg, |LinkDirs()|, gone)
  {
    OptRemoved(f, keg, g);
    ListedAll(w, f, keg, g, gone);
    hide LinkDirs, Ready, Cleared, OptPath, KegLists, OptOut;
    forall p | InLinkDirs(p) && |p| > 1
      ensures Cleared(w, f, KegOut(keg), h, p)
    {
      UnlinkedWithin(w, f, keg, g, h, p);
    }
    forall p | !(InLinkDirs(p) && |p| > 1)
      ensures Get(h, p) == if |keg| >= 2 && p == OptPath(keg) && Get(f, p) == Some(Link(keg)) then None else Get(f, p)
    {
      UnlinkedElsewhere(w, keg, g, h, p);
      OptOutElsewhere(f, keg, g, p);
    }
  }
}
