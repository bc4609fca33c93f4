/** Facts about single linking steps: creating directories, unfolding a
    directory symlink, and moving between a directory and its entries. */
module LinkSteps {
  import opened Options
  import opened FileTree
  import opened Overlay

  datatype ConflictedLink = ConflictedLink(path: Path, ownedBy: Option<Name>)

  datatype LinkError = LinkConflict(conflicts: seq<ConflictedLink>) | StoreCorruption

  datatype Result<+T> = Ok(value: T) | Err(error: LinkError)

  /** Every ancestor of `d` that exists is a real directory. */
  ghost predicate Rooted(f: Prefix, d: Path) {
    forall j :: 0 <= j < |d| && d[..j] in f ==> f[d[..j]].Dir?
  }

  /** The prefix after `d` and its missing ancestors have been created. */
  function MakeDirs(f: Prefix, d: Path): Prefix {
    if d in f then f
    else if d == [] then f[d := Dir]
    else MakeDirs(f, Parent(d))[d := Dir]
  }

  lemma PrefixOfParent(p: Path, d: Path)
    requires d != []
    ensures p <= d <==> p == d || p <= Parent(d)
  {
  }

  lemma {:induction false} MakeDirsKeeps(f: Prefix, d: Path)
    requires ValidPrefix(f) && Rooted(f, d)
    ensures var g := MakeDirs(f, d);
            && ValidPrefix(g)
            && d in g
            && (forall p :: Get(g, p) == if p !in f && p <= d then Some(Dir) else Get(f, p))
  {
    if d in f {
      forall p | p <= d && p != d
        ensures p in f
      {
        assert p == d[..|p|];
        AncestorsAreDirs(f, d, |p|);
      }
    } else if d != [] {
      forall j | 0 <= j < |Parent(d)| && Parent(d)[..j] in f
        ensures f[Parent(d)[..j]].Dir?
      {
        assert Parent(d)[..j] == d[..j];
      }
      assert Parent(d) == d[..|d| - 1];
      MakeDirsKeeps(f, Parent(d));
      var g := MakeDirs(f, Parent(d));
      var h: Prefix := g[d := Dir];
      forall p | p in h && p != []
        ensures Parent(p) in h && h[Parent(p)].Dir?
      {
        if p != d {
          assert Parent(p) in g && g[Parent(p)].Dir?;
        } else {
          assert Get(g, Parent(d)) == if Parent(d) !in f && Parent(d) <= Parent(d) then Some(Dir) else Get(f, Parent(d));
        }
      }
      forall p
        ensures Get(h, p) == if p !in f && p <= d then Some(Dir) else Get(f, p)
      {
        PrefixOfParent(p, d);
        assert Get(g, p) == if p !in f && p <= Parent(d) then Some(Dir) else Get(f, p);
      }
    }
  }

  lemma MakeDirsLinks(f: Prefix, d: Path)
    requires ValidPrefix(f) && Rooted(f, d) && NoLinkUpTo(f, d)
    ensures NoLinkUpTo(MakeDirs(f, d), d)
  {
    MakeDirsKeeps(f, d);
    forall j | 0 <= j <= |d|
      ensures !IsLink(MakeDirs(f, d), d[..j])
    {
      assert Get(MakeDirs(f, d), d[..j]) == if d[..j] !in f && d[..j] <= d then Some(Dir) else Get(f, d[..j]);
    }
  }

  ghost predicate SubFits(w: World, f: Prefix, m: Mount, d: Path) {
    forall p :: d <= p ==> Fits(w, f, m, p)
  }

  ghost predicate IsAfter(w: World, f: Prefix, m: Mount, d: Path, g: Prefix) {
    forall p :: d <= p ==> Get(g, p) == After(w, f, m, p)
  }

  /** `g` is `f` with the directory symlink at `d` replaced by a real directory of links. */
  ghost predicate Unfolded(w: World, f: Prefix, m: Mount, d: Path, g: Prefix) {
    && ValidWorld(w) && ValidPrefix(f) && ValidPrefix(g)
    && d != [] && IsLink(f, d) && m.dst <= Parent(d)
    && CoversFolder(w, m, d) && NoLinkUpTo(g, d)
    && f[d].target in w && w[f[d].target].Folder?
    && IsAfter(w, f - {d}, Mount(f[d].target, d, None), d, g)
  }

  lemma UnfoldedBase(w: World, f: Prefix, m: Mount, d: Path, g: Prefix, p: Path)
    requires Unfolded(w, f, m, d, g) && d <= p
    ensures Base(w, f, m, p) == Get(g, p)
    ensures p == d ==> Get(g, p) == Some(Dir)
    ensures IsLink(g, p) ==> g[p].target in w && w[g[p].target].Regular?
  {
    var t := f[d].target;
    var f' := f - {d};
    var m' := Mount(t, d, None);
    assert p[..|d|] == d;
    LinkPointUnique(f, p, |d|);
    assert Get(g, p) == After(w, f', m', p);
    assert Image(m', p) == t + p[|d|..];
    assert p == d ==> Image(m', p) == t;
    LeafRemoval(f, d);
    assert Get(f', p) == None;
    assert forall j :: |d| < j <= |p| ==> d <= p[..j];
    assert Base(w, f', m', p) == None;
  }

  lemma UnfoldedLinkPoint(w: World, f: Prefix, m: Mount, d: Path, g: Prefix, p: Path)
    requires Unfolded(w, f, m, d, g) && d <= p
    requires LinkPoint(g, p).Some?
    ensures |d| < LinkPoint(g, p).value
  {
    assert forall j :: 0 <= j <= |d| ==> p[..j] == d[..j];
  }

  ghost predicate LinkInTheWay(w: World, m: Mount, d: Path, g: Prefix, q: Path) {
    d <= q && q != d && CoversFolder(w, m, q) && IsLink(g, q)
  }

  /** A link to a file where the source has a directory stops both. */
  lemma UnfoldBlocked(w: World, f: Prefix, m: Mount, d: Path, g: Prefix, q: Path)
    requires Unfolded(w, f, m, d, g) && LinkInTheWay(w, m, d, g, q)
    ensures !Fits(w, f, m, q) && !Fits(w, g, m, q)
  {
    assert q[..|q|] == q && q[..|d|] == d;
    LinkPointUnique(g, q, |q|);
    UnfoldedBase(w, f, m, d, g, q);
    assert g[q].target + q[|q|..] == g[q].target;
  }

  lemma UnfoldFree(w: World, f: Prefix, m: Mount, d: Path, g: Prefix, p: Path)
    requires Unfolded(w, f, m, d, g) && d <= p
    requires forall q :: !LinkInTheWay(w, m, d, g, q)
    ensures Base(w, g, m, p) == Base(w, f, m, p)
  {
    UnfoldedBase(w, f, m, d, g, p);
    if LinkPoint(g, p).Some? {
      UnfoldedLinkPoint(w, f, m, d, g, p);
      var k := LinkPoint(g, p).value;
      assert !LinkInTheWay(w, m, d, g, p[..k]);
    }
  }

  /** Unfolding the directory symlink at `d` first does not change the outcome below `d`. */
  lemma UnfoldStep(w: World, f: Prefix, m: Mount, d: Path, g: Prefix)
    requires Unfolded(w, f, m, d, g)
    requires Base(w, f, m, Parent(d)) != Some(File)
    ensures Linkable(w, g, m, d) <==> SubFits(w, f, m, d)
    ensures Linkable(w, g, m, d) ==> forall p :: d <= p ==> After(w, g, m, p) == After(w, f, m, p)
  {
    UnfoldedBase(w, f, m, d, g, d);
    if q :| LinkInTheWay(w, m, d, g, q) {
      UnfoldBlocked(w, f, m, d, g, q);
    } else {
      forall p | d <= p
        ensures After(w, g, m, p) == After(w, f, m, p)
        ensures p != d ==> Fits(w, g, m, p) == Fits(w, f, m, p)
      {
        UnfoldFree(w, f, m, d, g, p);
        if p != d {
          assert d <= Parent(p);
          UnfoldFree(w, f, m, d, g, Parent(p));
        }
      }
    }
  }

  /** The reported conflict is a source file that could not be put in place. */
  ghost predicate Refused(w: World, m: Mount, d: Path, conflicts: seq<ConflictedLink>) {
    exists c :: conflicts == [c] && d <= c.path && CoversFile(w, m, c.path)
  }

  lemma NoLinkBelowParent(f: Prefix, d: Path)
    requires d != [] && NoLinkUpTo(f, Parent(d))
    ensures forall j :: 0 <= j < |d| ==> !IsLink(f, d[..j])
    ensures !IsLink(f, d) ==> NoLinkUpTo(f, d)
  {
    assert forall j :: 0 <= j < |d| ==> d[..j] == Parent(d)[..j];
    assert d[..|d|] == d;
  }

  lemma RootedChild(f: Prefix, d: Path)
    requires ValidPrefix(f) && d != [] && Parent(d) in f
    ensures Rooted(f, d) <==> f[Parent(d)].Dir?
    ensures Rooted(f, d) ==> SameOutside(MakeDirs(f, d), f, d)
  {
    forall j | 0 <= j < |d|
      ensures d[..j] in f && (f[Parent(d)].Dir? ==> f[d[..j]].Dir?)
    {
      if j == |d| - 1 {
        assert d[..j] == Parent(d);
      } else {
        AncestorsAreDirs(f, Parent(d), j);
        assert Parent(d)[..j] == d[..j];
      }
    }
    assert d[..|d| - 1] == Parent(d);
    if f[Parent(d)].Dir? {
      assert MakeDirs(f, Parent(d)) == f;
    }
  }

  ghost predicate Vacant(f: Prefix, d: Path) {
    forall p :: d <= p ==> p !in f
  }

  /** Where nothing exists yet, everything fits. */
  lemma EmptyFits(w: World, f: Prefix, m: Mount, d: Path)
    requires ValidPrefix(f) && d != [] && m == Mount(m.src, d, None)
    requires Vacant(f, d)
    ensures forall p :: d <= p && p != d ==> Fits(w, f, m, p)
    ensures forall p :: d <= p ==> Base(w, f, m, p) == None
  {
  }

  lemma UnfoldTarget(w: World, f: Prefix, m: Mount, d: Path)
    requires ValidPrefix(f) && d != [] && IsLink(f, d)
    requires m.dst <= Parent(d) && CoversFolder(w, m, d)
    ensures Base(w, f, m, Parent(d)) == Get(f, Parent(d)) == Some(Dir)
    ensures Fits(w, f, m, d) <==> f[d].target in w && w[f[d].target].Folder?
  {
    assert d[..|d|] == d;
    LinkPointUnique(f, d, |d|);
    assert f[d].target + d[|d|..] == f[d].target;
    forall j | 0 <= j <= |Parent(d)|
      ensures !IsLink(f, Parent(d)[..j])
    {
      assert Parent(d)[..j] == d[..j];
      AncestorsAreDirs(f, d, j);
    }
  }

  lemma FolderCase(w: World, f: Prefix, m: Mount, d: Path)
    requires ValidPrefix(f) && d != [] && !IsLink(f, d) && Parent(d) in f
    requires NoLinkUpTo(f, Parent(d))
    requires m.dst <= Parent(d) && CoversFolder(w, m, d)
    ensures SubFits(w, f, m, d) <==> f[Parent(d)].Dir? && Linkable(w, f, m, d)
  {
    NoLinkBelowParent(f, d);
    assert f[Parent(d)].Link? ==> IsLink(f, Parent(d)[..|Parent(d)|]) by {
      assert Parent(d)[..|Parent(d)|] == Parent(d);
    }
    assert LinkPoint(f, d) == None;
    assert LinkPoint(f, Parent(d)) == None;
    assert Base(w, f, m, d) == Get(f, d);
    assert Base(w, f, m, Parent(d)) == Get(f, Parent(d));
    assert Fits(w, f, m, d) <==> f[Parent(d)].Dir?;
  }

  lemma CreatedDirs(f: Prefix, d: Path, g: Prefix)
    requires ValidPrefix(f) && NoLinkUpTo(f, d) && d != []
    requires if d in f then g == f else Rooted(f, d) && g == MakeDirs(f, d)
    ensures Rooted(f, d) && g == MakeDirs(f, d)
    ensures ValidPrefix(g) && NoLinkUpTo(g, d) && d in g
    ensures Get(g, d) == if d in f then Get(f, d) else Some(Dir)
    ensures forall p :: d <= p && p != d ==> Get(g, p) == Get(f, p)
  {
    if d in f {
      forall j | 0 <= j < |d|
        ensures d[..j] in f && f[d[..j]].Dir?
      {
        AncestorsAreDirs(f, d, j);
      }
    }
    MakeDirsKeeps(f, d);
    MakeDirsLinks(f, d);
    forall p | d <= p && p != d
      ensures Get(g, p) == Get(f, p)
    {
      assert Get(g, p) == if p !in f && p <= d then Some(Dir) else Get(f, p);
    }
  }

  lemma NotAChild(w: World, f: Prefix, m: Mount, d: Path, p: Path)
    requires ValidWorld(w) && m.dst <= d && d <= p && p != d
    requires NoLinkUpTo(f, d)
    requires !Covers(w, m, d + [p[|d|]])
    ensures After(w, f, m, p) == Get(f, p) && Fits(w, f, m, p)
  {
    assert p[..|d| + 1] == d + [p[|d|]];
    assert forall j :: 0 <= j <= |d| ==> p[..j] == d[..j];
    OutsideCover(w, f, m, p, |d| + 1);
  }

  /** The directory listing yields exactly the covered entries, apart from the hidden one. */
  lemma ChildCovered(w: World, m: Mount, d: Path, n: Name)
    requires m.dst <= d && !Hides(m, d) && Image(m, d) + [n] in w
    requires (m.hidden.Some? && d <= m.hidden.value) ==> m.hidden.value == d + ["post-install"] && n != "post-install"
    ensures Covers(w, m, d + [n]) && Image(m, d + [n]) == Image(m, d) + [n]
    ensures !(m.hidden.Some? && d + [n] <= m.hidden.value)
  {
    ImageChild(m, d, n);
    assert Parent(d + [n]) == d;
    if m.hidden.Some? {
      var h := m.hidden.value;
      PrefixOfParent(h, d + [n]);
      assert d + [n] <= h ==> d <= h;
      assert (d + [n])[|d|] == n && (d + ["post-install"])[|d|] == "post-install";
    }
  }

  /** Entries that are still untouched are judged as they would have been at the start. */
  lemma ChildLocal(w: World, f: Prefix, g: Prefix, m: Mount, d: Path, n: Name)
    requires m.dst <= d && NoLinkUpTo(f, d) && NoLinkUpTo(g, d)
    requires forall p :: d + [n] <= p ==> Get(f, p) == Get(g, p)
    requires (Get(f, d) == Some(File)) == (Get(g, d) == Some(File))
    ensures SubFits(w, f, m, d + [n]) == SubFits(w, g, m, d + [n])
    ensures forall p :: d + [n] <= p ==> After(w, f, m, p) == After(w, g, m, p)
  {
    var c := d + [n];
    assert Parent(c) == d;
    assert LinkPoint(f, d) == None && LinkPoint(g, d) == None;
    forall p | c <= p
      ensures After(w, f, m, p) == After(w, g, m, p)
      ensures Fits(w, f, m, p) == Fits(w, g, m, p)
    {
      LocalBase(w, f, g, m, c, p);
      LocalFits(w, f, g, m, c, p);
    }
  }

  lemma EarlierFits(w: World, f: Prefix, m: Mount, d: Path, c: Path)
    requires d <= c && c != d && !SubFits(w, f, m, c)
    ensures !Linkable(w, f, m, d)
  {
  }

  lemma OutsideOf(f: Prefix, g: Prefix, d: Path, n: Name)
    requires NoLinkUpTo(f, d) && SameOutside(g, f, d + [n])
    ensures NoLinkUpTo(g, d) && Get(g, d) == Get(f, d)
    ensures SameOutside(g, f, d)
    ensures forall p :: d <= p && p != d && p[|d|] != n ==> Get(g, p) == Get(f, p)
    ensures forall p :: d <= p && p != d && p[|d|] == n ==> d + [n] <= p
  {
    forall j | 0 <= j <= |d|
      ensures !IsLink(g, d[..j])
    {
      assert !(d + [n] <= d[..j]);
      assert Get(g, d[..j]) == Get(f, d[..j]);
    }
    forall p | !(d <= p)
      ensures Get(g, p) == Get(f, p)
    {
      assert d + [n] <= p ==> d <= p;
    }
    assert d[..|d|] == d;
  }

  // One directory pass: entries in `todo` are still to come.

  // Entering a source directory, with or without a directory symlink in the way.

  /** `g` stands for `f` as the pass enters the source directory at `d`. */
  ghost predicate Entered(w: World, f: Prefix, m: Mount, d: Path, g: Prefix) {
    && ValidPrefix(g) && NoLinkUpTo(g, d)
    && (Rooted(g, d) && Linkable(w, g, m, d) <==> SubFits(w, f, m, d))
    && (Linkable(w, g, m, d) ==> forall p :: d <= p ==> After(w, g, m, p) == After(w, f, m, p))
    && SameOutside(g, f, d) && (Rooted(g, d) ==> SameOutside(MakeDirs(g, d), f, d))
  }

  lemma EnteredMeans(w: World, f: Prefix, m: Mount, d: Path, g: Prefix)
    requires Entered(w, f, m, d, g)
    ensures ValidPrefix(g) && NoLinkUpTo(g, d)
  {
  }

  lemma EnteredDone(w: World, f: Prefix, m: Mount, d: Path, g: Prefix, h: Prefix, ok: bool)
    requires Entered(w, f, m, d, g)
    requires ok <==> Rooted(g, d) && Linkable(w, g, m, d)
    requires ok ==> IsAfter(w, g, m, d, h)
    requires SameOutside(h, if Rooted(g, d) then MakeDirs(g, d) else g, d)
    ensures ok <==> SubFits(w, f, m, d)
    ensures ok ==> IsAfter(w, f, m, d, h)
    ensures SameOutside(h, f, d)
  {
  }

  lemma EnterPlain(w: World, f: Prefix, m: Mount, d: Path)
    requires ValidPrefix(f) && d != [] && !IsLink(f, d) && Parent(d) in f
    requires NoLinkUpTo(f, Parent(d)) && m.dst <= Parent(d) && CoversFolder(w, m, d)
    ensures Entered(w, f, m, d, f)
  {
    NoLinkBelowParent(f, d);
    FolderCase(w, f, m, d);
    RootedChild(f, d);
    Untouched(f, d);
    hide After, SubFits, Linkable, SameOutside, NoLinkUpTo, CoversFolder, Rooted, MakeDirs;
  }

  lemma UnfoldBegin(w: World, f: Prefix, m: Mount, d: Path)
    requires ValidPrefix(f) && d != [] && IsLink(f, d)
    requires NoLinkUpTo(f, Parent(d)) && m.dst <= Parent(d)
    ensures var g := f - {d};
            && ValidPrefix(g) && Vacant(g, d) && !Vacant(f, d) && NoLinkUpTo(g, d)
            && Rooted(g, d) && SameOutside(MakeDirs(g, d), f, d) && Get(g, Parent(d)) == Some(Dir)
    ensures Image(Mount(f[d].target, d, None), d) == f[d].target
  {
    var g := f - {d};
    LeafRemoval(f, d);
    NoLinkBelowParent(f, d);
    assert d[..|d|] == d;
    assert forall j :: 0 <= j < |d| ==> d[..j] != d;
    RootedChild(g, d);
  }

  lemma UnfoldFails(w: World, f: Prefix, m: Mount, d: Path, h: Prefix)
    requires ValidPrefix(f) && d != [] && IsLink(f, d) && NoLinkUpTo(f, Parent(d))
    requires m.dst <= Parent(d) && CoversFolder(w, m, d)
    requires !(Rooted(f - {d}, d) && Linkable(w, f - {d}, Mount(f[d].target, d, None), d))
    requires var g := f - {d}; SameOutside(h, if Rooted(g, d) then MakeDirs(g, d) else g, d)
    ensures !SubFits(w, f, m, d) && SameOutside(h, f, d)
  {
    UnfoldBegin(w, f, m, d);
    UnfoldTarget(w, f, m, d);
    EmptyFits(w, f - {d}, Mount(f[d].target, d, None), d);
    hide Fits, Base, Rooted, MakeDirs, NoLinkUpTo;
    assert SubFits(w, f, m, d) ==> Fits(w, f, m, d);
  }

  lemma UnfoldDone(w: World, f: Prefix, m: Mount, d: Path, h: Prefix)
    requires ValidWorld(w) && ValidPrefix(f) && ValidPrefix(h) && d != [] && IsLink(f, d) && NoLinkUpTo(f, Parent(d))
    requires m.dst <= Parent(d) && CoversFolder(w, m, d)
    requires var g, u := f - {d}, Mount(f[d].target, d, None);
             Linkable(w, g, u, d) && IsAfter(w, g, u, d, h) && SameOutside(h, MakeDirs(g, d), d)
    ensures Entered(w, f, m, d, h)
  {
    var g, u := f - {d}, Mount(f[d].target, d, None);
    UnfoldBegin(w, f, m, d);
    UnfoldTarget(w, f, m, d);
    assert Get(h, d) == Some(Dir) by {
      EmptyFits(w, g, u, d);
    }
    assert SameOutside(h, f, d) by {
      hide MakeDirs;
    }
    UnfoldedRoot(f, d, h);
    hide Fits, After, Base, Rooted, MakeDirs, SubFits;
    UnfoldStep(w, f, m, d, h);
  }

  lemma UnfoldedRoot(f: Prefix, d: Path, h: Prefix)
    requires ValidPrefix(f) && ValidPrefix(h) && d != [] && IsLink(f, d) && NoLinkUpTo(f, Parent(d))
    requires SameOutside(h, f, d) && Get(h, d) == Some(Dir) && Get(f, Parent(d)) == Some(Dir)
    ensures NoLinkUpTo(h, d) && Rooted(h, d) && SameOutside(MakeDirs(h, d), f, d)
  {
    NoLinkBelowParent(f, d);
    assert !(d <= Parent(d));
    assert Get(h, Parent(d)) == Get(f, Parent(d));
    RootedChild(h, d);
    forall j | 0 <= j <= |d|
      ensures !IsLink(h, d[..j])
    {
      assert d[..|d|] == d;
      if j < |d| {
        assert !(d <= d[..j]);
        assert Get(h, d[..j]) == Get(f, d[..j]);
      }
    }
  }

  ghost predicate LinkProgress(w: World, f: Prefix, m: Mount, d: Path, f1: Prefix, todo: set<Name>, g: Prefix) {
    && ValidPrefix(g) && NoLinkUpTo(g, d) && d in g
    && SameOutside(g, f1, d) && Get(g, d) == Get(f1, d)
    && (forall p :: d <= p && p != d ==> Get(g, p) == if p[|d|] in todo then Get(f, p) else After(w, f, m, p))
    && (forall p :: d <= p && p != d && p[|d|] !in todo ==> Fits(w, f, m, p))
  }

  /** The directory pass is at `d`, which exists by now. */
  ghost predicate PassAt(w: World, f: Prefix, m: Mount, d: Path, f1: Prefix) {
    && ValidWorld(w) && ValidPrefix(f) && m.dst <= d && !Hides(m, d) && NoLinkUpTo(f, d)
    && Rooted(f, d) && f1 == MakeDirs(f, d)
    && Get(f1, d) == (if d in f then Get(f, d) else Some(Dir))
    && (m.hidden.Some? && d <= m.hidden.value ==> m.hidden.value == d + ["post-install"])
  }

  lemma LinkStart(w: World, f: Prefix, m: Mount, d: Path, f1: Prefix)
    requires PassAt(w, f, m, d, f1)
    requires ValidPrefix(f1) && NoLinkUpTo(f1, d) && d in f1
    requires forall p :: d <= p && p != d ==> Get(f1, p) == Get(f, p)
    ensures LinkProgress(w, f, m, d, f1, Children(w, Image(m, d)), f1)
    ensures Linkable(w, f, m, d) ==> Image(m, d) in w && w[Image(m, d)].Folder?
    ensures SameOutside(f1, f1, d)
  {
    var todo := Children(w, Image(m, d));
    forall p | d <= p && p != d && p[|d|] !in todo
      ensures After(w, f, m, p) == Get(f, p) && Fits(w, f, m, p)
    {
      ImageChild(m, d, p[|d|]);
      NotAChild(w, f, m, d, p);
    }
  }

  lemma LinkHidden(w: World, f: Prefix, m: Mount, d: Path, f1: Prefix, todo: set<Name>, n: Name, g: Prefix)
    requires PassAt(w, f, m, d, f1)
    requires m.hidden == Some(d + [n])
    requires LinkProgress(w, f, m, d, f1, todo + {n}, g)
    ensures LinkProgress(w, f, m, d, f1, todo, g)
  {
    forall p | d <= p && p != d && p[|d|] == n
      ensures After(w, f, m, p) == Get(f, p) && Fits(w, f, m, p)
    {
      assert d + [n] <= p;
      NotAChild(w, f, m, d, p);
    }
  }

  /** What the next entry needs to be linked, and that it is judged as at the start. */
  lemma LinkChild(w: World, f: Prefix, m: Mount, d: Path, f1: Prefix, todo: set<Name>, n: Name, g: Prefix)
    requires PassAt(w, f, m, d, f1)
    requires Image(m, d) + [n] in w
    requires m.hidden.Some? && d <= m.hidden.value ==> n != "post-install"
    requires LinkProgress(w, f, m, d, f1, todo + {n}, g)
    ensures var c := d + [n];
            && ValidPrefix(g) && Parent(c) == d && d in g && NoLinkUpTo(g, d)
            && Covers(w, m, c) && Image(m, c) == Image(m, d) + [n]
            && (CoversFolder(w, m, c) || CoversFile(w, m, c))
            && !(m.hidden.Some? && c <= m.hidden.value)
            && SubFits(w, f, m, c) == SubFits(w, g, m, c)
            && (Vacant(f, d) ==> Vacant(g, c))
  {
    ChildCovered(w, m, d, n);
    NextEntry(d, n);
    ChildLocal(w, f, g, m, d, n);
    if Vacant(f, d) {
      forall p | d + [n] <= p
        ensures p !in g
      {
        assert d <= p;
        assert Get(g, p) == Get(f, p);
      }
    }
  }

  lemma NextEntry(d: Path, n: Name)
    ensures Parent(d + [n]) == d
    ensures forall p :: d + [n] <= p ==> d <= p && p != d && p[|d|] == n
    ensures forall p :: d <= p && p != d && p[|d|] == n ==> d + [n] <= p
  {
  }

  lemma LinkChildDone(w: World, f: Prefix, m: Mount, d: Path, f1: Prefix, todo: set<Name>, n: Name, g: Prefix, h: Prefix, ok: bool)
    requires PassAt(w, f, m, d, f1) && n !in todo
    requires LinkProgress(w, f, m, d, f1, todo + {n}, g)
    requires SubFits(w, f, m, d + [n]) == SubFits(w, g, m, d + [n])
    requires ValidPrefix(h) && SameOutside(h, g, d + [n])
    requires ok <==> SubFits(w, g, m, d + [n])
    requires ok ==> IsAfter(w, g, m, d + [n], h)
    ensures ok ==> LinkProgress(w, f, m, d, f1, todo, h)
    ensures !ok ==> !Linkable(w, f, m, d) && SameOutside(h, f1, d)
  {
    OutsideOf(g, h, d, n);
    NextEntry(d, n);
    if ok {
      ChildLocal(w, f, g, m, d, n);
      forall p | d <= p && p != d
        ensures Get(h, p) == if p[|d|] in todo then Get(f, p) else After(w, f, m, p)
        ensures p[|d|] !in todo ==> Fits(w, f, m, p)
      {
        if p[|d|] == n {
          assert d + [n] <= p;
        }
      }
    } else {
      EarlierFits(w, f, m, d, d + [n]);
    }
  }

  lemma LinkFinished(w: World, f: Prefix, m: Mount, d: Path, f1: Prefix, g: Prefix)
    requires PassAt(w, f, m, d, f1) && CoversFolder(w, m, d)
    requires LinkProgress(w, f, m, d, f1, {}, g)
    ensures Linkable(w, f, m, d) && IsAfter(w, f, m, d, g) && SameOutside(g, f1, d) && ValidPrefix(g)
  {
  }

  /** What the code looks at decides: for a source file everything below `d` is determined by the entry at `d`. */
  lemma FileCase(w: World, f: Prefix, m: Mount, d: Path)
    requires ValidWorld(w) && ValidPrefix(f)
    requires d != [] && m.dst <= Parent(d) && Parent(d) in f
    requires NoLinkUpTo(f, Parent(d))
    requires CoversFile(w, m, d)
    ensures Base(w, f, m, d) == Get(f, d)
    ensures Base(w, f, m, Parent(d)) == Get(f, Parent(d))
    ensures SubFits(w, f, m, d) <==> Fits(w, f, m, d)
    ensures forall p :: d <= p && p != d ==> After(w, f, m, p) == Get(f, p)
  {
    assert d[..|d|] == d;
    forall p | d <= p && p != d
      ensures Fits(w, f, m, p) && After(w, f, m, p) == Get(f, p)
    {
      assert forall j :: 0 <= j <= |Parent(d)| ==> p[..j] == Parent(d)[..j];
      assert p[..|d|] == d;
      NothingBelowFile(w, m, d, p);
      if LinkPoint(f, p).Some? {
        var k := LinkPoint(f, p).value;
        assert k > |d| ==> d <= p[..k] && p[..k] != d;
        if k > |d| {
          NothingBelowFile(w, m, d, p[..k]);
        }
      }
    }
    assert forall j :: 0 <= j <= |Parent(d)| ==> Parent(d)[..j] == d[..j];
  }

  lemma NothingBelowFile(w: World, m: Mount, d: Path, p: Path)
    requires ValidWorld(w) && CoversFile(w, m, d) && d <= p && p != d
    ensures !Covers(w, m, p)
  {
    assert p[..|d|] == d;
    if Covers(w, m, p) {
      CoverIsClosed(w, m, p, |d|);
    }
  }

  /** Removing a symlink keeps the prefix well formed and empties everything below it. */
  lemma LeafRemoval(f: Prefix, d: Path)
    requires ValidPrefix(f)
    requires d in f ==> !f[d].Dir?
    ensures ValidPrefix(f - {d})
    ensures forall p :: d <= p && p != d ==> p !in f
  {
    forall p | d <= p && p != d
      ensures p !in f
    {
      if p in f {
        assert p[..|d|] == d;
        AncestorsAreDirs(f, p, |d|);
      }
    }
    forall p | p in f - {d} && p != []
      ensures Parent(p) in f - {d} && f[Parent(p)].Dir?
    {
      assert p in f;
    }
  }
}
