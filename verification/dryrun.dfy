/** The conflict check that runs before anything is linked. */
module DryRun {
  import opened Options
  import opened FileTree
  import opened Overlay
  import opened LinkSteps

  /** A source file whose place is taken by something of another owner, as the check sees it. */
  predicate ConflictAt(w: World, f: Prefix, m: Mount, p: Path) {
    && CoversFile(w, m, p)
    && match LinkPoint(f, p)
       case None => p in f
       case Some(k) =>
         var t := f[p[..k]].target + p[k..];
         (k < |p| ==> t in w) && t != Image(m, p) && !SameFormula(w, t, Image(m, p))
  }

  /** Directory on one side and file on the other, which the check lets through. */
  predicate KindClash(w: World, f: Prefix, m: Mount, p: Path) {
    && Covers(w, m, p)
    && (|| (p != [] && m.dst <= Parent(p) && Base(w, f, m, Parent(p)) == Some(File))
        || (w[Image(m, p)].Folder? && Base(w, f, m, p).Some? && Base(w, f, m, p).value.Link?)
        || (&& w[Image(m, p)].Regular? && LinkPoint(f, p).Some?
            && var k := LinkPoint(f, p).value;
               var t := f[p[..k]].target + p[k..];
               k < |p| && t in w && w[t].Folder? && SameFormula(w, t, Image(m, p))))
  }

  /** Whom a conflict is blamed on. */
  function OwnerAt(w: World, f: Prefix, p: Path): Option<Name> {
    match LinkPoint(f, p)
    case None => None
    case Some(k) =>
      if k == |p| then (if f[p].target in w then KegName(f[p].target) else None)
      else KegName(f[p[..k]].target + p[k..|p| - 1])
  }

  /** The check and the kinds together decide exactly whether a source entry can be linked. */
  lemma CheckIsExact(w: World, f: Prefix, m: Mount, p: Path)
    requires ValidWorld(w) && ValidPrefix(f) && NoLinkUpTo(f, m.dst)
    requires m.dst <= p && p != m.dst
    ensures Fits(w, f, m, p) <==> !ConflictAt(w, f, m, p) && !KindClash(w, f, m, p)
  {
    if Covers(w, m, p) {
      match LinkPoint(f, p)
      case None => BasePlain(w, f, m, p);
      case Some(k) => BaseBehind(w, f, m, p, k);
    }
    hide LinkPoint, Image, Hides, Covers, ValidWorld, ValidPrefix, NoLinkUpTo, SameFormula, Base;
  }

  lemma BasePlain(w: World, f: Prefix, m: Mount, p: Path)
    requires LinkPoint(f, p) == None
    ensures Base(w, f, m, p) == Get(f, p) && !IsLink(f, p)
  {
  }

  /** What is found at a source entry's place behind a symlink. */
  lemma BaseBehind(w: World, f: Prefix, m: Mount, p: Path, k: nat)
    requires ValidWorld(w) && ValidPrefix(f) && NoLinkUpTo(f, m.dst)
    requires Covers(w, m, p) && LinkPoint(f, p) == Some(k)
    ensures var t := f[p[..k]].target + p[k..];
            Base(w, f, m, p) == if t in w && w[t].Folder? && (k < |p| || CoversFolder(w, m, p)) then Some(Dir)
                                else if k == |p| || t in w then Some(Link(t))
                                else None
  {
    assert p[..|p|] == p;
    assert forall j :: 0 <= j <= |m.dst| ==> p[..j] == m.dst[..j];
    assert k > |m.dst|;
    if k < |p| {
      CoverIsClosed(w, m, p, k);
    } else {
      assert f[p].target + p[k..] == f[p].target;
    }
    hide LinkPoint, Image, Hides, ValidWorld, ValidPrefix, NoLinkUpTo;
  }

  predicate Distinct(found: seq<ConflictedLink>) {
    forall i, j :: 0 <= i < j < |found| ==> found[i].path != found[j].path
  }

  /** `found` lists each conflict strictly below `d` exactly once, with its owner. */
  ghost predicate Reports(w: World, f: Prefix, m: Mount, d: Path, found: seq<ConflictedLink>) {
    && Distinct(found)
    && (forall c :: c in found ==> d <= c.path && c.path != d && ConflictAt(w, f, m, c.path)
                                   && c.ownedBy == OwnerAt(w, f, c.path))
    && (forall p :: d <= p && p != d && ConflictAt(w, f, m, p) ==> ConflictedLink(p, OwnerAt(w, f, p)) in found)
  }

  /** The same for the entries below `d` whose first name is not in `todo`. */
  ghost predicate ReportsExcept(w: World, f: Prefix, m: Mount, d: Path, todo: set<Name>, found: seq<ConflictedLink>) {
    && Distinct(found)
    && (forall c :: c in found ==> d <= c.path && c.path != d && c.path[|d|] !in todo && ConflictAt(w, f, m, c.path)
                                   && c.ownedBy == OwnerAt(w, f, c.path))
    && (forall p :: d <= p && p != d && p[|d|] !in todo && ConflictAt(w, f, m, p)
                    ==> ConflictedLink(p, OwnerAt(w, f, p)) in found)
  }

  /** `found` lists the conflicts at or below the entry `c`. */
  ghost predicate ReportsAt(w: World, f: Prefix, m: Mount, c: Path, found: seq<ConflictedLink>) {
    && Distinct(found)
    && (forall x :: x in found ==> c <= x.path && ConflictAt(w, f, m, x.path) && x.ownedBy == OwnerAt(w, f, x.path))
    && (forall p :: c <= p && ConflictAt(w, f, m, p) ==> ConflictedLink(p, OwnerAt(w, f, p)) in found)
  }

  lemma ConcatDistinct(found: seq<ConflictedLink>, more: seq<ConflictedLink>)
    requires Distinct(found) && Distinct(more)
    requires forall a, b :: a in found && b in more ==> a.path != b.path
    ensures Distinct(found + more)
  {
  }

  lemma AddEntry(w: World, f: Prefix, m: Mount, d: Path, n: Name, todo: set<Name>,
                 found: seq<ConflictedLink>, more: seq<ConflictedLink>)
    requires n !in todo
    requires ReportsExcept(w, f, m, d, todo + {n}, found)
    requires ReportsAt(w, f, m, d + [n], more)
    ensures ReportsExcept(w, f, m, d, todo, found + more)
  {
  }

  /** A source file conflicts at its own place or nowhere. */
  lemma FileConflict(w: World, f: Prefix, m: Mount, c: Path, found: seq<ConflictedLink>)
    requires ValidWorld(w) && CoversFile(w, m, c)
    requires found == if ConflictAt(w, f, m, c) then [ConflictedLink(c, OwnerAt(w, f, c))] else []
    ensures ReportsAt(w, f, m, c, found)
  {
    forall p | c <= p && ConflictAt(w, f, m, p)
      ensures p == c
    {
      assert p[..|c|] == c;
      if p != c {
        CoverIsClosed(w, m, p, |c|);
      }
    }
  }

  lemma FolderConflict(w: World, f: Prefix, m: Mount, c: Path, found: seq<ConflictedLink>)
    requires CoversFolder(w, m, c) && Reports(w, f, m, c, found)
    ensures ReportsAt(w, f, m, c, found)
  {
  }

  lemma AllReported(w: World, f: Prefix, m: Mount, d: Path, found: seq<ConflictedLink>)
    requires ReportsExcept(w, f, m, d, {}, found)
    ensures Reports(w, f, m, d, found)
  {
  }

  lemma HiddenConflict(w: World, f: Prefix, m: Mount, d: Path, n: Name, found: seq<ConflictedLink>)
    requires ValidWorld(w) && m.dst <= d && !Covers(w, m, d + [n]) && found == []
    ensures ReportsAt(w, f, m, d + [n], found)
  {
    var c := d + [n];
    forall p | c <= p
      ensures !ConflictAt(w, f, m, p)
    {
      hide Covers, Image, ValidWorld;
      assert p[..|c|] == c;
      if Covers(w, m, p) && p != c {
        CoverIsClosed(w, m, p, |c|);
      }
    }
    hide ConflictAt;
  }

  lemma StartReport(w: World, f: Prefix, m: Mount, d: Path)
    requires ValidWorld(w) && m.dst <= d
    ensures ReportsExcept(w, f, m, d, Children(w, Image(m, d)), [])
  {
    forall p | d <= p && p != d && p[|d|] !in Children(w, Image(m, d))
      ensures !ConflictAt(w, f, m, p)
    {
      ImageChild(m, d, p[|d|]);
      assert p[..|d| + 1] == d + [p[|d|]];
      assert p[..|p|] == p;
      if Covers(w, m, p) && |d| + 1 < |p| {
        CoverIsClosed(w, m, p, |d| + 1);
      }
    }
  }

  lemma LinkPointChild(f: Prefix, d: Path, n: Name)
    requires ValidPrefix(f)
    ensures LinkPoint(f, d).Some? ==> LinkPoint(f, d + [n]) == LinkPoint(f, d) && d + [n] !in f
    ensures LinkPoint(f, d) == None ==>
              LinkPoint(f, d + [n]) == if IsLink(f, d + [n]) then Some(|d| + 1) else None
  {
    assert Parent(d + [n]) == d;
    if LinkPoint(f, d).Some? {
      var k := LinkPoint(f, d).value;
      assert (d + [n])[..k] == d[..k];
      if d + [n] in f {
        AncestorsAreDirs(f, d + [n], k);
      }
      LinkPointUnique(f, d + [n], k);
    }
  }

  lemma NothingListed(w: World, src: Path)
    requires ValidWorld(w) && !(src in w && w[src].Folder?)
    ensures Children(w, src) == {}
  {
    forall n
      ensures src + [n] !in w
    {
      assert Parent(src + [n]) == src;
    }
  }

  lemma BehindChild(t: Path, dst: Path, k: nat, n: Name)
    requires k <= |dst|
    ensures (dst + [n])[..k] == dst[..k]
    ensures t + dst[k..] + [n] == t + (dst + [n])[k..]
  {
  }

  /** `dst` is reached through no symlink, or through one behind which nothing exists at this place. */
  ghost predicate Plain(world: World, fs: Prefix, dst: Path) {
    match LinkPoint(fs, dst)
    case None => true
    case Some(k) => k < |dst| && fs[dst[..k]].target + dst[k..] !in world
  }

  lemma StillPlain(world: World, fs: Prefix, dst: Path, n: Name)
    requires ValidWorld(world) && ValidPrefix(fs) && Plain(world, fs, dst) && !IsLink(fs, dst + [n])
    ensures Plain(world, fs, dst + [n])
  {
    LinkPointChild(fs, dst, n);
    if LinkPoint(fs, dst).Some? {
      var k := LinkPoint(fs, dst).value;
      var t := fs[dst[..k]].target;
      assert (dst + [n])[..k] == dst[..k];
      var behind := t + (dst + [n])[k..];
      assert behind[..|t + dst[k..]|] == t + dst[k..];
      if behind in world {
        AncestorsAreFolders(world, behind, |t + dst[k..]|);
      }
    }
  }

  lemma BlamedBehindLink(world: World, fs: Prefix, dst: Path, n: Name, oldTarget: Path, owner: Option<Name>)
    requires ValidPrefix(fs) && LinkPoint(fs, dst).Some?
    requires oldTarget == fs[dst[..LinkPoint(fs, dst).value]].target + dst[LinkPoint(fs, dst).value..]
    requires owner == if dst in fs && fs[dst].Link? && fs[dst].target in world && KegName(fs[dst].target).Some?
                      then KegName(fs[dst].target) else KegName(oldTarget)
    ensures owner == OwnerAt(world, fs, dst + [n])
  {
    var k := LinkPoint(fs, dst).value;
    LinkPointChild(fs, dst, n);
    assert (dst + [n])[..k] == dst[..k];
    assert (dst + [n])[k..|dst|] == dst[k..];
    assert dst[..|dst|] == dst;
    if k < |dst| {
      if dst in fs {
        AncestorsAreDirs(fs, dst, k);
      }
    } else {
      assert oldTarget == fs[dst].target;
    }
  }
}
