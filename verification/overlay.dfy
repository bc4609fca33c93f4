/** What laying one source tree over the prefix means, stated path by path. */
module Overlay {
  import opened Options
  import opened FileTree

  /** The tree below `src` seen through the prefix at `dst`; everything at or
      below `hidden` is left out. */
  datatype Mount = Mount(src: Path, dst: Path, hidden: Option<Path>)

  function Image(m: Mount, p: Path): Path
    requires m.dst <= p
  {
    m.src + p[|m.dst|..]
  }

  predicate Hides(m: Mount, p: Path) {
    m.hidden.Some? && m.hidden.value <= p
  }

  predicate Covers(w: World, m: Mount, p: Path) {
    m.dst <= p && !Hides(m, p) && Image(m, p) in w
  }

  predicate CoversFolder(w: World, m: Mount, p: Path) {
    Covers(w, m, p) && w[Image(m, p)].Folder?
  }

  predicate CoversFile(w: World, m: Mount, p: Path) {
    Covers(w, m, p) && w[Image(m, p)].Regular?
  }

  /** A directory symlink where the source has a directory: linking replaces it
      by a real directory holding links to the files behind it. */
  predicate Unfolds(w: World, f: Prefix, m: Mount, p: Path) {
    match LinkPoint(f, p)
    case Some(k) => |m.dst| < k && CoversFolder(w, m, p[..k])
    case None => false
  }

  /** The entry at `p` once the directory symlinks met on the way are unfolded. */
  function Base(w: World, f: Prefix, m: Mount, p: Path): Option<Entry> {
    if Unfolds(w, f, m, p) then
      var k := LinkPoint(f, p).value;
      var t := f[p[..k]].target + p[k..];
      if t in w then Some(if w[t].Folder? then Dir else Link(t))
      else if k == |p| then Some(f[p])
      else None
    else Get(f, p)
  }

  /** The entry at `p` after the source has been linked over the prefix. */
  function After(w: World, f: Prefix, m: Mount, p: Path): Option<Entry> {
    if CoversFile(w, m, p) then Some(Link(Image(m, p)))
    else if CoversFolder(w, m, p) && Base(w, f, m, p) != Some(File) then Some(Dir)
    else Base(w, f, m, p)
  }

  /** The source entry at `p` can be put in place. */
  predicate Fits(w: World, f: Prefix, m: Mount, p: Path) {
    Covers(w, m, p) ==>
      && (p != [] && m.dst <= Parent(p) ==> Base(w, f, m, Parent(p)) != Some(File))
      && match Base(w, f, m, p)
         case None => true
         case Some(Dir) => w[Image(m, p)].Folder?
         case Some(File) => w[Image(m, p)].Folder?
         case Some(Link(t)) => w[Image(m, p)].Regular? && (t == Image(m, p) || SameFormula(w, t, Image(m, p)))
  }

  /** Linking the subtree at `at` goes through. */
  ghost predicate Linkable(w: World, f: Prefix, m: Mount, at: Path) {
    && CoversFolder(w, m, at)
    && forall p :: at <= p && p != at ==> Fits(w, f, m, p)
  }

  lemma ImageChild(m: Mount, at: Path, n: Name)
    requires m.dst <= at
    ensures m.dst <= at + [n] && Image(m, at + [n]) == Image(m, at) + [n]
  {
  }

  lemma CoverIsClosed(w: World, m: Mount, p: Path, k: nat)
    requires ValidWorld(w) && Covers(w, m, p) && |m.dst| <= k < |p|
    ensures CoversFolder(w, m, p[..k])
  {
    var q := Image(m, p);
    var j := |m.src| + k - |m.dst|;
    AncestorsAreFolders(w, q, j);
    assert Image(m, p[..k]) == q[..j];
    assert Hides(m, p[..k]) ==> Hides(m, p);
  }

  /** Where the source has nothing, linking changes nothing. */
  lemma OutsideCover(w: World, f: Prefix, m: Mount, p: Path, k: nat)
    requires ValidWorld(w) && k <= |p| && |m.dst| <= k && !Covers(w, m, p[..k])
    requires LinkPoint(f, p) == None || LinkPoint(f, p).value >= k
    ensures !Covers(w, m, p)
    ensures After(w, f, m, p) == Base(w, f, m, p) == Get(f, p)
    ensures Fits(w, f, m, p)
  {
    hide *;
    NotCoveredBelow(w, m, p, k);
    match LinkPoint(f, p) {
      case None =>
      case Some(j) =>
        assert p[..j][..k] == p[..k];
        NotCoveredBelow(w, m, p[..j], k);
    }
    UncoveredAfter(w, f, m, p);
  }

  lemma NotCoveredBelow(w: World, m: Mount, p: Path, k: nat)
    requires ValidWorld(w) && |m.dst| <= k <= |p| && !Covers(w, m, p[..k])
    ensures !Covers(w, m, p)
  {
    hide Image, Hides, ValidWorld, Covers;
    assert p[..|p|] == p;
    if Covers(w, m, p) && k < |p| {
      CoverIsClosed(w, m, p, k);
    }
  }

  lemma UncoveredAfter(w: World, f: Prefix, m: Mount, p: Path)
    requires !Covers(w, m, p)
    requires LinkPoint(f, p).Some? ==> !Covers(w, m, p[..LinkPoint(f, p).value])
    ensures After(w, f, m, p) == Base(w, f, m, p) == Get(f, p)
    ensures Fits(w, f, m, p)
  {
  }

  /** Two prefixes with the same entries along `p` agree on everything said about it. */
  lemma {:induction false} LinkPointAgrees(f: Prefix, g: Prefix, p: Path)
    requires forall j :: 0 <= j <= |p| ==> IsLink(f, p[..j]) == IsLink(g, p[..j])
    ensures LinkPoint(f, p) == LinkPoint(g, p)
  {
  }

  ghost predicate SameWithin(f: Prefix, g: Prefix, d: Path) {
    forall p :: d <= p ==> Get(f, p) == Get(g, p)
  }

  ghost predicate SameOutside(f: Prefix, g: Prefix, d: Path) {
    forall p :: !(d <= p) ==> Get(f, p) == Get(g, p)
  }

  lemma Untouched(f: Prefix, d: Path)
    ensures SameOutside(f, f, d)
  {
  }

  ghost predicate NoLinkUpTo(f: Prefix, d: Path) {
    forall j :: 0 <= j <= |d| ==> !IsLink(f, d[..j])
  }

  /** Below a directory reached through no symlink only the entries below it matter. */
  lemma LocalBase(w: World, f: Prefix, g: Prefix, m: Mount, d: Path, p: Path)
    requires d != [] && d <= p && SameWithin(f, g, d)
    requires NoLinkUpTo(f, Parent(d)) && NoLinkUpTo(g, Parent(d))
    ensures LinkPoint(f, p) == LinkPoint(g, p)
    ensures Base(w, f, m, p) == Base(w, g, m, p)
    ensures After(w, f, m, p) == After(w, g, m, p)
  {
    forall j | 0 <= j <= |p|
      ensures IsLink(f, p[..j]) == IsLink(g, p[..j])
    {
      if j >= |d| {
        assert d <= p[..j];
        assert Get(f, p[..j]) == Get(g, p[..j]);
      } else {
        assert Parent(d)[..j] == p[..j];
      }
    }
    LinkPointAgrees(f, g, p);
    assert Get(f, p) == Get(g, p);
    match LinkPoint(f, p)
    case None =>
    case Some(k) =>
      assert forall j :: 0 <= j <= |Parent(d)| ==> Parent(d)[..j] == p[..j];
      assert d <= p[..k];
      assert Get(f, p[..k]) == Get(g, p[..k]);
  }

  lemma LocalFits(w: World, f: Prefix, g: Prefix, m: Mount, d: Path, p: Path)
    requires d != [] && d <= p && SameWithin(f, g, d)
    requires NoLinkUpTo(f, Parent(d)) && NoLinkUpTo(g, Parent(d))
    requires (Base(w, f, m, Parent(d)) == Some(File)) == (Base(w, g, m, Parent(d)) == Some(File))
    ensures Fits(w, f, m, p) == Fits(w, g, m, p)
  {
    LocalBase(w, f, g, m, d, p);
    if p == d {
    } else {
      assert d <= Parent(p);
      LocalBase(w, f, g, m, d, Parent(p));
    }
  }
}
