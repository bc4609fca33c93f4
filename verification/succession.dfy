/** Linking one source tree after another: what the first leaves for the second. */
module Succession {
  import opened Options
  import opened FileTree
  import opened Overlay

  predicate Below(m: Mount, q: Path) {
    m.dst <= q && q != m.dst
  }

  /** Where both trees have something it is a file in both or a directory in both. */
  predicate KindsAlike(w: World, first: Mount, second: Mount, q: Path) {
    Covers(w, first, q) && Covers(w, second, q) ==> w[Image(first, q)] == w[Image(second, q)]
  }

  /** Along `p`, `g` is `f` with the first tree linked over it. */
  ghost predicate Along(w: World, f: Prefix, first: Mount, g: Prefix, p: Path) {
    forall j :: 0 <= j <= |p| ==>
      if Below(first, p[..j]) then Get(g, p[..j]) == After(w, f, first, p[..j]) && Fits(w, f, first, p[..j])
      else Get(g, p[..j]) == Get(f, p[..j])
  }

  /** The first tree links no file at or above the second's destination, and the kinds agree below it. */
  ghost predicate Compatible(w: World, first: Mount, second: Mount, p: Path) {
    forall j :: 0 <= j <= |p| && Below(first, p[..j]) ==>
      if Below(second, p[..j]) then KindsAlike(w, first, second, p[..j]) else !CoversFile(w, first, p[..j])
  }

  /** The second tree would fit without the first. */
  ghost predicate FitsAlone(w: World, f: Prefix, second: Mount, p: Path) {
    forall j :: 0 <= j <= |p| && Below(second, p[..j]) ==> Fits(w, f, second, p[..j])
  }

  ghost predicate Ordinary(w: World, f: Prefix, first: Mount, g: Prefix, second: Mount) {
    && ValidWorld(w) && ValidPrefix(f) && ValidPrefix(g)
    && NoLinkUpTo(f, first.dst) && NoLinkUpTo(f, second.dst)
  }

  ghost predicate NoFileOn(w: World, m: Mount, p: Path) {
    forall j :: 0 <= j <= |p| && Below(m, p[..j]) ==> !CoversFile(w, m, p[..j])
  }

  /** What fits a prefix still fits it with the first tree linked, if the kinds
      agree and files of both trees belong to one formula. */
  lemma StillFits(w: World, f: Prefix, first: Mount, g: Prefix, second: Mount, p: Path)
    requires Ordinary(w, f, first, g, second) && Below(second, p)
    requires Along(w, f, first, g, p) && Compatible(w, first, second, p) && FitsAlone(w, f, second, p)
    requires CoversFile(w, first, p) && CoversFile(w, second, p) ==> SameFormula(w, Image(first, p), Image(second, p))
    ensures Fits(w, g, second, p)
  {
    assert p[..|p|] == p;
    if Covers(w, second, p) {
      if j :| 0 <= j < |p| && Below(first, p[..j]) && CoversFile(w, first, p[..j]) {
        FileAbove(w, first, second, p, j);
      } else if Below(first, p) && CoversFile(w, first, p) {
        FileThere(w, f, first, g, second, p);
      } else {
        assert NoFileOn(w, first, p);
        hide *;
        if Unfolds(w, f, first, p) {
          UnfoldedStillFits(w, f, first, g, second, p);
        } else {
          PlainStillFits(w, f, first, g, second, p);
        }
      }
    }
  }

  /** Below a file of the first tree the second has nothing. */
  lemma FileAbove(w: World, first: Mount, second: Mount, p: Path, j: nat)
    requires ValidWorld(w) && Below(second, p) && Compatible(w, first, second, p)
    requires j < |p| && Below(first, p[..j]) && CoversFile(w, first, p[..j])
    ensures !Covers(w, second, p)
  {
    assert Below(second, p[..j]) by {
      assert p[..j] <= p;
    }
    assert KindsAlike(w, first, second, p[..j]);
    hide Image, Hides, ValidWorld, Compatible;
    if Covers(w, second, p) {
      CoverIsClosed(w, second, p, j);
    }
  }

  /** A link of the first tree is replaced by the second's. */
  lemma FileThere(w: World, f: Prefix, first: Mount, g: Prefix, second: Mount, p: Path)
    requires Ordinary(w, f, first, g, second) && Below(second, p) && Covers(w, second, p)
    requires Along(w, f, first, g, p) && Compatible(w, first, second, p)
    requires Below(first, p) && CoversFile(w, first, p)
    requires CoversFile(w, second, p) ==> SameFormula(w, Image(first, p), Image(second, p))
    ensures Fits(w, g, second, p)
  {
    assert p[..|p|] == p;
    assert KindsAlike(w, first, second, p);
    assert CoversFile(w, second, p);
    assert Get(g, p) == Some(Link(Image(first, p)));
    hide Along, Compatible, Image, Hides, KindsAlike, SameFormula, After, Covers;
    LinkPointUnique(g, p, |p|);
    ParentIsDir(g, p);
  }

  lemma ParentIsDir(g: Prefix, p: Path)
    requires ValidPrefix(g) && p in g && p != []
    ensures Get(g, Parent(p)) == Some(Dir) && LinkPoint(g, Parent(p)) == None
  {
    var d := Parent(p);
    assert Get(g, d) == Some(Dir);
    if LinkPoint(g, d).Some? {
      var k := LinkPoint(g, d).value;
      assert d[..k] == p[..k];
      AncestorsAreDirs(g, p, k);
    }
  }

  // Nothing unfolded on the way.

  /** Missing entries may have become directories; nothing else has changed. */
  predicate Grown(f: Prefix, g: Prefix, q: Path) {
    Get(g, q) == Get(f, q) || (Get(f, q) == None && Get(g, q) == Some(Dir))
  }

  ghost predicate GrownAlong(f: Prefix, g: Prefix, p: Path) {
    forall j :: 0 <= j <= |p| ==> Grown(f, g, p[..j])
  }

  lemma GrownBase(w: World, f: Prefix, g: Prefix, m: Mount, p: Path)
    requires GrownAlong(f, g, p)
    ensures Base(w, g, m, p) == Base(w, f, m, p)
            || (Get(f, p) == None && Get(g, p) == Some(Dir) && Base(w, g, m, p) == Some(Dir))
  {
    assert p[..|p|] == p;
    forall j | 0 <= j <= |p|
      ensures IsLink(g, p[..j]) == IsLink(f, p[..j])
    {
      assert Grown(f, g, p[..j]);
    }
    LinkPointAgrees(g, f, p);
    if LinkPoint(f, p).Some? {
      assert Grown(f, g, p[..LinkPoint(f, p).value]);
    }
    assert Grown(f, g, p);
    hide Covers, GrownAlong, LinkPoint;
  }

  /** New directories do not matter where the tree has no file. */
  lemma GrownFits(w: World, f: Prefix, g: Prefix, m: Mount, p: Path)
    requires GrownAlong(f, g, p) && Fits(w, f, m, p)
    requires Get(g, p) != Get(f, p) ==> !CoversFile(w, m, p)
    ensures Fits(w, g, m, p)
  {
    GrownBase(w, f, g, m, p);
    if p != [] && m.dst <= Parent(p) {
      assert GrownAlong(f, g, Parent(p)) by {
        forall j | 0 <= j <= |Parent(p)|
          ensures Grown(f, g, Parent(p)[..j])
        {
          assert Parent(p)[..j] == p[..j];
        }
      }
      GrownBase(w, f, g, m, Parent(p));
    }
    hide Base, SameFormula, Image, GrownAlong, Hides;
  }

  lemma EntryGrows(w: World, f: Prefix, first: Mount, g: Prefix, p: Path, j: nat)
    requires ValidPrefix(f) && Along(w, f, first, g, p) && NoFileOn(w, first, p) && !Unfolds(w, f, first, p) && j <= |p|
    ensures Grown(f, g, p[..j])
    ensures Get(g, p[..j]) != Get(f, p[..j]) ==> CoversFolder(w, first, p[..j]) && Below(first, p[..j])
  {
    var q := p[..j];
    if Below(first, q) {
      assert !CoversFile(w, first, q) && Get(g, q) == After(w, f, first, q) && Fits(w, f, first, q);
      assert !Unfolds(w, f, first, q) by {
        if LinkPoint(f, q).Some? {
          var k := LinkPoint(f, q).value;
          assert q[..k] == p[..k];
          LinkPointUnique(f, p, k);
        }
      }
      hide Along, NoFileOn, Unfolds, Image, Hides, SameFormula, LinkPoint;
    }
  }

  lemma PlainStillFits(w: World, f: Prefix, first: Mount, g: Prefix, second: Mount, p: Path)
    requires Ordinary(w, f, first, g, second) && Below(second, p) && NoFileOn(w, first, p)
    requires Along(w, f, first, g, p) && Compatible(w, first, second, p) && FitsAlone(w, f, second, p)
    requires !Unfolds(w, f, first, p)
    ensures Fits(w, g, second, p)
  {
    assert p[..|p|] == p;
    forall j | 0 <= j <= |p|
      ensures Grown(f, g, p[..j])
    {
      EntryGrows(w, f, first, g, p, j);
    }
    EntryGrows(w, f, first, g, p, |p|);
    assert Fits(w, f, second, p);
    assert Get(g, p) != Get(f, p) ==> !CoversFile(w, second, p) by {
      assert Below(first, p) ==> KindsAlike(w, first, second, p);
    }
    hide *;
    assert GrownAlong(f, g, p) by { GrowsAlong(f, g, p); }
    GrownFits(w, f, g, second, p);
  }

  lemma GrowsAlong(f: Prefix, g: Prefix, p: Path)
    requires forall j :: 0 <= j <= |p| ==> Grown(f, g, p[..j])
    ensures GrownAlong(f, g, p)
  {
  }

  // A directory symlink unfolded on the way.

  /** What lies behind the symlink at `p[..k]`, for the part of `p` up to `j`. */
  function Behind(f: Prefix, p: Path, k: nat, j: nat): Path
    requires k <= j <= |p| && IsLink(f, p[..k])
  {
    f[p[..k]].target + p[k..j]
  }

  /** The first tree has a directory where `f` has the symlink `p[..k]`. */
  ghost predicate UnfoldsHere(w: World, f: Prefix, first: Mount, p: Path, k: nat) {
    && k <= |p| && IsLink(f, p[..k]) && LinkPoint(f, p) == Some(k)
    && Below(first, p[..k]) && CoversFolder(w, first, p[..k])
  }

  lemma WhereUnfolded(w: World, f: Prefix, first: Mount, p: Path) returns (k: nat)
    requires Unfolds(w, f, first, p)
    ensures UnfoldsHere(w, f, first, p, k)
  {
    k := LinkPoint(f, p).value;
    assert |first.dst| < k;
  }

  lemma BaseBehindLink(w: World, f: Prefix, m: Mount, p: Path, k: nat, j: nat)
    requires ValidPrefix(f) && k <= j <= |p| && IsLink(f, p[..k]) && Below(m, p[..k]) && CoversFolder(w, m, p[..k])
    ensures var x := Behind(f, p, k, j);
            Base(w, f, m, p[..j]) == if x in w then Some(if w[x].Folder? then Dir else Link(x))
                                     else if k == j then Some(f[p[..k]]) else None
  {
    var q := p[..j];
    assert q[..k] == p[..k] && q[k..] == p[k..j];
    LinkPointUnique(f, q, k);
    hide CoversFolder, LinkPoint;
    assert |m.dst| < k;
  }

  lemma UnfoldedTarget(w: World, f: Prefix, first: Mount, g: Prefix, p: Path, k: nat)
    requires ValidPrefix(f) && Along(w, f, first, g, p) && UnfoldsHere(w, f, first, p, k)
    ensures f[p[..k]].target in w && w[f[p[..k]].target].Folder?
  {
    BaseBehindLink(w, f, first, p, k, k);
    assert Fits(w, f, first, p[..k]);
    assert Behind(f, p, k, k) == f[p[..k]].target;
    hide Along, LinkPoint, Base, Image, Hides;
  }

  lemma AboveUnfolded(w: World, f: Prefix, first: Mount, g: Prefix, p: Path, k: nat, j: nat)
    requires ValidPrefix(f) && Along(w, f, first, g, p) && NoFileOn(w, first, p) && UnfoldsHere(w, f, first, p, k) && j < k
    ensures Get(g, p[..j]) == Some(Dir)
  {
    var d, q := p[..k], p[..j];
    assert d[..j] == q;
    AncestorsAreDirs(f, d, j);
    if Below(first, q) {
      assert !CoversFile(w, first, q) && Get(g, q) == After(w, f, first, q);
      ParentLinks(f, d, q);
      hide Along, NoFileOn, UnfoldsHere, LinkPoint, Image, Hides;
    }
  }

  lemma ParentLinks(f: Prefix, d: Path, q: Path)
    requires ValidPrefix(f) && d in f && q <= d && q != d
    ensures LinkPoint(f, q) == None && Get(f, q) == Some(Dir)
  {
    assert d[..|q|] == q;
    AncestorsAreDirs(f, d, |q|);
    if LinkPoint(f, q).Some? {
      var i := LinkPoint(f, q).value;
      assert q[..i] == d[..i];
      AncestorsAreDirs(f, d, i);
    }
  }

  lemma BehindUnfolded(w: World, f: Prefix, first: Mount, g: Prefix, p: Path, k: nat, j: nat)
    requires ValidPrefix(f) && Along(w, f, first, g, p) && NoFileOn(w, first, p) && UnfoldsHere(w, f, first, p, k)
    requires k <= j <= |p|
    ensures var x := Behind(f, p, k, j);
            if x in w && w[x].Regular? then Get(g, p[..j]) == Some(Link(x))
            else Get(g, p[..j]) == None || (Get(g, p[..j]) == Some(Dir) && (x in w || CoversFolder(w, first, p[..j])))
  {
    var q := p[..j];
    BaseBehindLink(w, f, first, p, k, j);
    UnfoldedTarget(w, f, first, g, p, k);
    assert Behind(f, p, k, k) == f[p[..k]].target;
    assert Below(first, q) by { assert p[..k] <= q; }
    assert !CoversFile(w, first, q) && Get(g, q) == After(w, f, first, q) && Fits(w, f, first, q);
    hide Along, NoFileOn, UnfoldsHere, LinkPoint, Base, Image, Hides, SameFormula;
  }

  /** The second tree has a directory there as well. */
  lemma SecondFolder(w: World, f: Prefix, first: Mount, g: Prefix, second: Mount, p: Path, k: nat)
    requires Ordinary(w, f, first, g, second) && Below(second, p) && Covers(w, second, p)
    requires Compatible(w, first, second, p) && UnfoldsHere(w, f, first, p, k)
    ensures Below(second, p[..k]) && CoversFolder(w, second, p[..k])
  {
    assert forall i :: 0 <= i <= |second.dst| ==> second.dst[..i] == p[..i];
    assert Below(second, p[..k]);
    hide NoLinkUpTo, ValidPrefix;
    if k < |p| {
      CoverIsClosed(w, second, p, k);
    } else {
      assert p[..k] == p;
      assert KindsAlike(w, first, second, p[..k]);
    }
  }

  /** Where the second tree has a directory nothing but directories lies behind the symlink. */
  lemma BehindIsFolder(w: World, f: Prefix, second: Mount, p: Path, k: nat, j: nat)
    requires ValidPrefix(f) && k <= j <= |p| && IsLink(f, p[..k]) && Below(second, p[..k]) && CoversFolder(w, second, p[..k])
    requires CoversFolder(w, second, p[..j]) && Fits(w, f, second, p[..j])
    ensures Behind(f, p, k, j) in w ==> w[Behind(f, p, k, j)].Folder?
  {
    BaseBehindLink(w, f, second, p, k, j);
    hide Base, LinkPoint, Image, Hides;
  }

  lemma NoLinkBefore(w: World, f: Prefix, first: Mount, g: Prefix, second: Mount, p: Path, k: nat, j: nat)
    requires Ordinary(w, f, first, g, second) && Below(second, p) && Covers(w, second, p) && NoFileOn(w, first, p)
    requires Along(w, f, first, g, p) && Compatible(w, first, second, p) && FitsAlone(w, f, second, p)
    requires UnfoldsHere(w, f, first, p, k) && j < |p|
    ensures !IsLink(g, p[..j]) && Get(g, p[..j]) != Some(File)
  {
    if j < k {
      AboveUnfolded(w, f, first, g, p, k, j);
    } else {
      SecondFolder(w, f, first, g, second, p, k);
      assert Below(second, p[..j]) by { assert p[..k] <= p[..j]; }
      CoverIsClosed(w, second, p, j);
      assert Fits(w, f, second, p[..j]);
      BehindIsFolder(w, f, second, p, k, j);
      BehindUnfolded(w, f, first, g, p, k, j);
      hide Along, NoFileOn, UnfoldsHere, Compatible, FitsAlone, ValidPrefix, ValidWorld, NoLinkUpTo, Covers, LinkPoint;
    }
  }

  lemma UnfoldedStillFits(w: World, f: Prefix, first: Mount, g: Prefix, second: Mount, p: Path)
    requires Ordinary(w, f, first, g, second) && Below(second, p) && Covers(w, second, p) && NoFileOn(w, first, p)
    requires Along(w, f, first, g, p) && Compatible(w, first, second, p) && FitsAlone(w, f, second, p)
    requires Unfolds(w, f, first, p)
    ensures Fits(w, g, second, p)
  {
    var k := WhereUnfolded(w, f, first, p);
    SecondFolder(w, f, first, g, second, p, k);
    forall j | 0 <= j < |p|
      ensures !IsLink(g, p[..j]) && Get(g, p[..j]) != Some(File)
    {
      NoLinkBefore(w, f, first, g, second, p, k, j);
    }
    assert p[..|p|] == p;
    BaseBehindLink(w, f, second, p, k, |p|);
    BehindUnfolded(w, f, first, g, p, k, |p|);
    UnfoldedTarget(w, f, first, g, p, k);
    assert Behind(f, p, k, k) == f[p[..k]].target;
    assert Fits(w, f, second, p);
    assert Below(first, p) by { assert p[..k] <= p; }
    assert KindsAlike(w, first, second, p);
    var x := Behind(f, p, k, |p|);
    assert k == |p| ==> x == f[p[..k]].target;
    FitsBehind(w, f, first, g, second, p, x);
  }

  /** The place as the second tree finds it once the symlink is unfolded. */
  lemma FitsBehind(w: World, f: Prefix, first: Mount, g: Prefix, second: Mount, p: Path, x: Path)
    requires p != [] && Covers(w, second, p) && KindsAlike(w, first, second, p) && Fits(w, f, second, p)
    requires forall j :: 0 <= j < |p| ==> !IsLink(g, p[..j]) && Get(g, p[..j]) != Some(File)
    requires x in w ==> Base(w, f, second, p) == Some(if w[x].Folder? then Dir else Link(x))
    requires if x in w && w[x].Regular? then Get(g, p) == Some(Link(x))
             else Get(g, p) == None || (Get(g, p) == Some(Dir) && (x in w || CoversFolder(w, first, p)))
    ensures Fits(w, g, second, p)
  {
    assert p[..|p|] == p && p[..|p| - 1] == Parent(p);
    assert forall j :: 0 <= j <= |Parent(p)| ==> Parent(p)[..j] == p[..j];
    assert LinkPoint(g, Parent(p)) == None;
    assert LinkPoint(g, p).Some? ==> LinkPoint(g, p).value == |p|;
    hide LinkPoint, Image, Hides, SameFormula;
  }
}
