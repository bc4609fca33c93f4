/** Paths and the two trees the linker works on: the read-only world that links
    point into (kegs under the Cellar and everything else outside the linked
    directories) and the prefix, which the linker edits. */
module FileTree {
  import opened Options

  type Name = string
  type Path = seq<Name>

  datatype Kind = Folder | Regular

  /** What exists outside the linked directories. Paths are canonical there. */
  type World = map<Path, Kind>

  datatype Entry = Dir | File | Link(target: Path)

  /** The linked part of the prefix, keyed by the path below the prefix root. */
  type Prefix = map<Path, Entry>

  function Parent(p: Path): Path
    requires p != []
  {
    p[..|p| - 1]
  }

  ghost predicate ValidWorld(w: World) {
    forall p {:trigger Parent(p)} :: p in w && p != [] ==> Parent(p) in w && w[Parent(p)].Folder?
  }

  ghost predicate ValidPrefix(f: Prefix) {
    forall p {:trigger Parent(p)} :: p in f && p != [] ==> Parent(p) in f && f[Parent(p)].Dir?
  }

  function Get(f: Prefix, p: Path): Option<Entry> {
    if p in f then Some(f[p]) else None
  }

  /** Names of the entries directly below `dir`, as a directory listing returns them. */
  function NamesBelow(paths: set<Path>, dir: Path): (names: set<Name>)
    ensures forall n :: n in names <==> dir + [n] in paths
  {
    var names := set p | p in paths && |p| == |dir| + 1 && p[..|dir|] == dir :: p[|dir|];
    assert forall n :: dir + [n] in paths ==> (dir + [n])[..|dir|] == dir && (dir + [n])[|dir|] == n;
    assert forall p :: p in paths && |p| == |dir| + 1 && p[..|dir|] == dir ==> p == dir + [p[|dir|]];
    names
  }

  function Children(w: World, dir: Path): (names: set<Name>)
    ensures forall n :: n in names <==> dir + [n] in w
  {
    NamesBelow(w.Keys, dir)
  }

  function Listing(f: Prefix, dir: Path): (names: set<Name>)
    ensures forall n :: n in names <==> dir + [n] in f
  {
    NamesBelow(f.Keys, dir)
  }

  lemma {:induction false} LongestPath(paths: set<Path>) returns (bound: nat)
    ensures forall p :: p in paths ==> |p| <= bound
    decreases |paths|
  {
    if paths == {} {
      bound := 0;
    } else {
      var p :| p in paths;
      var rest := LongestPath(paths - {p});
      bound := if |p| > rest then |p| else rest;
      assert forall q :: q in paths ==> q == p || q in paths - {p};
    }
  }

  lemma {:induction false} AncestorsAreFolders(w: World, p: Path, k: nat)
    requires ValidWorld(w) && p in w && k < |p|
    ensures p[..k] in w && w[p[..k]].Folder?
    decreases |p|
  {
    if k < |p| - 1 {
      AncestorsAreFolders(w, Parent(p), k);
      assert Parent(p)[..k] == p[..k];
    } else {
      assert p[..k] == Parent(p);
    }
  }

  lemma {:induction false} AncestorsAreDirs(f: Prefix, p: Path, k: nat)
    requires ValidPrefix(f) && p in f && k < |p|
    ensures p[..k] in f && f[p[..k]].Dir?
    decreases |p|
  {
    if k < |p| - 1 {
      AncestorsAreDirs(f, Parent(p), k);
      assert Parent(p)[..k] == p[..k];
    } else {
      assert p[..k] == Parent(p);
    }
  }

  lemma NothingBelowRegular(w: World, x: Path, rest: Path)
    requires ValidWorld(w) && x in w && w[x].Regular? && rest != []
    ensures x + rest !in w
  {
    var p := x + rest;
    assert p[..|x|] == x;
    if p in w {
      AncestorsAreFolders(w, p, |x|);
    }
  }

  lemma Rejoin(t: Path, p: Path, k: nat, j: nat)
    requires k <= j <= |p|
    ensures t + p[k..j] + p[j..] == t + p[k..]
  {
  }

  predicate IsLink(f: Prefix, p: Path) {
    p in f && f[p].Link?
  }

  /** Length of the longest prefix of `p` that is a symlink. */
  function LinkPoint(f: Prefix, p: Path): (k: Option<nat>)
    ensures k.Some? ==> k.value <= |p| && IsLink(f, p[..k.value])
    ensures forall j :: (if k.Some? then k.value else -1) < j <= |p| ==> !IsLink(f, p[..j])
  {
    if IsLink(f, p) then
      assert p[..|p|] == p;
      Some(|p|)
    else if p == [] then None
    else
      var k := LinkPoint(f, Parent(p));
      assert forall j :: 0 <= j <= |Parent(p)| ==> Parent(p)[..j] == p[..j];
      assert p[..|p|] == p;
      k
  }

  lemma LinkPointUnique(f: Prefix, p: Path, k: nat)
    requires ValidPrefix(f) && k <= |p| && IsLink(f, p[..k])
    ensures LinkPoint(f, p) == Some(k)
  {
    hide LinkPoint;
    var j := LinkPoint(f, p).value;
    assert k <= j;
    if k < j {
      var q := p[..j];
      assert q[..k] == p[..k];
      AncestorsAreDirs(f, q, k);
    }
  }

  /** A file as the operating system finds it: one of the prefix's own, or one stored in the world. */
  datatype Found = Own(path: Path) | Stored(path: Path)

  function Stat(w: World, p: Path): Option<Found> {
    if p in w && w[p].Regular? then Some(Stored(p)) else None
  }

  /** What file `p` resolves to, following symlinks in its last component and in its ancestors. */
  function Resolve(w: World, f: Prefix, p: Path): Option<Found> {
    match LinkPoint(f, p)
    case Some(k) => Stat(w, f[p[..k]].target + p[k..])
    case None => if p in f && f[p].File? then Some(Own(p)) else None
  }

  // The formula a path belongs to: the component after the first one spelled
  // "cellar" in any letter case.

  function LowerAscii(c: char): char {
    if 'A' <= c <= 'Z' then (c as int + 32) as char else c
  }

  predicate IsCellar(n: Name) {
    |n| == 6 && forall i :: 0 <= i < 6 ==> LowerAscii(n[i]) == "cellar"[i]
  }

  function KegName(p: Path): Option<Name> {
    if |p| < 2 then None
    else if IsCellar(p[0]) then Some(p[1])
    else KegName(p[1..])
  }

  lemma {:induction false} KegNameExtends(p: Path, q: Path)
    requires p <= q && KegName(p).Some?
    ensures KegName(q) == KegName(p)
  {
    if !IsCellar(p[0]) {
      KegNameExtends(p[1..], q[1..]);
    }
  }

  /** Both paths exist and lie in kegs of one formula. */
  predicate SameFormula(w: World, left: Path, right: Path) {
    left in w && right in w && KegName(left).Some? && KegName(left) == KegName(right)
  }
}
