/** Linking a keg into the prefix and taking it out again. */
module Linking {
  import opened Options
  import opened FileTree
  import opened Overlay
  import opened LinkSteps
  import opened DryRun
  import opened KegLinks

  class Linker {
    const world: World
    var fs: Prefix

    constructor (world: World, fs: Prefix)
      ensures this.world == world && this.fs == fs
    {
      this.world := world;
      this.fs := fs;
    }

    // The dry run.

    method CollectConflicts(src: Path, dst: Path, skipPostInstall: bool, ghost m: Mount, ghost bound: nat)
      returns (found: seq<ConflictedLink>)
      requires ValidWorld(world) && ValidPrefix(fs)
      requires forall p :: p in world ==> |p| <= bound
      requires m.dst <= dst && src == Image(m, dst) && !Hides(m, dst)
      requires Plain(world, fs, dst)
      requires if skipPostInstall then m.hidden == Some(dst + ["post-install"])
               else !(m.hidden.Some? && dst <= m.hidden.value)
      ensures Reports(world, fs, m, dst, found)
      decreases bound - |src|
    {
      hide Reports, ReportsExcept, ReportsAt, ConflictAt, SameFormula, OwnerAt, LinkPoint, ValidWorld, ValidPrefix, Image;
      found := [];
      StartReport(world, fs, m, dst);
      if !(src in world && world[src].Folder?) {
        NothingListed(world, src);
        AllReported(world, fs, m, dst, found);
        return;
      }
      var todo := Children(world, src);
      while todo != {}
        invariant todo <= Children(world, src)
        invariant ReportsExcept(world, fs, m, dst, todo, found)
        decreases |todo|
      {
        var n :| n in todo;
        assert todo == todo - {n} + {n};
        todo := todo - {n};
        var srcPath, dstPath := src + [n], dst + [n];
        ImageChild(m, dst, n);
        LinkPointChild(fs, dst, n);
        var more := [];
        if skipPostInstall && n == "post-install" {
          HiddenConflict(world, fs, m, dst, n, more);
        } else {
          ChildCovered(world, m, dst, n);
          if world[srcPath].Folder? {
            if dstPath in fs && fs[dstPath].Link? {
              assert dstPath[..|dstPath|] == dstPath;
              assert fs[dstPath].target + dstPath[|dstPath|..] == fs[dstPath].target;
              more := CollectMerged(srcPath, fs[dstPath].target, dstPath, m, bound);
            } else {
              StillPlain(world, fs, dst, n);
              more := CollectConflicts(srcPath, dstPath, false, m, bound);
            }
            FolderConflict(world, fs, m, dstPath, more);
          } else {
            if !IsLink(fs, dstPath) {
              StillPlain(world, fs, dst, n);
            }
            more := FileEntry(srcPath, dstPath, m);
            FileConflict(world, fs, m, dstPath, more);
          }
        }
        AddEntry(world, fs, m, dst, n, todo, found, more);
        found := found + more;
      }
      AllReported(world, fs, m, dst, found);
    }

    /** One source file met outside any directory symlink. */
    method FileEntry(srcPath: Path, dstPath: Path, ghost m: Mount) returns (found: seq<ConflictedLink>)
      requires ValidWorld(world) && ValidPrefix(fs)
      requires CoversFile(world, m, dstPath) && srcPath == Image(m, dstPath)
      requires IsLink(fs, dstPath) || Plain(world, fs, dstPath)
      ensures found == if ConflictAt(world, fs, m, dstPath) then [ConflictedLink(dstPath, OwnerAt(world, fs, dstPath))] else []
    {
      assert dstPath[..|dstPath|] == dstPath;
      if dstPath !in fs {
        return [];
      }
      if fs[dstPath].Link? {
        var resolved := fs[dstPath].target;
        LinkPointUnique(fs, dstPath, |dstPath|);
        assert resolved + dstPath[|dstPath|..] == resolved;
        if resolved == srcPath || SameFormula(world, resolved, srcPath) {
          return [];
        }
        return [ConflictedLink(dstPath, if resolved in world then KegName(resolved) else None)];
      }
      if LinkPoint(fs, dstPath).Some? {
        AncestorsAreDirs(fs, dstPath, LinkPoint(fs, dstPath).value);
      }
      return [ConflictedLink(dstPath, None)];
    }

    /** One source file met behind a directory symlink. */
    method MergedEntry(srcPath: Path, oldTarget: Path, dst: Path, n: Name, ghost m: Mount) returns (found: seq<ConflictedLink>)
      requires ValidPrefix(fs) && LinkPoint(fs, dst).Some?
      requires oldTarget == fs[dst[..LinkPoint(fs, dst).value]].target + dst[LinkPoint(fs, dst).value..]
      requires CoversFile(world, m, dst + [n]) && srcPath == Image(m, dst + [n])
      ensures found == if ConflictAt(world, fs, m, dst + [n]) then [ConflictedLink(dst + [n], OwnerAt(world, fs, dst + [n]))] else []
    {
      var matchingOld := oldTarget + [n];
      LinkPointChild(fs, dst, n);
      ghost var k := LinkPoint(fs, dst).value;
      BehindChild(fs[dst[..k]].target, dst, k, n);
      if matchingOld in world && matchingOld != srcPath && !SameFormula(world, matchingOld, srcPath) {
        var owner := if dst in fs && fs[dst].Link? && fs[dst].target in world then KegName(fs[dst].target) else None;
        owner := if owner.Some? then owner else KegName(oldTarget);
        BlamedBehindLink(world, fs, dst, n, oldTarget, owner);
        return [ConflictedLink(dst + [n], owner)];
      }
      return [];
    }

    /** Source entries compared with what lies behind a directory symlink. */
    method CollectMerged(src: Path, oldTarget: Path, dst: Path, ghost m: Mount, ghost bound: nat)
      returns (found: seq<ConflictedLink>)
      requires ValidWorld(world) && ValidPrefix(fs)
      requires forall p :: p in world ==> |p| <= bound
      requires m.dst <= dst && src == Image(m, dst) && !Hides(m, dst)
      requires !(m.hidden.Some? && dst <= m.hidden.value)
      requires LinkPoint(fs, dst).Some?
      requires oldTarget == fs[dst[..LinkPoint(fs, dst).value]].target + dst[LinkPoint(fs, dst).value..]
      ensures Reports(world, fs, m, dst, found)
      decreases bound - |src|
    {
      hide Reports, ReportsExcept, ReportsAt, ConflictAt, SameFormula, OwnerAt, LinkPoint, ValidWorld, ValidPrefix, Image;
      found := [];
      StartReport(world, fs, m, dst);
      if !(src in world && world[src].Folder?) {
        NothingListed(world, src);
        AllReported(world, fs, m, dst, found);
        return;
      }
      ghost var k := LinkPoint(fs, dst).value;
      var todo := Children(world, src);
      while todo != {}
        invariant todo <= Children(world, src)
        invariant ReportsExcept(world, fs, m, dst, todo, found)
        decreases |todo|
      {
        var n :| n in todo;
        assert todo == todo - {n} + {n};
        todo := todo - {n};
        var srcPath, dstPath, matchingOld := src + [n], dst + [n], oldTarget + [n];
        ImageChild(m, dst, n);
        LinkPointChild(fs, dst, n);
        ChildCovered(world, m, dst, n);
        BehindChild(fs[dst[..k]].target, dst, k, n);
        var more := [];
        if world[srcPath].Folder? {
          if matchingOld in world {
            more := CollectMerged(srcPath, matchingOld, dstPath, m, bound);
          } else {
            more := CollectConflicts(srcPath, dstPath, false, m, bound);
          }
          FolderConflict(world, fs, m, dstPath, more);
        } else {
          more := MergedEntry(srcPath, oldTarget, dst, n, m);
          FileConflict(world, fs, m, dstPath, more);
        }
        AddEntry(world, fs, m, dst, n, todo, found, more);
        found := found + more;
      }
      AllReported(world, fs, m, dst, found);
    }

    /** Every conflict the keg would meet, or none. */
    method CheckConflicts(keg: Path) returns (r: Result<()>)
      requires ValidWorld(world) && Ready(fs)
      ensures r.Ok? <==> ConflictFree(world, fs, keg)
      ensures r.Err? ==> r.error.LinkConflict? && KegReports(world, fs, keg, |LinkDirs()|, r.error.conflicts)
    {
      hide LinkDirs, KegReports, ConflictFree, Reports, Plain, NoLinkUpTo;
      KegReportsStart(world, fs, keg);
      ghost var bound := LongestPath(world.Keys);
      var conflicts := [];
      var i := 0;
      while i < |LinkDirs()|
        invariant i <= |LinkDirs()|
        invariant KegReports(world, fs, keg, i, conflicts)
      {
        var dir := LinkDirs()[i];
        var found := [];
        NoConflictsHere(world, fs, keg, i);
        if keg + [dir] in world {
          found := CollectConflicts(keg + [dir], [dir], dir == "libexec", KegMount(keg), bound);
        } else {
          NoConflictsListed(world, fs, keg, i);
        }
        KegReportsNext(world, fs, keg, i, conflicts, found);
        conflicts := conflicts + found;
        i := i + 1;
      }
      AllKegReported(world, fs, keg, conflicts);
      if conflicts == [] {
        return Ok(());
      }
      return Err(LinkConflict(conflicts));
    }

    // The link pass.

    /** Creates `dst` with its missing ancestors; fails below a regular file. */
    method CreateDirAll(dst: Path) returns (ok: bool)
      requires ValidPrefix(fs) && NoLinkUpTo(fs, dst)
      modifies this`fs
      ensures ok <==> Rooted(old(fs), dst) && !(dst in old(fs) && old(fs)[dst].File?)
      ensures fs == if ok then MakeDirs(old(fs), dst) else old(fs)
    {
      assert dst[..|dst|] == dst;
      if dst in fs {
        if fs[dst].Dir? {
          forall j | 0 <= j < |dst|
            ensures dst[..j] in fs && fs[dst[..j]].Dir?
          {
            AncestorsAreDirs(fs, dst, j);
          }
          return true;
        }
        return false;
      }
      if dst == [] {
        fs := fs[dst := Dir];
        return true;
      }
      assert forall j :: 0 <= j <= |Parent(dst)| ==> Parent(dst)[..j] == dst[..j];
      assert Parent(dst) == dst[..|dst| - 1];
      ok := CreateDirAll(Parent(dst));
      if ok {
        fs := fs[dst := Dir];
      }
    }

    /** A symlink can be made where nothing exists yet, inside a real directory. */
    method Symlink(target: Path, at: Path) returns (ok: bool)
      requires at != []
      modifies this`fs
      ensures ok <==> at !in old(fs) && Parent(at) in old(fs) && old(fs)[Parent(at)].Dir?
      ensures fs == if ok then old(fs)[at := Link(target)] else old(fs)
    {
      ok := at !in fs && Parent(at) in fs && fs[Parent(at)].Dir?;
      if ok {
        fs := fs[at := Link(target)];
      }
    }

    /** Entries of `src` other than directories: link, replace or refuse. */
    method LinkFile(srcPath: Path, dstPath: Path, ghost m: Mount) returns (r: Result<()>)
      requires ValidWorld(world) && ValidPrefix(fs)
      requires dstPath != [] && m.dst <= Parent(dstPath) && Parent(dstPath) in fs
      requires NoLinkUpTo(fs, Parent(dstPath))
      requires CoversFile(world, m, dstPath) && srcPath == Image(m, dstPath)
      modifies this`fs
      ensures ValidPrefix(fs)
      ensures r.Ok? <==> SubFits(world, old(fs), m, dstPath)
      ensures r.Ok? ==> IsAfter(world, old(fs), m, dstPath, fs)
      ensures SameOutside(fs, old(fs), dstPath)
      ensures r.Err? && r.error.LinkConflict? ==>
                exists c :: r.error.conflicts == [c] && c.path == dstPath
    {
      ghost var f0 := fs;
      FileCase(world, f0, m, dstPath);
      if dstPath in fs {
        match fs[dstPath]
        case Link(resolved) =>
          if resolved == srcPath {
            // The source exists, so the existing link is good.
            return Ok(());
          } else if SameFormula(world, resolved, srcPath) {
            fs := fs - {dstPath};
          } else {
            var owner := if resolved in world then KegName(resolved) else None;
            return Err(LinkConflict([ConflictedLink(dstPath, owner)]));
          }
        case _ =>
          return Err(LinkConflict([ConflictedLink(dstPath, None)]));
      }
      LeafRemoval(f0, dstPath);
      var ok := Symlink(srcPath, dstPath);
      if !ok {
        return Err(StoreCorruption);
      }
      return Ok(());
    }

    /** Directories of the source: unfold a directory symlink in the way, then descend. */
    method LinkFolder(srcPath: Path, dstPath: Path, ghost m: Mount, ghost vacant: bool, ghost bound: nat)
      returns (r: Result<()>)
      requires ValidWorld(world) && ValidPrefix(fs)
      requires forall p :: p in world ==> |p| <= bound
      requires dstPath != [] && m.dst <= Parent(dstPath) && Parent(dstPath) in fs
      requires NoLinkUpTo(fs, Parent(dstPath))
      requires CoversFolder(world, m, dstPath) && srcPath == Image(m, dstPath)
      requires !(m.hidden.Some? && dstPath <= m.hidden.value)
      requires vacant ==> Vacant(fs, dstPath)
      modifies this`fs
      decreases if vacant then 0 else 1, bound - |srcPath|, 1
      ensures ValidPrefix(fs)
      ensures r.Ok? <==> SubFits(world, old(fs), m, dstPath)
      ensures r.Ok? ==> IsAfter(world, old(fs), m, dstPath, fs)
      ensures SameOutside(fs, old(fs), dstPath)
      ensures r.Err? && r.error.LinkConflict? ==> Refused(world, m, dstPath, r.error.conflicts)
    {
      hide Fits, Base, After, SubFits, IsAfter, Linkable, SameOutside, Entered, Vacant, Rooted, MakeDirs, NoLinkUpTo, Refused;
      ghost var f0 := fs;
      if dstPath in fs && fs[dstPath].Link? {
        var resolved := fs[dstPath].target;
        UnfoldBegin(world, f0, m, dstPath);
        fs := fs - {dstPath};
        r := LinkRecursive(resolved, dstPath, false, Mount(resolved, dstPath, None), true, bound);
        if r.Err? {
          UnfoldFails(world, f0, m, dstPath, fs);
          return Err(StoreCorruption);
        }
        UnfoldDone(world, f0, m, dstPath, fs);
      } else {
        EnterPlain(world, f0, m, dstPath);
      }
      ghost var f2 := fs;
      EnteredMeans(world, f0, m, dstPath, f2);
      r := LinkRecursive(srcPath, dstPath, false, m, vacant, bound);
      EnteredDone(world, f0, m, dstPath, f2, fs, r.Ok?);
    }

    /** Links everything below `src` at `dst`; `skipPostInstall` leaves out the entry of that name. */
    method LinkRecursive(src: Path, dst: Path, skipPostInstall: bool, ghost m: Mount, ghost vacant: bool, ghost bound: nat)
      returns (r: Result<()>)
      requires ValidWorld(world) && ValidPrefix(fs)
      requires forall p :: p in world ==> |p| <= bound
      requires dst != [] && m.dst <= dst && src == Image(m, dst) && !Hides(m, dst)
      requires NoLinkUpTo(fs, dst)
      requires if skipPostInstall then m.hidden == Some(dst + ["post-install"])
               else !(m.hidden.Some? && dst <= m.hidden.value)
      requires vacant ==> Vacant(fs, dst)
      modifies this`fs
      decreases if vacant then 0 else 1, bound - |src|, 0
      ensures ValidPrefix(fs)
      ensures r.Ok? <==> Rooted(old(fs), dst) && Linkable(world, old(fs), m, dst)
      ensures r.Ok? ==> IsAfter(world, old(fs), m, dst, fs)
      ensures SameOutside(fs, if Rooted(old(fs), dst) then MakeDirs(old(fs), dst) else old(fs), dst)
      ensures r.Err? && r.error.LinkConflict? ==> Refused(world, m, dst, r.error.conflicts)
    {
      hide After, Fits, Base, Linkable, SubFits, IsAfter, SameOutside, LinkProgress, Hides, Covers, ValidWorld, Vacant;
      ghost var f0 := fs;
      var ok := dst in fs;
      if !ok {
        ok := CreateDirAll(dst);
      }
      if !ok {
        assert SameOutside(fs, f0, dst) by { Untouched(f0, dst); }
        return Err(StoreCorruption);
      }
      ghost var f1 := fs;
      CreatedDirs(f0, dst, f1);
      LinkStart(world, f0, m, dst, f1);
      if !(src in world && world[src].Folder?) {
        return Err(StoreCorruption);
      }
      var todo := Children(world, src);
      while todo != {}
        invariant todo <= Children(world, src)
        invariant LinkProgress(world, f0, m, dst, f1, todo, fs)
        decreases |todo|
      {
        var n :| n in todo;
        ghost var before, all := fs, todo;
        todo := todo - {n};
        assert all == todo + {n};
        var srcPath := src + [n];
        var dstPath := dst + [n];
        if skipPostInstall && n == "post-install" {
          LinkHidden(world, f0, m, dst, f1, todo, n, fs);
          continue;
        }
        LinkChild(world, f0, m, dst, f1, todo, n, before);
        if world[srcPath].Folder? {
          r := LinkFolder(srcPath, dstPath, m, vacant, bound);
        } else {
          r := LinkFile(srcPath, dstPath, m);
        }
        LinkChildDone(world, f0, m, dst, f1, todo, n, before, fs, r.Ok?);
        if r.Err? {
          return;
        }
      }
      LinkFinished(world, f0, m, dst, f1, fs);
      return Ok(());
    }

    /** Points `opt/<formula>` at the keg. */
    method LinkOpt(keg: Path) returns (r: Result<()>)
      requires Ready(fs)
      modifies this`fs
      ensures r.Ok? <==> OptLinkable(old(fs), keg)
      ensures fs == if r.Ok? then old(fs)[OptPath(keg) := Link(keg)] else old(fs)
      ensures r.Err? ==> r.error.StoreCorruption?
    {
      if |keg| < 2 {
        return Err(StoreCorruption);
      }
      var optLink := OptPath(keg);
      assert Parent(optLink) == ["opt"];
      if optLink in fs {
        if fs[optLink] == Link(keg) {
          assert fs == fs[optLink := Link(keg)];
          return Ok(());
        }
        // Removing a file cannot remove a directory, and is not checked.
        if !fs[optLink].Dir? {
          fs := fs - {optLink};
        }
      }
      var ok := Symlink(keg, optLink);
      if !ok {
        return Err(StoreCorruption);
      }
      assert fs == old(fs)[optLink := Link(keg)];
      return Ok(());
    }

    /** Checks, then links the keg. */
    method LinkKeg(keg: Path) returns (r: Result<()>)
      requires ValidWorld(world) && Ready(fs)
      modifies this`fs
      ensures r.Ok? <==> OptLinkable(old(fs), keg) && ConflictFree(world, old(fs), keg) && KindsAgree(world, old(fs), keg)
      ensures r.Ok? ==> Ready(fs) && IsLinked(world, old(fs), keg, fs)
      ensures !ConflictFree(world, old(fs), keg) ==>
                && fs == old(fs) && r.Err? && r.error.LinkConflict?
                && KegReports(world, old(fs), keg, |LinkDirs()|, r.error.conflicts)
    {
      hide LinkDirs, Ready, LinkedUpTo, IsLinked, DirLinkable, KegLinkable, ConflictFree, KindsAgree, KegReports, IsAfter, Linkable;
      ghost var f0 := fs;
      LinkableMeans(world, f0, keg);
      r := CheckConflicts(keg);
      if r.Err? {
        return;
      }
      r := LinkOpt(keg);
      if r.Err? {
        return;
      }
      ghost var f1 := fs;
      OptApart(world, f0, keg, f1);
      ghost var bound := LongestPath(world.Keys);
      LinkedStart(world, f1, keg);
      var i := 0;
      while i < |LinkDirs()|
        invariant i <= |LinkDirs()|
        invariant LinkedUpTo(world, f1, keg, i, fs)
      {
        var dir := LinkDirs()[i];
        ghost var before := fs;
        DirPrepare(world, f1, keg, i, before);
        if keg + [dir] in world {
          r := LinkRecursive(keg + [dir], [dir], dir == "libexec", KegMount(keg), false, bound);
          if r.Err? {
            DirFails(world, f1, keg, i);
            return Err(r.error);
          }
        }
        DirDone(world, f1, keg, i, before, fs);
        i := i + 1;
      }
      KegDone(world, f0, keg, f1, fs);
      return Ok(());
    }

    // Unlinking.

    /** Removing a directory succeeds only when nothing is left in it. */
    method RemoveIfEmpty(dir: Path)
      modifies this`fs
      ensures fs == if Listing(old(fs), dir) == {} then old(fs) - {dir} else old(fs)
    {
      if Listing(fs, dir) == {} {
        fs := fs - {dir};
      }
    }

    /** Directories on both sides are descended into; any other entry goes if it links to the source's. */
    method UnlinkEntry(srcPath: Path, dstPath: Path, ghost m: Mount, ghost bound: nat) returns (gone: seq<Path>)
      requires ValidWorld(world) && ValidPrefix(fs)
      requires forall p :: p in world ==> |p| <= bound
      requires dstPath != [] && m.hidden == None && Covers(world, m, dstPath) && srcPath == Image(m, dstPath)
      modifies this`fs
      decreases bound - |srcPath|, 1
      ensures ClearedAt(world, old(fs), m, dstPath, fs)
      ensures ListsAt(world, old(fs), m, dstPath, gone)
    {
      ghost var f1 := fs;
      if world[srcPath].Folder? && dstPath in fs && fs[dstPath].Dir? {
        var r := UnlinkRecursive(srcPath, dstPath, m, bound);
        ghost var f2 := fs;
        RemoveIfEmpty(dstPath);
        ClearFolder(world, f1, m, dstPath, f2, fs);
        ListFolder(world, f1, m, dstPath, r.value);
        return r.value;
      }
      gone := [];
      if dstPath in fs && fs[dstPath] == Link(srcPath) {
        fs := fs - {dstPath};
        gone := [dstPath];
      }
      ClearEntry(world, f1, m, dstPath, fs);
    }

    /** Takes the links into `src` out of `dst`, and the directories this empties. */
    method UnlinkRecursive(src: Path, dst: Path, ghost m: Mount, ghost bound: nat) returns (r: Result<seq<Path>>)
      requires ValidWorld(world) && ValidPrefix(fs)
      requires forall p :: p in world ==> |p| <= bound
      requires m.dst <= dst && src == Image(m, dst) && m.hidden == None
      requires !IsLink(fs, dst)
      modifies this`fs
      decreases bound - |src|, 0
      ensures r.Ok? <==> (dst in old(fs) && src in world ==> world[src].Folder?)
      ensures r.Ok? ==> ClearedExcept(world, old(fs), m, dst, {}, fs) && Lists(world, old(fs), m, dst, {}, r.value)
      ensures r.Err? ==> fs == old(fs)
    {
      ghost var f0 := fs;
      ClearStart(world, f0, m, dst);
      if dst !in fs {
        NothingToClear(world, f0, m, dst);
        return Ok([]);
      }
      if src !in world {
        assert forall n :: src + [n] in world ==> Parent(src + [n]) == src;
        assert Children(world, src) == {};
        return Ok([]);
      }
      if !world[src].Folder? {
        return Err(StoreCorruption);
      }
      var unlinked := [];
      var todo := Children(world, src);
      while todo != {}
        invariant todo <= Children(world, src)
        invariant ClearedExcept(world, f0, m, dst, todo, fs)
        invariant Lists(world, f0, m, dst, todo, unlinked)
        decreases |todo|
      {
        var n :| n in todo;
        ghost var before := todo;
        todo := todo - {n};
        assert before == todo + {n};
        var srcPath, dstPath := src + [n], dst + [n];
        ImageChild(m, dst, n);
        ghost var f1 := fs;
        var more := UnlinkEntry(srcPath, dstPath, m, bound);
        ListNext(world, f0, m, dst, n, todo, f1, unlinked, more);
        ClearNext(world, f0, m, dst, n, todo, f1, fs);
        unlinked := unlinked + more;
      }
      return Ok(unlinked);
    }

    /** Drops `opt/<formula>` if it points at this keg. */
    method UnlinkOpt(keg: Path)
      modifies this`fs
      ensures fs == if |keg| >= 2 && Get(old(fs), OptPath(keg)) == Some(Link(keg)) then old(fs) - {OptPath(keg)} else old(fs)
    {
      if |keg| >= 2 && OptPath(keg) in fs && fs[OptPath(keg)] == Link(keg) {
        fs := fs - {OptPath(keg)};
      }
    }

    /** Takes the keg out of the prefix and lists the links removed. */
    method UnlinkKeg(keg: Path) returns (r: Result<seq<Path>>)
      requires ValidWorld(world) && Ready(fs)
      modifies this`fs
      ensures r.Ok? <==> KegClearable(world, keg)
      ensures r.Ok? ==> Ready(fs) && IsUnlinked(world, old(fs), keg, fs)
      ensures r.Ok? ==> KegLists(world, old(fs), keg, |LinkDirs()|, r.value)
    {
      hide LinkDirs, Ready, UnlinkedUpTo, KegClearable, KegLists, ClearedExcept, Lists, IsUnlinked, ValidWorld;
      ghost var f0 := fs;
      UnlinkOpt(keg);
      ghost var f1 := fs;
      OptRemoved(f0, keg, f1);
      ghost var bound := LongestPath(world.Keys);
      UnlinkedStart(world, f1, keg);
      var unlinked := [];
      var i := 0;
      while i < |LinkDirs()|
        invariant i <= |LinkDirs()|
        invariant UnlinkedUpTo(world, f1, keg, i, fs)
        invariant KegLists(world, f1, keg, i, unlinked)
      {
        var dir := LinkDirs()[i];
        ghost var before := fs;
        ClearPrepare(world, f1, keg, i, before);
        var more := [];
        if keg + [dir] in world {
          r := UnlinkRecursive(keg + [dir], [dir], KegOut(keg), bound);
          if r.Err? {
            return;
          }
          more := r.value;
        }
        UnlinkNext(world, f1, keg, i, before, fs, more);
        UnlinkNextLists(world, f1, keg, i, before, fs, unlinked, more);
        unlinked := unlinked + more;
        i := i + 1;
      }
      UnlinkedAll(world, f0, keg, f1, fs, unlinked);
      return Ok(unlinked);
    }
  }
}
