/** Replacing installed kegs: the old one is set aside, and only goes once its
    replacement has a receipt. Every step may fail. */
module Transactions {
  import opened Options
  import opened Names
  import opened Text
  import opened Cellars

  /** What goes wrong where. A remainder is what a failed removal leaves behind. */
  datatype Faults = Faults(
    unlink: bool,
    debris: bool,
    stale: Option<Keg>,
    aside: bool,
    clear: Option<Keg>,
    back: bool,
    discard: Option<Keg>)

  /** How far the files of a new keg get. */
  datatype Copy = NoCopy | Partial(files: set<string>) | Full(files: set<string>)

  /** How far finalization gets: links and receipt, then the state database. */
  datatype Finish = NoReceipt | Unrecorded | Recorded

  datatype Backup = Nothing | Moved(backup: KegId) | Stuck

  function Empty(): Keg { Keg({}, None) }

  /** The old keg, if there was one worth keeping, is still somewhere. */
  predicate Held(s: Kegs, id: KegId, backup: KegId, was: Option<Keg>) {
    was.None? || was == Some(Empty()) || Get(s, id) == was || Get(s, backup) == was
  }

  ghost predicate HeldSince(history: seq<Kegs>, start: nat, id: KegId, backup: KegId, was: Option<Keg>) {
    forall i :: start <= i < |history| ==> Held(history[i], id, backup, was)
  }

  /** It is, or its replacement has a receipt. */
  predicate Safe(s: Kegs, id: KegId, backup: KegId, was: Option<Keg>) {
    Held(s, id, backup, was) || (id in s && s[id].receipt.Some?)
  }

  ghost predicate SafeSince(history: seq<Kegs>, start: nat, id: KegId, backup: KegId, was: Option<Keg>) {
    forall i :: start <= i < |history| ==> Safe(history[i], id, backup, was)
  }

  lemma BackupDiffers(id: KegId, stamp: string)
    ensures BackupOf(id, stamp) != id
  {
    assert |BackupOf(id, stamp).version| == |id.version| + |BackupMark()| + |stamp| > |id.version|;
  }

  /** A keg can be set aside: nothing on the way fails. */
  predicate CanSetAside(kegs: Kegs, id: KegId, stamp: string, f: Faults) {
    match Get(kegs, id)
    case None => true
    case Some(keg) =>
      if keg == Empty() then !f.debris
      else !f.aside && (BackupOf(id, stamp) in kegs ==> f.stale.None?)
  }

  /** Renames an existing keg out of the way. */
  method BackupExistingKeg(cellar: Cellar, id: KegId, stamp: string, f: Faults) returns (r: Backup)
    modifies cellar
    ensures r.Stuck? <==> !CanSetAside(old(cellar.kegs), id, stamp, f)
    ensures r.Nothing? ==> id !in cellar.kegs && cellar.kegs == old(cellar.kegs) - {id}
    ensures r.Nothing? ==> Get(old(cellar.kegs), id) == None || Get(old(cellar.kegs), id) == Some(Empty())
    ensures r.Moved? ==> r.backup == BackupOf(id, stamp) && id in old(cellar.kegs) && old(cellar.kegs)[id] != Empty()
    ensures r.Moved? ==> cellar.kegs == (old(cellar.kegs) - {id, r.backup})[r.backup := old(cellar.kegs)[id]]
    ensures r.Stuck? ==> Get(cellar.kegs, id) == Get(old(cellar.kegs), id)
    ensures SameBut(cellar.kegs, old(cellar.kegs), {id, BackupOf(id, stamp)})
    ensures old(cellar.history) <= cellar.history
    ensures HeldSince(cellar.history, |old(cellar.history)|, id, BackupOf(id, stamp), Get(old(cellar.kegs), id))
    ensures forall i :: |old(cellar.history)| <= i < |cellar.history| ==>
              SameBut(cellar.history[i], old(cellar.kegs), {id, BackupOf(id, stamp)})
  {
    BackupDiffers(id, stamp);
    if id !in cellar.kegs {
      return Nothing;
    }
    if cellar.kegs[id] == Empty() {
      var removed := cellar.RemoveDirAll(id, if f.debris then Some(Empty()) else None);
      return if removed then Nothing else Stuck;
    }
    var backup := BackupOf(id, stamp);
    if backup in cellar.kegs {
      var removed := cellar.RemoveDirAll(backup, f.stale);
      if !removed {
        return Stuck;
      }
    }
    var moved := cellar.Rename(id, backup, f.aside);
    return if moved then Moved(backup) else Stuck;
  }

  method RestoreFromBackup(cellar: Cellar, id: KegId, backup: KegId, f: Faults) returns (ok: bool)
    requires id != backup
    modifies cellar
    ensures backup in old(cellar.kegs) && f.clear.None? && !f.back ==> ok
    ensures ok ==> backup in old(cellar.kegs) && cellar.kegs == (old(cellar.kegs) - {backup})[id := old(cellar.kegs)[backup]]
    ensures !ok ==> SameBut(cellar.kegs, old(cellar.kegs), {id})
    ensures old(cellar.history) <= cellar.history
    ensures backup in old(cellar.kegs) ==> HeldSince(cellar.history, |old(cellar.history)|, id, backup, Some(old(cellar.kegs)[backup]))
    ensures forall i :: |old(cellar.history)| <= i < |cellar.history| ==> SameBut(cellar.history[i], old(cellar.kegs), {id, backup})
  {
    if id in cellar.kegs {
      var removed := cellar.RemoveDirAll(id, f.clear);
      if !removed {
        return false;
      }
    }
    ok := cellar.Rename(backup, id, f.back);
  }

  /** Copies a bottle's files into place; a directory already there is taken as it is. */
  method Materialize(cellar: Cellar, id: KegId, copy: Copy) returns (ok: bool)
    modifies cellar
    ensures SameBut(cellar.kegs, old(cellar.kegs), {id})
    ensures ok ==> id in cellar.kegs
    ensures id in old(cellar.kegs) ==> ok && cellar.kegs == old(cellar.kegs)
    ensures id !in old(cellar.kegs) && ok ==> copy.Full? && cellar.kegs[id] == Keg(copy.files, None)
    ensures id !in old(cellar.kegs) && copy.Partial? ==> !ok && Get(cellar.kegs, id) == Some(Keg(copy.files, None))
    ensures id !in old(cellar.kegs) && !copy.Partial? ==> (ok <==> copy.Full? && copy.files != {}) && (ok || cellar.kegs == old(cellar.kegs))
    ensures old(cellar.history) <= cellar.history
    ensures forall i :: |old(cellar.history)| <= i < |cellar.history| ==> SameBut(cellar.history[i], old(cellar.kegs), {id})
  {
    if id in cellar.kegs {
      return true;
    }
    match copy
    case NoCopy => return false;
    case Partial(files) =>
      cellar.Put(id, Keg(files, None));
      return false;
    case Full(files) =>
      if files == {} {
        return false;
      }
      cellar.Put(id, Keg(files, None));
      return true;
  }

  /** The keg as it is once finalized. */
  function Finalized(id: KegId, name: Name, files: set<string>): Keg {
    Keg(files, Some(Receipt(name, id.formula, id.version)))
  }

  /** Writes the receipt and records the package. */
  method FinalizeKeg(cellar: Cellar, id: KegId, name: Name, finish: Finish) returns (ok: bool)
    requires id in cellar.kegs
    modifies cellar
    ensures ok <==> finish.Recorded?
    ensures cellar.kegs == if finish.NoReceipt? then old(cellar.kegs)
                           else old(cellar.kegs)[id := Finalized(id, name, old(cellar.kegs)[id].files)]
    ensures old(cellar.history) <= cellar.history
    ensures forall i :: |old(cellar.history)| <= i < |cellar.history| ==> SameBut(cellar.history[i], old(cellar.kegs), {id})
  {
    if finish.NoReceipt? {
      return false;
    }
    cellar.Put(id, Finalized(id, name, cellar.kegs[id].files));
    return finish.Recorded?;
  }

  /** Nothing that was reported before the change to `id` goes missing. */
  ghost predicate NamesKept(a: Kegs, b: Kegs) {
    forall n :: IsInstalled(a, n) ==> IsInstalled(b, n)
  }

  lemma NamesStay(a: Kegs, b: Kegs, id: KegId, backup: KegId)
    requires SameBut(b, a, {id, backup}) && IsBackup(backup)
    requires id in a && ReportedName(id, a[id]).Some? ==> id in b && ReportedName(id, b[id]) == ReportedName(id, a[id])
    ensures NamesKept(a, b)
  {
    forall n | IsInstalled(a, n)
      ensures IsInstalled(b, n)
    {
      var k :| k in a && ReportedName(k, a[k]) == Some(n);
      assert k != id && k != backup ==> Get(b, k) == Get(a, k);
      assert k in b && ReportedName(k, b[k]) == Some(n);
    }
  }

  /** Rebuilds a keg from the bottle in the store. */
  method ReinstallFromStore(cellar: Cellar, id: KegId, name: Name, copy: Copy, finish: Finish, stamp: string, f: Faults)
    returns (ok: bool)
    requires !IsBackup(id)
    requires id in cellar.kegs ==> ReportedName(id, cellar.kegs[id]) == Some(name)
    modifies cellar
    ensures SafeSince(cellar.history, |old(cellar.history)|, id, BackupOf(id, stamp), Get(old(cellar.kegs), id))
    ensures SameBut(cellar.kegs, old(cellar.kegs), {id, BackupOf(id, stamp)})
    ensures ok ==> copy.Full? && Get(cellar.kegs, id) == Some(Finalized(id, name, copy.files))
    ensures !ok && f.clear.None? && !f.back && id in old(cellar.kegs) ==> Get(cellar.kegs, id) == Get(old(cellar.kegs), id)
    ensures !ok && id in old(cellar.kegs) ==>
              Get(cellar.kegs, id) == Get(old(cellar.kegs), id) || Get(cellar.kegs, BackupOf(id, stamp)) == Get(old(cellar.kegs), id)
    ensures ok || (f.clear.None? && !f.back) ==> NamesKept(old(cellar.kegs), cellar.kegs)
    ensures ok <==> !f.unlink && CanSetAside(old(cellar.kegs), id, stamp, f) && copy.Full? && copy.files != {} && finish.Recorded?
  {
    ghost var before, was := cellar.kegs, Get(cellar.kegs, id);
    ghost var start := |cellar.history|;
    BackupDiffers(id, stamp);
    BackupIsBackup(id, stamp);
    if f.unlink {
      NamesStay(before, cellar.kegs, id, BackupOf(id, stamp));
      return false;
    }
    var b := BackupExistingKeg(cellar, id, stamp, f);
    if b.Stuck? {
      NamesStay(before, cellar.kegs, id, BackupOf(id, stamp));
      return false;
    }
    ghost var aside, middle := cellar.kegs, |cellar.history|;
    ok := Materialize(cellar, id, copy);
    if ok {
      ok := FinalizeKeg(cellar, id, name, finish);
    }
    BackupHeld(cellar.history, start, middle, aside, id, BackupOf(id, stamp), was);
    if ok {
      if b.Moved? {
        var discarded := cellar.RemoveDirAll(b.backup, f.discard);
      }
    } else if b.Moved? {
      var restored := RestoreFromBackup(cellar, id, b.backup, f);
    }
    if ok || (f.clear.None? && !f.back) {
      NamesStay(before, cellar.kegs, id, BackupOf(id, stamp));
    }
  }

  /** While only `id` changes, the backup keeps the old keg safe. */
  lemma BackupHeld(history: seq<Kegs>, start: nat, middle: nat, aside: Kegs, id: KegId, backup: KegId, was: Option<Keg>)
    requires start <= middle <= |history| && id != backup
    requires HeldSince(history[..middle], start, id, backup, was)
    requires forall i :: middle <= i < |history| ==> SameBut(history[i], aside, {id})
    requires was.None? || was == Some(Empty()) || Get(aside, backup) == was
    ensures HeldSince(history, start, id, backup, was)
  {
  }

  // Installing.

  /** The files get into place, or were there. */
  predicate InPlace(kegs: Kegs, id: KegId, copy: Copy) {
    id in kegs || (copy.Full? && copy.files != {})
  }

  /** How the installation of a bottle ends: what holds its place, and whether it counts as installed. */
  ghost predicate BottleEnds(before: Kegs, after: Kegs, ok: bool, id: KegId, name: Name, copy: Copy, finish: Finish, clean: Option<Keg>) {
    && SameBut(after, before, {id})
    && (ok <==> InPlace(before, id, copy) && finish.Recorded?)
    && Get(after, id) ==
         if ok then Some(Finalized(id, name, if id in before then before[id].files else copy.files))
         else if InPlace(before, id, copy) then clean
         else if copy.Partial? then Some(Keg(copy.files, None))
         else None
  }

  /** Extracts one bottle and finalizes it. Of a failed copy nothing is cleared
      away; a keg that cannot be finalized is removed, whoever put it there. */
  method InstallBottle(cellar: Cellar, id: KegId, name: Name, copy: Copy, finish: Finish, clean: Option<Keg>) returns (ok: bool)
    modifies cellar
    ensures BottleEnds(old(cellar.kegs), cellar.kegs, ok, id, name, copy, finish, clean)
    ensures old(cellar.history) <= cellar.history
    ensures forall i :: |old(cellar.history)| <= i < |cellar.history| ==> SameBut(cellar.history[i], old(cellar.kegs), {id})
  {
    ok := Materialize(cellar, id, copy);
    if !ok {
      return;
    }
    ok := FinalizeKeg(cellar, id, name, finish);
    if !ok {
      var cleaned := cellar.RemoveDirAll(id, clean);
    }
  }

  lemma ReportedThere(before: Kegs, after: Kegs, id: KegId, n: Name)
    requires SameBut(after, before, {id}) && !IsInstalled(before, n)
    ensures IsInstalled(after, n) <==> id in after && ReportedName(id, after[id]) == Some(n)
  {
    forall e | e in after && e != id
      ensures ReportedName(e, after[e]) != Some(n)
    {
      assert Get(after, e) == Get(before, e);
    }
  }

  /** A name that was not installed is reported after a failed installation
      exactly when the copy got some files in place and none after them, or the
      clean-up of a keg that could not be finalized left a reported remainder. */
  lemma HalfCopiedLooksInstalled(before: Kegs, after: Kegs, id: KegId, name: Name, copy: Copy, finish: Finish, clean: Option<Keg>, n: Name)
    requires BottleEnds(before, after, false, id, name, copy, finish, clean) && !IsInstalled(before, n)
    ensures IsInstalled(after, n) <==>
              || (id !in before && copy.Partial? && copy.files != {} && !IsBackup(id) && n == id.formula)
              || (InPlace(before, id, copy) && !finish.Recorded? && clean.Some? && ReportedName(id, clean.value) == Some(n))
  {
    ReportedThere(before, after, id, n);
  }

  /** The next installation takes what a failed copy left as it is: it succeeds
      with those files whatever it would have copied itself. */
  lemma RemainderBecomesTheKeg(before: Kegs, middle: Kegs, after: Kegs, id: KegId, name: Name, files: set<string>, ok: bool,
                               failed: Finish, failedClean: Option<Keg>, copy: Copy, finish: Finish, clean: Option<Keg>)
    requires id !in before && BottleEnds(before, middle, false, id, name, Partial(files), failed, failedClean)
    requires BottleEnds(middle, after, ok, id, name, copy, finish, clean)
    ensures ok <==> finish.Recorded?
    ensures ok ==> Get(after, id) == Some(Finalized(id, name, files))
    ensures !IsBackup(id) && ok ==> IsInstalled(after, name)
  {
    assert id in middle && middle[id].files == files;
    if ok {
      assert ReportedName(id, after[id]) == Some(name) || IsBackup(id);
    }
  }

  /** In an empty Cellar a copy breaks off after one of two files; the package
      is found installed, and installing it again adds nothing but the receipt. */
  method HalfCopiedExample() returns (first: bool, found: Option<string>, second: bool, cellar: Cellar)
    ensures !first && found.Some? && second
    ensures cellar.kegs == map[KegId("a", "1") := Finalized(KegId("a", "1"), "a", {"bin/x"})]
  {
    var id := KegId("a", "1");
    PlainVersion();
    cellar := new Cellar(map[]);
    first := InstallBottle(cellar, id, "a", Partial({"bin/x"}), Recorded, None);
    ghost var middle := cellar.kegs;
    assert Get(middle, id) == Some(Keg({"bin/x"}, None));
    assert "bin/x" in middle[id].files;
    assert ReportedName(id, middle[id]) == Some("a");
    found := FindInstalled(cellar.kegs, "a");
    second := InstallBottle(cellar, id, "a", Full({"bin/x", "bin/y"}), Recorded, None);
    forall e | e != id
      ensures e !in cellar.kegs
    {
      assert Get(cellar.kegs, e) == Get(middle, e) == Get(map[], e);
    }
    assert Get(cellar.kegs, id) == Some(Finalized(id, "a", {"bin/x"}));
  }

  lemma PlainVersion()
    ensures !IsBackup(KegId("a", "1"))
  {
    NoSuchText("1", BackupMark(), 0);
  }

  /** Puts the previous keg back, or drops what a first build left behind. */
  method RollbackSourceKeg(cellar: Cellar, id: KegId, b: Backup, f: Faults) returns (ok: bool)
    requires !b.Stuck? && (b.Moved? ==> b.backup != id)
    modifies cellar
    ensures b.Nothing? ==> cellar.kegs == (if f.clear.None? then old(cellar.kegs) - {id}
                                           else if id in old(cellar.kegs) then old(cellar.kegs)[id := f.clear.value] else old(cellar.kegs))
    ensures b.Moved? && b.backup in old(cellar.kegs) && f.clear.None? && !f.back ==> ok
    ensures b.Moved? && ok ==>
              b.backup in old(cellar.kegs) && cellar.kegs == (old(cellar.kegs) - {b.backup})[id := old(cellar.kegs)[b.backup]]
    ensures b.Moved? && !ok ==> SameBut(cellar.kegs, old(cellar.kegs), {id})
    ensures old(cellar.history) <= cellar.history
    ensures b.Moved? && b.backup in old(cellar.kegs) ==>
              HeldSince(cellar.history, |old(cellar.history)|, id, b.backup, Some(old(cellar.kegs)[b.backup]))
    ensures forall i :: |old(cellar.history)| <= i < |cellar.history| ==>
              SameBut(cellar.history[i], old(cellar.kegs), if b.Moved? then {id, b.backup} else {id})
  {
    if b.Moved? {
      ok := RestoreFromBackup(cellar, id, b.backup, f);
      return;
    }
    if id in cellar.kegs {
      var cleaned := cellar.RemoveDirAll(id, f.clear);
    }
    return true;
  }

  /** Builds into a place that has been cleared, and finalizes what comes out. */
  method BuildKeg(cellar: Cellar, id: KegId, name: Name, built: Copy, finish: Finish) returns (ok: bool)
    requires id !in cellar.kegs
    modifies cellar
    ensures ok <==> built.Full? && finish.Recorded?
    ensures Get(cellar.kegs, id) == match built
              case NoCopy => None
              case Partial(files) => Some(Keg(files, None))
              case Full(files) => Some(if finish.NoReceipt? then Keg(files, None) else Finalized(id, name, files))
    ensures SameBut(cellar.kegs, old(cellar.kegs), {id})
    ensures old(cellar.history) <= cellar.history
    ensures forall i :: |old(cellar.history)| <= i < |cellar.history| ==> SameBut(cellar.history[i], old(cellar.kegs), {id})
  {
    match built {
      case NoCopy => ok := false;
      case Partial(files) =>
        cellar.Put(id, Keg(files, None));
        ok := false;
      case Full(files) =>
        cellar.Put(id, Keg(files, None));
        ok := FinalizeKeg(cellar, id, name, finish);
    }
  }

  /** Builds a keg from source over an existing one. */
  method InstallFromSource(cellar: Cellar, id: KegId, name: Name, built: Copy, finish: Finish, stamp: string, f: Faults)
    returns (ok: bool)
    requires !IsBackup(id)
    modifies cellar
    ensures SafeSince(cellar.history, |old(cellar.history)|, id, BackupOf(id, stamp), Get(old(cellar.kegs), id))
    ensures SameBut(cellar.kegs, old(cellar.kegs), {id, BackupOf(id, stamp)})
    ensures ok <==> CanSetAside(old(cellar.kegs), id, stamp, f) && built.Full? && finish.Recorded?
                    && (id in old(cellar.kegs) && old(cellar.kegs)[id] != Empty() ==> f.discard.None?)
    ensures ok ==> built.Full? && Get(cellar.kegs, id) == Some(Finalized(id, name, built.files))
    ensures f.clear.None? && !f.back ==>
              || (built.Full? && Get(cellar.kegs, id) == Some(Finalized(id, name, built.files)))
              || Get(cellar.kegs, id) == Get(old(cellar.kegs), id)
              || (Get(old(cellar.kegs), id) == Some(Empty()) && id !in cellar.kegs)
    ensures (ok || (f.clear.None? && !f.back))
            && (id in old(cellar.kegs) ==> ReportedName(id, old(cellar.kegs)[id]) in {None, Some(name)}) ==>
              NamesKept(old(cellar.kegs), cellar.kegs)
    ensures old(cellar.history) <= cellar.history
    ensures forall i :: |old(cellar.history)| <= i < |cellar.history| ==>
              SameBut(cellar.history[i], old(cellar.kegs), {id, BackupOf(id, stamp)})
  {
    ghost var before, was := cellar.kegs, Get(cellar.kegs, id);
    ghost var start := |cellar.history|;
    BackupDiffers(id, stamp);
    BackupIsBackup(id, stamp);
    hide NamesKept, IsBackup;
    var b := BackupExistingKeg(cellar, id, stamp, f);
    if b.Stuck? {
      SourceNames(before, cellar.kegs, id, stamp, name);
      return false;
    }
    ghost var aside, middle := cellar.kegs, |cellar.history|;
    ok := BuildKeg(cellar, id, name, built, finish);
    BackupHeld(cellar.history, start, middle, aside, id, BackupOf(id, stamp), was);
    if !ok {
      var rolledBack := RollbackSourceKeg(cellar, id, b, f);
      SourceNames(before, cellar.kegs, id, stamp, name);
      return false;
    }
    if b.Moved? {
      ok := cellar.RemoveDirAll(b.backup, f.discard);
    }
    SourceNames(before, cellar.kegs, id, stamp, name);
  }

  /** An old keg reported under `name` and put back, or replaced by one of that name, is no loss. */
  lemma SourceNames(before: Kegs, after: Kegs, id: KegId, stamp: string, name: Name)
    requires SameBut(after, before, {id, BackupOf(id, stamp)}) && IsBackup(BackupOf(id, stamp)) && !IsBackup(id)
    ensures (id in before ==> ReportedName(id, before[id]) in {None, Some(name)})
            && (Get(after, id) == Get(before, id) || (id in after && ReportedName(id, after[id]) == Some(name))
                || (Get(before, id) == Some(Empty()) && id !in after)) ==>
              NamesKept(before, after)
  {
    if (id in before ==> ReportedName(id, before[id]) in {None, Some(name)})
       && (Get(after, id) == Get(before, id) || (id in after && ReportedName(id, after[id]) == Some(name))
           || (Get(before, id) == Some(Empty()) && id !in after)) {
      NamesStay(before, after, id, BackupOf(id, stamp));
    }
  }
}
