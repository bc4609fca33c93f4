/** Reinstalling several packages at once: all old kegs are set aside, the plan
    is carried out, and each old keg is dropped or put back. */
module Reinstall {
  import opened Options
  import opened Names
  import opened Cellars
  import opened Transactions

  /** A package to replace, with the keg found for it; `sweep` is what is left
      of a half-made replacement when clearing it away fails. */
  datatype Target = Target(name: Name, id: KegId, stamp: string, f: Faults, sweep: Option<Keg>)

  /** One planned installation and how it goes; `clean` is what is left of a
      keg that could not be finalized when removing it fails. */
  datatype Work =
    | BottleWork(id: KegId, name: Name, copy: Copy, finish: Finish, clean: Option<Keg>)
    | SourceWork(id: KegId, name: Name, copy: Copy, finish: Finish, stamp: string, f: Faults)

  function BackupId(t: Target): KegId {
    BackupOf(t.id, t.stamp)
  }

  function Zone(t: Target): set<KegId> {
    {t.id, BackupId(t)}
  }

  function Touches(w: Work): set<KegId> {
    if w.SourceWork? then {w.id, BackupOf(w.id, w.stamp)} else {w.id}
  }

  /** Nothing of value: no directory, or an empty one. */
  predicate Unclaimed(place: Option<Keg>) {
    place == None || place == Some(Empty())
  }

  /** Setting the package's keg aside goes through. */
  predicate CanStash(kegs: Kegs, t: Target) {
    !t.f.unlink && CanSetAside(kegs, t.id, t.stamp, t.f)
  }

  /** An item goes through in an open place. */
  predicate Goes(place: Option<Keg>, w: Work) {
    match w
    case BottleWork(_, _, copy, finish, _) => finish.Recorded? && (place.Some? || (copy.Full? && copy.files != {}))
    case SourceWork(_, _, copy, finish, _, f) => finish.Recorded? && copy.Full? && (place.Some? ==> !f.debris)
  }

  /** The files it leaves there; a bottle takes an empty directory as the copy already made. */
  function ItemFiles(place: Option<Keg>, w: Work): set<string>
    requires Goes(place, w)
  {
    if w.BottleWork? && place.Some? then place.value.files else w.copy.files
  }

  /** The item's keg is complete. */
  predicate Complete(place: Option<Keg>, kegs: Kegs, w: Work) {
    Goes(place, w) && Get(kegs, w.id) == Some(Finalized(w.id, w.name, ItemFiles(place, w)))
  }

  /** Where the plan puts the new keg of a package. */
  function Replacement(items: seq<Work>, name: Name): (r: Option<KegId>)
    ensures r.Some? ==> exists i :: 0 <= i < |items| && items[i].name == name && items[i].id == r.value
    ensures r.None? ==> forall i :: 0 <= i < |items| ==> items[i].name != name
  {
    if items == [] then None
    else if items[0].name == name then Some(items[0].id)
    else
      var r := Replacement(items[1..], name);
      assert forall i :: 0 < i < |items| ==> items[i] == items[1..][i - 1];
      r
  }

  /** Packages and planned items keep to formula directories of their own; a
      place an item takes is its own package's old one, free, or an empty directory. */
  ghost predicate WellPlanned(kegs: Kegs, targets: seq<Target>, items: seq<Work>) {
    && (forall i, j :: 0 <= i < j < |targets| ==> targets[i].id.formula != targets[j].id.formula)
    && (forall i :: 0 <= i < |targets| ==> !IsBackup(targets[i].id))
    && (forall i :: 0 <= i < |targets| && targets[i].id in kegs ==>
          ReportedName(targets[i].id, kegs[targets[i].id]) == Some(targets[i].name))
    && (forall a, b :: 0 <= a < b < |items| ==> items[a].id.formula != items[b].id.formula)
    && (forall a :: 0 <= a < |items| ==> !IsBackup(items[a].id))
    && (forall a, i :: 0 <= a < |items| && 0 <= i < |targets| ==>
          (items[a].name == targets[i].name <==> items[a].id.formula == targets[i].id.formula))
    && (forall a, i :: 0 <= a < |items| && 0 <= i < |targets| ==> BackupId(targets[i]) !in Touches(items[a]))
    && (forall a :: 0 <= a < |items| ==> Unclaimed(Get(kegs, items[a].id)) || exists i :: 0 <= i < |targets| && targets[i].id == items[a].id)
  }

  /** The old keg is set aside. */
  ghost predicate Aside(was: Kegs, kegs: Kegs, t: Target, b: Backup) {
    && !b.Stuck?
    && (b.Nothing? ==> Get(was, t.id) == None || Get(was, t.id) == Some(Empty()))
    && (b.Moved? ==> b.backup == BackupId(t) && t.id in was && Get(kegs, b.backup) == Get(was, t.id))
  }

  /** The old keg is where it was, in its backup, or replaced. */
  ghost predicate Kept(was: Kegs, s: Kegs, t: Target, replacement: Option<KegId>) {
    || Get(was, t.id) == None || Get(was, t.id) == Some(Empty())
    || Get(s, t.id) == Get(was, t.id) || Get(s, BackupId(t)) == Get(was, t.id)
    || (replacement.Some? && replacement.value in s && s[replacement.value].receipt.Some?)
  }

  ghost predicate AllKept(was: Kegs, history: seq<Kegs>, start: nat, targets: seq<Target>, items: seq<Work>) {
    forall i, j :: start <= i < |history| && 0 <= j < |targets| ==>
      Kept(was, history[i], targets[j], Replacement(items, targets[j].name))
  }

  /** Set aside, or not yet touched. */
  ghost predicate HeldSoFar(was: Kegs, kegs: Kegs, targets: seq<Target>, backups: seq<Backup>) {
    && |backups| <= |targets|
    && (forall j :: 0 <= j < |backups| ==> Aside(was, kegs, targets[j], backups[j]) && targets[j].id !in kegs)
    && (forall j :: |backups| <= j < |targets| ==> Get(kegs, targets[j].id) == Get(was, targets[j].id))
  }

  /** Only the directory of one formula may differ. */
  ghost predicate SameElsewhere(a: Kegs, b: Kegs, formula: Name) {
    forall id: KegId :: id.formula != formula ==> Get(a, id) == Get(b, id)
  }

  lemma ReplacementAt(was: Kegs, targets: seq<Target>, items: seq<Work>, j: nat)
    requires WellPlanned(was, targets, items) && j < |targets|
    ensures var r := Replacement(items, targets[j].name); r.Some? ==> r.value.formula == targets[j].id.formula && !IsBackup(r.value)
  {
  }

  /** A step in another formula's directory leaves a target as it was. */
  lemma KeptElsewhere(was: Kegs, targets: seq<Target>, items: seq<Work>, j: nat, a: Kegs, b: Kegs, formula: Name)
    requires WellPlanned(was, targets, items) && j < |targets| && targets[j].id.formula != formula
    requires SameElsewhere(b, a, formula) && Kept(was, a, targets[j], Replacement(items, targets[j].name))
    ensures Kept(was, b, targets[j], Replacement(items, targets[j].name))
  {
  }

  /** Going on in one target's directory: the others stay kept, this one by what the step promises. */
  lemma KeptOn(was: Kegs, targets: seq<Target>, items: seq<Work>, history: seq<Kegs>, start: nat, middle: nat, a: Kegs, k: nat)
    requires WellPlanned(was, targets, items) && k < |targets| && start <= middle <= |history|
    requires AllKept(was, history[..middle], start, targets, items)
    requires forall j :: 0 <= j < |targets| ==> Kept(was, a, targets[j], Replacement(items, targets[j].name))
    requires forall i :: middle <= i < |history| ==> SameElsewhere(history[i], a, targets[k].id.formula)
    requires forall i :: middle <= i < |history| ==> Kept(was, history[i], targets[k], Replacement(items, targets[k].name))
    ensures AllKept(was, history, start, targets, items)
  {
    forall i, j | start <= i < |history| && 0 <= j < |targets|
      ensures Kept(was, history[i], targets[j], Replacement(items, targets[j].name))
    {
      if i < middle {
        assert history[..middle][i] == history[i];
      } else if j != k {
        FormulasDiffer(was, targets, items, j, k);
        KeptElsewhere(was, targets, items, j, a, history[i], targets[k].id.formula);
      }
    }
  }

  lemma FormulasDiffer(was: Kegs, targets: seq<Target>, items: seq<Work>, j: nat, k: nat)
    requires WellPlanned(was, targets, items) && j < |targets| && k < |targets| && j != k
    ensures targets[j].id.formula != targets[k].id.formula
  {
  }

  lemma HeldIsKept(was: Kegs, kegs: Kegs, targets: seq<Target>, backups: seq<Backup>, items: seq<Work>)
    requires HeldSoFar(was, kegs, targets, backups)
    ensures forall j :: 0 <= j < |targets| ==> Kept(was, kegs, targets[j], Replacement(items, targets[j].name))
  {
  }

  // Setting aside.

  method StashKeg(cellar: Cellar, t: Target) returns (b: Backup)
    modifies cellar
    ensures b.Stuck? <==> !CanStash(old(cellar.kegs), t)
    ensures b.Stuck? ==> Get(cellar.kegs, t.id) == Get(old(cellar.kegs), t.id)
    ensures !b.Stuck? ==> Aside(old(cellar.kegs), cellar.kegs, t, b) && t.id !in cellar.kegs
    ensures old(cellar.history) <= cellar.history
    ensures SameElsewhere(cellar.kegs, old(cellar.kegs), t.id.formula)
    ensures SameBut(cellar.kegs, old(cellar.kegs), Zone(t))
    ensures forall i :: |old(cellar.history)| <= i < |cellar.history| ==>
              SameElsewhere(cellar.history[i], old(cellar.kegs), t.id.formula)
              && Held(cellar.history[i], t.id, BackupId(t), Get(old(cellar.kegs), t.id))
  {
    BackupDiffers(t.id, t.stamp);
    if t.f.unlink {
      return Stuck;
    }
    b := BackupExistingKeg(cellar, t.id, t.stamp, t.f);
  }

  method RestoreKeg(cellar: Cellar, t: Target, b: Backup)
    requires b.Moved? ==> b.backup == BackupId(t) && b.backup in cellar.kegs
    requires !b.Stuck?
    modifies cellar
    ensures b.Moved? && Fine(t.f) ==> Get(cellar.kegs, t.id) == Get(old(cellar.kegs), b.backup)
    ensures b.Nothing? ==> cellar.kegs == old(cellar.kegs)
    ensures old(cellar.history) <= cellar.history
    ensures SameElsewhere(cellar.kegs, old(cellar.kegs), t.id.formula)
    ensures SameBut(cellar.kegs, old(cellar.kegs), Zone(t))
    ensures forall i :: |old(cellar.history)| <= i < |cellar.history| ==>
              SameElsewhere(cellar.history[i], old(cellar.kegs), t.id.formula)
              && (b.Moved? ==> Held(cellar.history[i], t.id, BackupId(t), Get(old(cellar.kegs), b.backup)))
    ensures b.Moved? ==> Held(cellar.kegs, t.id, BackupId(t), Get(old(cellar.kegs), b.backup))
  {
    BackupDiffers(t.id, t.stamp);
    if b.Moved? {
      var ok := RestoreFromBackup(cellar, t.id, b.backup, t.f);
    }
  }

  predicate Fine(f: Faults) {
    f.clear.None? && !f.back
  }

  /** The old keg is back, where putting it back works. */
  ghost predicate Restored(was: Kegs, kegs: Kegs, t: Target) {
    Fine(t.f) ==> Get(was, t.id) == None || Get(was, t.id) == Some(Empty()) || Get(kegs, t.id) == Get(was, t.id)
  }

  lemma Stashed(was: Kegs, targets: seq<Target>, items: seq<Work>, backups: seq<Backup>, a: Kegs, b: Kegs, r: Backup)
    requires WellPlanned(was, targets, items) && |backups| < |targets| && HeldSoFar(was, a, targets, backups)
    requires var t := targets[|backups|];
             SameElsewhere(b, a, t.id.formula) && Aside(a, b, t, r) && t.id !in b
    ensures HeldSoFar(was, b, targets, backups + [r])
  {
  }

  /** Sets all old kegs aside, or puts those already set aside back. */
  method StashAll(cellar: Cellar, targets: seq<Target>, ghost items: seq<Work>) returns (ok: bool, backups: seq<Backup>)
    requires WellPlanned(cellar.kegs, targets, items)
    modifies cellar
    ensures ok <==> forall j :: 0 <= j < |targets| ==> CanStash(old(cellar.kegs), targets[j])
    ensures ok ==> |backups| == |targets| && HeldSoFar(old(cellar.kegs), cellar.kegs, targets, backups)
    ensures !ok ==> forall j :: 0 <= j < |targets| ==> Restored(old(cellar.kegs), cellar.kegs, targets[j])
    ensures InZones(old(cellar.kegs), cellar.kegs, targets)
    ensures old(cellar.history) <= cellar.history
    ensures AllKept(old(cellar.kegs), cellar.history, |old(cellar.history)|, targets, items)
  {
    hide WellPlanned, Kept, AllKept, HeldSoFar, Aside, SameElsewhere, InZones, Zone, CanStash, Waiting;
    ghost var was, start := cellar.kegs, |cellar.history|;
    backups := [];
    assert Waiting(was, was, targets, 0) by { AllWaiting(was, targets); }
    StashStart(was, cellar.history, targets, items);
    while |backups| < |targets|
      invariant |backups| <= |targets|
      invariant HeldSoFar(was, cellar.kegs, targets, backups) && InZones(was, cellar.kegs, targets)
      invariant Waiting(was, cellar.kegs, targets, |backups|)
      invariant forall j :: 0 <= j < |backups| ==> CanStash(was, targets[j])
      invariant old(cellar.history) <= cellar.history && AllKept(was, cellar.history, start, targets, items)
      decreases |targets| - |backups|
    {
      ghost var before, middle, past := cellar.kegs, |cellar.history|, cellar.history;
      var t := targets[|backups|];
      StashNext(was, targets, before, |backups|);
      var b := StashKeg(cellar, t);
      assert cellar.history[..middle] == past;
      ZonesGrow(was, before, cellar.kegs, targets, |backups|);
      StashKept(was, targets, items, backups, cellar.history, start, middle, before);
      if b.Stuck? {
        StuckHeld(was, targets, items, backups, before, cellar.kegs);
        RestoreAll(cellar, targets, backups, was, start, items);
        return false, backups;
      }
      Stashed(was, targets, items, backups, before, cellar.kegs, b);
      WaitingOn(was, targets, items, before, cellar.kegs, |backups|);
      backups := backups + [b];
    }
    ok := true;
  }

  /** From position `k` on the targets' directories are as they were. */
  ghost predicate Waiting(was: Kegs, kegs: Kegs, targets: seq<Target>, k: nat) {
    forall j :: k <= j < |targets| ==> SameThere(was, kegs, targets[j].id.formula)
  }

  /** The directory of one formula is the same. */
  ghost predicate SameThere(a: Kegs, b: Kegs, formula: Name) {
    forall id: KegId :: id.formula == formula ==> Get(a, id) == Get(b, id)
  }

  lemma AllWaiting(was: Kegs, targets: seq<Target>)
    ensures Waiting(was, was, targets, 0)
  {
  }

  lemma StashNext(was: Kegs, targets: seq<Target>, kegs: Kegs, k: nat)
    requires k < |targets| && Waiting(was, kegs, targets, k)
    ensures CanStash(kegs, targets[k]) <==> CanStash(was, targets[k])
  {
    var t := targets[k];
    assert Get(was, t.id) == Get(kegs, t.id) && Get(was, BackupId(t)) == Get(kegs, BackupId(t));
  }

  lemma WaitingOn(was: Kegs, targets: seq<Target>, items: seq<Work>, a: Kegs, b: Kegs, k: nat)
    requires WellPlanned(was, targets, items) && k < |targets| && Waiting(was, a, targets, k)
    requires SameElsewhere(b, a, targets[k].id.formula)
    ensures Waiting(was, b, targets, k + 1)
  {
  }

  /** Nothing but the targets' own places and backups has changed. */
  ghost predicate InZones(was: Kegs, kegs: Kegs, targets: seq<Target>) {
    forall id :: (forall j :: 0 <= j < |targets| ==> id !in Zone(targets[j])) ==> Get(kegs, id) == Get(was, id)
  }

  lemma ZonesGrow(was: Kegs, a: Kegs, b: Kegs, targets: seq<Target>, k: nat)
    requires k < |targets| && InZones(was, a, targets) && SameBut(b, a, Zone(targets[k]))
    ensures InZones(was, b, targets)
  {
  }

  lemma StashStart(was: Kegs, history: seq<Kegs>, targets: seq<Target>, items: seq<Work>)
    ensures HeldSoFar(was, was, targets, []) && InZones(was, was, targets) && AllKept(was, history, |history|, targets, items)
  {
  }

  lemma StashKept(was: Kegs, targets: seq<Target>, items: seq<Work>, backups: seq<Backup>,
                  history: seq<Kegs>, start: nat, middle: nat, a: Kegs)
    requires WellPlanned(was, targets, items) && |backups| < |targets| && HeldSoFar(was, a, targets, backups)
    requires start <= middle <= |history| && AllKept(was, history[..middle], start, targets, items)
    requires var t := targets[|backups|];
             forall i :: middle <= i < |history| ==>
               SameElsewhere(history[i], a, t.id.formula) && Held(history[i], t.id, BackupId(t), Get(a, t.id))
    ensures AllKept(was, history, start, targets, items)
  {
    HeldIsKept(was, a, targets, backups, items);
    hide WellPlanned, AllKept, SameElsewhere;
    KeptOn(was, targets, items, history, start, middle, a, |backups|);
  }

  lemma StuckHeld(was: Kegs, targets: seq<Target>, items: seq<Work>, backups: seq<Backup>, a: Kegs, b: Kegs)
    requires WellPlanned(was, targets, items) && |backups| < |targets| && HeldSoFar(was, a, targets, backups)
    requires SameElsewhere(b, a, targets[|backups|].id.formula) && Get(b, targets[|backups|].id) == Get(a, targets[|backups|].id)
    ensures HeldSoFar(was, b, targets, backups)
  {
  }

  /** Of the targets set aside the first `k` have been put back. */
  ghost predicate RestoredUpTo(was: Kegs, kegs: Kegs, targets: seq<Target>, backups: seq<Backup>, k: nat) {
    && k <= |backups| <= |targets|
    && (forall j :: 0 <= j < k ==> Restored(was, kegs, targets[j]) && Held(kegs, targets[j].id, BackupId(targets[j]), Get(was, targets[j].id)))
    && (forall j :: k <= j < |backups| ==> Aside(was, kegs, targets[j], backups[j]))
    && (forall j :: |backups| <= j < |targets| ==> Get(kegs, targets[j].id) == Get(was, targets[j].id))
  }

  lemma RestoreNext(was: Kegs, targets: seq<Target>, items: seq<Work>, backups: seq<Backup>, k: nat, a: Kegs, b: Kegs)
    requires WellPlanned(was, targets, items) && k < |backups| && RestoredUpTo(was, a, targets, backups, k)
    requires SameElsewhere(b, a, targets[k].id.formula)
    requires Restored(was, b, targets[k]) && Held(b, targets[k].id, BackupId(targets[k]), Get(was, targets[k].id))
    ensures RestoredUpTo(was, b, targets, backups, k + 1)
  {
  }

  lemma RestoredIsKept(was: Kegs, kegs: Kegs, targets: seq<Target>, backups: seq<Backup>, k: nat, items: seq<Work>)
    requires RestoredUpTo(was, kegs, targets, backups, k)
    ensures forall j :: 0 <= j < |targets| ==> Kept(was, kegs, targets[j], Replacement(items, targets[j].name))
  {
  }

  method RestoreAll(cellar: Cellar, targets: seq<Target>, backups: seq<Backup>, ghost was: Kegs, ghost start: nat, ghost items: seq<Work>)
    requires WellPlanned(was, targets, items) && HeldSoFar(was, cellar.kegs, targets, backups)
    requires InZones(was, cellar.kegs, targets)
    requires start <= |cellar.history| && AllKept(was, cellar.history, start, targets, items)
    modifies cellar
    ensures forall j :: 0 <= j < |targets| ==> Restored(was, cellar.kegs, targets[j])
    ensures InZones(was, cellar.kegs, targets)
    ensures old(cellar.history) <= cellar.history && AllKept(was, cellar.history, start, targets, items)
  {
    var k := 0;
    assert RestoredUpTo(was, cellar.kegs, targets, backups, 0);
    hide WellPlanned, Kept, AllKept, HeldSoFar, SameElsewhere, InZones, Zone, RestoredUpTo, Restored, Held;
    RestoredMeans(was, cellar.kegs, targets, backups, 0);
    while k < |backups|
      invariant k <= |backups| <= |targets|
      invariant RestoredUpTo(was, cellar.kegs, targets, backups, k) && InZones(was, cellar.kegs, targets)
      invariant old(cellar.history) <= cellar.history && AllKept(was, cellar.history, start, targets, items)
    {
      ghost var before, middle, past := cellar.kegs, |cellar.history|, cellar.history;
      RestoredMeans(was, before, targets, backups, k);
      RestoredIsKept(was, before, targets, backups, k, items);
      RestoreKeg(cellar, targets[k], backups[k]);
      assert cellar.history[..middle] == past;
      ZonesGrow(was, before, cellar.kegs, targets, k);
      RestoreStep(was, targets[k], backups[k], before, cellar.kegs, cellar.history, middle, Replacement(items, targets[k].name));
      KeptOn(was, targets, items, cellar.history, start, middle, before, k);
      RestoreNext(was, targets, items, backups, k, before, cellar.kegs);
      k := k + 1;
    }
    AllRestored(was, cellar.kegs, targets, backups);
  }

  lemma RestoredMeans(was: Kegs, kegs: Kegs, targets: seq<Target>, backups: seq<Backup>, k: nat)
    requires RestoredUpTo(was, kegs, targets, backups, k)
    ensures |backups| <= |targets| && (k < |backups| ==> Aside(was, kegs, targets[k], backups[k]))
  {
  }

  lemma AllRestored(was: Kegs, kegs: Kegs, targets: seq<Target>, backups: seq<Backup>)
    requires RestoredUpTo(was, kegs, targets, backups, |backups|)
    ensures forall j :: 0 <= j < |targets| ==> Restored(was, kegs, targets[j])
  {
  }

  /** What putting one keg back means for it. */
  lemma RestoreStep(was: Kegs, t: Target, b: Backup, a: Kegs, c: Kegs, history: seq<Kegs>, middle: nat, r: Option<KegId>)
    requires Aside(was, a, t, b)
    requires b.Moved? && Fine(t.f) ==> Get(c, t.id) == Get(a, b.backup)
    requires b.Nothing? ==> c == a
    requires b.Moved? ==> Held(c, t.id, BackupId(t), Get(a, b.backup))
    requires forall i :: middle <= i < |history| ==> b.Moved? ==> Held(history[i], t.id, BackupId(t), Get(a, b.backup))
    ensures Restored(was, c, t) && Held(c, t.id, BackupId(t), Get(was, t.id))
    ensures forall i :: middle <= i < |history| ==> Kept(was, history[i], t, r)
  {
  }

  // Carrying out the plan.

  /** A receipt at an item's place is that item's. */
  ghost predicate OwnReceipt(kegs: Kegs, w: Work) {
    w.id in kegs && kegs[w.id].receipt.Some? ==> kegs[w.id].receipt.value.installName == w.name
  }

  predicate FineWork(w: Work) {
    if w.SourceWork? then Fine(w.f) else w.clean.None?
  }

  /** One item. */
  method Install(cellar: Cellar, w: Work) returns (ok: bool)
    requires !IsBackup(w.id)
    modifies cellar
    ensures old(cellar.history) <= cellar.history
    ensures SameBut(cellar.kegs, old(cellar.kegs), Touches(w))
    ensures forall i :: |old(cellar.history)| <= i < |cellar.history| ==> SameBut(cellar.history[i], old(cellar.kegs), Touches(w))
    ensures Unclaimed(Get(old(cellar.kegs), w.id)) && FineWork(w) ==> OwnReceipt(cellar.kegs, w)
    ensures Unclaimed(Get(old(cellar.kegs), w.id)) ==> (ok <==> Goes(Get(old(cellar.kegs), w.id), w))
    ensures Unclaimed(Get(old(cellar.kegs), w.id)) && ok ==> Complete(Get(old(cellar.kegs), w.id), cellar.kegs, w)
  {
    match w
    case BottleWork(id, name, copy, finish, clean) =>
      ok := InstallBottle(cellar, id, name, copy, finish, clean);
    case SourceWork(id, name, copy, finish, stamp, f) =>
      ok := InstallFromSource(cellar, id, name, copy, finish, stamp, f);
  }

  /** The plan may touch its items' places only. */
  ghost predicate InPlaces(was: Kegs, kegs: Kegs, items: seq<Work>) {
    forall id :: (forall a :: 0 <= a < |items| ==> id !in Touches(items[a])) ==> Get(kegs, id) == Get(was, id)
  }

  /** After the first `i` items: the places to come are as they were and open;
      receipts are their items' own, and items that go through are complete. */
  ghost predicate Executed(first: Kegs, kegs: Kegs, items: seq<Work>, i: nat) {
    && i <= |items|
    && (forall a :: i <= a < |items| ==> Get(kegs, items[a].id) == Get(first, items[a].id) && Unclaimed(Get(first, items[a].id)))
    && (forall a :: 0 <= a < i ==> ItemDone(first, kegs, items, a))
  }

  ghost predicate ItemDone(first: Kegs, kegs: Kegs, items: seq<Work>, a: nat)
    requires a < |items|
  {
    var w, place := items[a], Get(first, items[a].id);
    && ((forall c :: 0 <= c < |items| ==> FineWork(items[c])) ==> OwnReceipt(kegs, w))
    && (Goes(place, w) ==> Complete(place, kegs, w))
  }

  lemma ExecuteNext(first: Kegs, was: Kegs, targets: seq<Target>, items: seq<Work>, i: nat, a: Kegs, b: Kegs)
    requires WellPlanned(was, targets, items) && i < |items| && Executed(first, a, items, i) && SameBut(b, a, Touches(items[i]))
    requires FineWork(items[i]) ==> OwnReceipt(b, items[i])
    requires Goes(Get(first, items[i].id), items[i]) ==> Complete(Get(first, items[i].id), b, items[i])
    ensures Executed(first, b, items, i + 1)
  {
    hide Goes, Complete, FineWork;
    forall c | 0 <= c < |items| && c != i
      ensures Get(b, items[c].id) == Get(a, items[c].id)
    {
      assert items[c].id.formula != items[i].id.formula by {
        if c < i {
          assert items[c].id.formula != items[i].id.formula;
        } else {
          assert items[i].id.formula != items[c].id.formula;
        }
      }
    }
    forall c | 0 <= c < i
      ensures ItemDone(first, b, items, c)
    {
      assert ItemDone(first, a, items, c) && Get(b, items[c].id) == Get(a, items[c].id);
      SameItem(Get(first, items[c].id), a, b, items[c]);
    }
    assert ItemDone(first, b, items, i);
    hide ItemDone;
    forall c | i < c < |items|
      ensures Get(b, items[c].id) == Get(first, items[c].id) && Unclaimed(Get(first, items[c].id))
    {
      assert Get(a, items[c].id) == Get(first, items[c].id);
      assert Get(b, items[c].id) == Get(a, items[c].id);
    }
  }

  lemma SameItem(place: Option<Keg>, a: Kegs, b: Kegs, w: Work)
    requires Get(a, w.id) == Get(b, w.id)
    ensures Complete(place, a, w) <==> Complete(place, b, w)
    ensures OwnReceipt(a, w) <==> OwnReceipt(b, w)
  {
  }

  lemma PlacesGrow(was: Kegs, a: Kegs, b: Kegs, items: seq<Work>, i: nat)
    requires i < |items| && InPlaces(was, a, items) && SameBut(b, a, Touches(items[i]))
    ensures InPlaces(was, b, items)
  {
  }

  /** While the plan runs the backups are left alone. */
  ghost predicate Backed(was: Kegs, kegs: Kegs, targets: seq<Target>, backups: seq<Backup>) {
    |backups| == |targets| && forall j :: 0 <= j < |targets| ==> Aside(was, kegs, targets[j], backups[j])
  }

  lemma BackedOn(was: Kegs, targets: seq<Target>, items: seq<Work>, backups: seq<Backup>, i: nat, a: Kegs, b: Kegs)
    requires WellPlanned(was, targets, items) && i < |items| && Backed(was, a, targets, backups) && SameBut(b, a, Touches(items[i]))
    ensures Backed(was, b, targets, backups)
  {
  }

  lemma ExecuteKept(was: Kegs, targets: seq<Target>, items: seq<Work>, backups: seq<Backup>, i: nat,
                    history: seq<Kegs>, start: nat, middle: nat, a: Kegs)
    requires WellPlanned(was, targets, items) && i < |items| && Backed(was, a, targets, backups)
    requires start <= middle <= |history| && AllKept(was, history[..middle], start, targets, items)
    requires forall k :: middle <= k < |history| ==> SameBut(history[k], a, Touches(items[i]))
    ensures AllKept(was, history, start, targets, items)
  {
  }

  /** Carries out the items one after the other; a failure does not stop the rest. */
  method ExecuteAll(cellar: Cellar, items: seq<Work>, ghost was: Kegs, ghost targets: seq<Target>, ghost backups: seq<Backup>,
                    ghost start: nat) returns (installed: nat, ok: bool)
    requires WellPlanned(was, targets, items) && Backed(was, cellar.kegs, targets, backups)
    requires Executed(cellar.kegs, cellar.kegs, items, 0)
    requires start <= |cellar.history| && AllKept(was, cellar.history, start, targets, items)
    modifies cellar
    ensures Backed(was, cellar.kegs, targets, backups) && Executed(old(cellar.kegs), cellar.kegs, items, |items|)
    ensures ok <==> AllGo(old(cellar.kegs), items, |items|)
    ensures installed <= |items| && (ok ==> installed == |items|)
    ensures InPlaces(old(cellar.kegs), cellar.kegs, items)
    ensures old(cellar.history) <= cellar.history && AllKept(was, cellar.history, start, targets, items)
  {
    ghost var first := cellar.kegs;
    installed, ok := 0, true;
    ItemsArePlain(was, targets, items);
    NoneStopped(first, items);
    hide WellPlanned, AllKept, Backed, Executed, InPlaces, SameBut, OwnReceipt, Touches, Goes, Complete, Unclaimed, AllGo;
    assert InPlaces(first, cellar.kegs, items) by { NothingTouched(first, items); }
    var i := 0;
    while i < |items|
      invariant i <= |items|
      invariant Backed(was, cellar.kegs, targets, backups) && Executed(first, cellar.kegs, items, i)
      invariant ok <==> AllGo(first, items, i)
      invariant installed <= i && (ok ==> installed == i)
      invariant InPlaces(first, cellar.kegs, items)
      invariant old(cellar.history) <= cellar.history && AllKept(was, cellar.history, start, targets, items)
    {
      ghost var before, middle, past := cellar.kegs, |cellar.history|, cellar.history;
      NextIsOpen(first, before, items, i);
      OneMoreGoes(first, items, i);
      var done := Install(cellar, items[i]);
      assert cellar.history[..middle] == past;
      if done {
        installed := installed + 1;
      } else {
        ok := false;
      }
      ExecuteKept(was, targets, items, backups, i, cellar.history, start, middle, before);
      BackedOn(was, targets, items, backups, i, before, cellar.kegs);
      ExecuteNext(first, was, targets, items, i, before, cellar.kegs);
      PlacesGrow(first, before, cellar.kegs, items, i);
      i := i + 1;
    }
  }

  /** The first `i` items go through. */
  ghost predicate AllGo(first: Kegs, items: seq<Work>, i: nat) {
    i <= |items| && forall a :: 0 <= a < i ==> Goes(Get(first, items[a].id), items[a])
  }

  lemma NoneStopped(first: Kegs, items: seq<Work>)
    ensures AllGo(first, items, 0)
  {
  }

  lemma OneMoreGoes(first: Kegs, items: seq<Work>, i: nat)
    requires i < |items|
    ensures AllGo(first, items, i + 1) <==> AllGo(first, items, i) && Goes(Get(first, items[i].id), items[i])
  {
    hide Goes;
  }

  lemma ItemsArePlain(was: Kegs, targets: seq<Target>, items: seq<Work>)
    requires WellPlanned(was, targets, items)
    ensures forall a :: 0 <= a < |items| ==> !IsBackup(items[a].id)
  {
  }

  lemma NothingTouched(kegs: Kegs, items: seq<Work>)
    ensures InPlaces(kegs, kegs, items)
  {
  }

  lemma NextIsOpen(first: Kegs, kegs: Kegs, items: seq<Work>, i: nat)
    requires Executed(first, kegs, items, i) && i < |items|
    ensures Get(kegs, items[i].id) == Get(first, items[i].id) && Unclaimed(Get(first, items[i].id))
  {
  }

  // Dropping or putting back.

  predicate Replaced(kegs: Kegs, r: Option<KegId>) {
    r.Some? && r.value in kegs && kegs[r.value].receipt.Some?
  }

  /** What becomes of one target in the end. */
  ghost predicate Settled(was: Kegs, kegs: Kegs, t: Target, r: Option<KegId>) {
    Replaced(kegs, r) || Restored(was, kegs, t)
  }

  method SettleKeg(cellar: Cellar, t: Target, b: Backup, r: Option<KegId>, ghost was: Kegs) returns (replaced: bool)
    requires Aside(was, cellar.kegs, t, b) && !IsBackup(t.id)
    requires r.Some? ==> r.value.formula == t.id.formula && !IsBackup(r.value)
    modifies cellar
    ensures replaced <==> Replaced(old(cellar.kegs), r)
    ensures !replaced ==> Restored(was, cellar.kegs, t)
    ensures Kept(was, cellar.kegs, t, r)
    ensures old(cellar.history) <= cellar.history
    ensures SameBut(cellar.kegs, old(cellar.kegs), Zone(t) + if r.Some? then {r.value} else {})
    ensures replaced ==> SameBut(cellar.kegs, old(cellar.kegs), {BackupId(t)})
    ensures forall i :: |old(cellar.history)| <= i < |cellar.history| ==>
              SameElsewhere(cellar.history[i], old(cellar.kegs), t.id.formula) && Kept(was, cellar.history[i], t, r)
    ensures SameElsewhere(cellar.kegs, old(cellar.kegs), t.id.formula)
  {
    BackupIsBackup(t.id, t.stamp);
    BackupDiffers(t.id, t.stamp);
    if r.Some? && r.value in cellar.kegs && cellar.kegs[r.value].receipt.Some? {
      if b.Moved? {
        var discarded := cellar.RemoveDirAll(b.backup, t.f.discard);
      }
      return true;
    }
    if r.Some? && r.value != t.id && r.value in cellar.kegs {
      var cleaned := cellar.RemoveDirAll(r.value, t.sweep);
    }
    RestoreKeg(cellar, t, b);
    return false;
  }

  /** The first targets have been dealt with: replaced as the plan left them, or put back. */
  ghost predicate Dealt(was: Kegs, done: Kegs, kegs: Kegs, targets: seq<Target>, backups: seq<Backup>, items: seq<Work>, out: seq<bool>) {
    && |out| <= |targets| == |backups|
    && (forall j :: 0 <= j < |out| ==> DealtAt(was, done, kegs, targets[j], Replacement(items, targets[j].name), out[j]))
    && (forall j :: |out| <= j < |targets| ==>
          Aside(was, kegs, targets[j], backups[j]) && SameThere(done, kegs, targets[j].id.formula))
  }

  ghost predicate DealtAt(was: Kegs, done: Kegs, kegs: Kegs, t: Target, r: Option<KegId>, replaced: bool) {
    && Kept(was, kegs, t, r) && replaced == Replaced(done, r)
    && if replaced then Get(kegs, r.value) == Get(done, r.value) else Restored(was, kegs, t)
  }

  lemma DealtNext(was: Kegs, done: Kegs, targets: seq<Target>, backups: seq<Backup>, items: seq<Work>, out: seq<bool>,
                  a: Kegs, b: Kegs, replaced: bool)
    requires WellPlanned(was, targets, items) && |out| < |targets| && Dealt(was, done, a, targets, backups, items, out)
    requires SameElsewhere(b, a, targets[|out|].id.formula)
    requires DealtAt(was, done, b, targets[|out|], Replacement(items, targets[|out|].name), replaced)
    ensures Dealt(was, done, b, targets, backups, items, out + [replaced])
  {
    var k, more := |out|, out + [replaced];
    forall j | 0 <= j < |targets| && j != k
      ensures targets[j].id.formula != targets[k].id.formula
    {
      FormulasDiffer(was, targets, items, j, k);
    }
    forall j | 0 <= j < |more|
      ensures DealtAt(was, done, b, targets[j], Replacement(items, targets[j].name), more[j])
    {
      if j < k {
        assert more[j] == out[j];
        ReplacementAt(was, targets, items, j);
        assert DealtAt(was, done, a, targets[j], Replacement(items, targets[j].name), out[j]);
      }
    }
    forall j | |more| <= j < |targets|
      ensures Aside(was, b, targets[j], backups[j]) && SameThere(done, b, targets[j].id.formula)
    {
      assert Aside(was, a, targets[j], backups[j]) && SameThere(done, a, targets[j].id.formula);
    }
  }

  lemma DealtIsKept(was: Kegs, done: Kegs, kegs: Kegs, targets: seq<Target>, backups: seq<Backup>, items: seq<Work>, out: seq<bool>)
    requires Dealt(was, done, kegs, targets, backups, items, out)
    ensures forall j :: 0 <= j < |targets| ==> Kept(was, kegs, targets[j], Replacement(items, targets[j].name))
  {
  }

  lemma DealtMeans(was: Kegs, done: Kegs, kegs: Kegs, targets: seq<Target>, backups: seq<Backup>, items: seq<Work>, out: seq<bool>)
    requires WellPlanned(was, targets, items) && Dealt(was, done, kegs, targets, backups, items, out) && |out| < |targets|
    ensures var t, r := targets[|out|], Replacement(items, targets[|out|].name);
            && Aside(was, kegs, t, backups[|out|]) && !IsBackup(t.id)
            && (r.Some? ==> r.value.formula == t.id.formula && !IsBackup(r.value))
            && (Replaced(kegs, r) <==> Replaced(done, r)) && (r.Some? ==> Get(kegs, r.value) == Get(done, r.value))
  {
  }

  /** Places of the plan and of the targets; nothing else changes in a reinstall. */
  ghost predicate Untouched(was: Kegs, kegs: Kegs, targets: seq<Target>, items: seq<Work>) {
    forall id :: (forall j :: 0 <= j < |targets| ==> id !in Zone(targets[j])) && (forall a :: 0 <= a < |items| ==> id !in Touches(items[a]))
      ==> Get(kegs, id) == Get(was, id)
  }

  lemma UntouchedGrows(was: Kegs, a: Kegs, b: Kegs, targets: seq<Target>, items: seq<Work>, k: nat)
    requires k < |targets| && Untouched(was, a, targets, items)
    requires var r := Replacement(items, targets[k].name); SameBut(b, a, Zone(targets[k]) + if r.Some? then {r.value} else {})
    ensures Untouched(was, b, targets, items)
  {
  }

  lemma UntouchedStart(was: Kegs, mid: Kegs, kegs: Kegs, targets: seq<Target>, items: seq<Work>)
    requires InZones(was, mid, targets) && InPlaces(mid, kegs, items)
    ensures Untouched(was, kegs, targets, items)
  {
  }

  /** What the place of an item holds once the old kegs are set aside. */
  function PlaceFor(was: Kegs, targets: seq<Target>, id: KegId): Option<Keg> {
    if exists j :: 0 <= j < |targets| && targets[j].id == id then None else Get(was, id)
  }

  lemma FreeForItems(was: Kegs, kegs: Kegs, targets: seq<Target>, backups: seq<Backup>, items: seq<Work>)
    requires WellPlanned(was, targets, items) && |backups| == |targets|
    requires HeldSoFar(was, kegs, targets, backups) && InZones(was, kegs, targets)
    ensures Executed(kegs, kegs, items, 0) && Backed(was, kegs, targets, backups)
    ensures forall a :: 0 <= a < |items| ==> Get(kegs, items[a].id) == PlaceFor(was, targets, items[a].id)
  {
    forall a | 0 <= a < |items|
      ensures Unclaimed(Get(kegs, items[a].id)) && Get(kegs, items[a].id) == PlaceFor(was, targets, items[a].id)
    {
      if exists j :: 0 <= j < |targets| && targets[j].id == items[a].id {
      } else {
        forall j | 0 <= j < |targets|
          ensures items[a].id !in Zone(targets[j])
        {
          BackupIsBackup(targets[j].id, targets[j].stamp);
        }
        assert Get(kegs, items[a].id) == Get(was, items[a].id);
      }
    }
  }

  ghost predicate AllFine(targets: seq<Target>, items: seq<Work>) {
    && (forall j :: 0 <= j < |targets| ==> Fine(targets[j].f))
    && (forall a :: 0 <= a < |items| ==> FineWork(items[a]))
  }

  /** Each target keeps its name reported. */
  lemma TargetNamed(was: Kegs, first: Kegs, done: Kegs, kegs: Kegs, targets: seq<Target>, backups: seq<Backup>, items: seq<Work>, out: seq<bool>, j: nat)
    requires WellPlanned(was, targets, items) && AllFine(targets, items) && Executed(first, done, items, |items|)
    requires Dealt(was, done, kegs, targets, backups, items, out) && |out| == |targets| && j < |targets|
    requires targets[j].id in was && ReportedName(targets[j].id, was[targets[j].id]).Some?
    ensures IsInstalled(kegs, targets[j].name)
  {
    var t, r := targets[j], Replacement(items, targets[j].name);
    assert DealtAt(was, done, kegs, t, r, out[j]);
    if out[j] {
      var a :| 0 <= a < |items| && items[a].name == t.name && items[a].id == r.value;
      assert ItemDone(first, done, items, a);
      ReplacementAt(was, targets, items, j);
      hide WellPlanned;
      assert r.value in kegs && ReportedName(r.value, kegs[r.value]) == Some(t.name);
    } else {
      assert Get(kegs, t.id) == Get(was, t.id);
      assert t.id in kegs && ReportedName(t.id, kegs[t.id]) == Some(t.name);
    }
  }

  lemma NamesSurvive(was: Kegs, first: Kegs, done: Kegs, kegs: Kegs, targets: seq<Target>, backups: seq<Backup>, items: seq<Work>, out: seq<bool>)
    requires WellPlanned(was, targets, items) && AllFine(targets, items) && Executed(first, done, items, |items|)
    requires Dealt(was, done, kegs, targets, backups, items, out) && |out| == |targets| && Untouched(was, kegs, targets, items)
    ensures NamesKept(was, kegs)
  {
    forall n | IsInstalled(was, n)
      ensures IsInstalled(kegs, n)
    {
      var e :| e in was && ReportedName(e, was[e]) == Some(n);
      if j :| 0 <= j < |targets| && targets[j].id == e {
        TargetNamed(was, first, done, kegs, targets, backups, items, out, j);
      } else {
        NotInPlan(was, targets, items, e);
        hide WellPlanned, Zone, Touches;
        assert Get(kegs, e) == Get(was, e);
        assert e in kegs && ReportedName(e, kegs[e]) == Some(n);
      }
    }
  }

  lemma NotInPlan(was: Kegs, targets: seq<Target>, items: seq<Work>, e: KegId)
    requires WellPlanned(was, targets, items) && e in was && ReportedName(e, was[e]).Some?
    requires forall j :: 0 <= j < |targets| ==> targets[j].id != e
    ensures forall j :: 0 <= j < |targets| ==> e !in Zone(targets[j])
    ensures forall a :: 0 <= a < |items| ==> e !in Touches(items[a])
  {
    forall j | 0 <= j < |targets|
      ensures e !in Zone(targets[j])
    {
      BackupIsBackup(targets[j].id, targets[j].stamp);
    }
    forall a | 0 <= a < |items|
      ensures e !in Touches(items[a])
    {
      assert !Unclaimed(Get(was, e));
      if items[a].SourceWork? {
        BackupIsBackup(items[a].id, items[a].stamp);
      }
    }
  }

  lemma NamesRestored(was: Kegs, kegs: Kegs, targets: seq<Target>, items: seq<Work>)
    requires WellPlanned(was, targets, items) && AllFine(targets, items) && InZones(was, kegs, targets)
    requires forall j :: 0 <= j < |targets| ==> Restored(was, kegs, targets[j])
    ensures NamesKept(was, kegs)
  {
    forall n | IsInstalled(was, n)
      ensures IsInstalled(kegs, n)
    {
      var e :| e in was && ReportedName(e, was[e]) == Some(n);
      if j :| 0 <= j < |targets| && targets[j].id == e {
        assert Restored(was, kegs, targets[j]);
      } else {
        NotInPlan(was, targets, items, e);
        hide WellPlanned, Zone;
      }
      assert Get(kegs, e) == Get(was, e);
      assert e in kegs && ReportedName(e, kegs[e]) == Some(n);
    }
  }

  /** The whole reinstall goes through. */
  ghost predicate Succeeds(was: Kegs, targets: seq<Target>, items: seq<Work>) {
    && (forall j :: 0 <= j < |targets| ==> CanStash(was, targets[j]))
    && (forall a :: 0 <= a < |items| ==> Goes(PlaceFor(was, targets, items[a].id), items[a]))
    && (forall j :: 0 <= j < |targets| ==> Replacement(items, targets[j].name).Some?)
  }

  /** Sets the old kegs aside, carries out the plan, and drops or restores each
      old keg. In every state on the way each old keg is in its place, in its
      backup, or replaced; and no installed name is lost, provided putting
      back works where it is needed. */
  method ReinstallFetched(cellar: Cellar, targets: seq<Target>, items: seq<Work>) returns (ok: bool, installed: nat)
    requires WellPlanned(cellar.kegs, targets, items)
    modifies cellar
    ensures AllKept(old(cellar.kegs), cellar.history, |old(cellar.history)|, targets, items)
    ensures forall j :: 0 <= j < |targets| ==> Settled(old(cellar.kegs), cellar.kegs, targets[j], Replacement(items, targets[j].name))
    ensures AllFine(targets, items) ==> NamesKept(old(cellar.kegs), cellar.kegs)
    ensures ok <==> Succeeds(old(cellar.kegs), targets, items)
    ensures ok ==> installed == |items|
    ensures ok ==> forall a :: 0 <= a < |items| ==> Complete(PlaceFor(old(cellar.kegs), targets, items[a].id), cellar.kegs, items[a])
    ensures ok ==> forall j :: 0 <= j < |targets| ==> Replaced(cellar.kegs, Replacement(items, targets[j].name))
  {
    hide WellPlanned, AllKept, Kept, HeldSoFar, InZones, Aside, Executed, Backed, InPlaces, Dealt, DealtAt, Untouched, NamesKept,
      AllFine, Restored, SameElsewhere, SameBut, Zone, Replacement, Touches, Goes, CanStash, Complete, PlaceFor;
    ghost var was, start := cellar.kegs, |cellar.history|;
    installed := 0;
    var stashed, backups := StashAll(cellar, targets, items);
    if !stashed {
      if AllFine(targets, items) {
        NamesRestored(was, cellar.kegs, targets, items);
      }
      return false, 0;
    }
    ghost var mid := cellar.kegs;
    FreeForItems(was, mid, targets, backups, items);
    installed, ok := ExecuteAll(cellar, items, was, targets, backups, start);
    ghost var done, out, executed := cellar.kegs, [], ok;
    UntouchedStart(was, mid, done, targets, items);
    DealtStart(was, done, targets, backups, items);
    var k := 0;
    while k < |targets|
      invariant k == |out| <= |targets| == |backups|
      invariant Dealt(was, done, cellar.kegs, targets, backups, items, out) && Untouched(was, cellar.kegs, targets, items)
      invariant AllKept(was, cellar.history, start, targets, items) && start <= |cellar.history|
      invariant ok <==> executed && forall j :: 0 <= j < k ==> out[j]
      invariant ok ==> SamePlaces(done, cellar.kegs, items)
    {
      ghost var before, middle, past := cellar.kegs, |cellar.history|, cellar.history;
      DealtMeans(was, done, before, targets, backups, items, out);
      DealtIsKept(was, done, before, targets, backups, items, out);
      var r := Replacement(items, targets[k].name);
      var replaced := SettleKeg(cellar, targets[k], backups[k], r, was);
      assert cellar.history[..middle] == past;
      KeptOn(was, targets, items, cellar.history, start, middle, before, k);
      UntouchedGrows(was, before, cellar.kegs, targets, items, k);
      assert DealtAt(was, done, cellar.kegs, targets[k], r, replaced) by {
        DealtNow(was, done, before, cellar.kegs, targets[k], r, replaced);
      }
      DealtNext(was, done, targets, backups, items, out, before, cellar.kegs, replaced);
      ghost var soFar := out;
      out := out + [replaced];
      assert out[k] == replaced && forall j :: 0 <= j < k ==> out[j] == soFar[j];
      if replaced {
        PlacesStay(was, targets, items, done, before, cellar.kegs, k);
      } else {
        ok := false;
      }
      k := k + 1;
    }
    DealtSettles(was, done, cellar.kegs, targets, backups, items, out);
    if executed {
      AllReplaced(was, mid, done, cellar.kegs, targets, backups, items, out);
    }
    if AllFine(targets, items) {
      NamesSurvive(was, mid, done, cellar.kegs, targets, backups, items, out);
    }
  }

  /** The items' places hold the same. */
  ghost predicate SamePlaces(a: Kegs, b: Kegs, items: seq<Work>) {
    forall i :: 0 <= i < |items| ==> Get(a, items[i].id) == Get(b, items[i].id)
  }

  lemma PlacesStay(was: Kegs, targets: seq<Target>, items: seq<Work>, done: Kegs, a: Kegs, b: Kegs, k: nat)
    requires WellPlanned(was, targets, items) && k < |targets| && SameBut(b, a, {BackupId(targets[k])})
    ensures SamePlaces(done, a, items) ==> SamePlaces(done, b, items)
  {
    BackupIsBackup(targets[k].id, targets[k].stamp);
    assert forall i :: 0 <= i < |items| ==> items[i].id != BackupId(targets[k]);
  }

  /** When every item went through, exactly the packages the plan mentions are replaced. */
  lemma AllReplaced(was: Kegs, first: Kegs, done: Kegs, kegs: Kegs, targets: seq<Target>, backups: seq<Backup>, items: seq<Work>, out: seq<bool>)
    requires Executed(first, done, items, |items|)
    requires AllGo(first, items, |items|)
    requires Dealt(was, done, kegs, targets, backups, items, out) && |out| == |targets|
    ensures forall j :: 0 <= j < |targets| ==> (out[j] <==> Replacement(items, targets[j].name).Some?)
    ensures SamePlaces(done, kegs, items) ==> forall a :: 0 <= a < |items| ==> Complete(Get(first, items[a].id), kegs, items[a])
  {
    forall a | 0 <= a < |items|
      ensures Complete(Get(first, items[a].id), done, items[a])
    {
      assert ItemDone(first, done, items, a);
    }
    forall j | 0 <= j < |targets|
      ensures out[j] <==> Replacement(items, targets[j].name).Some?
    {
      assert DealtAt(was, done, kegs, targets[j], Replacement(items, targets[j].name), out[j]);
    }
  }

  lemma DealtStart(was: Kegs, done: Kegs, targets: seq<Target>, backups: seq<Backup>, items: seq<Work>)
    requires Backed(was, done, targets, backups)
    ensures Dealt(was, done, done, targets, backups, items, [])
  {
  }

  lemma DealtNow(was: Kegs, done: Kegs, a: Kegs, b: Kegs, t: Target, r: Option<KegId>, replaced: bool)
    requires Kept(was, b, t, r) && (replaced <==> Replaced(a, r)) && (Replaced(a, r) <==> Replaced(done, r))
    requires r.Some? ==> Get(a, r.value) == Get(done, r.value) && !IsBackup(r.value)
    requires replaced ==> SameBut(b, a, {BackupId(t)})
    requires !replaced ==> Restored(was, b, t)
    ensures DealtAt(was, done, b, t, r, replaced)
  {
    BackupIsBackup(t.id, t.stamp);
  }

  lemma DealtSettles(was: Kegs, done: Kegs, kegs: Kegs, targets: seq<Target>, backups: seq<Backup>, items: seq<Work>, out: seq<bool>)
    requires Dealt(was, done, kegs, targets, backups, items, out) && |out| == |targets|
    ensures forall j :: 0 <= j < |targets| ==> Settled(was, kegs, targets[j], Replacement(items, targets[j].name))
    ensures forall j :: 0 <= j < |targets| && out[j] ==> Replaced(kegs, Replacement(items, targets[j].name))
  {
  }
}
