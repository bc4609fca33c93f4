/** Installed kegs on disk and the operations that move them about. */
module Cellars {
  import opened Options
  import opened Names
  import opened Text

  datatype Receipt = Receipt(installName: Name, formulaName: Name, version: string)

  /** A keg directory: its files, and the receipt when there is a readable one. */
  datatype Keg = Keg(files: set<string>, receipt: Option<Receipt>)

  datatype KegId = KegId(formula: Name, version: string)

  type Kegs = map<KegId, Keg>

  function BackupMark(): string { ".upkg-backup-" }

  predicate IsBackup(id: KegId) {
    Find(id.version, BackupMark()).Some?
  }

  function BackupOf(id: KegId, stamp: string): KegId {
    KegId(id.formula, id.version + BackupMark() + stamp)
  }

  lemma BackupIsBackup(id: KegId, stamp: string)
    ensures IsBackup(BackupOf(id, stamp))
  {
    var s := id.version + BackupMark() + stamp;
    assert s[|id.version|..|id.version| + |BackupMark()|] == BackupMark();
    assert Occurs(s, BackupMark(), |id.version|);
  }

  // What counts as installed.

  /** The name a keg directory is reported under: its receipt's, or the
      directory's own for a keg left by somebody else; backups and empty
      directories are not reported. */
  function ReportedName(id: KegId, keg: Keg): Option<Name> {
    if IsBackup(id) then None
    else if keg.receipt.Some? then Some(keg.receipt.value.installName)
    else if keg.files != {} then Some(id.formula)
    else None
  }

  function ReportedVersion(id: KegId, keg: Keg): string {
    if keg.receipt.Some? then keg.receipt.value.version else id.version
  }

  ghost predicate IsInstalled(kegs: Kegs, name: Name) {
    exists id :: id in kegs && ReportedName(id, kegs[id]) == Some(name)
  }

  function VersionsOf(kegs: Kegs, name: Name): set<string> {
    set id | id in kegs && ReportedName(id, kegs[id]) == Some(name) :: ReportedVersion(id, kegs[id])
  }

  /** What a scan of the Cellar lists. */
  datatype Report = Report(name: Name, version: string)

  predicate ReportOf(kegs: Kegs, id: KegId, r: Report) {
    id in kegs && ReportedName(id, kegs[id]) == Some(r.name) && ReportedVersion(id, kegs[id]) == r.version
  }

  /** By name, and then by version. */
  predicate NotAfter(a: Report, b: Report) {
    Less(a.name, b.name) || (a.name == b.name && AtMost(a.version, b.version))
  }

  lemma NotAfterTotal(a: Report, b: Report)
    ensures NotAfter(a, b) || NotAfter(b, a)
  {
    LessTotal(a.name, b.name);
    LessTotal(a.version, b.version);
  }

  lemma NotAfterTransitive(a: Report, b: Report, c: Report)
    requires NotAfter(a, b) && NotAfter(b, c)
    ensures NotAfter(a, c)
  {
    if Less(a.name, b.name) && Less(b.name, c.name) {
      LessTransitive(a.name, b.name, c.name);
    }
    if Less(a.version, b.version) && Less(b.version, c.version) {
      LessTransitive(a.version, b.version, c.version);
    }
  }

  ghost predicate Sorted(s: seq<Report>) {
    forall i, j :: 0 <= i < j < |s| ==> NotAfter(s[i], s[j])
  }

  function InsertReport(s: seq<Report>, r: Report): (t: seq<Report>)
    ensures multiset(t) == multiset(s) + multiset{r}
  {
    if s == [] then [r]
    else if NotAfter(r, s[0]) then [r] + s
    else
      assert s == [s[0]] + s[1..];
      [s[0]] + InsertReport(s[1..], r)
  }

  lemma {:induction false} InsertKeepsOrder(s: seq<Report>, r: Report)
    requires Sorted(s)
    ensures Sorted(InsertReport(s, r))
  {
    if s != [] && !NotAfter(r, s[0]) {
      var rest := InsertReport(s[1..], r);
      InsertKeepsOrder(s[1..], r);
      NotAfterTotal(r, s[0]);
      forall x | x in rest
        ensures NotAfter(s[0], x)
      {
        assert x in multiset(rest);
        assert x == r || x in s[1..];
      }
    } else if s != [] {
      forall j | 0 <= j < |s|
        ensures NotAfter(r, s[j])
      {
        if j > 0 {
          NotAfterTransitive(r, s[0], s[j]);
        }
      }
    }
  }

  /** Everything the Cellar reports, by name and version; the directories are
      read in any order. */
  method ScanInstalled(kegs: Kegs) returns (out: seq<Report>)
    ensures forall r :: r in out <==> exists id :: ReportOf(kegs, id, r)
    ensures Sorted(out)
  {
    hide Sorted, ReportOf, ReportedName, ReportedVersion;
    var found: seq<Report> := [];
    NothingScanned(kegs);
    var todo := kegs.Keys;
    while todo != {}
      invariant todo <= kegs.Keys
      invariant forall r :: r in found <==> exists id :: id !in todo && ReportOf(kegs, id, r)
      decreases |todo|
    {
      var id :| id in todo;
      ghost var before, all := found, todo;
      todo := todo - {id};
      var name := ReportedName(id, kegs[id]);
      if name.Some? {
        found := found + [Report(name.value, ReportedVersion(id, kegs[id]))];
      }
      ScanStep(kegs, all, id, before, found);
    }
    out := SortReports(found);
  }

  method SortReports(found: seq<Report>) returns (out: seq<Report>)
    ensures Sorted(out) && multiset(out) == multiset(found)
    ensures forall r :: r in out <==> r in found
  {
    hide Sorted, InsertReport;
    out := [];
    assert Sorted(out) by { NothingToOrder(); }
    var i := 0;
    while i < |found|
      invariant i <= |found| && Sorted(out) && multiset(out) == multiset(found[..i])
    {
      assert found[..i + 1] == found[..i] + [found[i]];
      InsertKeepsOrder(out, found[i]);
      out := InsertReport(out, found[i]);
      i := i + 1;
    }
    assert found[..|found|] == found;
    forall r
      ensures r in out <==> r in found
    {
      assert r in multiset(out) <==> r in multiset(found);
    }
  }

  lemma NothingToOrder()
    ensures Sorted([])
  {
  }

  lemma NothingScanned(kegs: Kegs)
    ensures forall id, r :: id !in kegs.Keys ==> !ReportOf(kegs, id, r)
  {
  }

  lemma ScanStep(kegs: Kegs, todo: set<KegId>, id: KegId, before: seq<Report>, after: seq<Report>)
    requires id in todo && id in kegs
    requires forall r :: r in before <==> exists e :: e !in todo && ReportOf(kegs, e, r)
    requires after == if ReportedName(id, kegs[id]).Some?
                      then before + [Report(ReportedName(id, kegs[id]).value, ReportedVersion(id, kegs[id]))] else before
    ensures forall r :: r in after <==> exists e :: e !in todo - {id} && ReportOf(kegs, e, r)
  {
    forall r
      ensures r in after <==> r in before || ReportOf(kegs, id, r)
    {
    }
    hide ReportOf;
    forall r
      ensures r in after <==> exists e :: e !in todo - {id} && ReportOf(kegs, e, r)
    {
      if ReportOf(kegs, id, r) {
        assert id !in todo - {id};
      }
    }
  }

  /** The keg found for a name: of several versions the first in string order. */
  method FindInstalled(kegs: Kegs, name: Name) returns (version: Option<string>)
    ensures version.Some? <==> IsInstalled(kegs, name)
    ensures version.Some? ==> IsFirst(VersionsOf(kegs, name), version.value)
  {
    var installed := ScanInstalled(kegs);
    var i := 0;
    while i < |installed|
      invariant i <= |installed|
      invariant forall j :: 0 <= j < i ==> installed[j].name != name
    {
      if installed[i].name == name {
        FoundFirst(kegs, name, installed, i);
        return Some(installed[i].version);
      }
      i := i + 1;
    }
    NothingFound(kegs, name, installed);
    return None;
  }

  lemma FoundFirst(kegs: Kegs, name: Name, installed: seq<Report>, i: nat)
    requires i < |installed| && installed[i].name == name && Sorted(installed)
    requires forall j :: 0 <= j < i ==> installed[j].name != name
    requires forall r :: r in installed <==> exists id :: ReportOf(kegs, id, r)
    ensures IsInstalled(kegs, name) && IsFirst(VersionsOf(kegs, name), installed[i].version)
  {
    assert installed[i] in installed;
    var id :| ReportOf(kegs, id, installed[i]);
    LessAsymmetric(name, name);
    forall v | v in VersionsOf(kegs, name)
      ensures AtMost(installed[i].version, v)
    {
      var e :| e in kegs && ReportedName(e, kegs[e]) == Some(name) && ReportedVersion(e, kegs[e]) == v;
      assert ReportOf(kegs, e, Report(name, v));
      assert Report(name, v) in installed;
      var j :| 0 <= j < |installed| && installed[j] == Report(name, v);
      assert i < j ==> NotAfter(installed[i], installed[j]);
    }
  }

  lemma NothingFound(kegs: Kegs, name: Name, installed: seq<Report>)
    requires forall j :: 0 <= j < |installed| ==> installed[j].name != name
    requires forall r :: r in installed <==> exists id :: ReportOf(kegs, id, r)
    ensures !IsInstalled(kegs, name)
  {
    forall id | id in kegs && ReportedName(id, kegs[id]).Some?
      ensures ReportedName(id, kegs[id]) != Some(name)
    {
      var r := Report(ReportedName(id, kegs[id]).value, ReportedVersion(id, kegs[id]));
      assert ReportOf(kegs, id, r);
      assert r in installed;
    }
  }

  function Get(kegs: Kegs, id: KegId): Option<Keg> {
    if id in kegs then Some(kegs[id]) else None
  }

  /** Only the directories in `ids` may differ. */
  ghost predicate SameBut(a: Kegs, b: Kegs, ids: set<KegId>) {
    forall id :: id !in ids ==> Get(a, id) == Get(b, id)
  }

  class Cellar {
    var kegs: Kegs
    ghost var history: seq<Kegs>

    constructor (kegs: Kegs)
      ensures this.kegs == kegs && history == [kegs]
    {
      this.kegs := kegs;
      history := [kegs];
    }

    method Put(id: KegId, keg: Keg)
      modifies this
      ensures kegs == old(kegs)[id := keg] && history == old(history) + [kegs]
    {
      kegs := kegs[id := keg];
      history := history + [kegs];
    }

    /** Removes a directory; on failure a remainder stays behind. */
    method RemoveDirAll(id: KegId, remainder: Option<Keg>) returns (ok: bool)
      modifies this
      ensures ok == remainder.None?
      ensures kegs == if ok then old(kegs) - {id} else old(kegs)[id := remainder.value]
      ensures history == old(history) + [kegs]
    {
      ok := remainder.None?;
      kegs := if ok then kegs - {id} else kegs[id := remainder.value];
      history := history + [kegs];
    }

    method Rename(source: KegId, target: KegId, fails: bool) returns (ok: bool)
      modifies this
      ensures ok <==> !fails && source in old(kegs) && target !in old(kegs)
      ensures kegs == if ok then (old(kegs) - {source})[target := old(kegs)[source]] else old(kegs)
      ensures history == old(history) + [kegs]
    {
      ok := !fails && source in kegs && target !in kegs;
      if ok {
        kegs := (kegs - {source})[target := kegs[source]];
      }
      history := history + [kegs];
    }
  }
}
