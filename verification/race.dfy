/** Several connections race for one blob: whoever passes the gate downloads
    the body, everybody else gives up or finds the blob in the cache. */
module Race {
  import opened Options

  type Bytes = seq<bv8>
  type Sha = string

  datatype Verdict = Delivered | Failed | Aborted

  datatype Phase =
    | Sleeping
    | Awake                                  // past the first look at the flag
    | Fetching
    | AtGate
    | Gated
    | Cleared                                // past the second look at the flag
    | Hit(gated: bool)                       // found the blob, flag not set yet
    | Body(file: nat, written: Bytes)        // streaming into temporary file `file`
    | Verified(file: nat, written: Bytes)    // the checksum matched
    | Renaming(file: nat, written: Bytes)    // saw no blob in place
    | Committed
    | Flagged
    | Ended(verdict: Verdict)

  datatype State = State(
    racers: seq<Phase>,
    gate: Option<nat>,
    done: bool,
    blob: Option<Bytes>,
    tmp: map<nat, Bytes>,
    commits: nat)

  datatype Event =
    | Wake(i: nat)
    | Look(i: nat)                           // has_blob before fetching
    | Answer(i: nat, ok: bool)               // the server's response, or none
    | Enter(i: nat)
    | Notified(i: nat)
    | Check(i: nat)                          // the flag, behind the gate
    | LookAgain(i: nat)
    | Start(i: nat, file: nat)
    | Write(i: nat, piece: Bytes)
    | Break(i: nat)                          // any failure while downloading
    | Verify(i: nat)
    | Publish(i: nat)                        // commit: is the blob already there?
    | Rename(i: nat, ok: bool)
    | Flag(i: nat)
    | Leave(i: nat)
    | Abort(i: nat)
    | Elsewhere(content: Bytes)              // another process commits the same blob

  predicate Holds(p: Phase) {
    p.Gated? || p.Cleared? || (p.Hit? && p.gated) || Writing(p) || p.Committed? || p.Flagged?
  }

  /** Owns a temporary file. */
  predicate Writing(p: Phase) {
    p.Body? || p.Verified? || p.Renaming?
  }

  predicate At(s: State, i: nat) {
    i < |s.racers|
  }

  predicate Enabled(s: State, e: Event, hash: Bytes -> Sha, key: Sha) {
    match e
    case Wake(i) => At(s, i) && s.racers[i].Sleeping?
    case Look(i) => At(s, i) && s.racers[i].Awake?
    case Answer(i, _) => At(s, i) && s.racers[i].Fetching?
    case Enter(i) => At(s, i) && s.racers[i].AtGate? && s.gate.None?
    case Notified(i) => At(s, i) && s.racers[i].AtGate? && s.done
    case Check(i) => At(s, i) && s.racers[i].Gated?
    case LookAgain(i) => At(s, i) && s.racers[i].Cleared? && s.blob.Some?
    case Start(i, file) => At(s, i) && s.racers[i].Cleared? && s.blob.None?
    case Write(i, _) => At(s, i) && s.racers[i].Body?
    case Break(i) => At(s, i) && (s.racers[i].Cleared? || s.racers[i].Body? || s.racers[i].Verified?)
    case Verify(i) => At(s, i) && s.racers[i].Body?
    case Publish(i) => At(s, i) && s.racers[i].Verified?
    case Rename(i, _) => At(s, i) && s.racers[i].Renaming?
    case Flag(i) => At(s, i) && (s.racers[i].Hit? || s.racers[i].Committed?)
    case Leave(i) => At(s, i) && s.racers[i].Flagged?
    case Abort(i) =>
      && At(s, i) && Ended(Delivered) in s.racers
      && (s.racers[i].Sleeping? || s.racers[i].Fetching? || s.racers[i].AtGate? || s.racers[i].Body?)
    case Elsewhere(content) => s.blob.None? && hash(content) == key
  }

  function Go(s: State, i: nat, p: Phase): State
    requires At(s, i)
  {
    s.(racers := s.racers[i := p])
  }

  /** The racer ends: its writer, if any, is dropped with its file, and the gate opens if it held it. */
  function Stop(s: State, i: nat, verdict: Verdict): State
    requires At(s, i)
  {
    var p := s.racers[i];
    s.(racers := s.racers[i := Ended(verdict)],
       gate := if Holds(p) then None else s.gate,
       tmp := if Writing(p) then s.tmp - {p.file} else s.tmp)
  }

  function Apply(s: State, e: Event, hash: Bytes -> Sha, key: Sha): State
    requires Enabled(s, e, hash, key)
  {
    match e
    case Wake(i) => if s.done then Stop(s, i, Failed) else Go(s, i, Awake)
    case Look(i) => if s.blob.Some? then Go(s, i, Hit(false)) else Go(s, i, Fetching)
    case Answer(i, ok) => if ok then Go(s, i, AtGate) else Stop(s, i, Failed)
    case Enter(i) => Go(s, i, Gated).(gate := Some(i))
    case Notified(i) => Stop(s, i, Failed)
    case Check(i) => if s.done then Stop(s, i, Failed) else Go(s, i, Cleared)
    case LookAgain(i) => Go(s, i, Hit(true))
    case Start(i, file) => Go(s, i, Body(file, [])).(tmp := s.tmp[file := []])
    case Write(i, piece) =>
      var p := s.racers[i];
      Go(s, i, Body(p.file, p.written + piece)).(
        tmp := if p.file in s.tmp then s.tmp[p.file := s.tmp[p.file] + piece] else s.tmp)
    case Break(i) => Stop(s, i, Failed)
    case Verify(i) =>
      var p := s.racers[i];
      if hash(p.written) == key then Go(s, i, Verified(p.file, p.written)) else Stop(s, i, Failed)
    case Publish(i) =>
      var p := s.racers[i];
      if s.blob.Some? then Go(s, i, Committed).(tmp := s.tmp - {p.file}) else Go(s, i, Renaming(p.file, p.written))
    case Rename(i, ok) =>
      var p := s.racers[i];
      if ok && p.file in s.tmp then
        Go(s, i, Committed).(blob := Some(s.tmp[p.file]), tmp := s.tmp - {p.file}, commits := s.commits + 1)
      else if s.blob.Some? then Go(s, i, Committed).(tmp := s.tmp - {p.file})
      else Stop(s, i, Failed)
    case Flag(i) =>
      if s.racers[i].Hit? then Stop(s, i, Delivered).(done := true) else Go(s, i, Flagged).(done := true)
    case Leave(i) => Stop(s, i, Delivered)
    case Abort(i) => Stop(s, i, Aborted)
    case Elsewhere(content) => s.(blob := Some(content))
  }

  predicate Init(s: State) {
    && s == State(s.racers, None, false, s.blob, map[], 0)
    && forall i :: 0 <= i < |s.racers| ==> s.racers[i].Sleeping?
  }

  ghost predicate Run(s: State, events: seq<Event>, t: State, hash: Bytes -> Sha, key: Sha)
    decreases |events|
  {
    if events == [] then s == t
    else
      var front, e := events[..|events| - 1], events[|events| - 1];
      exists u :: Run(s, front, u, hash, key) && Enabled(u, e, hash, key) && t == Apply(u, e, hash, key)
  }

  // What every run keeps.

  ghost predicate GateHeld(s: State) {
    && (forall i: nat :: At(s, i) ==> (Holds(s.racers[i]) <==> s.gate == Some(i)))
    && (s.gate.Some? ==> At(s, s.gate.value))
  }

  /** The only temporary file is the gate holder's, and it holds what has been hashed. */
  ghost predicate FilesMatch(s: State, hash: Bytes -> Sha, key: Sha) {
    && (forall i: nat :: At(s, i) && Writing(s.racers[i]) ==>
          && s.racers[i].file in s.tmp && s.tmp[s.racers[i].file] == s.racers[i].written
          && (!s.racers[i].Body? ==> hash(s.racers[i].written) == key))
    && (forall f :: f in s.tmp ==>
          && s.gate.Some? && At(s, s.gate.value)
          && Writing(s.racers[s.gate.value]) && s.racers[s.gate.value].file == f)
  }

  ghost predicate BlobGood(s: State, hash: Bytes -> Sha, key: Sha) {
    s.blob.Some? ==> hash(s.blob.value) == key
  }

  predicate Served(p: Phase) {
    p.Hit? || p.Committed? || p.Flagged? || p == Ended(Delivered)
  }

  ghost predicate BlobThere(s: State) {
    && (forall i: nat :: At(s, i) && Served(s.racers[i]) ==> s.blob.Some?)
    && (s.done ==> s.blob.Some?)
  }

  /** Once the race has committed, the flag is up or going up behind the gate. */
  ghost predicate CommitSeen(s: State) {
    && s.commits <= 1
    && (s.commits == 1 ==> s.blob.Some? && (s.done || (s.gate.Some? && At(s, s.gate.value) && s.racers[s.gate.value].Committed?)))
    && (forall i: nat :: At(s, i) && (s.racers[i].Cleared? || Writing(s.racers[i])) ==> s.commits == 0)
    && (forall i: nat :: At(s, i) && (s.racers[i].Flagged? || s.racers[i] == Ended(Delivered)) ==> s.done)
  }

  /** A commit is never lost: somebody is delivering it. */
  ghost predicate CommitServed(s: State) {
    s.commits == 1 ==> exists i: nat :: At(s, i) && Served(s.racers[i])
  }

  ghost predicate Inv(s: State, hash: Bytes -> Sha, key: Sha) {
    GateHeld(s) && FilesMatch(s, hash, key) && BlobGood(s, hash, key) && BlobThere(s) && CommitSeen(s) && CommitServed(s)
  }

  lemma InitInv(s: State, hash: Bytes -> Sha, key: Sha)
    requires Init(s) && BlobGood(s, hash, key)
    ensures Inv(s, hash, key)
  {
  }

  /** An event moves one racer and leaves the others alone. */
  lemma MovesOne(s: State, e: Event, hash: Bytes -> Sha, key: Sha, k: nat)
    requires Enabled(s, e, hash, key)
    ensures var t := Apply(s, e, hash, key);
            && |t.racers| == |s.racers|
            && (e.Elsewhere? || At(s, e.i))
            && (At(s, k) && (e.Elsewhere? || k != e.i) ==> t.racers[k] == s.racers[k])
  {
  }

  /** Only the mover can take the gate or give it back. */
  lemma GateMoves(s: State, e: Event, hash: Bytes -> Sha, key: Sha)
    requires Enabled(s, e, hash, key)
    ensures var t := Apply(s, e, hash, key);
            || (t.gate == s.gate && (!e.Elsewhere? ==> |t.racers| > e.i && (Holds(t.racers[e.i]) <==> Holds(s.racers[e.i]))))
            || (s.gate == None && !e.Elsewhere? && t.gate == Some(e.i) && |t.racers| > e.i && Holds(t.racers[e.i]))
            || (t.gate == None && !e.Elsewhere? && Holds(s.racers[e.i]) && |t.racers| > e.i && !Holds(t.racers[e.i]))
  {
  }

  lemma GateStep(s: State, e: Event, hash: Bytes -> Sha, key: Sha)
    requires GateHeld(s) && Enabled(s, e, hash, key)
    ensures GateHeld(Apply(s, e, hash, key))
  {
    var t := Apply(s, e, hash, key);
    forall i: nat | At(t, i)
      ensures Holds(t.racers[i]) <==> t.gate == Some(i)
    {
      MovesOne(s, e, hash, key, i);
      GateMoves(s, e, hash, key);
      hide Apply, Enabled, Holds;
    }
    MovesOne(s, e, hash, key, 0);
  }

  lemma FilesStep(s: State, e: Event, hash: Bytes -> Sha, key: Sha)
    requires GateHeld(s) && FilesMatch(s, hash, key) && Enabled(s, e, hash, key)
    ensures FilesMatch(Apply(s, e, hash, key), hash, key)
  {
    var t := Apply(s, e, hash, key);
    GateStep(s, e, hash, key);
    forall i: nat | At(t, i) && Writing(t.racers[i])
      ensures t.racers[i].file in t.tmp && t.tmp[t.racers[i].file] == t.racers[i].written
      ensures !t.racers[i].Body? ==> hash(t.racers[i].written) == key
    {
      MovesOne(s, e, hash, key, i);
    }
    forall f | f in t.tmp
      ensures t.gate.Some? && At(t, t.gate.value) && Writing(t.racers[t.gate.value]) && t.racers[t.gate.value].file == f
    {
      FileOwned(s, e, hash, key, f);
    }
  }

  lemma FileOwned(s: State, e: Event, hash: Bytes -> Sha, key: Sha, f: nat)
    requires GateHeld(s) && FilesMatch(s, hash, key) && Enabled(s, e, hash, key)
    requires f in Apply(s, e, hash, key).tmp
    ensures var t := Apply(s, e, hash, key);
            t.gate.Some? && At(t, t.gate.value) && Writing(t.racers[t.gate.value]) && t.racers[t.gate.value].file == f
  {
    if s.gate.Some? {
      MovesOne(s, e, hash, key, s.gate.value);
    }
  }

  lemma BlobStep(s: State, e: Event, hash: Bytes -> Sha, key: Sha)
    requires FilesMatch(s, hash, key) && BlobGood(s, hash, key) && BlobThere(s) && Enabled(s, e, hash, key)
    ensures BlobGood(Apply(s, e, hash, key), hash, key) && BlobThere(Apply(s, e, hash, key))
  {
  }

  lemma CommitStep(s: State, e: Event, hash: Bytes -> Sha, key: Sha)
    requires GateHeld(s) && CommitSeen(s) && Enabled(s, e, hash, key)
    ensures CommitSeen(Apply(s, e, hash, key))
  {
    var t := Apply(s, e, hash, key);
    forall i: nat | At(t, i)
      ensures t.racers[i].Cleared? || Writing(t.racers[i]) ==> t.commits == 0
      ensures t.racers[i].Flagged? || t.racers[i] == Ended(Delivered) ==> t.done
    {
      CommitStepAt(s, e, hash, key, i);
    }
    CommitFlag(s, e, hash, key);
    hide Enabled, Apply;
  }

  lemma CommitStepAt(s: State, e: Event, hash: Bytes -> Sha, key: Sha, i: nat)
    requires GateHeld(s) && CommitSeen(s) && Enabled(s, e, hash, key) && At(Apply(s, e, hash, key), i)
    ensures var t := Apply(s, e, hash, key);
            && (t.racers[i].Cleared? || Writing(t.racers[i]) ==> t.commits == 0)
            && (t.racers[i].Flagged? || t.racers[i] == Ended(Delivered) ==> t.done)
  {
    if !e.Elsewhere? && e.i == i {
      MoverSees(s, e, hash, key);
    } else {
      OthersSee(s, e, hash, key, i);
    }
  }

  lemma MoverSees(s: State, e: Event, hash: Bytes -> Sha, key: Sha)
    requires GateHeld(s) && CommitSeen(s) && Enabled(s, e, hash, key) && !e.Elsewhere?
    ensures var t := Apply(s, e, hash, key);
            && At(t, e.i)
            && (t.racers[e.i].Cleared? || Writing(t.racers[e.i]) ==> t.commits == 0)
            && (t.racers[e.i].Flagged? || t.racers[e.i] == Ended(Delivered) ==> t.done)
  {
    assert Holds(s.racers[e.i]) <==> s.gate == Some(e.i);
  }

  /** A commit happens behind the gate, so nobody else is writing then. */
  lemma OthersSee(s: State, e: Event, hash: Bytes -> Sha, key: Sha, i: nat)
    requires GateHeld(s) && CommitSeen(s) && Enabled(s, e, hash, key) && At(Apply(s, e, hash, key), i)
    requires e.Elsewhere? || e.i != i
    ensures var t := Apply(s, e, hash, key);
            && (t.racers[i].Cleared? || Writing(t.racers[i]) ==> t.commits == 0)
            && (t.racers[i].Flagged? || t.racers[i] == Ended(Delivered) ==> t.done)
  {
    MovesOne(s, e, hash, key, i);
    CommitsBehindGate(s, e, hash, key);
    hide Apply, Enabled;
    assert Holds(s.racers[i]) <==> s.gate == Some(i);
  }

  lemma CommitsBehindGate(s: State, e: Event, hash: Bytes -> Sha, key: Sha)
    requires GateHeld(s) && Enabled(s, e, hash, key)
    ensures Apply(s, e, hash, key).commits != s.commits ==> !e.Elsewhere? && s.gate == Some(e.i)
    ensures s.done ==> Apply(s, e, hash, key).done
  {
    if e.Rename? {
      assert Holds(s.racers[e.i]) <==> s.gate == Some(e.i);
    }
  }

  lemma CommitFlag(s: State, e: Event, hash: Bytes -> Sha, key: Sha)
    requires GateHeld(s) && CommitSeen(s) && Enabled(s, e, hash, key)
    ensures var t := Apply(s, e, hash, key);
            && t.commits <= 1
            && (t.commits == 1 ==> t.blob.Some? && (t.done || (t.gate.Some? && At(t, t.gate.value) && t.racers[t.gate.value].Committed?)))
  {
    if s.gate.Some? {
      MovesOne(s, e, hash, key, s.gate.value);
    }
    if e.Elsewhere? {
      assert s.commits == 1 ==> s.blob.Some?;
    } else {
      assert Holds(s.racers[e.i]) <==> s.gate == Some(e.i);
      assert e.Rename? ==> s.commits == 0;
    }
  }

  lemma ServedStep(s: State, e: Event, hash: Bytes -> Sha, key: Sha)
    requires CommitSeen(s) && CommitServed(s) && Enabled(s, e, hash, key)
    ensures CommitServed(Apply(s, e, hash, key))
  {
    var t := Apply(s, e, hash, key);
    if s.commits == 1 {
      var i: nat :| At(s, i) && Served(s.racers[i]);
      MovesOne(s, e, hash, key, i);
      assert At(t, i) && Served(t.racers[i]);
    } else if t.commits == 1 {
      assert At(t, e.i) && Served(t.racers[e.i]);
    }
  }

  /** Every step keeps the invariant. */
  lemma StepKeeps(s: State, e: Event, hash: Bytes -> Sha, key: Sha)
    requires Inv(s, hash, key) && Enabled(s, e, hash, key)
    ensures Inv(Apply(s, e, hash, key), hash, key)
  {
    hide *;
    InvParts(s, hash, key);
    GateStep(s, e, hash, key);
    FilesStep(s, e, hash, key);
    BlobStep(s, e, hash, key);
    CommitStep(s, e, hash, key);
    ServedStep(s, e, hash, key);
    InvWhole(Apply(s, e, hash, key), hash, key);
  }

  lemma InvParts(s: State, hash: Bytes -> Sha, key: Sha)
    requires Inv(s, hash, key)
    ensures GateHeld(s) && FilesMatch(s, hash, key) && BlobGood(s, hash, key) && BlobThere(s) && CommitSeen(s) && CommitServed(s)
  {
  }

  lemma InvWhole(s: State, hash: Bytes -> Sha, key: Sha)
    requires GateHeld(s) && FilesMatch(s, hash, key) && BlobGood(s, hash, key) && BlobThere(s) && CommitSeen(s) && CommitServed(s)
    ensures Inv(s, hash, key)
  {
  }

  lemma {:induction false} RunKeeps(s: State, events: seq<Event>, t: State, hash: Bytes -> Sha, key: Sha)
    requires Inv(s, hash, key) && Run(s, events, t, hash, key)
    ensures Inv(t, hash, key) && |t.racers| == |s.racers|
    decreases |events|
  {
    hide Inv, Enabled, Apply;
    if events != [] {
      var front, e := events[..|events| - 1], events[|events| - 1];
      var u :| Run(s, front, u, hash, key) && Enabled(u, e, hash, key) && t == Apply(u, e, hash, key);
      RunKeeps(s, front, u, hash, key);
      StepKeeps(u, e, hash, key);
      MovesOne(u, e, hash, key, 0);
    }
  }

  // The race as a whole.

  /** At any moment of any run at most one racer is behind the gate, a blob in
      place has the right checksum, nobody who reports success lacks it, at most
      one commit has happened, and whatever is committed gets reported. */
  lemma RaceIsSafe(s: State, events: seq<Event>, t: State, hash: Bytes -> Sha, key: Sha)
    requires Init(s) && BlobGood(s, hash, key) && Run(s, events, t, hash, key)
    ensures forall i: nat, j: nat :: At(t, i) && At(t, j) && Holds(t.racers[i]) && Holds(t.racers[j]) ==> i == j
    ensures t.blob.Some? ==> hash(t.blob.value) == key
    ensures Ended(Delivered) in t.racers ==> t.blob.Some?
    ensures t.commits <= 1
    ensures (forall i: nat :: At(t, i) ==> t.racers[i].Ended?) ==>
              t.tmp == map[] && t.gate.None? && (t.commits == 1 ==> Ended(Delivered) in t.racers)
  {
    InitInv(s, hash, key);
    RunKeeps(s, events, t, hash, key);
    InvIsSafe(t, hash, key);
  }

  lemma InvIsSafe(t: State, hash: Bytes -> Sha, key: Sha)
    requires Inv(t, hash, key)
    ensures forall i: nat, j: nat :: At(t, i) && At(t, j) && Holds(t.racers[i]) && Holds(t.racers[j]) ==> i == j
    ensures t.blob.Some? ==> hash(t.blob.value) == key
    ensures Ended(Delivered) in t.racers ==> t.blob.Some?
    ensures t.commits <= 1
    ensures (forall i: nat :: At(t, i) ==> t.racers[i].Ended?) ==>
              t.tmp == map[] && t.gate.None? && (t.commits == 1 ==> Ended(Delivered) in t.racers)
  {
  }

  /** No body download starts once the race has committed. */
  lemma NoStartAfterCommit(s: State, events: seq<Event>, t: State, hash: Bytes -> Sha, key: Sha, i: nat, file: nat)
    requires Init(s) && BlobGood(s, hash, key) && Run(s, events, t, hash, key) && Enabled(t, Start(i, file), hash, key)
    ensures t.commits == 0 && t.blob.None?
  {
    InitInv(s, hash, key);
    RunKeeps(s, events, t, hash, key);
  }

  /** What a commit puts in place is exactly what was hashed. */
  lemma CommitsWhatItHashed(s: State, events: seq<Event>, t: State, hash: Bytes -> Sha, key: Sha, i: nat)
    requires Init(s) && BlobGood(s, hash, key) && Run(s, events, t, hash, key)
    requires At(t, i) && t.racers[i].Renaming?
    ensures Enabled(t, Rename(i, true), hash, key)
    ensures var u := Apply(t, Rename(i, true), hash, key);
            u.commits == 1 && u.blob == Some(t.racers[i].written) && hash(u.blob.value) == key && u.tmp == map[]
  {
    InitInv(s, hash, key);
    RunKeeps(s, events, t, hash, key);
    var u := Apply(t, Rename(i, true), hash, key);
    assert forall f :: f in t.tmp ==> f == t.racers[i].file;
    assert u.tmp == map[];
  }
}
