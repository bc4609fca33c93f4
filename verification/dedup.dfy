/** Concurrent downloads: one leader per checksum, followers that wait for its
    result, chunk tasks, and the permits they all draw from. */
module Dedup {
  import opened Sums

  type Sha = string

  datatype Outcome = Got(path: string) | Failed(message: string)

  datatype Phase =
    | Calling
    | Following(leader: nat)                 // subscribed to the channel the leader opened
    | NeedPermit
    | Running
    | Chunking(from: nat, to: nat)           // waiting for the chunk tasks from..to
    | Finished(result: Outcome)
    | Published(result: Outcome)             // taken off the map and sent, permit still held
    | Done(result: Outcome, leader: nat)

  /** `urls`: how many more URLs are left to try. */
  datatype Caller = Caller(sha: Sha, urls: nat, phase: Phase)

  datatype Task = Queued | Fetching | Sent | Over(delivered: bool)

  /** A channel is named by the caller who opened it; `sent` holds what went through it. */
  datatype State = State(
    callers: seq<Caller>,
    tasks: seq<Task>,
    inflight: map<Sha, nat>,
    sent: map<nat, Outcome>,
    free: nat)

  datatype Event =
    | Call(i: nat)
    | Acquire(i: nat)
    | Finish(i: nat, result: Outcome)
    | NextUrl(i: nat)
    | Spawn(i: nat, n: nat)
    | ChunksOk(i: nat, path: string)
    | ChunksFail(i: nat, message: string)
    | Publish(i: nat)
    | Return(i: nat)
    | Receive(i: nat)
    | TaskAcquire(t: nat)
    | TaskSend(t: nat)
    | TaskEnd(t: nat)
    | TaskFail(t: nat)

  predicate AllOver(tasks: seq<Task>, from: nat, to: nat) {
    from <= to <= |tasks| && forall t :: from <= t < to ==> tasks[t].Over?
  }

  predicate Delivered(t: Task) {
    t.Sent? || (t.Over? && t.delivered)
  }

  predicate AllDelivered(tasks: seq<Task>, from: nat, to: nat) {
    from <= to <= |tasks| && forall t :: from <= t < to ==> tasks[t] == Over(true)
  }

  predicate SomeDelivered(tasks: seq<Task>, from: nat, to: nat) {
    from <= to <= |tasks| && exists t :: from <= t < to && Delivered(tasks[t])
  }

  predicate At(s: State, i: nat) {
    i < |s.callers|
  }

  predicate Enabled(s: State, e: Event) {
    match e
    case Call(i) => At(s, i) && s.callers[i].phase.Calling?
    case Acquire(i) => At(s, i) && s.callers[i].phase.NeedPermit? && s.free > 0
    case Finish(i, _) => At(s, i) && s.callers[i].phase.Running?
    case NextUrl(i) => At(s, i) && s.callers[i].phase.Running? && s.callers[i].urls > 0
    case Spawn(i, n) => At(s, i) && s.callers[i].phase.Running? && n > 0
    case ChunksOk(i, _) =>
      At(s, i) && s.callers[i].phase.Chunking? && AllDelivered(s.tasks, s.callers[i].phase.from, s.callers[i].phase.to)
    case ChunksFail(i, _) =>
      At(s, i) && s.callers[i].phase.Chunking?
      && (|| AllOver(s.tasks, s.callers[i].phase.from, s.callers[i].phase.to)
          || SomeDelivered(s.tasks, s.callers[i].phase.from, s.callers[i].phase.to))
    case Publish(i) => At(s, i) && s.callers[i].phase.Finished?
    case Return(i) => At(s, i) && s.callers[i].phase.Published?
    case Receive(i) => At(s, i) && s.callers[i].phase.Following? && s.callers[i].phase.leader in s.sent
    case TaskAcquire(t) => t < |s.tasks| && s.tasks[t].Queued? && s.free > 0
    case TaskSend(t) => t < |s.tasks| && s.tasks[t].Fetching?
    case TaskEnd(t) => t < |s.tasks| && s.tasks[t].Sent?
    case TaskFail(t) => t < |s.tasks| && s.tasks[t].Fetching?
  }

  function Move(s: State, i: nat, phase: Phase): seq<Caller>
    requires At(s, i)
  {
    s.callers[i := s.callers[i].(phase := phase)]
  }

  function Apply(s: State, e: Event): State
    requires Enabled(s, e)
  {
    match e
    case Call(i) =>
      var sha := s.callers[i].sha;
      if sha in s.inflight then s.(callers := Move(s, i, Following(s.inflight[sha])))
      else s.(callers := Move(s, i, NeedPermit), inflight := s.inflight[sha := i])
    case Acquire(i) => s.(callers := Move(s, i, Running), free := s.free - 1)
    case Finish(i, r) => s.(callers := Move(s, i, Finished(r)))
    case NextUrl(i) => s.(callers := s.callers[i := s.callers[i].(urls := s.callers[i].urls - 1)])
    case Spawn(i, n) =>
      s.(callers := Move(s, i, Chunking(|s.tasks|, |s.tasks| + n)), tasks := s.tasks + seq(n, _ => Queued))
    case ChunksOk(i, path) => s.(callers := Move(s, i, Finished(Got(path))))
    case ChunksFail(i, message) =>
      if s.callers[i].urls > 0 then
        s.(callers := s.callers[i := s.callers[i].(urls := s.callers[i].urls - 1, phase := Running)])
      else s.(callers := Move(s, i, Finished(Failed(message))))
    case Publish(i) =>
      var r := s.callers[i].phase.result;
      s.(callers := Move(s, i, Published(r)), inflight := s.inflight - {s.callers[i].sha}, sent := s.sent[i := r])
    case Return(i) => s.(callers := Move(s, i, Done(s.callers[i].phase.result, i)), free := s.free + 1)
    case Receive(i) =>
      var l := s.callers[i].phase.leader;
      s.(callers := Move(s, i, Done(s.sent[l], l)))
    case TaskAcquire(t) => s.(tasks := s.tasks[t := Fetching], free := s.free - 1)
    case TaskSend(t) => s.(tasks := s.tasks[t := Sent])
    case TaskEnd(t) => s.(tasks := s.tasks[t := Over(true)], free := s.free + 1)
    case TaskFail(t) => s.(tasks := s.tasks[t := Over(false)], free := s.free + 1)
  }

  predicate Init(s: State, concurrency: nat) {
    && s == State(s.callers, [], map[], map[], concurrency)
    && forall i :: 0 <= i < |s.callers| ==> s.callers[i].phase.Calling?
  }

  /** What a run of events makes of a state. */
  ghost predicate Run(s: State, events: seq<Event>, t: State)
    decreases |events|
  {
    if events == [] then s == t
    else
      var front, e := events[..|events| - 1], events[|events| - 1];
      exists u :: Run(s, front, u) && Enabled(u, e) && t == Apply(u, e)
  }

  // What every run keeps.

  /** The leader of its checksum, not yet published. */
  predicate Leading(p: Phase) {
    p.NeedPermit? || p.Running? || p.Chunking? || p.Finished?
  }

  function Permits(c: Caller): nat {
    if c.phase.Running? || c.phase.Chunking? || c.phase.Finished? || c.phase.Published? then 1 else 0
  }

  function TaskPermits(t: Task): nat {
    if t.Fetching? || t.Sent? then 1 else 0
  }

  ghost predicate PermitsAddUp(s: State, concurrency: nat) {
    Sum(s.callers, Permits) + Sum(s.tasks, TaskPermits) + s.free == concurrency
  }

  /** The map names exactly the leaders. */
  ghost predicate MapIsLeaders(s: State) {
    && (forall sha :: sha in s.inflight ==>
          At(s, s.inflight[sha]) && s.callers[s.inflight[sha]].sha == sha && Leading(s.callers[s.inflight[sha]].phase))
    && (forall i: nat :: At(s, i) && Leading(s.callers[i].phase) ==>
          s.callers[i].sha in s.inflight && s.inflight[s.callers[i].sha] == i)
  }

  /** What went through a channel is its leader's result, and it went through when the leader published. */
  ghost predicate SentIsResult(s: State) {
    && (forall l :: l in s.sent ==>
          At(s, l) && (s.callers[l].phase == Published(s.sent[l]) || s.callers[l].phase == Done(s.sent[l], l)))
    && (forall i: nat :: At(s, i) && s.callers[i].phase.Published? ==> i in s.sent)
  }

  ghost predicate FollowersServed(s: State) {
    && (forall i: nat :: At(s, i) && s.callers[i].phase.Following? ==>
          var l := s.callers[i].phase.leader;
          At(s, l) && s.callers[l].sha == s.callers[i].sha && (Leading(s.callers[l].phase) || l in s.sent))
    && (forall i: nat :: At(s, i) && s.callers[i].phase.Done? ==>
          var l := s.callers[i].phase.leader;
          l in s.sent && s.callers[i].phase.result == s.sent[l] && At(s, l) && s.callers[l].sha == s.callers[i].sha)
  }

  ghost predicate BatchesExist(s: State) {
    forall i: nat :: At(s, i) && s.callers[i].phase.Chunking? ==> s.callers[i].phase.from < s.callers[i].phase.to <= |s.tasks|
  }

  ghost predicate Inv(s: State, concurrency: nat) {
    PermitsAddUp(s, concurrency) && MapIsLeaders(s) && SentIsResult(s) && FollowersServed(s) && BatchesExist(s)
  }

  lemma InitInv(s: State, concurrency: nat)
    requires Init(s, concurrency)
    ensures Inv(s, concurrency)
  {
    SumZero(s.callers, Permits);
  }

  lemma PermitsStep(s: State, e: Event, concurrency: nat)
    requires PermitsAddUp(s, concurrency) && Enabled(s, e)
    ensures PermitsAddUp(Apply(s, e), concurrency)
  {
    if OnTask(e) {
      TaskSum(s, e, TaskPermits);
    } else {
      CallerSum(s, e, Permits);
      if e.Spawn? {
        var more := seq(e.n, _ => Queued);
        SumZero(more, TaskPermits);
        SumAppend(s.tasks, more, TaskPermits);
      }
    }
    hide Sum, AllOver, AllDelivered, SomeDelivered;
  }

  predicate OnTask(e: Event) {
    e.TaskAcquire? || e.TaskSend? || e.TaskEnd? || e.TaskFail?
  }

  /** How an event changes a sum over the callers or over the tasks. */
  lemma CallerSum(s: State, e: Event, f: Caller -> nat)
    requires Enabled(s, e) && !OnTask(e)
    ensures |Apply(s, e).callers| == |s.callers| && At(s, e.i)
    ensures Sum(Apply(s, e).callers, f) + f(s.callers[e.i]) == Sum(s.callers, f) + f(Apply(s, e).callers[e.i])
  {
    var t := Apply(s, e);
    SumUpdate(s.callers, e.i, t.callers[e.i], f);
    hide Sum;
    assert t.callers == s.callers[e.i := t.callers[e.i]];
  }

  lemma TaskSum(s: State, e: Event, f: Task -> nat)
    requires Enabled(s, e) && OnTask(e)
    ensures |Apply(s, e).tasks| == |s.tasks| && e.t < |s.tasks|
    ensures Sum(Apply(s, e).tasks, f) + f(s.tasks[e.t]) == Sum(s.tasks, f) + f(Apply(s, e).tasks[e.t])
  {
    var t := Apply(s, e);
    SumUpdate(s.tasks, e.t, t.tasks[e.t], f);
    hide Sum;
    assert t.tasks == s.tasks[e.t := t.tasks[e.t]];
  }

  /** The one caller an event moves; the others stay as they are. */
  lemma MovesOne(s: State, e: Event, k: nat)
    requires Enabled(s, e)
    ensures var t := Apply(s, e);
            && |t.callers| == |s.callers|
            && (At(s, k) ==> t.callers[k].sha == s.callers[k].sha)
            && (At(s, k) && t.callers[k].phase != s.callers[k].phase ==> !OnTask(e) && k == e.i)
  {
  }

  lemma MapStep(s: State, e: Event)
    requires MapIsLeaders(s) && Enabled(s, e)
    ensures MapIsLeaders(Apply(s, e))
  {
    var t := Apply(s, e);
    forall sha | sha in t.inflight
      ensures At(t, t.inflight[sha]) && t.callers[t.inflight[sha]].sha == sha && Leading(t.callers[t.inflight[sha]].phase)
    {
      MovesOne(s, e, t.inflight[sha]);
    }
    forall i: nat | At(t, i) && Leading(t.callers[i].phase)
      ensures t.callers[i].sha in t.inflight && t.inflight[t.callers[i].sha] == i
    {
      MovesOne(s, e, i);
    }
  }

  lemma SentStep(s: State, e: Event)
    requires SentIsResult(s) && Enabled(s, e)
    ensures SentIsResult(Apply(s, e))
  {
  }

  lemma FollowersStep(s: State, e: Event)
    requires MapIsLeaders(s) && SentIsResult(s) && FollowersServed(s) && Enabled(s, e)
    ensures FollowersServed(Apply(s, e))
  {
    var t := Apply(s, e);
    forall i: nat | At(t, i) && t.callers[i].phase.Following?
      ensures var l := t.callers[i].phase.leader;
              At(t, l) && t.callers[l].sha == t.callers[i].sha && (Leading(t.callers[l].phase) || l in t.sent)
    {
      FollowingStep(s, e, i);
    }
    forall i: nat | At(t, i) && t.callers[i].phase.Done?
      ensures var l := t.callers[i].phase.leader;
              l in t.sent && t.callers[i].phase.result == t.sent[l] && At(t, l) && t.callers[l].sha == t.callers[i].sha
    {
      DoneStep(s, e, i);
    }
  }

  lemma FollowingStep(s: State, e: Event, i: nat)
    requires MapIsLeaders(s) && FollowersServed(s) && Enabled(s, e)
    requires At(Apply(s, e), i) && Apply(s, e).callers[i].phase.Following?
    ensures var t := Apply(s, e);
            var l := t.callers[i].phase.leader;
            At(t, l) && t.callers[l].sha == t.callers[i].sha && (Leading(t.callers[l].phase) || l in t.sent)
  {
    MovesOne(s, e, i);
    MovesOne(s, e, Apply(s, e).callers[i].phase.leader);
  }

  lemma DoneStep(s: State, e: Event, i: nat)
    requires SentIsResult(s) && FollowersServed(s) && Enabled(s, e)
    requires At(Apply(s, e), i) && Apply(s, e).callers[i].phase.Done?
    ensures var t := Apply(s, e);
            var l := t.callers[i].phase.leader;
            l in t.sent && t.callers[i].phase.result == t.sent[l] && At(t, l) && t.callers[l].sha == t.callers[i].sha
  {
    MovesOne(s, e, i);
    MovesOne(s, e, Apply(s, e).callers[i].phase.leader);
  }

  lemma BatchesStep(s: State, e: Event)
    requires BatchesExist(s) && Enabled(s, e)
    ensures BatchesExist(Apply(s, e))
  {
  }

  /** Every step keeps the invariant. */
  lemma StepKeeps(s: State, e: Event, concurrency: nat)
    requires Inv(s, concurrency) && Enabled(s, e)
    ensures Inv(Apply(s, e), concurrency)
  {
    PermitsStep(s, e, concurrency);
    MapStep(s, e);
    SentStep(s, e);
    FollowersStep(s, e);
    BatchesStep(s, e);
  }

  lemma {:induction false} RunKeeps(s: State, events: seq<Event>, t: State, concurrency: nat)
    requires Inv(s, concurrency) && Run(s, events, t)
    ensures Inv(t, concurrency)
    decreases |events|
  {
    hide Inv, Enabled, Apply;
    if events != [] {
      var front, e := events[..|events| - 1], events[|events| - 1];
      var u :| Run(s, front, u) && Enabled(u, e) && t == Apply(u, e);
      RunKeeps(s, front, u, concurrency);
      StepKeeps(u, e, concurrency);
    }
  }

  // Single flight.

  /** At most one leader per checksum, and the map holds a checksum exactly while it has one. */
  lemma OneLeader(s: State, concurrency: nat, sha: Sha)
    requires Inv(s, concurrency)
    ensures sha in s.inflight <==> exists i: nat :: At(s, i) && s.callers[i].sha == sha && Leading(s.callers[i].phase)
    ensures forall i: nat, j: nat ::
              At(s, i) && At(s, j) && Leading(s.callers[i].phase) && Leading(s.callers[j].phase) ==>
                s.callers[i].sha == s.callers[j].sha ==> i == j
  {
  }

  /** Whoever is done holds what the leader of its checksum published, be it that leader or a follower. */
  lemma DoneHasLeadersResult(s: State, concurrency: nat, i: nat)
    requires Inv(s, concurrency) && At(s, i) && s.callers[i].phase.Done?
    ensures var r, l := s.callers[i].phase.result, s.callers[i].phase.leader;
            && At(s, l) && s.callers[l].sha == s.callers[i].sha
            && (s.callers[l].phase == Published(r) || s.callers[l].phase == Done(r, l))
  {
  }

  predicate Subscribed(s: State, i: nat, l: nat) {
    At(s, i) && (s.callers[i].phase == Following(l) || (s.callers[i].phase.Done? && s.callers[i].phase.leader == l))
  }

  /** A subscription never changes hands, and a sent result is never replaced. */
  lemma StepKeepsSubscription(s: State, e: Event, concurrency: nat, i: nat, l: nat)
    requires Inv(s, concurrency) && Enabled(s, e) && Subscribed(s, i, l)
    ensures Subscribed(Apply(s, e), i, l)
    ensures forall k :: k in s.sent ==> k in Apply(s, e).sent && Apply(s, e).sent[k] == s.sent[k]
  {
    assert e.Publish? ==> e.i !in s.sent;
    hide PermitsAddUp, MapIsLeaders, FollowersServed, BatchesExist;
  }

  /** A follower ends with the result of exactly the leader it subscribed to, however the run goes on. */
  lemma {:induction false} FollowerGetsLeadersResult(s: State, events: seq<Event>, t: State, concurrency: nat, i: nat, l: nat)
    requires Inv(s, concurrency) && Run(s, events, t) && At(s, i) && s.callers[i].phase == Following(l)
    ensures At(t, i) && (t.callers[i].phase == Following(l) || (l in t.sent && t.callers[i].phase == Done(t.sent[l], l)))
    ensures l in t.sent ==> At(t, l) && (t.callers[l].phase == Published(t.sent[l]) || t.callers[l].phase == Done(t.sent[l], l))
  {
    SubscriptionLasts(s, events, t, concurrency, i, l);
    RunKeeps(s, events, t, concurrency);
  }

  lemma {:induction false} SubscriptionLasts(s: State, events: seq<Event>, t: State, concurrency: nat, i: nat, l: nat)
    requires Inv(s, concurrency) && Run(s, events, t) && Subscribed(s, i, l)
    ensures Subscribed(t, i, l)
    decreases |events|
  {
    hide Inv, Enabled, Apply, Subscribed;
    if events != [] {
      var front, e := events[..|events| - 1], events[|events| - 1];
      var u :| Run(s, front, u) && Enabled(u, e) && t == Apply(u, e);
      SubscriptionLasts(s, front, u, concurrency, i, l);
      RunKeeps(s, front, u, concurrency);
      StepKeepsSubscription(u, e, concurrency, i, l);
    }
  }

  // Progress.

  predicate Settled(s: State) {
    && (forall i :: 0 <= i < |s.callers| ==> s.callers[i].phase.Done?)
    && (forall t :: 0 <= t < |s.tasks| ==> s.tasks[t].Over?)
  }

  /** A leader that waits for chunks of its own that are not all in. */
  function Waiting(tasks: seq<Task>): Caller -> nat {
    (c: Caller) => if c.phase.Chunking? && !AllOver(tasks, c.phase.from, c.phase.to) then 1 else 0
  }

  /** A step that needs no new failure of the network or of the data. */
  predicate Sound(s: State, e: Event) {
    match e
    case Finish(_, r) => r.Got?
    case NextUrl(_) => false
    case ChunksFail(i, _) =>
      At(s, i) && s.callers[i].phase.Chunking? && AllOver(s.tasks, s.callers[i].phase.from, s.callers[i].phase.to)
    case TaskFail(_) => false
    case _ => true
  }

  ghost predicate CanStep(s: State) {
    exists e :: Sound(s, e) && Enabled(s, e)
  }

  lemma TaskSteps(s: State, t: nat)
    requires t < |s.tasks| && !s.tasks[t].Over? && (s.tasks[t].Queued? ==> s.free > 0)
    ensures CanStep(s)
  {
    var e := if s.tasks[t].Queued? then TaskAcquire(t) else if s.tasks[t].Fetching? then TaskSend(t) else TaskEnd(t);
    assert Sound(s, e) && Enabled(s, e);
  }

  /** A caller that holds a permit and does not wait for chunks can go on. */
  lemma HolderSteps(s: State, i: nat)
    requires At(s, i) && Permits(s.callers[i]) > Waiting(s.tasks)(s.callers[i])
    ensures CanStep(s)
  {
    match s.callers[i].phase
    case Running => assert Enabled(s, Finish(i, Got(""))) && Sound(s, Finish(i, Got("")));
    case Chunking(from, to) =>
      var e := if AllDelivered(s.tasks, from, to) then ChunksOk(i, "") else ChunksFail(i, "");
      assert Enabled(s, e) && Sound(s, e);
    case Finished(_) => assert Enabled(s, Publish(i)) && Sound(s, Publish(i));
    case Published(_) => assert Enabled(s, Return(i)) && Sound(s, Return(i));
  }

  /** With a permit to spare every unfinished caller, or someone it waits for, can step. */
  lemma CallerSteps(s: State, concurrency: nat, i: nat)
    requires Inv(s, concurrency) && s.free > 0 && At(s, i) && !s.callers[i].phase.Done? && !s.callers[i].phase.Following?
    ensures CanStep(s)
  {
    var c := s.callers[i];
    if c.phase.Calling? {
      assert Enabled(s, Call(i)) && Sound(s, Call(i));
    } else if c.phase.NeedPermit? {
      assert Enabled(s, Acquire(i)) && Sound(s, Acquire(i));
    } else if Waiting(s.tasks)(c) == 1 {
      var t :| c.phase.from <= t < c.phase.to && !s.tasks[t].Over?;
      TaskSteps(s, t);
    } else {
      HolderSteps(s, i);
    }
  }

  /** While fewer than `concurrency` leaders wait for their own chunks, something can step. */
  lemma Progress(s: State, concurrency: nat)
    requires Inv(s, concurrency) && !Settled(s)
    requires Sum(s.callers, Waiting(s.tasks)) < concurrency
    ensures CanStep(s)
  {
    if s.free == 0 {
      if Sum(s.tasks, TaskPermits) > 0 {
        var t := SumPositive(s.tasks, TaskPermits);
        TaskSteps(s, t);
      } else {
        var i := SumExceeds(s.callers, Permits, Waiting(s.tasks));
        HolderSteps(s, i);
      }
    } else if t :| 0 <= t < |s.tasks| && !s.tasks[t].Over? {
      TaskSteps(s, t);
    } else {
      var i: nat :| i < |s.callers| && !s.callers[i].phase.Done?;
      var p := s.callers[i].phase;
      if p.Following? && p.leader in s.sent {
        assert Enabled(s, Receive(i)) && Sound(s, Receive(i));
      } else {
        CallerSteps(s, concurrency, if p.Following? then p.leader else i);
      }
    }
  }

  /** Every permit is held by a leader none of whose chunks has got one. */
  predicate Jammed(s: State) {
    && s.free == 0
    && (forall t :: 0 <= t < |s.tasks| ==> TaskPermits(s.tasks[t]) == 0)
    && (forall i :: 0 <= i < |s.callers| && Permits(s.callers[i]) > 0 ==> Stalled(s, s.callers[i]))
  }

  predicate Stalled(s: State, c: Caller) {
    && c.phase.Chunking? && c.phase.from < c.phase.to <= |s.tasks|
    && forall t :: c.phase.from <= t < c.phase.to ==> s.tasks[t].Queued?
  }

  function StalledCount(tasks: seq<Task>): Caller -> nat {
    (c: Caller) => if Stalled(State([], tasks, map[], map[], 0), c) then 1 else 0
  }

  /** That is so exactly when as many leaders as there are permits are stalled. */
  lemma JammedIsFull(s: State, concurrency: nat)
    requires Inv(s, concurrency)
    ensures Jammed(s) <==> Sum(s.callers, StalledCount(s.tasks)) == concurrency
  {
    var f := StalledCount(s.tasks);
    SumAtMost(s.callers, f, Permits);
    if Jammed(s) {
      SumZero(s.tasks, TaskPermits);
      SumAtMost(s.callers, Permits, f);
    } else if Sum(s.callers, f) == concurrency {
      FullIsJammed(s, concurrency);
    }
  }

  lemma FullIsJammed(s: State, concurrency: nat)
    requires PermitsAddUp(s, concurrency) && Sum(s.callers, StalledCount(s.tasks)) == concurrency
    ensures Jammed(s)
  {
    var f := StalledCount(s.tasks);
    SumAtMost(s.callers, f, Permits);
    hide Stalled, Sum;
    forall t | 0 <= t < |s.tasks|
      ensures TaskPermits(s.tasks[t]) == 0
    {
      SumAtLeast(s.tasks, t, TaskPermits);
    }
    forall i | 0 <= i < |s.callers| && Permits(s.callers[i]) > 0
      ensures Stalled(s, s.callers[i])
    {
      var idle := s.callers[i].(phase := Calling);
      SumUpdate(s.callers, i, idle, Permits);
      SumUpdate(s.callers, i, idle, f);
      SumAtMost(s.callers[i := idle], f, Permits);
      assert f(s.callers[i]) > 0;
      SameStalled(s, s.callers[i]);
    }
  }

  lemma SameStalled(s: State, c: Caller)
    ensures StalledCount(s.tasks)(c) > 0 <==> Stalled(s, c)
  {
  }

  /** A jam never clears: no event of any kind lets one of the stalled leaders go on. */
  lemma JamStays(s: State, e: Event)
    requires Jammed(s) && Enabled(s, e)
    ensures Jammed(Apply(s, e)) && |Apply(s, e).callers| == |s.callers|
    ensures forall i: nat :: At(s, i) && Permits(s.callers[i]) > 0 ==> Apply(s, e).callers[i] == s.callers[i]
  {
    JamAllows(s, e);
    var i := e.i;
    assert Permits(s.callers[i]) == 0 && Permits(Apply(s, e).callers[i]) == 0;
    assert Apply(s, e).tasks == s.tasks;
    forall c | Stalled(s, c)
      ensures Stalled(Apply(s, e), c)
    {
    }
  }

  /** In a jam callers can only still arrive, and followers of leaders long gone collect. */
  lemma JamAllows(s: State, e: Event)
    requires Jammed(s) && Enabled(s, e)
    ensures e.Call? || e.Receive?
  {
    if e.ChunksOk? || e.ChunksFail? {
      StalledWaits(s, e.i);
    }
  }

  lemma StalledWaits(s: State, i: nat)
    requires Jammed(s) && At(s, i) && s.callers[i].phase.Chunking?
    ensures var p := s.callers[i].phase;
            !AllOver(s.tasks, p.from, p.to) && !AllDelivered(s.tasks, p.from, p.to) && !SomeDelivered(s.tasks, p.from, p.to)
  {
    assert Permits(s.callers[i]) > 0;
    assert s.tasks[s.callers[i].phase.from].Queued?;
  }

  // A jam needs as many checksums as there are permits, and they suffice.

  /** The checksums asked for. */
  ghost function Shas(callers: seq<Caller>): set<Sha> {
    set c | c in callers :: c.sha
  }

  lemma {:induction false} RunKeepsShas(s: State, events: seq<Event>, t: State)
    requires Run(s, events, t)
    ensures Shas(t.callers) == Shas(s.callers)
    decreases |events|
  {
    hide Enabled, Apply;
    if events != [] {
      var front, e := events[..|events| - 1], events[|events| - 1];
      var u :| Run(s, front, u) && Enabled(u, e) && t == Apply(u, e);
      RunKeepsShas(s, front, u);
      StepKeepsShas(u, e);
    }
  }

  lemma StepKeepsShas(s: State, e: Event)
    requires Enabled(s, e)
    ensures Shas(Apply(s, e).callers) == Shas(s.callers)
  {
    var t := Apply(s, e);
    forall k: nat
      ensures |t.callers| == |s.callers| && (At(s, k) ==> t.callers[k].sha == s.callers[k].sha)
    {
      MovesOne(s, e, k);
    }
    hide Apply, Enabled;
    forall sha
      ensures sha in Shas(t.callers) <==> sha in Shas(s.callers)
    {
      if k :| 0 <= k < |t.callers| && t.callers[k].sha == sha {
        assert s.callers[k] in s.callers && s.callers[k].sha == sha;
      }
      if k :| 0 <= k < |s.callers| && s.callers[k].sha == sha {
        assert t.callers[k] in t.callers && t.callers[k].sha == sha;
      }
    }
  }

  /** Leaders counted once each are no more than the checksums asked for. */
  lemma LeadersHaveShas(s: State, f: Caller -> nat)
    requires MapIsLeaders(s)
    requires forall c :: c in s.callers ==> f(c) <= 1 && (f(c) > 0 ==> Leading(c.phase))
    ensures Sum(s.callers, f) <= |Shas(s.callers)|
  {
    hide Leading;
    forall i, j | 0 <= i < j < |s.callers| && f(s.callers[i]) > 0 && f(s.callers[j]) > 0
      ensures s.callers[i].sha != s.callers[j].sha
    {
      assert At(s, i) && At(s, j);
    }
    SumDistinct(s.callers, f, (c: Caller) => c.sha, Shas(s.callers));
  }

  lemma JamNeedsShas(s: State, concurrency: nat)
    requires Inv(s, concurrency) && Jammed(s)
    ensures |Shas(s.callers)| >= concurrency
  {
    JammedIsFull(s, concurrency);
    LeadersHaveShas(s, StalledCount(s.tasks));
  }

  /** A caller for each checksum. */
  lemma {:induction false} OnePerSha(callers: seq<Caller>) returns (picks: seq<nat>)
    ensures |picks| == |Shas(callers)|
    ensures forall j :: 0 <= j < |picks| ==> picks[j] < |callers|
    ensures forall j, k :: 0 <= j < k < |picks| ==> callers[picks[j]].sha != callers[picks[k]].sha
  {
    if callers == [] {
      assert Shas(callers) == {};
      picks := [];
    } else {
      var front, last := callers[..|callers| - 1], callers[|callers| - 1];
      assert callers == front + [last];
      picks := OnePerSha(front);
      if last.sha in Shas(front) {
        assert Shas(callers) == Shas(front);
      } else {
        assert Shas(callers) == Shas(front) + {last.sha};
        forall j | 0 <= j < |picks|
          ensures callers[picks[j]].sha != last.sha
        {
          assert front[picks[j]] in front;
        }
        picks := picks + [|front|];
      }
    }
  }

  ghost predicate ValidPicks(s: State, picks: seq<nat>) {
    && (forall j :: 0 <= j < |picks| ==> At(s, picks[j]))
    && (forall j, k :: 0 <= j < k < |picks| ==> s.callers[picks[j]].sha != s.callers[picks[k]].sha)
  }

  /** The picked callers wait for one queued chunk each; the others have not begun. */
  ghost predicate JamUpTo(s: State, picks: seq<nat>, k: nat, t: State) {
    && k <= |picks| && |t.callers| == |s.callers|
    && t.free + k == s.free && |t.tasks| == k
    && (forall j :: 0 <= j < k ==>
          && t.tasks[j].Queued? && At(s, picks[j])
          && t.callers[picks[j]] == s.callers[picks[j]].(phase := Chunking(j, j + 1)))
    && (forall i: nat :: At(s, i) && i !in picks[..k] ==> t.callers[i] == s.callers[i])
    && (forall sha :: sha in t.inflight ==> exists j :: 0 <= j < k && s.callers[picks[j]].sha == sha)
  }

  lemma RunOn(s: State, events: seq<Event>, u: State, e: Event)
    requires Run(s, events, u) && Enabled(u, e)
    ensures Run(s, events + [e], Apply(u, e))
  {
    hide Enabled, Apply;
    var all := events + [e];
    assert all[..|all| - 1] == events;
  }

  lemma ThreeMore(s: State, events: seq<Event>, u: State, a: Event, b: Event, c: Event) returns (all: seq<Event>)
    requires Run(s, events, u) && Enabled(u, a) && Enabled(Apply(u, a), b) && Enabled(Apply(Apply(u, a), b), c)
    ensures Run(s, all, Apply(Apply(Apply(u, a), b), c))
  {
    hide *;
    var v := Apply(u, a);
    RunOn(s, events, u, a);
    RunOn(s, events + [a], v, b);
    RunOn(s, events + [a] + [b], Apply(v, b), c);
    all := events + [a] + [b] + [c];
  }

  /** Beginning, taking a permit and queueing one chunk. */
  lemma JamNext(s: State, picks: seq<nat>, k: nat, u: State)
    requires ValidPicks(s, picks) && k < |picks| && k < s.free && JamUpTo(s, picks, k, u)
    requires forall i :: 0 <= i < |s.callers| ==> s.callers[i].phase.Calling?
    ensures var i := picks[k];
            && Enabled(u, Call(i)) && Enabled(Apply(u, Call(i)), Acquire(i))
            && Enabled(Apply(Apply(u, Call(i)), Acquire(i)), Spawn(i, 1))
            && JamUpTo(s, picks, k + 1, Apply(Apply(Apply(u, Call(i)), Acquire(i)), Spawn(i, 1)))
  {
    var i := picks[k];
    forall j | 0 <= j < k
      ensures picks[j] != i && s.callers[picks[j]].sha != s.callers[i].sha
    {
    }
    assert i !in picks[..k] && u.callers[i] == s.callers[i];
    assert s.callers[i].sha !in u.inflight;
    assert seq(1, _ => Queued) == [Queued];
    var t := Apply(Apply(Apply(u, Call(i)), Acquire(i)), Spawn(i, 1));
    assert t == State(
      u.callers[i := s.callers[i].(phase := Chunking(k, k + 1))], u.tasks + [Queued], u.inflight[s.callers[i].sha := i], u.sent, u.free - 1);
    hide Apply, Enabled;
    assert picks[..k + 1] == picks[..k] + [i];
    forall sha | sha in t.inflight
      ensures exists j :: 0 <= j < k + 1 && s.callers[picks[j]].sha == sha
    {
      if sha == s.callers[i].sha {
        assert s.callers[picks[k]].sha == sha;
      } else {
        var j :| 0 <= j < k && s.callers[picks[j]].sha == sha;
      }
    }
  }

  lemma {:induction false} JamBuilds(s: State, concurrency: nat, picks: seq<nat>, k: nat) returns (events: seq<Event>, t: State)
    requires Init(s, concurrency) && ValidPicks(s, picks) && k <= concurrency && k <= |picks|
    ensures Run(s, events, t) && JamUpTo(s, picks, k, t)
  {
    if k == 0 {
      events, t := [], s;
    } else {
      var front, u := JamBuilds(s, concurrency, picks, k - 1);
      JamNext(s, picks, k - 1, u);
      hide *;
      var i := picks[k - 1];
      events := ThreeMore(s, front, u, Call(i), Acquire(i), Spawn(i, 1));
      t := Apply(Apply(Apply(u, Call(i)), Acquire(i)), Spawn(i, 1));
    }
  }

  lemma AllPicksJam(s: State, concurrency: nat, picks: seq<nat>, t: State)
    requires Init(s, concurrency) && concurrency <= |picks| && JamUpTo(s, picks, concurrency, t)
    ensures Jammed(t)
  {
    forall i | 0 <= i < |t.callers| && Permits(t.callers[i]) > 0
      ensures Stalled(t, t.callers[i])
    {
      assert At(s, i) && i in picks[..concurrency];
      var j :| 0 <= j < concurrency && picks[..concurrency][j] == i;
      assert t.callers[picks[j]].phase == Chunking(j, j + 1);
    }
  }

  /** From any start with as many checksums as there are permits a run reaches a jam. */
  lemma JamIsReachable(s: State, concurrency: nat) returns (events: seq<Event>, t: State)
    requires Init(s, concurrency) && |Shas(s.callers)| >= concurrency
    ensures Run(s, events, t) && Jammed(t)
  {
    var picks := OnePerSha(s.callers);
    events, t := JamBuilds(s, concurrency, picks, concurrency);
    AllPicksJam(s, concurrency, picks, t);
  }

  lemma {:induction false} JamIsForever(s: State, events: seq<Event>, t: State, i: nat)
    requires Jammed(s) && Run(s, events, t) && At(s, i) && Permits(s.callers[i]) > 0
    ensures Jammed(t) && At(t, i) && t.callers[i] == s.callers[i]
    decreases |events|
  {
    hide Jammed, Enabled, Apply;
    if events != [] {
      var front, e := events[..|events| - 1], events[|events| - 1];
      var u :| Run(s, front, u) && Enabled(u, e) && t == Apply(u, e);
      JamIsForever(s, front, u, i);
      JamStays(u, e);
    }
  }

  // Every run comes to an end.

  function CallerStage(c: Caller): nat {
    2 * c.urls + if c.phase.Calling? || c.phase.NeedPermit? || c.phase.Running? then 1 else 0
  }

  function CallerRank(c: Caller): nat {
    match c.phase
    case Calling => 6
    case NeedPermit => 5
    case Running => 4
    case Chunking(_, _) => 4
    case Finished(_) => 3
    case Published(_) => 2
    case Following(_) => 1
    case Done(_, _) => 0
  }

  function TaskRank(t: Task): nat {
    match t
    case Queued => 3
    case Fetching => 2
    case Sent => 1
    case Over(_) => 0
  }

  function Stage(s: State): nat {
    Sum(s.callers, CallerStage)
  }

  function Rank(s: State): nat {
    Sum(s.callers, CallerRank) + Sum(s.tasks, TaskRank)
  }

  lemma StepDescends(s: State, e: Event)
    requires Enabled(s, e)
    ensures Stage(Apply(s, e)) < Stage(s) || (Stage(Apply(s, e)) == Stage(s) && Rank(Apply(s, e)) < Rank(s))
  {
    if OnTask(e) {
      TaskSum(s, e, TaskRank);
      hide Sum;
    } else {
      CallerSum(s, e, CallerStage);
      CallerSum(s, e, CallerRank);
      CallerDescends(s, e);
      hide Enabled, Apply, Sum, CallerStage, CallerRank;
    }
  }

  lemma CallerDescends(s: State, e: Event)
    requires Enabled(s, e) && !OnTask(e)
    ensures var t := Apply(s, e);
            && |t.callers| == |s.callers| && At(s, e.i)
            && var c, d := s.callers[e.i], t.callers[e.i];
               || CallerStage(d) < CallerStage(c)
               || (CallerStage(d) == CallerStage(c) && CallerRank(d) < CallerRank(c) && t.tasks == s.tasks)
  {
  }

  ghost predicate Step(s: State, t: State) {
    exists e :: Enabled(s, e) && t == Apply(s, e)
  }

  /** However the scheduler chooses, the steps run out. */
  lemma {:induction false} StepsRunOut(states: nat -> State, from: nat) returns (k: nat)
    ensures k >= from && !Step(states(k), states(k + 1))
    decreases Stage(states(from)), Rank(states(from))
  {
    hide Enabled, Apply, Stage, Rank;
    if Step(states(from), states(from + 1)) {
      var e :| Enabled(states(from), e) && states(from + 1) == Apply(states(from), e);
      StepDescends(states(from), e);
      k := StepsRunOut(states, from + 1);
    } else {
      k := from;
    }
  }

  /** From the start a run that cannot go on has settled, or as many leaders
      as there are permits wait for their own chunks. */
  lemma EndsSettledOrFull(s: State, events: seq<Event>, t: State, concurrency: nat)
    requires Init(s, concurrency) && concurrency > 0 && Run(s, events, t) && !CanStep(t)
    ensures Settled(t) || Sum(t.callers, Waiting(t.tasks)) == concurrency
  {
    InitInv(s, concurrency);
    RunKeeps(s, events, t, concurrency);
    if !Settled(t) && Sum(t.callers, Waiting(t.tasks)) < concurrency {
      Progress(t, concurrency);
    }
    SumAtMost(t.callers, Waiting(t.tasks), Permits);
  }

  /** A jam runs on until nothing can step, and is still there. */
  lemma {:induction false} JamEnds(s: State, events: seq<Event>, t: State) returns (more: seq<Event>, end: State)
    requires Run(s, events, t) && Jammed(t)
    ensures Run(s, more, end) && Jammed(end) && !CanStep(end)
    decreases Stage(t), Rank(t)
  {
    hide Jammed, Enabled, Apply, Run, Stage, Rank, Sound;
    if CanStep(t) {
      var e :| Sound(t, e) && Enabled(t, e);
      StepDescends(t, e);
      JamStays(t, e);
      RunOn(s, events, t, e);
      more, end := JamEnds(s, events + [e], Apply(t, e));
    } else {
      more, end := events, t;
    }
  }

  lemma JamIsNotSettled(t: State, concurrency: nat)
    requires Inv(t, concurrency) && concurrency > 0 && Jammed(t)
    ensures !Settled(t)
  {
    SettledIsFree(t, concurrency);
  }

  lemma SettledIsFree(t: State, concurrency: nat)
    requires PermitsAddUp(t, concurrency)
    ensures Settled(t) ==> t.free == concurrency
  {
    if Settled(t) {
      SumZero(t.callers, Permits);
      SumZero(t.tasks, TaskPermits);
    }
  }

  /** Every run that cannot go on has settled exactly when fewer checksums are
      asked for than there are permits. */
  lemma SettlesExactly(s: State, concurrency: nat)
    requires Init(s, concurrency) && concurrency > 0
    ensures (forall events, t :: Run(s, events, t) && !CanStep(t) ==> Settled(t)) <==> |Shas(s.callers)| < concurrency
  {
    InitInv(s, concurrency);
    if |Shas(s.callers)| < concurrency {
      forall events, t | Run(s, events, t) && !CanStep(t)
        ensures Settled(t)
      {
        RunKeeps(s, events, t, concurrency);
        RunKeepsShas(s, events, t);
        FewSettle(t, concurrency);
      }
    } else {
      var events, t := JamIsReachable(s, concurrency);
      var more, end := JamEnds(s, events, t);
      RunKeeps(s, more, end, concurrency);
      JamIsNotSettled(end, concurrency);
    }
  }

  lemma FewSettle(t: State, concurrency: nat)
    requires Inv(t, concurrency) && |Shas(t.callers)| < concurrency && !CanStep(t)
    ensures Settled(t)
  {
    LeadersHaveShas(t, Waiting(t.tasks));
    hide Inv, Sum, Waiting;
    if !Settled(t) {
      Progress(t, concurrency);
    }
  }

  /** A jam can be reached exactly when there are at least as many checksums as permits. */
  lemma JamsExactly(s: State, concurrency: nat)
    requires Init(s, concurrency)
    ensures (exists events, t :: Run(s, events, t) && Jammed(t)) <==> |Shas(s.callers)| >= concurrency
  {
    InitInv(s, concurrency);
    if events, t :| Run(s, events, t) && Jammed(t) {
      RunKeeps(s, events, t, concurrency);
      RunKeepsShas(s, events, t);
      JamNeedsShas(t, concurrency);
    }
    if |Shas(s.callers)| >= concurrency {
      var events, t := JamIsReachable(s, concurrency);
    }
  }
}
