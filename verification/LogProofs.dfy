/**
 The message log under interleaving: which single commands make a subscriber that follows every message disagree with
 the store, and what it knows once all pipelines of a project have run to their end.
 */
module LogProofs {
  import opened Wrappers
  import opened Ids
  import opened Timed
  import opened Messages
  import opened ProjectStore
  import opened StoreProofs
  import opened Pipelines

  /** The route map of a subscriber that has handled every message so far. */
  function Routes(st: State): RouteMap {
    Replay(map[], st.store.log)
  }

  /** The subscriber knows of p what the forward map says, expiry aside. */
  ghost predicate LogAgrees(st: State, p: ProjectId) {
    SameAt(Routes(st), Values(st.store.forward), p)
  }

  /** A pipeline of p that has yet to publish. */
  predicate OwesPublish(job: Job, p: ProjectId) {
    match job
    case SetJob(q, _, step) => q == p && step <= 4
    case RemoveJob(_, found, step) => found == Some(p) && step <= 3
  }

  ghost predicate PublishIsOwed(st: State, p: ProjectId) {
    exists j :: j in st.jobs && OwesPublish(st.jobs[j], p)
  }

  ghost predicate LogInv(st: State, p: ProjectId) {
    LogAgrees(st, p) || PublishIsOwed(st, p)
  }

  /** The change a pipeline's message will announce, if it has one. */
  function Announcement(job: Job): Option<Update> {
    match job
    case SetJob(p, s, _) => Some(Set(p, s))
    case RemoveJob(_, None, _) => None
    case RemoveJob(_, Some(p), _) => Some(Removed(p))
  }

  predicate Publishes(job: Job) {
    if job.SetJob? then job.step == 4 else job.found.Some? && job.step == 3
  }

  /** What the store says of the project of an update. */
  predicate IsCurrent(st: Store, u: Update) {
    match u
    case Set(p, s) => p in st.forward && st.forward[p].value == s
    case Removed(p) => p !in st.forward
  }

  /** The last pipeline of p in progress announces what is no longer so. */
  ghost predicate Misannounces(st: State, e: Event, p: ProjectId) {
    && e.Exec? && e.job in st.jobs && Publishes(st.jobs[e.job])
    && Announcement(st.jobs[e.job]).value.project == p
    && !IsCurrent(st.store, Announcement(st.jobs[e.job]).value)
    && forall i <- st.jobs :: i != e.job ==> !OwesPublish(st.jobs[i], p)
  }

  // ------------------------------------------------------------ names

  /** All names are such that messages come through: well-formed projects, plain sandboxes. */
  predicate SetsProper(e: Event) {
    e.BeginSet? ==> IsWellFormed(e.project) && IsPlain(e.sandbox)
  }

  predicate JobIsProper(job: Job) {
    match job
    case SetJob(p, s, _) => IsWellFormed(p) && IsPlain(s)
    case RemoveJob(_, found, _) => found.Some? ==> IsWellFormed(found.value)
  }

  ghost predicate NamesAreProper(st: State) {
    && (forall s <- st.store.reverse :: IsWellFormed(st.store.reverse[s].value))
    && (forall j <- st.jobs :: JobIsProper(st.jobs[j]))
  }

  lemma NamesStep(st: State, e: Event)
    requires NamesAreProper(st) && Enabled(st, e) && SetsProper(e)
    ensures NamesAreProper(Apply(st, e))
  {
    hide IsWellFormed, IsPlain, NextCommand;
    match e
    case Tick(_) =>
    case BeginSet(_, _, _) =>
    case BeginRemove(_, s) =>
      if FindProject(st.store, s).value.Some? {
        FoundIsProper(st, s);
      }
    case Exec(j) =>
      CommandWrites(st.store, st.jobs[j]);
      assert JobIsProper(st.jobs[j]);
  }

  lemma FoundIsProper(st: State, s: SandboxId)
    requires NamesAreProper(st) && FindProject(st.store, s).Success? && FindProject(st.store, s).value.Some?
    ensures IsWellFormed(FindProject(st.store, s).value.value)
  {
    ParseIsIdentity(st.store.reverse[s].value, PROJECT_PREFIX);
  }

  // ------------------------------------------------------------ single commands

  /** A message, handled, does to the subscriber's map what it announces. */
  lemma PublishHandled(st: State, j: JobId)
    requires NamesAreProper(st) && Enabled(st, Exec(j)) && Publishes(st.jobs[j])
    ensures Routes(Apply(st, Exec(j))) == Handle(Routes(st), Announcement(st.jobs[j]).value)
    ensures Apply(st, Exec(j)).store.forward == st.store.forward
  {
    assert JobIsProper(st.jobs[j]);
    match st.jobs[j]
    case SetJob(p, s, _) =>
      UpdateRoundTrip(p, s);
      ReplayAppend(map[], st.store.log, PrintUpdate(p, s));
    case RemoveJob(_, found, _) =>
      RemovalRoundTrip(found.value);
      ReplayAppend(map[], st.store.log, PrintRemoval(found.value));
  }

  /** Any other command says nothing, and changes the entry of no project but one it will yet announce. */
  lemma SilentCommand(st: State, j: JobId, p: ProjectId)
    requires Enabled(st, Exec(j)) && !Publishes(st.jobs[j])
    ensures Apply(st, Exec(j)).store.log == st.store.log
    ensures OwesPublish(st.jobs[j], p) ==> OwesPublish(Apply(st, Exec(j)).jobs[j], p)
    ensures !OwesPublish(st.jobs[j], p) ==>
              SameAt(Values(Apply(st, Exec(j)).store.forward), Values(st.store.forward), p)
  {
  }

  lemma SilentExactly(st: State, j: JobId, p: ProjectId)
    requires LogInv(st, p) && Enabled(st, Exec(j)) && !Publishes(st.jobs[j])
    ensures LogInv(Apply(st, Exec(j)), p)
  {
    hide NextCommand;
    SilentCommand(st, j, p);
    var st' := Apply(st, Exec(j));
    if i :| i in st.jobs && OwesPublish(st.jobs[i], p) {
      assert OwesPublish(st'.jobs[i], p);
    }
  }

  lemma PublishExactly(st: State, j: JobId, p: ProjectId)
    requires LogInv(st, p) && NamesAreProper(st) && Enabled(st, Exec(j)) && Publishes(st.jobs[j])
    ensures LogInv(Apply(st, Exec(j)), p) <==> !Misannounces(st, Exec(j), p)
  {
    var st', u := Apply(st, Exec(j)), Announcement(st.jobs[j]).value;
    PublishHandled(st, j);
    if i :| i in st.jobs && i != j && OwesPublish(st.jobs[i], p) {
      assert OwesPublish(st'.jobs[i], p);
    } else {
      assert !PublishIsOwed(st', p);
      assert u.project == p ==> (LogAgrees(st', p) <==> IsCurrent(st.store, u));
    }
  }

  /**
   A step keeps it that the subscriber agrees about p, or some pipeline of p has yet to publish, exactly if it is not
   the last pipeline of p in progress announcing what is no longer so.
   */
  lemma LogExactly(st: State, e: Event, p: ProjectId)
    requires LogInv(st, p) && NamesAreProper(st) && Enabled(st, e)
    ensures LogInv(Apply(st, e), p) <==> !Misannounces(st, e, p)
  {
    if e.Exec? {
      if Publishes(st.jobs[e.job]) {
        PublishExactly(st, e.job, p);
      } else {
        SilentExactly(st, e.job, p);
      }
    } else {
      assert forall j <- st.jobs :: j in Apply(st, e).jobs && Apply(st, e).jobs[j] == st.jobs[j];
    }
  }

  // ------------------------------------------------------------ runs

  ghost predicate AreProperUpTo(r: Run, i: nat)
    requires i <= |r.events|
  {
    forall m :: 0 <= m < i ==> SetsProper(r.events[m])
  }

  ghost predicate LogIsSpared(r: Run, i: nat, p: ProjectId)
    requires i <= |r.events| < |r.states|
  {
    forall m :: 0 <= m < i ==> !Misannounces(r.states[m], r.events[m], p)
  }

  lemma {:induction false} LogAt(r: Run, i: nat, p: ProjectId)
    requires IsRun(r) && i < |r.states| && AreProperUpTo(r, i) && LogIsSpared(r, i, p)
    ensures LogInv(r.states[i], p) && NamesAreProper(r.states[i])
  {
    hide Enabled, Apply, Misannounces, SetsProper;
    if i > 0 {
      LogAt(r, i - 1, p);
      assert IsStep(r, i - 1);
      LogExactly(r.states[i - 1], r.events[i - 1], p);
      NamesStep(r.states[i - 1], r.events[i - 1]);
    }
  }

  /**
   Log replay command by command: under every interleaving that spares p, a subscriber that has handled every message
   knows of p what the store says, whenever no pipeline of p has yet to publish.
   */
  lemma SettledLogAgrees(r: Run, i: nat, p: ProjectId)
    requires IsRun(r) && i < |r.states| && AreProperUpTo(r, i) && LogIsSpared(r, i, p)
    requires !PublishIsOwed(r.states[i], p)
    ensures LogAgrees(r.states[i], p)
  {
    LogAt(r, i, p);
  }

  // ------------------------------------------------------------ pipelines out of order

  /** "p" is set to "a" and to "b" at once: both pipelines are begun, and the first has written the forward entry. */
  const TWO_SETS: State :=
    State(SetForward(EMPTY, P, "a"), map[0 := SetJob(P, "a", 1), 1 := SetJob(P, "b", 0)], map["a" := P, "b" := P])

  lemma TwoSetsBegun()
    ensures Reaches(TWO_SETS, IsAny)
  {
    FromNothing(IsAny);
    hide Reaches;
    var s1 := State(EMPTY, map[0 := SetJob(P, "a", 0)], map["a" := P]);
    Then(INITIAL, BeginSet(0, P, "a"), s1, IsAny);
    var s2 := TWO_SETS.(store := EMPTY, jobs := map[0 := SetJob(P, "a", 0), 1 := SetJob(P, "b", 0)]);
    Then(s1, BeginSet(1, P, "b"), s2, IsAny);
    Then(s2, Exec(0), TWO_SETS, IsAny);
  }

  /** The rest of a set whose forward entry is written. */
  lemma RestOfSet(st: Store, p: ProjectId, s: SandboxId)
    ensures RunJob(st, SetJob(p, s, 1)).forward == st.forward
    ensures RunJob(st, SetJob(p, s, 1)).log == st.log + [PrintUpdate(p, s)]
  {
    var s2 := SetReverse(st, p, s);
    var s3 := AddToIndex(s2, p);
    var s4 := ExpireIndex(s3);
    var s5 := Publish(s4, PrintUpdate(p, s));
    assert RunJob(s4, SetJob(p, s, 4)) == RunJob(s5, SetJob(p, s, 5)) == s5;
    assert RunJob(s3, SetJob(p, s, 3)) == RunJob(s4, SetJob(p, s, 4));
    assert RunJob(s2, SetJob(p, s, 2)) == RunJob(s3, SetJob(p, s, 3));
    assert RunJob(st, SetJob(p, s, 1)) == RunJob(s2, SetJob(p, s, 2));
  }

  lemma TwoMessages()
    ensures Replay(map[], [PrintUpdate(P, "b"), PrintUpdate(P, "a")]) == map[P := "a"]
  {
    UpdateRoundTrip(P, "a");
    UpdateRoundTrip(P, "b");
    var first, second := PrintUpdate(P, "b"), PrintUpdate(P, "a");
    ReplayAppend(map[], [], first);
    ReplayAppend(map[], [first], second);
    assert [] + [first] == [first] && [first] + [second] == [first, second];
  }

  /** The second set overtakes the first. */
  lemma SecondSetFirst() returns (st: State)
    ensures Reaches(st, IsAny) && st.jobs == map[0 := SetJob(P, "a", 1), 1 := SetJob(P, "b", 5)]
    ensures st.store.now == 0 && st.store.forward == map[P := Entry("b", PROJECT_SANDBOX_TTL)]
    ensures st.store.log == [PrintUpdate(P, "b")]
  {
    hide PrintUpdate, Reaches;
    TwoSetsBegun();
    DrainIsAtomic(TWO_SETS, 1);
    SetUnfolds(TWO_SETS.store, P, "b");
    ThenDrain(TWO_SETS, 1, IsAny);
    st := Drain(TWO_SETS, 1);
  }

  /** Published in the other order than written: the store says "b", and whoever follows the messages says "a". */
  lemma InterleavingMisordersLog()
    ensures exists r :: IsRun(r) && IsQuiescent(Last(r))
                        && LiveForward(Last(r).store) == map[P := "b"] && Routes(Last(r)) == map[P := "a"]
  {
    hide PrintUpdate, Replay;
    var st := SecondSetFirst();
    DrainIsAtomic(st, 0);
    RestOfSet(st.store, P, "a");
    NowStays(st.store, SetJob(P, "a", 1));
    ThenDrain(st, 0, IsAny);
    var r :| IsRun(r) && Last(r) == Drain(st, 0);
    TwoMessages();
    assert [PrintUpdate(P, "b")] + [PrintUpdate(P, "a")] == [PrintUpdate(P, "b"), PrintUpdate(P, "a")];
  }

  lemma {:induction false} NowStays(st: Store, job: Job)
    ensures RunJob(st, job).now == st.now
    decreases Length(job) - job.step
  {
    if job.step < Length(job) {
      NowStays(NextCommand(st, job), job.(step := job.step + 1));
    }
  }
}
