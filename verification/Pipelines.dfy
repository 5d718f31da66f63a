/**
 The store's pipelines at the granularity of single Redis commands: any number of SetProjectSandbox and
 RemoveSandboxMapping pipelines in progress, their commands interleaved in any way. A pipeline that is cut off is one
 that is never continued.
 */
module Pipelines {
  import opened Wrappers
  import opened Ids
  import opened Timed
  import opened Messages
  import opened ProjectStore

  type JobId = nat

  /** owner records for which project each sandbox was first set; no step reads it. */
  datatype State = State(store: Store, jobs: map<JobId, Job>, owner: map<SandboxId, ProjectId>)

  const INITIAL: State := State(EMPTY, map[], map[])

  datatype Event =
    | Tick(elapsed: Time)
    | BeginSet(job: JobId, project: ProjectId, sandbox: SandboxId)
    | BeginRemove(job: JobId, sandbox: SandboxId)
    | Exec(job: JobId)

  predicate IsOpen(job: Job) {
    job.step < Length(job)
  }

  predicate Enabled(st: State, e: Event) {
    match e
    case Tick(_) => true
    case BeginSet(j, _, _) => j !in st.jobs
    case BeginRemove(j, s) => j !in st.jobs && FindProject(st.store, s).Success?
    case Exec(j) => j in st.jobs && IsOpen(st.jobs[j])
  }

  function Apply(st: State, e: Event): State
    requires Enabled(st, e)
  {
    match e
    case Tick(d) => st.(store := st.store.(now := st.store.now + d))
    case BeginSet(j, p, s) =>
      st.(jobs := st.jobs[j := SetJob(p, s, 0)], owner := if s in st.owner then st.owner else st.owner[s := p])
    case BeginRemove(j, s) => st.(jobs := st.jobs[j := RemoveJob(s, FindProject(st.store, s).value, 0)])
    case Exec(j) =>
      var job := st.jobs[j];
      st.(store := NextCommand(st.store, job), jobs := st.jobs[j := job.(step := job.step + 1)])
  }

  /** Callers set a sandbox for one project only. */
  predicate IsDisciplined(st: State, e: Event) {
    e.BeginSet? && e.sandbox in st.owner ==> st.owner[e.sandbox] == e.project
  }

  // ------------------------------------------------------------ the mapping invariant

  /** A set of (p, s) that has yet to write the reverse entry. */
  predicate OwesReverse(job: Job, p: ProjectId, s: SandboxId) {
    job.SetJob? && job.project == p && job.sandbox == s && job.step <= 1
  }

  /** A removal of s that has yet to delete p's forward entry. */
  predicate OwesDelete(job: Job, p: ProjectId, s: SandboxId) {
    job.RemoveJob? && job.sandbox == s && job.found == Some(p) && job.step <= 1
  }

  ghost predicate IsOwed(st: State, p: ProjectId, s: SandboxId) {
    exists j :: j in st.jobs && (OwesReverse(st.jobs[j], p, s) || OwesDelete(st.jobs[j], p, s))
  }

  /** The reverse entry of p's forward entry is there, and lives at least as long. */
  ghost predicate IsMirrored(st: Store, p: ProjectId)
    requires p in st.forward
  {
    var s := st.forward[p].value;
    s in st.reverse && st.reverse[s].value == p && st.forward[p].deadline <= st.reverse[s].deadline
  }

  ghost predicate IsOwner(st: State, s: SandboxId, p: ProjectId) {
    s in st.owner && st.owner[s] == p
  }

  /** What holds whatever projects are called: a forward entry names a sandbox that was set for that project. */
  ghost predicate OwnershipInv(st: State) {
    && (forall p <- st.store.forward :: IsOwner(st, st.store.forward[p].value, p)
                                        && st.store.forward[p].deadline <= st.store.now + PROJECT_SANDBOX_TTL)
    && (forall j <- st.jobs :: SetOk(st, st.jobs[j]))
  }

  ghost predicate SetOk(st: State, job: Job) {
    job.SetJob? ==> IsOwner(st, job.sandbox, job.project)
  }

  /** A project whose name comes through the parsing of the reverse entry unchanged, or not at all. */
  predicate IsSafe(p: ProjectId) {
    NewProjectId(p).None? || IsRaw(p)
  }

  /** What else holds for the sandboxes of a safe project: its reverse entries and its removals lead back to it. */
  ghost predicate LeadsBack(st: State, p: ProjectId) {
    && (forall s <- st.store.reverse :: IsOwner(st, s, st.store.reverse[s].value))
    && (forall j <- st.jobs :: RemoveOk(st, st.jobs[j], p))
  }

  /** A removal that found a project is of a sandbox that was set, and if that was for p it found p. */
  ghost predicate RemoveOk(st: State, job: Job, p: ProjectId) {
    job.RemoveJob? && job.found.Some? ==>
      job.sandbox in st.owner && (st.owner[job.sandbox] == p ==> job.found == Some(p))
  }

  /** p's forward entry is mirrored, or a pipeline is about to settle it. */
  ghost predicate MirrorOk(st: State, p: ProjectId) {
    p in st.store.forward ==> IsMirrored(st.store, p) || IsOwed(st, p, st.store.forward[p].value)
  }

  ghost predicate MappingInv(st: State, p: ProjectId) {
    OwnershipInv(st) && LeadsBack(st, p) && MirrorOk(st, p)
  }

  /** A command writes no mapping but that of its own set. */
  lemma CommandWrites(st: Store, job: Job)
    requires IsOpen(job)
    ensures var st' := NextCommand(st, job);
            && st'.now == st.now
            && (forall p <- st'.forward :: (p in st.forward && st'.forward[p] == st.forward[p])
                                           || (job.SetJob? && p == job.project
                                               && st'.forward[p] == Entry(job.sandbox, st.now + PROJECT_SANDBOX_TTL)))
            && (forall s <- st'.reverse :: (s in st.reverse && st'.reverse[s] == st.reverse[s])
                                           || (job.SetJob? && s == job.sandbox && st'.reverse[s].value == job.project))
  {
  }

  lemma ExecKeepsOwnership(st: State, j: JobId)
    requires OwnershipInv(st) && Enabled(st, Exec(j))
    ensures OwnershipInv(Apply(st, Exec(j)))
  {
    hide NextCommand;
    CommandWrites(st.store, st.jobs[j]);
    var st' := Apply(st, Exec(j));
    assert SetOk(st, st.jobs[j]) && SetOk(st', st'.jobs[j]);
    assert forall i <- st.jobs :: SetOk(st, st.jobs[i]) && (i != j ==> SetOk(st', st.jobs[i]));
  }

  lemma OwnershipStep(st: State, e: Event)
    requires OwnershipInv(st) && Enabled(st, e) && IsDisciplined(st, e)
    ensures OwnershipInv(Apply(st, e))
  {
    var st' := Apply(st, e);
    if e.Exec? {
      ExecKeepsOwnership(st, e.job);
    } else {
      assert forall t, q :: IsOwner(st, t, q) ==> IsOwner(st', t, q);
      assert forall i <- st.jobs :: SetOk(st, st.jobs[i]) && SetOk(st', st.jobs[i]);
    }
  }

  lemma ExecLeadsBack(st: State, j: JobId, p: ProjectId)
    requires OwnershipInv(st) && LeadsBack(st, p) && Enabled(st, Exec(j))
    ensures LeadsBack(Apply(st, Exec(j)), p)
  {
    hide NextCommand;
    CommandWrites(st.store, st.jobs[j]);
    assert SetOk(st, st.jobs[j]);
    var st' := Apply(st, Exec(j));
    assert RemoveOk(st, st.jobs[j], p) && RemoveOk(st', st'.jobs[j], p);
    assert forall i <- st.jobs :: RemoveOk(st, st.jobs[i], p) && (i != j ==> RemoveOk(st', st.jobs[i], p));
  }

  /** The lookup of a removal finds the owner's name, parsed: for a safe owner the owner, or nothing that goes on. */
  lemma FoundIsOwner(st: State, s: SandboxId, p: ProjectId)
    requires LeadsBack(st, p) && IsSafe(p) && FindProject(st.store, s).Success? && FindProject(st.store, s).value.Some?
    ensures s in st.owner && (st.owner[s] == p ==> FindProject(st.store, s).value == Some(p))
  {
    assert IsOwner(st, s, st.store.reverse[s].value);
  }

  lemma LeadsBackStep(st: State, e: Event, p: ProjectId)
    requires OwnershipInv(st) && LeadsBack(st, p) && IsSafe(p) && Enabled(st, e) && IsDisciplined(st, e)
    ensures LeadsBack(Apply(st, e), p)
  {
    var st' := Apply(st, e);
    if e.Exec? {
      ExecLeadsBack(st, e.job, p);
    } else {
      if e.BeginRemove? && FindProject(st.store, e.sandbox).value.Some? {
        FoundIsOwner(st, e.sandbox, p);
      }
      assert forall t, q :: IsOwner(st, t, q) ==> IsOwner(st', t, q);
      assert forall i <- st.jobs :: RemoveOk(st, st.jobs[i], p) && RemoveOk(st', st.jobs[i], p);
    }
  }

  /** A job that owes p's forward entry still does, unless it moves on. */
  lemma DebtsLast(st: State, j: JobId, p: ProjectId, s: SandboxId)
    requires Enabled(st, Exec(j)) && IsOwed(st, p, s)
    requires !OwesReverse(st.jobs[j], p, s) && !OwesDelete(st.jobs[j], p, s)
    ensures IsOwed(Apply(st, Exec(j)), p, s)
  {
    var i :| i in st.jobs && (OwesReverse(st.jobs[i], p, s) || OwesDelete(st.jobs[i], p, s));
    assert Apply(st, Exec(j)).jobs[i] == st.jobs[i];
  }

  /** What a command of a set still owes, or has just paid, for p's forward entry. */
  lemma SetKeepsMirror(st: State, j: JobId, p: ProjectId)
    requires MappingInv(st, p) && Enabled(st, Exec(j)) && st.jobs[j].SetJob?
    ensures MirrorOk(Apply(st, Exec(j)), p)
  {
    hide IsRaw, PrintUpdate;
    var st', job := Apply(st, Exec(j)), st.jobs[j];
    assert SetOk(st, job);
    if p in st'.store.forward {
      var s := st'.store.forward[p].value;
      if job.step == 0 && job.project == p {
        assert OwesReverse(st'.jobs[j], p, s);
      } else {
        assert IsOwner(st, s, p);
        if !IsMirrored(st.store, p) && !OwesReverse(job, p, s) {
          DebtsLast(st, j, p, s);
        }
      }
    }
  }

  lemma RemoveKeepsMirror(st: State, j: JobId, p: ProjectId)
    requires MappingInv(st, p) && Enabled(st, Exec(j)) && st.jobs[j].RemoveJob?
    ensures MirrorOk(Apply(st, Exec(j)), p)
  {
    hide IsRaw, PrintRemoval;
    var st', job := Apply(st, Exec(j)), st.jobs[j];
    assert RemoveOk(st, job, p);
    if p in st'.store.forward {
      var s := st.store.forward[p].value;
      assert IsOwner(st, s, p);
      if job.step == 0 && job.sandbox == s && job.found == Some(p) {
        assert OwesDelete(st'.jobs[j], p, s);
      } else if !IsMirrored(st.store, p) {
        DebtsLast(st, j, p, s);
      }
    }
  }

  lemma MirrorStep(st: State, e: Event, p: ProjectId)
    requires MappingInv(st, p) && Enabled(st, e)
    ensures MirrorOk(Apply(st, e), p)
  {
    if e.Exec? {
      if st.jobs[e.job].SetJob? {
        SetKeepsMirror(st, e.job, p);
      } else {
        RemoveKeepsMirror(st, e.job, p);
      }
    } else if p in st.store.forward && !IsMirrored(st.store, p) {
      var s := st.store.forward[p].value;
      var i :| i in st.jobs && (OwesReverse(st.jobs[i], p, s) || OwesDelete(st.jobs[i], p, s));
      assert Apply(st, e).jobs[i] == st.jobs[i];
    }
  }

  /** Every single command keeps the mapping of a safe project, whatever other projects are called. */
  lemma MappingStep(st: State, e: Event, p: ProjectId)
    requires MappingInv(st, p) && IsSafe(p) && Enabled(st, e) && IsDisciplined(st, e)
    ensures MappingInv(Apply(st, e), p)
  {
    OwnershipStep(st, e);
    LeadsBackStep(st, e, p);
    MirrorStep(st, e, p);
  }

  // ------------------------------------------------------------ runs

  datatype Run = Run(states: seq<State>, events: seq<Event>)

  ghost predicate IsStep(r: Run, i: nat)
    requires i < |r.events| && |r.states| == |r.events| + 1
  {
    && Enabled(r.states[i], r.events[i]) && IsDisciplined(r.states[i], r.events[i])
    && r.states[i + 1] == Apply(r.states[i], r.events[i])
  }

  ghost predicate IsRun(r: Run) {
    && |r.states| == |r.events| + 1 && r.states[0] == INITIAL
    && forall i: nat :: i < |r.events| ==> IsStep(r, i)
  }

  lemma {:induction false} OwnershipAt(r: Run, i: nat)
    requires IsRun(r) && i < |r.states|
    ensures OwnershipInv(r.states[i])
  {
    hide Enabled, Apply, IsDisciplined;
    if i > 0 {
      OwnershipAt(r, i - 1);
      assert IsStep(r, i - 1);
      OwnershipStep(r.states[i - 1], r.events[i - 1]);
    }
  }

  lemma {:induction false} MappingAt(r: Run, i: nat, p: ProjectId)
    requires IsRun(r) && i < |r.states| && IsSafe(p)
    ensures forall k :: 0 <= k <= i ==> MappingInv(r.states[k], p)
  {
    hide Enabled, Apply, IsDisciplined, IsSafe;
    if i > 0 {
      MappingAt(r, i - 1, p);
      assert IsStep(r, i - 1);
      MappingStep(r.states[i - 1], r.events[i - 1], p);
    }
  }

  /** In every state, whatever the projects are called, the forward map is injective. */
  lemma ForwardIsInjective(r: Run, i: nat, p: ProjectId, q: ProjectId)
    requires IsRun(r) && i < |r.states| && p in r.states[i].store.forward && q in r.states[i].store.forward
    ensures r.states[i].store.forward[p].value == r.states[i].store.forward[q].value ==> p == q
  {
    OwnershipAt(r, i);
    var st := r.states[i];
    assert IsOwner(st, st.store.forward[p].value, p) && IsOwner(st, st.store.forward[q].value, q);
  }

  /**
   Under every interleaving of the pipelines' commands: the forward entry p -> s of a safe project has the reverse entry
   s -> p, living at least as long, unless some pipeline still owes the one's reverse write or the other's delete.
   */
  lemma ForwardIsMirroredOrOwed(r: Run, i: nat, p: ProjectId)
    requires IsRun(r) && i < |r.states| && IsSafe(p) && p in r.states[i].store.forward
    ensures IsMirrored(r.states[i].store, p) || IsOwed(r.states[i], p, r.states[i].store.forward[p].value)
  {
    MappingAt(r, i, p);
  }

  /** With no pipeline open it holds outright: a live entry is mirrored live, and no other names its sandbox. */
  lemma QuiescentMapsAgree(r: Run, i: nat, p: ProjectId, q: ProjectId)
    requires IsRun(r) && i < |r.states| && IsSafe(p)
    requires IsQuiescent(r.states[i])
    requires var st := r.states[i].store; Live(st.forward, p, st.now)
    ensures var st := r.states[i].store;
            && Get(st.reverse, st.forward[p].value, st.now) == Some(p)
            && (Live(st.forward, q, st.now) && st.forward[q].value == st.forward[p].value ==> p == q)
  {
    MappingAt(r, i, p);
    if q in r.states[i].store.forward {
      ForwardIsInjective(r, i, p, q);
    }
  }

  // ------------------------------------------------------------ pipelines without interference

  /** Executes the rest of one pipeline with nothing in between. */
  function Drain(st: State, j: JobId): State
    requires j in st.jobs
    decreases Length(st.jobs[j]) - st.jobs[j].step
  {
    if !IsOpen(st.jobs[j]) then st else Drain(Apply(st, Exec(j)), j)
  }

  /** Run alone, a pipeline has the effect the one-step operations have. */
  lemma {:induction false} DrainIsAtomic(st: State, j: JobId)
    requires j in st.jobs && st.jobs[j].step <= Length(st.jobs[j])
    ensures var job := st.jobs[j];
            Drain(st, j) == State(RunJob(st.store, job), st.jobs[j := job.(step := Length(job))], st.owner)
    decreases Length(st.jobs[j]) - st.jobs[j].step
  {
    if IsOpen(st.jobs[j]) {
      DrainIsAtomic(Apply(st, Exec(j)), j);
    }
  }

  function Last(r: Run): State
    requires r.states != []
  {
    r.states[|r.states| - 1]
  }

  predicate IsAny(e: Event) {
    true
  }

  predicate IsNoRemoval(e: Event) {
    !e.BeginRemove?
  }

  predicate IsOfSet(e: Event) {
    e.BeginSet? || e.Exec?
  }

  /** Some run of the allowed events ends in st. */
  ghost predicate Reaches(st: State, allowed: Event -> bool) {
    exists r: Run :: IsRun(r) && Last(r) == st && forall e <- r.events :: allowed(e)
  }

  /** One step of a concrete run. */
  lemma Then(st: State, e: Event, st': State, allowed: Event -> bool)
    requires Reaches(st, allowed) && allowed(e)
    requires Enabled(st, e) && IsDisciplined(st, e) && Apply(st, e) == st'
    ensures Reaches(st', allowed)
  {
    var r: Run :| IsRun(r) && Last(r) == st && forall d <- r.events :: allowed(d);
    var next := Run(r.states + [st'], r.events + [e]);
    forall i: nat | i < |next.events|
      ensures IsStep(next, i)
    {
      assert i < |r.events| ==> IsStep(r, i);
    }
    assert IsRun(next) && Last(next) == st';
  }

  lemma {:induction false} ThenDrain(st: State, j: JobId, allowed: Event -> bool)
    requires Reaches(st, allowed) && allowed(Exec(j)) && j in st.jobs && st.jobs[j].step <= Length(st.jobs[j])
    ensures Reaches(Drain(st, j), allowed)
    decreases Length(st.jobs[j]) - st.jobs[j].step
  {
    if IsOpen(st.jobs[j]) {
      Then(st, Exec(j), Apply(st, Exec(j)), allowed);
      ThenDrain(Apply(st, Exec(j)), j, allowed);
    }
  }

  /** The state after a set pipeline begun and run alone. */
  function WithSet(st: State, j: JobId, p: ProjectId, s: SandboxId): State {
    State(AfterSet(st.store, p, s), st.jobs[j := SetJob(p, s, 5)], st.owner[s := p])
  }

  lemma ThenSet(st: State, j: JobId, p: ProjectId, s: SandboxId, allowed: Event -> bool)
    requires Reaches(st, allowed) && allowed(BeginSet(j, p, s)) && allowed(Exec(j))
    requires j !in st.jobs && s !in st.owner
    ensures Reaches(WithSet(st, j, p, s), allowed)
  {
    hide Reaches;
    var begun := st.(jobs := st.jobs[j := SetJob(p, s, 0)], owner := st.owner[s := p]);
    Then(st, BeginSet(j, p, s), begun, allowed);
    DrainIsAtomic(begun, j);
    assert begun.jobs[j := SetJob(p, s, 5)] == st.jobs[j := SetJob(p, s, 5)];
    ThenDrain(begun, j, allowed);
  }

  lemma FromNothing(allowed: Event -> bool)
    ensures Reaches(INITIAL, allowed)
  {
    var r := Run([INITIAL], []);
    assert IsRun(r) && Last(r) == INITIAL;
  }

  /** No pipeline is in progress. */
  predicate IsQuiescent(st: State) {
    forall j <- st.jobs :: !IsOpen(st.jobs[j])
  }

  /**
   The name matters: a project whose identifier parsing changes keeps a live forward entry without a reverse entry when
   its sandbox is released, because the reverse entry is parsed before it is used.
   */
  lemma PrefixedProjectLosesMirror(p: ProjectId)
    requires !IsSafe(p)
    ensures exists r :: IsRun(r) && IsQuiescent(Last(r))
                        && LiveForward(Last(r).store) == map[p := "a"] && Last(r).store.reverse == map[]
  {
    var x := NewProjectId(p).value;
    FromNothing(IsAny);
    ThenSet(INITIAL, 0, p, "a", IsAny);
    SetUnfolds(EMPTY, p, "a");
    var st := WithSet(INITIAL, 0, p, "a");
    var begun := st.(jobs := st.jobs[1 := RemoveJob("a", Some(x), 0)]);
    Then(st, BeginRemove(1, "a"), begun, IsAny);
    DrainIsAtomic(begun, 1);
    RemoveUnfolds(st.store, "a", Some(x));
    ThenDrain(begun, 1, IsAny);
    var end := Drain(begun, 1);
    assert end.store.forward == st.store.forward - {x} == map[p := Entry("a", PROJECT_SANDBOX_TTL)];
    assert IsQuiescent(end) && LiveForward(end.store) == map[p := "a"] && end.store.reverse == map[];
    hide IsQuiescent, LiveForward, Enabled, Apply, IsStep, Drain;
    var r :| IsRun(r) && Last(r) == end;
  }

  /** p's forward entry is neither mirrored nor about to be settled. */
  ghost predicate LosesMirror(r: Run, i: nat, p: ProjectId) {
    IsRun(r) && i < |r.states| && !MirrorOk(r.states[i], p)
  }

  /** No run loses the mirror of p's forward entry, exactly if parsing leaves p's name alone, or refuses it. */
  lemma MirrorExactly(p: ProjectId)
    ensures (forall r, i: nat :: !LosesMirror(r, i, p)) <==> IsSafe(p)
  {
    if IsSafe(p) {
      forall r, i: nat
        ensures !LosesMirror(r, i, p)
      {
        if IsRun(r) && i < |r.states| {
          MappingAt(r, i, p);
        }
      }
    } else {
      PrefixedProjectLosesMirror(p);
      var r :| IsRun(r) && IsQuiescent(Last(r))
               && LiveForward(Last(r).store) == map[p := "a"] && Last(r).store.reverse == map[];
      var i: nat := |r.events|;
      assert p in LiveForward(r.states[i].store);
      assert LosesMirror(r, i, p);
    }
  }

  const P: ProjectId := "p"

  /** The store after "p" -> "a" was set on an empty store. */
  lemma FirstSet()
    ensures var e := (v: string) => Entry(v, PROJECT_SANDBOX_TTL);
            AfterSet(EMPTY, P, "a") ==
              Store(0, map[P := e("a")], map["a" := e(P)], Index({P}, Some(PROJECT_SANDBOX_TTL)), map[],
                    [PrintUpdate(P, "a")])
  {
    SetUnfolds(EMPTY, P, "a");
  }

  /** "a" is being released: its reverse entry and P's forward entry are deleted, the index entry is not yet. */
  const HALF_REMOVED: State :=
    State(Store(0, map[], map[], Index({P}, Some(PROJECT_SANDBOX_TTL)), map[], [PrintUpdate(P, "a")]),
          map[0 := SetJob(P, "a", 5), 1 := RemoveJob("a", Some(P), 2)], map["a" := P])

  lemma HalfRemoved()
    ensures Reaches(HALF_REMOVED, IsAny)
  {
    FromNothing(IsAny);
    ThenSet(INITIAL, 0, P, "a", IsAny);
    hide Reaches;
    FirstSet();
    var st := WithSet(INITIAL, 0, P, "a");
    var s1 := st.(jobs := st.jobs[1 := RemoveJob("a", Some(P), 0)]);
    Then(st, BeginRemove(1, "a"), s1, IsAny);
    var s2 := State(DeleteReverse(st.store, "a"), st.jobs[1 := RemoveJob("a", Some(P), 1)], st.owner);
    Then(s1, Exec(1), s2, IsAny);
    Then(s2, Exec(1), HALF_REMOVED, IsAny);
  }

  /** The index agreement needs its pipelines whole: interleaved, a removal can drop a live project from the index. */
  lemma InterleavingLosesIndexEntry()
    ensures exists r :: IsRun(r) && IsQuiescent(Last(r))
                        && AllMappings(Last(r).store) == map[] && LiveForward(Last(r).store) == map[P := "b"]
  {
    hide PrintUpdate, PrintRemoval;
    var st := SetWhileRemoving();
    var r :| IsRun(r) && Last(r) == st;
  }

  /** A set that runs through while the removal is half done, and the rest of the removal. */
  lemma SetWhileRemoving() returns (st: State)
    ensures Reaches(st, IsAny) && st.jobs == HALF_REMOVED.jobs[2 := SetJob(P, "b", 5)][1 := RemoveJob("a", Some(P), 5)]
    ensures st.store.forward == map[P := Entry("b", PROJECT_SANDBOX_TTL)]
    ensures st.store.now == 0 && st.store.index.members == {}
  {
    HalfRemoved();
    SetUnfolds(HALF_REMOVED.store, P, "b");
    ThenSet(HALF_REMOVED, 2, P, "b", IsAny);
    hide Reaches, PrintUpdate, PrintRemoval;
    st := WithSet(HALF_REMOVED, 2, P, "b");
    DrainIsAtomic(st, 1);
    TailOfRemoval(st.store, "a");
    ThenDrain(st, 1, IsAny);
    st := Drain(st, 1);
  }

  const TTL: Time := PROJECT_SANDBOX_TTL

  /** The first three commands of a set. */
  lemma ThenAdd(st: State, j: JobId, p: ProjectId, s: SandboxId, allowed: Event -> bool)
    requires Reaches(st, allowed) && allowed(Exec(j)) && j in st.jobs && st.jobs[j] == SetJob(p, s, 0)
    ensures Reaches(st.(store := AddToIndex(SetReverse(SetForward(st.store, p, s), p, s), p),
                        jobs := st.jobs[j := SetJob(p, s, 3)]), allowed)
  {
    hide Reaches;
    var s1 := st.(store := SetForward(st.store, p, s), jobs := st.jobs[j := SetJob(p, s, 1)]);
    Then(st, Exec(j), s1, allowed);
    var s2 := st.(store := SetReverse(s1.store, p, s), jobs := st.jobs[j := SetJob(p, s, 2)]);
    Then(s1, Exec(j), s2, allowed);
    Then(s2, Exec(j), st.(store := AddToIndex(s2.store, p), jobs := st.jobs[j := SetJob(p, s, 3)]), allowed);
  }

  /** "p" -> "a" was set a TTL less 1 ms ago; a set of "q" -> "b" has added "q" to the index and not renewed it yet. */
  lemma AboutToLapse() returns (st: State)
    ensures Reaches(st, IsNoRemoval) && st.jobs == map[0 := SetJob(P, "a", 5), 1 := SetJob("q", "b", 3)]
    ensures st.store.now == TTL - 1 && st.store.index == Index({P, "q"}, Some(TTL))
    ensures st.store.forward == map[P := Entry("a", TTL), "q" := Entry("b", TTL - 1 + TTL)]
  {
    FromNothing(IsNoRemoval);
    ThenSet(INITIAL, 0, P, "a", IsNoRemoval);
    hide Reaches;
    FirstSet();
    st := WithSet(INITIAL, 0, P, "a");
    var late := st.(store := st.store.(now := TTL - 1));
    Then(st, Tick(TTL - 1), late, IsNoRemoval);
    st := State(late.store, late.jobs[1 := SetJob("q", "b", 0)], late.owner["b" := "q"]);
    Then(late, BeginSet(1, "q", "b"), st, IsNoRemoval);
    ThenAdd(st, 1, "q", "b", IsNoRemoval);
    st := st.(store := AddToIndex(SetReverse(SetForward(st.store, "q", "b"), "q", "b"), "q"),
              jobs := st.jobs[1 := SetJob("q", "b", 3)]);
    assert {P} + {"q"} == {P, "q"};
  }

  /** Nor is a removal needed: the index set can lapse between a set's SADD and its EXPIRE. */
  lemma LapseLosesIndexEntry()
    ensures exists r :: IsRun(r) && IsQuiescent(Last(r)) && (forall e <- r.events :: IsNoRemoval(e))
                        && AllMappings(Last(r).store) == map[] && LiveForward(Last(r).store) == map["q" := "b"]
  {
    var st := AboutToLapse();
    var late := st.(store := st.store.(now := TTL));
    Then(st, Tick(1), late, IsNoRemoval);
    var s1 := late.(jobs := st.jobs[1 := SetJob("q", "b", 4)]);
    Then(late, Exec(1), s1, IsNoRemoval);
    var s2 := State(Publish(late.store, PrintUpdate("q", "b")), st.jobs[1 := SetJob("q", "b", 5)], st.owner);
    Then(s1, Exec(1), s2, IsNoRemoval);
    assert IsQuiescent(s2) && AllMappings(s2.store) == map[] && LiveForward(s2.store) == map["q" := "b"];
    hide IsQuiescent, AllMappings, LiveForward, Enabled, Apply, IsStep;
    var r :| IsRun(r) && Last(r) == s2 && forall e <- r.events :: IsNoRemoval(e);
  }

  /** The last three commands of the removal. */
  lemma TailOfRemoval(st: Store, s: SandboxId)
    ensures RunJob(st, RemoveJob(s, Some(P), 2)) == MarkReleased(Publish(RemoveFromIndex(st, P), PrintRemoval(P)), s)
  {
    var s3 := RemoveFromIndex(st, P);
    var s4 := Publish(s3, PrintRemoval(P));
    var s5 := MarkReleased(s4, s);
    assert RunJob(s4, RemoveJob(s, Some(P), 4)) == RunJob(s5, RemoveJob(s, Some(P), 5)) == s5;
    assert RunJob(s3, RemoveJob(s, Some(P), 3)) == RunJob(s4, RemoveJob(s, Some(P), 4));
  }
}
