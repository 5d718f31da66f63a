/**
 GetProjectSandbox in the shape of the source, over the whole system. Between any two commands of a request every other
 part of the system may take any number of steps; every command may fail.
 */
module ProjectService {
  import opened Wrappers
  import opened Ids
  import opened Timed
  import opened ProjectStore
  import opened System
  import SP = SystemProofs
  import PB = PoolBounds

  datatype Status = Active | BeingCreated | ErrorStatus

  /** GetProjectSandboxResponse; an error status carries no sandbox. */
  datatype Response = Response(sandbox: SandboxId, status: Status)

  /** The events of request q, once it has begun. */
  predicate IsOf(e: Event, q: RequestId) {
    IsRequestEvent(e) && e.request == q
  }

  /** A pipeline later in its course. */
  predicate Advances(a: Job, b: Job) {
    match a
    case SetJob(p, s, step) => b.SetJob? && b.project == p && b.sandbox == s && step <= b.step
    case RemoveJob(s, found, step) => b.RemoveJob? && b.sandbox == s && b.found == found && step <= b.step
  }

  lemma BystanderKeeps(st: State, e: Event, q: RequestId)
    requires Enabled(st, e) && q in st.requests && !IsOf(e, q)
    ensures q in Apply(st, e).requests && Apply(st, e).requests[q] == st.requests[q]
  {
    hide C.Apply, L.Apply, M.Apply;
  }

  lemma CallsAdvance(st: State, e: Event)
    requires Enabled(st, e)
    ensures forall c <- st.claims.calls ::
              c in Apply(st, e).claims.calls && Apply(st, e).claims.calls[c].key == st.claims.calls[c].key
  {
    hide C.Apply, C.Enabled, L.Apply, L.Enabled, M.Apply, M.Enabled;
    if e.ClaimStep? {
      KeysStay(st.claims, e.claim);
    } else if e.BeginSchedule? {
      KeysStay(st.claims, C.Begin(e.call, st.requests[e.request].project));
    } else if e.BeginPoolSchedule? {
      KeysStay(st.claims, C.Begin(e.call, e.key));
    } else if e.Tick? {
      KeysStay(st.claims, C.Tick(e.elapsed));
    }
  }

  lemma KeysStay(claims: C.State, ce: C.Event)
    requires C.Enabled(claims, ce)
    ensures forall c <- claims.calls ::
              c in C.Apply(claims, ce).calls && C.Apply(claims, ce).calls[c].key == claims.calls[c].key
  {
  }

  lemma PipelinesAdvance(st: State, e: Event)
    requires Enabled(st, e)
    ensures forall j <- st.maps.jobs ::
              j in Apply(st, e).maps.jobs && Advances(st.maps.jobs[j], Apply(st, e).maps.jobs[j])
  {
    hide C.Apply, C.Enabled, L.Apply, L.Enabled, NextCommand;
  }

  /** Whatever the rest of the system does from state i to state j, request q stays where it is. */
  lemma {:induction false} OthersLeaveRequestAlone(r: Run, config: L.Config, i: nat, j: nat, q: RequestId)
    requires IsRun(r, config) && i <= j < |r.states| && q in r.states[i].requests
    requires forall m :: i <= m < j ==> !IsOf(r.events[m], q)
    ensures q in r.states[j].requests && r.states[j].requests[q] == r.states[i].requests[q]
    ensures var a, b := r.states[i].maps.jobs, r.states[j].maps.jobs;
            forall k <- a :: k in b && Advances(a[k], b[k])
    ensures var a, b := r.states[i].claims.calls, r.states[j].claims.calls;
            forall c <- a :: c in b && b[c].key == a[c].key
    decreases j
  {
    hide Enabled, Apply;
    if i < j {
      OthersLeaveRequestAlone(r, config, i, j - 1, q);
      assert IsStep(r, j - 1);
      BystanderKeeps(r.states[j - 1], r.events[j - 1], q);
      PipelinesAdvance(r.states[j - 1], r.events[j - 1]);
      CallsAdvance(r.states[j - 1], r.events[j - 1]);
    }
  }

  /** Every command of a set is a step of the run between the set's beginning and the point it has reached. */
  lemma {:induction false} CommandRan(r: Run, config: L.Config, i: nat, j: nat, job: M.JobId, k: nat) returns (m: nat)
    requires IsRun(r, config) && i <= j < |r.states| && job in r.states[j].maps.jobs
    requires r.states[j].maps.jobs[job].SetJob? && k < r.states[j].maps.jobs[job].step
    requires job in r.states[i].maps.jobs ==> r.states[i].maps.jobs[job].step <= k
    ensures i <= m < j && r.events[m] == PipelineStep(job) && IsStep(r, m)
    ensures var after := r.states[j].maps.jobs[job];
            job in r.states[m].maps.jobs && r.states[m].maps.jobs[job] == SetJob(after.project, after.sandbox, k)
    decreases j
  {
    hide Enabled, Apply;
    assert i < j;
    assert IsStep(r, j - 1);
    var before, after := r.states[j - 1].maps.jobs, r.states[j].maps.jobs;
    JobSteps(r.states[j - 1], r.events[j - 1], job);
    if r.events[j - 1] == PipelineStep(job) && before[job].step == k {
      m := j - 1;
    } else {
      m := CommandRan(r, config, i, j - 1, job, k);
    }
  }

  /** A step gets a set one command further, if it is one of the set's commands, and otherwise leaves it. */
  lemma JobSteps(st: State, e: Event, job: M.JobId)
    requires Enabled(st, e) && job in Apply(st, e).maps.jobs
    ensures var after := Apply(st, e).maps.jobs[job];
            if job !in st.maps.jobs then after.step == 0
            else after == st.maps.jobs[job].(step := st.maps.jobs[job].step + if e == PipelineStep(job) then 1 else 0)
  {
    hide C.Apply, C.Enabled, L.Apply, L.Enabled, NextCommand;
  }

  predicate Continues(a: Run, b: Run) {
    a.states <= b.states && a.events <= b.events
  }

  /** From state i on some step of the run was of a certain kind. */
  ghost predicate Happened(r: Run, i: nat, isSuch: (State, State) -> bool) {
    exists m: nat :: i <= m && HappensAt(r, m, isSuch)
  }

  ghost predicate HappensAt(r: Run, m: nat, isSuch: (State, State) -> bool) {
    m + 1 < |r.states| && isSuch(r.states[m], r.states[m + 1])
  }

  lemma HappenedLasts(a: Run, b: Run, i: nat, j: nat, isSuch: (State, State) -> bool)
    requires Happened(a, i, isSuch) && j <= i && a.states <= b.states
    ensures Happened(b, j, isSuch)
  {
    var m: nat :| i <= m && HappensAt(a, m, isSuch);
    assert HappensAt(b, m, isSuch);
  }

  /** From state i on the mapping of p to s was written, both ways and for a day, indexed and announced. */
  ghost predicate IsStored(r: Run, i: nat, p: ProjectId, s: SandboxId) {
    && Happened(r, i, (a, b) => WritesForward(a, b, p, s))
    && Happened(r, i, (a, b) => WritesReverse(a, b, p, s))
    && Happened(r, i, (a, b) => WritesIndex(b, p))
    && Happened(r, i, (a, b) => Announces(a, b, p, s))
  }

  predicate WritesForward(a: State, b: State, p: ProjectId, s: SandboxId) {
    b.maps.store.forward == a.maps.store.forward[p := Entry(s, a.maps.store.now + DAY)]
  }

  predicate WritesReverse(a: State, b: State, p: ProjectId, s: SandboxId) {
    b.maps.store.reverse == a.maps.store.reverse[s := Entry(p, a.maps.store.now + DAY)]
  }

  predicate WritesIndex(b: State, p: ProjectId) {
    IndexLive(b.maps.store) && p in b.maps.store.index.members
  }

  /** The update of p to s is published, which a subscriber reads off if the names come through. */
  predicate Announces(a: State, b: State, p: ProjectId, s: SandboxId) {
    b.maps.store.log == a.maps.store.log + [p + ":update:" + s]
  }

  lemma IsStoredLasts(a: Run, b: Run, i: nat, j: nat, p: ProjectId, s: SandboxId)
    requires IsStored(a, i, p, s) && j <= i && a.states <= b.states
    ensures IsStored(b, j, p, s)
  {
    hide Happened;
    HappenedLasts(a, b, i, j, (x, y) => WritesForward(x, y, p, s));
    HappenedLasts(a, b, i, j, (x, y) => WritesReverse(x, y, p, s));
    HappenedLasts(a, b, i, j, (x, y) => WritesIndex(y, p));
    HappenedLasts(a, b, i, j, (x, y) => Announces(x, y, p, s));
  }

  /** From state i on the service of p was seen to select s. */
  ghost predicate IsServed(r: Run, i: nat, p: ProjectId, s: SandboxId) {
    Happened(r, i, (a, b) => Selects(b, p, s))
  }

  predicate Selects(st: State, p: ProjectId, s: SandboxId) {
    p in st.services && st.services[p] == s
  }

  lemma IsServedLasts(a: Run, b: Run, i: nat, j: nat, p: ProjectId, s: SandboxId)
    requires IsServed(a, i, p, s) && j <= i && a.states <= b.states
    ensures IsServed(b, j, p, s)
  {
    HappenedLasts(a, b, i, j, (x, y) => Selects(y, p, s));
  }

  /**
   A request that took s for gone from state i on had reason to: it read a live release marker, or it asked the cluster,
   which had no such pod or, if its commands can fail, did not answer.
   */
  ghost predicate FoundGone(r: Run, i: nat, q: RequestId, s: SandboxId, canFail: bool) {
    exists m: nat :: i <= m < |r.events| && m < |r.states| && IsSignOfEnd(r.states[m], r.events[m], q, s, canFail)
  }

  predicate IsSignOfEnd(st: State, e: Event, q: RequestId, s: SandboxId, canFail: bool) {
    || (e == CheckReleased(q, true) && IsReleased(st.maps.store, s))
    || (e == CheckPod(q, true) && s !in st.pods)
    || (e == CheckPod(q, false) && canFail)
  }

  /** One that took s to be alive read that it was not marked as released or, if its commands can fail, could not. */
  ghost predicate FoundUnmarked(r: Run, i: nat, q: RequestId, s: SandboxId, canFail: bool) {
    exists m: nat :: i <= m < |r.events| && m < |r.states| && IsSignOfLife(r.states[m], r.events[m], q, s, canFail)
  }

  predicate IsSignOfLife(st: State, e: Event, q: RequestId, s: SandboxId, canFail: bool) {
    || (e == CheckReleased(q, true) && !IsReleased(st.maps.store, s))
    || (e == CheckReleased(q, false) && canFail)
  }

  lemma FoundUnmarkedLasts(a: Run, b: Run, i: nat, j: nat, q: RequestId, s: SandboxId, canFail: bool)
    requires FoundUnmarked(a, i, q, s, canFail) && j <= i && Continues(a, b)
    ensures FoundUnmarked(b, j, q, s, canFail)
  {
    var m: nat :| i <= m < |a.events| && m < |a.states| && IsSignOfLife(a.states[m], a.events[m], q, s, canFail);
    assert IsSignOfLife(b.states[m], b.events[m], q, s, canFail);
  }

  /** Its lookup found no sandbox to reuse: none, an unreadable one, or one it then found gone; or the lookup failed. */
  ghost predicate NothingToReuse(r: Run, i: nat, q: RequestId, p: ProjectId, canFail: bool) {
    exists m: nat :: i <= m < |r.events| && m < |r.states| && ReadsNothing(r, m, q, p, canFail)
  }

  ghost predicate ReadsNothing(r: Run, m: nat, q: RequestId, p: ProjectId, canFail: bool)
    requires m < |r.events| && m < |r.states|
  {
    || (r.events[m] == Read(q, false) && canFail)
    || (r.events[m] == Read(q, true)
        && match LookupForward(r.states[m].maps.store, p)
           case HasSandbox(s) => FoundGone(r, m, q, s, canFail)
           case NoSandbox => true
           case BadSandbox => true)
  }

  lemma FoundGoneLasts(a: Run, b: Run, i: nat, j: nat, q: RequestId, s: SandboxId, canFail: bool)
    requires FoundGone(a, i, q, s, canFail) && j <= i && Continues(a, b)
    ensures FoundGone(b, j, q, s, canFail)
  {
    var m: nat :| i <= m < |a.events| && m < |a.states| && IsSignOfEnd(a.states[m], a.events[m], q, s, canFail);
    assert IsSignOfEnd(b.states[m], b.events[m], q, s, canFail);
  }

  lemma NothingToReuseLasts(a: Run, b: Run, i: nat, j: nat, q: RequestId, p: ProjectId, canFail: bool)
    requires NothingToReuse(a, i, q, p, canFail) && j <= i && Continues(a, b)
    ensures NothingToReuse(b, j, q, p, canFail)
  {
    var m: nat :| i <= m < |a.events| && m < |a.states| && ReadsNothing(a, m, q, p, canFail);
    var reply := LookupForward(a.states[m].maps.store, p);
    if reply.HasSandbox? && FoundGone(a, m, q, reply.sandbox, canFail) {
      FoundGoneLasts(a, b, m, m, q, reply.sandbox, canFail);
    }
    assert ReadsNothing(b, m, q, p, canFail);
  }

  /** The last state has a set of p to s, begun after state i, that has run to its end. */
  ghost predicate IsEndedSet(r: Run, i: nat, job: M.JobId, p: ProjectId, s: SandboxId)
    requires i < |r.states|
  {
    var before, after := r.states[i].maps.jobs, r.states[|r.states| - 1].maps.jobs;
    job !in before && job in after && after[job].SetJob? && !M.IsOpen(after[job])
    && after[job].project == p && after[job].sandbox == s
  }

  lemma EndedSetWroteMaps(r: Run, config: L.Config, i: nat, job: M.JobId, p: ProjectId, s: SandboxId)
    requires IsRun(r, config) && i < |r.states| && IsEndedSet(r, i, job, p, s)
    ensures Happened(r, i, (a, b) => WritesForward(a, b, p, s))
    ensures Happened(r, i, (a, b) => WritesReverse(a, b, p, s))
  {
    var m0 := CommandRan(r, config, i, |r.events|, job, 0);
    assert HappensAt(r, m0, (a, b) => WritesForward(a, b, p, s));
    var m1 := CommandRan(r, config, i, |r.events|, job, 1);
    assert HappensAt(r, m1, (a, b) => WritesReverse(a, b, p, s));
  }

  lemma EndedSetToldOthers(r: Run, config: L.Config, i: nat, job: M.JobId, p: ProjectId, s: SandboxId)
    requires IsRun(r, config) && i < |r.states| && IsEndedSet(r, i, job, p, s)
    ensures Happened(r, i, (a, b) => WritesIndex(b, p))
    ensures Happened(r, i, (a, b) => Announces(a, b, p, s))
  {
    var m2 := CommandRan(r, config, i, |r.events|, job, 2);
    assert HappensAt(r, m2, (a, b) => WritesIndex(b, p));
    var m4 := CommandRan(r, config, i, |r.events|, job, 4);
    assert HappensAt(r, m4, (a, b) => Announces(a, b, p, s));
  }

  /** Such a set has stored its mapping. */
  lemma EndedSetIsStored(r: Run, config: L.Config, i: nat, job: M.JobId, p: ProjectId, s: SandboxId)
    requires IsRun(r, config) && i < |r.states| && IsEndedSet(r, i, job, p, s)
    ensures IsStored(r, i, p, s)
  {
    hide Happened;
    EndedSetWroteMaps(r, config, i, job, p, s);
    EndedSetToldOthers(r, config, i, job, p, s);
  }

  /** The answer for a new sandbox: created at once if nobody waits, and otherwise what waiting for it gave. */
  function Outcome(s: SandboxId, waitForCreation: bool, ready: Result<bool>): Result<Response> {
    if !waitForCreation then Success(Response(s, BeingCreated))
    else
      match ready
      case Failure => Failure
      case Success(isReady) => Success(if isReady then Response(s, Active) else Response("", ErrorStatus))
  }

  predicate Answers(r: Result<Response>) {
    r.Success? && !r.value.status.ErrorStatus?
  }

  /** There is always another identifier. */
  lemma {:induction false} Unused(used: set<nat>) returns (n: nat)
    ensures n !in used && forall k <- used :: k < n
  {
    n := 0;
    if used != {} {
      var k :| k in used;
      n := Unused(used - {k});
      assert forall j <- used :: j == k || j in used - {k};
      n := if n <= k then k + 1 else n;
    }
  }

  /** A call that is over and has returned a sandbox. */
  predicate EndedWell(claims: C.State, call: C.CallId) {
    HasEnded(claims, call) && ReturnedBy(claims, call).Some?
  }

  /** The call made under the project's key is not one that has returned a sandbox. */
  predicate HasFailed(claims: C.State, call: Option<C.CallId>, p: ProjectId) {
    call.Some? && call.value in claims.calls && claims.calls[call.value].key == p && !EndedWell(claims, call.value)
  }

  class Service {
    /** No command of this caller fails. */
    const reliable: bool
    var st: State
    ghost var run: Run
    ghost const config: L.Config

    ghost predicate Valid()
      reads this
    {
      && IsRun(run, config) && SP.SystemInv(st)
      && |run.states| == |run.events| + 1 && run.states[|run.events|] == st
    }

    constructor (config: L.Config, reliable: bool)
      ensures Valid() && st == Initial(config) && this.reliable == reliable
    {
      this.reliable := reliable;
      this.config := config;
      st := Initial(config);
      run := Run([Initial(config)], []);
      new;
      SP.InitialIsOk(config);
    }

    /** One command takes effect. */
    method Do(e: Event)
      requires Valid() && Enabled(st, e)
      modifies this
      ensures Valid() && st == Apply(old(st), e)
      ensures run == Run(old(run.states) + [st], old(run.events) + [e])
    {
      hide Enabled, Apply, SP.SystemInv;
      SP.SystemStep(st, e);
      ghost var was := run;
      run := Run(run.states + [Apply(st, e)], run.events + [e]);
      forall i: nat | i < |run.events|
        ensures IsStep(run, i)
      {
        assert i < |was.events| ==> IsStep(was, i);
      }
      st := Apply(st, e);
    }

    /** Whether a command succeeds. */
    method Succeeds() returns (ok: bool)
      ensures reliable ==> ok
    {
      ok := *;
      ok := ok || reliable;
    }

    /**
     Any number of steps of everything but request q. Callers know its contract only, which every continuation meets
     (OthersLeaveRequestAlone); this one takes no step.
     */
    method Others(ghost q: RequestId)
      requires Valid() && q in st.requests
      modifies this
      ensures Valid() && q in st.requests && st.requests[q] == old(st.requests[q])
      ensures forall j <- old(st.maps.jobs) :: j in st.maps.jobs && Advances(old(st.maps.jobs[j]), st.maps.jobs[j])
      ensures forall c <- old(st.claims.calls) ::
                c in st.claims.calls && st.claims.calls[c].key == old(st.claims.calls[c].key)
      ensures Continues(old(run), run)
      ensures forall i :: |old(run.events)| <= i < |run.events| ==> !IsOf(run.events[i], q)
    {
    }

    /** The request is at its given phase for its given project. */
    ghost predicate IsAt(q: RequestId, p: ProjectId, phase: Phase)
      reads this
    {
      q in st.requests && st.requests[q] == Request(p, phase)
    }

    /**
     Store lookup and aliveness check: the sandbox to reuse, if there is one. A reused sandbox is the stored one and its
     pod exists. One is reused unless the lookup found none, or what it found was seen to be gone.
     */
    method FindActive(q: RequestId, p: ProjectId) returns (active: Option<SandboxId>)
      requires Valid() && IsAt(q, p, Reading)
      modifies this
      ensures Valid() && Continues(old(run), run)
      ensures IsAt(q, p, if active.Some? then Responded(active.value, true) else Popping)
      ensures active.Some? ==>
                old(LookupForward(st.maps.store, p)) == HasSandbox(active.value) && active.value in st.pods
                && FoundUnmarked(run, |old(run.events)|, q, active.value, !reliable)
      ensures active.None? ==> NothingToReuse(run, |old(run.events)|, q, p, !reliable)
    {
      hide SP.SystemInv, IsRun, FoundGone, FoundUnmarked;
      active := None;
      ghost var m := |run.events|;
      var ok := Succeeds();
      Do(Read(q, ok));
      if st.requests[q].phase.CheckingReleased? {
        var sandbox := st.requests[q].phase.sandbox;
        Others(q);
        ghost var asked := |run.events|;
        var alive := IsAlive(q, p, sandbox);
        active := if alive then Some(sandbox) else None;
        if !alive {
          FoundGoneLasts(run, run, asked, m, q, sandbox, !reliable);
        } else {
          FoundUnmarkedLasts(run, run, asked, m, q, sandbox, !reliable);
        }
      }
      assert active.None? ==> ReadsNothing(run, m, q, p, !reliable);
    }

    /** IsSandboxGone, an error being taken for gone. */
    method IsAlive(q: RequestId, p: ProjectId, s: SandboxId) returns (alive: bool)
      requires Valid() && IsAt(q, p, CheckingReleased(s))
      modifies this
      ensures Valid() && Continues(old(run), run)
      ensures IsAt(q, p, if alive then Responded(s, true) else Popping)
      ensures alive ==> s in st.pods && FoundUnmarked(run, |old(run.events)|, q, s, !reliable)
      ensures !alive ==> FoundGone(run, |old(run.events)|, q, s, !reliable)
    {
      hide SP.SystemInv, IsRun;
      ghost var m := |run.events|;
      var ok := Succeeds();
      Do(CheckReleased(q, ok));
      if st.requests[q].phase.Popping? {
        assert IsSignOfEnd(run.states[m], run.events[m], q, s, !reliable);
        return false;
      }
      assert IsSignOfLife(run.states[m], run.events[m], q, s, !reliable);
      Others(q);
      alive := HasPod(q, p, s);
    }

    /** The pod lookup. */
    method HasPod(q: RequestId, p: ProjectId, s: SandboxId) returns (alive: bool)
      requires Valid() && IsAt(q, p, CheckingPod(s))
      modifies this
      ensures Valid() && Continues(old(run), run)
      ensures IsAt(q, p, if alive then Responded(s, true) else Popping)
      ensures alive ==> s in st.pods
      ensures !alive ==> FoundGone(run, |old(run.events)|, q, s, !reliable)
    {
      hide SP.SystemInv, IsRun;
      ghost var m := |run.events|;
      var ok := Succeeds();
      Do(CheckPod(q, ok));
      alive := st.requests[q].phase.Responded?;
      assert !alive ==> IsSignOfEnd(run.states[m], run.events[m], q, s, !reliable);
    }

    /** sandboxPool.GetSandbox: a ready sandbox, an empty pool, or an error. */
    method PopSandbox(q: RequestId, p: ProjectId) returns (r: Result<Option<SandboxId>>)
      requires Valid() && IsAt(q, p, Popping)
      modifies this
      ensures Valid()
      ensures IsAt(q, p, match r
                         case Success(Some(s)) => Assigning(s)
                         case Success(None) => ToSchedule
                         case Failure => Failed)
      ensures match r
              case Success(Some(s)) => L.IsMin(old(st.pool.ready), s) && st.pool.ready == old(st.pool.ready) - {s}
              case Success(None) => old(st.pool.ready) == map[]
              case Failure => !reliable
      ensures Continues(old(run), run)
    {
      hide SP.SystemInv, IsRun, C.Apply, M.Apply;
      var ok := Succeeds();
      if !ok {
        Do(Abandon(q));
        return Failure;
      }
      if |st.pool.ready| == 0 {
        Do(PopEmpty(q));
        return Success(None);
      }
      r := PopFirst(q, p);
    }

    /** ZPOPMIN on a pool that is not empty; its reply may be lost. */
    method PopFirst(q: RequestId, p: ProjectId) returns (r: Result<Option<SandboxId>>)
      requires Valid() && IsAt(q, p, Popping) && st.pool.ready != map[]
      modifies this
      ensures Valid() && r != Success(None) && (reliable ==> r.Success?)
      ensures IsAt(q, p, if r.Success? && r.value.Some? then Assigning(r.value.value) else Failed)
      ensures r.Success? && r.value.Some? ==>
                L.IsMin(old(st.pool.ready), r.value.value) && st.pool.ready == old(st.pool.ready) - {r.value.value}
      ensures Continues(old(run), run)
    {
      hide SP.SystemInv, IsRun, C.Apply, C.Enabled, M.Apply, M.Enabled;
      ghost var first := PB.MinExists(st.pool.ready);
      var s :| s in st.pool.ready && L.IsMin(st.pool.ready, s);
      var delivered := Succeeds();
      Do(Pop(q, s, delivered));
      r := if delivered then Success(Some(s)) else Failure;
    }

    /** scheduler.ScheduleSandbox under the project's key, as a new call of the claim protocol. */
    method StartSchedule(q: RequestId, p: ProjectId) returns (call: C.CallId)
      requires Valid() && IsAt(q, p, ToSchedule) && p != ""
      modifies this
      ensures Valid() && IsAt(q, p, Scheduling(call)) && call !in old(st.claims.calls)
      ensures call in st.claims.calls && st.claims.calls[call].key == p && Continues(old(run), run)
    {
      hide SP.SystemInv, IsRun;
      ghost var unused := Unused(st.claims.calls.Keys);
      assert unused !in st.claims.calls;
      call :| call !in st.claims.calls;
      Do(BeginSchedule(q, call));
    }

    /** Its outcome, once the call is over; a caller that stops waiting gets an error. */
    method FinishSchedule(q: RequestId, p: ProjectId, call: C.CallId) returns (r: Result<SandboxId>)
      requires Valid() && IsAt(q, p, Scheduling(call))
      modifies this
      ensures Valid()
      ensures IsAt(q, p, match r
                         case Success(s) => Assigning(s)
                         case Failure => Failed)
      ensures match r
              case Success(s) => HasEnded(old(st.claims), call) && ReturnedBy(old(st.claims), call) == Some(s)
              case Failure => !EndedWell(old(st.claims), call) && st.claims == old(st.claims)
      ensures Continues(old(run), run)
    {
      hide SP.SystemInv, IsRun;
      if !HasEnded(st.claims, call) {
        Do(Abandon(q));
        return Failure;
      }
      match ReturnedBy(st.claims, call) {
        case Some(s) => r := Success(s);
        case None => r := Failure;
      }
      Do(EndSchedule(q));
    }

    /** Starts the pipeline of SetProjectSandbox, whose errors are logged and passed over. */
    method SetMapping(q: RequestId, p: ProjectId, s: SandboxId) returns (job: Option<M.JobId>)
      requires Valid() && IsAt(q, p, Assigning(s))
      modifies this
      ensures Valid() && IsAt(q, p, if job.Some? then Setting(s) else Assigning(s))
      ensures reliable ==> job.Some?
      ensures job.Some? ==> job.value in st.maps.jobs && st.maps.jobs[job.value] == SetJob(p, s, 0)
      ensures job.Some? ==> job.value !in old(st.maps.jobs)
      ensures Continues(old(run), run)
    {
      hide SP.SystemInv, IsRun;
      var ok := Succeeds();
      if !ok {
        return None;
      }
      ghost var unused := Unused(st.maps.jobs.Keys);
      assert unused !in st.maps.jobs;
      var j: M.JobId :| j !in st.maps.jobs;
      Do(BeginAssign(q, j));
      job := Some(j);
    }

    /** The commands of the pipeline, each of which may be the last one if commands can fail. */
    method RunPipeline(q: RequestId, p: ProjectId, s: SandboxId, job: M.JobId)
      requires Valid() && IsAt(q, p, Setting(s)) && job in st.maps.jobs
      modifies this
      ensures Valid() && IsAt(q, p, Setting(s)) && job in st.maps.jobs
      ensures Advances(old(st.maps.jobs[job]), st.maps.jobs[job])
      ensures reliable ==> !M.IsOpen(st.maps.jobs[job])
      ensures Continues(old(run), run)
    {
      hide SP.SystemInv, IsRun;
      while M.IsOpen(st.maps.jobs[job])
        invariant Continues(old(run), run)
        invariant Valid() && IsAt(q, p, Setting(s)) && job in st.maps.jobs
        invariant Advances(old(st.maps.jobs[job]), st.maps.jobs[job])
        decreases Length(st.maps.jobs[job]) - st.maps.jobs[job].step
      {
        var ok := Succeeds();
        if !ok {
          break;
        }
        Do(PipelineStep(job));
        Others(q);
      }
    }

    /** CreateOrUpdateProjectService, whose errors are passed over too. */
    method ServeProject(q: RequestId, p: ProjectId, s: SandboxId)
      requires Valid() && (IsAt(q, p, Assigning(s)) || IsAt(q, p, Setting(s)))
      modifies this
      ensures Valid() && IsAt(q, p, Awaiting(s)) && Continues(old(run), run)
      ensures reliable ==> Selects(st, p, s) && IsServed(run, |old(run.events)|, p, s)
    {
      hide SP.SystemInv, IsRun, C.Apply, M.Apply, L.Apply;
      Do(EndAssign(q));
      Others(q);
      ghost var start := |run.events|;
      PointService(q, p, s);
      if reliable {
        IsServedLasts(run, run, start, |old(run.events)|, p, s);
      }
    }

    method PointService(q: RequestId, p: ProjectId, s: SandboxId)
      requires Valid() && IsAt(q, p, Serving(s))
      modifies this
      ensures Valid() && IsAt(q, p, Awaiting(s)) && Continues(old(run), run)
      ensures reliable ==> Selects(st, p, s) && IsServed(run, |old(run.events)|, p, s)
    {
      hide SP.SystemInv, IsRun, C.Apply, M.Apply, L.Apply;
      ghost var m := |run.events|;
      var ok := Succeeds();
      Do(Serve(q, ok));
      assert reliable ==> HappensAt(run, m, (a, b) => Selects(b, p, s));
    }

    /**
     A sandbox from the pool or, if the pool is empty, from the scheduler. When nothing fails here, only a call that
     does not end well leaves the request without a sandbox.
     */
    method Obtain(q: RequestId, p: ProjectId) returns (r: Result<SandboxId>, ghost call: Option<C.CallId>)
      requires Valid() && IsAt(q, p, Popping) && p != ""
      modifies this
      ensures Valid()
      ensures IsAt(q, p, match r
                         case Success(s) => Assigning(s)
                         case Failure => Failed)
      ensures reliable && old(st.pool.ready) != map[] ==> r.Success? && L.IsMin(old(st.pool.ready), r.value)
      ensures reliable && r.Failure? ==> HasFailed(st.claims, call, p)
      ensures Continues(old(run), run)
    {
      hide SP.SystemInv, IsRun, EndedWell;
      call := None;
      var popped := PopSandbox(q, p);
      match popped {
        case Failure => r := Failure;
        case Success(Some(s)) => r := Success(s);
        case Success(None) =>
          Others(q);
          var started := StartSchedule(q, p);
          call := Some(started);
          Others(q);
          r := FinishSchedule(q, p, started);
      }
    }

    /** Stores the mapping and points the project's service to the sandbox. When nothing fails both are done. */
    method Establish(q: RequestId, p: ProjectId, s: SandboxId)
      requires Valid() && IsAt(q, p, Assigning(s))
      modifies this
      ensures Valid() && IsAt(q, p, Awaiting(s)) && Continues(old(run), run)
      ensures reliable ==> Selects(st, p, s)
      ensures reliable ==> IsStored(run, |old(run.events)|, p, s) && IsServed(run, |old(run.events)|, p, s)
    {
      hide SP.SystemInv, IsRun, IsServed, IsStored;
      ghost var start := |run.events|;
      Store(q, p, s);
      ghost var stored := run;
      ServeProject(q, p, s);
      if reliable {
        IsStoredLasts(stored, run, start, start, p, s);
        IsServedLasts(run, run, |stored.events|, start, p, s);
      }
    }

    /** SetProjectSandbox. */
    method Store(q: RequestId, p: ProjectId, s: SandboxId)
      requires Valid() && IsAt(q, p, Assigning(s))
      modifies this
      ensures Valid() && (IsAt(q, p, Assigning(s)) || IsAt(q, p, Setting(s))) && Continues(old(run), run)
      ensures reliable ==> IsStored(run, |old(run.events)|, p, s)
    {
      hide SP.SystemInv, IsStored;
      var job := SetMapping(q, p, s);
      Others(q);
      if job.Some? {
        RunPipeline(q, p, s, job.value);
        if reliable {
          EndedSetIsStored(run, config, |old(run.events)|, job.value, p, s);
        }
      }
    }

    /**
     The slow path: obtain a sandbox, establish it as the project's, and answer. When nothing fails, the sandbox
     obtained is stored and served whatever becomes of the wait.
     */
    method NewSandbox(q: RequestId, p: ProjectId, waitForCreation: bool, ready: Result<bool>)
      returns (r: Result<Response>, ghost obtained: Option<SandboxId>, ghost call: Option<C.CallId>)
      requires Valid() && IsAt(q, p, Popping) && p != ""
      modifies this
      ensures Valid() && Continues(old(run), run)
      ensures r == if obtained.Some? then Outcome(obtained.value, waitForCreation, ready) else Failure
      ensures if Answers(r) then IsAt(q, p, Responded(obtained.value, false)) else IsAt(q, p, Failed)
      ensures reliable && old(st.pool.ready) != map[] ==>
                obtained.Some? && L.IsMin(old(st.pool.ready), obtained.value)
      ensures reliable ==>
                if obtained.Some?
                then IsStored(run, |old(run.events)|, p, obtained.value)
                     && IsServed(run, |old(run.events)|, p, obtained.value)
                else HasFailed(st.claims, call, p)
    {
      hide SP.SystemInv, IsRun, HasFailed, IsStored, IsServed;
      ghost var start := |run.events|;
      obtained := None;
      var sandbox;
      sandbox, call := Obtain(q, p);
      if sandbox.Failure? {
        return Failure, None, call;
      }
      obtained := Some(sandbox.value);
      Others(q);
      ghost var begun := |run.events|;
      Establish(q, p, sandbox.value);
      ghost var established := run;
      Others(q);
      r := Answer(q, p, sandbox.value, waitForCreation, ready);
      if reliable {
        IsStoredLasts(established, run, begun, start, p, sandbox.value);
        IsServedLasts(established, run, begun, start, p, sandbox.value);
      }
    }

    /**
     GetProjectSandbox, for any project the API accepts. A sandbox in the answer belongs to the project asked for and to
     no other, unless that is called like a key the pool has used. It is a reused one, not seen to be marked as
     released, whose pod exists; or a new one, obtained only if there was nothing to reuse, that is answered as being
     created if nobody waits, as active if the wait for it succeeded, and else not at all. When nothing fails here, a
     new sandbox's mapping is written for a day, indexed and announced, and the project's service selects it, even if
     the wait then fails; and none is obtained only if the call made of the scheduler did not end well.
     */
    method GetProjectSandbox(q: RequestId, p: ProjectId, waitForCreation: bool, ready: Result<bool>)
      returns (r: Result<Response>, ghost obtained: Option<SandboxId>, ghost call: Option<C.CallId>)
      requires Valid() && q !in st.requests && p != ""
      modifies this
      ensures Valid()
      ensures if Answers(r) then IsAt(q, p, Responded(r.value.sandbox, obtained.None?)) else IsAt(q, p, Failed)
      ensures Answers(r) && p !in st.poolKeys ==>
                SP.Owns(st, p, r.value.sandbox) && forall other :: SP.Owns(st, other, r.value.sandbox) ==> other == p
      ensures obtained.None? && r.Success? ==>
                r.value.status.Active? && r.value.sandbox in st.pods
                && FoundUnmarked(run, |old(run.events)|, q, r.value.sandbox, !reliable)
      ensures obtained.Some? || r.Failure? ==> NothingToReuse(run, |old(run.events)|, q, p, !reliable)
      ensures obtained.Some? && !waitForCreation ==> r == Success(Response(obtained.value, BeingCreated))
      ensures obtained.Some? && waitForCreation ==>
                match ready
                case Failure => r.Failure?
                case Success(true) => r == Success(Response(obtained.value, Active))
                case Success(false) => r == Success(Response("", ErrorStatus))
      ensures reliable && obtained.Some? ==>
                IsStored(run, |old(run.events)|, p, obtained.value)
                && IsServed(run, |old(run.events)|, p, obtained.value)
      ensures reliable && obtained.None? && r.Failure? ==>
                HasFailed(st.claims, call, p)
    {
      hide SP.SystemInv, IsRun, HasFailed, IsStored, IsServed, NothingToReuse, FoundUnmarked;
      obtained, call := None, None;
      Do(BeginRequest(q, p));
      Others(q);
      ghost var asked := |run.events|;
      var active := FindActive(q, p);
      if active.Some? {
        r := Success(Response(active.value, Active));
        FoundUnmarkedLasts(run, run, asked, |old(run.events)|, q, active.value, !reliable);
      } else {
        ghost var answered := run;
        Others(q);
        ghost var start := |run.events|;
        r, obtained, call := NewSandbox(q, p, waitForCreation, ready);
        NothingToReuseLasts(answered, run, asked, |old(run.events)|, q, p, !reliable);
        if reliable && obtained.Some? {
          IsStoredLasts(run, run, start, |old(run.events)|, p, obtained.value);
          IsServedLasts(run, run, start, |old(run.events)|, p, obtained.value);
        }
      }
      if Answers(r) && p !in st.poolKeys {
        Owned(q, p, r.value.sandbox);
      }
    }

    /** WaitForSandboxReady, which answers ready, if asked for, and the response. */
    method Answer(q: RequestId, p: ProjectId, s: SandboxId, waitForCreation: bool, ready: Result<bool>)
      returns (r: Result<Response>)
      requires Valid() && IsAt(q, p, Awaiting(s))
      modifies this
      ensures Valid() && r == Outcome(s, waitForCreation, ready) && Continues(old(run), run)
      ensures IsAt(q, p, if Answers(r) then Responded(s, false) else Failed)
    {
      hide SP.SystemInv, IsRun;
      var isReady := match ready case Success(b) => b case Failure => false;
      Do(Respond(q, !waitForCreation || isReady));
      if !waitForCreation {
        r := Success(Response(s, BeingCreated));
      } else if ready.Failure? {
        r := Failure;
      } else if isReady {
        r := Success(Response(s, Active));
      } else {
        r := Success(Response("", ErrorStatus));
      }
    }

    lemma Owned(q: RequestId, p: ProjectId, s: SandboxId)
      requires Valid() && q in st.requests && st.requests[q].project == p && p !in st.poolKeys
      requires st.requests[q].phase.Responded? && st.requests[q].phase.sandbox == s
      ensures SP.Owns(st, p, s) && forall other :: SP.Owns(st, other, s) ==> other == p
    {
      assert SP.RequestOk(st, st.requests[q]);
      forall other | SP.Owns(st, other, s)
        ensures other == p
      {
        SP.OwnerIsUnique(st, p, other, s);
      }
    }
  }
}
