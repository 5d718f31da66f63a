/** No sandbox is shared by two projects, and the parts keep their invariants inside the whole. */
module SystemProofs {
  import opened Wrappers
  import opened Ids
  import opened Timed
  import opened ProjectStore
  import opened System
  import CP = ClaimProofs
  import PO = PoolOwnership

  // ------------------------------------------------------------ ownership

  /** A request of project p popped s. */
  ghost predicate TookFromPool(st: State, p: ProjectId, s: SandboxId) {
    exists i :: 0 <= i < |st.pool.pops| && PopIsBy(st, i, p, s)
  }

  ghost predicate PopIsBy(st: State, i: nat, p: ProjectId, s: SandboxId)
    requires i < |st.pool.pops|
  {
    var pop := st.pool.pops[i];
    pop.sandbox == s && pop.taker in st.requests && st.requests[pop.taker].project == p
  }

  /** The key under which the sandbox was made. */
  function KeyOf(claims: C.State, s: SandboxId): string
    requires s in claims.created && claims.created[s] in claims.calls
  {
    claims.calls[claims.created[s]].key
  }

  /** s belongs to p: it was made under p's key, or made under a key of the pool and popped for p. */
  ghost predicate Owns(st: State, p: ProjectId, s: SandboxId) {
    && s in st.claims.created && st.claims.created[s] in st.claims.calls
    && if KeyOf(st.claims, s) in st.poolKeys then TookFromPool(st, p, s) else KeyOf(st.claims, s) == p
  }

  lemma OwnerIsUnique(st: State, p: ProjectId, q: ProjectId, s: SandboxId)
    requires PO.PoolInv(st.pool) && Owns(st, p, s) && Owns(st, q, s)
    ensures p == q
  {
    if KeyOf(st.claims, s) in st.poolKeys {
      var i :| 0 <= i < |st.pool.pops| && PopIsBy(st, i, p, s);
      var j :| 0 <= j < |st.pool.pops| && PopIsBy(st, j, q, s);
      PO.HandedOutOnce(st.pool, if i < j then i else j, if i < j then j else i);
    }
  }

  // ------------------------------------------------------------ invariant

  /** What a request holds belongs to its project, unless that is called like a key the pool has used. */
  ghost predicate RequestOk(st: State, r: Request) {
    && r.project != ""
    && (r.phase.Scheduling? ==> r.phase.call in st.claims.calls && st.claims.calls[r.phase.call].key == r.project)
    && (r.project !in st.poolKeys && Held(r.phase).Some? ==> Owns(st, r.project, Held(r.phase).value))
  }

  /** The sandbox a request has at hand. */
  function Held(phase: Phase): Option<SandboxId> {
    match phase
    case CheckingReleased(s) => Some(s)
    case CheckingPod(s) => Some(s)
    case Assigning(s) => Some(s)
    case Setting(s) => Some(s)
    case Serving(s) => Some(s)
    case Awaiting(s) => Some(s)
    case Responded(s, _) => Some(s)
    case _ => None
  }

  ghost predicate RequestsOk(st: State) {
    forall q <- st.requests :: RequestOk(st, st.requests[q])
  }

  /** A record that gives s to p is right, unless p is called like a key the pool has used. */
  ghost predicate IsRight(st: State, p: ProjectId, s: SandboxId) {
    p !in st.poolKeys ==> Owns(st, p, s)
  }

  ghost predicate IsProject(st: State, p: ProjectId) {
    exists q :: q in st.requests && st.requests[q].project == p
  }

  ghost predicate RecordsOk(st: State) {
    && (forall p <- st.maps.store.forward :: IsRight(st, p, st.maps.store.forward[p].value))
    && (forall j <- st.maps.jobs :: JobOk(st, st.maps.jobs[j]))
    && (forall s <- st.maps.owner :: IsRight(st, st.maps.owner[s], s) && IsProject(st, st.maps.owner[s]))
    && (forall p <- st.services :: IsRight(st, p, st.services[p]))
  }

  ghost predicate JobOk(st: State, job: Job) {
    job.SetJob? ==> IsRight(st, job.project, job.sandbox)
  }

  /** What the pool made was made under keys of its own, and not under the key of the call it has going. */
  ghost predicate PoolLinkOk(st: State) {
    && (forall key <- st.poolKeys :: IsPoolKey(key))
    && (forall s <- st.pool.made :: IsPoolsOwn(st, s))
    && (forall i :: 0 <= i < |st.pool.pops| ==> st.pool.pops[i].taker in st.requests)
    && (st.poolCall.Some? ==>
          && st.poolCall.value in st.claims.calls && st.claims.calls[st.poolCall.value].key in st.poolKeys
          && st.pool.phase.Creating? && st.pool.phase.left > 0)
  }

  ghost predicate IsPoolsOwn(st: State, s: SandboxId) {
    && s in st.claims.created && st.claims.created[s] in st.claims.calls
    && KeyOf(st.claims, s) in st.poolKeys
    && (st.poolCall.Some? && st.poolCall.value in st.claims.calls ==>
          KeyOf(st.claims, s) != st.claims.calls[st.poolCall.value].key)
  }

  ghost predicate PartsOk(st: State) {
    CP.ProvenanceInv(st.claims) && PO.PoolInv(st.pool)
  }

  ghost predicate SystemInv(st: State) {
    PartsOk(st) && RequestsOk(st) && RecordsOk(st) && PoolLinkOk(st) && st.pods <= st.claims.created.Keys
  }

  // ------------------------------------------------------------ growth

  /** Calls, pods, pops, requests and used keys are never taken back. */
  ghost predicate Grows(a: State, b: State) {
    && CP.Grows(a.claims, b.claims)
    && a.pool.pops <= b.pool.pops && a.poolKeys <= b.poolKeys
    && (forall q <- a.requests :: q in b.requests && b.requests[q].project == a.requests[q].project)
  }

  lemma OwnershipLasts(a: State, b: State, p: ProjectId, s: SandboxId)
    requires Grows(a, b) && IsRight(a, p, s)
    ensures IsRight(b, p, s)
  {
    if p !in b.poolKeys && KeyOf(a.claims, s) in a.poolKeys {
      var i :| 0 <= i < |a.pool.pops| && PopIsBy(a, i, p, s);
      assert b.pool.pops[i] == a.pool.pops[i];
      assert PopIsBy(b, i, p, s);
    }
  }

  lemma RequestLasts(a: State, b: State, r: Request)
    requires Grows(a, b) && RequestOk(a, r)
    ensures RequestOk(b, r)
  {
    if Held(r.phase).Some? {
      OwnershipLasts(a, b, r.project, Held(r.phase).value);
    }
  }

  lemma OwnerLasts(a: State, b: State, s: SandboxId)
    requires Grows(a, b) && s in a.maps.owner && s in b.maps.owner && b.maps.owner[s] == a.maps.owner[s]
    requires IsRight(a, a.maps.owner[s], s) && IsProject(a, a.maps.owner[s])
    ensures IsRight(b, b.maps.owner[s], s) && IsProject(b, b.maps.owner[s])
  {
    OwnershipLasts(a, b, a.maps.owner[s], s);
    var q :| q in a.requests && a.requests[q].project == a.maps.owner[s];
    assert q in b.requests;
  }

  /** Requests that did not move, and records that were not added, stay right. */
  lemma OthersLast(a: State, b: State)
    requires Grows(a, b) && RequestsOk(a) && RecordsOk(a)
    ensures forall q <- b.requests :: q in a.requests && b.requests[q] == a.requests[q] ==> RequestOk(b, b.requests[q])
    ensures b.maps == a.maps && b.services == a.services ==> RecordsOk(b)
  {
    forall q <- b.requests | q in a.requests && b.requests[q] == a.requests[q]
      ensures RequestOk(b, b.requests[q])
    {
      RequestLasts(a, b, a.requests[q]);
    }
    if b.maps == a.maps && b.services == a.services {
      RecordsLast(a, b);
    }
  }

  lemma RecordsLast(a: State, b: State)
    requires Grows(a, b) && RecordsOk(a) && b.maps == a.maps && b.services == a.services
    ensures RecordsOk(b)
  {
    hide IsRight, Grows, IsProject;
    forall p <- b.maps.store.forward
      ensures IsRight(b, p, b.maps.store.forward[p].value)
    {
      OwnershipLasts(a, b, p, a.maps.store.forward[p].value);
    }
    forall j <- b.maps.jobs
      ensures JobOk(b, b.maps.jobs[j])
    {
      assert JobOk(a, a.maps.jobs[j]);
      if a.maps.jobs[j].SetJob? {
        OwnershipLasts(a, b, a.maps.jobs[j].project, a.maps.jobs[j].sandbox);
      }
    }
    forall s <- b.maps.owner
      ensures IsRight(b, b.maps.owner[s], s) && IsProject(b, b.maps.owner[s])
    {
      OwnerLasts(a, b, s);
    }
    forall p <- b.services
      ensures IsRight(b, p, b.services[p])
    {
      OwnershipLasts(a, b, p, a.services[p]);
    }
  }

  // ------------------------------------------------------------ steps of the parts

  lemma CallsStay(claims: C.State, ce: C.Event)
    requires C.Enabled(claims, ce) && !ce.Begin?
    ensures C.Apply(claims, ce).calls.Keys == claims.calls.Keys
    ensures claims.created.Keys <= C.Apply(claims, ce).created.Keys
    ensures ce.Create? || ce.CreateLost? ==> ce.sandbox in C.Apply(claims, ce).created
  {
  }

  lemma PoolStays(pool: L.State, pe: L.Event)
    requires L.Enabled(pool, pe) && !pe.Make? && !pe.PopMin?
    ensures L.Apply(pool, pe).made == pool.made && L.Apply(pool, pe).pops == pool.pops
    ensures pool.phase.Creating? && !pe.MakeFail? && !pe.Crash? ==> L.Apply(pool, pe).phase == pool.phase
  {
  }

  /** When the pool keeps its phase and history, the link between the pool and the claims stays. */
  lemma PoolLinkLasts(a: State, b: State)
    requires PoolLinkOk(a) && Grows(a, b)
    requires a.pool.made == b.pool.made && a.pool.pops == b.pool.pops && a.poolKeys == b.poolKeys
    requires b.poolCall.Some? ==> b.poolCall == a.poolCall && b.pool.phase == a.pool.phase
    ensures PoolLinkOk(b)
  {
    forall s <- b.pool.made
      ensures IsPoolsOwn(b, s)
    {
      assert IsPoolsOwn(a, s);
    }
  }

  lemma ClaimStepKeeps(st: State, ce: C.Event, st': State)
    requires SystemInv(st) && C.Enabled(st.claims, ce) && !ce.Begin?
    requires st' == st.(claims := C.Apply(st.claims, ce), pods := PodsAfter(st.pods, ce))
    ensures SystemInv(st')
  {
    hide C.Apply, C.Enabled, CP.ProvenanceInv, PO.PoolInv, RecordsOk, RequestOk;
    CP.ProvenanceStep(st.claims, ce);
    CP.StepGrows(st.claims, ce);
    CallsStay(st.claims, ce);
    OthersLast(st, st');
    PoolLinkLasts(st, st');
  }

  lemma PoolStepKeeps(st: State, pe: L.Event, st': State)
    requires SystemInv(st) && L.Enabled(st.pool, pe) && !pe.Make? && !pe.MakeFail? && !pe.PopMin?
    requires st' == st.(pool := L.Apply(st.pool, pe), poolCall := if pe.Crash? then None else st.poolCall)
    ensures SystemInv(st')
  {
    hide L.Apply, L.Enabled;
    PO.PoolStep(st.pool, pe);
    PoolStays(st.pool, pe);
    OthersLast(st, st');
    PoolLinkLasts(st, st');
  }

  /** Which records are right does not depend on the records. */
  lemma RightStays(a: State, b: State)
    requires b.claims == a.claims && b.pool == a.pool && b.requests == a.requests && b.poolKeys == a.poolKeys
    ensures forall p, s :: IsRight(a, p, s) ==> IsRight(b, p, s)
    ensures forall p :: IsProject(a, p) ==> IsProject(b, p)
    ensures forall job :: JobOk(a, job) ==> JobOk(b, job)
  {
    forall p, s | IsRight(a, p, s)
      ensures IsRight(b, p, s)
    {
      OwnershipLasts(a, b, p, s);
    }
  }

  /** A command of the store adds no record but those of its own pipeline, which are right. */
  lemma ExecKeepsRecords(st: State, j: M.JobId, st': State)
    requires RecordsOk(st) && M.Enabled(st.maps, M.Exec(j)) && st' == st.(maps := M.Apply(st.maps, M.Exec(j)))
    ensures RecordsOk(st')
  {
    hide NextCommand;
    M.CommandWrites(st.maps.store, st.maps.jobs[j]);
    RightStays(st, st');
    hide IsRight, IsProject;
    assert JobOk(st, st.maps.jobs[j]) && JobOk(st', st'.maps.jobs[j]);
    assert forall i <- st.maps.jobs :: JobOk(st, st.maps.jobs[i]) && (i != j ==> JobOk(st', st.maps.jobs[i]));
  }

  lemma MapStepKeeps(st: State, me: M.Event, st': State)
    requires SystemInv(st) && M.Enabled(st.maps, me) && !me.BeginSet? && st' == st.(maps := M.Apply(st.maps, me))
    ensures SystemInv(st')
  {
    RightStays(st, st');
    hide CP.ProvenanceInv, PO.PoolInv, IsRight, IsProject;
    OthersLast(st, st');
    PoolLinkLasts(st, st');
    if me.Exec? {
      ExecKeepsRecords(st, me.job, st');
    } else {
      assert forall i <- st.maps.jobs :: JobOk(st, st.maps.jobs[i]) && JobOk(st', st.maps.jobs[i]);
    }
  }

  lemma TickKeeps(st: State, d: Time)
    requires SystemInv(st)
    ensures SystemInv(Apply(st, Tick(d)))
  {
    var mid := st.(maps := M.Apply(st.maps, M.Tick(d)));
    MapStepKeeps(st, M.Tick(d), mid);
    ClaimStepKeeps(mid, C.Tick(d), Apply(st, Tick(d)));
  }

  /** A new call of a request. */
  lemma BeginCallKeeps(st: State, c: C.CallId, key: string, st': State)
    requires SystemInv(st) && C.Enabled(st.claims, C.Begin(c, key))
    requires st' == st.(claims := C.Apply(st.claims, C.Begin(c, key)))
    ensures SystemInv(st') && Grows(st, st')
    ensures c in st'.claims.calls && st'.claims.calls[c].key == key
  {
    CP.ProvenanceStep(st.claims, C.Begin(c, key));
    CP.StepGrows(st.claims, C.Begin(c, key));
    hide CP.ProvenanceInv, CP.Grows, RecordsOk, RequestOk, PO.PoolInv;
    OthersLast(st, st');
    PoolLinkLasts(st, st');
  }

  /** A new call of the pool, under a key it has not used. */
  lemma BeginPoolCallKeeps(st: State, c: C.CallId, key: string, st': State)
    requires SystemInv(st) && C.Enabled(st.claims, C.Begin(c, key)) && IsPoolKey(key) && key !in st.poolKeys
    requires st.poolCall.None? && st.pool.phase.Creating? && st.pool.phase.left > 0
    requires st' == st.(claims := C.Apply(st.claims, C.Begin(c, key)), poolCall := Some(c),
                        poolKeys := st.poolKeys + {key})
    ensures SystemInv(st')
  {
    CP.ProvenanceStep(st.claims, C.Begin(c, key));
    CP.StepGrows(st.claims, C.Begin(c, key));
    hide CP.ProvenanceInv, RecordsOk, RequestOk, PO.PoolInv;
    OthersLast(st, st');
    forall s <- st'.pool.made
      ensures IsPoolsOwn(st', s)
    {
      assert IsPoolsOwn(st, s);
    }
  }

  /** What the pool's call returned is new to the pool. */
  lemma PoolResultIsNew(st: State)
    requires SystemInv(st) && st.poolCall.Some? && HasEnded(st.claims, st.poolCall.value)
    ensures L.Enabled(st.pool, PoolResult(st)) && L.IsFresh(st.pool, PoolResult(st))
    ensures PoolResult(st).Make? ==> var s := PoolResult(st).sandbox;
              s in st.claims.created && st.claims.created[s] in st.claims.calls && KeyOf(st.claims, s) in st.poolKeys
  {
    var c := st.poolCall.value;
    assert CP.CallOk(st.claims, c);
    if ReturnedBy(st.claims, c).Some? {
      var s := ReturnedBy(st.claims, c).value;
      assert CP.ResultOk(st.claims, c, s);
      assert s in st.pool.made ==> IsPoolsOwn(st, s);
    }
  }

  lemma EndPoolScheduleKeeps(st: State, st': State)
    requires SystemInv(st) && st.poolCall.Some? && HasEnded(st.claims, st.poolCall.value)
    requires L.Enabled(st.pool, PoolResult(st))
    requires st' == st.(pool := L.Apply(st.pool, PoolResult(st)), poolCall := None)
    ensures SystemInv(st')
  {
    PoolResultIsNew(st);
    PO.PoolStep(st.pool, PoolResult(st));
    hide CP.ProvenanceInv, PO.PoolInv, RecordsOk, RequestOk, L.Enabled;
    OthersLast(st, st');
    forall s <- st'.pool.made
      ensures IsPoolsOwn(st', s)
    {
      assert s in st.pool.made ==> IsPoolsOwn(st, s);
    }
  }

  // ------------------------------------------------------------ steps of requests

  /** Only request q moved, to a phase that is right; everything else is as before. */
  lemma RequestMoveKeeps(st: State, q: RequestId, phase: Phase)
    requires SystemInv(st) && q in st.requests
    requires RequestOk(st, st.requests[q].(phase := phase))
    ensures SystemInv(SetPhase(st, q, phase))
  {
    var st' := SetPhase(st, q, phase);
    hide CP.ProvenanceInv, PO.PoolInv, RecordsOk, RequestOk;
    OthersLast(st, st');
    RequestLasts(st, st', st.requests[q].(phase := phase));
    PoolLinkLasts(st, st');
  }

  /** A sandbox read from p's forward entry is the one written there, and belongs to p. */
  lemma ReadIsOwned(st: State, p: ProjectId)
    requires SystemInv(st) && LookupForward(st.maps.store, p).HasSandbox? && p !in st.poolKeys
    ensures Owns(st, p, LookupForward(st.maps.store, p).sandbox)
    ensures LookupForward(st.maps.store, p).sandbox == st.maps.store.forward[p].value
  {
    var raw := st.maps.store.forward[p].value;
    assert IsRight(st, p, raw);
    Base36Parses(raw);
  }

  lemma PopKeeps(st: State, q: RequestId, s: SandboxId, delivered: bool, st': State)
    requires SystemInv(st) && q in st.requests && L.Enabled(st.pool, L.PopMin(s, q, delivered))
    requires st' == st.(pool := L.Apply(st.pool, L.PopMin(s, q, delivered)))
    ensures SystemInv(st') && Owns(st', st.requests[q].project, s)
  {
    assert PO.Places(st.pool, s) == PO.One(s in st.pool.made);
    PO.PoolStep(st.pool, L.PopMin(s, q, delivered));
    hide CP.ProvenanceInv, PO.PoolInv, RecordsOk, RequestOk;
    OthersLast(st, st');
    assert IsPoolsOwn(st, s);
    assert PopIsBy(st', |st.pool.pops|, st.requests[q].project, s);
    PoolLinkAfterPop(st, st');
  }

  lemma PoolLinkAfterPop(a: State, b: State)
    requires PoolLinkOk(a) && b == a.(pool := b.pool)
    requires b.pool == a.pool.(ready := b.pool.ready, pops := b.pool.pops)
    requires forall i :: 0 <= i < |b.pool.pops| ==> b.pool.pops[i].taker in a.requests
    ensures PoolLinkOk(b)
  {
    forall s <- b.pool.made
      ensures IsPoolsOwn(b, s)
    {
      assert IsPoolsOwn(a, s);
    }
  }

  /** What an ended ScheduleSandbox call for p returned belongs to p. */
  lemma ResultIsOwned(st: State, p: ProjectId, c: C.CallId)
    requires SystemInv(st) && p !in st.poolKeys && HasEnded(st.claims, c) && st.claims.calls[c].key == p
    requires ReturnedBy(st.claims, c).Some?
    ensures Owns(st, p, ReturnedBy(st.claims, c).value)
  {
    assert CP.CallOk(st.claims, c);
    assert CP.ResultOk(st.claims, c, ReturnedBy(st.claims, c).value);
  }

  /** A set of what a request holds, for its project. */
  lemma BeginAssignKeeps(st: State, j: M.JobId, q: RequestId, s: SandboxId, st': State)
    requires SystemInv(st) && q in st.requests && IsRight(st, st.requests[q].project, s)
    requires M.Enabled(st.maps, M.BeginSet(j, st.requests[q].project, s))
    requires st' == st.(maps := M.Apply(st.maps, M.BeginSet(j, st.requests[q].project, s)))
    ensures SystemInv(st')
  {
    assert IsProject(st, st.requests[q].project);
    hide CP.ProvenanceInv, PO.PoolInv, RecordsOk, IsProject, IsRight;
    OthersLast(st, st');
    PoolLinkLasts(st, st');
    BeginSetKeepsRecords(st, j, st.requests[q].project, s, st');
  }

  lemma BeginSetKeepsRecords(st: State, j: M.JobId, p: ProjectId, s: SandboxId, st': State)
    requires RecordsOk(st) && IsRight(st, p, s) && IsProject(st, p) && M.Enabled(st.maps, M.BeginSet(j, p, s))
    requires st' == st.(maps := M.Apply(st.maps, M.BeginSet(j, p, s)))
    ensures RecordsOk(st')
  {
    RightStays(st, st');
    hide IsRight, IsProject;
    assert forall i <- st.maps.jobs :: JobOk(st, st.maps.jobs[i]) && JobOk(st', st.maps.jobs[i]);
    assert forall t <- st.maps.owner :: IsProject(st, st.maps.owner[t]) && IsProject(st', st.maps.owner[t]);
  }

  lemma ServeKeeps(st: State, p: ProjectId, s: SandboxId, st': State)
    requires SystemInv(st) && IsRight(st, p, s) && st' == st.(services := st.services[p := s])
    ensures SystemInv(st')
  {
    RightStays(st, st');
    hide CP.ProvenanceInv, PO.PoolInv, IsRight, IsProject;
    OthersLast(st, st');
    PoolLinkLasts(st, st');
    assert forall i <- st.maps.jobs :: JobOk(st, st.maps.jobs[i]) && JobOk(st', st.maps.jobs[i]);
    assert forall t <- st.maps.owner :: IsProject(st, st.maps.owner[t]) && IsProject(st', st.maps.owner[t]);
  }

  lemma BeginRequestKeeps(st: State, q: RequestId, p: ProjectId, st': State)
    requires SystemInv(st) && q !in st.requests && p != ""
    requires st' == st.(requests := st.requests[q := Request(p, Reading)])
    ensures SystemInv(st')
  {
    hide CP.ProvenanceInv, PO.PoolInv, RecordsOk;
    OthersLast(st, st');
    PoolLinkLasts(st, st');
  }

  lemma ReadKeeps(st: State, q: RequestId, ok: bool)
    requires SystemInv(st) && q in st.requests && RequestEnabled(st, Read(q, ok), st.requests[q])
    ensures SystemInv(ApplyRequest(st, Read(q, ok), q, st.requests[q]))
  {
    var p := st.requests[q].project;
    var reply := LookupForward(st.maps.store, p);
    assert RequestOk(st, st.requests[q]);
    if ok && reply.HasSandbox? {
      if p !in st.poolKeys {
        ReadIsOwned(st, p);
      }
      RequestMoveKeeps(st, q, CheckingReleased(reply.sandbox));
    } else {
      RequestMoveKeeps(st, q, Popping);
    }
  }

  lemma EndScheduleKeeps(st: State, q: RequestId)
    requires SystemInv(st) && q in st.requests && RequestEnabled(st, EndSchedule(q), st.requests[q])
    ensures SystemInv(ApplyRequest(st, EndSchedule(q), q, st.requests[q]))
  {
    var r := st.requests[q];
    assert RequestOk(st, r);
    match ReturnedBy(st.claims, r.phase.call)
    case Some(s) =>
      if r.project !in st.poolKeys {
        ResultIsOwned(st, r.project, r.phase.call);
      }
      RequestMoveKeeps(st, q, Assigning(s));
    case None => RequestMoveKeeps(st, q, Failed);
  }

  /** Steps that keep the sandbox at hand, or let go of it. */
  lemma QuietRequestKeeps(st: State, e: Event, q: RequestId)
    requires SystemInv(st) && q in st.requests
    requires e.CheckReleased? || e.CheckPod? || e.PopEmpty? || e.EndAssign? || e.Respond? || e.Abandon?
    requires RequestEnabled(st, e, st.requests[q])
    ensures SystemInv(ApplyRequest(st, e, q, st.requests[q]))
  {
    hide PartsOk, RecordsOk, PoolLinkOk, Owns;
    assert RequestOk(st, st.requests[q]);
    RequestMoveKeeps(st, q, ApplyRequest(st, e, q, st.requests[q]).requests[q].phase);
  }

  lemma PopRequestKeeps(st: State, q: RequestId, s: SandboxId, delivered: bool)
    requires SystemInv(st) && q in st.requests && RequestEnabled(st, Pop(q, s, delivered), st.requests[q])
    ensures SystemInv(ApplyRequest(st, Pop(q, s, delivered), q, st.requests[q]))
  {
    hide L.Apply;
    assert RequestOk(st, st.requests[q]);
    var mid := st.(pool := L.Apply(st.pool, L.PopMin(s, q, delivered)));
    PopKeeps(st, q, s, delivered, mid);
    RequestMoveKeeps(mid, q, if delivered then Assigning(s) else Failed);
  }

  lemma BeginScheduleKeeps(st: State, q: RequestId, c: C.CallId)
    requires SystemInv(st) && q in st.requests && RequestEnabled(st, BeginSchedule(q, c), st.requests[q])
    ensures SystemInv(ApplyRequest(st, BeginSchedule(q, c), q, st.requests[q]))
  {
    hide C.Apply;
    var p := st.requests[q].project;
    assert RequestOk(st, st.requests[q]);
    var mid := st.(claims := C.Apply(st.claims, C.Begin(c, p)));
    BeginCallKeeps(st, c, p, mid);
    RequestMoveKeeps(mid, q, Scheduling(c));
  }

  lemma BeginAssignRequestKeeps(st: State, q: RequestId, j: M.JobId)
    requires SystemInv(st) && q in st.requests && RequestEnabled(st, BeginAssign(q, j), st.requests[q])
    ensures SystemInv(ApplyRequest(st, BeginAssign(q, j), q, st.requests[q]))
  {
    hide M.Apply;
    var r := st.requests[q];
    assert RequestOk(st, r);
    var mid := st.(maps := M.Apply(st.maps, M.BeginSet(j, r.project, r.phase.sandbox)));
    BeginAssignKeeps(st, j, q, r.phase.sandbox, mid);
    RequestMoveKeeps(mid, q, Setting(r.phase.sandbox));
  }

  lemma ServeRequestKeeps(st: State, q: RequestId, ok: bool)
    requires SystemInv(st) && q in st.requests && RequestEnabled(st, Serve(q, ok), st.requests[q])
    ensures SystemInv(ApplyRequest(st, Serve(q, ok), q, st.requests[q]))
  {
    var r := st.requests[q];
    assert RequestOk(st, r);
    var mid := if ok then st.(services := st.services[r.project := r.phase.sandbox]) else st;
    if ok {
      ServeKeeps(st, r.project, r.phase.sandbox, mid);
    }
    RequestMoveKeeps(mid, q, Awaiting(r.phase.sandbox));
  }

  lemma RequestStep(st: State, e: Event)
    requires SystemInv(st) && Enabled(st, e) && IsRequestEvent(e)
    ensures SystemInv(Apply(st, e))
  {
    hide SystemInv, ApplyRequest;
    if e.Read? {
      ReadKeeps(st, e.request, e.ok);
    } else if e.Pop? {
      PopRequestKeeps(st, e.request, e.sandbox, e.delivered);
    } else if e.BeginSchedule? {
      BeginScheduleKeeps(st, e.request, e.call);
    } else if e.EndSchedule? {
      EndScheduleKeeps(st, e.request);
    } else if e.BeginAssign? {
      BeginAssignRequestKeeps(st, e.request, e.job);
    } else if e.Serve? {
      ServeRequestKeeps(st, e.request, e.ok);
    } else {
      QuietRequestKeeps(st, e, e.request);
    }
  }

  lemma PodGoneKeeps(st: State, s: SandboxId)
    requires SystemInv(st)
    ensures SystemInv(st.(pods := st.pods - {s}))
  {
    OthersLast(st, st.(pods := st.pods - {s}));
    PoolLinkLasts(st, st.(pods := st.pods - {s}));
  }

  lemma SystemStep(st: State, e: Event)
    requires SystemInv(st) && Enabled(st, e)
    ensures SystemInv(Apply(st, e))
  {
    hide SystemInv, C.Apply, L.Apply, M.Apply;
    match e
    case Tick(d) => TickKeeps(st, d);
    case ClaimStep(ce) => ClaimStepKeeps(st, ce, Apply(st, e));
    case PoolStep(pe) => PoolStepKeeps(st, pe, Apply(st, e));
    case PipelineStep(j) => MapStepKeeps(st, M.Exec(j), Apply(st, e));
    case Release(j, s) => MapStepKeeps(st, M.BeginRemove(j, s), Apply(st, e));
    case PodGone(s) => PodGoneKeeps(st, s);
    case BeginPoolSchedule(c, key) => BeginPoolCallKeeps(st, c, key, Apply(st, e));
    case EndPoolSchedule => EndPoolScheduleKeeps(st, Apply(st, e));
    case BeginRequest(q, p) => BeginRequestKeeps(st, q, p, Apply(st, e));
    case _ => RequestStep(st, e);
  }

  lemma InitialIsOk(config: L.Config)
    ensures SystemInv(Initial(config))
  {
    assert forall s :: PO.Places(L.Empty(config), s) == PO.One(s in L.Empty(config).made);
  }

  lemma {:induction false} SystemAt(r: Run, config: L.Config, i: nat)
    requires IsRun(r, config) && i < |r.states|
    ensures forall k :: 0 <= k <= i ==> SystemInv(r.states[k])
  {
    hide Enabled, Apply, SystemInv;
    if i == 0 {
      InitialIsOk(config);
    } else {
      SystemAt(r, config, i - 1);
      assert IsStep(r, i - 1);
      SystemStep(r.states[i - 1], r.events[i - 1]);
    }
  }

  // ------------------------------------------------------------ exclusivity

  /**
   End-to-end exclusivity: in every reachable state, two projects, neither called like a key the pool has used, never
   have forward entries, nor Kubernetes services, that name one sandbox; expired entries included.
   */
  lemma NoSharedSandbox(r: Run, config: L.Config, i: nat, p: ProjectId, q: ProjectId)
    requires IsRun(r, config) && i < |r.states| && p != q
    requires p !in r.states[i].poolKeys && q !in r.states[i].poolKeys
    ensures var f := r.states[i].maps.store.forward;
            p in f && q in f ==> f[p].value != f[q].value
    ensures var v := r.states[i].services;
            p in v && q in v ==> v[p] != v[q]
    ensures var f, v := r.states[i].maps.store.forward, r.states[i].services;
            p in f && q in v ==> f[p].value != v[q]
  {
    SystemAt(r, config, i);
    var st := r.states[i];
    var f, v := st.maps.store.forward, st.services;
    assert p in f ==> IsRight(st, p, f[p].value);
    assert q in f ==> IsRight(st, q, f[q].value);
    assert p in v ==> IsRight(st, p, v[p]);
    assert q in v ==> IsRight(st, q, v[q]);
    if s :| Owns(st, p, s) && Owns(st, q, s) {
      OwnerIsUnique(st, p, q, s);
    }
  }

  /** Nor do requests for different such projects, at whatever times they ran, answer with one sandbox. */
  lemma NoSharedAnswer(r: Run, config: L.Config, i: nat, a: RequestId, b: RequestId)
    requires IsRun(r, config) && i < |r.states|
    requires a in r.states[i].requests && r.states[i].requests[a].phase.Responded?
    requires b in r.states[i].requests && r.states[i].requests[b].phase.Responded?
    requires r.states[i].requests[a].project != r.states[i].requests[b].project
    requires r.states[i].requests[a].project !in r.states[i].poolKeys
    requires r.states[i].requests[b].project !in r.states[i].poolKeys
    ensures r.states[i].requests[a].phase.sandbox != r.states[i].requests[b].phase.sandbox
  {
    SystemAt(r, config, i);
    var st := r.states[i];
    var x, y := st.requests[a], st.requests[b];
    assert RequestOk(st, x) && RequestOk(st, y);
    if x.phase.sandbox == y.phase.sandbox {
      OwnerIsUnique(st, x.project, y.project, x.phase.sandbox);
    }
  }

  /** The pool is never given a sandbox twice: the freshness the pool lemmas assume is met by the claim protocol. */
  lemma SystemPoolIsConserved(r: Run, config: L.Config, i: nat, s: SandboxId)
    requires IsRun(r, config) && i < |r.states|
    ensures PO.Places(r.states[i].pool, s) == PO.One(s in r.states[i].pool.made)
    ensures r.states[i].poolCall.Some? && HasEnded(r.states[i].claims, r.states[i].poolCall.value) ==>
              Enabled(r.states[i], EndPoolSchedule) && L.IsFresh(r.states[i].pool, PoolResult(r.states[i]))
  {
    SystemAt(r, config, i);
    if r.states[i].poolCall.Some? && HasEnded(r.states[i].claims, r.states[i].poolCall.value) {
      PoolResultIsNew(r.states[i]);
    }
  }
}
