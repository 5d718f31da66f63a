/**
 The whole scheduler: concurrent GetProjectSandbox requests over the claim protocol, the pool and the store, with pool
 maintenance, releases and pod disappearances interleaved at the granularity of single commands.
 */
module System {
  import opened Wrappers
  import opened Ids
  import opened Timed
  import opened ProjectStore
  import C = Claims
  import L = Pool
  import M = Pipelines

  type RequestId = nat

  const POOL_KEY_PREFIX: string := "pool:"

  predicate IsPoolKey(key: string) {
    HasPrefix(key, POOL_KEY_PREFIX)
  }

  /** Where a GetProjectSandbox request is: the command it issues next. */
  datatype Phase =
    | Reading
    | CheckingReleased(sandbox: SandboxId)
    | CheckingPod(sandbox: SandboxId)
    | Popping
    | ToSchedule
    | Scheduling(call: C.CallId)
    | Assigning(sandbox: SandboxId)
    | Setting(sandbox: SandboxId)
    | Serving(sandbox: SandboxId)
    | Awaiting(sandbox: SandboxId)
    | Responded(sandbox: SandboxId, reused: bool)
    | Failed

  datatype Request = Request(project: ProjectId, phase: Phase)

  /** services maps a project to the sandbox its Kubernetes service selects; pods are the pods that exist. */
  datatype State = State(claims: C.State, pool: L.State, maps: M.State,
                         requests: map<RequestId, Request>,
                         services: map<ProjectId, SandboxId>,
                         pods: set<SandboxId>,
                         poolCall: Option<C.CallId>,
                         poolKeys: set<string>)

  function Initial(config: L.Config): State {
    State(C.INITIAL, L.Empty(config), M.INITIAL, map[], map[], {}, None, {})
  }

  datatype Event =
    | Tick(elapsed: Time)
    | ClaimStep(claim: C.Event)
    | PoolStep(pool: L.Event)
    | PipelineStep(job: M.JobId)
    | Release(job: M.JobId, sandbox: SandboxId)
    | PodGone(sandbox: SandboxId)
    | BeginPoolSchedule(call: C.CallId, key: string)
    | EndPoolSchedule
    | BeginRequest(request: RequestId, project: ProjectId)
    | Read(request: RequestId, ok: bool)
    | CheckReleased(request: RequestId, ok: bool)
    | CheckPod(request: RequestId, ok: bool)
    | Pop(request: RequestId, sandbox: SandboxId, delivered: bool)
    | PopEmpty(request: RequestId)
    | BeginSchedule(request: RequestId, call: C.CallId)
    | EndSchedule(request: RequestId)
    | BeginAssign(request: RequestId, job: M.JobId)
    | EndAssign(request: RequestId)
    | Serve(request: RequestId, ok: bool)
    | Respond(request: RequestId, ok: bool)
    | Abandon(request: RequestId)

  predicate IsRequestEvent(e: Event) {
    match e
    case Tick(_) => false
    case ClaimStep(_) => false
    case PoolStep(_) => false
    case PipelineStep(_) => false
    case Release(_, _) => false
    case PodGone(_) => false
    case BeginPoolSchedule(_, _) => false
    case EndPoolSchedule => false
    case BeginRequest(_, _) => false
    case _ => true
  }

  /** A call that has returned, one way or another. */
  predicate HasEnded(claims: C.State, c: C.CallId) {
    c in claims.calls && (claims.calls[c].phase.Finished? || claims.calls[c].phase.Crashed?)
  }

  /** The sandbox an ended call returned, if it did. */
  function ReturnedBy(claims: C.State, c: C.CallId): Option<SandboxId>
    requires HasEnded(claims, c)
  {
    match claims.calls[c].phase
    case Finished(Success(s)) => Some(s)
    case _ => None
  }

  /** The result of the pool's ScheduleSandbox call, handed to the maintainer. */
  function PoolResult(st: State): L.Event
    requires st.poolCall.Some? && HasEnded(st.claims, st.poolCall.value)
  {
    match ReturnedBy(st.claims, st.poolCall.value)
    case Some(s) => L.Make(s)
    case None => L.MakeFail
  }

  ghost predicate Enabled(st: State, e: Event) {
    match e
    case Tick(_) => true
    case ClaimStep(ce) => !ce.Tick? && !ce.Begin? && C.Enabled(st.claims, ce)
    case PoolStep(pe) => !pe.Make? && !pe.MakeFail? && !pe.PopMin? && L.Enabled(st.pool, pe)
    case PipelineStep(j) => M.Enabled(st.maps, M.Exec(j))
    case Release(j, s) => M.Enabled(st.maps, M.BeginRemove(j, s))
    case PodGone(_) => true
    case BeginPoolSchedule(c, key) =>
      && st.poolCall.None? && st.pool.phase.Creating? && st.pool.phase.left > 0
      && C.Enabled(st.claims, C.Begin(c, key))
      && IsPoolKey(key) && key !in st.poolKeys
    case EndPoolSchedule =>
      st.poolCall.Some? && HasEnded(st.claims, st.poolCall.value) && L.Enabled(st.pool, PoolResult(st))
    case BeginRequest(q, p) => q !in st.requests && p != ""
    case _ => e.request in st.requests && RequestEnabled(st, e, st.requests[e.request])
  }

  ghost predicate RequestEnabled(st: State, e: Event, r: Request)
    requires IsRequestEvent(e)
  {
    match e
    case Read(_, _) => r.phase.Reading?
    case CheckReleased(_, _) => r.phase.CheckingReleased?
    case CheckPod(_, _) => r.phase.CheckingPod?
    case Pop(_, s, _) => r.phase.Popping? && L.IsMin(st.pool.ready, s)
    case PopEmpty(_) => r.phase.Popping? && st.pool.ready == map[]
    case BeginSchedule(_, c) => r.phase.ToSchedule? && C.Enabled(st.claims, C.Begin(c, r.project))
    case EndSchedule(_) => r.phase.Scheduling? && HasEnded(st.claims, r.phase.call)
    case BeginAssign(_, j) =>
      r.phase.Assigning? && M.Enabled(st.maps, M.BeginSet(j, r.project, r.phase.sandbox))
    case EndAssign(_) => r.phase.Assigning? || r.phase.Setting?
    case Serve(_, _) => r.phase.Serving?
    case Respond(_, _) => r.phase.Awaiting?
    case Abandon(_) => !r.phase.Responded? && !r.phase.Failed?
  }

  function SetPhase(st: State, q: RequestId, phase: Phase): State
    requires q in st.requests
  {
    st.(requests := st.requests[q := st.requests[q].(phase := phase)])
  }

  /** Pods come into being with the claim step that creates them. */
  function PodsAfter(pods: set<SandboxId>, ce: C.Event): set<SandboxId> {
    match ce
    case Create(_, s) => pods + {s}
    case CreateLost(_, s) => pods + {s}
    case _ => pods
  }

  function Apply(st: State, e: Event): State
    requires Enabled(st, e)
  {
    match e
    case Tick(d) =>
      st.(claims := C.Apply(st.claims, C.Tick(d)), maps := M.Apply(st.maps, M.Tick(d)))
    case ClaimStep(ce) => st.(claims := C.Apply(st.claims, ce), pods := PodsAfter(st.pods, ce))
    case PoolStep(pe) =>
      st.(pool := L.Apply(st.pool, pe), poolCall := if pe.Crash? then None else st.poolCall)
    case PipelineStep(j) => st.(maps := M.Apply(st.maps, M.Exec(j)))
    case Release(j, s) => st.(maps := M.Apply(st.maps, M.BeginRemove(j, s)))
    case PodGone(s) => st.(pods := st.pods - {s})
    case BeginPoolSchedule(c, key) =>
      st.(claims := C.Apply(st.claims, C.Begin(c, key)), poolCall := Some(c), poolKeys := st.poolKeys + {key})
    case EndPoolSchedule => st.(pool := L.Apply(st.pool, PoolResult(st)), poolCall := None)
    case BeginRequest(q, p) => st.(requests := st.requests[q := Request(p, Reading)])
    case _ => ApplyRequest(st, e, e.request, st.requests[e.request])
  }

  function ApplyRequest(st: State, e: Event, q: RequestId, r: Request): State
    requires IsRequestEvent(e) && q in st.requests && st.requests[q] == r && RequestEnabled(st, e, r)
  {
    match e
    case Read(_, ok) =>
      var reply := LookupForward(st.maps.store, r.project);
      SetPhase(st, q, if ok && reply.HasSandbox? then CheckingReleased(reply.sandbox) else Popping)
    case CheckReleased(_, ok) =>
      SetPhase(st, q, if ok && IsReleased(st.maps.store, r.phase.sandbox) then Popping
                      else CheckingPod(r.phase.sandbox))
    case CheckPod(_, ok) =>
      SetPhase(st, q, if ok && r.phase.sandbox in st.pods then Responded(r.phase.sandbox, true) else Popping)
    case Pop(_, s, delivered) =>
      SetPhase(st.(pool := L.Apply(st.pool, L.PopMin(s, q, delivered))), q,
               if delivered then Assigning(s) else Failed)
    case PopEmpty(_) => SetPhase(st, q, ToSchedule)
    case BeginSchedule(_, c) =>
      SetPhase(st.(claims := C.Apply(st.claims, C.Begin(c, r.project))), q, Scheduling(c))
    case EndSchedule(_) =>
      SetPhase(st, q, match ReturnedBy(st.claims, r.phase.call)
                      case Some(s) => Assigning(s)
                      case None => Failed)
    case BeginAssign(_, j) =>
      SetPhase(st.(maps := M.Apply(st.maps, M.BeginSet(j, r.project, r.phase.sandbox))), q, Setting(r.phase.sandbox))
    case EndAssign(_) => SetPhase(st, q, Serving(r.phase.sandbox))
    case Serve(_, ok) =>
      SetPhase(if ok then st.(services := st.services[r.project := r.phase.sandbox]) else st, q,
               Awaiting(r.phase.sandbox))
    case Respond(_, ok) => SetPhase(st, q, if ok then Responded(r.phase.sandbox, false) else Failed)
    case Abandon(_) => SetPhase(st, q, Failed)
  }

  // ------------------------------------------------------------ runs

  datatype Run = Run(states: seq<State>, events: seq<Event>)

  ghost predicate IsStep(r: Run, i: nat)
    requires i < |r.events| && |r.states| == |r.events| + 1
  {
    Enabled(r.states[i], r.events[i]) && r.states[i + 1] == Apply(r.states[i], r.events[i])
  }

  ghost predicate IsRun(r: Run, config: L.Config) {
    && |r.states| == |r.events| + 1 && r.states[0] == Initial(config)
    && forall i: nat :: i < |r.events| ==> IsStep(r, i)
  }
}
