/**
 The idempotence claim protocol: the Redis side (results, owners, pending
 markers) and any number of concurrent ScheduleSandbox calls, each advanced one
 store or cluster command at a time.
 */
module Claims {
  import opened Wrappers
  import opened Ids
  import opened Timed

  const PENDING_KEY_TTL: Time := 1 * MINUTE
  const IDEMPOTENCE_KEY_TTL: Time := 10 * MINUTE
  const CLAIM_TIMEOUT: Time := 10 * SECOND
  const POLL_INTERVAL: Time := 200

  // ------------------------------------------------------------ store side

  /** The three key families of redisIdempotenceStore. A marker holds "1": it does not name its setter. */
  datatype Store = Store(results: Table<string, string>,
                         owners: Table<SandboxId, string>,
                         markers: Table<string, string>)

  datatype LookupReply = Found(sandbox: SandboxId) | NotFound | Unreadable

  /** GetSandboxID, without the transport errors. */
  function GetSandboxId(store: Store, now: Time, key: string): LookupReply {
    match Get(store.results, key, now)
    case None => NotFound
    case Some(raw) =>
      match NewSandboxId(raw)
      case None => Unreadable
      case Some(s) => Found(s)
  }

  predicate MarkerExists(store: Store, now: Time, key: string) {
    Live(store.markers, key, now)
  }

  /** SetNX of the pending key: a live marker is left alone. */
  function MarkPendingCreation(store: Store, now: Time, key: string): Store {
    if MarkerExists(store, now, key) then store
    else store.(markers := Put(store.markers, key, "1", now + PENDING_KEY_TTL))
  }

  /** The MULTI/EXEC transaction of CompletePendingCreation. */
  function CompletePendingCreation(store: Store, now: Time, key: string, sandbox: SandboxId): Store {
    Store(Put(store.results, key, sandbox, now + IDEMPOTENCE_KEY_TTL),
          Put(store.owners, sandbox, key, now + IDEMPOTENCE_KEY_TTL),
          Delete(store.markers, key))
  }

  function DropPendingCreation(store: Store, key: string): Store {
    store.(markers := Delete(store.markers, key))
  }

  // ------------------------------------------------------------ callers

  type CallId = nat

  /** Whether this call won the pending marker, and until when the marker it set lives. */
  datatype Claim = Unclaimed | Claimed(until: Time)

  /** Where a ScheduleSandbox call is: the command it issues next. */
  datatype Phase =
    | LookingUp                            // first GET
    | Marking                              // SETNX
    | Awaiting                             // GET right after losing the SETNX
    | Sleeping                             // waiting for the ticker or the deadline
    | Polling                              // GET after a tick
    | CheckingMarker                       // EXISTS after a fruitless GET
    | Creating                             // pod creation
    | Completing(sandbox: SandboxId)       // Complete
    | Dropping(result: Result<SandboxId>)  // deferred Drop
    | Finished(result: Result<SandboxId>)
    | Crashed

  datatype Call = Call(key: string, phase: Phase, claim: Claim, completed: bool)

  /** created records every pod ever made, with the call that made it; no step reads more of it than freshness. */
  datatype State = State(now: Time, store: Store, calls: map<CallId, Call>, created: map<SandboxId, CallId>)

  const INITIAL: State := State(0, Store(map[], map[], map[]), map[], map[])

  datatype Event =
    | Tick(elapsed: Time)
    | Begin(call: CallId, key: string)
    | Lookup(call: CallId)
    | Mark(call: CallId)
    | MarkLost(call: CallId, timeout: bool)
    | Wake(call: CallId)
    | Expire(call: CallId)
    | CheckMarker(call: CallId)
    | Fault(call: CallId, timeout: bool)
    | Create(call: CallId, sandbox: SandboxId)
    | CreateLost(call: CallId, sandbox: SandboxId)
    | CreateFail(call: CallId)
    | Complete(call: CallId, reply: Reply)
    | Drop(call: CallId, reply: Reply)
    | Crash(call: CallId)

  predicate IsWaiting(p: Phase) {
    p.LookingUp? || p.Marking? || p.Awaiting? || p.Polling? || p.CheckingMarker?
  }

  predicate Enabled(st: State, e: Event) {
    match e
    case Tick(_) => true
    case Begin(c, key) => c !in st.calls && key != ""
    case _ =>
      e.call in st.calls &&
      var p := st.calls[e.call].phase;
      match e
      case Lookup(_) => p.LookingUp? || p.Awaiting? || p.Polling?
      case Mark(_) => p.Marking?
      case MarkLost(_, _) => p.Marking?
      case Wake(_) => p.Sleeping?
      case Expire(_) => p.Sleeping?
      case CheckMarker(_) => p.CheckingMarker?
      case Fault(_, _) => IsWaiting(p)
      case Create(_, s) => p.Creating? && IsBase36(s) && s !in st.created
      case CreateLost(_, s) => p.Creating? && IsBase36(s) && s !in st.created
      case CreateFail(_) => p.Creating?
      case Complete(_, _) => p.Completing?
      case Drop(_, _) => p.Dropping?
      case Crash(_) => !p.Finished? && !p.Crashed?
  }

  /** The call after its GET has been answered. */
  function AfterLookup(call: Call, reply: LookupReply): Call {
    match reply
    case Found(s) => call.(phase := Dropping(Success(s)))
    case Unreadable => call.(phase := Creating)
    case NotFound => call.(phase := match call.phase
                                    case LookingUp => Marking
                                    case Awaiting => Sleeping
                                    case _ => CheckingMarker)
  }

  /** ScheduleSandbox on a ClaimOrWait error: a timeout is returned, anything else creates without a claim. */
  function AfterFault(call: Call, timeout: bool): Call {
    call.(phase := if timeout then Dropping(Failure) else Creating)
  }

  function SetCall(st: State, c: CallId, call: Call): State {
    st.(calls := st.calls[c := call])
  }

  /** ClaimResult.Complete acts on the store only for an uncompleted claim. */
  predicate MayWrite(call: Call) {
    call.claim.Claimed? && !call.completed
  }

  function Apply(st: State, e: Event): State
    requires Enabled(st, e)
  {
    match e
    case Tick(d) => st.(now := st.now + d)
    case Begin(c, key) => SetCall(st, c, Call(key, LookingUp, Unclaimed, false))
    case Lookup(c) =>
      SetCall(st, c, AfterLookup(st.calls[c], GetSandboxId(st.store, st.now, st.calls[c].key)))
    case Mark(c) =>
      var call := st.calls[c];
      if MarkerExists(st.store, st.now, call.key) then SetCall(st, c, call.(phase := Awaiting))
      else SetCall(st.(store := MarkPendingCreation(st.store, st.now, call.key)), c,
                   call.(phase := Creating, claim := Claimed(st.now + PENDING_KEY_TTL)))
    case MarkLost(c, timeout) =>
      SetCall(st.(store := MarkPendingCreation(st.store, st.now, st.calls[c].key)), c,
              AfterFault(st.calls[c], timeout))
    case Wake(c) => SetCall(st, c, st.calls[c].(phase := Polling))
    case Expire(c) => SetCall(st, c, AfterFault(st.calls[c], true))
    case CheckMarker(c) =>
      var call := st.calls[c];
      SetCall(st, c, if MarkerExists(st.store, st.now, call.key) then call.(phase := Sleeping)
                     else AfterFault(call, false))
    case Fault(c, timeout) => SetCall(st, c, AfterFault(st.calls[c], timeout))
    case Create(c, s) =>
      SetCall(st.(created := st.created[s := c]), c, st.calls[c].(phase := Completing(s)))
    case CreateLost(c, s) =>
      SetCall(st.(created := st.created[s := c]), c, st.calls[c].(phase := Dropping(Failure)))
    case CreateFail(c) => SetCall(st, c, st.calls[c].(phase := Dropping(Failure)))
    case Complete(c, reply) =>
      var call := st.calls[c];
      var s := call.phase.sandbox;
      var done := call.(phase := Dropping(Success(s)));
      if !MayWrite(call) then SetCall(st, c, done)
      else
        var store := if reply.Rejected? then st.store
                     else CompletePendingCreation(st.store, st.now, call.key, s);
        SetCall(st.(store := store), c, done.(completed := reply.Answered?))
    case Drop(c, reply) =>
      var call := st.calls[c];
      var store := if MayWrite(call) && !reply.Rejected? then DropPendingCreation(st.store, call.key)
                   else st.store;
      SetCall(st.(store := store), c, call.(phase := Finished(call.phase.result)))
    case Crash(c) => SetCall(st, c, st.calls[c].(phase := Crashed))
  }

  /** The call an event belongs to. */
  predicate IsBy(e: Event, c: CallId) {
    !e.Tick? && e.call == c
  }

  // ------------------------------------------------------------ runs

  /** A finite run: events[i] leads from states[i] to states[i + 1]. */
  datatype Run = Run(states: seq<State>, events: seq<Event>)

  ghost predicate IsStep(r: Run, i: nat)
    requires i < |r.events| && |r.states| == |r.events| + 1
  {
    Enabled(r.states[i], r.events[i]) && r.states[i + 1] == Apply(r.states[i], r.events[i])
  }

  ghost predicate IsRun(r: Run) {
    && |r.states| == |r.events| + 1
    && r.states[0] == INITIAL
    && forall i: nat :: i < |r.events| ==> IsStep(r, i)
  }

  function Last(r: Run): State
    requires r.states != []
  {
    r.states[|r.states| - 1]
  }

  function Extend(r: Run, e: Event): Run
    requires r.states != [] && Enabled(Last(r), e)
  {
    Run(r.states + [Apply(Last(r), e)], r.events + [e])
  }

  lemma ExtendIsRun(r: Run, e: Event)
    requires IsRun(r) && Enabled(Last(r), e)
    ensures IsRun(Extend(r, e)) && Last(Extend(r, e)) == Apply(Last(r), e)
  {
    var r' := Extend(r, e);
    forall i: nat | i < |r'.events|
      ensures IsStep(r', i)
    {
      assert i < |r.events| ==> IsStep(r, i);
    }
  }
}
