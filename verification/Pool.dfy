/**
 The sandbox pool: the two sorted sets, the single-flight maintainer advanced one command at a time, and any number of
 concurrent pops.
 */
module Pool {
  import opened Wrappers
  import opened Ids

  /** A Redis sorted set: member to score, the score being a Unix time in seconds. */
  type SortedSet = map<SandboxId, nat>

  /** Byte order on members. */
  predicate Less(a: string, b: string) {
    b != "" && (a == "" || a[0] < b[0] || (a[0] == b[0] && Less(a[1..], b[1..])))
  }

  predicate Precedes(z: SortedSet, s: SandboxId, t: SandboxId)
    requires s in z && t in z
  {
    z[s] < z[t] || (z[s] == z[t] && Less(s, t))
  }

  /** The member ZPOPMIN takes. */
  predicate IsMin(z: SortedSet, s: SandboxId) {
    s in z && forall t <- z :: t != s ==> Precedes(z, s, t)
  }

  datatype Config = Config(poolSize: int, maxPending: int)

  /** Where the holder of the maintenance lock is. The head of todo is the sandbox being looked at. */
  datatype Phase =
    | Idle
    | CountingReady
    | CountingPending
    | Listing
    | Checking(todo: seq<SandboxId>)
    | Removing(todo: seq<SandboxId>)
    | Moving(todo: seq<SandboxId>)
    | Adding(todo: seq<SandboxId>, stamp: nat)
    | RecountingReady
    | RecountingPending(readyCount: nat)
    | Creating(left: nat)
    | Created(left: nat, sandbox: SandboxId)
    | AddingPending(left: nat, sandbox: SandboxId, stamp: nat)

  /** One effective ZPOPMIN; delivered tells whether the reply reached the caller. */
  datatype Pop = Pop(sandbox: SandboxId, score: nat, taker: nat, delivered: bool)

  /** pops, lost, made and rounds are history: no step reads them, but for the freshness of new pods. */
  datatype State = State(config: Config, clock: nat, ready: SortedSet, pending: SortedSet, phase: Phase,
                         pops: seq<Pop>, lost: set<SandboxId>, made: set<SandboxId>, rounds: nat)

  function Empty(config: Config): State {
    State(config, 0, map[], map[], Idle, [], {}, {}, 0)
  }

  datatype Event =
    | Tick(elapsed: nat)
    | TryLock
    | CountReady(ok: bool)
    | CountPending(ok: bool)
    | List(members: seq<string>)
    | ListFail
    | CheckReady(ready: bool)
    | Remove(reply: Reply)
    | Stamp
    | Add(reply: Reply)
    | RecountReady(ok: bool)
    | RecountPending(ok: bool)
    | Make(sandbox: SandboxId)
    | MakeFail
    | StampPending
    | AddPending(reply: Reply)
    | Crash
    | PopMin(sandbox: SandboxId, taker: nat, delivered: bool)

  /** GetPendingSandboxes: members that do not parse are skipped. */
  function ParseAll(members: seq<string>): seq<SandboxId> {
    if members == [] then []
    else
      var rest := ParseAll(members[1..]);
      match NewSandboxId(members[0])
      case None => rest
      case Some(s) => [s] + rest
  }

  ghost predicate IsListing(members: seq<string>, z: SortedSet) {
    && (forall m :: m in members <==> m in z)
    && (forall i, j :: 0 <= i < j < |members| ==> members[i] != members[j])
  }

  predicate HasTodo(p: Phase) {
    (p.Checking? || p.Removing? || p.Moving? || p.Adding?) && p.todo != []
  }

  ghost predicate Enabled(st: State, e: Event) {
    var p := st.phase;
    match e
    case Tick(_) => true
    case TryLock => p.Idle?
    case CountReady(_) => p.CountingReady?
    case CountPending(_) => p.CountingPending?
    case List(members) => p.Listing? && IsListing(members, st.pending)
    case ListFail => p.Listing?
    case CheckReady(_) => p.Checking? && HasTodo(p)
    case Remove(_) => p.Removing? && HasTodo(p)
    case Stamp => p.Moving? && HasTodo(p)
    case Add(_) => p.Adding? && HasTodo(p)
    case RecountReady(_) => p.RecountingReady?
    case RecountPending(_) => p.RecountingPending?
    case Make(s) => p.Creating? && p.left > 0 && IsBase36(s)
    case MakeFail => p.Creating? && p.left > 0
    case StampPending => p.Created? && p.left > 0
    case AddPending(_) => p.AddingPending? && p.left > 0
    case Crash => !p.Idle?
    case PopMin(s, _, _) => IsMin(st.ready, s)
  }

  function Min(a: int, b: int): int {
    if a < b then a else b
  }

  /** How many sandboxes maintainPool sets out to create, from the two recounts. */
  function ToCreate(config: Config, readyCount: nat, pendingCount: nat): nat {
    var needed := config.poolSize - readyCount - pendingCount;
    if needed <= 0 || pendingCount >= config.maxPending then 0
    else Min(needed, config.maxPending - pendingCount)
  }

  /** The next pass of the loop over pending sandboxes, or its end. */
  function NextCheck(st: State, todo: seq<SandboxId>): State {
    st.(phase := if todo == [] then RecountingReady else Checking(todo))
  }

  /** The next pass of the creation loop, or the end of the round. */
  function NextCreate(st: State, left: nat): State {
    if left == 0 then st.(phase := Idle, rounds := st.rounds + 1) else st.(phase := Creating(left))
  }

  /** The sandbox the maintainer holds outside both sets, if any. */
  function InHand(p: Phase): set<SandboxId> {
    match p
    case Moving(todo) => if todo == [] then {} else {todo[0]}
    case Adding(todo, _) => if todo == [] then {} else {todo[0]}
    case Created(_, s) => {s}
    case AddingPending(_, s, _) => {s}
    case _ => {}
  }

  function Apply(st: State, e: Event): State
    requires Enabled(st, e)
  {
    var p := st.phase;
    match e
    case Tick(d) => st.(clock := st.clock + d)
    case TryLock => st.(phase := CountingReady)
    case CountReady(ok) => st.(phase := if ok then CountingPending else Idle)
    case CountPending(ok) =>
      st.(phase := if !ok then Idle else if |st.pending| > 0 then Listing else RecountingReady)
    case List(members) => NextCheck(st, ParseAll(members))
    case ListFail => st.(phase := RecountingReady)
    case CheckReady(ready) => if ready then st.(phase := Removing(p.todo)) else NextCheck(st, p.todo[1..])
    case Remove(reply) =>
      var s := p.todo[0];
      if reply.Rejected? then NextCheck(st, p.todo[1..])
      else if reply.Lost? then
        NextCheck(st.(pending := st.pending - {s}, lost := st.lost + {s}), p.todo[1..])
      else st.(pending := st.pending - {s}, phase := Moving(p.todo))
    case Stamp => st.(phase := Adding(p.todo, st.clock))
    case Add(reply) =>
      var s := p.todo[0];
      if reply.Rejected? then NextCheck(st.(lost := st.lost + {s}), p.todo[1..])
      else NextCheck(st.(ready := st.ready[s := p.stamp]), p.todo[1..])
    case RecountReady(ok) => st.(phase := RecountingPending(if ok then |st.ready| else 0))
    case RecountPending(ok) =>
      NextCreate(st, ToCreate(st.config, p.readyCount, if ok then |st.pending| else 0))
    case Make(s) => st.(phase := Created(p.left, s), made := st.made + {s})
    case MakeFail => NextCreate(st, p.left - 1)
    case StampPending => st.(phase := AddingPending(p.left, p.sandbox, st.clock))
    case AddPending(reply) =>
      if reply.Rejected? then NextCreate(st.(lost := st.lost + {p.sandbox}), p.left - 1)
      else NextCreate(st.(pending := st.pending[p.sandbox := p.stamp]), p.left - 1)
    case Crash => st.(phase := Idle, lost := st.lost + InHand(p))
    case PopMin(s, taker, delivered) =>
      st.(ready := st.ready - {s}, pops := st.pops + [Pop(s, st.ready[s], taker, delivered)])
  }

  /** Pod identifiers are fresh: the hypothesis under which pool sandboxes are tracked. */
  ghost predicate IsFresh(st: State, e: Event) {
    e.Make? ==> e.sandbox !in st.made
  }

  // ------------------------------------------------------------ runs

  datatype Run = Run(states: seq<State>, events: seq<Event>)

  /** events[i] leads from states[i] to states[i + 1]; pod identifiers are fresh. */
  ghost predicate IsStep(r: Run, i: nat)
    requires i < |r.events| && |r.states| == |r.events| + 1
  {
    && Enabled(r.states[i], r.events[i])
    && IsFresh(r.states[i], r.events[i])
    && r.states[i + 1] == Apply(r.states[i], r.events[i])
  }

  ghost predicate IsRun(r: Run) {
    |r.states| == |r.events| + 1 && forall i: nat :: i < |r.events| ==> IsStep(r, i)
  }
}
