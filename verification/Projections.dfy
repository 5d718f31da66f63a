/** The whole system seen from one of its parts: its runs are runs of the part, whose theorems therefore hold in it. */
module Projections {
  import opened Wrappers
  import opened Ids
  import opened Timed
  import opened System
  import opened Stutters
  import SP = SystemProofs
  import CP = ClaimProofs
  import PB = PoolBounds
  import IP = IndexProofs
  import LP = LogProofs
  import opened StoreProofs

  // ------------------------------------------------------------ the events of the parts

  function ClaimEvent(st: State, e: Event): Option<C.Event> {
    match e
    case Tick(d) => Some(C.Tick(d))
    case ClaimStep(ce) => Some(ce)
    case BeginPoolSchedule(c, key) => Some(C.Begin(c, key))
    case BeginSchedule(q, c) => if q in st.requests then Some(C.Begin(c, st.requests[q].project)) else None
    case _ => None
  }

  function PoolEvent(st: State, e: Event): Option<L.Event> {
    match e
    case PoolStep(pe) => Some(pe)
    case EndPoolSchedule =>
      if st.poolCall.Some? && HasEnded(st.claims, st.poolCall.value) then Some(PoolResult(st)) else None
    case Pop(q, s, delivered) => Some(L.PopMin(s, q, delivered))
    case _ => None
  }

  function MapEvent(st: State, e: Event): Option<M.Event> {
    match e
    case Tick(d) => Some(M.Tick(d))
    case PipelineStep(j) => Some(M.Exec(j))
    case Release(j, s) => Some(M.BeginRemove(j, s))
    case BeginAssign(q, j) =>
      if q in st.requests && st.requests[q].phase.Assigning?
      then Some(M.BeginSet(j, st.requests[q].project, st.requests[q].phase.sandbox)) else None
    case _ => None
  }

  lemma ClaimEventIsStep(st: State, e: Event)
    requires Enabled(st, e)
    ensures match ClaimEvent(st, e)
            case None => Apply(st, e).claims == st.claims
            case Some(ce) => C.Enabled(st.claims, ce) && Apply(st, e).claims == C.Apply(st.claims, ce)
  {
    hide C.Apply, L.Apply, M.Apply;
  }

  lemma PoolMoves(st: State, e: Event)
    requires Enabled(st, e)
    ensures match PoolEvent(st, e)
            case None => Apply(st, e).pool == st.pool
            case Some(pe) => L.Enabled(st.pool, pe) && Apply(st, e).pool == L.Apply(st.pool, pe)
    ensures PoolEvent(st, e).Some? && PoolEvent(st, e).value.Make? ==> e.EndPoolSchedule?
  {
    hide C.Apply, C.Enabled, L.Apply, M.Apply, M.Enabled;
  }

  lemma PoolEventIsStep(st: State, e: Event)
    requires SP.SystemInv(st) && Enabled(st, e)
    ensures match PoolEvent(st, e)
            case None => Apply(st, e).pool == st.pool
            case Some(pe) => L.Enabled(st.pool, pe) && L.IsFresh(st.pool, pe)
                             && Apply(st, e).pool == L.Apply(st.pool, pe)
  {
    PoolMoves(st, e);
    if e.EndPoolSchedule? {
      SP.PoolResultIsNew(st);
    }
    hide Apply, SP.SystemInv, L.Apply, L.Enabled;
  }

  lemma MapMoves(st: State, e: Event)
    requires Enabled(st, e)
    ensures match MapEvent(st, e)
            case None => Apply(st, e).maps == st.maps
            case Some(me) => M.Enabled(st.maps, me) && Apply(st, e).maps == M.Apply(st.maps, me)
    ensures MapEvent(st, e).Some? && MapEvent(st, e).value.BeginSet? ==> e.BeginAssign?
  {
    hide C.Apply, C.Enabled, L.Apply, L.Enabled, M.Apply;
  }

  /** No project is called like a key the pool has used. */
  ghost predicate IsSeparate(st: State) {
    forall q <- st.requests :: st.requests[q].project !in st.poolKeys
  }

  lemma SeparateBefore(st: State, e: Event)
    requires Enabled(st, e) && IsSeparate(Apply(st, e))
    ensures IsSeparate(st)
  {
    hide C.Apply, L.Apply, M.Apply;
    assert forall q <- st.requests :: q in Apply(st, e).requests
                                      && Apply(st, e).requests[q].project == st.requests[q].project;
    assert st.poolKeys <= Apply(st, e).poolKeys;
  }

  lemma {:induction false} SeparateAt(r: Run, config: L.Config, m: nat, n: nat)
    requires IsRun(r, config) && m <= n < |r.states| && IsSeparate(r.states[n])
    ensures IsSeparate(r.states[m])
    decreases n
  {
    hide Enabled, Apply, IsSeparate;
    if m < n {
      assert IsStep(r, n - 1);
      SeparateBefore(r.states[n - 1], r.events[n - 1]);
      SeparateAt(r, config, m, n - 1);
    }
  }

  /** A request sets a sandbox for the one project that owns it. */
  lemma AssignIsDisciplined(st: State, q: RequestId, j: M.JobId)
    requires SP.SystemInv(st) && IsSeparate(st) && Enabled(st, BeginAssign(q, j))
    ensures M.IsDisciplined(st.maps, MapEvent(st, BeginAssign(q, j)).value)
  {
    var r := st.requests[q];
    assert SP.RequestOk(st, r);
    if r.phase.sandbox in st.maps.owner {
      assert SP.IsProject(st, st.maps.owner[r.phase.sandbox]);
      assert SP.IsRight(st, st.maps.owner[r.phase.sandbox], r.phase.sandbox);
      SP.OwnerIsUnique(st, r.project, st.maps.owner[r.phase.sandbox], r.phase.sandbox);
    }
  }

  lemma MapEventIsStep(st: State, e: Event)
    requires SP.SystemInv(st) && IsSeparate(st) && Enabled(st, e)
    ensures match MapEvent(st, e)
            case None => Apply(st, e).maps == st.maps
            case Some(me) => M.Enabled(st.maps, me) && M.IsDisciplined(st.maps, me)
                             && Apply(st, e).maps == M.Apply(st.maps, me)
  {
    hide Apply, SP.SystemInv, M.Apply, M.Enabled;
    MapMoves(st, e);
    if e.BeginAssign? {
      AssignIsDisciplined(st, e.request, e.job);
    }
  }

  // ------------------------------------------------------------ the claim protocol's part

  ghost function ClaimStates(r: Run): seq<C.State> {
    seq(|r.states|, m requires 0 <= m < |r.states| => r.states[m].claims)
  }

  ghost function ClaimEvents(r: Run): seq<Option<C.Event>> {
    seq(|r.events|, m requires 0 <= m < |r.events| =>
      if m < |r.states| then ClaimEvent(r.states[m], r.events[m]) else None)
  }

  /** The claim protocol's part of a run up to state n. */
  ghost function ClaimRun(r: Run, n: nat): C.Run
    requires n <= |r.events| < |r.states|
  {
    var t := Drop(ClaimStates(r)[..n + 1], ClaimEvents(r)[..n]);
    C.Run(t.states, t.events)
  }

  /** From step i to step n of the system, the claim protocol's steps are as P says. */
  ghost predicate ClaimStepsAre(r: Run, i: nat, n: nat, P: (C.State, C.Event, C.State) -> bool) {
    forall m :: i <= m < n <= |r.events| < |r.states| && ClaimEvents(r)[m].Some? ==>
      P(ClaimStates(r)[m], ClaimEvents(r)[m].value, ClaimStates(r)[m + 1])
  }

  lemma ClaimSteps(r: Run, config: L.Config, i: nat, n: nat, P: (C.State, C.Event, C.State) -> bool)
    requires IsRun(r, config) && i <= n < |r.states| && ClaimStepsAre(r, i, n, P)
    ensures var t, u := ClaimRun(r, n), ClaimRun(r, i);
            && |t.states| == |t.events| + 1 && |u.states| == |u.events| + 1
            && t.states[0] == r.states[0].claims && t.states[|t.events|] == r.states[n].claims
            && u.states <= t.states && u.events <= t.events && (i == 0 ==> u.events == [])
            && forall x :: |u.events| <= x < |t.events| ==> P(t.states[x], t.events[x], t.states[x + 1])
  {
    hide Enabled, Apply, ClaimEvent;
    var states, events := ClaimStates(r)[..n + 1], ClaimEvents(r)[..n];
    forall m | 0 <= m < n && events[m].None?
      ensures states[m + 1] == states[m]
    {
      assert IsStep(r, m);
      ClaimEventIsStep(r.states[m], r.events[m]);
    }
    assert states[..i + 1] == ClaimStates(r)[..i + 1];
    assert events[..i] == ClaimEvents(r)[..i];
    StepsFrom(states, events, i, P);
  }

  /** The claim protocol's part of a run of the system is a run of the claim protocol. */
  lemma ClaimRunIsRun(r: Run, config: L.Config, n: nat)
    requires IsRun(r, config) && n < |r.states|
    ensures C.IsRun(ClaimRun(r, n)) && C.Last(ClaimRun(r, n)) == r.states[n].claims
  {
    hide Enabled, Apply, ClaimEvent, Drop, C.Enabled, C.Apply, ClaimRun;
    var P := (a, e, b) => C.Enabled(a, e) && b == C.Apply(a, e);
    forall m | 0 <= m < n && ClaimEvents(r)[m].Some?
      ensures P(ClaimStates(r)[m], ClaimEvents(r)[m].value, ClaimStates(r)[m + 1])
    {
      assert IsStep(r, m);
      ClaimEventIsStep(r.states[m], r.events[m]);
    }
    ClaimSteps(r, config, 0, n, P);
    var t := ClaimRun(r, n);
    forall x: nat | x < |t.events|
      ensures C.IsStep(t, x)
    {
      assert P(t.states[x], t.events[x], t.states[x + 1]);
    }
  }

  lemma OneMoreClaimStep(r: Run, i: nat)
    requires i < |r.events| < |r.states|
    ensures var ce := ClaimEvents(r)[i];
            ClaimRun(r, i + 1).events == ClaimRun(r, i).events + if ce.Some? then [ce.value] else []
  {
    assert ClaimStates(r)[..i + 2][..i + 1] == ClaimStates(r)[..i + 1];
    assert ClaimEvents(r)[..i + 1][..i] == ClaimEvents(r)[..i];
  }

  ghost predicate IsTimely(a: C.State, e: C.Event, b: C.State) {
    CP.IsTimelyStep(a, e, b)
  }

  /**
   Mutual exclusion in the whole system: if claimers keep to their markers and no completion's reply is lost, then in
   every state at most one call per key is active, with its marker live, whatever pool, store and requests do.
   */
  lemma SystemMutualExclusion(r: Run, config: L.Config, i: nat)
    requires IsRun(r, config) && i < |r.states|
    requires ClaimStepsAre(r, 0, i, IsTimely)
    ensures CP.Exclusive(r.states[i].claims)
    ensures var claims := r.states[i].claims;
            forall c <- claims.calls :: CP.IsActive(claims.calls[c]) ==>
              C.MarkerExists(claims.store, claims.now, claims.calls[c].key)
  {
    hide Enabled, Apply, Drop, C.Enabled, C.Apply, ClaimRun, CP.Exclusive, CP.IsTimelyStep;
    ClaimRunIsRun(r, config, i);
    ClaimSteps(r, config, 0, i, IsTimely);
    var t := ClaimRun(r, i);
    forall x | 0 <= x < |t.events|
      ensures CP.IsTimelyStep(t.states[x], t.events[x], t.states[x + 1])
    {
      assert IsTimely(t.states[x], t.events[x], t.states[x + 1]);
    }
    CP.MutualExclusion(t, |t.events|);
  }

  ghost function LateFor(c: C.CallId, key: string, deadline: Time): (C.State, C.Event, C.State) -> bool {
    (a, e, _) => CP.IsLateStep(a, e, c, key, deadline)
  }

  /**
   Bounded duplication in the whole system: once a claim for key completes in step i, a call that looks up later,
   meets no error and looks up within ten minutes creates nothing and returns only a sandbox committed for key.
   */
  lemma SystemLateCallIsServed(r: Run, config: L.Config, i: nat, j: nat, c: C.CallId, key: string)
    requires IsRun(r, config) && i < j < |r.states| && r.events[i].ClaimStep?
    requires CP.Completes(r.states[i].claims, r.events[i].claim, key)
    requires var calls := r.states[i].claims.calls; c in calls ==> calls[c].key == key && calls[c].phase.LookingUp?
    requires ClaimStepsAre(r, i + 1, j, LateFor(c, key, r.states[i].claims.now + C.IDEMPOTENCE_KEY_TTL))
    ensures var claims := r.states[j].claims;
            && !CP.HasCreated(claims.created, c)
            && (c in claims.calls && claims.calls[c].phase.Finished? ==>
                  exists s :: claims.calls[c].phase == C.Finished(Success(s))
                              && CP.Committed(claims, s) && CP.MadeFor(claims, s, key))
  {
    hide Enabled, Apply, Drop, C.Enabled, C.Apply, ClaimRun, CP.IsLateStep, CP.Completes, CP.Committed, CP.MadeFor;
    ClaimRunIsRun(r, config, j);
    OneMoreClaimStep(r, i);
    ClaimSteps(r, config, i, j, (_, _, _) => true);
    ClaimSteps(r, config, i, i, (_, _, _) => true);
    var deadline := r.states[i].claims.now + C.IDEMPOTENCE_KEY_TTL;
    var P := LateFor(c, key, deadline);
    ClaimSteps(r, config, i + 1, j, P);
    var t, u := ClaimRun(r, j), ClaimRun(r, i);
    forall x | |u.events| < x < |t.events|
      ensures CP.IsLateStep(t.states[x], t.events[x], c, key, deadline)
    {
      assert P(t.states[x], t.events[x], t.states[x + 1]);
    }
    assert t.states[|u.events|] == u.states[|u.events|] == r.states[i].claims;
    assert t.events[|u.events|] == r.events[i].claim;
    CP.LateCallIsServed(t, |u.events|, |t.events|, c, key);
  }

  // ------------------------------------------------------------ the pool's part

  ghost function PoolStates(r: Run): seq<L.State> {
    seq(|r.states|, m requires 0 <= m < |r.states| => r.states[m].pool)
  }

  ghost function PoolEvents(r: Run): seq<Option<L.Event>> {
    seq(|r.events|, m requires 0 <= m < |r.events| =>
      if m < |r.states| then PoolEvent(r.states[m], r.events[m]) else None)
  }

  ghost function PoolRun(r: Run, n: nat): L.Run
    requires n <= |r.events| < |r.states|
  {
    var t := Drop(PoolStates(r)[..n + 1], PoolEvents(r)[..n]);
    L.Run(t.states, t.events)
  }

  ghost predicate PoolStepsAre(r: Run, n: nat, P: (L.State, L.Event, L.State) -> bool) {
    forall m :: 0 <= m < n <= |r.events| < |r.states| && PoolEvents(r)[m].Some? ==>
      P(PoolStates(r)[m], PoolEvents(r)[m].value, PoolStates(r)[m + 1])
  }

  lemma PoolSteps(r: Run, config: L.Config, n: nat, P: (L.State, L.Event, L.State) -> bool)
    requires IsRun(r, config) && n < |r.states| && PoolStepsAre(r, n, P)
    ensures var t := PoolRun(r, n);
            && |t.states| == |t.events| + 1
            && t.states[0] == L.Empty(config) && t.states[|t.events|] == r.states[n].pool
            && forall x :: 0 <= x < |t.events| ==> P(t.states[x], t.events[x], t.states[x + 1])
  {
    hide Enabled, Apply, PoolEvent, SP.SystemInv;
    var states, events := PoolStates(r)[..n + 1], PoolEvents(r)[..n];
    forall m | 0 <= m < n && events[m].None?
      ensures states[m + 1] == states[m]
    {
      assert IsStep(r, m);
      SP.SystemAt(r, config, m);
      PoolEventIsStep(r.states[m], r.events[m]);
    }
    StepsFrom(states, events, 0, P);
    assert |Drop(states[..1], events[..0]).events| == 0;
  }

  /** The pool's part of a run of the system is a run of the pool, in which pods are fresh. */
  lemma PoolRunIsRun(r: Run, config: L.Config, n: nat)
    requires IsRun(r, config) && n < |r.states|
    ensures L.IsRun(PoolRun(r, n)) && PoolRun(r, n).states[0] == L.Empty(config)
    ensures PB.Last(PoolRun(r, n)) == r.states[n].pool
  {
    hide Enabled, Apply, PoolEvent, L.Enabled, L.Apply, L.IsFresh, PoolRun, SP.SystemInv;
    var P := (a, e, b) => L.Enabled(a, e) && L.IsFresh(a, e) && b == L.Apply(a, e);
    forall m | 0 <= m < n && PoolEvents(r)[m].Some?
      ensures P(PoolStates(r)[m], PoolEvents(r)[m].value, PoolStates(r)[m + 1])
    {
      assert IsStep(r, m);
      SP.SystemAt(r, config, m);
      PoolEventIsStep(r.states[m], r.events[m]);
    }
    PoolSteps(r, config, n, P);
    var t := PoolRun(r, n);
    forall x: nat | x < |t.events|
      ensures L.IsStep(t, x)
    {
      assert P(t.states[x], t.events[x], t.states[x + 1]);
    }
  }

  ghost predicate KeepsRoom(a: L.State, e: L.Event, b: L.State) {
    !PB.Overcommits(a, e)
  }

  /** Capacity in the whole system: without a failed recount that matters, the pool keeps its bounds. */
  lemma SystemCapacity(r: Run, config: L.Config, i: nat)
    requires IsRun(r, config) && i < |r.states|
    requires PoolStepsAre(r, i, KeepsRoom)
    ensures PB.Total(r.states[i].pool) <= PB.AtLeast0(config.poolSize)
    ensures |r.states[i].pool.pending| <= PB.AtLeast0(config.maxPending)
  {
    hide Enabled, Apply, PoolEvent, L.Enabled, L.Apply, PoolRun, PB.Overcommits, PB.CapacityInv;
    PoolRunIsRun(r, config, i);
    PoolSteps(r, config, i, KeepsRoom);
    var t := PoolRun(r, i);
    forall x | 0 <= x < |t.events|
      ensures !PB.Overcommits(t.states[x], t.events[x])
    {
      assert KeepsRoom(t.states[x], t.events[x], t.states[x + 1]);
    }
    PB.EmptyPoolIsFine(config);
    PB.Capacity(t, |t.events|);
  }

  /** Hand-out order in the whole system: the ready stamps of successive pops never decrease. */
  lemma SystemHandOutOrder(r: Run, config: L.Config, i: nat, a: nat, b: nat)
    requires IsRun(r, config) && i < |r.states| && a < b < |r.states[i].pool.pops|
    ensures r.states[i].pool.pops[a].score <= r.states[i].pool.pops[b].score
  {
    hide Enabled, Apply, L.Enabled, L.Apply, PoolRun;
    PoolRunIsRun(r, config, i);
    PB.EmptyPoolIsFine(config);
    PB.HandOutOrder(PoolRun(r, i), |PoolRun(r, i).events|);
  }

  // ------------------------------------------------------------ the store's part

  ghost function MapStates(r: Run): seq<M.State> {
    seq(|r.states|, m requires 0 <= m < |r.states| => r.states[m].maps)
  }

  ghost function MapEvents(r: Run): seq<Option<M.Event>> {
    seq(|r.events|, m requires 0 <= m < |r.events| =>
      if m < |r.states| then MapEvent(r.states[m], r.events[m]) else None)
  }

  ghost function MapRun(r: Run, n: nat): M.Run
    requires n <= |r.events| < |r.states|
  {
    var t := Drop(MapStates(r)[..n + 1], MapEvents(r)[..n]);
    M.Run(t.states, t.events)
  }

  ghost predicate MapStepsAre(r: Run, n: nat, P: (M.State, M.Event, M.State) -> bool) {
    forall m :: 0 <= m < n <= |r.events| < |r.states| && MapEvents(r)[m].Some? ==>
      P(MapStates(r)[m], MapEvents(r)[m].value, MapStates(r)[m + 1])
  }

  lemma MapSteps(r: Run, config: L.Config, n: nat, P: (M.State, M.Event, M.State) -> bool)
    requires IsRun(r, config) && n < |r.states| && MapStepsAre(r, n, P)
    ensures var t := MapRun(r, n);
            && |t.states| == |t.events| + 1
            && t.states[0] == M.INITIAL && t.states[|t.events|] == r.states[n].maps
            && forall x :: 0 <= x < |t.events| ==> P(t.states[x], t.events[x], t.states[x + 1])
  {
    hide Enabled, Apply, MapEvent;
    var states, events := MapStates(r)[..n + 1], MapEvents(r)[..n];
    forall m | 0 <= m < n && events[m].None?
      ensures states[m + 1] == states[m]
    {
      assert IsStep(r, m);
      MapMoves(r.states[m], r.events[m]);
    }
    StepsFrom(states, events, 0, P);
    assert |Drop(states[..1], events[..0]).events| == 0;
  }

  /** The store's part of a run of the system is a run of its pipelines: each sandbox is set for one project only. */
  lemma MapRunIsRun(r: Run, config: L.Config, n: nat)
    requires IsRun(r, config) && n < |r.states| && IsSeparate(r.states[n])
    ensures M.IsRun(MapRun(r, n)) && M.Last(MapRun(r, n)) == r.states[n].maps
  {
    hide Enabled, Apply, MapEvent, M.Enabled, M.Apply, M.IsDisciplined, MapRun, SP.SystemInv, IsSeparate;
    var P := (a, e, b) => M.Enabled(a, e) && M.IsDisciplined(a, e) && b == M.Apply(a, e);
    forall m | 0 <= m < n && MapEvents(r)[m].Some?
      ensures P(MapStates(r)[m], MapEvents(r)[m].value, MapStates(r)[m + 1])
    {
      assert IsStep(r, m);
      SP.SystemAt(r, config, m);
      SeparateAt(r, config, m, n);
      MapEventIsStep(r.states[m], r.events[m]);
    }
    MapSteps(r, config, n, P);
    var t := MapRun(r, n);
    forall x: nat | x < |t.events|
      ensures M.IsStep(t, x)
    {
      assert P(t.states[x], t.events[x], t.states[x + 1]);
    }
  }

  /**
   The mapping invariant in the whole system, project by project: the forward entry of a safe project is mirrored, or
   some pipeline still owes the write or the delete that settles it.
   */
  lemma SystemMapsAgree(r: Run, config: L.Config, i: nat, p: ProjectId)
    requires IsRun(r, config) && i < |r.states| && IsSeparate(r.states[i])
    requires M.IsSafe(p) && p in r.states[i].maps.store.forward
    ensures M.IsMirrored(r.states[i].maps.store, p)
            || M.IsOwed(r.states[i].maps, p, r.states[i].maps.store.forward[p].value)
  {
    hide Enabled, Apply, M.Enabled, M.Apply, MapRun, M.IsMirrored, M.IsOwed, M.IsSafe;
    MapRunIsRun(r, config, i);
    M.ForwardIsMirroredOrOwed(MapRun(r, i), |MapRun(r, i).events|, p);
  }

  ghost function SparesIndexOf(p: ProjectId): (M.State, M.Event, M.State) -> bool {
    (a, e, _) => IP.SparesIndex(a, e, p)
  }

  /**
   Index agreement in the whole system, project by project: while no step takes it out of the index, the enumeration
   says of a raw project what a lookup says, whenever no set of it is in progress.
   */
  lemma SystemIndexAgrees(r: Run, config: L.Config, i: nat, p: ProjectId)
    requires IsRun(r, config) && i < |r.states| && IsSeparate(r.states[i])
    requires IsRaw(p) && MapStepsAre(r, i, SparesIndexOf(p)) && IP.IsSettled(r.states[i].maps, p)
    ensures IsListedRightly(r.states[i].maps.store, p)
  {
    hide Enabled, Apply, M.Enabled, M.Apply, MapRun, IsRaw, IP.SparesIndex, IP.IsSettled, IsListedRightly, IsSeparate;
    MapRunIsRun(r, config, i);
    var P := SparesIndexOf(p);
    MapSteps(r, config, i, P);
    var t := MapRun(r, i);
    forall x | 0 <= x < |t.events|
      ensures IP.SparesIndex(t.states[x], t.events[x], p)
    {
      assert P(t.states[x], t.events[x], t.states[x + 1]);
    }
    IP.SettledIsListed(t, |t.events|, p);
  }

  ghost function SparesLogOf(p: ProjectId): (M.State, M.Event, M.State) -> bool {
    (a, e, _) => LP.SetsProper(e) && !LP.Misannounces(a, e, p)
  }

  /**
   Log replay in the whole system, project by project: while messages come through and none of p's last pipelines
   announces what is no longer so, a subscriber that has handled every message knows of p what the store says, whenever
   no pipeline of p has yet to publish.
   */
  lemma SystemLogAgrees(r: Run, config: L.Config, i: nat, p: ProjectId)
    requires IsRun(r, config) && i < |r.states| && IsSeparate(r.states[i])
    requires MapStepsAre(r, i, SparesLogOf(p)) && !LP.PublishIsOwed(r.states[i].maps, p)
    ensures LP.LogAgrees(r.states[i].maps, p)
  {
    hide Enabled, Apply, M.Enabled, M.Apply, MapRun, LP.SetsProper, LP.Misannounces, LP.PublishIsOwed, LP.LogAgrees;
    hide IsSeparate;
    MapRunIsRun(r, config, i);
    var P := SparesLogOf(p);
    MapSteps(r, config, i, P);
    var t := MapRun(r, i);
    forall x | 0 <= x < |t.events|
      ensures LP.SetsProper(t.events[x]) && !LP.Misannounces(t.states[x], t.events[x], p)
    {
      assert P(t.states[x], t.events[x], t.states[x + 1]);
    }
    LP.SettledLogAgrees(t, |t.events|, p);
  }
}
