/** Which projects can come to share a sandbox: only one that is called like a key of the pool, with any other. */
module Sharing {
  import opened Wrappers
  import opened Ids
  import opened Timed
  import opened System
  import SP = SystemProofs
  import CP = ClaimProofs
  import PB = PoolBounds

  /** Two projects' services name one sandbox. */
  ghost predicate Shares(r: Run, config: L.Config, i: nat, p: ProjectId, q: ProjectId) {
    && IsRun(r, config) && i < |r.states|
    && p in r.states[i].services && q in r.states[i].services
    && r.states[i].services[p] == r.states[i].services[q]
  }

  // ------------------------------------------------------------ a run that shares

  const CONFIG: L.Config := L.Config(1, 1)

  function Last(r: Run): State
    requires r.states != []
  {
    r.states[|r.states| - 1]
  }

  /** Some run ends in st. */
  ghost predicate Reaches(st: State) {
    exists r: Run :: IsRun(r, CONFIG) && Last(r) == st
  }

  /** One step of a concrete run. */
  lemma Then(st: State, e: Event, st': State)
    requires Reaches(st) && Enabled(st, e) && Apply(st, e) == st'
    ensures Reaches(st')
  {
    var r: Run :| IsRun(r, CONFIG) && Last(r) == st;
    var next := Run(r.states + [st'], r.events + [e]);
    forall i: nat | i < |next.events|
      ensures IsStep(next, i)
    {
      assert i < |r.events| ==> IsStep(r, i);
    }
    assert IsRun(next, CONFIG) && Last(next) == st';
  }

  /** A stretch of the maintainer's own steps. */
  lemma {:induction false} ThenPool(st: State, k: L.Run)
    requires Reaches(st) && L.IsRun(k) && k.states[0] == st.pool && forall pe <- k.events :: PB.IsOwn(pe)
    ensures Reaches(st.(pool := PB.Last(k)))
    decreases |k.events|
  {
    if k.events != [] {
      hide L.Enabled, L.Apply, Reaches;
      var n := |k.events| - 1;
      var before := L.Run(k.states[..n + 1], k.events[..n]);
      forall i: nat | i < n
        ensures L.IsStep(before, i)
      {
        assert L.IsStep(k, i);
      }
      ThenPool(st, before);
      assert L.IsStep(k, n) && PB.IsOwn(k.events[n]);
      Then(st.(pool := PB.Last(before)), PoolStep(k.events[n]), st.(pool := PB.Last(k)));
    }
  }

  /** A stretch of steps of claim calls. */
  lemma {:induction false} ThenClaims(st: State, k: C.Run) returns (st': State)
    requires Reaches(st) && CP.IsStretch(k) && k.states[0] == st.claims
    ensures Reaches(st') && st' == st.(claims := C.Last(k), pods := st'.pods)
    decreases |k.events|
  {
    st' := st;
    if k.events != [] {
      hide C.Enabled, C.Apply, Reaches;
      var n := |k.events| - 1;
      var before := C.Run(k.states[..n + 1], k.events[..n]);
      forall i: nat | i < n
        ensures C.IsStep(before, i)
      {
        assert C.IsStep(k, i);
      }
      var mid := ThenClaims(st, before);
      assert C.IsStep(k, n);
      st' := mid.(claims := C.Last(k), pods := PodsAfter(mid.pods, k.events[n]));
      Then(mid, ClaimStep(k.events[n]), st');
    }
  }

  /** The pool, in its first round, has had "a" made under its key. */
  lemma PoolScheduled(key: string) returns (st: State)
    requires IsPoolKey(key)
    ensures Reaches(st)
    ensures st == Initial(CONFIG).(pool := L.Empty(CONFIG).(phase := L.Creating(1)), claims := CP.Made(key),
                                   pods := st.pods, poolCall := Some(0), poolKeys := {key})
  {
    var first := Run([Initial(CONFIG)], []);
    assert IsRun(first, CONFIG) && Last(first) == Initial(CONFIG);
    hide Reaches;
    PB.RoundBegins(CONFIG, true);
    var k: L.Run :| L.IsRun(k) && k.states[0] == L.Empty(CONFIG) && (forall pe <- k.events :: PB.IsOwn(pe))
                    && PB.Last(k) == L.Empty(CONFIG).(phase := L.Creating(1));
    ThenPool(Initial(CONFIG), k);
    st := Initial(CONFIG).(pool := L.Empty(CONFIG).(phase := L.Creating(1)));
    var begun := st.(claims := CP.Begun(key), poolCall := Some(0), poolKeys := {key});
    Then(st, BeginPoolSchedule(0, key), begun);
    CP.MakeAlone(key);
    var c: C.Run :| CP.IsStretch(c) && c.states[0] == CP.Begun(key) && C.Last(c) == CP.Made(key);
    st := ThenClaims(begun, c);
  }

  /** "a" has become ready in the pool. */
  lemma PoolFilled(key: string) returns (st: State)
    requires IsPoolKey(key)
    ensures Reaches(st)
    ensures st == Initial(CONFIG).(
      pool := L.Empty(CONFIG).(phase := L.RecountingReady, ready := map["a" := 0], made := {"a"}, rounds := 1),
      claims := CP.Made(key), pods := st.pods, poolKeys := {key})
  {
    hide Reaches;
    st := PoolScheduled(key);
    var pool := L.Empty(CONFIG).(phase := L.Created(1, "a"), made := {"a"});
    Then(st, EndPoolSchedule, st.(poolCall := None, pool := pool));
    st := st.(poolCall := None, pool := pool);
    PB.BecomesReady(pool);
    var k: L.Run :| L.IsRun(k) && k.states[0] == pool && (forall pe <- k.events :: PB.IsOwn(pe))
                    && PB.Last(k) == pool.(phase := L.RecountingReady, ready := map["a" := 0], rounds := 1);
    ThenPool(st, k);
    st := st.(pool := PB.Last(k));
  }

  /** A new request finds nothing stored and turns to the pool. */
  lemma ThenAsk(st: State, q: RequestId, p: ProjectId)
    requires Reaches(st) && q !in st.requests && p != "" && st.maps == M.INITIAL
    ensures Reaches(st.(requests := st.requests[q := Request(p, Popping)]))
  {
    hide Reaches;
    var s1 := st.(requests := st.requests[q := Request(p, Reading)]);
    Then(st, BeginRequest(q, p), s1);
    Then(s1, Read(q, true), st.(requests := st.requests[q := Request(p, Popping)]));
  }

  /** The state after what request q holds was served. */
  function Served(st: State, q: RequestId, s: SandboxId): State
    requires q in st.requests
  {
    SetPhase(st.(services := st.services[st.requests[q].project := s]), q, Awaiting(s))
  }

  /** What a request holds is served, the pipeline of the mapping being skipped as after an error. */
  lemma ThenServe(st: State, q: RequestId, s: SandboxId)
    requires Reaches(st) && q in st.requests && st.requests[q].phase == Assigning(s)
    ensures Reaches(Served(st, q, s))
  {
    hide Reaches;
    Then(st, EndAssign(q), SetPhase(st, q, Serving(s)));
    Then(SetPhase(st, q, Serving(s)), Serve(q, true), Served(st, q, s));
  }

  lemma ThenPop(st: State) returns (st': State)
    requires Reaches(st) && 0 in st.requests && st.requests[0].phase.Popping?
    requires st.pool.ready == map["a" := 0] && st.pool.pops == []
    ensures Reaches(st') && st' == SetPhase(st.(pool := st'.pool), 0, Assigning("a")) && st'.pool.ready == map[]
  {
    hide Reaches;
    assert L.IsMin(st.pool.ready, "a") && st.pool.ready - {"a"} == map[];
    st' := SetPhase(st.(pool := st.pool.(ready := map[], pops := [L.Pop("a", 0, 0, true)])), 0, Assigning("a"));
    Then(st, Pop(0, "a", true), st');
  }

  /** Project p is served "a", from the pool. */
  lemma Popped(key: string, p: ProjectId) returns (st: State)
    requires IsPoolKey(key) && p != ""
    ensures Reaches(st) && st.claims == CP.Made(key) && st.maps == M.INITIAL
    ensures st.pool.ready == map[] && st.services == map[p := "a"] && 1 !in st.requests
  {
    hide Reaches, Enabled, Apply;
    st := PoolFilled(key);
    ThenAsk(st, 0, p);
    st := ThenPop(st.(requests := st.requests[0 := Request(p, Popping)]));
    ThenServe(st, 0, "a");
    st := Served(st, 0, "a");
  }

  /** With the pool empty the request turns to the scheduler. */
  lemma ThenTurn(st: State, key: string) returns (st': State)
    requires Reaches(st) && 1 in st.requests && st.requests[1] == Request(key, Popping) && key != ""
    requires st.pool.ready == map[] && st.claims == CP.Made(key)
    ensures Reaches(st')
    ensures st' == SetPhase(st.(claims := C.SetCall(CP.Made(key), 1, C.Call(key, C.LookingUp, C.Unclaimed, false))),
                            1, Scheduling(1))
  {
    hide Reaches;
    var s1 := SetPhase(st, 1, ToSchedule);
    Then(st, PopEmpty(1), s1);
    st' := SetPhase(st.(claims := C.SetCall(CP.Made(key), 1, C.Call(key, C.LookingUp, C.Unclaimed, false))),
                    1, Scheduling(1));
    Then(s1, BeginSchedule(1, 1), st');
  }

  /** And the project that is called like the pool's key is given the same sandbox, by the scheduler. */
  lemma PoolKeyShares(key: string, p: ProjectId)
    requires IsPoolKey(key) && p != "" && p != key
    ensures exists r, i: nat :: Shares(r, CONFIG, i, key, p)
  {
    var st := Popped(key, p);
    ThenAsk(st, 1, key);
    st := ThenTurn(st.(requests := st.requests[1 := Request(key, Popping)]), key);
    CP.ReuseAlone(key);
    var c: C.Run :| CP.IsStretch(c) && c.states[0] == st.claims
                    && C.Last(c) == C.SetCall(CP.Made(key), 1,
                         C.Call(key, C.Finished(Success("a")), C.Unclaimed, false));
    st := ThenClaims(st, c);
    Then(st, EndSchedule(1), SetPhase(st, 1, Assigning("a")));
    ThenServe(SetPhase(st, 1, Assigning("a")), 1, "a");
    var r :| IsRun(r, CONFIG) && Last(r) == Served(SetPhase(st, 1, Assigning("a")), 1, "a");
    var i: nat := |r.events|;
    assert Shares(r, CONFIG, i, key, p);
  }

  // ------------------------------------------------------------ the exact condition

  /** No run ever serves p and q one sandbox exactly if neither is called like a key of the pool. */
  lemma SharingExactly(p: ProjectId, q: ProjectId)
    requires p != q && p != "" && q != ""
    ensures (forall r, config, i: nat :: !Shares(r, config, i, p, q)) <==> !IsPoolKey(p) && !IsPoolKey(q)
  {
    if IsPoolKey(p) {
      PoolKeyShares(p, q);
    } else if IsPoolKey(q) {
      PoolKeyShares(q, p);
      var r, i: nat :| Shares(r, CONFIG, i, q, p);
      assert Shares(r, CONFIG, i, p, q);
    } else {
      forall r, config, i: nat
        ensures !Shares(r, config, i, p, q)
      {
        if Shares(r, config, i, p, q) {
          SP.SystemAt(r, config, i);
          SP.NoSharedSandbox(r, config, i, p, q);
        }
      }
    }
  }
}
