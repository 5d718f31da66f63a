/** Whole-run properties of the claim protocol. */
module ClaimProofs {
  import opened Wrappers
  import opened Ids
  import opened Timed
  import opened Claims

  // ------------------------------------------------------------ provenance

  /** s was created by a call that won the marker of its key, and that call's Complete put s in the store. */
  ghost predicate Committed(st: State, s: SandboxId) {
    && s in st.created && st.created[s] in st.calls
    && st.calls[st.created[s]].claim.Claimed?
    && s in st.store.owners && st.store.owners[s].value == st.calls[st.created[s]].key
  }

  /** s was created for the given key. */
  ghost predicate MadeFor(st: State, s: SandboxId, key: string) {
    s in st.created && st.created[s] in st.calls && st.calls[st.created[s]].key == key
  }

  ghost predicate CreatedOk(st: State) {
    && (forall s <- st.created :: IsBase36(s) && st.created[s] in st.calls)
    && (forall s, t :: s in st.created && t in st.created && st.created[s] == st.created[t] ==> s == t)
  }

  ghost predicate HasCreated(created: map<SandboxId, CallId>, c: CallId) {
    exists s :: s in created && created[s] == c
  }

  ghost predicate CallOk(st: State, c: CallId)
    requires c in st.calls
  {
    var call := st.calls[c];
    && call.key != ""
    && (call.completed ==> call.claim.Claimed?)
    && match call.phase
       case Completing(s) => s in st.created && st.created[s] == c && !call.completed
       case Dropping(r) => r.Success? ==> ResultOk(st, c, r.value)
       case Finished(r) => r.Success? ==> ResultOk(st, c, r.value)
       case Creating => !HasCreated(st.created, c) && !call.completed
       case Crashed => true
       case _ => !HasCreated(st.created, c) && call.claim.Unclaimed?
  }

  /** What ScheduleSandbox may return: a sandbox this call made, or one committed by a claimer of the same key. */
  ghost predicate ResultOk(st: State, c: CallId, s: SandboxId)
    requires c in st.calls
  {
    MadeFor(st, s, st.calls[c].key) && (st.created[s] == c || Committed(st, s))
  }

  ghost predicate StoreOk(st: State) {
    && (forall s <- st.store.owners :: Committed(st, s))
    && (forall k <- st.store.results ::
          var e := st.store.results[k];
          && MadeFor(st, e.value, k) && Committed(st, e.value)
          && st.store.owners[e.value] == Entry(k, e.deadline))
  }

  ghost predicate ProvenanceInv(st: State) {
    CreatedOk(st) && StoreOk(st) && forall c <- st.calls :: CallOk(st, c)
  }

  /** Calls keep their key and, once claimed, their claim; created and owners only grow. */
  ghost predicate Grows(a: State, b: State) {
    && (forall c <- a.calls :: c in b.calls && b.calls[c].key == a.calls[c].key
                               && (a.calls[c].claim.Claimed? ==> b.calls[c].claim == a.calls[c].claim))
    && (forall s <- a.created :: s in b.created && b.created[s] == a.created[s])
    && (forall s <- a.store.owners :: s in b.store.owners && b.store.owners[s].value == a.store.owners[s].value)
  }

  lemma CallsGrow(st: State, e: Event, c: CallId)
    requires ProvenanceInv(st) && Enabled(st, e) && c in st.calls
    ensures var st' := Apply(st, e);
            c in st'.calls && st'.calls[c].key == st.calls[c].key
            && (st.calls[c].claim.Claimed? ==> st'.calls[c].claim == st.calls[c].claim)
  {
    hide CreatedOk, StoreOk, HasCreated, ResultOk;
    assert CallOk(st, c);
  }

  lemma CreatedGrows(st: State, e: Event)
    requires Enabled(st, e)
    ensures forall s <- st.created :: s in Apply(st, e).created && Apply(st, e).created[s] == st.created[s]
  {
  }

  lemma OwnersGrow(st: State, e: Event, s: SandboxId)
    requires ProvenanceInv(st) && Enabled(st, e) && s in st.store.owners
    ensures var st' := Apply(st, e);
            s in st'.store.owners && st'.store.owners[s].value == st.store.owners[s].value
  {
    hide CreatedOk, HasCreated, ResultOk;
    assert Committed(st, s);
    if e.Complete? {
      assert CallOk(st, e.call);
    }
  }

  lemma StepGrows(st: State, e: Event)
    requires ProvenanceInv(st) && Enabled(st, e)
    ensures Grows(st, Apply(st, e))
  {
    hide Enabled, Apply, ProvenanceInv;
    forall c <- st.calls
      ensures var st' := Apply(st, e);
              c in st'.calls && st'.calls[c].key == st.calls[c].key
              && (st.calls[c].claim.Claimed? ==> st'.calls[c].claim == st.calls[c].claim)
    {
      CallsGrow(st, e, c);
    }
    CreatedGrows(st, e);
    forall s <- st.store.owners
      ensures var st' := Apply(st, e);
              s in st'.store.owners && st'.store.owners[s].value == st.store.owners[s].value
    {
      OwnersGrow(st, e, s);
    }
  }

  /** A call the event does not belong to keeps CallOk. */
  lemma BystanderOk(st: State, e: Event, c: CallId)
    requires ProvenanceInv(st) && Enabled(st, e) && c in st.calls && !IsBy(e, c)
    ensures CallOk(Apply(st, e), c)
  {
    var st' := Apply(st, e);
    StepGrows(st, e);
    assert CallOk(st, c) && st'.calls[c] == st.calls[c];
    assert HasCreated(st'.created, c) ==> HasCreated(st.created, c);
  }

  /** A result read from the store is one ScheduleSandbox may return. */
  lemma LookupIsVouched(st: State, c: CallId)
    requires ProvenanceInv(st) && c in st.calls
    requires GetSandboxId(st.store, st.now, st.calls[c].key).Found?
    ensures ResultOk(st, c, GetSandboxId(st.store, st.now, st.calls[c].key).sandbox)
  {
    Base36Parses(st.store.results[st.calls[c].key].value);
  }

  lemma ActorOk(st: State, e: Event, c: CallId)
    requires ProvenanceInv(st) && Enabled(st, e) && !e.Begin? && IsBy(e, c)
    ensures CallOk(Apply(st, e), c)
  {
    StepGrows(st, e);
    assert CallOk(st, c);
    if e.Lookup? && GetSandboxId(st.store, st.now, st.calls[c].key).Found? {
      LookupIsVouched(st, c);
    }
  }

  lemma CreatedStep(st: State, e: Event)
    requires ProvenanceInv(st) && Enabled(st, e)
    ensures CreatedOk(Apply(st, e))
  {
    if e.Create? || e.CreateLost? {
      assert CallOk(st, e.call);
      assert !HasCreated(st.created, e.call);
    }
  }

  /** Completion writes both directions in one transaction, so they stay in agreement. */
  lemma CompletionKeepsStoreOk(st: State, c: CallId, reply: Reply)
    requires ProvenanceInv(st) && Enabled(st, Complete(c, reply)) && MayWrite(st.calls[c]) && !reply.Rejected?
    ensures StoreOk(Apply(st, Complete(c, reply)))
  {
    var st' := Apply(st, Complete(c, reply));
    StepGrows(st, Complete(c, reply));
    assert CallOk(st, c);
    var s := st.calls[c].phase.sandbox;
    assert Committed(st', s);
    forall k | k in st'.store.results
      ensures var x := st'.store.results[k];
              && MadeFor(st', x.value, k) && Committed(st', x.value)
              && st'.store.owners[x.value] == Entry(k, x.deadline)
    {
      if k != st.calls[c].key {
        assert Committed(st, st.store.results[k].value);
      }
    }
  }

  lemma StoreFrame(a: State, b: State)
    requires StoreOk(a) && Grows(a, b)
    requires b.store.results == a.store.results && b.store.owners == a.store.owners
    ensures StoreOk(b)
  {
  }

  /** Only a completing claimer writes results. */
  lemma OnlyCompletionWrites(st: State, e: Event)
    requires Enabled(st, e)
    requires e.Complete? && MayWrite(st.calls[e.call]) ==> e.reply.Rejected?
    ensures Apply(st, e).store.results == st.store.results && Apply(st, e).store.owners == st.store.owners
  {
  }

  lemma StoreStep(st: State, e: Event)
    requires ProvenanceInv(st) && Enabled(st, e)
    ensures StoreOk(Apply(st, e))
  {
    if e.Complete? && MayWrite(st.calls[e.call]) && !e.reply.Rejected? {
      CompletionKeepsStoreOk(st, e.call, e.reply);
    } else {
      StepGrows(st, e);
      OnlyCompletionWrites(st, e);
      StoreFrame(st, Apply(st, e));
    }
  }

  lemma ProvenanceStep(st: State, e: Event)
    requires ProvenanceInv(st) && Enabled(st, e)
    ensures ProvenanceInv(Apply(st, e))
  {
    CreatedStep(st, e);
    StoreStep(st, e);
    var st' := Apply(st, e);
    forall c | c in st'.calls
      ensures CallOk(st', c)
    {
      if c in st.calls && IsBy(e, c) {
        ActorOk(st, e, c);
      } else if c in st.calls {
        BystanderOk(st, e, c);
      }
    }
  }

  lemma {:induction false} ProvenanceAt(r: Run, i: nat)
    requires IsRun(r) && i < |r.states|
    ensures forall k :: 0 <= k <= i ==> ProvenanceInv(r.states[k])
  {
    hide Enabled, Apply;
    if i > 0 {
      ProvenanceAt(r, i - 1);
      assert IsStep(r, i - 1);
      ProvenanceStep(r.states[i - 1], r.events[i - 1]);
    }
  }

  /**
   In every run, a sandbox that ScheduleSandbox returns was made for the key it was asked for; one that the call did
   not make itself was made by a claimer of that key and committed by that claimer's Complete.
   */
  lemma Provenance(r: Run, i: nat, c: CallId, s: SandboxId)
    requires IsRun(r) && i < |r.states| && c in r.states[i].calls
    requires r.states[i].calls[c].phase == Finished(Success(s))
    ensures MadeFor(r.states[i], s, r.states[i].calls[c].key)
    ensures r.states[i].created[s] != c ==> Committed(r.states[i], s)
  {
    ProvenanceAt(r, i);
    assert CallOk(r.states[i], c);
  }

  /** In every run, a key's stored result and that sandbox's reverse entry name each other, with one deadline. */
  lemma ResultsAndOwnersAgree(r: Run, i: nat, key: string)
    requires IsRun(r) && i < |r.states| && key in r.states[i].store.results
    ensures var store := r.states[i].store;
            var e := store.results[key];
            e.value in store.owners && store.owners[e.value] == Entry(key, e.deadline)
  {
    ProvenanceAt(r, i);
  }

  /** A call that did not win its marker, or whose completion was acknowledged, changes no key of the store. */
  lemma OnlyOpenClaimsWrite(st: State, e: Event)
    requires Enabled(st, e) && (e.Complete? || e.Drop?) && !MayWrite(st.calls[e.call])
    ensures Apply(st, e).store == st.store
  {
  }

  // ------------------------------------------------------------ mutual exclusion

  /** A claimer that has neither finished nor had its completion acknowledged. */
  predicate IsActive(call: Call) {
    MayWrite(call) && !call.phase.Finished? && !call.phase.Crashed?
  }

  /** Every active claimer still has time on its marker. */
  ghost predicate Timely(st: State) {
    forall c <- st.calls :: IsActive(st.calls[c]) ==> st.now < st.calls[c].claim.until
  }

  /** The environment hypotheses of mutual exclusion, for one step. */
  ghost predicate IsTimelyStep(st: State, e: Event, st': State) {
    Timely(st') && (e.Complete? && e.reply.Lost? && e.call in st.calls ==> !MayWrite(st.calls[e.call]))
  }

  ghost predicate OwnsMarker(st: State, c: CallId)
    requires c in st.calls
  {
    var call := st.calls[c];
    call.claim.Claimed? && call.key in st.store.markers && st.store.markers[call.key].deadline == call.claim.until
  }

  predicate AreRivals(a: Call, b: Call) {
    IsActive(a) && IsActive(b) && a.key == b.key
  }

  /** At most one active claimer a key, and its marker is in place. */
  ghost predicate Exclusive(st: State) {
    && (forall c <- st.calls :: IsActive(st.calls[c]) ==> OwnsMarker(st, c))
    && (forall c, d :: c in st.calls && d in st.calls && AreRivals(st.calls[c], st.calls[d]) ==> c == d)
  }

  /** A step leaves active only calls that were, except for a winner of a marker that was not live. */
  lemma ActiveBefore(st: State, e: Event, c: CallId)
    requires ProvenanceInv(st) && Enabled(st, e) && c in Apply(st, e).calls && IsActive(Apply(st, e).calls[c])
    ensures c in st.calls && Apply(st, e).calls[c].key == st.calls[c].key
    ensures !IsActive(st.calls[c]) ==> e == Mark(c) && !MarkerExists(st.store, st.now, st.calls[c].key)
    ensures IsActive(st.calls[c]) ==> Apply(st, e).calls[c].claim == st.calls[c].claim
  {
    assert c in st.calls ==> CallOk(st, c);
  }

  /** A completion takes effect and its caller does not learn of it. */
  predicate LosesReply(st: State, e: Event) {
    e.Complete? && e.reply.Lost? && e.call in st.calls && MayWrite(st.calls[e.call])
  }

  /** A SETNX takes over the lapsed marker of a claimer that is still active. */
  ghost predicate WinsOverRival(st: State, e: Event) {
    && (e.Mark? || e.MarkLost?) && e.call in st.calls
    && var key := st.calls[e.call].key;
       !MarkerExists(st.store, st.now, key)
       && exists d :: d in st.calls && st.calls[d].key == key && IsActive(st.calls[d])
  }

  ghost predicate SparesExclusion(st: State, e: Event) {
    !LosesReply(st, e) && !WinsOverRival(st, e)
  }

  /** Only a claimer that may still write takes a marker away, and only a SETNX on a lapsed one replaces it. */
  lemma MarkerStays(st: State, e: Event, key: string)
    requires Enabled(st, e) && key in st.store.markers
    requires (e.Complete? || e.Drop?) && st.calls[e.call].key == key ==> !MayWrite(st.calls[e.call])
    requires (e.Mark? || e.MarkLost?) && st.calls[e.call].key == key ==> MarkerExists(st.store, st.now, key)
    ensures key in Apply(st, e).store.markers && Apply(st, e).store.markers[key] == st.store.markers[key]
  {
  }

  lemma ExclusiveStep(st: State, e: Event)
    requires ProvenanceInv(st) && Exclusive(st) && Enabled(st, e) && SparesExclusion(st, e)
    ensures Exclusive(Apply(st, e))
  {
    var st' := Apply(st, e);
    forall c | c in st'.calls && IsActive(st'.calls[c])
      ensures OwnsMarker(st', c)
    {
      ActiveBefore(st, e, c);
      if IsActive(st.calls[c]) {
        OwnerKeepsMarker(st, e, c);
      }
    }
    forall c, d | c in st'.calls && d in st'.calls && AreRivals(st'.calls[c], st'.calls[d])
      ensures c == d
    {
      ActiveBefore(st, e, c);
      ActiveBefore(st, e, d);
      assert IsActive(st.calls[c]) && IsActive(st.calls[d]) ==> AreRivals(st.calls[c], st.calls[d]);
    }
  }

  lemma OwnerKeepsMarker(st: State, e: Event, c: CallId)
    requires ProvenanceInv(st) && Exclusive(st) && Enabled(st, e) && SparesExclusion(st, e)
    requires c in st.calls && IsActive(st.calls[c])
    requires c in Apply(st, e).calls && IsActive(Apply(st, e).calls[c])
    ensures OwnsMarker(Apply(st, e), c)
  {
    ActiveBefore(st, e, c);
    assert OwnsMarker(st, c);
    if (e.Complete? || e.Drop?) && st.calls[e.call].key == st.calls[c].key && MayWrite(st.calls[e.call]) {
      assert AreRivals(st.calls[e.call], st.calls[c]);
      assert e.call == c;
    } else {
      MarkerStays(st, e, st.calls[c].key);
    }
  }

  lemma WinningBreaks(st: State, e: Event)
    requires ProvenanceInv(st) && Exclusive(st) && Enabled(st, e) && WinsOverRival(st, e)
    ensures !Exclusive(Apply(st, e))
  {
    var st', key := Apply(st, e), st.calls[e.call].key;
    var d :| d in st.calls && st.calls[d].key == key && IsActive(st.calls[d]);
    assert OwnsMarker(st, d) && CallOk(st, e.call);
    assert d in st'.calls && st'.calls[d] == st.calls[d];
    assert e.Mark? ==> AreRivals(st'.calls[e.call], st'.calls[d]);
    assert e.MarkLost? ==> !OwnsMarker(st', d);
  }

  /**
   A step keeps exclusion exactly if it neither completes a claim with the reply lost, nor takes over the lapsed marker
   of a claimer that is still active.
   */
  lemma ExclusiveExactly(st: State, e: Event)
    requires ProvenanceInv(st) && Exclusive(st) && Enabled(st, e)
    ensures Exclusive(Apply(st, e)) <==> !LosesReply(st, e) && !WinsOverRival(st, e)
  {
    if LosesReply(st, e) {
      assert IsActive(Apply(st, e).calls[e.call]);
      assert !OwnsMarker(Apply(st, e), e.call);
    } else if WinsOverRival(st, e) {
      WinningBreaks(st, e);
    } else {
      ExclusiveStep(st, e);
    }
  }

  /** Over whole runs: without such a step at most one call per key is active in any state, and its marker in place. */
  lemma {:induction false} ExclusiveAt(r: Run, i: nat)
    requires IsRun(r) && i < |r.states|
    requires forall j :: 0 <= j < i ==> SparesExclusion(r.states[j], r.events[j])
    ensures Exclusive(r.states[i])
  {
    hide Enabled, Apply, SparesExclusion;
    if i > 0 {
      ExclusiveAt(r, i - 1);
      ProvenanceAt(r, i - 1);
      assert IsStep(r, i - 1);
      ExclusiveStep(r.states[i - 1], r.events[i - 1]);
    }
  }

  lemma TimelyIsSparing(st: State, e: Event, st': State)
    requires Exclusive(st) && Timely(st) && IsTimelyStep(st, e, st')
    ensures SparesExclusion(st, e)
  {
    forall d | d in st.calls && IsActive(st.calls[d])
      ensures MarkerExists(st.store, st.now, st.calls[d].key)
    {
      assert OwnsMarker(st, d);
    }
  }

  /**
   Mutual exclusion over whole runs: if no claimer outlives its one-minute marker and no acknowledgement of a
   completion is lost, then in every state at most one call per key is active and that call's marker is live.
   */
  lemma {:induction false} MutualExclusion(r: Run, i: nat)
    requires IsRun(r) && i < |r.states|
    requires forall j :: 0 <= j < i ==> IsTimelyStep(r.states[j], r.events[j], r.states[j + 1])
    ensures Exclusive(r.states[i]) && Timely(r.states[i])
    ensures forall c <- r.states[i].calls :: IsActive(r.states[i].calls[c]) ==>
              MarkerExists(r.states[i].store, r.states[i].now, r.states[i].calls[c].key)
  {
    hide Enabled, Apply, SparesExclusion;
    if i > 0 {
      MutualExclusion(r, i - 1);
      ProvenanceAt(r, i - 1);
      assert IsStep(r, i - 1);
      TimelyIsSparing(r.states[i - 1], r.events[i - 1], r.states[i]);
      ExclusiveStep(r.states[i - 1], r.events[i - 1]);
    }
  }

  /** While exclusion is spared no call's Complete or deferred Drop takes the marker of another active claimer. */
  lemma MarkersAreSpared(r: Run, i: nat, c: CallId)
    requires IsRun(r) && i < |r.events|
    requires forall j :: 0 <= j < i ==> SparesExclusion(r.states[j], r.events[j])
    requires (r.events[i].Drop? || r.events[i].Complete?) && r.events[i].call != c
    requires c in r.states[i].calls && IsActive(r.states[i].calls[c])
    ensures var key := r.states[i].calls[c].key;
            var before, after := r.states[i].store.markers, r.states[i + 1].store.markers;
            key in before && key in after && after[key] == before[key]
  {
    assert IsStep(r, i);
    ExclusiveAt(r, i);
    var st, d := r.states[i], r.events[i].call;
    assert OwnsMarker(st, c);
    assert st.calls[d].key == st.calls[c].key && MayWrite(st.calls[d]) ==> AreRivals(st.calls[d], st.calls[c]);
    MarkerStays(st, r.events[i], st.calls[c].key);
  }

  /** Two different calls are active on one key. */
  ghost predicate Violated(st: State, c: CallId, d: CallId) {
    c != d && c in st.calls && d in st.calls && AreRivals(st.calls[c], st.calls[d])
  }

  /** Some run whose events are all allowed ends in the state. */
  ghost predicate Reaches(st: State, allowed: Event -> bool) {
    exists r: Run :: IsRun(r) && Last(r) == st && forall e <- r.events :: allowed(e)
  }

  predicate IsNoCompletion(e: Event) { !e.Complete? }

  predicate IsPunctual(e: Event) { !e.Tick? && !e.Fault? }

  lemma Then(st: State, e: Event, next: State, allowed: Event -> bool)
    requires Reaches(st, allowed) && allowed(e) && Enabled(st, e) && Apply(st, e) == next
    ensures Reaches(next, allowed)
  {
    var r: Run :| IsRun(r) && Last(r) == st && forall e' <- r.events :: allowed(e');
    ExtendIsRun(r, e);
    assert Last(Extend(r, e)) == next;
  }

  /** Call 0 has won the marker of key "k" at time 0. */
  const FIRST: State :=
    State(0, Store(map[], map[], map["k" := Entry("1", PENDING_KEY_TTL)]),
          map[0 := Call("k", Creating, Claimed(PENDING_KEY_TTL), false)], map[])

  const MARKING: Call := Call("k", Marking, Unclaimed, false)

  /** A new call looks up key "k" and finds nothing. */
  lemma FruitlessLookup(st: State, c: CallId, allowed: Event -> bool)
    requires Reaches(st, allowed) && allowed(Begin(c, "k")) && allowed(Lookup(c))
    requires c !in st.calls && GetSandboxId(st.store, st.now, "k").NotFound?
    ensures Reaches(SetCall(st, c, MARKING), allowed)
  {
    hide Reaches;
    var begun := SetCall(st, c, Call("k", LookingUp, Unclaimed, false));
    Then(st, Begin(c, "k"), begun, allowed);
    Then(begun, Lookup(c), SetCall(st, c, MARKING), allowed);
  }

  lemma FirstClaim(allowed: Event -> bool)
    requires allowed(Begin(0, "k")) && allowed(Lookup(0)) && allowed(Mark(0))
    ensures Reaches(FIRST, allowed)
  {
    assert IsRun(Run([INITIAL], []));
    FruitlessLookup(INITIAL, 0, allowed);
    Then(SetCall(INITIAL, 0, MARKING), Mark(0), FIRST, allowed);
  }

  /** The call that looked up key "k" in vain wins the marker. */
  function Marked(st: State, c: CallId): State
    requires c in st.calls
  {
    SetCall(st.(store := MarkPendingCreation(st.store, st.now, "k")), c,
            Call("k", Creating, Claimed(st.now + PENDING_KEY_TTL), false))
  }

  /** Without timeliness exclusion fails: a slow claimer's marker lapses and a second call claims the key. */
  lemma SlowClaimerBreaksExclusion()
    ensures exists r :: IsRun(r) && Violated(Last(r), 0, 1) && forall e <- r.events :: !e.Complete?
  {
    FirstClaim(IsNoCompletion);
    var st := FIRST.(now := PENDING_KEY_TTL);
    Then(FIRST, Tick(PENDING_KEY_TTL), st, IsNoCompletion);
    FruitlessLookup(st, 1, IsNoCompletion);
    st := SetCall(st, 1, MARKING);
    Then(st, Mark(1), Marked(st, 1), IsNoCompletion);
    var r :| IsRun(r) && Last(r) == Marked(st, 1) && forall e <- r.events :: IsNoCompletion(e);
  }

  /**
   Calls 1 and 2 find nothing, then call 0, which won the marker, creates "a" and its completion takes effect: the two
   others go on to SETNX although the result is now stored.
   */
  function Stale(reply: Reply): State {
    State(0, CompletePendingCreation(Store(map[], map[], map[]), 0, "k", "a"),
          map[0 := Call("k", Dropping(Success("a")), Claimed(PENDING_KEY_TTL), reply.Answered?),
              1 := MARKING, 2 := MARKING],
          map["a" := 0])
  }

  lemma TwoLookups()
    ensures Reaches(FIRST.(calls := FIRST.calls[1 := MARKING][2 := MARKING]), IsPunctual)
  {
    hide Reaches;
    FirstClaim(IsPunctual);
    FruitlessLookup(FIRST, 1, IsPunctual);
    FruitlessLookup(SetCall(FIRST, 1, MARKING), 2, IsPunctual);
  }

  lemma StaleLookups(reply: Reply)
    requires !reply.Rejected?
    ensures Reaches(Stale(reply), IsPunctual)
  {
    hide Reaches;
    TwoLookups();
    var st := FIRST.(calls := FIRST.calls[1 := MARKING][2 := MARKING]);
    var call := Call("k", Completing("a"), Claimed(PENDING_KEY_TTL), false);
    var made := State(0, st.store, st.calls[0 := call], map["a" := 0]);
    Then(st, Create(0, "a"), made, IsPunctual);
    Then(made, Complete(0, reply), Stale(reply), IsPunctual);
  }

  /** Call 0, whose completion was not acknowledged, drops the marker that call 1 set. */
  lemma DropOfAnother()
    ensures Reaches(SetCall(Marked(Stale(Lost), 1).(store := Stale(Lost).store), 0,
                            Call("k", Finished(Success("a")), Claimed(PENDING_KEY_TTL), false)), IsPunctual)
  {
    hide Reaches;
    StaleLookups(Lost);
    var st := Marked(Stale(Lost), 1);
    Then(Stale(Lost), Mark(1), st, IsPunctual);
    Then(st, Drop(0, Answered),
         SetCall(st.(store := Stale(Lost).store), 0,
                 Call("k", Finished(Success("a")), Claimed(PENDING_KEY_TTL), false)), IsPunctual);
  }

  /** Without acknowledged completions exclusion fails even though no time passes: call 0 drops call 1's marker. */
  lemma LostCompletionBreaksExclusion()
    ensures exists r :: IsRun(r) && Violated(Last(r), 1, 2) && forall e <- r.events :: !e.Tick? && !e.Fault?
  {
    DropOfAnother();
    var st := SetCall(Marked(Stale(Lost), 1).(store := Stale(Lost).store), 0,
                      Call("k", Finished(Success("a")), Claimed(PENDING_KEY_TTL), false));
    Then(st, Mark(2), Marked(st, 2), IsPunctual);
    var r :| IsRun(r) && Last(r) == Marked(st, 2) && forall e <- r.events :: IsPunctual(e);
  }

  /** Winning the marker does not re-read the result: two sandboxes for one key, with no fault and no delay. */
  lemma StaleLookupDuplicates()
    ensures exists r :: IsRun(r) && MadeFor(Last(r), "a", "k") && MadeFor(Last(r), "b", "k")
                        && forall e <- r.events :: !e.Tick? && !e.Fault?
  {
    StaleLookups(Answered);
    var st := Marked(Stale(Answered), 1);
    Then(Stale(Answered), Mark(1), st, IsPunctual);
    var made := SetCall(st.(created := st.created["b" := 1]), 1, st.calls[1].(phase := Completing("b")));
    Then(st, Create(1, "b"), made, IsPunctual);
    assert MadeFor(made, "a", "k") && MadeFor(made, "b", "k");
    hide MadeFor, Stale, Marked, Enabled, Apply, IsStep;
    var r :| IsRun(r) && Last(r) == made && forall e <- r.events :: IsPunctual(e);
  }

  // ------------------------------------------------------------ how long things last

  /** A lookup tells an absent result, or an expired one, from one that does not parse: empty, or a bare prefix. */
  lemma LookupExactly(store: Store, now: Time, key: string)
    ensures var reply := GetSandboxId(store, now, key);
            && (reply.NotFound? <==> key !in store.results || store.results[key].deadline <= now)
            && (reply.Unreadable? <==> key in store.results && now < store.results[key].deadline
                                       && store.results[key].value in {"", "sandbox-"})
  {
    if key in store.results {
      Unparsable(store.results[key].value, SANDBOX_PREFIX);
    }
  }

  /**
   A completion's result is found for exactly ten minutes, and no marker is; a marker that is set anew lives for exactly
   one minute, and is gone after a Drop. Nothing changes for other keys.
   */
  lemma HowLongThingsLast(store: Store, now: Time, key: string, s: SandboxId, d: Time, other: string)
    requires IsBase36(s) && other != key
    ensures var done := CompletePendingCreation(store, now, key, s);
            && GetSandboxId(done, now + d, key) == (if d < 600_000 then Found(s) else NotFound)
            && !MarkerExists(done, now + d, key)
            && GetSandboxId(done, now + d, other) == GetSandboxId(store, now + d, other)
            && MarkerExists(done, now + d, other) == MarkerExists(store, now + d, other)
    ensures var marked := MarkPendingCreation(store, now, key);
            && (!MarkerExists(store, now, key) ==> (MarkerExists(marked, now + d, key) <==> d < 60_000))
            && (MarkerExists(store, now, key) ==> marked == store)
            && GetSandboxId(marked, now + d, key) == GetSandboxId(store, now + d, key)
            && MarkerExists(marked, now + d, other) == MarkerExists(store, now + d, other)
    ensures var dropped := DropPendingCreation(store, key);
            && !MarkerExists(dropped, now + d, key)
            && GetSandboxId(dropped, now + d, key) == GetSandboxId(store, now + d, key)
            && MarkerExists(dropped, now + d, other) == MarkerExists(store, now + d, other)
  {
    Base36Parses(s);
  }

  // ------------------------------------------------------------ stretches of runs

  /** Steps that follow one another, from any state on, and are all those of calls begun before. */
  ghost predicate IsStretch(r: Run) {
    && |r.states| == |r.events| + 1
    && (forall i: nat :: i < |r.events| ==> IsStep(r, i))
    && (forall e <- r.events :: !e.Tick? && !e.Begin?)
  }

  /** Such steps lead from a to b. */
  ghost predicate Leads(a: State, b: State) {
    exists r: Run :: IsStretch(r) && r.states[0] == a && Last(r) == b
  }

  lemma LeadsNowhere(st: State)
    ensures Leads(st, st)
  {
    var r := Run([st], []);
    assert IsStretch(r) && Last(r) == st;
  }

  lemma ThenStep(a: State, st: State, e: Event, b: State)
    requires Leads(a, st) && !e.Tick? && !e.Begin? && Enabled(st, e) && Apply(st, e) == b
    ensures Leads(a, b)
  {
    var r: Run :| IsStretch(r) && r.states[0] == a && Last(r) == st;
    var next := Run(r.states + [b], r.events + [e]);
    forall i: nat | i < |next.events|
      ensures IsStep(next, i)
    {
      assert i < |r.events| ==> IsStep(r, i);
    }
    assert IsStretch(next) && Last(next) == b;
  }

  /** Call 0 has just begun. */
  function Begun(key: string): State {
    INITIAL.(calls := map[0 := Call(key, LookingUp, Unclaimed, false)])
  }

  /** Call 0 has made "a" under the key, and is over. */
  function Made(key: string): State {
    State(0, Store(map[key := Entry("a", IDEMPOTENCE_KEY_TTL)], map["a" := Entry(key, IDEMPOTENCE_KEY_TTL)], map[]),
          map[0 := Call(key, Finished(Success("a")), Claimed(PENDING_KEY_TTL), true)], map["a" := 0])
  }

  /** Call 0 from its first lookup to its end. */
  lemma MakeAlone(key: string)
    ensures Leads(Begun(key), Made(key))
  {
    hide Leads;
    LeadsNowhere(Begun(key));
    var s1 := INITIAL.(calls := map[0 := Call(key, Marking, Unclaimed, false)]);
    ThenStep(Begun(key), Begun(key), Lookup(0), s1);
    var call := Call(key, Creating, Claimed(PENDING_KEY_TTL), false);
    var s2 := State(0, Store(map[], map[], map[key := Entry("1", PENDING_KEY_TTL)]), map[0 := call], map[]);
    ThenStep(Begun(key), s1, Mark(0), s2);
    call := call.(phase := Completing("a"));
    var s3 := s2.(calls := map[0 := call], created := map["a" := 0]);
    ThenStep(Begun(key), s2, Create(0, "a"), s3);
    call := call.(phase := Dropping(Success("a")), completed := true);
    var s4 := Made(key).(calls := map[0 := call]);
    ThenStep(Begun(key), s3, Complete(0, Answered), s4);
    ThenStep(Begun(key), s4, Drop(0, Answered), Made(key));
  }

  /** A call 1 under that key returns "a" again. */
  lemma ReuseAlone(key: string)
    ensures Leads(SetCall(Made(key), 1, Call(key, LookingUp, Unclaimed, false)),
                  SetCall(Made(key), 1, Call(key, Finished(Success("a")), Unclaimed, false)))
  {
    hide Leads;
    Base36Parses("a");
    var s1 := SetCall(Made(key), 1, Call(key, LookingUp, Unclaimed, false));
    LeadsNowhere(s1);
    var s2 := SetCall(Made(key), 1, Call(key, Dropping(Success("a")), Unclaimed, false));
    ThenStep(s1, s1, Lookup(1), s2);
    ThenStep(s1, s2, Drop(1, Answered), SetCall(Made(key), 1, Call(key, Finished(Success("a")), Unclaimed, false)));
  }

  // ------------------------------------------------------------ bounded duplication

  /** A claimer's completion of the given key takes effect in this step. */
  ghost predicate Completes(st: State, e: Event, key: string) {
    && e.Complete? && Enabled(st, e) && !e.reply.Rejected?
    && MayWrite(st.calls[e.call]) && st.calls[e.call].key == key
  }

  /** A result for key is stored at least until the deadline, and call c was served from it if it got that far. */
  ghost predicate Served(st: State, c: CallId, key: string, deadline: Time) {
    && key in st.store.results && deadline <= st.store.results[key].deadline
    && (c in st.calls ==>
          && !HasCreated(st.created, c) && st.calls[c].key == key
          && match st.calls[c].phase
             case LookingUp => true
             case Dropping(r) => r.Success?
             case Finished(r) => r.Success?
             case Crashed => true
             case _ => false)
  }

  /** Call c, if this is its step, is for the given key, meets no error, and looks up before the deadline. */
  ghost predicate IsLateStep(st: State, e: Event, c: CallId, key: string, deadline: Time) {
    IsBy(e, c) ==> (e.Begin? ==> e.key == key) && !e.Fault? && (e.Lookup? ==> st.now < deadline)
  }

  /** Results are only replaced by later ones. */
  lemma ResultLasts(st: State, e: Event, key: string)
    requires Enabled(st, e) && key in st.store.results
    requires st.store.results[key].deadline <= st.now + IDEMPOTENCE_KEY_TTL
    ensures key in Apply(st, e).store.results
    ensures st.store.results[key].deadline <= Apply(st, e).store.results[key].deadline
                                           <= Apply(st, e).now + IDEMPOTENCE_KEY_TTL
  {
    if e.Complete? {
    }
  }

  /** Another call's step neither moves call c nor creates in its name. */
  lemma BystanderKeeps(st: State, e: Event, c: CallId)
    requires Enabled(st, e) && !IsBy(e, c)
    ensures c in Apply(st, e).calls <==> c in st.calls
    ensures c in st.calls ==> Apply(st, e).calls[c] == st.calls[c]
    ensures HasCreated(Apply(st, e).created, c) ==> HasCreated(st.created, c)
  {
  }

  lemma ServedStep(st: State, e: Event, c: CallId, key: string, deadline: Time)
    requires ProvenanceInv(st) && Enabled(st, e)
    requires Served(st, c, key, deadline) && IsLateStep(st, e, c, key, deadline)
    requires st.store.results[key].deadline <= st.now + IDEMPOTENCE_KEY_TTL
    ensures Served(Apply(st, e), c, key, deadline)
  {
    ResultLasts(st, e, key);
    if !IsBy(e, c) {
      BystanderKeeps(st, e, c);
    } else if e.Begin? {
      assert forall s <- st.created :: st.created[s] in st.calls;
    } else if e.Lookup? {
      Base36Parses(st.store.results[key].value);
    }
  }

  lemma CompletionServes(st: State, e: Event, c: CallId, key: string)
    requires ProvenanceInv(st) && Completes(st, e, key)
    requires c in st.calls ==> st.calls[c].key == key && st.calls[c].phase.LookingUp?
    ensures Served(Apply(st, e), c, key, st.now + IDEMPOTENCE_KEY_TTL)
    ensures Apply(st, e).store.results[key].deadline <= Apply(st, e).now + IDEMPOTENCE_KEY_TTL
  {
    assert c in st.calls ==> CallOk(st, c);
    assert forall s <- st.created :: st.created[s] in st.calls;
  }

  lemma {:induction false} ServedFrom(r: Run, i: nat, j: nat, c: CallId, key: string)
    requires IsRun(r) && i < j < |r.states| && Completes(r.states[i], r.events[i], key)
    requires c in r.states[i].calls ==> r.states[i].calls[c].key == key && r.states[i].calls[c].phase.LookingUp?
    requires forall m :: i < m < j ==>
      IsLateStep(r.states[m], r.events[m], c, key, r.states[i].now + IDEMPOTENCE_KEY_TTL)
    ensures Served(r.states[j], c, key, r.states[i].now + IDEMPOTENCE_KEY_TTL)
    ensures r.states[j].store.results[key].deadline <= r.states[j].now + IDEMPOTENCE_KEY_TTL
    decreases j
  {
    hide Enabled, Apply;
    ProvenanceAt(r, j - 1);
    assert IsStep(r, j - 1);
    var st, e := r.states[j - 1], r.events[j - 1];
    if j == i + 1 {
      CompletionServes(st, e, c, key);
    } else {
      ServedFrom(r, i, j - 1, c, key);
      ServedStep(st, e, c, key, r.states[i].now + IDEMPOTENCE_KEY_TTL);
      ResultLasts(st, e, key);
    }
  }

  /**
   Once a claim for key completes (step i), a call that has not yet looked up, meets no error, and looks up within ten
   minutes of that completion, creates nothing, and what it returns is a sandbox committed for that key.
   */
  lemma LateCallIsServed(r: Run, i: nat, j: nat, c: CallId, key: string)
    requires IsRun(r) && i < j < |r.states| && Completes(r.states[i], r.events[i], key)
    requires c in r.states[i].calls ==> r.states[i].calls[c].key == key && r.states[i].calls[c].phase.LookingUp?
    requires forall m :: i < m < j ==>
      IsLateStep(r.states[m], r.events[m], c, key, r.states[i].now + IDEMPOTENCE_KEY_TTL)
    ensures !HasCreated(r.states[j].created, c)
    ensures c in r.states[j].calls && r.states[j].calls[c].phase.Finished? ==>
      exists s :: r.states[j].calls[c].phase == Finished(Success(s))
                  && Committed(r.states[j], s) && MadeFor(r.states[j], s, key)
  {
    ServedFrom(r, i, j, c, key);
    ProvenanceAt(r, j);
    if c !in r.states[j].calls {
      assert forall s <- r.states[j].created :: r.states[j].created[s] in r.states[j].calls;
    } else if r.states[j].calls[c].phase.Finished? {
      assert CallOk(r.states[j], c);
    }
  }

  lemma {:induction false} RunGrows(r: Run, i: nat, j: nat)
    requires IsRun(r) && i <= j < |r.states|
    ensures Grows(r.states[i], r.states[j])
    decreases j
  {
    hide Enabled, Apply;
    if i < j {
      RunGrows(r, i, j - 1);
      ProvenanceAt(r, j - 1);
      assert IsStep(r, j - 1);
      StepGrows(r.states[j - 1], r.events[j - 1]);
    }
  }

  /** Between its first lookup and its pod: the phases from which a call may still create. */
  predicate IsUnderway(p: Phase) {
    p.Marking? || p.Awaiting? || p.Sleeping? || p.Polling? || p.CheckingMarker? || p.Creating?
  }

  /** Call c has not looked up by state i. */
  ghost predicate IsLate(r: Run, i: nat, c: CallId)
    requires i < |r.states|
  {
    c in r.states[i].calls ==> r.states[i].calls[c].phase.LookingUp?
  }

  /** Step m, if a late call for key makes it, is error-free, and a lookup within ten minutes of state i. */
  ghost predicate LateCallsAreFine(r: Run, i: nat, m: nat, key: string)
    requires i <= m < |r.events| && |r.states| == |r.events| + 1
  {
    forall c <- r.states[m + 1].calls :: r.states[m + 1].calls[c].key == key && IsLate(r, i, c) ==>
      IsLateStep(r.states[m], r.events[m], c, key, r.states[i].now + IDEMPOTENCE_KEY_TTL)
  }

  /** A claim for key completes in step i, and from then to state j late calls for key are fine. */
  ghost predicate IsWindow(r: Run, i: nat, j: nat, key: string) {
    && IsRun(r) && i < j < |r.states| && Completes(r.states[i], r.events[i], key)
    && forall m :: i < m < j ==> LateCallsAreFine(r, i, m, key)
  }

  lemma LateSteps(r: Run, i: nat, j: nat, key: string, c: CallId)
    requires IsWindow(r, i, j, key) && IsLate(r, i, c)
    requires c in r.states[j].calls && r.states[j].calls[c].key == key
    ensures forall m :: i < m < j ==>
              IsLateStep(r.states[m], r.events[m], c, key, r.states[i].now + IDEMPOTENCE_KEY_TTL)
    ensures c in r.states[i].calls ==> r.states[i].calls[c].key == key
  {
    RunGrows(r, i, j);
    forall m | i < m < j
      ensures IsLateStep(r.states[m], r.events[m], c, key, r.states[i].now + IDEMPOTENCE_KEY_TTL)
    {
      assert LateCallsAreFine(r, i, m, key);
      if IsBy(r.events[m], c) {
        ActorIsKnown(r, m);
        RunGrows(r, m + 1, j);
      }
    }
  }

  /** A call that has made its pod, or has ended, makes no more. */
  lemma SettledStep(st: State, e: Event, c: CallId, t: SandboxId)
    requires Enabled(st, e) && c in st.calls && !IsUnderway(st.calls[c].phase) && !st.calls[c].phase.LookingUp?
    ensures var st' := Apply(st, e);
            && c in st'.calls && !IsUnderway(st'.calls[c].phase) && !st'.calls[c].phase.LookingUp?
            && (t in st'.created && st'.created[t] == c ==> t in st.created && st.created[t] == c)
  {
  }

  lemma {:induction false} SettledFrom(r: Run, i: nat, j: nat, c: CallId, t: SandboxId)
    requires IsRun(r) && i <= j < |r.states| && c in r.states[i].calls
    requires !IsUnderway(r.states[i].calls[c].phase) && !r.states[i].calls[c].phase.LookingUp?
    ensures c in r.states[j].calls
    ensures !IsUnderway(r.states[j].calls[c].phase) && !r.states[j].calls[c].phase.LookingUp?
    ensures t in r.states[j].created && r.states[j].created[t] == c ==>
              t in r.states[i].created && r.states[i].created[t] == c
    decreases j
  {
    hide Enabled, Apply, IsUnderway;
    if i < j {
      SettledFrom(r, i, j - 1, c, t);
      assert IsStep(r, j - 1);
      SettledStep(r.states[j - 1], r.events[j - 1], c, t);
    }
  }

  /**
   Bounded duplication: once a claim for key completes (step i), any further sandbox made for key while late calls are
   fine was made by a call that had made its first lookup by then and was still underway.
   */
  lemma ExtrasAreOfEarlierCalls(r: Run, i: nat, j: nat, key: string, t: SandboxId)
    requires IsWindow(r, i, j, key) && MadeFor(r.states[j], t, key) && !MadeFor(r.states[i], t, key)
    ensures var c := r.states[j].created[t];
            c in r.states[i].calls && r.states[i].calls[c].key == key && IsUnderway(r.states[i].calls[c].phase)
  {
    var c := r.states[j].created[t];
    RunGrows(r, i, j);
    assert HasCreated(r.states[j].created, c);
    if IsLate(r, i, c) {
      LateSteps(r, i, j, key, c);
      ServedFrom(r, i, j, c, key);
    } else if !IsUnderway(r.states[i].calls[c].phase) {
      SettledFrom(r, i, j, c, t);
    }
  }

  /**
   Hence with no call for key underway when a claim completes, the sandboxes made for key stay the same for the whole
   window, whatever calls there were before: failed ones, crashed ones, earlier windows.
   */
  lemma NothingMadeInWindow(r: Run, i: nat, j: nat, key: string, t: SandboxId)
    requires IsWindow(r, i, j, key)
    requires forall c <- r.states[i].calls ::
               r.states[i].calls[c].key == key ==> !IsUnderway(r.states[i].calls[c].phase)
    ensures MadeFor(r.states[j], t, key) <==> MadeFor(r.states[i], t, key)
  {
    RunGrows(r, i, j);
    if MadeFor(r.states[j], t, key) && !MadeFor(r.states[i], t, key) {
      ExtrasAreOfEarlierCalls(r, i, j, key, t);
    }
  }

  /** Non-overlapping calls, the first of them the claimer: exactly one sandbox is made for key. */
  lemma ExactlyOnePerWindow(r: Run, i: nat, j: nat, key: string, t: SandboxId)
    requires IsWindow(r, i, j, key)
    requires forall c <- r.states[i].calls :: r.states[i].calls[c].key == key ==> c == r.events[i].call
    ensures MadeFor(r.states[j], t, key) <==> t == r.states[i].calls[r.events[i].call].phase.sandbox
  {
    NothingMadeInWindow(r, i, j, key, t);
    ProvenanceAt(r, i);
    assert CallOk(r.states[i], r.events[i].call);
  }

  /** A call for key that will store no result any more, and will create nothing either unless it looks up. */
  predicate IsQuiet(call: Call) {
    !IsUnderway(call.phase) && !(call.phase.Completing? && MayWrite(call))
  }

  /** The result of key is s until the deadline at least, and no call for key is about to replace it. */
  ghost predicate IsStable(st: State, key: string, s: SandboxId, deadline: Time) {
    && key in st.store.results && st.store.results[key].value == s && deadline <= st.store.results[key].deadline
    && forall d <- st.calls :: st.calls[d].key == key ==> IsQuiet(st.calls[d])
  }

  /** Call c has returned nothing but s. */
  ghost predicate ReturnsOnly(st: State, c: CallId, s: SandboxId) {
    c in st.calls ==>
      match st.calls[c].phase
      case LookingUp => true
      case Dropping(r) => r == Success(s)
      case Finished(r) => r == Success(s)
      case Crashed => true
      case _ => false
  }

  lemma StableStep(st: State, e: Event, key: string, s: SandboxId, deadline: Time)
    requires Enabled(st, e) && IsStable(st, key, s, deadline) && IsBase36(s)
    requires st.store.results[key].deadline <= st.now + IDEMPOTENCE_KEY_TTL
    requires !e.Tick? && !e.Begin? && st.calls[e.call].key == key && st.calls[e.call].phase.LookingUp? ==>
               !e.Fault? && (e.Lookup? ==> st.now < deadline)
    ensures IsStable(Apply(st, e), key, s, deadline)
  {
    Base36Parses(s);
    ResultLasts(st, e, key);
  }

  lemma ReturnStep(st: State, e: Event, c: CallId, key: string, s: SandboxId, deadline: Time)
    requires Enabled(st, e) && IsStable(st, key, s, deadline) && IsBase36(s) && ReturnsOnly(st, c, s)
    requires IsLateStep(st, e, c, key, deadline) && (c in st.calls ==> st.calls[c].key == key)
    ensures ReturnsOnly(Apply(st, e), c, s)
  {
    Base36Parses(s);
    if !IsBy(e, c) {
      BystanderKeeps(st, e, c);
    }
  }

  /** A call that looks up for the first time after state i is a late one. */
  lemma LookingUpIsLate(r: Run, i: nat, m: nat, key: string, d: CallId)
    requires IsRun(r) && i <= m < |r.states|
    requires forall c <- r.states[i].calls ::
               r.states[i].calls[c].key == key ==> !IsUnderway(r.states[i].calls[c].phase)
    requires d in r.states[m].calls && r.states[m].calls[d].key == key && r.states[m].calls[d].phase.LookingUp?
    ensures IsLate(r, i, d)
  {
    RunGrows(r, i, m);
    if d in r.states[i].calls && !r.states[i].calls[d].phase.LookingUp? {
      SettledFrom(r, i, m, d, "");
    }
  }

  /** Whether the claimer that completes in step i is the only call for key that may still store a result. */
  ghost predicate OnlyClaimerIsOpen(r: Run, i: nat, key: string)
    requires i < |r.events| && i < |r.states| && !r.events[i].Tick?
  {
    forall d <- r.states[i].calls :: r.states[i].calls[d].key == key && d != r.events[i].call ==>
      IsQuiet(r.states[i].calls[d])
  }

  lemma {:induction false} StableFrom(r: Run, i: nat, j: nat, key: string)
    requires IsWindow(r, i, j, key) && OnlyClaimerIsOpen(r, i, key)
    ensures var s := r.states[i].calls[r.events[i].call].phase.sandbox;
            IsBase36(s) && IsStable(r.states[j], key, s, r.states[i].now + IDEMPOTENCE_KEY_TTL)
    ensures r.states[j].store.results[key].deadline <= r.states[j].now + IDEMPOTENCE_KEY_TTL
    decreases j
  {
    var s, deadline := r.states[i].calls[r.events[i].call].phase.sandbox, r.states[i].now + IDEMPOTENCE_KEY_TTL;
    ProvenanceAt(r, i);
    assert CallOk(r.states[i], r.events[i].call);
    assert IsStep(r, j - 1);
    if j > i + 1 {
      hide Enabled, Apply, IsUnderway;
      StableFrom(r, i, j - 1, key);
      var st, e := r.states[j - 1], r.events[j - 1];
      ActorIsThere(st, e);
      if !e.Tick? && !e.Begin? && st.calls[e.call].key == key && st.calls[e.call].phase.LookingUp? {
        LookingUpIsLate(r, i, j - 1, key, e.call);
        ActorIsKnown(r, j - 1);
        RunGrows(r, j - 1, j);
        assert LateCallsAreFine(r, i, j - 1, key);
      }
      StableStep(st, e, key, s, deadline);
      ResultLasts(st, e, key);
    }
  }

  lemma ActorIsThere(st: State, e: Event)
    requires Enabled(st, e)
    ensures !e.Tick? && !e.Begin? ==> e.call in st.calls
  {
  }

  /**
   Every late call that finishes returns the sandbox the claimer completed with, if at that time no other call for key
   is underway, or has yet to store a result.
   */
  lemma {:induction false} LateCallsShareOne(r: Run, i: nat, j: nat, key: string, c: CallId)
    requires IsWindow(r, i, j, key) && OnlyClaimerIsOpen(r, i, key)
    requires IsLate(r, i, c) && c in r.states[j].calls && r.states[j].calls[c].key == key
    ensures r.states[j].calls[c].phase.Finished? ==>
              r.states[j].calls[c].phase == Finished(Success(r.states[i].calls[r.events[i].call].phase.sandbox))
  {
    LateSteps(r, i, j, key, c);
    ReturnsFrom(r, i, j, key, c);
  }

  lemma {:induction false} ReturnsFrom(r: Run, i: nat, j: nat, key: string, c: CallId)
    requires IsWindow(r, i, j, key) && OnlyClaimerIsOpen(r, i, key) && IsLate(r, i, c)
    requires c in r.states[j].calls ==> r.states[j].calls[c].key == key
    requires forall m :: i < m < j ==>
               IsLateStep(r.states[m], r.events[m], c, key, r.states[i].now + IDEMPOTENCE_KEY_TTL)
    ensures ReturnsOnly(r.states[j], c, r.states[i].calls[r.events[i].call].phase.sandbox)
    decreases j
  {
    assert IsStep(r, j - 1);
    var s, deadline := r.states[i].calls[r.events[i].call].phase.sandbox, r.states[i].now + IDEMPOTENCE_KEY_TTL;
    if j > i + 1 {
      hide Enabled, Apply;
      RunGrows(r, j - 1, j);
      ReturnsFrom(r, i, j - 1, key, c);
      StableFrom(r, i, j - 1, key);
      ReturnStep(r.states[j - 1], r.events[j - 1], c, key, s, deadline);
    }
  }

  lemma ActorIsKnown(r: Run, m: nat)
    requires IsRun(r) && m < |r.events| && !r.events[m].Tick?
    ensures r.events[m].call in r.states[m + 1].calls
  {
    assert IsStep(r, m);
  }
}
