/**
 The index set of all projects under interleaving: which single commands keep every live project enumerable, and what
 the enumeration returns once all pipelines have run to their end.
 */
module IndexProofs {
  import opened Wrappers
  import opened Ids
  import opened Timed
  import opened ProjectStore
  import opened StoreProofs
  import opened Pipelines

  // ------------------------------------------------------------ the invariant

  predicate OwesAdd(job: Job, p: ProjectId) {
    job.SetJob? && job.project == p && job.step <= 2
  }

  predicate OwesExpire(job: Job, p: ProjectId) {
    job.SetJob? && job.project == p && job.step == 3
  }

  /** A set of p has yet to add p to the index. */
  ghost predicate AddIsOwed(st: State, p: ProjectId) {
    exists j :: j in st.jobs && OwesAdd(st.jobs[j], p)
  }

  /** p is in a live index, and a set of p has yet to renew its deadline. */
  ghost predicate ExpireIsOwed(st: State, p: ProjectId) {
    IndexLive(st.store) && p in st.store.index.members && exists j :: j in st.jobs && OwesExpire(st.jobs[j], p)
  }

  ghost predicate IsCovered(st: State, p: ProjectId)
    requires p in st.store.forward
  {
    IsIndexed(st.store, p) || AddIsOwed(st, p) || ExpireIsOwed(st, p)
  }

  /** p, if it is live, is enumerable or about to be. */
  ghost predicate IndexInv(st: State, p: ProjectId) {
    Live(st.store.forward, p, st.store.now) ==> IsCovered(st, p)
  }

  // ------------------------------------------------------------ the steps that break it

  /** The SREM of p while p is live and no set of it is about to add it. */
  ghost predicate DropsLive(st: State, e: Event, p: ProjectId) {
    && e.Exec? && e.job in st.jobs && st.jobs[e.job].RemoveJob? && st.jobs[e.job].step == 2
    && st.jobs[e.job].found == Some(p)
    && Live(st.store.forward, p, st.store.now) && !AddIsOwed(st, p)
  }

  /** The index set lapses while p lives on, and no set of p is about to add it. */
  ghost predicate LapsesEarly(st: State, e: Event, p: ProjectId) {
    && e.Tick? && st.store.index.deadline.Some?
    && var now := st.store.now + e.elapsed;
       st.store.index.deadline.value <= now && Live(st.store.forward, p, now) && !AddIsOwed(st, p)
  }

  ghost predicate SparesIndex(st: State, e: Event, p: ProjectId) {
    !DropsLive(st, e, p) && !LapsesEarly(st, e, p)
  }

  // ------------------------------------------------------------ what single commands do

  /** A set that owes goes on owing unless it is the one that moves. */
  lemma DebtsStay(st: State, j: JobId, p: ProjectId)
    requires Enabled(st, Exec(j))
    ensures AddIsOwed(st, p) && !(OwesAdd(st.jobs[j], p) && st.jobs[j].step == 2) ==> AddIsOwed(Apply(st, Exec(j)), p)
    ensures AddIsOwed(Apply(st, Exec(j)), p) ==> AddIsOwed(st, p)
  {
    hide NextCommand;
    var st' := Apply(st, Exec(j));
    if AddIsOwed(st, p) {
      var i :| i in st.jobs && OwesAdd(st.jobs[i], p);
      assert i in st'.jobs && (i != j || st.jobs[j].step < 2 ==> OwesAdd(st'.jobs[i], p));
    }
    if AddIsOwed(st', p) {
      var i :| i in st'.jobs && OwesAdd(st'.jobs[i], p);
      assert i in st.jobs && OwesAdd(st.jobs[i], p);
    }
  }

  lemma ExpiryDebtsStay(st: State, j: JobId, p: ProjectId)
    requires Enabled(st, Exec(j)) && ExpireIsOwed(st, p) && !OwesExpire(st.jobs[j], p)
    requires IndexLive(Apply(st, Exec(j)).store) && p in Apply(st, Exec(j)).store.index.members
    ensures ExpireIsOwed(Apply(st, Exec(j)), p)
  {
    hide NextCommand;
    var i :| i in st.jobs && OwesExpire(st.jobs[i], p);
    assert i in Apply(st, Exec(j)).jobs && OwesExpire(Apply(st, Exec(j)).jobs[i], p);
  }

  /** A command of a set keeps every project covered. */
  lemma SetKeepsCovered(st: State, j: JobId, p: ProjectId)
    requires IndexInv(st, p) && IsBounded(st.store) && Enabled(st, Exec(j)) && st.jobs[j].SetJob?
    ensures IndexInv(Apply(st, Exec(j)), p)
  {
    var st', job := Apply(st, Exec(j)), st.jobs[j];
    DebtsStay(st, j, p);
    if job.project == p && job.step <= 1 {
      assert OwesAdd(st'.jobs[j], p);
    } else if job.project == p && job.step == 2 {
      assert OwesExpire(st'.jobs[j], p);
    } else if ExpireIsOwed(st, p) && !OwesExpire(job, p) {
      ExpiryDebtsStay(st, j, p);
    }
  }

  /** A command of a removal keeps p covered, but for the SREM of p while p is live. */
  lemma RemoveKeepsCovered(st: State, j: JobId, p: ProjectId)
    requires IndexInv(st, p) && Enabled(st, Exec(j)) && st.jobs[j].RemoveJob? && !DropsLive(st, Exec(j), p)
    ensures IndexInv(Apply(st, Exec(j)), p)
  {
    var st', job := Apply(st, Exec(j)), st.jobs[j];
    DebtsStay(st, j, p);
    if Live(st'.store.forward, p, st'.store.now) && !AddIsOwed(st, p) {
      assert Live(st.store.forward, p, st.store.now) && IsCovered(st, p);
      assert st'.store.index.members == st.store.index.members
             || st'.store.index.members == st.store.index.members - {job.found.value};
      if ExpireIsOwed(st, p) {
        assert p in st'.store.index.members;
        ExpiryDebtsStay(st, j, p);
      } else {
        assert p in st'.store.index.members;
      }
    }
  }

  lemma DropUncovers(st: State, j: JobId, p: ProjectId)
    requires Enabled(st, Exec(j)) && DropsLive(st, Exec(j), p)
    ensures !IndexInv(Apply(st, Exec(j)), p)
  {
    hide AddIsOwed;
    var st' := Apply(st, Exec(j));
    DebtsStay(st, j, p);
    assert p in st'.store.forward && p !in st'.store.index.members;
    assert !IsCovered(st', p);
  }

  lemma TickExactly(st: State, d: Time, p: ProjectId)
    requires IndexInv(st, p)
    ensures IndexInv(Apply(st, Tick(d)), p) <==> !LapsesEarly(st, Tick(d), p)
  {
    var st' := Apply(st, Tick(d));
    assert AddIsOwed(st', p) <==> AddIsOwed(st, p);
    if LapsesEarly(st, Tick(d), p) {
      assert !IndexLive(st'.store) && !IsCovered(st', p);
    } else if Live(st'.store.forward, p, st'.store.now) {
      assert Live(st.store.forward, p, st.store.now) && IsCovered(st, p);
      if !AddIsOwed(st, p) {
        assert IndexLive(st'.store);
      }
    }
  }

  lemma BeginKeepsIndex(st: State, e: Event, p: ProjectId)
    requires IndexInv(st, p) && Enabled(st, e) && (e.BeginSet? || e.BeginRemove?)
    ensures IndexInv(Apply(st, e), p)
  {
    assert forall j <- st.jobs :: j in Apply(st, e).jobs && Apply(st, e).jobs[j] == st.jobs[j];
  }

  lemma ExecExactly(st: State, j: JobId, p: ProjectId)
    requires IndexInv(st, p) && IsBounded(st.store) && Enabled(st, Exec(j))
    ensures IndexInv(Apply(st, Exec(j)), p) <==> !DropsLive(st, Exec(j), p)
  {
    hide IndexInv, DropsLive;
    if DropsLive(st, Exec(j), p) {
      DropUncovers(st, j, p);
    } else if st.jobs[j].SetJob? {
      SetKeepsCovered(st, j, p);
    } else {
      RemoveKeepsCovered(st, j, p);
    }
  }

  /**
   A step keeps p enumerable, or about to be, exactly if it is neither the SREM of p while p is live and no set is about
   to add it, nor a lapse of the index set under such a project.
   */
  lemma IndexExactly(st: State, e: Event, p: ProjectId)
    requires IndexInv(st, p) && IsBounded(st.store) && Enabled(st, e)
    ensures IndexInv(Apply(st, e), p) <==> !DropsLive(st, e, p) && !LapsesEarly(st, e, p)
  {
    hide IndexInv, IsBounded;
    match e
    case Tick(d) => TickExactly(st, d, p);
    case BeginSet(_, _, _) => BeginKeepsIndex(st, e, p);
    case BeginRemove(_, _) => BeginKeepsIndex(st, e, p);
    case Exec(j) => ExecExactly(st, j, p);
  }

  // ------------------------------------------------------------ runs

  /** No step up to state i takes p out of the index while it is live. */
  ghost predicate IndexIsSpared(r: Run, i: nat, p: ProjectId)
    requires i <= |r.events| < |r.states|
  {
    forall m :: 0 <= m < i ==> SparesIndex(r.states[m], r.events[m], p)
  }

  lemma {:induction false} IndexAt(r: Run, i: nat, p: ProjectId)
    requires IsRun(r) && i < |r.states| && IndexIsSpared(r, i, p)
    ensures IndexInv(r.states[i], p)
  {
    hide Enabled, Apply, DropsLive, LapsesEarly;
    if i > 0 {
      IndexAt(r, i - 1, p);
      OwnershipAt(r, i - 1);
      assert IsStep(r, i - 1);
      assert SparesIndex(r.states[i - 1], r.events[i - 1], p);
      IndexExactly(r.states[i - 1], r.events[i - 1], p);
    }
  }

  /** No set of p is in progress. */
  predicate IsSettled(st: State, p: ProjectId) {
    forall j <- st.jobs :: st.jobs[j].SetJob? && st.jobs[j].project == p ==> !IsOpen(st.jobs[j])
  }

  /**
   Index agreement command by command, project by project: under every interleaving that spares p, and whatever other
   projects are called, the enumeration says of a raw p what a lookup says, whenever no set of p is in progress.
   */
  lemma SettledIsListed(r: Run, i: nat, p: ProjectId)
    requires IsRun(r) && i < |r.states| && IndexIsSpared(r, i, p) && IsRaw(p) && IsSettled(r.states[i], p)
    ensures IsListedRightly(r.states[i].store, p)
  {
    IndexAt(r, i, p);
    IndexedIsListed(r.states[i].store, p);
  }

  /** p is spared and settled, and yet the enumeration is wrong about it. */
  ghost predicate MissesProject(r: Run, i: nat, p: ProjectId) {
    IsRun(r) && i < |r.states| && IndexIsSpared(r, i, p) && IsSettled(r.states[i], p)
    && !IsListedRightly(r.states[i].store, p)
  }

  lemma {:induction false} NoRemovals(r: Run, i: nat)
    requires IsRun(r) && i < |r.states| && forall e <- r.events :: IsOfSet(e)
    ensures forall j <- r.states[i].jobs :: r.states[i].jobs[j].SetJob?
  {
    if i > 0 {
      NoRemovals(r, i - 1);
      assert IsStep(r, i - 1) && IsOfSet(r.events[i - 1]);
    }
  }

  /** Any project whose name parsing changes, once set, is missing from the enumeration. */
  lemma UnrawIsMissed(p: ProjectId)
    requires !IsRaw(p)
    ensures exists r, i: nat :: MissesProject(r, i, p)
  {
    FromNothing(IsOfSet);
    ThenSet(INITIAL, 0, p, "a", IsOfSet);
    SetUnfolds(EMPTY, p, "a");
    var r :| IsRun(r) && Last(r) == WithSet(INITIAL, 0, p, "a") && forall e <- r.events :: IsOfSet(e);
    var st := Last(r).store;
    assert LookupForward(st, p) == HasSandbox("a");
    assert p !in AllMappings(st);
    forall m | 0 <= m < |r.events|
      ensures SparesIndex(r.states[m], r.events[m], p)
    {
      NoRemovals(r, m);
      assert IsOfSet(r.events[m]);
    }
    var i: nat := |r.events|;
    assert MissesProject(r, i, p);
  }

  /** So the enumeration is right about p in all such runs exactly if parsing leaves p's name alone. */
  lemma ListedExactly(p: ProjectId)
    ensures (forall r, i: nat :: !MissesProject(r, i, p)) <==> IsRaw(p)
  {
    if IsRaw(p) {
      forall r, i: nat
        ensures !MissesProject(r, i, p)
      {
        if IsRun(r) && i < |r.states| && IndexIsSpared(r, i, p) && IsSettled(r.states[i], p) {
          SettledIsListed(r, i, p);
        }
      }
    } else {
      UnrawIsMissed(p);
    }
  }

  /** Identifiers of sets that parsing leaves alone, both of them. */
  predicate SetsPlain(e: Event) {
    e.BeginSet? ==> IsRaw(e.project) && IsPlain(e.sandbox)
  }

  ghost predicate ArePlainUpTo(r: Run, i: nat)
    requires i <= |r.events|
  {
    forall m :: 0 <= m < i ==> SetsPlain(r.events[m])
  }

  ghost predicate NamesArePlain(st: State) {
    ForwardIsPlain(st.store)
    && forall j <- st.jobs :: st.jobs[j].SetJob? ==> IsRaw(st.jobs[j].project) && IsPlain(st.jobs[j].sandbox)
  }

  lemma NamesStep(st: State, e: Event)
    requires NamesArePlain(st) && Enabled(st, e) && SetsPlain(e)
    ensures NamesArePlain(Apply(st, e))
  {
    hide IsRaw, IsPlain;
    if e.Exec? {
      hide NextCommand;
      CommandWrites(st.store, st.jobs[e.job]);
    }
  }

  lemma {:induction false} NamesAt(r: Run, i: nat)
    requires IsRun(r) && i < |r.states| && ArePlainUpTo(r, i)
    ensures NamesArePlain(r.states[i])
  {
    hide Enabled, Apply, SetsPlain;
    if i > 0 {
      NamesAt(r, i - 1);
      assert IsStep(r, i - 1);
      NamesStep(r.states[i - 1], r.events[i - 1]);
    }
  }

  /**
   As a whole: when parsing leaves all names alone, no live project was taken out of the index, and no pipeline is open,
   the enumeration is exactly the live forward map.
   */
  lemma QuiescentIndexAgrees(r: Run, i: nat)
    requires IsRun(r) && i < |r.states| && (forall p :: IndexIsSpared(r, i, p)) && ArePlainUpTo(r, i)
    requires IsQuiescent(r.states[i])
    ensures AllMappings(r.states[i].store) == LiveForward(r.states[i].store)
  {
    var st := r.states[i];
    NamesAt(r, i);
    forall p <- st.store.forward | Live(st.store.forward, p, st.store.now)
      ensures IsIndexed(st.store, p)
    {
      IndexAt(r, i, p);
    }
    MappingsAreLive(st.store);
  }
}
