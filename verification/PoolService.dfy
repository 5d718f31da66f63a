/**
 GetSandbox and maintainPool in the shape of the source, over the shared pool. Between any two commands of the
 maintainer other callers may pop any number of sandboxes; every command may fail.
 */
module PoolService {
  import opened Wrappers
  import opened Ids
  import opened Pool
  import opened PoolOwnership
  import opened PoolBounds

  /** Steps of the clock and of poppers, which leave the maintainer's side alone. */
  ghost predicate IsBackground(e: Event) {
    e.Tick? || e.PopMin?
  }

  /** Whatever happens in the background from state i to state j, the maintainer finds its side as it left it. */
  lemma {:induction false} BackgroundLeavesMaintainerAlone(r: Run, i: nat, j: nat)
    requires IsRun(r) && i <= j < |r.states|
    requires forall m :: i <= m < j ==> IsBackground(r.events[m])
    ensures var a, b := r.states[i], r.states[j];
            && b.phase == a.phase && b.pending == a.pending && b.made == a.made && b.config == a.config
            && b.rounds == a.rounds && b.lost == a.lost && a.clock <= b.clock && b.ready.Keys <= a.ready.Keys
    decreases j
  {
    if i < j {
      BackgroundLeavesMaintainerAlone(r, i, j - 1);
      assert IsStep(r, j - 1);
    }
  }

  lemma {:induction false} ParseAllAppend(members: seq<string>, m: string)
    ensures ParseAll(members + [m]) == ParseAll(members) + ParseAll([m])
  {
    if members == [] {
      assert members + [m] == [m];
    } else {
      assert (members + [m])[1..] == members[1..] + [m];
      ParseAllAppend(members[1..], m);
    }
  }

  /** ZRANGE over the whole set, in some order. */
  method ListMembers(z: SortedSet) returns (members: seq<string>)
    ensures IsListing(members, z)
  {
    members := [];
    var rest := z.Keys;
    while rest != {}
      invariant rest <= z.Keys
      invariant forall m :: m in members <==> m in z && m !in rest
      invariant forall i, j :: 0 <= i < j < |members| ==> members[i] != members[j]
      decreases rest
    {
      var m :| m in rest;
      members := members + [m];
      rest := rest - {m};
    }
  }

  /** The loop of GetPendingSandboxes that parses the members and skips what does not parse. */
  method ParseMembers(members: seq<string>) returns (ids: seq<SandboxId>)
    ensures ids == ParseAll(members)
  {
    ids := [];
    for i := 0 to |members|
      invariant ids == ParseAll(members[..i])
    {
      assert members[..i + 1] == members[..i] + [members[i]];
      ParseAllAppend(members[..i], members[i]);
      match NewSandboxId(members[i]) {
        case Some(id) => ids := ids + [id];
        case None =>
      }
    }
    assert members[..|members|] == members;
  }

  /** What is left pending when rest has yet to be checked; with all, every ready sandbox checked is gone. */
  ghost predicate IsLeft(before: SortedSet, after: SortedSet, rest: seq<SandboxId>, isReady: SandboxId -> bool,
                         all: bool)
  {
    && after.Keys <= before.Keys
    && (forall s <- before :: !isReady(s) || s in rest ==> s in after)
    && (all ==> forall s <- after :: isReady(s) ==> s in rest)
  }

  lemma CheckedOne(before: SortedSet, mid: SortedSet, after: SortedSet, rest: seq<SandboxId>,
                   isReady: SandboxId -> bool, all: bool)
    requires rest != [] && Distinct(rest) && IsLeft(before, mid, rest, isReady, all)
    requires after == mid || after == mid - {rest[0]}
    requires !isReady(rest[0]) ==> after == mid
    requires all && isReady(rest[0]) ==> rest[0] !in after
    ensures IsLeft(before, after, rest[1..], isReady, all)
  {
    assert rest == [rest[0]] + rest[1..];
    assert rest[0] !in rest[1..];
  }

  /**
   As many are created as the two limits admit beside n ready and kept pending ones: none if a limit is reached already,
   and otherwise so many that neither limit is exceeded and one is reached.
   */
  predicate FillsUp(config: Config, n: nat, kept: nat, created: nat) {
    if n + kept >= config.poolSize || kept >= config.maxPending then created == 0
    else
      && n + kept + created <= config.poolSize && kept + created <= config.maxPending
      && (n + kept + created == config.poolSize || kept + created == config.maxPending)
  }

  /** What maintainPool computes. */
  lemma CreatesEnough(config: Config, n: nat, kept: nat)
    ensures FillsUp(config, n, kept, ToCreate(config, n, kept))
  {
  }

  function ReadyOnes(pending: SortedSet, isReady: SandboxId -> bool): set<SandboxId> {
    set s | s in pending && isReady(s)
  }

  /** Names that ScheduleSandbox may well return: numerals, all different, that the pool has not had. */
  ghost predicate AreFresh(names: seq<Option<SandboxId>>, made: set<SandboxId>) {
    && (forall i :: 0 <= i < |names| ==> names[i].Some? && IsBase36(names[i].value) && names[i].value !in made)
    && (forall i, j :: 0 <= i < j < |names| ==> names[i] != names[j])
  }

  lemma {:induction false} FreshSize(names: seq<Option<SandboxId>>, offered: set<SandboxId>)
    requires AreFresh(names, {}) && forall s :: s in offered <==> Some(s) in names
    ensures |offered| == |names|
  {
    if names == [] {
      assert offered == {};
    } else {
      var n := |names| - 1;
      var s := names[n].value;
      assert AreFresh(names[..n], {});
      FreshSize(names[..n], offered - {s});
    }
  }

  /** If the first n names are fresh, and they are what was made, n were made. */
  lemma MadeAsOffered(before: set<SandboxId>, after: set<SandboxId>, names: seq<Option<SandboxId>>, n: nat)
    requires AreFresh(names, before) && n <= |names| && before <= after
    requires forall i :: 0 <= i < n ==> names[i].value in after
    requires forall s <- after :: s in before || Some(s) in names[..n]
    ensures |after - before| == n
  {
    assert AreFresh(names[..n], {});
    FreshSize(names[..n], after - before);
  }

  class SandboxPool {
    /** No command of this caller fails. */
    const reliable: bool
    var st: State
    /** Maintenance goroutines started and not yet run. */
    var triggered: nat
    ghost var run: Run

    /** The shared state is the last one of a run that began with an empty pool. */
    ghost predicate Valid()
      reads this
    {
      && IsRun(run) && run.states[0] == Empty(st.config)
      && run.states[|run.states| - 1] == st && PoolInv(st)
    }

    constructor (config: Config, reliable: bool)
      ensures Valid() && st == Empty(config) && triggered == 0 && this.reliable == reliable
    {
      this.reliable := reliable;
      st, triggered := Empty(config), 0;
      run := Run([Empty(config)], []);
      new;
      assert forall s :: Places(st, s) == One(s in st.made);
    }

    /** One command takes effect. */
    method Do(e: Event)
      requires Valid() && Enabled(st, e) && IsFresh(st, e)
      modifies `st, `run
      ensures Valid() && st == Apply(old(st), e) && st.config == old(st.config)
      ensures run == Run(old(run.states) + [st], old(run.events) + [e])
    {
      PoolStep(st, e);
      ghost var was := run;
      run := Run(run.states + [Apply(st, e)], run.events + [e]);
      forall i: nat | i < |run.events|
        ensures IsStep(run, i)
      {
        assert i < |was.events| ==> IsStep(was, i);
      }
      st := Apply(st, e);
    }

    /** What becomes of a command. */
    method Fate() returns (reply: Reply)
      ensures reliable ==> reply.Answered?
    {
      reply := *;
      if reliable {
        reply := Answered;
      }
    }

    /**
     Any number of background steps. Callers know its contract only, which every continuation meets
     (BackgroundLeavesMaintainerAlone); this one takes no step.
     */
    method Others()
      requires Valid()
      modifies `st, `run
      ensures Valid() && st.config == old(st.config) && st.phase == old(st.phase)
      ensures st.pending == old(st.pending) && st.made == old(st.made) && st.rounds == old(st.rounds)
      ensures st.lost == old(st.lost) && old(st.clock) <= st.clock
      ensures st.ready.Keys <= old(st.ready.Keys)
      ensures old(run.states) <= run.states && old(run.events) <= run.events
      ensures forall i :: |old(run.events)| <= i < |run.events| ==> IsBackground(run.events[i])
    {
    }

    /** GetSandbox: take the first ready sandbox, and trigger maintenance whatever came of that. */
    method GetSandbox(taker: nat) returns (r: Result<Option<SandboxId>>)
      requires Valid()
      modifies this
      ensures Valid() && st.config == old(st.config) && st.phase == old(st.phase) && st.pending == old(st.pending)
      ensures match r
              case Success(Some(s)) => IsMin(old(st.ready), s) && st.ready == old(st.ready) - {s}
                                       && Handouts(old(st.pops), s) == 0 && Handouts(st.pops, s) == 1
              case Success(None) => old(st.ready) == map[] && st == old(st)
              case Failure => !reliable && st.ready.Keys <= old(st.ready.Keys)
      ensures triggered == old(triggered) + 1
    {
      r := GetReadySandbox(taker);
      triggered := triggered + 1;
    }

    /** triggerMaintenance, when its goroutine gets to run. */
    method TriggerMaintenance(isReady: SandboxId -> bool, names: seq<Option<SandboxId>>) returns (ok: bool)
      requires Valid() && triggered > 0
      modifies this
      ensures Valid() && st.config == old(st.config) && triggered == old(triggered) - 1
      ensures !old(st.phase).Idle? ==> st == old(st)
      ensures old(st.phase).Idle? ==> st.phase.Idle? && st.rounds == old(st.rounds) + One(ok)
      ensures reliable ==> ok && st.lost == old(st.lost)
    {
      triggered := triggered - 1;
      ok := MaintainPool(isReady, names);
    }

    /**
     GetReadySandbox: ZPOPMIN. None is ErrPoolEmpty. The identifier returned is one that was ready, no ready one
     preceded it, and it was never handed out before.
     */
    method GetReadySandbox(taker: nat) returns (r: Result<Option<SandboxId>>)
      requires Valid()
      modifies `st, `run
      ensures Valid() && st.config == old(st.config) && st.phase == old(st.phase) && st.pending == old(st.pending)
      ensures match r
              case Success(Some(s)) => IsMin(old(st.ready), s) && st.ready == old(st.ready) - {s}
                                       && Handouts(old(st.pops), s) == 0 && Handouts(st.pops, s) == 1
              case Success(None) => old(st.ready) == map[] && st == old(st)
              case Failure => !reliable && st.ready.Keys <= old(st.ready.Keys)
    {
      var reply := Fate();
      if reply.Rejected? {
        return Failure;
      }
      if |st.ready| == 0 {
        return if reply.Answered? then Success(None) else Failure;
      }
      ghost var first := MinExists(st.ready);
      var s :| s in st.ready && IsMin(st.ready, s);
      assert Places(st, s) == One(s in st.made);
      HandoutsAppend(st.pops, Pop(s, st.ready[s], taker, reply.Answered?), s);
      Do(PopMin(s, taker, reply.Answered?));
      assert Places(st, s) == One(s in st.made);
      Base36Parses(s);
      match NewSandboxId(s) {
        case Some(id) => r := if reply.Answered? then Success(Some(id)) else Failure;
        case None => r := Failure;
      }
    }

    /** AddReadySandbox: the clock is read, then the member is added with that score. */
    method AddReadySandbox()
      requires Valid() && st.phase.Moving? && st.phase.todo != []
      modifies `st, `run
      ensures st.pending == old(st.pending) && (reliable ==> st.lost == old(st.lost))
      ensures Valid() && st.config == old(st.config) && st.made == old(st.made) && st.rounds == old(st.rounds)
      ensures st.phase == if |old(st.phase.todo)| == 1 then RecountingReady else Checking(old(st.phase.todo)[1..])
      ensures st.ready.Keys <= old(st.ready.Keys + {st.phase.todo[0]})
      ensures reliable ==>
                old(st.phase.todo[0]) in st.ready && old(st.clock) <= st.ready[old(st.phase.todo[0])] <= st.clock
    {
      hide IsRun, PoolInv;
      Do(Stamp);
      Others();
      var reply := Fate();
      Do(Add(reply));
    }

    /**
     IsSandboxReady, which answers ready, then RemovePendingSandbox and AddReadySandbox, each of which may end the pass.
     When no command fails a ready sandbox leaves the pending set and is not lost.
     */
    method CheckOne(ready: bool)
      requires Valid() && st.phase.Checking? && st.phase.todo != []
      modifies `st, `run
      ensures !ready ==> st.pending == old(st.pending)
      ensures st.pending == old(st.pending) || st.pending == old(st.pending) - {old(st.phase.todo)[0]}
      ensures reliable ==> (ready ==> old(st.phase.todo)[0] !in st.pending) && st.lost == old(st.lost)
      ensures st.ready.Keys <= old(st.ready.Keys) + if ready then {old(st.phase.todo)[0]} else {}
      ensures reliable && ready ==>
                var s := old(st.phase.todo)[0]; s in st.ready && old(st.clock) <= st.ready[s] <= st.clock
      ensures Valid() && st.config == old(st.config) && st.made == old(st.made) && st.rounds == old(st.rounds)
      ensures st.phase == if |old(st.phase.todo)| == 1 then RecountingReady else Checking(old(st.phase.todo)[1..])
    {
      hide IsRun, PoolInv;
      Do(CheckReady(ready));
      if ready {
        Others();
        var removed := Fate();
        Do(Remove(removed));
        match removed {
          case Answered =>
            Others();
            AddReadySandbox();
          case Lost =>
          case Rejected =>
        }
      }
    }

    /**
     checkPendingSandboxes: every listed sandbox is looked at once. Whatever fails, none that is not ready leaves the
     pending set; when nothing fails all that are ready leave it, and none is lost.
     */
    method CheckPendingSandboxes(isReady: SandboxId -> bool)
      requires Valid() && st.phase.Listing?
      modifies `st, `run
      ensures st.pending.Keys <= old(st.pending.Keys)
      ensures forall s <- old(st.pending) :: !isReady(s) ==> s in st.pending
      ensures reliable ==> st.lost == old(st.lost) && forall s <- st.pending :: !isReady(s)
      ensures st.ready.Keys <= old(st.ready.Keys + ReadyOnes(st.pending, isReady))
      ensures Valid() && st.config == old(st.config) && st.made == old(st.made) && st.rounds == old(st.rounds)
      ensures st.phase.RecountingReady?
    {
      var pendingSandboxes := ListPending();
      match pendingSandboxes {
        case None =>
        case Some(ids) => CheckEach(ids, isReady);
      }
    }

    /** GetPendingSandboxes: None is an error; otherwise every pending sandbox is listed, and all listed are checked. */
    method ListPending() returns (r: Option<seq<SandboxId>>)
      requires Valid() && st.phase.Listing?
      modifies `st, `run
      ensures Valid() && st == old(st).(phase := st.phase) && (reliable ==> r.Some?)
      ensures r.Some? ==> IsListing(r.value, st.pending)
      ensures st.phase == if r.None? || r.value == [] then RecountingReady else Checking(r.value)
    {
      hide IsRun;
      var reply := Fate();
      if !reply.Answered? {
        Do(ListFail);
        return None;
      }
      var members := ListMembers(st.pending);
      var ids := ParseMembers(members);
      ListedAreBase36(st, members);
      ParseAllIsIdentity(members);
      Do(List(members));
      r := Some(ids);
    }

    /** The loop over the listing. */
    method CheckEach(pendingSandboxes: seq<SandboxId>, isReady: SandboxId -> bool)
      requires Valid() && IsListing(pendingSandboxes, st.pending)
      requires st.phase == if pendingSandboxes == [] then RecountingReady else Checking(pendingSandboxes)
      modifies `st, `run
      ensures st.pending.Keys <= old(st.pending.Keys)
      ensures forall s <- old(st.pending) :: !isReady(s) ==> s in st.pending
      ensures reliable ==> st.lost == old(st.lost) && forall s <- st.pending :: !isReady(s)
      ensures st.ready.Keys <= old(st.ready.Keys + ReadyOnes(st.pending, isReady))
      ensures Valid() && st.config == old(st.config) && st.made == old(st.made) && st.rounds == old(st.rounds)
      ensures st.phase.RecountingReady?
    {
      hide IsRun, PoolInv, Apply, Enabled;
      for i := 0 to |pendingSandboxes|
        invariant Valid() && st.config == old(st.config) && st.made == old(st.made) && st.rounds == old(st.rounds)
        invariant IsLeft(old(st.pending), st.pending, pendingSandboxes[i..], isReady, reliable)
        invariant reliable ==> st.lost == old(st.lost)
        invariant st.ready.Keys <= old(st.ready.Keys + ReadyOnes(st.pending, isReady))
        invariant st.phase == if i == |pendingSandboxes| then RecountingReady else Checking(pendingSandboxes[i..])
      {
        Others();
        ghost var rest, mid := pendingSandboxes[i..], st.pending;
        CheckOne(isReady(pendingSandboxes[i]));
        CheckedOne(old(st.pending), mid, st.pending, rest, isReady, reliable);
        assert rest[1..] == pendingSandboxes[i + 1..];
      }
    }

    /** AddPendingSandbox: the clock is read, then the member is added with that score. */
    method AddPendingSandbox()
      requires Valid() && st.phase.Created? && st.phase.left > 0
      modifies `st, `run
      ensures old(st.pending.Keys) <= st.pending.Keys <= old(st.pending.Keys + {st.phase.sandbox})
      ensures st.ready.Keys <= old(st.ready.Keys)
      ensures reliable ==> old(st.phase.sandbox) in st.pending && st.lost == old(st.lost)
      ensures reliable ==> old(st.clock) <= st.pending[old(st.phase.sandbox)] <= st.clock
      ensures Valid() && st.config == old(st.config) && st.made == old(st.made)
      ensures st.rounds == old(st.rounds) + One(st.phase.Idle?)
      ensures st.phase == if old(st.phase.left) == 1 then Idle else Creating(old(st.phase.left) - 1)
    {
      hide IsRun, PoolInv;
      Do(StampPending);
      Others();
      AddStamped();
    }

    method AddStamped()
      requires Valid() && st.phase.AddingPending? && st.phase.left > 0
      modifies `st, `run
      ensures old(st.pending.Keys) <= st.pending.Keys <= old(st.pending.Keys + {st.phase.sandbox})
      ensures st.ready.Keys <= old(st.ready.Keys)
      ensures reliable ==> old(st.phase.sandbox) in st.pending && st.lost == old(st.lost)
      ensures reliable ==> st.pending[old(st.phase.sandbox)] == old(st.phase.stamp)
      ensures st.clock == old(st.clock)
      ensures Valid() && st.config == old(st.config) && st.made == old(st.made)
      ensures st.rounds == old(st.rounds) + One(st.phase.Idle?)
      ensures st.phase == if old(st.phase.left) == 1 then Idle else Creating(old(st.phase.left) - 1)
    {
      hide IsRun, PoolInv;
      var reply := Fate();
      Do(AddPending(reply));
    }

    /** createPoolSandbox; name is what ScheduleSandbox returned, if it returned anything. */
    method CreatePoolSandbox(name: Option<SandboxId>)
      requires Valid() && st.phase.Creating? && st.phase.left > 0
      requires name.Some? ==> IsBase36(name.value) && name.value !in st.made
      modifies `st, `run
      ensures old(st.pending.Keys) <= st.pending.Keys <= old(st.pending.Keys) + (st.made - old(st.made))
      ensures st.ready.Keys <= old(st.ready.Keys)
      ensures reliable ==> st.pending.Keys == old(st.pending.Keys) + (st.made - old(st.made)) && st.lost == old(st.lost)
      ensures Valid() && st.config == old(st.config)
      ensures st.made == old(st.made) + if name.Some? then {name.value} else {}
      ensures st.rounds == old(st.rounds) + One(st.phase.Idle?)
      ensures st.phase == if old(st.phase.left) == 1 then Idle else Creating(old(st.phase.left) - 1)
    {
      hide IsRun, PoolInv;
      if name.None? {
        Do(MakeFail);
        return;
      }
      Do(Make(name.value));
      Others();
      AddPendingSandbox();
    }

    /**
     The two recounts, whose errors are ignored, and the decision how many sandboxes to create. When nothing fails that
     is as many as fit beside the pending sandboxes there are, and a number of ready ones that pops may have made too
     high since.
     */
    method Recount()
      requires Valid() && st.phase.RecountingReady?
      modifies `st, `run
      ensures st.pending == old(st.pending) && st.lost == old(st.lost) && st.ready.Keys <= old(st.ready.Keys)
      ensures reliable ==>
                exists seen :: st.ready.Keys <= seen <= old(st.ready.Keys)
                               && FillsUp(st.config, |seen|, |st.pending|, Left(st.phase))
      ensures Valid() && st.config == old(st.config) && st.made == old(st.made)
      ensures st.rounds == old(st.rounds) + One(st.phase.Idle?)
      ensures st.phase.Idle? || (st.phase.Creating? && st.phase.left > 0)
    {
      hide IsRun, PoolInv, FillsUp;
      var first := Fate();
      Do(RecountReady(first.Answered?));
      Others();
      ghost var counted := st.phase.readyCount;
      var second := Fate();
      Do(RecountPending(second.Answered?));
      CreatesEnough(st.config, counted, |st.pending|);
      assert reliable ==> Left(st.phase) == ToCreate(st.config, counted, |st.pending|);
    }

    /**
     The creation loop; names are the results of the ScheduleSandbox calls it makes. When nothing fails, everything it
     makes ends up pending.
     */
    method CreateAll(names: seq<Option<SandboxId>>)
      requires Valid() && st.phase.Creating? && st.phase.left > 0
      modifies `st, `run
      ensures old(st.pending.Keys) <= st.pending.Keys && old(st.made) <= st.made
      ensures st.ready.Keys <= old(st.ready.Keys)
      ensures reliable ==> st.pending.Keys == old(st.pending.Keys) + (st.made - old(st.made)) && st.lost == old(st.lost)
      ensures forall i :: 0 <= i < old(st.phase.left) && i < |names| && names[i].Some? && IsBase36(names[i].value) ==>
                names[i].value in st.made
      ensures Valid() && st.config == old(st.config) && st.phase.Idle? && st.rounds == old(st.rounds) + 1
      ensures forall s <- st.made :: s in old(st.made) || Some(s) in names[..Min(old(st.phase.left), |names|)]
    {
      hide IsRun, PoolInv, Apply, Enabled, IsBase36;
      var maxToCreate := st.phase.left;
      for i := 0 to maxToCreate
        invariant Valid() && st.config == old(st.config)
        invariant st.rounds == old(st.rounds) + One(i == maxToCreate)
        invariant old(st.pending.Keys) <= st.pending.Keys && old(st.made) <= st.made
        invariant st.ready.Keys <= old(st.ready.Keys)
        invariant reliable ==>
                    st.pending.Keys == old(st.pending.Keys) + (st.made - old(st.made)) && st.lost == old(st.lost)
        invariant forall k :: 0 <= k < i && k < |names| && names[k].Some? && IsBase36(names[k].value) ==>
                    names[k].value in st.made
        invariant forall s <- st.made :: s in old(st.made) || Some(s) in names[..Min(i, |names|)]
        invariant st.phase == if i == maxToCreate then Idle else Creating(maxToCreate - i)
      {
        Others();
        CreateOffered(if i < |names| then names[i] else None);
      }
    }

    /** One pass of the loop: a call cannot return a malformed name, nor one the pool has had. */
    method CreateOffered(offered: Option<SandboxId>)
      requires Valid() && st.phase.Creating? && st.phase.left > 0
      modifies `st, `run
      ensures old(st.pending.Keys) <= st.pending.Keys && old(st.made) <= st.made
      ensures st.ready.Keys <= old(st.ready.Keys)
      ensures reliable ==> st.pending.Keys == old(st.pending.Keys) + (st.made - old(st.made)) && st.lost == old(st.lost)
      ensures offered.Some? && IsBase36(offered.value) ==> offered.value in st.made
      ensures forall s <- st.made :: s in old(st.made) || Some(s) == offered
      ensures Valid() && st.config == old(st.config) && st.rounds == old(st.rounds) + One(st.phase.Idle?)
      ensures st.phase == if old(st.phase.left) == 1 then Idle else Creating(old(st.phase.left) - 1)
    {
      hide IsRun, PoolInv, Apply, Enabled, IsBase36;
      var name := offered;
      if name.Some? && (!IsBase36(name.value) || name.value in st.made) {
        name := None;
      }
      CreatePoolSandbox(name);
    }

    /** The lock and the two counts, which end the round if they fail. */
    method BeginRound() returns (ok: bool)
      requires Valid() && st.phase.Idle?
      modifies `st, `run
      ensures Valid() && st.config == old(st.config) && st.rounds == old(st.rounds) && (reliable ==> ok)
      ensures st.pending == old(st.pending) && st.made == old(st.made) && st.lost == old(st.lost)
      ensures st.ready.Keys <= old(st.ready.Keys)
      ensures st.phase == if !ok then Idle else if st.pending == map[] then RecountingReady else Listing
    {
      hide IsRun, PoolInv;
      Do(TryLock);
      Others();
      var first := Fate();
      ok := first.Answered?;
      Do(CountReady(ok));
      if !ok {
        return;
      }
      Others();
      var second := Fate();
      ok := second.Answered?;
      Do(CountPending(ok));
    }

    /** The check, if there is anything to check. */
    method CheckIfPending(isReady: SandboxId -> bool)
      requires Valid() && st.phase == if st.pending == map[] then RecountingReady else Listing
      modifies `st, `run
      ensures Valid() && st.config == old(st.config) && st.made == old(st.made) && st.rounds == old(st.rounds)
      ensures st.phase.RecountingReady?
      ensures st.ready.Keys <= old(st.ready.Keys + ReadyOnes(st.pending, isReady))
      ensures reliable ==> st.lost == old(st.lost)
                           && st.pending.Keys == old(st.pending.Keys) - ReadyOnes(old(st.pending), isReady)
    {
      hide IsRun, PoolInv;
      if st.phase.Listing? {
        CheckPendingSandboxes(isReady);
      }
      Others();
    }

    /** The recounts and the creation loop: what follows the check of the pending sandboxes. */
    method Refill(names: seq<Option<SandboxId>>)
      requires Valid() && st.phase.RecountingReady?
      modifies `st, `run
      ensures Valid() && st.config == old(st.config) && st.phase.Idle? && st.rounds == old(st.rounds) + 1
      ensures old(st.made) <= st.made && forall s <- st.made :: s in old(st.made) || Some(s) in names
      ensures reliable ==> st.pending.Keys == old(st.pending.Keys) + (st.made - old(st.made)) && st.lost == old(st.lost)
      ensures st.ready.Keys <= old(st.ready.Keys)
      ensures reliable && old(AreFresh(names, st.made)) && st.config.maxPending <= |names| ==>
                exists seen :: st.ready.Keys <= seen <= old(st.ready.Keys)
                               && FillsUp(st.config, |seen|, |old(st.pending)|, |st.made - old(st.made)|)
    {
      hide IsRun, PoolInv, IsBase36;
      Recount();
      ghost var left := Left(st.phase);
      ghost var seen := old(st.ready.Keys);
      if reliable {
        seen :| st.ready.Keys <= seen <= old(st.ready.Keys) && FillsUp(st.config, |seen|, |old(st.pending)|, left);
      }
      hide FillsUp, AreFresh;
      CreateUpTo(left, names);
      if reliable && old(AreFresh(names, st.made)) && st.config.maxPending <= |names| {
        assert FillsUp(st.config, |seen|, |old(st.pending)|, |st.made - old(st.made)|);
      }
    }

    /** The creation loop, if there is anything to create. */
    method CreateUpTo(ghost left: nat, names: seq<Option<SandboxId>>)
      requires Valid() && left == Left(st.phase)
      requires st.phase.Idle? || (st.phase.Creating? && st.phase.left > 0)
      modifies `st, `run
      ensures Valid() && st.config == old(st.config) && st.phase.Idle?
      ensures st.rounds == old(st.rounds) + One(left > 0)
      ensures old(st.made) <= st.made && forall s <- st.made :: s in old(st.made) || Some(s) in names
      ensures reliable ==> st.pending.Keys == old(st.pending.Keys) + (st.made - old(st.made)) && st.lost == old(st.lost)
      ensures st.ready.Keys <= old(st.ready.Keys)
      ensures old(AreFresh(names, st.made)) && left <= |names| ==> |st.made - old(st.made)| == left
    {
      hide IsRun, PoolInv;
      if st.phase.Creating? {
        CreateAll(names);
        if old(AreFresh(names, st.made)) && left <= |names| {
          MadeAsOffered(old(st.made), st.made, names, left);
        }
      } else {
        assert st.made - old(st.made) == {};
      }
    }

    /**
     maintainPool: a call that does not get the lock does nothing. One that does releases it whatever fails; it goes
     through a whole round unless one of the first two counts fails, and makes nothing but what names offers. When
     nothing fails, what is pending afterwards is what was pending and not ready, and what was made; what was pending
     and ready is ready now or has been popped; and as many are made, if enough fresh names are offered, as the limits
     admit beside those kept pending and the ready ones counted.
     */
    method MaintainPool(isReady: SandboxId -> bool, names: seq<Option<SandboxId>>) returns (ok: bool)
      requires Valid()
      modifies `st, `run
      ensures Valid() && st.config == old(st.config)
      ensures !old(st.phase).Idle? ==> ok && st == old(st)
      ensures old(st.phase).Idle? ==> st.phase.Idle? && st.rounds == old(st.rounds) + One(ok)
      ensures forall s <- st.made :: s in old(st.made) || Some(s) in names
      ensures reliable ==> ok && st.lost == old(st.lost)
      ensures reliable && old(st.phase).Idle? ==>
                st.pending.Keys == old(st.pending.Keys - ReadyOnes(st.pending, isReady)) + (st.made - old(st.made))
      ensures reliable && old(st.phase).Idle? ==>
                forall s <- old(st.pending) :: isReady(s) ==> s in st.ready || Handouts(st.pops, s) == 1
      ensures reliable && old(st.phase).Idle? && old(AreFresh(names, st.made)) && st.config.maxPending <= |names| ==>
                exists seen ::
                  && st.ready.Keys <= seen <= old(st.ready.Keys + ReadyOnes(st.pending, isReady))
                  && FillsUp(st.config, |seen|, |old(st.pending.Keys - ReadyOnes(st.pending, isReady))|,
                             |st.made - old(st.made)|)
    {
      hide IsRun, PoolInv, FillsUp, AreFresh, Handouts, ReadyOnes;
      if !st.phase.Idle? {
        return true;
      }
      ok := BeginRound();
      if !ok {
        return;
      }
      FinishRound(isReady, names);
      if reliable {
        WentOn(old(st), st, isReady);
      }
    }

    /** The rest of the round. */
    method FinishRound(isReady: SandboxId -> bool, names: seq<Option<SandboxId>>)
      requires Valid() && st.phase == if st.pending == map[] then RecountingReady else Listing
      modifies `st, `run
      ensures Valid() && st.config == old(st.config) && st.phase.Idle? && st.rounds == old(st.rounds) + 1
      ensures old(st.made) <= st.made && forall s <- st.made :: s in old(st.made) || Some(s) in names
      ensures reliable ==>
                st.lost == old(st.lost)
                && st.pending.Keys == old(st.pending.Keys - ReadyOnes(st.pending, isReady)) + (st.made - old(st.made))
      ensures reliable && old(AreFresh(names, st.made)) && st.config.maxPending <= |names| ==>
                exists seen ::
                  && st.ready.Keys <= seen <= old(st.ready.Keys + ReadyOnes(st.pending, isReady))
                  && FillsUp(st.config, |seen|, |old(st.pending.Keys - ReadyOnes(st.pending, isReady))|,
                             |st.made - old(st.made)|)
    {
      hide IsRun, PoolInv, FillsUp, AreFresh, ReadyOnes;
      ghost var most, kept := old(st.ready.Keys + ReadyOnes(st.pending, isReady)),
                              old(st.pending.Keys - ReadyOnes(st.pending, isReady));
      CheckIfPending(isReady);
      assert |st.pending| == |st.pending.Keys|;
      assert reliable ==> st.pending.Keys == kept;
      Refill(names);
      if reliable && old(AreFresh(names, st.made)) && st.config.maxPending <= |names| {
        ghost var seen :| st.ready.Keys <= seen <= most && FillsUp(st.config, |seen|, |kept|, |st.made - old(st.made)|);
      }
    }

    /** By conservation: what was pending, and is neither pending nor lost, is ready or was popped. */
    lemma WentOn(before: State, after: State, isReady: SandboxId -> bool)
      requires PoolInv(before) && PoolInv(after) && before.phase.Idle? && after.phase.Idle?
      requires before.made <= after.made && after.lost == before.lost
      requires after.pending.Keys ==
                 before.pending.Keys - ReadyOnes(before.pending, isReady) + (after.made - before.made)
      ensures forall s <- before.pending :: isReady(s) ==> s in after.ready || Handouts(after.pops, s) == 1
    {
      forall s <- before.pending | isReady(s)
        ensures s in after.ready || Handouts(after.pops, s) == 1
      {
        assert Places(before, s) == One(s in before.made) && Places(after, s) == One(s in after.made);
      }
    }
  }
}
