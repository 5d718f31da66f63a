/** How full the pool gets, how fast it fills, and in which order it is emptied. */
module PoolBounds {
  import opened Wrappers
  import opened Ids
  import opened Pool
  import opened PoolOwnership

  lemma RemoveSize(z: SortedSet, s: SandboxId)
    ensures |z - {s}| == if s in z then |z| - 1 else |z|
  {
    assert (z - {s}).Keys == z.Keys - {s};
    assert |z - {s}| == |(z - {s}).Keys| && |z| == |z.Keys|;
  }

  function AtLeast0(n: int): nat {
    if n < 0 then 0 else n
  }

  // ------------------------------------------------------------ capacity

  function Holding(p: Phase): nat {
    if p.Moving? || p.Adding? || p.Created? || p.AddingPending? then 1 else 0
  }

  /** Ready, pending and in the maintainer's hands. */
  function Total(st: State): nat {
    |st.ready| + |st.pending| + Holding(st.phase)
  }

  function Left(p: Phase): nat {
    match p
    case Creating(left) => left
    case Created(left, _) => left
    case AddingPending(left, _, _) => left
    case _ => 0
  }

  predicate IsCreation(p: Phase) {
    p.Creating? || p.Created? || p.AddingPending?
  }

  /** The bounds, with room kept for everything the creation loop may still make. */
  ghost predicate CapacityInv(st: State) {
    var size, limit := AtLeast0(st.config.poolSize), AtLeast0(st.config.maxPending);
    if IsCreation(st.phase) then
      |st.ready| + |st.pending| + Left(st.phase) <= size && |st.pending| + Left(st.phase) <= limit
    else
      && Total(st) <= size && |st.pending| <= limit
      && (st.phase.RecountingPending? ==> |st.ready| <= st.phase.readyCount)
  }

  predicate RecountsSucceed(e: Event) {
    (e.RecountReady? ==> e.ok) && (e.RecountPending? ==> e.ok)
  }

  /** A failed recount that matters: it misses ready sandboxes, or what is to be created exceeds the room there is. */
  predicate Overcommits(st: State, e: Event) {
    match e
    case RecountReady(ok) => !ok && st.ready != map[]
    case RecountPending(ok) =>
      !ok && st.phase.RecountingPending? &&
      var n := ToCreate(st.config, st.phase.readyCount, 0);
      n > 0 && (|st.ready| + |st.pending| + n > AtLeast0(st.config.poolSize)
                || |st.pending| + n > AtLeast0(st.config.maxPending))
    case _ => false
  }

  /** The sandbox about to be removed from pending is there. */
  ghost predicate HeadIsPending(st: State) {
    st.phase.Removing? ==> st.phase.todo != [] && st.phase.todo[0] in st.pending
  }

  lemma TodoHead(st: State)
    requires TodoOk(st)
    ensures HeadIsPending(st)
  {
    if st.phase.Removing? {
      assert st.phase.todo[0] in st.phase.todo;
    }
  }

  lemma CapacityRemoves(st: State, e: Event)
    requires HeadIsPending(st) && CapacityInv(st) && Enabled(st, e) && e.Remove?
    ensures CapacityInv(Apply(st, e)) && Apply(st, e).config == st.config
  {
    RemoveSize(st.pending, st.phase.todo[0]);
  }

  lemma CapacityPops(st: State, e: Event)
    requires CapacityInv(st) && Enabled(st, e) && e.PopMin?
    ensures CapacityInv(Apply(st, e)) && Apply(st, e).config == st.config
  {
    assert e.sandbox in st.ready;
    hide IsMin;
    RemoveSize(st.ready, e.sandbox);
  }

  /** The creation loop uses up the room kept for it. */
  lemma CapacityCreates(st: State, e: Event)
    requires CapacityInv(st) && Enabled(st, e)
    requires e.Make? || e.MakeFail? || e.StampPending? || e.AddPending?
    ensures CapacityInv(Apply(st, e)) && Apply(st, e).config == st.config
  {
  }

  /** The recounts decide whether that room is there. */
  lemma CapacityRecounts(st: State, e: Event)
    requires CapacityInv(st) && Enabled(st, e) && (e.RecountReady? || e.RecountPending?)
    ensures CapacityInv(Apply(st, e)) <==> !Overcommits(st, e)
    ensures Apply(st, e).config == st.config
  {
    assert st.ready != map[] <==> |st.ready| > 0;
  }

  /** The other commands of the maintainer add to neither set beyond what it holds. */
  lemma CapacityMoves(st: State, e: Event)
    requires CapacityInv(st) && Enabled(st, e)
    requires !e.RecountReady? && !e.RecountPending? && !e.Make? && !e.MakeFail? && !e.StampPending? && !e.AddPending?
    requires !e.Remove? && !e.PopMin?
    ensures CapacityInv(Apply(st, e)) && Apply(st, e).config == st.config
  {
  }

  /** A step keeps the bounds, and the room for what is being created, unless it is a failed recount that matters. */
  lemma CapacityExactly(st: State, e: Event)
    requires HeadIsPending(st) && CapacityInv(st) && Enabled(st, e)
    ensures CapacityInv(Apply(st, e)) <==> !Overcommits(st, e)
    ensures Apply(st, e).config == st.config
  {
    hide Enabled, Apply, CapacityInv;
    match e
    case Remove(_) => CapacityRemoves(st, e);
    case PopMin(_, _, _) => CapacityPops(st, e);
    case RecountReady(_) => CapacityRecounts(st, e);
    case RecountPending(_) => CapacityRecounts(st, e);
    case Make(_) => CapacityCreates(st, e);
    case MakeFail => CapacityCreates(st, e);
    case StampPending => CapacityCreates(st, e);
    case AddPending(_) => CapacityCreates(st, e);
    case _ => CapacityMoves(st, e);
  }

  /**
   Capacity over whole runs: starting within the bounds and without a failed recount that matters, the pool never holds
   more than PoolSize sandboxes, nor more than PoolMaxPending pending ones, whatever else fails or is popped in between.
   */
  lemma {:induction false} Capacity(r: Run, i: nat)
    requires IsRun(r) && i < |r.states| && PoolInv(r.states[0]) && CapacityInv(r.states[0])
    requires forall j :: 0 <= j < i ==> !Overcommits(r.states[j], r.events[j])
    ensures r.states[i].config == r.states[0].config && CapacityInv(r.states[i])
    ensures Total(r.states[i]) <= AtLeast0(r.states[0].config.poolSize)
    ensures |r.states[i].pending| <= AtLeast0(r.states[0].config.maxPending)
  {
    hide Enabled, Apply, Overcommits;
    Conservation(r, i);
    if i > 0 {
      Capacity(r, i - 1);
      Conservation(r, i - 1);
      assert IsStep(r, i - 1);
      TodoHead(r.states[i - 1]);
      CapacityExactly(r.states[i - 1], r.events[i - 1]);
    }
  }

  /** Successful recounts are enough. */
  lemma CapacityWithRecounts(r: Run, i: nat)
    requires IsRun(r) && i < |r.states| && PoolInv(r.states[0]) && CapacityInv(r.states[0])
    requires forall j :: 0 <= j < i ==> RecountsSucceed(r.events[j])
    ensures Total(r.states[i]) <= AtLeast0(r.states[0].config.poolSize)
    ensures |r.states[i].pending| <= AtLeast0(r.states[0].config.maxPending)
  {
    Capacity(r, i);
  }

  // ------------------------------------------------------------ failed recounts

  function Last(r: Run): State
    requires r.states != []
  {
    r.states[|r.states| - 1]
  }

  /** Steps that the maintainer takes by itself, and without a crash. */
  predicate IsOwn(e: Event) {
    !e.Make? && !e.MakeFail? && !e.PopMin? && !e.Crash?
  }

  /** A run leads from a to b; with own, by the maintainer's own steps. */
  ghost predicate Leads(a: State, b: State, own: bool) {
    exists r: Run :: IsRun(r) && r.states[0] == a && Last(r) == b && (own ==> forall e <- r.events :: IsOwn(e))
  }

  lemma LeadsNowhere(st: State, own: bool)
    ensures Leads(st, st, own)
  {
    var r := Run([st], []);
    assert IsRun(r) && Last(r) == st;
  }

  /** One step of a concrete run. */
  lemma Then(a: State, st: State, e: Event, b: State, own: bool)
    requires Leads(a, st, own) && Enabled(st, e) && IsFresh(st, e) && Apply(st, e) == b && (own ==> IsOwn(e))
    ensures Leads(a, b, own)
  {
    hide Enabled, Apply, IsFresh, IsOwn;
    var r: Run :| IsRun(r) && r.states[0] == a && Last(r) == st && (own ==> forall d <- r.events :: IsOwn(d));
    var next := Run(r.states + [b], r.events + [e]);
    forall i: nat | i < |next.events|
      ensures IsStep(next, i)
    {
      assert i < |r.events| ==> IsStep(r, i);
    }
    assert IsRun(next) && Last(next) == b;
  }

  /** An idle maintainer takes the lock and counts, without failures, up to the listing or the recounts. */
  lemma ThenCount(a: State, st: State, own: bool)
    requires Leads(a, st, own) && st.phase.Idle?
    ensures Leads(a, st.(phase := if |st.pending| > 0 then Listing else RecountingReady), own)
  {
    hide Leads;
    var s1, s2 := st.(phase := CountingReady), st.(phase := CountingPending);
    Then(a, st, TryLock, s1, own);
    Then(a, s1, CountReady(true), s2, own);
    Then(a, s2, CountPending(true), st.(phase := if |st.pending| > 0 then Listing else RecountingReady), own);
  }

  /** The recounts with the given outcomes, and the decision to create one sandbox. */
  lemma ThenRecount(a: State, st: State, readyOk: bool, pendingOk: bool, own: bool)
    requires Leads(a, st, own) && st.phase.RecountingReady?
    requires ToCreate(st.config, if readyOk then |st.ready| else 0, if pendingOk then |st.pending| else 0) == 1
    ensures Leads(a, st.(phase := Creating(1)), own)
  {
    hide Leads;
    var s1 := st.(phase := RecountingPending(if readyOk then |st.ready| else 0));
    Then(a, st, RecountReady(readyOk), s1, own);
    Then(a, s1, RecountPending(pendingOk), st.(phase := Creating(1)), own);
  }

  /** The sandbox in hand becomes pending, and the round is over. */
  lemma ThenAddPending(a: State, st: State, s: SandboxId, own: bool)
    requires Leads(a, st, own) && st.phase == Created(1, s)
    ensures Leads(a, st.(phase := Idle, rounds := st.rounds + 1, pending := st.pending[s := st.clock]), own)
  {
    hide Leads;
    var s1 := st.(phase := AddingPending(1, s, st.clock));
    Then(a, st, StampPending, s1, own);
    Then(a, s1, AddPending(Answered), st.(phase := Idle, rounds := st.rounds + 1, pending := st.pending[s := st.clock]),
         own);
  }

  /** One sandbox is created and becomes pending. */
  lemma ThenCreate(a: State, st: State, s: SandboxId)
    requires Leads(a, st, false) && st.phase == Creating(1) && IsBase36(s) && s !in st.made
    ensures Leads(a, st.(phase := Idle, made := st.made + {s}, rounds := st.rounds + 1,
                         pending := st.pending[s := st.clock]), false)
  {
    hide Leads;
    var s1 := st.(phase := Created(1, s), made := st.made + {s});
    Then(a, st, Make(s), s1, false);
    ThenAddPending(a, s1, s, false);
  }

  lemma ThenList(a: State, st: State, own: bool)
    requires Leads(a, st, own) && st.phase.Listing? && st.pending == map["a" := 0]
    ensures Leads(a, st.(phase := Checking(["a"])), own)
  {
    hide Leads;
    Base36Parses("a");
    ParseAllIsIdentity(["a"]);
    Then(a, st, List(["a"]), st.(phase := Checking(["a"])), own);
  }

  /** "a" is found ready and moves to the ready set. */
  lemma ThenMove(a: State, st: State, own: bool)
    requires Leads(a, st, own) && st.phase == Checking(["a"]) && st.pending == map["a" := 0]
    requires st.ready == map[] && st.clock == 0
    ensures Leads(a, st.(phase := RecountingReady, pending := map[], ready := map["a" := 0]), own)
  {
    hide Leads;
    var s1 := st.(phase := Removing(["a"]));
    Then(a, st, CheckReady(true), s1, own);
    assert st.pending - {"a"} == map[];
    var s2 := st.(pending := map[], phase := Moving(["a"]));
    Then(a, s1, Remove(Answered), s2, own);
    var s3 := s2.(phase := Adding(["a"], 0));
    Then(a, s2, Stamp, s3, own);
    Then(a, s3, Add(Answered), st.(phase := RecountingReady, pending := map[], ready := map["a" := 0]), own);
  }

  /** The first round of the empty pool, up to the creation of one sandbox. */
  lemma RoundBegins(config: Config, own: bool)
    requires ToCreate(config, 0, 0) == 1
    ensures Leads(Empty(config), Empty(config).(phase := Creating(1)), own)
  {
    hide Leads;
    LeadsNowhere(Empty(config), own);
    ThenCount(Empty(config), Empty(config), own);
    ThenRecount(Empty(config), Empty(config).(phase := RecountingReady), true, true, own);
  }

  /** From the sandbox "a", just made, to its being looked at in the next round. */
  lemma BecomesListed(a: State, st: State, own: bool)
    requires Leads(a, st, own) && st == Empty(st.config).(phase := Created(1, "a"), made := {"a"})
    ensures Leads(a, st.(phase := Checking(["a"]), rounds := 1, pending := map["a" := 0]), own)
  {
    hide Leads;
    ThenAddPending(a, st, "a", own);
    var s1 := st.(phase := Idle, rounds := 1, pending := map["a" := 0]);
    assert st.pending["a" := 0] == s1.pending;
    ThenCount(a, s1, own);
    ThenList(a, s1.(phase := Listing), own);
  }

  /** And to its being ready. */
  lemma BecomesReady(st: State)
    requires st == Empty(st.config).(phase := Created(1, "a"), made := {"a"})
    ensures Leads(st, st.(phase := RecountingReady, ready := map["a" := 0], rounds := 1), true)
  {
    hide Leads;
    LeadsNowhere(st, true);
    BecomesListed(st, st, true);
    ThenMove(st, st.(phase := Checking(["a"]), rounds := 1, pending := map["a" := 0]), true);
  }

  /** The first round of an empty pool, and the second up to its listing: "a" is pending. */
  lemma FirstRound(config: Config)
    requires ToCreate(config, 0, 0) == 1
    ensures Leads(Empty(config), Empty(config).(phase := Checking(["a"]), made := {"a"}, rounds := 1,
                                                pending := map["a" := 0]), false)
  {
    hide Leads;
    RoundBegins(config, false);
    var st := Empty(config).(phase := Created(1, "a"), made := {"a"});
    Then(Empty(config), Empty(config).(phase := Creating(1)), Make("a"), st, false);
    BecomesListed(Empty(config), st, false);
  }

  /** From the empty pool: a failed recount of the ready set makes a pool of one hold two. */
  lemma FailedRecountOverfills()
    ensures exists r :: IsRun(r) && r.states[0] == Empty(Config(1, 1))
                        && |Last(r).ready| == 1 && |Last(r).pending| == 1 && Last(r).phase.Idle?
  {
    var empty := Empty(Config(1, 1));
    FirstRound(Config(1, 1));
    var st := empty.(phase := Checking(["a"]), made := {"a"}, rounds := 1, pending := map["a" := 0]);
    ThenMove(empty, st, false);
    st := st.(phase := RecountingReady, pending := map[], ready := map["a" := 0]);
    assert |st.ready| == 1;
    ThenRecount(empty, st, false, true, false);
    ThenCreate(empty, st.(phase := Creating(1)), "b");
    st := st.(phase := Idle, made := st.made + {"b"}, rounds := 2, pending := st.pending["b" := 0]);
    assert st.pending == map["b" := 0];
    var r :| IsRun(r) && r.states[0] == empty && Last(r) == st;
  }

  /** Likewise a failed recount of the pending set: two are pending where one is the limit. */
  lemma FailedPendingRecountOverfills()
    ensures exists r :: IsRun(r) && r.states[0] == Empty(Config(2, 1)) && |Last(r).pending| == 2 && Last(r).phase.Idle?
  {
    var empty := Empty(Config(2, 1));
    FirstRound(Config(2, 1));
    var st := empty.(phase := Checking(["a"]), made := {"a"}, rounds := 1, pending := map["a" := 0]);
    Then(empty, st, CheckReady(false), st.(phase := RecountingReady), false);
    ThenRecount(empty, st.(phase := RecountingReady), true, false, false);
    ThenCreate(empty, st.(phase := Creating(1)), "b");
    st := st.(phase := Idle, made := st.made + {"b"}, rounds := 2, pending := st.pending["b" := 0]);
    assert st.pending == map["a" := 0, "b" := 0];
    var r :| IsRun(r) && r.states[0] == empty && Last(r) == st;
  }

  // ------------------------------------------------------------ convergence

  /** Nothing fails, nothing is popped, and every sandbox asked about is ready. */
  ghost predicate IsQuiet(e: Event) {
    match e
    case CountReady(ok) => ok
    case CountPending(ok) => ok
    case CheckReady(ready) => ready
    case Remove(reply) => reply.Answered?
    case Add(reply) => reply.Answered?
    case AddPending(reply) => reply.Answered?
    case RecountReady(ok) => ok
    case RecountPending(ok) => ok
    case ListFail => false
    case MakeFail => false
    case Crash => false
    case PopMin(_, _, _) => false
    case _ => true
  }

  /** The pool's size after n undisturbed rounds from an initial total. */
  function SizeAfter(config: Config, initial: nat, n: nat): int
    requires initial <= config.poolSize && 0 <= config.maxPending
  {
    Min(config.poolSize, initial + n * config.maxPending)
  }

  lemma SizeAfterStep(config: Config, initial: nat, n: nat)
    requires initial <= config.poolSize && 0 <= config.maxPending
    ensures SizeAfter(config, initial, n + 1) ==
              Min(config.poolSize, SizeAfter(config, initial, n) + config.maxPending)
  {
    assert (n + 1) * config.maxPending == n * config.maxPending + config.maxPending;
  }

  /** Every pending sandbox is still in the list. */
  ghost predicate AllListed(pending: SortedSet, todo: seq<SandboxId>) {
    forall s <- pending :: s in todo
  }

  ghost predicate QuietInv(st: State, config: Config, initial: nat)
    requires initial <= config.poolSize && 0 <= config.maxPending
  {
    var size, next := SizeAfter(config, initial, st.rounds), SizeAfter(config, initial, st.rounds + 1);
    && st.config == config
    && match st.phase
       case Checking(todo) => Total(st) == size && AllListed(st.pending, todo)
       case Removing(todo) => Total(st) == size && AllListed(st.pending, todo)
       case Moving(todo) => Total(st) == size && todo != [] && AllListed(st.pending, todo[1..])
       case Adding(todo, _) => Total(st) == size && todo != [] && AllListed(st.pending, todo[1..])
       case RecountingReady => |st.ready| == size && st.pending == map[]
       case RecountingPending(n) => |st.ready| == n == size && st.pending == map[]
       case Creating(left) => |st.ready| + |st.pending| + left == next
       case Created(left, _) => |st.ready| + |st.pending| + left == next
       case AddingPending(left, _, _) => |st.ready| + |st.pending| + left == next
       case _ => Total(st) == size
  }

  lemma TailListed(pending: SortedSet, todo: seq<SandboxId>)
    requires todo != [] && AllListed(pending, todo)
    ensures AllListed(pending - {todo[0]}, todo[1..])
  {
    forall s <- pending - {todo[0]}
      ensures s in todo[1..]
    {
      var i :| 0 <= i < |todo| && todo[i] == s;
      assert todo[1..][i - 1] == s;
    }
  }

  lemma QuietListing(st: State, members: seq<string>, config: Config, initial: nat)
    requires initial <= config.poolSize && 0 <= config.maxPending
    requires QuietInv(st, config, initial) && Enabled(st, List(members))
    requires forall m <- members :: IsBase36(m)
    ensures QuietInv(Apply(st, List(members)), config, initial)
  {
    ParseAllIsIdentity(members);
    if members == [] {
      assert forall s :: s !in st.pending;
    }
  }

  lemma QuietRemove(st: State, config: Config, initial: nat)
    requires initial <= config.poolSize && 0 <= config.maxPending
    requires HeadIsPending(st) && QuietInv(st, config, initial) && Enabled(st, Remove(Answered))
    ensures QuietInv(Apply(st, Remove(Answered)), config, initial)
  {
    RemoveSize(st.pending, st.phase.todo[0]);
    TailListed(st.pending, st.phase.todo);
  }

  lemma QuietAdd(st: State, config: Config, initial: nat)
    requires initial <= config.poolSize && 0 <= config.maxPending
    requires QuietInv(st, config, initial) && Enabled(st, Add(Answered)) && st.phase.todo[0] !in st.ready
    ensures QuietInv(Apply(st, Add(Answered)), config, initial)
  {
    if |st.phase.todo| == 1 {
      assert st.pending == map[];
    }
  }

  lemma QuietCreation(st: State, e: Event, config: Config, initial: nat)
    requires initial <= config.poolSize && 0 <= config.maxPending
    requires QuietInv(st, config, initial) && Enabled(st, e) && IsQuiet(e)
    requires e.RecountPending? || e.Make? || e.StampPending? || e.AddPending?
    requires e.AddPending? ==> st.phase.sandbox !in st.pending
    ensures QuietInv(Apply(st, e), config, initial)
  {
    SizeAfterStep(config, initial, st.rounds);
  }

  lemma QuietOther(st: State, e: Event, config: Config, initial: nat)
    requires initial <= config.poolSize && 0 <= config.maxPending
    requires QuietInv(st, config, initial) && Enabled(st, e) && IsQuiet(e)
    requires !e.RecountPending? && !e.Make? && !e.StampPending? && !e.AddPending?
    requires !e.List? && !e.Remove? && !e.Add?
    ensures QuietInv(Apply(st, e), config, initial)
  {
  }

  lemma QuietStep(st: State, e: Event, config: Config, initial: nat)
    requires initial <= config.poolSize && 0 <= config.maxPending
    requires PoolInv(st) && QuietInv(st, config, initial) && Enabled(st, e) && IsQuiet(e)
    ensures QuietInv(Apply(st, e), config, initial)
  {
    hide QuietInv, Apply;
    if e.List? {
      ListedAreBase36(st, e.members);
      QuietListing(st, e.members, config, initial);
    } else if e.Remove? {
      TodoHead(st);
      QuietRemove(st, config, initial);
    } else if e.Add? {
      assert Places(st, st.phase.todo[0]) == One(st.phase.todo[0] in st.made);
      QuietAdd(st, config, initial);
    } else if e.RecountPending? || e.Make? || e.StampPending? || e.AddPending? {
      assert e.AddPending? ==> Places(st, st.phase.sandbox) == One(st.phase.sandbox in st.made);
      QuietCreation(st, e, config, initial);
    } else {
      QuietOther(st, e, config, initial);
    }
  }

  /**
   Convergence: in an undisturbed run from an idle pool of at most PoolSize sandboxes, the pool holds exactly
   min(PoolSize, initial + n * PoolMaxPending) sandboxes when n rounds of maintenance are over.
   */
  lemma {:induction false} Convergence(r: Run, i: nat)
    requires IsRun(r) && i < |r.states| && PoolInv(r.states[0])
    requires r.states[0].phase.Idle? && r.states[0].rounds == 0
    requires Total(r.states[0]) <= r.states[0].config.poolSize && 0 <= r.states[0].config.maxPending
    requires forall j :: 0 <= j < i ==> IsQuiet(r.events[j])
    ensures QuietInv(r.states[i], r.states[0].config, Total(r.states[0]))
    ensures r.states[i].phase.Idle? ==>
              Total(r.states[i]) == SizeAfter(r.states[0].config, Total(r.states[0]), r.states[i].rounds)
  {
    hide Enabled, Apply;
    if i > 0 {
      Convergence(r, i - 1);
      Conservation(r, i - 1);
      assert IsStep(r, i - 1);
      QuietStep(r.states[i - 1], r.events[i - 1], r.states[0].config, Total(r.states[0]));
    }
  }

  /** The smallest number of rounds of at most step each that covers a gap. */
  function CeilDiv(gap: nat, step: nat): nat
    requires step > 0
  {
    (gap + step - 1) / step
  }

  lemma CeilDivCovers(gap: nat, step: nat, n: nat)
    requires step > 0
    ensures gap <= n * step <==> CeilDiv(gap, step) <= n
  {
    var c := CeilDiv(gap, step);
    var rest := (gap + step - 1) % step;
    assert gap + step - 1 == c * step + rest && 0 <= rest < step;
    if c <= n {
      assert c * step <= n * step;
    } else {
      assert n + 1 <= c;
      assert (n + 1) * step <= c * step;
      assert (n + 1) * step == n * step + step;
    }
  }

  /** Between rounds of such a run the pool is full from round ceil((PoolSize - initial) / PoolMaxPending) on. */
  lemma FullExactlyAfter(r: Run, i: nat)
    requires IsRun(r) && i < |r.states| && PoolInv(r.states[0])
    requires r.states[0].phase.Idle? && r.states[0].rounds == 0
    requires Total(r.states[0]) <= r.states[0].config.poolSize && 1 <= r.states[0].config.maxPending
    requires forall j :: 0 <= j < i ==> IsQuiet(r.events[j])
    requires r.states[i].phase.Idle?
    ensures var config := r.states[0].config;
            Total(r.states[i]) == config.poolSize <==>
            CeilDiv(config.poolSize - Total(r.states[0]), config.maxPending) <= r.states[i].rounds
  {
    Convergence(r, i);
    var config := r.states[0].config;
    CeilDivCovers(config.poolSize - Total(r.states[0]), config.maxPending, r.states[i].rounds);
  }

  // ------------------------------------------------------------ hand-out order

  lemma {:induction false} LessIsTotal(a: string, b: string)
    ensures !(Less(a, b) && Less(b, a)) && !Less(a, a)
    ensures a == b || Less(a, b) || Less(b, a)
  {
    if a != "" && b != "" {
      LessIsTotal(a[1..], b[1..]);
      if a[0] == b[0] && a[1..] == b[1..] {
        assert a == [a[0]] + a[1..] && b == [b[0]] + b[1..];
      }
    }
    if a != "" {
      LessIsTotal(a[1..], a[1..]);
    }
  }

  lemma {:induction false} LessIsTransitive(a: string, b: string, c: string)
    requires Less(a, b) && Less(b, c)
    ensures Less(a, c)
  {
    if a != "" && a[0] == b[0] && b[0] == c[0] {
      LessIsTransitive(a[1..], b[1..], c[1..]);
    }
  }

  /** Byte order is a strict total order. */
  lemma LessIsStrictOrder(a: string, b: string, c: string)
    ensures !Less(a, a) && !(Less(a, b) && Less(b, a)) && (a == b || Less(a, b) || Less(b, a))
    ensures Less(a, b) && Less(b, c) ==> Less(a, c)
  {
    LessIsTotal(a, b);
    if Less(a, b) && Less(b, c) {
      LessIsTransitive(a, b, c);
    }
  }

  /** a is b cut short after k characters, or has the smaller character there. */
  predicate DiffersAt(a: string, b: string, k: nat) {
    k <= |a| && k < |b| && a[..k] == b[..k] && (k == |a| || a[k] < b[k])
  }

  /** Byte order is decided by the first difference. */
  lemma {:induction false} LessExactly(a: string, b: string)
    ensures Less(a, b) <==> exists k: nat :: DiffersAt(a, b, k)
  {
    if a == "" || b == "" || a[0] != b[0] {
      assert Less(a, b) ==> DiffersAt(a, b, 0);
      assert forall k: nat :: DiffersAt(a, b, k) && k > 0 ==> a[..k][0] == b[..k][0];
    } else {
      LessExactly(a[1..], b[1..]);
      if k: nat :| DiffersAt(a[1..], b[1..], k) {
        assert a[..k + 1] == [a[0]] + a[1..][..k] && b[..k + 1] == [b[0]] + b[1..][..k];
        assert DiffersAt(a, b, k + 1);
      }
      if k: nat :| DiffersAt(a, b, k) {
        assert a[1..][..k - 1] == a[..k][1..] && b[1..][..k - 1] == b[..k][1..];
        assert DiffersAt(a[1..], b[1..], k - 1);
      }
    }
  }

  lemma {:induction false} LessAppend(a: string, c: char, b: string, d: char)
    requires |a| == |b|
    ensures Less(a + [c], b + [d]) <==> Less(a, b) || (a == b && c < d)
  {
    if a == "" {
      assert a + [c] == [c] && b + [d] == [d];
    } else {
      assert (a + [c])[1..] == a[1..] + [c] && (b + [d])[1..] == b[1..] + [d];
      assert a == b <==> a[0] == b[0] && a[1..] == b[1..];
      LessAppend(a[1..], c, b[1..], d);
    }
  }

  lemma OrderByDigit(m: nat, n: nat)
    ensures m < n <==> m / 36 < n / 36 || (m / 36 == n / 36 && DigitChar(m % 36) < DigitChar(n % 36))
  {
  }

  lemma DigitsDiffer(m: nat, n: nat)
    ensures Digits(m) == Digits(n) <==> m == n
  {
    DecodeDigits(m);
    DecodeDigits(n);
  }

  lemma {:induction false} DigitsOrder(m: nat, n: nat)
    requires |Digits(m)| == |Digits(n)|
    ensures Less(Digits(m), Digits(n)) <==> m < n
  {
    if m > 0 && n > 0 {
      hide DigitChar, Less;
      DigitsOrder(m / 36, n / 36);
      LessAppend(Digits(m / 36), DigitChar(m % 36), Digits(n / 36), DigitChar(n % 36));
      OrderByDigit(m, n);
      DigitsDiffer(m / 36, n / 36);
    }
  }

  /** Identifiers of one length come in the order of the clock readings they were generated from. */
  lemma Base36Order(m: nat, n: nat)
    requires |Base36(m)| == |Base36(n)|
    ensures Less(Base36(m), Base36(n)) <==> m < n
  {
    DigitValueInverts(m % 36);
    if m > 0 && n > 0 {
      DigitsOrder(m, n);
    } else if m == 0 && n > 0 {
      DecodeDigits(n);
    } else if n == 0 && m > 0 {
      DecodeDigits(m);
    }
  }

  /** ZPOPMIN has no choice. */
  lemma MinIsUnique(z: SortedSet, s: SandboxId, t: SandboxId)
    requires IsMin(z, s) && IsMin(z, t)
    ensures s == t
  {
    LessIsTotal(s, t);
  }

  /** A nonempty sorted set has a member ZPOPMIN can take. */
  lemma {:induction false} MinExists(z: SortedSet) returns (s: SandboxId)
    requires z != map[]
    ensures IsMin(z, s)
    decreases |z|
  {
    s :| s in z;
    var rest := z - {s};
    RemoveSize(z, s);
    if rest != map[] {
      var t := MinExists(rest);
      LessIsTotal(s, t);
      if Precedes(z, s, t) {
        forall u <- z | u != s
          ensures Precedes(z, s, u)
        {
          if u != t {
            assert u in rest && Precedes(rest, t, u);
            if z[s] == z[t] == z[u] {
              LessIsTransitive(s, t, u);
            }
          }
        }
      } else {
        forall u <- z | u != t
          ensures Precedes(z, t, u)
        {
          if u != s {
            assert u in rest && Precedes(rest, t, u);
          }
        }
        s := t;
      }
    } else {
      assert forall u :: u !in rest;
    }
  }

  function LastScore(pops: seq<Pop>): nat {
    if pops == [] then 0 else pops[|pops| - 1].score
  }

  /** Stamps grow with the clock; what is ready is no older than anything popped before. */
  ghost predicate OrderInv(st: State) {
    && LastScore(st.pops) <= st.clock
    && (forall s <- st.ready :: LastScore(st.pops) <= st.ready[s] <= st.clock)
    && (st.phase.Adding? ==> LastScore(st.pops) <= st.phase.stamp <= st.clock
                             && forall s <- st.ready :: st.ready[s] <= st.phase.stamp)
    && (forall a, b :: 0 <= a < b < |st.pops| ==> st.pops[a].score <= st.pops[b].score)
  }

  lemma OrderPop(st: State, e: Event)
    requires OrderInv(st) && Enabled(st, e) && e.PopMin?
    ensures OrderInv(Apply(st, e))
  {
    var st' := Apply(st, e);
    assert st'.pops[..|st.pops|] == st.pops;
    assert LastScore(st'.pops) == st.ready[e.sandbox];
  }

  /** An added sandbox carries the latest stamp of all. */
  lemma OrderAdd(st: State, e: Event)
    requires OrderInv(st) && Enabled(st, e) && e.Add?
    ensures OrderInv(Apply(st, e))
  {
  }

  /** The clock moves on, and a new stamp is as late as any. */
  lemma OrderClock(st: State, e: Event)
    requires OrderInv(st) && Enabled(st, e) && (e.Tick? || e.Stamp?)
    ensures OrderInv(Apply(st, e))
  {
  }

  /** All else leaves the clock, the ready set and the history of pops alone, and holds no stamp for the ready set. */
  lemma OrderOther(st: State, e: Event)
    requires OrderInv(st) && Enabled(st, e) && !e.PopMin? && !e.Add? && !e.Tick? && !e.Stamp?
    ensures OrderInv(Apply(st, e))
  {
    OnlyAddsStamp(st, e);
    hide Apply, Enabled;
  }

  lemma OnlyAddsStamp(st: State, e: Event)
    requires Enabled(st, e) && !e.PopMin? && !e.Stamp? && !e.Add? && !e.Tick?
    ensures var st' := Apply(st, e);
            st'.clock == st.clock && st'.ready == st.ready && st'.pops == st.pops && !st'.phase.Adding?
  {
  }

  lemma OrderStep(st: State, e: Event)
    requires OrderInv(st) && Enabled(st, e)
    ensures OrderInv(Apply(st, e))
  {
    hide OrderInv, Enabled, Apply;
    if e.PopMin? {
      OrderPop(st, e);
    } else if e.Add? {
      OrderAdd(st, e);
    } else if e.Tick? || e.Stamp? {
      OrderClock(st, e);
    } else {
      OrderOther(st, e);
    }
  }

  /** Over a whole run of interleaved adds and pops, the ready stamps of successive pops never decrease. */
  lemma {:induction false} HandOutOrder(r: Run, i: nat)
    requires IsRun(r) && i < |r.states| && OrderInv(r.states[0])
    ensures OrderInv(r.states[i])
    ensures forall a, b :: 0 <= a < b < |r.states[i].pops| ==> r.states[i].pops[a].score <= r.states[i].pops[b].score
  {
    hide Enabled, Apply;
    if i > 0 {
      HandOutOrder(r, i - 1);
      assert IsStep(r, i - 1);
      OrderStep(r.states[i - 1], r.events[i - 1]);
    }
  }

  /** s and t are ready together and s comes first by stamp, then by identifier. */
  ghost predicate ReadyBefore(st: State, s: SandboxId, t: SandboxId) {
    s in st.ready && t in st.ready && Precedes(st.ready, s, t)
  }

  /** s is still ready, or has been popped, once. */
  ghost predicate ReadyOrPopped(st: State, s: SandboxId) {
    s in st.made && (s !in st.ready ==> Handouts(st.pops, s) == 1)
  }

  lemma ReadyOrPoppedStep(st: State, e: Event, s: SandboxId)
    requires Enabled(st, e) && ReadyOrPopped(st, s)
    requires Places(st, s) == 1 && Places(Apply(st, e), s) == 1
    ensures ReadyOrPopped(Apply(st, e), s)
  {
    if e.PopMin? {
      HandoutsAppend(st.pops, Pop(e.sandbox, st.ready[e.sandbox], e.taker, e.delivered), s);
    }
  }

  /** s has been popped, or is still ready and then so is t, behind it. */
  ghost predicate EarlierInv(st: State, s: SandboxId, t: SandboxId) {
    ReadyOrPopped(st, s) && t in st.made && (s in st.ready ==> ReadyBefore(st, s, t))
  }

  /** While both are ready neither is added again, and the one that comes first is the one that may be popped. */
  lemma EarlierStep(st: State, e: Event, s: SandboxId, t: SandboxId)
    requires Enabled(st, e) && ReadyBefore(st, s, t)
    requires Places(st, s) == 1 && Places(st, t) == 1
    ensures s in Apply(st, e).ready ==> ReadyBefore(Apply(st, e), s, t)
  {
    LessIsTotal(s, t);
  }

  /** What has been popped does not come back. */
  lemma StaysOut(st: State, e: Event, s: SandboxId)
    requires Enabled(st, e) && Handouts(st.pops, s) == 1 && Places(Apply(st, e), s) == 1
    ensures s !in Apply(st, e).ready
  {
    if e.PopMin? {
      HandoutsAppend(st.pops, Pop(e.sandbox, st.ready[e.sandbox], e.taker, e.delivered), s);
    }
  }

  lemma EarlierInvStep(st: State, e: Event, st': State, s: SandboxId, t: SandboxId)
    requires OwnedOnce(st) && Enabled(st, e) && st' == Apply(st, e) && OwnedOnce(st')
    requires EarlierInv(st, s, t)
    ensures EarlierInv(st', s, t)
  {
    assert st.made <= st'.made;
    assert Places(st, s) == One(s in st.made) && Places(st, t) == One(t in st.made);
    assert Places(st', s) == One(s in st'.made);
    ReadyOrPoppedStep(st, e, s);
    if s in st.ready {
      EarlierStep(st, e, s, t);
    } else {
      StaysOut(st, e, s);
    }
  }

  /** First in, first out in batches of a second: t cannot leave the ready set while s, which precedes it, is there. */
  lemma {:induction false} EarlierLeavesFirst(r: Run, i: nat, j: nat, s: SandboxId, t: SandboxId)
    requires IsRun(r) && PoolInv(r.states[0]) && i <= j < |r.states|
    requires ReadyBefore(r.states[i], s, t)
    ensures s in r.states[j].ready ==> ReadyBefore(r.states[j], s, t)
    ensures s !in r.states[j].ready ==> Handouts(r.states[j].pops, s) == 1
    ensures EarlierInv(r.states[j], s, t)
    decreases j
  {
    hide Enabled, Apply;
    Conservation(r, j);
    if i < j {
      EarlierLeavesFirst(r, i, j - 1, s, t);
      Conservation(r, j - 1);
      assert IsStep(r, j - 1);
      EarlierInvStep(r.states[j - 1], r.events[j - 1], r.states[j], s, t);
    } else {
      assert Places(r.states[j], s) == One(s in r.states[j].made);
      assert Places(r.states[j], t) == One(t in r.states[j].made);
    }
  }

  /** t is to be handed out after s, which was ready by the given second: what t is or will be stamped with is later. */
  ghost predicate FirstInv(st: State, second: nat, s: SandboxId, t: SandboxId) {
    && second < st.clock && ReadyOrPopped(st, s) && (s in st.ready ==> st.ready[s] <= second)
    && (t in st.ready ==> second < st.ready[t]) && (st.phase.Adding? ==> second < st.phase.stamp)
    && (Handouts(st.pops, t) == 1 ==> Handouts(st.pops, s) == 1)
  }

  /** A pop takes t only when s is no longer ready. */
  lemma FirstPop(st: State, e: Event, second: nat, s: SandboxId, t: SandboxId)
    requires Enabled(st, e) && e.PopMin? && FirstInv(st, second, s, t)
    requires ReadyOrPopped(Apply(st, e), s) && Handouts(st.pops, s) <= 1
    ensures FirstInv(Apply(st, e), second, s, t)
  {
    var pop := Pop(e.sandbox, st.ready[e.sandbox], e.taker, e.delivered);
    HandoutsAppend(st.pops, pop, s);
    HandoutsAppend(st.pops, pop, t);
  }

  /** What is stamped or added from then on carries a later second. */
  lemma FirstAdd(st: State, e: Event, second: nat, s: SandboxId, t: SandboxId)
    requires Enabled(st, e) && (e.Stamp? || e.Add? || e.Tick?) && FirstInv(st, second, s, t)
    requires ReadyOrPopped(Apply(st, e), s) && (s in Apply(st, e).ready ==> Apply(st, e).ready[s] <= second)
    ensures FirstInv(Apply(st, e), second, s, t)
  {
    hide ReadyOrPopped, Handouts;
    assert Apply(st, e).pops == st.pops;
  }

  lemma FirstOther(st: State, e: Event, second: nat, s: SandboxId, t: SandboxId)
    requires Enabled(st, e) && !e.PopMin? && !e.Stamp? && !e.Add? && !e.Tick? && FirstInv(st, second, s, t)
    requires ReadyOrPopped(Apply(st, e), s)
    ensures FirstInv(Apply(st, e), second, s, t)
  {
    hide ReadyOrPopped, Handouts;
    OnlyAddsStamp(st, e);
  }

  /** Stamping t begins it. */
  lemma FirstBegins(st: State, second: nat, s: SandboxId, t: SandboxId)
    requires Enabled(st, Stamp) && st.phase.todo[0] == t && second < st.clock && Places(st, t) <= 1
    requires ReadyOrPopped(st, s) && (s in st.ready ==> st.ready[s] <= second)
    ensures FirstInv(Apply(st, Stamp), second, s, t)
  {
    assert t in InHand(st.phase);
  }

  lemma ReadyStays(st: State, e: Event, s: SandboxId, second: nat)
    requires Enabled(st, e) && ReadyOrPopped(st, s) && (s in st.ready ==> st.ready[s] <= second)
    requires Places(st, s) == 1 && Places(Apply(st, e), s) == One(s in Apply(st, e).made)
    ensures ReadyOrPopped(Apply(st, e), s)
    ensures s in Apply(st, e).ready ==> Apply(st, e).ready[s] <= second
  {
    assert st.made <= Apply(st, e).made;
    ReadyOrPoppedStep(st, e, s);
    if s !in st.ready {
      StaysOut(st, e, s);
    }
  }

  /** What is ready was stamped by now, and is not stamped again. */
  lemma {:induction false} ReadyAt(r: Run, i: nat, j: nat, s: SandboxId)
    requires IsRun(r) && PoolInv(r.states[0]) && OrderInv(r.states[0]) && i <= j < |r.states|
    requires s in r.states[i].ready
    ensures ReadyOrPopped(r.states[j], s)
    ensures s in r.states[j].ready ==> r.states[j].ready[s] <= r.states[i].clock
    decreases j
  {
    hide Enabled, Apply;
    Conservation(r, j);
    assert Places(r.states[j], s) == One(s in r.states[j].made);
    if i < j {
      ReadyAt(r, i, j - 1, s);
      Conservation(r, j - 1);
      assert Places(r.states[j - 1], s) == One(s in r.states[j - 1].made);
      assert IsStep(r, j - 1);
      ReadyStays(r.states[j - 1], r.events[j - 1], s, r.states[i].clock);
    } else {
      HandOutOrder(r, i);
    }
  }

  /**
   First in, first out: a sandbox that is ready in one second is handed out before any that is stamped for the ready set
   in a later second.
   */
  lemma {:induction false} FirstInFirstOut(r: Run, i: nat, k: nat, j: nat, s: SandboxId, t: SandboxId)
    requires IsRun(r) && PoolInv(r.states[0]) && OrderInv(r.states[0]) && i <= k < j < |r.states|
    requires s in r.states[i].ready && r.states[i].clock < r.states[k].clock
    requires r.events[k].Stamp? && HasTodo(r.states[k].phase) && r.states[k].phase.todo[0] == t
    ensures Handouts(r.states[j].pops, t) == 1 ==> Handouts(r.states[j].pops, s) == 1
    ensures FirstInv(r.states[j], r.states[i].clock, s, t)
    decreases j
  {
    hide Enabled, Apply;
    Conservation(r, j - 1);
    assert IsStep(r, j - 1);
    var st, e := r.states[j - 1], r.events[j - 1];
    ReadyAt(r, i, j - 1, s);
    ReadyAt(r, i, j, s);
    assert Places(st, s) == One(s in st.made) && Places(st, t) == One(t in st.made);
    if k == j - 1 {
      FirstBegins(st, r.states[i].clock, s, t);
    } else {
      FirstInFirstOut(r, i, k, j - 1, s, t);
      if e.PopMin? {
        FirstPop(st, e, r.states[i].clock, s, t);
      } else if e.Stamp? || e.Add? || e.Tick? {
        FirstAdd(st, e, r.states[i].clock, s, t);
      } else {
        FirstOther(st, e, r.states[i].clock, s, t);
      }
    }
  }

  /** The empty pool meets the starting hypotheses of the lemmas above. */
  lemma EmptyPoolIsFine(config: Config)
    ensures PoolInv(Empty(config)) && CapacityInv(Empty(config)) && OrderInv(Empty(config))
  {
  }
}
