/** Runs of the store with each pipeline as one step: the index agrees with the map, and so does the message log. */
module StoreProofs {
  import opened Wrappers
  import opened Ids
  import opened Timed
  import opened Messages
  import opened ProjectStore

  datatype Op = Wait(elapsed: Time) | Assign(project: ProjectId, sandbox: SandboxId) | Release(sandbox: SandboxId)

  function AfterOp(st: Store, op: Op): Store {
    match op
    case Wait(d) => st.(now := st.now + d)
    case Assign(p, s) => AfterSet(st, p, s)
    case Release(s) => AfterRemove(st, s)
  }

  function AfterOps(st: Store, ops: seq<Op>): Store {
    if ops == [] then st else AfterOp(AfterOps(st, ops[..|ops| - 1]), ops[|ops| - 1])
  }

  // ------------------------------------------------------------ the index

  /** Forward entries are not given more than their TTL. */
  ghost predicate IsBounded(st: Store) {
    forall p <- st.forward :: st.forward[p].deadline <= st.now + PROJECT_SANDBOX_TTL
  }

  /** p is in an index set that lives at least as long as p's forward entry. */
  predicate IsIndexed(st: Store, p: ProjectId)
    requires p in st.forward
  {
    && IndexLive(st) && p in st.index.members
    && (st.index.deadline.Some? ==> st.forward[p].deadline <= st.index.deadline.value)
  }

  /** Whatever projects and sandboxes are called, every live forward entry is listed in an index that outlives it. */
  ghost predicate StoreInv(st: Store) {
    IsBounded(st) && forall p <- st.forward :: Live(st.forward, p, st.now) ==> IsIndexed(st, p)
  }

  lemma ReleaseKeepsInv(st: Store, s: SandboxId)
    requires StoreInv(st)
    ensures StoreInv(AfterRemove(st, s))
  {
    match FindProject(st, s)
    case Failure =>
    case Success(found) =>
      RemoveUnfolds(st, s, found);
      if found.Some? {
        var p := found.value;
        var st' := RemoveFromIndex(DeleteForward(DeleteReverse(st, s), p), p);
        forall q <- st'.forward | Live(st'.forward, q, st'.now)
          ensures IsIndexed(st', q)
        {
          assert IsIndexed(st, q) && q in st'.index.members;
        }
      }
  }

  lemma OpKeepsInv(st: Store, op: Op)
    requires StoreInv(st)
    ensures StoreInv(AfterOp(st, op))
  {
    match op
    case Wait(_) =>
    case Assign(p, s) => SetUnfolds(st, p, s);
    case Release(s) => ReleaseKeepsInv(st, s);
  }

  lemma {:induction false} OpsKeepInv(st: Store, ops: seq<Op>)
    requires StoreInv(st)
    ensures StoreInv(AfterOps(st, ops))
  {
    if ops != [] {
      OpsKeepInv(st, ops[..|ops| - 1]);
      OpKeepsInv(AfterOps(st, ops[..|ops| - 1]), ops[|ops| - 1]);
    }
  }

  /** What the enumeration says of p is what a lookup of p says. */
  ghost predicate IsListedRightly(st: Store, p: ProjectId) {
    var reply := LookupForward(st, p);
    && (p in AllMappings(st) <==> reply.HasSandbox?)
    && (p in AllMappings(st) ==> AllMappings(st)[p] == reply.sandbox)
  }

  /** Nothing is enumerated that a lookup would not find, whatever the members of the index are called. */
  lemma ListedIsFound(st: Store, p: ProjectId)
    requires p in AllMappings(st)
    ensures LookupForward(st, p) == HasSandbox(AllMappings(st)[p])
  {
  }

  lemma IndexedIsListed(st: Store, p: ProjectId)
    requires IsRaw(p) && (Live(st.forward, p, st.now) ==> IsIndexed(st, p))
    ensures IsListedRightly(st, p)
  {
    assert LookupForward(st, p).HasSandbox? ==> IsMapped(st, p);
  }

  /**
   Index agreement with expiry: after any timed sequence of assignments and releases, with names of any kind, the
   enumeration through the index set says of every raw project what a lookup says.
   */
  lemma IndexAgreement(ops: seq<Op>, p: ProjectId)
    requires IsRaw(p)
    ensures IsListedRightly(AfterOps(EMPTY, ops), p)
  {
    OpsKeepInv(EMPTY, ops);
    IndexedIsListed(AfterOps(EMPTY, ops), p);
  }

  /** A sandbox identifier that parsing leaves alone. */
  predicate IsPlain(s: SandboxId) {
    s != "" && !HasPrefix(s, SANDBOX_PREFIX)
  }

  /** Parsing leaves the names in the forward map alone. */
  ghost predicate ForwardIsPlain(st: Store) {
    forall p <- st.forward :: IsRaw(p) && IsPlain(st.forward[p].value)
  }

  /** Then the enumeration of a store whose live entries are indexed is its live forward map. */
  lemma MappingsAreLive(st: Store)
    requires ForwardIsPlain(st) && forall p <- st.forward :: Live(st.forward, p, st.now) ==> IsIndexed(st, p)
    ensures AllMappings(st) == LiveForward(st)
  {
    forall p
      ensures p in AllMappings(st) <==> p in LiveForward(st)
      ensures p in AllMappings(st) ==> AllMappings(st)[p] == LiveForward(st)[p]
    {
      if p in st.forward {
        ParseIsIdentity(st.forward[p].value, SANDBOX_PREFIX);
        IndexedIsListed(st, p);
      } else if p in AllMappings(st) {
        ListedIsFound(st, p);
      }
    }
  }

  // ------------------------------------------------------------ what a set and a release do

  /** A lookup tells an absent entry, or one that has expired, from one that does not parse: empty, or a bare prefix. */
  lemma LookupsExactly(st: Store, p: ProjectId, s: SandboxId)
    ensures LookupForward(st, p).NoSandbox? <==> p !in st.forward || st.forward[p].deadline <= st.now
    ensures LookupForward(st, p).BadSandbox? <==>
              p in st.forward && st.now < st.forward[p].deadline && st.forward[p].value in {"", "sandbox-"}
    ensures FindProject(st, s) == Success(None) <==> s !in st.reverse || st.reverse[s].deadline <= st.now
    ensures FindProject(st, s).Failure? <==>
              s in st.reverse && st.now < st.reverse[s].deadline && st.reverse[s].value in {"", "project-"}
  {
    if p in st.forward {
      Unparsable(st.forward[p].value, SANDBOX_PREFIX);
    }
    if s in st.reverse {
      Unparsable(st.reverse[s].value, PROJECT_PREFIX);
    }
  }

  /**
   For 24 hours after a set, if nothing else happens, the sandbox is found for the project and the project for the
   sandbox, and from then on neither. What is found for others does not change.
   */
  lemma SetLastsADay(st: Store, p: ProjectId, s: SandboxId, d: Time)
    requires NewSandboxId(s) == Some(s)
    ensures var later := AfterOp(AfterSet(st, p, s), Wait(d));
            && LookupForward(later, p) == (if d < DAY then HasSandbox(s) else NoSandbox)
            && (d >= DAY ==> FindProject(later, s) == Success(None))
            && (d < DAY && IsRaw(p) ==> FindProject(later, s) == Success(Some(p)))
            && (d < DAY && NewProjectId(p).None? ==> FindProject(later, s) == Failure)
            && (forall q :: q != p ==> LookupForward(later, q) == LookupForward(AfterOp(st, Wait(d)), q))
            && (forall t :: t != s ==> FindProject(later, t) == FindProject(AfterOp(st, Wait(d)), t))
            && (forall t :: IsReleased(later, t) == IsReleased(AfterOp(st, Wait(d)), t))
  {
    SetUnfolds(st, p, s);
  }

  /** For those 24 hours the project is enumerated, if parsing leaves its name alone. */
  lemma SetIsListedForADay(st: Store, p: ProjectId, s: SandboxId, d: Time)
    requires NewSandboxId(s) == Some(s) && IsRaw(p)
    ensures var listed := AllMappings(AfterOp(AfterSet(st, p, s), Wait(d)));
            if d < DAY then p in listed && listed[p] == s else p !in listed
  {
    SetLastsADay(st, p, s, d);
    var later := AfterOp(AfterSet(st, p, s), Wait(d));
    assert d < DAY ==> p in later.index.members && IndexLive(later) by {
      SetUnfolds(st, p, s);
    }
    assert d < DAY ==> IsMapped(later, p);
  }

  /**
   After a release the sandbox is no longer found for its project, nor the project for the sandbox; for five minutes the
   sandbox counts as released. What is found for others does not change.
   */
  lemma ReleaseForgets(st: Store, s: SandboxId, found: Option<ProjectId>, d: Time)
    requires FindProject(st, s) == Success(found)
    ensures var later := AfterOp(AfterRemove(st, s), Wait(d));
            && FindProject(later, s) == Success(None)
            && (found.Some? ==> LookupForward(later, found.value) == NoSandbox
                                && found.value !in AllMappings(later) && found.value !in later.index.members)
            && (IsReleased(later, s) <==> d < 300_000)
            && (forall q :: Some(q) != found ==> LookupForward(later, q) == LookupForward(AfterOp(st, Wait(d)), q))
            && (forall t :: t != s ==> FindProject(later, t) == FindProject(AfterOp(st, Wait(d)), t))
            && (forall t :: t != s ==> IsReleased(later, t) == IsReleased(AfterOp(st, Wait(d)), t))
  {
    RemoveUnfolds(st, s, found);
  }

  // ------------------------------------------------------------ release markers

  /** How long ago s was last released in the history, if it was. A release whose lookup does not parse does nothing. */
  function SinceRelease(ops: seq<Op>, s: SandboxId): Option<Time> {
    if ops == [] then None
    else
      var past := ops[..|ops| - 1];
      var before := SinceRelease(past, s);
      match ops[|ops| - 1]
      case Wait(d) => if before.Some? then Some(before.value + d) else None
      case Assign(_, _) => before
      case Release(t) => if t == s && FindProject(AfterOps(EMPTY, past), t).Success? then Some(0) else before
  }

  lemma ReleasedBy(st: Store, op: Op)
    ensures var st' := AfterOp(st, op);
            && st'.now == st.now + (if op.Wait? then op.elapsed else 0)
            && st'.released == if op.Release? && FindProject(st, op.sandbox).Success?
                               then Put(st.released, op.sandbox, "1", st.now + RELEASED_TTL)
                               else st.released
  {
    match op
    case Wait(_) =>
    case Assign(p, t) => SetUnfolds(st, p, t);
    case Release(t) =>
      if FindProject(st, t).Success? {
        RemoveUnfolds(st, t, FindProject(st, t).value);
      }
  }

  lemma {:induction false} MarkerTellsAge(ops: seq<Op>, s: SandboxId)
    ensures var st := AfterOps(EMPTY, ops);
            match SinceRelease(ops, s)
            case None => s !in st.released
            case Some(age) => s in st.released && st.released[s].deadline + age == st.now + RELEASED_TTL
  {
    if ops != [] {
      MarkerTellsAge(ops[..|ops| - 1], s);
      ReleasedBy(AfterOps(EMPTY, ops[..|ops| - 1]), ops[|ops| - 1]);
    }
  }

  /** At every point of every history, IsSandboxReleased is true exactly within five minutes of the last release. */
  lemma ReleasedExactly(ops: seq<Op>, s: SandboxId)
    ensures IsReleased(AfterOps(EMPTY, ops), s) <==>
              SinceRelease(ops, s).Some? && SinceRelease(ops, s).value < 5 * MINUTE
  {
    MarkerTellsAge(ops, s);
  }

  /** The lookup of a release parses unless the sandbox was set for the one project that is nothing but its prefix. */
  ghost predicate ReverseParses(st: Store) {
    forall s <- st.reverse :: NewProjectId(st.reverse[s].value).Some?
  }

  lemma {:induction false} ReleasesParse(ops: seq<Op>, s: SandboxId)
    requires forall op <- ops :: op.Assign? ==> op.project != "" && op.project != PROJECT_PREFIX
    ensures ReverseParses(AfterOps(EMPTY, ops)) && FindProject(AfterOps(EMPTY, ops), s).Success?
  {
    if ops != [] {
      var before, op := AfterOps(EMPTY, ops[..|ops| - 1]), ops[|ops| - 1];
      ReleasesParse(ops[..|ops| - 1], s);
      match op
      case Wait(_) =>
      case Assign(p, t) =>
        assert op in ops;
        SetUnfolds(before, p, t);
        assert AfterOps(EMPTY, ops).reverse == Put(before.reverse, t, p, before.now + PROJECT_SANDBOX_TTL);
      case Release(t) =>
        if FindProject(before, t).Success? {
          RemoveUnfolds(before, t, FindProject(before, t).value);
        }
    }
  }

  // ------------------------------------------------------------ log replay

  /** Callers assign well-formed projects and plain sandboxes: those whose messages parse. */
  predicate IsProper(op: Op) {
    op.Assign? ==> IsWellFormed(op.project) && IsPlain(op.sandbox)
  }

  function Values<K, V>(t: Table<K, V>): map<K, V> {
    map k | k in t :: t[k].value
  }

  ghost predicate NamesOk(st: Store) {
    ForwardIsPlain(st) && forall s <- st.reverse :: IsWellFormed(st.reverse[s].value)
  }

  lemma FindProjectIsRaw(st: Store, s: SandboxId)
    requires NamesOk(st)
    ensures FindProject(st, s) == Success(Get(st.reverse, s, st.now))
  {
    if Live(st.reverse, s, st.now) {
      ParseIsIdentity(st.reverse[s].value, PROJECT_PREFIX);
    }
  }

  lemma OpKeepsNames(st: Store, op: Op)
    requires NamesOk(st) && IsProper(op)
    ensures NamesOk(AfterOp(st, op))
  {
    match op
    case Wait(_) =>
    case Assign(p, s) =>
      SetUnfolds(st, p, s);
      ParseIsIdentity(p, PROJECT_PREFIX);
    case Release(s) =>
      FindProjectIsRaw(st, s);
      RemoveUnfolds(st, s, Get(st.reverse, s, st.now));
  }

  lemma {:induction false} OpsKeepNames(st: Store, ops: seq<Op>)
    requires NamesOk(st) && forall op <- ops :: IsProper(op)
    ensures NamesOk(AfterOps(st, ops))
  {
    if ops != [] {
      OpsKeepNames(st, ops[..|ops| - 1]);
      OpKeepsNames(AfterOps(st, ops[..|ops| - 1]), ops[|ops| - 1]);
    }
  }

  /** The change an operation makes to the forward map, and announces. */
  function ChangeOf(st: Store, op: Op): Option<Update> {
    match op
    case Wait(_) => None
    case Assign(p, s) => Some(Set(p, s))
    case Release(s) =>
      match Get(st.reverse, s, st.now)
      case None => None
      case Some(p) => Some(Removed(p))
  }

  function HandleChange(routes: RouteMap, change: Option<Update>): RouteMap {
    match change
    case None => routes
    case Some(u) => Handle(routes, u)
  }

  lemma ForwardChanges(st: Store, op: Op)
    requires NamesOk(st) && IsProper(op)
    ensures AfterOp(st, op).now >= st.now
    ensures AfterOp(st, op).forward == match ChangeOf(st, op)
                                       case None => st.forward
                                       case Some(Set(p, s)) => Put(st.forward, p, s, st.now + PROJECT_SANDBOX_TTL)
                                       case Some(Removed(p)) => Delete(st.forward, p)
    ensures ChangeOf(st, op).Some? ==> AfterOp(st, op).now == st.now
  {
    match op
    case Wait(_) =>
    case Assign(p, s) => SetUnfolds(st, p, s);
    case Release(s) =>
      FindProjectIsRaw(st, s);
      RemoveUnfolds(st, s, Get(st.reverse, s, st.now));
  }

  /** Handling the announced change does to the values of the forward map what the operation does. */
  lemma ChangeTracksForward(st: Store, op: Op)
    requires NamesOk(st) && IsProper(op)
    ensures HandleChange(Values(st.forward), ChangeOf(st, op)) == Values(AfterOp(st, op).forward)
  {
    ForwardChanges(st, op);
  }

  lemma ReplayOne(routes: RouteMap, log: seq<string>, since: nat, payload: string)
    requires since <= |log|
    ensures Replay(routes, (log + [payload])[since..]) == HandlePayload(Replay(routes, log[since..]), payload)
  {
    assert (log + [payload])[since..] == log[since..] + [payload];
    ReplayAppend(routes, log[since..], payload);
  }

  /** What a replay of the log from some point on makes of one more operation. */
  lemma LogChanges(st: Store, op: Op, routes: RouteMap, since: nat)
    requires NamesOk(st) && IsProper(op) && since <= |st.log|
    ensures since <= |AfterOp(st, op).log|
    ensures Replay(routes, AfterOp(st, op).log[since..]) ==
              HandleChange(Replay(routes, st.log[since..]), ChangeOf(st, op))
  {
    match op
    case Wait(_) =>
    case Assign(p, s) =>
      SetUnfolds(st, p, s);
      UpdateRoundTrip(p, s);
      ReplayOne(routes, st.log, since, PrintUpdate(p, s));
    case Release(s) =>
      var found := Get(st.reverse, s, st.now);
      FindProjectIsRaw(st, s);
      RemoveUnfolds(st, s, found);
      if found.Some? {
        RemovalRoundTrip(found.value);
        ReplayOne(routes, st.log, since, PrintRemoval(found.value));
      }
  }

  /**
   Log replay: at every point of every timed history, folding the update handler over the parsed messages from an
   empty route map gives the forward map with expiry left aside.
   */
  lemma {:induction false} LogReplay(ops: seq<Op>)
    requires forall op <- ops :: IsProper(op)
    ensures Replay(map[], AfterOps(EMPTY, ops).log) == Values(AfterOps(EMPTY, ops).forward)
  {
    if ops != [] {
      var before := AfterOps(EMPTY, ops[..|ops| - 1]);
      LogReplay(ops[..|ops| - 1]);
      OpsKeepNames(EMPTY, ops[..|ops| - 1]);
      ChangeTracksForward(before, ops[|ops| - 1]);
      LogChanges(before, ops[|ops| - 1], map[], 0);
      assert before.log[0..] == before.log && AfterOps(EMPTY, ops).log[0..] == AfterOps(EMPTY, ops).log;
    }
  }

  lemma {:induction false} NothingExpiresWithoutWaiting(ops: seq<Op>)
    requires forall op <- ops :: IsProper(op) && !op.Wait?
    ensures AfterOps(EMPTY, ops).now == 0
    ensures forall p <- AfterOps(EMPTY, ops).forward :: AfterOps(EMPTY, ops).forward[p].deadline == PROJECT_SANDBOX_TTL
  {
    if ops != [] {
      var before, op := AfterOps(EMPTY, ops[..|ops| - 1]), ops[|ops| - 1];
      NothingExpiresWithoutWaiting(ops[..|ops| - 1]);
      OpsKeepNames(EMPTY, ops[..|ops| - 1]);
      ForwardChanges(before, op);
      if op.Release? {
        FindProjectIsRaw(before, op.sandbox);
        RemoveUnfolds(before, op.sandbox, Get(before.reverse, op.sandbox, before.now));
      }
    }
  }

  /** When no time passes the replayed map is the live forward map itself. */
  lemma LogReplayIsLive(ops: seq<Op>)
    requires forall op <- ops :: IsProper(op) && !op.Wait?
    ensures Replay(map[], AfterOps(EMPTY, ops).log) == LiveForward(AfterOps(EMPTY, ops))
  {
    LogReplay(ops);
    NothingExpiresWithoutWaiting(ops);
  }

  // ------------------------------------------------------------ a subscriber that starts late

  /** routes is right about p if p is live, and otherwise holds for it at most what has expired. */
  ghost predicate RoutesMatchAt(routes: RouteMap, st: Store, p: ProjectId) {
    && (Live(st.forward, p, st.now) ==> p in routes)
    && (p in routes ==> p in st.forward && routes[p] == st.forward[p].value)
  }

  ghost predicate RoutesMatch(routes: RouteMap, st: Store) {
    forall p :: RoutesMatchAt(routes, st, p)
  }

  /** The operation changes, and announces, p's entry. */
  predicate Touches(st: Store, op: Op, p: ProjectId) {
    ChangeOf(st, op).Some? && ChangeOf(st, op).value.project == p
  }

  predicate IsUntouched(st: Store, ops: seq<Op>, p: ProjectId) {
    ops == [] || (IsUntouched(st, ops[..|ops| - 1], p)
                  && !Touches(AfterOps(st, ops[..|ops| - 1]), ops[|ops| - 1], p))
  }

  predicate SameAt(a: RouteMap, b: RouteMap, p: ProjectId) {
    (p in a <==> p in b) && (p in a && p in b ==> a[p] == b[p])
  }

  /** A message that is handled puts right, or keeps right, the project it is about. */
  lemma HandledStep(st: Store, op: Op, routes: RouteMap, p: ProjectId)
    requires NamesOk(st) && IsProper(op) && (RoutesMatchAt(routes, st, p) || Touches(st, op, p))
    ensures RoutesMatchAt(HandleChange(routes, ChangeOf(st, op)), AfterOp(st, op), p)
  {
    ForwardChanges(st, op);
  }

  /** Missing the messages about other projects does no harm to p. */
  lemma {:induction false} MissedSteps(st: Store, ops: seq<Op>, routes: RouteMap, p: ProjectId)
    requires NamesOk(st) && (forall op <- ops :: IsProper(op)) && IsUntouched(st, ops, p)
    requires RoutesMatchAt(routes, st, p)
    ensures RoutesMatchAt(routes, AfterOps(st, ops), p)
  {
    if ops != [] {
      MissedSteps(st, ops[..|ops| - 1], routes, p);
      OpsKeepNames(st, ops[..|ops| - 1]);
      ForwardChanges(AfterOps(st, ops[..|ops| - 1]), ops[|ops| - 1]);
    }
  }

  lemma {:induction false} HandledSteps(st: Store, ops: seq<Op>, routes: RouteMap, p: ProjectId)
    requires NamesOk(st) && forall op <- ops :: IsProper(op)
    ensures |st.log| <= |AfterOps(st, ops).log|
    ensures var routes' := Replay(routes, AfterOps(st, ops).log[|st.log|..]);
            && (RoutesMatchAt(routes, st, p) || !IsUntouched(st, ops, p) ==>
                  RoutesMatchAt(routes', AfterOps(st, ops), p))
            && (IsUntouched(st, ops, p) ==> SameAt(routes', routes, p))
  {
    if ops == [] {
      assert st.log[|st.log|..] == [];
    } else {
      var before, op := AfterOps(st, ops[..|ops| - 1]), ops[|ops| - 1];
      HandledSteps(st, ops[..|ops| - 1], routes, p);
      OpsKeepNames(st, ops[..|ops| - 1]);
      LogChanges(before, op, routes, |st.log|);
      if RoutesMatchAt(routes, st, p) || !IsUntouched(st, ops, p) {
        HandledStep(before, op, Replay(routes, before.log[|st.log|..]), p);
      }
    }
  }

  /**
   A subscriber loads the mappings after any history, misses the messages of the gap until it is subscribed, and handles
   the later ones. It is right about every project whose entry the gap left alone or a later message is about; about any
   other it knows what it loaded.
   */
  lemma LateSubscriber(history: seq<Op>, gap: seq<Op>, later: seq<Op>, p: ProjectId)
    requires forall op <- history + gap + later :: IsProper(op)
    ensures var loaded := AfterOps(EMPTY, history);
            var subscribed := AfterOps(loaded, gap);
            var end := AfterOps(subscribed, later);
            && |subscribed.log| <= |end.log|
            && var routes := Replay(AllMappings(loaded), end.log[|subscribed.log|..]);
               && (IsUntouched(loaded, gap, p) || !IsUntouched(subscribed, later, p) ==> RoutesMatchAt(routes, end, p))
               && (IsUntouched(subscribed, later, p) ==> SameAt(routes, AllMappings(loaded), p))
  {
    forall op | op in history || op in gap || op in later
      ensures IsProper(op)
    {
      assert op in history + gap + later;
    }
    var loaded := AfterOps(EMPTY, history);
    OpsKeepInv(EMPTY, history);
    OpsKeepNames(EMPTY, history);
    OpsKeepNames(loaded, gap);
    MappingsAreLive(loaded);
    if IsUntouched(loaded, gap, p) {
      MissedSteps(loaded, gap, AllMappings(loaded), p);
    }
    HandledSteps(AfterOps(loaded, gap), later, AllMappings(loaded), p);
  }

  /** Without a gap the subscriber is right about every project. */
  lemma PromptSubscriber(history: seq<Op>, later: seq<Op>)
    requires forall op <- history + later :: IsProper(op)
    ensures var st := AfterOps(EMPTY, history);
            && |st.log| <= |AfterOps(st, later).log|
            && RoutesMatch(Replay(AllMappings(st), AfterOps(st, later).log[|st.log|..]), AfterOps(st, later))
  {
    assert history + [] + later == history + later;
    LateSubscriber(history, [], later, "");
    forall p
      ensures var st := AfterOps(EMPTY, history);
              && |st.log| <= |AfterOps(st, later).log|
              && RoutesMatchAt(Replay(AllMappings(st), AfterOps(st, later).log[|st.log|..]), AfterOps(st, later), p)
    {
      LateSubscriber(history, [], later, p);
    }
  }
}
