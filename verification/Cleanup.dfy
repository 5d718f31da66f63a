/** CleanupExpiredSandboxes over a paginated listing of pods. */
module Cleanup {
  import opened Wrappers
  import opened Ids
  import opened Timed
  import opened Messages
  import opened ProjectStore
  import opened StoreProofs

  datatype Pod = Pod(name: string, created: int)

  /** The identifiers a pass over the pods releases: those created before the cutoff whose name parses. */
  function Expired(pods: seq<Pod>, cutoff: int): seq<SandboxId> {
    if pods == [] then []
    else
      var rest := Expired(pods[1..], cutoff);
      if pods[0].created < cutoff && NewSandboxId(pods[0].name).Some?
      then [NewSandboxId(pods[0].name).value] + rest else rest
  }

  function Concat(pages: seq<seq<Pod>>): seq<Pod> {
    if pages == [] then [] else Concat(pages[..|pages| - 1]) + pages[|pages| - 1]
  }

  /**
   What becomes of one release: how long after the last one it comes, and the fates of its lookup, its pipeline in the
   store, and the deletion of its pod.
   */
  datatype Fate = Fate(elapsed: Time, reachable: bool, executed: nat, acknowledged: bool, deleted: bool)

  /** The store, and the pods whose deletion has not been accepted. */
  datatype World = World(store: Store, pods: set<SandboxId>)

  /** ReleaseSandbox: the errors of the store and of the cluster are logged, and neither keeps the other from acting. */
  function AfterRelease(w: World, s: SandboxId, fate: Fate): World {
    World(AfterFaultyRemove(AfterOp(w.store, Wait(fate.elapsed)), s, fate.reachable, fate.executed),
          if fate.deleted then w.pods - {s} else w.pods)
  }

  /** The world after releasing the sandboxes in order, each with its own fate. */
  function ReleaseAll(w: World, ids: seq<SandboxId>, fates: nat -> Fate): World {
    if ids == [] then w else AfterRelease(ReleaseAll(w, ids[..|ids| - 1], fates), ids[|ids| - 1], fates(|ids| - 1))
  }

  lemma {:induction false} ExpiredDistributes(a: seq<Pod>, b: seq<Pod>, cutoff: int)
    ensures Expired(a + b, cutoff) == Expired(a, cutoff) + Expired(b, cutoff)
  {
    if a == [] {
      assert a + b == b;
    } else {
      assert (a + b)[1..] == a[1..] + b;
      ExpiredDistributes(a[1..], b, cutoff);
    }
  }

  /** A sandbox is released exactly if some pod older than the cutoff bears its name. */
  lemma {:induction false} ExpiredExactly(pods: seq<Pod>, cutoff: int, s: SandboxId)
    ensures s in Expired(pods, cutoff) <==>
              exists pod :: pod in pods && pod.created < cutoff && NewSandboxId(pod.name) == Some(s)
  {
    if pods != [] {
      ExpiredExactly(pods[1..], cutoff, s);
      assert forall pod :: pod in pods <==> pod == pods[0] || pod in pods[1..];
    }
  }

  /** Pods created by the scheduler have distinct prefixed names. */
  ghost predicate AreScheduled(pods: seq<Pod>) {
    && (forall pod <- pods :: HasPrefix(pod.name, SANDBOX_PREFIX))
    && (forall i, j :: 0 <= i < j < |pods| ==> pods[i].name != pods[j].name)
  }

  lemma PrefixedNameOf(name: string, s: SandboxId)
    requires HasPrefix(name, SANDBOX_PREFIX)
    ensures NewSandboxId(name) == Some(s) ==> name == SANDBOX_PREFIX + s
  {
    assert name == SANDBOX_PREFIX + name[|SANDBOX_PREFIX|..];
  }

  /** Then no sandbox is released twice in one pass. */
  lemma {:induction false} ExpiredOnce(pods: seq<Pod>, cutoff: int)
    requires AreScheduled(pods)
    ensures forall i, j :: 0 <= i < j < |Expired(pods, cutoff)| ==> Expired(pods, cutoff)[i] != Expired(pods, cutoff)[j]
  {
    if pods != [] {
      assert AreScheduled(pods[1..]);
      ExpiredOnce(pods[1..], cutoff);
      if pods[0].created < cutoff && NewSandboxId(pods[0].name).Some? {
        var s := NewSandboxId(pods[0].name).value;
        ExpiredExactly(pods[1..], cutoff, s);
        PrefixedNameOf(pods[0].name, s);
        forall pod <- pods[1..]
          ensures NewSandboxId(pod.name) == Some(s) ==> pod.name == SANDBOX_PREFIX + s
        {
          PrefixedNameOf(pod.name, s);
        }
      }
    }
  }

  lemma OneMoreRelease(w: World, ids: seq<SandboxId>, s: SandboxId, fates: nat -> Fate)
    ensures ReleaseAll(w, ids + [s], fates) == AfterRelease(ReleaseAll(w, ids, fates), s, fates(|ids|))
  {
    assert (ids + [s])[..|ids|] == ids;
  }

  /** A removal keeps the store's invariant wherever it is cut off. */
  lemma CutRemovalKeepsInv(st: Store, s: SandboxId, found: Option<ProjectId>, n: nat)
    requires StoreInv(st) && FindProject(st, s) == Success(found)
    ensures StoreInv(RunFirst(st, RemoveJob(s, found, 0), n))
  {
    var job := RemoveJob(s, found, 0);
    if n >= Length(job) {
      RunFirstIsRunJob(st, job, n);
      OpKeepsInv(st, Release(s));
    } else if n > 0 {
      FirstOfRemoval(st, s, found.value);
      hide StoreInv, RunFirst;
      DeletionsKeepInv(st, s, found.value);
      UnindexingKeepsInv(DeleteForward(DeleteReverse(st, s), found.value), found.value);
    }
  }

  lemma DeletionsKeepInv(st: Store, s: SandboxId, p: ProjectId)
    requires StoreInv(st)
    ensures StoreInv(DeleteReverse(st, s)) && StoreInv(DeleteForward(DeleteReverse(st, s), p))
  {
  }

  lemma UnindexingKeepsInv(st: Store, p: ProjectId)
    requires StoreInv(st) && p !in st.forward
    ensures StoreInv(RemoveFromIndex(st, p)) && StoreInv(Publish(RemoveFromIndex(st, p), PrintRemoval(p)))
  {
    var st' := RemoveFromIndex(st, p);
    forall q <- st.forward
      ensures Live(st.forward, q, st.now) ==> IndexLive(st') && q in st'.index.members
    {
      assert Live(st.forward, q, st.now) ==> q in st'.index.members;
    }
  }

  lemma FirstOfRemoval(st: Store, s: SandboxId, p: ProjectId)
    ensures var job := RemoveJob(s, Some(p), 0);
            var s1 := DeleteReverse(st, s);
            var s2 := DeleteForward(s1, p);
            var s3 := RemoveFromIndex(s2, p);
            && RunFirst(st, job, 1) == s1 && RunFirst(st, job, 2) == s2 && RunFirst(st, job, 3) == s3
            && RunFirst(st, job, 4) == Publish(s3, PrintRemoval(p))
  {
    var job := RemoveJob(s, Some(p), 0);
    OneMoreCommand(st, job, 0);
    OneMoreCommand(st, job, 1);
    OneMoreCommand(st, job, 2);
    OneMoreCommand(st, job, 3);
  }

  /** Markers are not given more than their TTL. */
  ghost predicate MarksBounded(st: Store) {
    forall s <- st.released :: st.released[s].deadline <= st.now + RELEASED_TTL
  }

  /** Wherever it is cut off, a removal adds no entry and shortens no marker. */
  lemma {:induction false} CutRemovalFrame(st: Store, s: SandboxId, found: Option<ProjectId>, step: nat, n: nat)
    requires MarksBounded(st)
    ensures var st' := RunFirst(st, RemoveJob(s, found, step), n);
            && st'.now == st.now && MarksBounded(st')
            && (forall t <- st'.reverse :: t in st.reverse && st'.reverse[t] == st.reverse[t])
            && (forall p <- st'.forward :: p in st.forward && st'.forward[p] == st.forward[p])
            && (forall t <- st.released :: t in st'.released && st.released[t].deadline <= st'.released[t].deadline)
    decreases n
  {
    var job := RemoveJob(s, found, step);
    if n > 0 && step < Length(job) {
      CutRemovalFrame(NextCommand(st, job), s, found, step + 1, n - 1);
    }
  }

  /** What a pass keeps of the store. */
  ghost predicate PassInv(st: Store) {
    StoreInv(st) && ReverseParses(st) && MarksBounded(st)
  }

  /** A release that takes full effect. */
  predicate Succeeds(fate: Fate) {
    fate.reachable && fate.executed >= 5
  }

  ghost predicate IsMarkedUntil(st: Store, s: SandboxId, deadline: Time) {
    s in st.released && deadline <= st.released[s].deadline
  }

  lemma ReleaseMarks(w: World, s: SandboxId, fate: Fate, t: SandboxId, deadline: Time)
    requires PassInv(w.store)
    ensures var w' := AfterRelease(w, s, fate);
            && PassInv(w'.store) && w'.store.now == w.store.now + fate.elapsed
            && (IsMarkedUntil(w.store, t, deadline) ==> IsMarkedUntil(w'.store, t, deadline))
            && (s == t && Succeeds(fate) ==> IsMarkedUntil(w'.store, t, w'.store.now + RELEASED_TTL))
  {
    var st := AfterOp(w.store, Wait(fate.elapsed));
    OpKeepsInv(w.store, Wait(fate.elapsed));
    var found := FindProject(st, s).value;
    CutRemovalKeepsInv(st, s, found, fate.executed);
    CutRemovalFrame(st, s, found, 0, fate.executed);
    if Succeeds(fate) {
      RunFirstIsRunJob(st, RemoveJob(s, found, 0), fate.executed);
      RemoveUnfolds(st, s, found);
    }
  }

  /**
   Releases keep the store's invariant whatever fails, and one that succeeds leaves its sandbox marked for five minutes
   from then on, however long the pass goes on.
   */
  lemma {:induction false} ReleasedAreMarked(w: World, ids: seq<SandboxId>, fates: nat -> Fate, s: SandboxId, k: nat)
    requires PassInv(w.store)
    ensures PassInv(ReleaseAll(w, ids, fates).store)
    ensures k < |ids| && ids[k] == s && Succeeds(fates(k)) ==>
              IsMarkedUntil(ReleaseAll(w, ids, fates).store, s,
                            ReleaseAll(w, ids[..k + 1], fates).store.now + RELEASED_TTL)
  {
    if ids != [] {
      var n := |ids| - 1;
      ReleasedAreMarked(w, ids[..n], fates, s, k);
      if k < n {
        assert ids[..n][..k + 1] == ids[..k + 1];
        ReleaseMarks(ReleaseAll(w, ids[..n], fates), ids[n], fates(n), s,
                     ReleaseAll(w, ids[..k + 1], fates).store.now + RELEASED_TTL);
      } else {
        assert ids[..n + 1] == ids;
        ReleaseMarks(ReleaseAll(w, ids[..n], fates), ids[n], fates(n), s, 0);
      }
    }
  }

  /** Neither the sandbox is found for p, if there is such a p, nor a project for the sandbox. */
  predicate IsForgotten(st: Store, s: SandboxId, found: Option<ProjectId>) {
    FindProject(st, s) == Success(None) && (found.Some? ==> LookupForward(st, found.value) == NoSandbox)
  }

  lemma StaysForgotten(w: World, s: SandboxId, fate: Fate, t: SandboxId, found: Option<ProjectId>)
    requires PassInv(w.store) && IsForgotten(w.store, t, found)
    ensures IsForgotten(AfterRelease(w, s, fate).store, t, found)
  {
    var st := AfterOp(w.store, Wait(fate.elapsed));
    if FindProject(st, s).Success? {
      CutRemovalFrame(st, s, FindProject(st, s).value, 0, fate.executed);
    }
  }

  /** And it leaves the project the sandbox had at that time without it, and the sandbox without a project, for good. */
  lemma {:induction false} ReleasedAreForgotten(w: World, ids: seq<SandboxId>, fates: nat -> Fate, k: nat)
    requires PassInv(w.store) && k < |ids| && Succeeds(fates(k))
    ensures var atRelease := AfterOp(ReleaseAll(w, ids[..k], fates).store, Wait(fates(k).elapsed));
            FindProject(atRelease, ids[k]).Success?
            && IsForgotten(ReleaseAll(w, ids, fates).store, ids[k], FindProject(atRelease, ids[k]).value)
  {
    var n := |ids| - 1;
    ReleasedAreMarked(w, ids[..n], fates, ids[k], k);
    var before := ReleaseAll(w, ids[..n], fates);
    if k < n {
      assert ids[..n][..k] == ids[..k];
      ReleasedAreForgotten(w, ids[..n], fates, k);
      var atRelease := AfterOp(ReleaseAll(w, ids[..k], fates).store, Wait(fates(k).elapsed));
      StaysForgotten(before, ids[n], fates(n), ids[k], FindProject(atRelease, ids[k]).value);
    } else {
      var atRelease := AfterOp(before.store, Wait(fates(k).elapsed));
      OpKeepsInv(before.store, Wait(fates(k).elapsed));
      var found := FindProject(atRelease, ids[k]).value;
      RunFirstIsRunJob(atRelease, RemoveJob(ids[k], found, 0), fates(k).executed);
      ReleaseForgets(atRelease, ids[k], found, 0);
    }
  }

  /** A pod is left exactly if every attempt to delete it failed. */
  lemma {:induction false} PodsLeft(w: World, ids: seq<SandboxId>, fates: nat -> Fate, s: SandboxId)
    ensures s in ReleaseAll(w, ids, fates).pods <==>
              s in w.pods && forall k :: 0 <= k < |ids| && ids[k] == s ==> !fates(k).deleted
  {
    if ids != [] {
      var n := |ids| - 1;
      PodsLeft(w, ids[..n], fates, s);
      assert forall k :: 0 <= k < n ==> ids[..n][k] == ids[k];
    }
  }

  /** Filtering page by page equals filtering the whole list. */
  lemma ConcatPage(pages: seq<seq<Pod>>, i: nat, cutoff: int)
    requires i < |pages|
    ensures Expired(Concat(pages[..i + 1]), cutoff) == Expired(Concat(pages[..i]), cutoff) + Expired(pages[i], cutoff)
  {
    assert pages[..i + 1][..i] == pages[..i];
    ExpiredDistributes(Concat(pages[..i]), pages[i], cutoff);
  }

  /** GetPodsOlderThan: one page, filtered, and the token of the next page, if there is one. */
  method GetPodsOlderThan(pages: seq<seq<Pod>>, cutoff: int, token: nat) returns (names: seq<string>, next: Option<nat>)
    requires token < |pages|
    ensures next == if token + 1 < |pages| then Some(token + 1) else None
    ensures ParsedNames(names) == Expired(pages[token], cutoff)
  {
    names := [];
    var page := pages[token];
    for i := 0 to |page|
      invariant ParsedNames(names) == Expired(page[..i], cutoff)
    {
      assert page[..i + 1] == page[..i] + [page[i]];
      ExpiredDistributes(page[..i], [page[i]], cutoff);
      if page[i].created < cutoff {
        ParsedNamesAppend(names, page[i].name);
        names := names + [page[i].name];
      }
    }
    assert page[..|page|] == page;
    next := if token + 1 < |pages| then Some(token + 1) else None;
  }

  function ParsedNames(names: seq<string>): seq<SandboxId> {
    if names == [] then []
    else
      var rest := ParsedNames(names[1..]);
      if NewSandboxId(names[0]).Some? then [NewSandboxId(names[0]).value] + rest else rest
  }

  lemma {:induction false} ParsedNamesAppend(names: seq<string>, name: string)
    ensures ParsedNames(names + [name]) == ParsedNames(names) + ParsedNames([name])
  {
    if names == [] {
      assert names + [name] == [name];
    } else {
      assert (names + [name])[1..] == names[1..] + [name];
      ParsedNamesAppend(names[1..], name);
    }
  }

  /** The scheduler's side of releases: its store, and the pods it has not got deleted. */
  class Scheduler {
    const store: RedisStore
    var pods: set<SandboxId>

    function Value(): World
      reads this, store
    {
      World(store.Value(), pods)
    }

    constructor (store: RedisStore, pods: set<SandboxId>)
      ensures this.store == store && Value() == World(store.Value(), pods)
    {
      this.store, this.pods := store, pods;
    }

    /** ReleaseSandbox: both sides are tried, and no error is returned. */
    method ReleaseSandbox(s: SandboxId, fate: Fate)
      modifies this, store
      ensures Value() == AfterRelease(old(Value()), s, fate)
    {
      store.Wait(fate.elapsed);
      var _ := store.RemoveSandboxMapping(s, fate.reachable, fate.executed, fate.acknowledged);
      if fate.deleted {
        pods := pods - {s};
      }
    }

    /**
     IsSandboxGone: a marker is enough; if there is none, or its lookup fails, the cluster is asked. No pod whose
     deletion was accepted is taken to be there.
     */
    method IsSandboxGone(s: SandboxId, reachable: bool, answered: bool) returns (gone: Result<bool>)
      ensures gone == if reachable && IsReleased(store.Value(), s) then Success(true)
                      else if answered then Success(s !in pods) else Failure
    {
      var released := store.IsSandboxReleased(s, reachable);
      match released {
        case Success(true) => return Success(true);
        case _ =>
      }
      gone := if answered then Success(s !in pods) else Failure;
    }

    /**
     CleanupExpiredSandboxes. failingPage is the listing call that fails, if one does; fates are those of the releases.
     The pass releases exactly what one filter over all pods listed before the failure would, in order, going on after
     releases that fail, and returns how many that were.
     */
    method CleanupExpiredSandboxes(pages: seq<seq<Pod>>, cutoff: int, failingPage: Option<nat>, fates: nat -> Fate)
      returns (totalReleased: nat, ok: bool, ghost deleted: seq<SandboxId>)
      requires pages != []
      modifies this, store
      ensures ok <==> failingPage.None? || failingPage.value >= |pages|
      ensures deleted == Expired(Concat(if ok then pages else pages[..failingPage.value]), cutoff)
      ensures totalReleased == |deleted|
      ensures Value() == ReleaseAll(old(Value()), deleted, fates)
    {
      hide ParsedNames, AfterRelease;
      totalReleased, deleted := 0, [];
      ghost var before := Value();
      var continueToken := 0;
      while true
        invariant continueToken < |pages| && (failingPage.Some? ==> continueToken <= failingPage.value)
        invariant deleted == Expired(Concat(pages[..continueToken]), cutoff) && totalReleased == |deleted|
        invariant Value() == ReleaseAll(before, deleted, fates)
        decreases |pages| - continueToken
      {
        if failingPage == Some(continueToken) {
          return totalReleased, false, deleted;
        }
        var oldPods, next := GetPodsOlderThan(pages, cutoff, continueToken);
        ConcatPage(pages, continueToken, cutoff);
        totalReleased, deleted := ReleaseBatch(oldPods, totalReleased, fates, before, deleted);
        if next.None? {
          assert pages[..continueToken + 1] == pages;
          return totalReleased, true, deleted;
        }
        continueToken := next.value;
      }
    }

    /** The inner loop: every name that parses is released, whatever became of the others. */
    method ReleaseBatch(names: seq<string>, released: nat, fates: nat -> Fate, ghost before: World,
                        ghost deleted: seq<SandboxId>)
      returns (totalReleased: nat, ghost deleted': seq<SandboxId>)
      requires released == |deleted| && Value() == ReleaseAll(before, deleted, fates)
      modifies this, store
      ensures deleted' == deleted + ParsedNames(names) && totalReleased == |deleted'|
      ensures Value() == ReleaseAll(before, deleted', fates)
    {
      hide AfterRelease, ReleaseAll;
      totalReleased, deleted' := released, deleted;
      for i := 0 to |names|
        invariant deleted' == deleted + ParsedNames(names[..i]) && totalReleased == |deleted'|
        invariant Value() == ReleaseAll(before, deleted', fates)
      {
        assert names[..i + 1] == names[..i] + [names[i]];
        ParsedNamesAppend(names[..i], names[i]);
        match NewSandboxId(names[i]) {
          case None =>
          case Some(s) =>
            ReleaseSandbox(s, fates(totalReleased));
            OneMoreRelease(before, deleted', s, fates);
            totalReleased, deleted' := totalReleased + 1, deleted' + [s];
        }
      }
      assert names[..|names|] == names;
    }
  }
}
