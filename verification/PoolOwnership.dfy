/** Every pool sandbox is in exactly one place in every state of every run, so it is handed out at most once. */
module PoolOwnership {
  import opened Wrappers
  import opened Ids
  import opened Pool

  function One(b: bool): nat {
    if b then 1 else 0
  }

  /** How often s has been popped. */
  function Handouts(pops: seq<Pop>, s: SandboxId): nat {
    if pops == [] then 0
    else Handouts(pops[..|pops| - 1], s) + One(pops[|pops| - 1].sandbox == s)
  }

  /** In how many places s is: pending, ready, in the maintainer's hands, popped, lost. */
  function Places(st: State, s: SandboxId): nat {
    One(s in st.pending) + One(s in st.ready) + One(s in InHand(st.phase))
    + Handouts(st.pops, s) + One(s in st.lost)
  }

  ghost predicate Distinct(ids: seq<SandboxId>) {
    forall i, j :: 0 <= i < j < |ids| ==> ids[i] != ids[j]
  }

  ghost predicate Queued(todo: seq<SandboxId>, pending: SortedSet) {
    Distinct(todo) && forall s <- todo :: s in pending
  }

  /** The sandboxes still to be checked are pending, each listed once. */
  ghost predicate TodoOk(st: State) {
    match st.phase
    case Checking(todo) => todo != [] && Queued(todo, st.pending)
    case Removing(todo) => todo != [] && Queued(todo, st.pending)
    case Moving(todo) => todo != [] && Queued(todo[1..], st.pending)
    case Adding(todo, _) => todo != [] && Queued(todo[1..], st.pending)
    case Creating(left) => left > 0
    case Created(left, _) => left > 0
    case AddingPending(left, _, _) => left > 0
    case _ => true
  }

  ghost predicate OwnedOnce(st: State) {
    forall s :: Places(st, s) == One(s in st.made)
  }

  ghost predicate PoolInv(st: State) {
    OwnedOnce(st) && TodoOk(st) && forall s <- st.made :: IsBase36(s)
  }

  lemma {:induction false} ParseAllIsIdentity(members: seq<string>)
    requires forall m <- members :: IsBase36(m)
    ensures ParseAll(members) == members
  {
    if members != [] {
      Base36Parses(members[0]);
      assert members[0] in members;
      ParseAllIsIdentity(members[1..]);
    }
  }

  /** Listed are those members that parse, each as what it parses to. */
  lemma {:induction false} ParseAllExactly(members: seq<string>, s: SandboxId)
    ensures s in ParseAll(members) <==> exists m :: m in members && NewSandboxId(m) == Some(s)
  {
    if members != [] {
      ParseAllExactly(members[1..], s);
      assert forall m :: m in members <==> m == members[0] || m in members[1..];
    }
  }

  lemma HandoutsAppend(pops: seq<Pop>, p: Pop, s: SandboxId)
    ensures Handouts(pops + [p], s) == Handouts(pops, s) + One(p.sandbox == s)
  {
    assert (pops + [p])[..|pops|] == pops;
  }

  lemma ListedAreBase36(st: State, members: seq<string>)
    requires PoolInv(st) && IsListing(members, st.pending)
    ensures forall m <- members :: IsBase36(m)
  {
    forall m <- members
      ensures IsBase36(m)
    {
      assert Places(st, m) == One(m in st.made);
    }
  }

  lemma TailStaysQueued(todo: seq<SandboxId>, pending: SortedSet)
    requires todo != [] && Queued(todo, pending)
    ensures Queued(todo[1..], pending) && Queued(todo[1..], pending - {todo[0]})
  {
    assert forall s <- todo[1..] :: s in todo;
    assert forall i :: 1 <= i < |todo| ==> todo[i] != todo[0];
  }

  predicate IsChecking(e: Event) {
    e.CheckReady? || e.Remove? || e.Stamp? || e.Add?
  }

  lemma TodoCheckingStep(st: State, e: Event)
    requires TodoOk(st) && Enabled(st, e) && IsChecking(e)
    ensures TodoOk(Apply(st, e))
  {
    if e.CheckReady? || e.Remove? {
      TailStaysQueued(st.phase.todo, st.pending);
    }
  }

  lemma TodoStep(st: State, e: Event)
    requires TodoOk(st) && Enabled(st, e)
    requires e.List? ==> forall m <- e.members :: IsBase36(m)
    ensures TodoOk(Apply(st, e))
  {
    if IsChecking(e) {
      TodoCheckingStep(st, e);
    } else if e.List? {
      ParseAllIsIdentity(e.members);
    }
  }

  /** A step of the checking loop moves the head of todo at most. */
  lemma CheckingPlaces(st: State, e: Event, s: SandboxId)
    requires TodoOk(st) && Enabled(st, e) && (e.List? || HasTodo(st.phase)) && !e.PopMin?
    requires Places(st, s) == One(s in st.made)
    ensures Places(Apply(st, e), s) == One(s in Apply(st, e).made)
  {
    hide Handouts, ParseAll;
    if HasTodo(st.phase) && s != st.phase.todo[0] {
      assert s !in InHand(st.phase) && s !in InHand(Apply(st, e).phase);
    }
  }

  /** A made sandbox is in hand until it is pending or lost. */
  lemma CreationPlaces(st: State, e: Event, s: SandboxId)
    requires Enabled(st, e) && IsFresh(st, e) && (e.Make? || e.AddPending?)
    requires Places(st, s) == One(s in st.made)
    ensures Places(Apply(st, e), s) == One(s in Apply(st, e).made)
  {
    hide Handouts;
  }

  lemma OtherPlaces(st: State, e: Event, s: SandboxId)
    requires TodoOk(st) && Enabled(st, e) && !HasTodo(st.phase)
    requires !e.List? && !e.PopMin? && !e.Make? && !e.AddPending?
    requires Places(st, s) == One(s in st.made)
    ensures Places(Apply(st, e), s) == One(s in Apply(st, e).made)
  {
    hide Handouts, Queued;
  }

  /** One step moves one sandbox at most, from one place to another, or introduces a new one. */
  lemma PlacesStep(st: State, e: Event, s: SandboxId)
    requires TodoOk(st) && Enabled(st, e) && IsFresh(st, e)
    requires Places(st, s) == One(s in st.made)
    ensures Places(Apply(st, e), s) == One(s in Apply(st, e).made)
  {
    if e.PopMin? {
      HandoutsAppend(st.pops, Pop(e.sandbox, st.ready[e.sandbox], e.taker, e.delivered), s);
    } else if e.List? || HasTodo(st.phase) {
      CheckingPlaces(st, e, s);
    } else if e.Make? || e.AddPending? {
      CreationPlaces(st, e, s);
    } else {
      OtherPlaces(st, e, s);
    }
  }

  lemma PoolStep(st: State, e: Event)
    requires PoolInv(st) && Enabled(st, e) && IsFresh(st, e)
    ensures PoolInv(Apply(st, e))
  {
    if e.List? {
      ListedAreBase36(st, e.members);
    }
    TodoStep(st, e);
    forall s
      ensures Places(Apply(st, e), s) == One(s in Apply(st, e).made)
    {
      assert Places(st, s) == One(s in st.made);
      PlacesStep(st, e, s);
    }
  }

  /**
   Conservation over whole runs: at command granularity, with failures, lost replies and crashes anywhere, a sandbox
   made for the pool is in exactly one of pending, in hand, ready, popped or lost, and any other is in none.
   */
  lemma {:induction false} Conservation(r: Run, i: nat)
    requires IsRun(r) && i < |r.states| && PoolInv(r.states[0])
    ensures PoolInv(r.states[i])
    ensures forall s :: Places(r.states[i], s) == One(s in r.states[i].made)
  {
    if i > 0 {
      Conservation(r, i - 1);
      assert IsStep(r, i - 1);
      PoolStep(r.states[i - 1], r.events[i - 1]);
    }
  }

  lemma {:induction false} HandoutsAtLeast(pops: seq<Pop>, a: nat, b: nat)
    requires a < b < |pops| && pops[a].sandbox == pops[b].sandbox
    ensures Handouts(pops, pops[a].sandbox) >= 2
  {
    var n := |pops| - 1;
    if b < n {
      HandoutsAtLeast(pops[..n], a, b);
    } else {
      HandoutsPositive(pops[..n], a);
    }
  }

  lemma {:induction false} HandoutsPositive(pops: seq<Pop>, a: nat)
    requires a < |pops|
    ensures Handouts(pops, pops[a].sandbox) >= 1
  {
    var n := |pops| - 1;
    if a < n {
      HandoutsPositive(pops[..n], a);
    }
  }

  /** Two pops never name the same sandbox, and a popped one is no longer in either set. */
  lemma HandedOutOnce(st: State, a: nat, b: nat)
    requires PoolInv(st) && a <= b < |st.pops|
    ensures a < b ==> st.pops[a].sandbox != st.pops[b].sandbox
    ensures st.pops[a].sandbox in st.made && st.pops[a].sandbox !in st.ready && st.pops[a].sandbox !in st.pending
  {
    var s := st.pops[a].sandbox;
    HandoutsPositive(st.pops, a);
    assert Places(st, s) == One(s in st.made);
    if a < b && s == st.pops[b].sandbox {
      HandoutsAtLeast(st.pops, a, b);
    }
  }

  /** Over a whole run: no sandbox is handed out twice, to the same caller or to two. */
  lemma AtMostOneHandOut(r: Run, i: nat, a: nat, b: nat)
    requires IsRun(r) && i < |r.states| && PoolInv(r.states[0])
    requires a < b < |r.states[i].pops|
    ensures r.states[i].pops[a].sandbox != r.states[i].pops[b].sandbox
  {
    Conservation(r, i);
    HandedOutOnce(r.states[i], a, b);
  }
}
