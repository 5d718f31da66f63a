/**
 ClaimOrWait and ScheduleSandbox in the shape of the source, over the shared state of the protocol. Between any two
 commands other calls may take any number of steps; every command may fail. Each command issued is a step of the
 protocol, so the methods below are callers of the kind the whole-run lemmas speak about.
 */
module ClaimService {
  import opened Wrappers
  import opened Ids
  import opened Timed
  import opened Claims
  import opened ClaimProofs

  /** A command's reply or its error; timeouts are told apart as IsTimeout does. */
  datatype Answer<+T> = Ok(value: T) | Error(timeout: bool)

  /** ClaimOrWait's three outcomes. */
  datatype ClaimResult = HasSandbox(sandbox: SandboxId) | WonClaim | ClaimError(timeout: bool)

  ghost predicate Continues(a: Run, b: Run) {
    a.events <= b.events && a.states <= b.states
  }

  /** b continues a by steps that are not call c's. */
  ghost predicate ContinuesWithout(a: Run, b: Run, c: CallId) {
    Continues(a, b) && forall m :: |a.events| <= m < |b.events| ==> !IsBy(b.events[m], c)
  }

  /** Whatever the others do, call c stays where it is and the clock does not run back. */
  lemma {:induction false} OthersLeaveCallAlone(a: Run, b: Run, c: CallId)
    requires IsRun(a) && IsRun(b) && ContinuesWithout(a, b, c)
    ensures c in Last(b).calls <==> c in Last(a).calls
    ensures c in Last(a).calls ==> Last(b).calls[c] == Last(a).calls[c]
    ensures Last(a).now <= Last(b).now && Last(a).created.Keys <= Last(b).created.Keys
    decreases |b.events|
  {
    var n := |b.events|;
    if |a.events| < n {
      var shorter := Run(b.states[..n], b.events[..n - 1]);
      forall i: nat | i < n - 1
        ensures IsStep(shorter, i)
      {
        assert IsStep(b, i);
      }
      assert IsStep(b, n - 1);
      OthersLeaveCallAlone(a, shorter, c);
      BystanderKeeps(b.states[n - 1], b.events[n - 1], c);
    } else {
      assert a.states == b.states;
    }
  }

  /** The store told call c to go on waiting: it found no result where it looked for one, and a live marker likewise. */
  predicate FindsNothing(st: State, e: Event, c: CallId) {
    c in st.calls ==>
      var key := st.calls[c].key;
      && (e == Lookup(c) ==> Claims.GetSandboxId(st.store, st.now, key).NotFound?)
      && (e == Mark(c) || e == CheckMarker(c) ==> MarkerExists(st.store, st.now, key))
  }

  /** It did so each time c asked on the way from run a to run b. */
  ghost predicate WaitsInVain(a: Run, b: Run, c: CallId) {
    && Continues(a, b) && |b.events| < |b.states|
    && forall m: nat :: |a.events| <= m < |b.events| ==> FindsNothing(b.states[m], b.events[m], c)
  }

  lemma InVainOnAndOn(a: Run, b: Run, d: Run, c: CallId)
    requires WaitsInVain(a, b, c) && WaitsInVain(b, d, c)
    ensures WaitsInVain(a, d, c)
  {
    forall m: nat | |a.events| <= m < |d.events|
      ensures FindsNothing(d.states[m], d.events[m], c)
    {
      assert m < |b.events| ==> d.states[m] == b.states[m] && d.events[m] == b.events[m];
    }
  }

  /** The completion of a claim put s under the key for ten minutes, with the way back, and took the marker away. */
  ghost predicate StoresResult(before: State, after: State, key: string, s: SandboxId) {
    && key in after.store.results && after.store.results[key] == Entry(s, before.now + 600_000)
    && s in after.store.owners && after.store.owners[s] == Entry(key, before.now + 600_000)
    && key !in after.store.markers
  }

  /** Call c completed its claim with s, and was told so. */
  ghost predicate HasCompleted(r: Run, c: CallId, key: string, s: SandboxId) {
    exists m: nat :: CompletesAt(r, m, c, key, s)
  }

  ghost predicate CompletesAt(r: Run, m: nat, c: CallId, key: string, s: SandboxId) {
    && m < |r.events| && m + 1 < |r.states| && r.events[m] == Complete(c, Answered)
    && StoresResult(r.states[m], r.states[m + 1], key, s)
  }

  lemma HasCompletedLasts(a: Run, b: Run, c: CallId, key: string, s: SandboxId)
    requires HasCompleted(a, c, key, s) && Continues(a, b)
    ensures HasCompleted(b, c, key, s)
  {
    var m: nat :| CompletesAt(a, m, c, key, s);
    assert CompletesAt(b, m, c, key, s);
  }

  function TimeLeft(now: Time, deadline: Time): Time {
    if now < deadline then deadline - now else 0
  }

  /** A wait that ended without a result and without a timeout had a reason: no live marker, or an unreadable result. */
  ghost predicate GaveUpRightly(st: State, key: string) {
    !MarkerExists(st.store, st.now, key) || Claims.GetSandboxId(st.store, st.now, key).Unreadable?
  }

  class Scheduler {
    /** No command of this caller fails before its deadline, and its context is not cancelled. */
    const reliable: bool
    var st: State
    ghost var run: Run
    /** How long this caller has itself let time pass; others take their time in between. */
    ghost var waited: nat

    /** The shared state is the last state of a run of the protocol. */
    ghost predicate Valid()
      reads this
    {
      IsRun(run) && Last(run) == st
    }

    constructor (reliable: bool)
      ensures Valid() && st == INITIAL && this.reliable == reliable
    {
      this.reliable := reliable;
      st := INITIAL;
      run := Run([INITIAL], []);
      waited := 0;
    }

    /** One command takes effect. */
    method Do(e: Event)
      requires Valid() && Enabled(st, e) && !e.Tick?
      modifies `st, `run
      ensures Valid() && run == Extend(old(run), e) && st == Apply(old(st), e)
      ensures forall c :: FindsNothing(old(st), e, c) ==> WaitsInVain(old(run), run, c)
    {
      ExtendIsRun(run, e);
      run := Extend(run, e);
      st := Apply(st, e);
    }

    /** The caller waits for the clock. */
    method Sleep(d: Time)
      requires Valid()
      modifies this
      ensures Valid() && run == Extend(old(run), Tick(d)) && st == old(st).(now := old(st.now) + d)
      ensures waited == old(waited) + d
      ensures forall c :: WaitsInVain(old(run), run, c)
    {
      ExtendIsRun(run, Tick(d));
      run := Extend(run, Tick(d));
      st := Apply(st, Tick(d));
      waited := waited + d;
    }

    /**
     Any number of steps of the clock and of other calls. Callers know its contract only, which every continuation meets
     (OthersLeaveCallAlone); this one takes no step.
     */
    method Others(ghost c: CallId)
      requires Valid()
      modifies `st, `run
      ensures Valid() && ContinuesWithout(old(run), run, c) && WaitsInVain(old(run), run, c)
      ensures c in st.calls <==> c in old(st.calls)
      ensures c in st.calls ==> st.calls[c] == old(st.calls[c])
      ensures old(st.now) <= st.now && old(st.created.Keys) <= st.created.Keys
    {
      OthersLeaveCallAlone(run, run, c);
    }

    /** What becomes of a command. */
    method Fate() returns (reply: Reply)
      ensures reliable ==> reply.Answered?
    {
      reply := *;
      if reliable {
        reply := Answered;
      }
    }

    /** GetSandboxID; on an expired context every command fails with a timeout. */
    method GetSandboxId(c: CallId, deadline: Time) returns (a: Answer<Option<SandboxId>>)
      requires Valid() && c in st.calls
      requires var p := st.calls[c].phase; p.LookingUp? || p.Awaiting? || p.Polling?
      modifies `st, `run
      ensures a == Ok(None) || a == Error(true) ==> WaitsInVain(old(run), run, c)
      ensures Valid() && c in st.calls && old(st.now) <= st.now
      ensures a.Ok? ==> old(st.now) < deadline
      ensures reliable && old(st.now) < deadline ==>
                a == match Claims.GetSandboxId(old(st.store), old(st.now), old(st.calls[c].key))
                     case NotFound => Ok(None)
                     case Found(s) => Ok(Some(s))
                     case Unreadable => Error(false)
      ensures a == Error(true) && reliable ==> deadline <= st.now
      ensures a == Error(false) && reliable ==> Claims.GetSandboxId(st.store, st.now, st.calls[c].key).Unreadable?
      ensures match a
              case Error(timeout) => st.calls[c] == AfterFault(old(st.calls[c]), timeout)
              case Ok(None) => st.calls[c] == AfterLookup(old(st.calls[c]), NotFound)
              case Ok(Some(s)) => st.calls[c] == AfterLookup(old(st.calls[c]), Found(s))
    {
      var reply := Fate();
      if st.now >= deadline || !reply.Answered? {
        var timeout: bool := *;
        timeout := timeout || st.now >= deadline;
        Do(Fault(c, timeout));
        return Error(timeout);
      }
      match Claims.GetSandboxId(st.store, st.now, st.calls[c].key) {
        case NotFound => a := Ok(None);
        case Found(s) => a := Ok(Some(s));
        case Unreadable => a := Error(false);
      }
      Do(Lookup(c));
    }

    /** MarkPendingCreation: SETNX of the pending key; on an expired context it fails, or its reply is lost. */
    method MarkPendingCreation(c: CallId, deadline: Time) returns (a: Answer<bool>)
      requires Valid() && c in st.calls && st.calls[c].phase.Marking?
      modifies `st, `run
      ensures a != Ok(true) ==> WaitsInVain(old(run), run, c)
      ensures a.Ok? ==> st.store == if !a.value then old(st.store) else old(st.store).(
                          markers := old(st.store.markers)[old(st.calls[c].key) := Entry("1", old(st.now) + 60_000)])
      ensures Valid() && c in st.calls && old(st.now) <= st.now
      ensures match a
              case Error(timeout) => st.calls[c] == AfterFault(old(st.calls[c]), timeout)
              case Ok(true) =>
                st.calls[c] == old(st.calls[c]).(phase := Creating, claim := Claimed(old(st.now) + PENDING_KEY_TTL))
              case Ok(false) => st.calls[c] == old(st.calls[c]).(phase := Awaiting)
      ensures a.Ok? ==> a.value == !MarkerExists(old(st.store), old(st.now), old(st.calls[c].key))
      ensures a.Ok? ==> old(st.now) < deadline
      ensures reliable ==> (a.Ok? <==> old(st.now) < deadline) && a != Error(false)
    {
      var reply := Fate();
      var timeout: bool := *;
      if st.now >= deadline {
        timeout := true;
        reply := if reply.Answered? then Rejected else reply;
      }
      match reply {
        case Answered =>
          a := Ok(!MarkerExists(st.store, st.now, st.calls[c].key));
          Do(Mark(c));
        case Lost =>
          a := Error(timeout);
          Do(MarkLost(c, timeout));
        case Rejected =>
          a := Error(timeout);
          Do(Fault(c, timeout));
      }
    }

    /** awaitIdempotenceCompletion: one immediate lookup, then a lookup and a marker check per tick. */
    method AwaitIdempotenceCompletion(c: CallId, deadline: Time) returns (a: Answer<SandboxId>)
      requires Valid() && c in st.calls && st.calls[c].phase.Awaiting?
      modifies this
      ensures Valid() && c in st.calls && old(st.now) <= st.now
      ensures EndsWait(old(st.calls[c]), st, c, a, deadline)
      ensures a == Error(true) ==> WaitsInVain(old(run), run, c)
      ensures waited <= old(waited) + TimeLeft(old(st.now), deadline) + 200
    {
      hide IsRun, ContinuesWithout, WaitsInVain;
      var first := GetSandboxId(c, deadline);
      match first {
        case Ok(Some(s)) => return Ok(s);
        case Error(timeout) => return Error(timeout);
        case Ok(None) =>
      }
      var polled := None;
      while polled.None?
        invariant Valid() && c in st.calls && old(st.now) <= st.now
        invariant polled.None? ==> st.calls[c] == old(st.calls[c]).(phase := Sleeping)
        invariant waited <= old(waited) + TimeLeft(old(st.now), deadline) + if polled.None? then 0 else 200
        invariant waited - old(waited) <= st.now - old(st.now)
        invariant polled.Some? ==> EndsWait(old(st.calls[c]), st, c, polled.value, deadline)
        invariant polled.None? || polled == Some(Error(true)) ==> WaitsInVain(old(run), run, c)
        decreases polled.None?, if st.now < deadline then deadline - st.now else 0
      {
        ghost var before := run;
        polled := Poll(c, deadline);
        if polled.None? || polled == Some(Error(true)) {
          InVainOnAndOn(old(run), before, run, c);
        }
      }
      a := polled.value;
    }

    /** How a wait ends for the call that began it as the given one. */
    ghost predicate EndsWait(before: Call, st: State, c: CallId, a: Answer<SandboxId>, deadline: Time)
      requires c in st.calls
    {
      && (st.calls[c] == match a
                         case Ok(s) => before.(phase := Dropping(Success(s)))
                         case Error(timeout) => AfterFault(before, timeout))
      && (reliable && a == Error(true) ==> deadline <= st.now)
      && (reliable && a == Error(false) ==> GaveUpRightly(st, st.calls[c].key))
    }

    /**
     The select: a tick after 200 ms, or the end of the context by deadline or cancellation, which takes effect at once.
     */
    method AwaitTick(c: CallId, deadline: Time) returns (ticked: bool)
      requires Valid() && c in st.calls && st.calls[c].phase.Sleeping?
      modifies this
      ensures Valid() && c in st.calls && old(st.now) <= st.now && WaitsInVain(old(run), run, c)
      ensures if ticked
              then st.calls[c] == old(st.calls[c]).(phase := Polling) && waited == old(waited) + 200
              else st.calls[c] == AfterFault(old(st.calls[c]), true) && (reliable ==> deadline <= st.now)
                   && old(waited) <= waited <= old(waited) + 200
      ensures waited - old(waited) <= st.now - old(st.now)
      ensures ticked ==> old(st.now) + 200 <= st.now
    {
      hide IsRun, ContinuesWithout, WaitsInVain;
      ghost var r0 := run;
      Others(c);
      ghost var r1 := run;
      var pause: int := *;
      if !(0 <= pause <= POLL_INTERVAL) {
        pause := POLL_INTERVAL;
      }
      Sleep(pause);
      InVainOnAndOn(r0, r1, run, c);
      r1 := run;
      var contextDone := IsContextDone(deadline);
      if contextDone {
        Do(Expire(c));
        InVainOnAndOn(r0, r1, run, c);
        return false;
      }
      Sleep(POLL_INTERVAL - pause);
      InVainOnAndOn(r0, r1, run, c);
      r1 := run;
      Do(Wake(c));
      InVainOnAndOn(r0, r1, run, c);
      ticked := true;
    }

    /** One pass of the loop: the end of the context, or a tick, a lookup and, if that finds nothing, a marker check. */
    method Poll(c: CallId, deadline: Time) returns (a: Option<Answer<SandboxId>>)
      requires Valid() && c in st.calls && st.calls[c].phase.Sleeping?
      modifies this
      ensures Valid() && c in st.calls && old(st.now) <= st.now
      ensures match a
              case None => st.calls[c] == old(st.calls[c]) && old(st.now) < deadline && old(st.now) < st.now
              case Some(b) => EndsWait(old(st.calls[c]), st, c, b, deadline)
      ensures a.None? || a == Some(Error(true)) ==> WaitsInVain(old(run), run, c)
      ensures old(waited) <= waited <= old(waited) + 200 && (a.None? ==> waited == old(waited) + 200)
      ensures waited - old(waited) <= st.now - old(st.now)
      ensures a.None? ==> waited - old(waited) < deadline - old(st.now)
    {
      hide IsRun, ContinuesWithout, WaitsInVain;
      var ticked := AwaitTick(c, deadline);
      if !ticked {
        return Some(Error(true));
      }
      ghost var r1 := run;
      var polled := GetSandboxId(c, deadline);
      if polled == Ok(None) || polled == Error(true) {
        InVainOnAndOn(old(run), r1, run, c);
      }
      match polled {
        case Ok(Some(s)) => a := Some(Ok(s));
        case Error(timeout) => a := Some(Error(timeout));
        case Ok(None) =>
          r1 := run;
          a := CheckMarkerExists(c, deadline);
          if a.None? || a == Some(Error(true)) {
            InVainOnAndOn(old(run), r1, run, c);
          }
      }
    }

    /** Whether the select sees the context done: possible once it is cancelled, or its deadline past. */
    method IsContextDone(deadline: Time) returns (done: bool)
      ensures done && reliable ==> deadline <= st.now
    {
      done := *;
      done := done && (deadline <= st.now || !reliable);
    }

    /** EXISTS of the pending key: without it the wait is over. On an expired context it fails. */
    method CheckMarkerExists(c: CallId, deadline: Time) returns (a: Option<Answer<SandboxId>>)
      requires Valid() && c in st.calls && st.calls[c].phase.CheckingMarker?
      modifies `st, `run
      ensures a.None? || a == Some(Error(true)) ==> WaitsInVain(old(run), run, c)
      ensures Valid() && c in st.calls && old(st.now) <= st.now
      ensures a.None? ==> old(st.now) < deadline && MarkerExists(st.store, st.now, st.calls[c].key)
      ensures reliable && a.Some? ==>
                if a.value == Error(true) then deadline <= st.now
                else !MarkerExists(st.store, st.now, st.calls[c].key)
      ensures match a
              case None => st.calls[c] == old(st.calls[c]).(phase := Sleeping)
              case Some(Error(timeout)) => st.calls[c] == AfterFault(old(st.calls[c]), timeout)
              case Some(Ok(_)) => false
    {
      ghost var r0 := run;
      Others(c);
      ghost var r1 := run;
      var reply := Fate();
      if st.now >= deadline || !reply.Answered? {
        var timeout: bool := *;
        timeout := timeout || st.now >= deadline;
        Do(Fault(c, timeout));
        InVainOnAndOn(r0, r1, run, c);
        return Some(Error(timeout));
      }
      var markerExists := MarkerExists(st.store, st.now, st.calls[c].key);
      Do(CheckMarker(c));
      if markerExists {
        InVainOnAndOn(r0, r1, run, c);
      }
      a := if markerExists then None else Some(Error(false));
    }

    /** ClaimOrWait: look up, try to mark, otherwise wait. It ends in one of its three outcomes and no other. */
    method ClaimOrWait(c: CallId, deadline: Time) returns (result: ClaimResult)
      requires Valid() && c in st.calls && st.calls[c].phase.LookingUp? && st.calls[c].claim.Unclaimed?
      modifies this
      ensures Valid() && c in st.calls && old(st.now) <= st.now
      ensures st.calls[c].key == old(st.calls[c].key) && st.calls[c].completed == old(st.calls[c].completed)
      ensures result.WonClaim? <==> st.calls[c].claim.Claimed?
      ensures reliable && old(st.now) < deadline ==>
                match Claims.GetSandboxId(old(st.store), old(st.now), old(st.calls[c].key))
                case Found(s) => result == HasSandbox(s)
                case Unreadable => result == ClaimError(false)
                case NotFound => true
      ensures result == ClaimError(true) ==> WaitsInVain(old(run), run, c) && (reliable ==> deadline <= st.now)
      ensures waited <= old(waited) + TimeLeft(old(st.now), deadline) + 200
      ensures reliable && result == ClaimError(false) ==> GaveUpRightly(st, st.calls[c].key)
      ensures st.calls[c].phase == match result
                                   case HasSandbox(s) => Dropping(Success(s))
                                   case WonClaim => Creating
                                   case ClaimError(timeout) => if timeout then Dropping(Failure) else Creating
    {
      hide IsRun, ContinuesWithout, WaitsInVain;
      var existing := GetSandboxId(c, deadline);
      match existing {
        case Ok(Some(s)) => return HasSandbox(s);
        case Error(timeout) => return ClaimError(timeout);
        case Ok(None) =>
      }
      ghost var r1 := run;
      result := MarkOrWait(c, deadline);
      if result == ClaimError(true) {
        InVainOnAndOn(old(run), r1, run, c);
      }
    }

    /** The SETNX and, if another call holds the marker, the wait for that call. */
    method MarkOrWait(c: CallId, deadline: Time) returns (result: ClaimResult)
      requires Valid() && c in st.calls && st.calls[c].phase.Marking? && st.calls[c].claim.Unclaimed?
      modifies this
      ensures Valid() && c in st.calls && old(st.now) <= st.now
      ensures st.calls[c].key == old(st.calls[c].key) && st.calls[c].completed == old(st.calls[c].completed)
      ensures result.WonClaim? <==> st.calls[c].claim.Claimed?
      ensures result == ClaimError(true) ==> WaitsInVain(old(run), run, c) && (reliable ==> deadline <= st.now)
      ensures waited <= old(waited) + TimeLeft(old(st.now), deadline) + 200
      ensures reliable && result == ClaimError(false) ==> GaveUpRightly(st, st.calls[c].key)
      ensures st.calls[c].phase == match result
                                   case HasSandbox(s) => Dropping(Success(s))
                                   case WonClaim => Creating
                                   case ClaimError(timeout) => if timeout then Dropping(Failure) else Creating
    {
      hide IsRun, ContinuesWithout, WaitsInVain;
      ghost var r0 := run;
      Others(c);
      ghost var r1 := run;
      var marked := MarkPendingCreation(c, deadline);
      if marked != Ok(true) {
        InVainOnAndOn(r0, r1, run, c);
      }
      match marked {
        case Error(timeout) => return ClaimError(timeout);
        case Ok(true) => return WonClaim;
        case Ok(false) =>
      }
      r1 := run;
      Others(c);
      InVainOnAndOn(r0, r1, run, c);
      r1 := run;
      var polled := AwaitIdempotenceCompletion(c, deadline);
      match polled {
        case Ok(s) => result := HasSandbox(s);
        case Error(timeout) => result := ClaimError(timeout);
      }
      if polled == Error(true) {
        InVainOnAndOn(r0, r1, run, c);
      }
    }

    /** The cluster's pod creation under a generated name; a name that is malformed or was used before is refused. */
    method CreatePod(c: CallId, name: SandboxId) returns (ok: bool)
      requires Valid() && c in st.calls && st.calls[c].phase.Creating?
      modifies `st, `run
      ensures Valid() && c in st.calls && st.now == old(st.now)
      ensures !ok && reliable ==> st.created == old(st.created)
      ensures st.calls[c] == old(st.calls[c]).(phase := if ok then Completing(name) else Dropping(Failure))
      ensures ok ==> name in st.created && st.created[name] == c && name !in old(st.created)
      ensures reliable ==> (ok <==> IsBase36(name) && name !in old(st.created))
    {
      var reply := Fate();
      if reply.Rejected? || !IsBase36(name) || name in st.created {
        ok := false;
        Do(CreateFail(c));
      } else if reply.Lost? {
        ok := false;
        Do(CreateLost(c, name));
      } else {
        ok := true;
        Do(Create(c, name));
      }
    }

    /** The claim-or-wait part of ScheduleSandbox, up to the point where the pod is to be made or the call returns. */
    method BeginSchedule(c: CallId, key: string) returns (result: ClaimResult)
      requires Valid() && c !in st.calls && key != ""
      modifies this
      ensures Valid() && c in st.calls && st.calls[c].key == key && old(st.now) <= st.now
      ensures result.WonClaim? <==> st.calls[c].claim.Claimed?
      ensures !st.calls[c].completed
      ensures result == ClaimError(true) ==>
                WaitsInVain(old(run), run, c) && (reliable ==> old(st.now) + 10_000 <= st.now)
      ensures waited <= old(waited) + 10_200
      ensures reliable && result == ClaimError(false) ==> GaveUpRightly(st, key)
      ensures st.calls[c].phase == match result
                                   case HasSandbox(s) => Dropping(Success(s))
                                   case WonClaim => Creating
                                   case ClaimError(timeout) => if timeout then Dropping(Failure) else Creating
    {
      hide IsRun, ContinuesWithout, WaitsInVain;
      Do(Begin(c, key));
      ghost var r1 := run;
      var deadline := st.now + CLAIM_TIMEOUT;
      Others(c);
      InVainOnAndOn(old(run), r1, run, c);
      r1 := run;
      result := ClaimOrWait(c, deadline);
      if result == ClaimError(true) {
        InVainOnAndOn(old(run), r1, run, c);
      }
    }

    /**
     Complete, then the deferred Drop, after the pod was made. When nothing fails a call that won the marker stores its
     sandbox for ten minutes.
     */
    method CompleteAndDrop(c: CallId)
      requires Valid() && c in st.calls && st.calls[c].phase.Completing?
      modifies `st, `run
      ensures Valid() && c in st.calls && st.calls[c].key == old(st.calls[c].key)
      ensures st.calls[c].phase == Finished(Success(old(st.calls[c].phase.sandbox)))
      ensures st.calls[c].claim == old(st.calls[c].claim) && old(st.now) <= st.now
      ensures reliable && old(MayWrite(st.calls[c])) ==>
                st.calls[c].completed
                && HasCompleted(run, c, old(st.calls[c].key), old(st.calls[c].phase.sandbox))
    {
      hide IsRun, HasCompleted, WaitsInVain;
      Others(c);
      ghost var key, s := st.calls[c].key, st.calls[c].phase.sandbox;
      CompleteClaim(c);
      ghost var after := run;
      DropClaim(c);
      if reliable && old(MayWrite(st.calls[c])) {
        HasCompletedLasts(after, run, c, key, s);
      }
    }

    /** ClaimResult.Complete. */
    method CompleteClaim(c: CallId)
      requires Valid() && c in st.calls && st.calls[c].phase.Completing?
      modifies `st, `run
      ensures Valid() && c in st.calls && st.now == old(st.now)
      ensures st.calls[c] == old(st.calls[c]).(phase := Dropping(Success(old(st.calls[c].phase.sandbox))),
                                               completed := st.calls[c].completed)
      ensures reliable && old(MayWrite(st.calls[c])) ==>
                st.calls[c].completed
                && HasCompleted(run, c, old(st.calls[c].key), old(st.calls[c].phase.sandbox))
    {
      var reply := Fate();
      ghost var was := run;
      Do(Complete(c, reply));
      if reliable && old(MayWrite(st.calls[c])) {
        assert CompletesAt(run, |was.events|, c, old(st.calls[c].key), old(st.calls[c].phase.sandbox));
      }
    }

    /** The deferred Drop. When nothing fails, the key of a claim that was not completed has no marker left. */
    method DropClaim(c: CallId)
      requires Valid() && c in st.calls && st.calls[c].phase.Dropping?
      modifies `st, `run
      ensures Valid() && c in st.calls && Continues(old(run), run)
      ensures st.calls[c] == old(st.calls[c]).(phase := Finished(old(st.calls[c].phase.result)))
      ensures old(st.now) <= st.now && old(st.created.Keys) <= st.created.Keys
      ensures reliable && old(MayWrite(st.calls[c])) ==> st.calls[c].key !in st.store.markers
      ensures WaitsInVain(old(run), run, c)
    {
      Others(c);
      ghost var r1 := run;
      var reply := Fate();
      Do(Drop(c, reply));
      InVainOnAndOn(old(run), r1, run, c);
    }

    /**
     ScheduleSandbox. podName is the generated identifier. Whatever the other calls do and whichever commands
     fail, the call runs to its end as a call of the protocol, and a sandbox it returns was made for this very key, by
     this call or by a claimer whose completion stored it. When nothing fails, a call that won the marker either stores
     its sandbox or leaves no marker behind, and one that did not win fails only if the store told it to wait for ten
     seconds, or its pod name is unusable. Longer than that, and a tick, it does not wait.
     */
    method ScheduleSandbox(c: CallId, key: string, podName: SandboxId) returns (r: Result<SandboxId>)
      requires Valid() && c !in st.calls
      modifies this
      ensures Valid()
      ensures key == "" ==> r == Failure && st == old(st)
      ensures key != "" ==> c in st.calls && st.calls[c].key == key && st.calls[c].phase == Finished(r)
      ensures r.Success? ==> MadeFor(st, r.value, key)
                             && (st.created[r.value] == c || Committed(st, r.value))
      ensures reliable && key != "" && r.Failure? ==>
                (old(st.now) + 10_000 <= st.now && WaitsInVain(old(run), run, c) && st.calls[c].claim.Unclaimed?)
                || !IsBase36(podName) || podName in st.created
      ensures reliable && r.Success? && st.calls[c].claim.Claimed? ==>
                r.value == podName && st.calls[c].completed && HasCompleted(run, c, key, podName)
      ensures reliable && key != "" && r.Failure? && st.calls[c].claim.Claimed? ==> key !in st.store.markers
      ensures waited <= old(waited) + 10_200
    {
      if key == "" {
        return Failure;
      }
      hide IsRun, HasCompleted, WaitsInVain;
      var claim := BeginSchedule(c, key);
      ghost var r1 := run;
      if claim.HasSandbox? {
        r := Success(claim.sandbox);
        DropClaim(c);
      } else if claim.ClaimError? && claim.timeout {
        r := Failure;
        DropClaim(c);
        InVainOnAndOn(old(run), r1, run, c);
      } else {
        r := CreateAndComplete(c, podName);
      }
      ProvenanceAt(run, |run.events|);
      assert CallOk(st, c);
    }

    /** The pod, and what follows it. */
    method CreateAndComplete(c: CallId, podName: SandboxId) returns (r: Result<SandboxId>)
      requires Valid() && c in st.calls && st.calls[c].phase.Creating? && !st.calls[c].completed
      modifies `st, `run
      ensures Valid() && c in st.calls && st.calls[c].key == old(st.calls[c].key)
      ensures st.calls[c].phase == Finished(r) && st.calls[c].claim == old(st.calls[c].claim)
      ensures reliable && r.Failure? ==> !IsBase36(podName) || podName in st.created
      ensures reliable && old(st.calls[c].claim).Claimed? ==>
                if r.Failure? then st.calls[c].key !in st.store.markers
                else r.value == podName && st.calls[c].completed
                     && HasCompleted(run, c, old(st.calls[c].key), podName)
      ensures r.Success? ==> r.value == podName
    {
      hide IsRun, HasCompleted, WaitsInVain;
      Others(c);
      var ok := CreatePod(c, podName);
      if !ok {
        r := Failure;
        DropClaim(c);
      } else {
        r := Success(podName);
        CompleteAndDrop(c);
      }
    }
  }
}
