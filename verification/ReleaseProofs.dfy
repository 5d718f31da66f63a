/** A released sandbox stays gone for every check made after its release. */
module ReleaseProofs {
  import opened Ids
  import opened Timed
  import opened ProjectStore
  import opened System
  import SP = SystemProofs

  /** s is a known pod name, and its release marker lives at least until the deadline. */
  ghost predicate IsMarked(st: State, s: SandboxId, deadline: Time) {
    var store := st.maps.store;
    && s in st.claims.created && s in store.released
    && deadline <= store.released[s].deadline && deadline <= store.now + RELEASED_TTL
  }

  /** The pod is gone by the time the marker may have expired. */
  ghost predicate GoneInTime(st: State, s: SandboxId, deadline: Time) {
    deadline <= st.maps.store.now ==> s !in st.pods
  }

  /** IsSandboxGone when both its lookups succeed. */
  predicate IsSandboxGone(st: State, s: SandboxId) {
    IsReleased(st.maps.store, s) || s !in st.pods
  }

  /** Request q has not taken s to be alive, and can no longer do so. */
  ghost predicate CannotReuse(st: State, q: RequestId, s: SandboxId) {
    q in st.requests ==>
      match st.requests[q].phase
      case CheckingPod(t) => t == s ==> s !in st.pods
      case Responded(t, reused) => !(reused && t == s)
      case _ => true
  }

  /** The last command of a release sets the marker. */
  lemma ReleaseMarks(st: State, j: M.JobId)
    requires Enabled(st, PipelineStep(j)) && st.maps.jobs[j].RemoveJob?
    requires st.maps.jobs[j].step == Length(st.maps.jobs[j]) - 1 && st.maps.jobs[j].sandbox in st.claims.created
    ensures IsMarked(Apply(st, PipelineStep(j)), st.maps.jobs[j].sandbox, st.maps.store.now + RELEASED_TTL)
  {
  }

  /** Single commands keep a marker, or renew it. */
  lemma CommandKeepsMarker(st: Store, job: Job, s: SandboxId, deadline: Time)
    requires job.step < Length(job)
    requires s in st.released && deadline <= st.released[s].deadline && deadline <= st.now + RELEASED_TTL
    ensures var st' := NextCommand(st, job);
            s in st'.released && deadline <= st'.released[s].deadline && st'.now == st.now
  {
  }

  lemma MarkLasts(st: State, e: Event, s: SandboxId, deadline: Time)
    requires Enabled(st, e) && IsMarked(st, s, deadline)
    ensures IsMarked(Apply(st, e), s, deadline)
    ensures s !in st.pods ==> s !in Apply(st, e).pods
  {
    hide L.Apply, NextCommand;
    if e.PipelineStep? {
      CommandKeepsMarker(st.maps.store, st.maps.jobs[e.job], s, deadline);
    } else if e.ClaimStep? {
      SP.CallsStay(st.claims, e.claim);
    }
  }

  /** A request's own step does not take s to be alive once s is marked, and gone in time. */
  lemma OwnStepCannotReuse(st: State, e: Event, q: RequestId, s: SandboxId, deadline: Time)
    requires Enabled(st, e) && IsMarked(st, s, deadline) && GoneInTime(st, s, deadline)
    requires IsRequestEvent(e) && e.request == q
    requires CannotReuse(st, q, s) && e != CheckReleased(q, false)
    ensures CannotReuse(Apply(st, e), q, s)
  {
    hide C.Apply, L.Apply, M.Apply, C.Enabled, M.Enabled, L.IsMin;
    assert Apply(st, e).pods == st.pods;
    assert s in st.pods ==> IsReleased(st.maps.store, s);
  }

  lemma CannotReuseLasts(st: State, e: Event, q: RequestId, s: SandboxId, deadline: Time)
    requires Enabled(st, e) && IsMarked(st, s, deadline) && GoneInTime(st, s, deadline)
    requires CannotReuse(st, q, s) && e != CheckReleased(q, false)
    requires s !in st.pods ==> s !in Apply(st, e).pods
    ensures CannotReuse(Apply(st, e), q, s)
  {
    hide C.Apply, L.Apply, M.Apply, IsMarked, GoneInTime;
    if IsRequestEvent(e) && e.request == q {
      OwnStepCannotReuse(st, e, q, s, deadline);
    } else {
      assert q in Apply(st, e).requests ==>
        Apply(st, e).requests[q].phase.Reading? || (q in st.requests && Apply(st, e).requests[q] == st.requests[q]);
    }
  }

  lemma {:induction false} MarkedFrom(r: Run, config: L.Config, i: nat, j: nat, s: SandboxId, deadline: Time)
    requires IsRun(r, config) && i <= j < |r.states| && IsMarked(r.states[i], s, deadline)
    ensures IsMarked(r.states[j], s, deadline)
    decreases j
  {
    hide Enabled, Apply;
    if i < j {
      MarkedFrom(r, config, i, j - 1, s, deadline);
      assert IsStep(r, j - 1);
      MarkLasts(r.states[j - 1], r.events[j - 1], s, deadline);
    }
  }

  lemma ClockStep(st: State, e: Event)
    requires Enabled(st, e)
    ensures st.maps.store.now <= Apply(st, e).maps.store.now
  {
    if e.PipelineStep? {
      var job := st.maps.jobs[e.job];
      assert NextCommand(st.maps.store, job).now == st.maps.store.now;
    }
  }

  lemma {:induction false} ClockAdvances(r: Run, config: L.Config, i: nat, j: nat)
    requires IsRun(r, config) && i <= j < |r.states|
    ensures r.states[i].maps.store.now <= r.states[j].maps.store.now
    decreases j
  {
    hide Enabled, Apply;
    if i < j {
      ClockAdvances(r, config, i, j - 1);
      assert IsStep(r, j - 1);
      ClockStep(r.states[j - 1], r.events[j - 1]);
    }
  }

  lemma {:induction false} PodStaysGone(r: Run, config: L.Config, i: nat, j: nat, s: SandboxId)
    requires IsRun(r, config) && i <= j < |r.states|
    requires s in r.states[i].claims.created && s !in r.states[i].pods
    ensures s in r.states[j].claims.created && s !in r.states[j].pods
    decreases j
  {
    hide Enabled, Apply;
    if i < j {
      PodStaysGone(r, config, i, j - 1, s);
      assert IsStep(r, j - 1);
      NamesAreNotReused(r.states[j - 1], r.events[j - 1], s);
    }
  }

  /** A pod that was created is there until it goes. */
  lemma {:induction false} PodUntilGone(r: Run, config: L.Config, j: nat, s: SandboxId)
    requires IsRun(r, config) && j < |r.states| && s in r.states[j].claims.created
    ensures s in r.states[j].pods || PodGone(s) in r.events[..j]
  {
    hide Enabled, Apply;
    if j > 0 {
      assert IsStep(r, j - 1);
      PodAppears(r.states[j - 1], r.events[j - 1], s);
      assert r.events[..j] == r.events[..j - 1] + [r.events[j - 1]];
      if s in r.states[j - 1].claims.created {
        PodUntilGone(r, config, j - 1, s);
      }
    }
  }

  lemma PodAppears(st: State, e: Event, s: SandboxId)
    requires Enabled(st, e) && s in Apply(st, e).claims.created
    ensures s !in st.claims.created || s in st.pods ==> s in Apply(st, e).pods || e == PodGone(s)
  {
  }

  lemma NamesAreNotReused(st: State, e: Event, s: SandboxId)
    requires Enabled(st, e) && s in st.claims.created && s !in st.pods
    ensures s in Apply(st, e).claims.created && s !in Apply(st, e).pods
  {
    if e.ClaimStep? {
      SP.CallsStay(st.claims, e.claim);
    }
  }

  /** The marker of s is set by state i, and by state k, before the marker can lapse, the pod is gone. */
  ghost predicate ReleasedAndGone(r: Run, i: nat, k: nat, s: SandboxId, deadline: Time)
    requires i <= k < |r.states|
  {
    IsMarked(r.states[i], s, deadline) && s !in r.states[k].pods && r.states[k].maps.store.now < deadline
  }

  lemma GoneThroughout(r: Run, config: L.Config, i: nat, k: nat, j: nat, s: SandboxId, deadline: Time)
    requires IsRun(r, config) && i <= k < |r.states| && i <= j < |r.states| && ReleasedAndGone(r, i, k, s, deadline)
    ensures IsMarked(r.states[j], s, deadline) && GoneInTime(r.states[j], s, deadline)
  {
    MarkedFrom(r, config, i, j, s, deadline);
    MarkedFrom(r, config, i, k, s, deadline);
    if j <= k {
      ClockAdvances(r, config, j, k);
    } else {
      PodStaysGone(r, config, k, j, s);
    }
  }

  /**
   Release is permanent: once the marker of s is set, and if its pod disappears before the marker lapses,
   IsSandboxGone(s) answers true at every later time.
   */
  lemma ReleaseIsPermanent(r: Run, config: L.Config, i: nat, k: nat, j: nat, s: SandboxId, deadline: Time)
    requires IsRun(r, config) && i <= k < |r.states| && i <= j < |r.states| && ReleasedAndGone(r, i, k, s, deadline)
    ensures IsSandboxGone(r.states[j], s)
  {
    GoneThroughout(r, config, i, k, j, s, deadline);
  }

  /**
   Hence the fast path never again answers with s: no request that reads the marker after it was set, its read
   succeeding, reports s as active, however its two lookups interleave with the pod's disappearance.
   */
  lemma {:induction false} FastPathNeverRevives(r: Run, config: L.Config, i: nat, k: nat, j: nat, q: RequestId,
                                                s: SandboxId, deadline: Time)
    requires IsRun(r, config) && i <= k < |r.states| && i <= j < |r.states| && ReleasedAndGone(r, i, k, s, deadline)
    requires forall m :: i <= m < j ==> r.events[m] != CheckReleased(q, false)
    requires q in r.states[i].requests ==>
      r.states[i].requests[q].phase != CheckingPod(s) && r.states[i].requests[q].phase != Responded(s, true)
    ensures CannotReuse(r.states[j], q, s)
    ensures q in r.states[j].requests ==> r.states[j].requests[q].phase != Responded(s, true)
    decreases j
  {
    hide Enabled, Apply, IsMarked, GoneInTime;
    if i < j {
      FastPathNeverRevives(r, config, i, k, j - 1, q, s, deadline);
      GoneThroughout(r, config, i, k, j - 1, s, deadline);
      assert IsStep(r, j - 1);
      MarkLasts(r.states[j - 1], r.events[j - 1], s, deadline);
      CannotReuseLasts(r.states[j - 1], r.events[j - 1], q, s, deadline);
    }
  }
}
