/** The project-sandbox store: single Redis commands, the pipelines made of them, and the store's methods. */
module ProjectStore {
  import opened Wrappers
  import opened Ids
  import opened Timed
  import opened Messages

  const PROJECT_SANDBOX_TTL: Time := 24 * HOUR
  const RELEASED_TTL: Time := 5 * MINUTE

  /** The set of all projects; no deadline means that no EXPIRE has been issued since it was created. */
  datatype Index = Index(members: set<string>, deadline: Option<Time>)

  /** log holds the payloads published so far, oldest first. */
  datatype Store = Store(now: Time,
                         forward: Table<ProjectId, string>,
                         reverse: Table<SandboxId, string>,
                         index: Index,
                         released: Table<SandboxId, string>,
                         log: seq<string>)

  const EMPTY: Store := Store(0, map[], map[], Index({}, None), map[], [])

  // ------------------------------------------------------------ single commands

  function SetForward(st: Store, p: ProjectId, s: SandboxId): Store {
    st.(forward := Put(st.forward, p, s, st.now + PROJECT_SANDBOX_TTL))
  }

  function SetReverse(st: Store, p: ProjectId, s: SandboxId): Store {
    st.(reverse := Put(st.reverse, s, p, st.now + PROJECT_SANDBOX_TTL))
  }

  predicate IndexLive(st: Store) {
    st.index.members != {} && (st.index.deadline.None? || st.now < st.index.deadline.value)
  }

  /** SADD: an expired or emptied set starts anew, without a deadline. */
  function AddToIndex(st: Store, p: ProjectId): Store {
    st.(index := if IndexLive(st) then st.index.(members := st.index.members + {p}) else Index({p}, None))
  }

  function ExpireIndex(st: Store): Store {
    if IndexLive(st) then st.(index := st.index.(deadline := Some(st.now + PROJECT_SANDBOX_TTL))) else st
  }

  function Publish(st: Store, payload: string): Store {
    st.(log := st.log + [payload])
  }

  function DeleteReverse(st: Store, s: SandboxId): Store {
    st.(reverse := Delete(st.reverse, s))
  }

  function DeleteForward(st: Store, p: ProjectId): Store {
    st.(forward := Delete(st.forward, p))
  }

  function RemoveFromIndex(st: Store, p: ProjectId): Store {
    st.(index := st.index.(members := st.index.members - {p}))
  }

  function MarkReleased(st: Store, s: SandboxId): Store {
    st.(released := Put(st.released, s, "1", st.now + RELEASED_TTL))
  }

  // ------------------------------------------------------------ lookups

  /** GetProjectSandbox: not found, unreadable, or the sandbox. */
  datatype ForwardReply = NoSandbox | BadSandbox | HasSandbox(sandbox: SandboxId)

  function LookupForward(st: Store, p: ProjectId): ForwardReply {
    match Get(st.forward, p, st.now)
    case None => NoSandbox
    case Some(raw) =>
      match NewSandboxId(raw)
      case None => BadSandbox
      case Some(s) => HasSandbox(s)
  }

  /** FindProjectForSandbox: Success(None) is the empty project, Failure an unreadable entry. */
  function FindProject(st: Store, s: SandboxId): Result<Option<ProjectId>> {
    match Get(st.reverse, s, st.now)
    case None => Success(None)
    case Some(raw) =>
      match NewProjectId(raw)
      case None => Failure
      case Some(p) => Success(Some(p))
  }

  predicate IsReleased(st: Store, s: SandboxId) {
    Live(st.released, s, st.now)
  }

  // ------------------------------------------------------------ pipelines

  /** A pipeline in progress: step counts the commands already executed. */
  datatype Job =
    | SetJob(project: ProjectId, sandbox: SandboxId, step: nat)
    | RemoveJob(sandbox: SandboxId, found: Option<ProjectId>, step: nat)

  function Length(job: Job): nat {
    if job.SetJob? then 5 else if job.found.Some? then 5 else 1
  }

  /** The effect of the next command of a pipeline. */
  function NextCommand(st: Store, job: Job): Store
    requires job.step < Length(job)
  {
    match job
    case SetJob(p, s, step) =>
      if step == 0 then SetForward(st, p, s)
      else if step == 1 then SetReverse(st, p, s)
      else if step == 2 then AddToIndex(st, p)
      else if step == 3 then ExpireIndex(st)
      else Publish(st, PrintUpdate(p, s))
    case RemoveJob(s, None, _) => MarkReleased(st, s)
    case RemoveJob(s, Some(p), step) =>
      if step == 0 then DeleteReverse(st, s)
      else if step == 1 then DeleteForward(st, p)
      else if step == 2 then RemoveFromIndex(st, p)
      else if step == 3 then Publish(st, PrintRemoval(p))
      else MarkReleased(st, s)
  }

  /** The rest of a pipeline, executed without interruption. */
  function RunJob(st: Store, job: Job): Store
    decreases Length(job) - job.step
  {
    if job.step >= Length(job) then st
    else RunJob(NextCommand(st, job), job.(step := job.step + 1))
  }

  /** The next n commands of a pipeline, or as many as are left: a connection can break at any of them. */
  function RunFirst(st: Store, job: Job, n: nat): Store
    decreases n
  {
    if n == 0 || job.step >= Length(job) then st
    else RunFirst(NextCommand(st, job), job.(step := job.step + 1), n - 1)
  }

  lemma {:induction false} RunFirstIsRunJob(st: Store, job: Job, n: nat)
    requires Length(job) <= job.step + n
    ensures RunFirst(st, job, n) == RunJob(st, job)
    decreases n
  {
    if job.step < Length(job) {
      RunFirstIsRunJob(NextCommand(st, job), job.(step := job.step + 1), n - 1);
    }
  }

  lemma NoCommand(st: Store, job: Job)
    ensures RunFirst(st, job, 0) == st
  {
  }

  lemma {:induction false} OneMoreCommand(st: Store, job: Job, n: nat)
    requires job.step + n < Length(job)
    ensures RunFirst(st, job, n + 1) == NextCommand(RunFirst(st, job, n), job.(step := job.step + n))
    decreases n
  {
    if n > 0 {
      OneMoreCommand(NextCommand(st, job), job.(step := job.step + 1), n - 1);
    }
  }

  /** SetProjectSandbox as one step. */
  function AfterSet(st: Store, p: ProjectId, s: SandboxId): Store {
    RunJob(st, SetJob(p, s, 0))
  }

  /** RemoveSandboxMapping as one step; on an unreadable reverse entry it stops before its pipeline. */
  function AfterRemove(st: Store, s: SandboxId): Store {
    match FindProject(st, s)
    case Failure => st
    case Success(found) => RunJob(st, RemoveJob(s, found, 0))
  }

  /** The live forward map. */
  function LiveForward(st: Store): map<ProjectId, string> {
    map p | p in st.forward && Live(st.forward, p, st.now) :: st.forward[p].value
  }

  predicate IsMapped(st: Store, member: string) {
    NewProjectId(member).Some? && LookupForward(st, NewProjectId(member).value).HasSandbox?
  }

  /** What GetAllProjectSandboxMappings collects from a set of index members. */
  function Collect(st: Store, members: set<string>): map<ProjectId, SandboxId> {
    var projects := set m | m in members && IsMapped(st, m) :: NewProjectId(m).value;
    map p | p in projects :: LookupForward(st, p).sandbox
  }

  /** GetAllProjectSandboxMappings as one step. */
  function AllMappings(st: Store): map<ProjectId, SandboxId> {
    if IndexLive(st) then Collect(st, st.index.members) else map[]
  }

  /** RemoveSandboxMapping when the lookup or the pipeline may fail. */
  function AfterFaultyRemove(st: Store, s: SandboxId, reachable: bool, executed: nat): Store {
    match FindProject(st, s)
    case Failure => st
    case Success(found) => if reachable then RunFirst(st, RemoveJob(s, found, 0), executed) else st
  }

  /** Some member of the live index parses, so that there is a GET to send. */
  predicate HasParsedMember(st: Store) {
    IndexLive(st) && exists m :: m in st.index.members && NewProjectId(m).Some?
  }

  // ------------------------------------------------------------ methods

  /** redisStore: each method issues its commands in the order of the source. */
  class RedisStore {
    var now: Time
    var forward: Table<ProjectId, string>
    var reverse: Table<SandboxId, string>
    var index: Index
    var released: Table<SandboxId, string>
    var log: seq<string>

    function Value(): Store
      reads this
    {
      Store(now, forward, reverse, index, released, log)
    }

    constructor ()
      ensures Value() == EMPTY
    {
      now, forward, reverse, index, released, log := 0, map[], map[], Index({}, None), map[], [];
    }

    /** Time passes. */
    method Wait(d: Time)
      modifies `now
      ensures Value() == old(Value()).(now := old(now) + d)
    {
      now := now + d;
    }

    /** The pipeline of a set, of which the first executed commands take effect. */
    method SetProjectSandbox(p: ProjectId, s: SandboxId, executed: nat, acknowledged: bool) returns (ok: bool)
      modifies this
      ensures Value() == RunFirst(old(Value()), SetJob(p, s, 0), executed)
      ensures executed >= 5 ==> Value() == AfterSet(old(Value()), p, s)
      ensures ok <==> executed >= 5 && acknowledged
    {
      ghost var st, job := Value(), SetJob(p, s, 0);
      WriteMaps(p, s, executed);
      hide RunFirst, RunJob, PrintUpdate;
      if executed >= 3 {
        OneMoreCommand(st, job, 2);
        AddProject(p);
      }
      if executed >= 4 {
        OneMoreCommand(st, job, 3);
        RenewIndex();
      }
      if executed >= 5 {
        OneMoreCommand(st, job, 4);
        log := log + [PrintUpdate(p, s)];
        RunFirstIsRunJob(st, job, 5);
        RunFirstIsRunJob(st, job, executed);
      }
      ok := executed >= 5 && acknowledged;
    }

    /** The two SETs. */
    method WriteMaps(p: ProjectId, s: SandboxId, executed: nat)
      modifies `forward, `reverse
      ensures Value() == RunFirst(old(Value()), SetJob(p, s, 0), if executed < 2 then executed else 2)
    {
      ghost var st, job := Value(), SetJob(p, s, 0);
      if executed >= 1 {
        OneMoreCommand(st, job, 0);
        forward := forward[p := Entry(s, now + PROJECT_SANDBOX_TTL)];
      }
      if executed >= 2 {
        OneMoreCommand(st, job, 1);
        reverse := reverse[s := Entry(p, now + PROJECT_SANDBOX_TTL)];
      }
    }

    /** SADD to the index set. */
    method AddProject(p: ProjectId)
      modifies `index
      ensures Value() == AddToIndex(old(Value()), p)
    {
      if index.members != {} && (index.deadline.None? || now < index.deadline.value) {
        index := index.(members := index.members + {p});
      } else {
        index := Index({p}, None);
      }
    }

    /** EXPIRE of the index set. */
    method RenewIndex()
      modifies `index
      ensures Value() == ExpireIndex(old(Value()))
    {
      if index.members != {} && (index.deadline.None? || now < index.deadline.value) {
        index := index.(deadline := Some(now + PROJECT_SANDBOX_TTL));
      }
    }

    /** The reverse entry, if Redis can be reached. */
    method FindProjectForSandbox(s: SandboxId, reachable: bool) returns (r: Result<Option<ProjectId>>)
      ensures r == if reachable then FindProject(Value(), s) else Failure
      ensures reachable && (s !in reverse || reverse[s].deadline <= now) ==> r == Success(None)
      ensures reachable && s in reverse && now < reverse[s].deadline && IsRaw(reverse[s].value) ==>
                r == Success(Some(reverse[s].value))
    {
      if !reachable {
        return Failure;
      }
      if s !in reverse || now >= reverse[s].deadline {
        return Success(None);
      }
      match NewProjectId(reverse[s].value) {
        case None => return Failure;
        case Some(p) => return Success(Some(p));
      }
    }

    /** The lookup, and the pipeline of a removal, of which the first executed commands take effect. */
    method RemoveSandboxMapping(s: SandboxId, reachable: bool, executed: nat, acknowledged: bool) returns (ok: bool)
      modifies this
      ensures Value() == AfterFaultyRemove(old(Value()), s, reachable, executed)
      ensures ok ==> Value() == AfterRemove(old(Value()), s) && IsReleased(Value(), s)
      ensures ok <==> reachable && acknowledged
                      && match FindProject(old(Value()), s)
                         case Failure => false
                         case Success(found) => executed >= Length(RemoveJob(s, found, 0))
    {
      ghost var st := Value();
      var r := FindProjectForSandbox(s, reachable);
      match r {
        case Failure => return false;
        case Success(found) =>
          ghost var job := RemoveJob(s, found, 0);
          NoCommand(st, job);
          hide RunFirst, RunJob, PrintRemoval;
          var done := 0;
          if found.Some? {
            var p := found.value;
            if executed >= 1 {
              OneMoreCommand(st, job, 0);
              reverse := reverse - {s};
            }
            if executed >= 2 {
              OneMoreCommand(st, job, 1);
              forward := forward - {p};
            }
            if executed >= 3 {
              OneMoreCommand(st, job, 2);
              index := index.(members := index.members - {p});
            }
            if executed >= 4 {
              OneMoreCommand(st, job, 3);
              log := log + [PrintRemoval(p)];
            }
            done := 4;
          }
          if executed > done {
            OneMoreCommand(st, job, done);
            released := released[s := Entry("1", now + RELEASED_TTL)];
            RunFirstIsRunJob(st, job, done + 1);
            RunFirstIsRunJob(st, job, executed);
          }
          ok := executed > done && acknowledged;
      }
    }

    method IsSandboxReleased(s: SandboxId, reachable: bool) returns (r: Result<bool>)
      ensures r == if reachable then Success(IsReleased(Value(), s)) else Failure
    {
      if !reachable {
        return Failure;
      }
      return Success(s in released && now < released[s].deadline);
    }

    /** listed tells whether SMEMBERS succeeds, fetched whether the GETs do, which are not sent if there are none. */
    method GetAllProjectSandboxMappings(listed: bool, fetched: bool) returns (r: Result<map<ProjectId, SandboxId>>)
      ensures r == if !listed || (!fetched && HasParsedMember(Value())) then Failure else Success(AllMappings(Value()))
    {
      if !listed {
        return Failure;
      }
      if index.members == {} || (index.deadline.Some? && now >= index.deadline.value) {
        return Success(map[]);
      }
      var cmds := QueueGets();
      if !fetched && cmds != map[] {
        var m :| m in cmds;
        assert m in index.members && NewProjectId(m).Some?;
        return Failure;
      }
      var result := CollectReplies(cmds);
      CollectMapped(Value(), index.members, cmds.Keys);
      r := Success(result);
    }

    /** The first loop: a GET, with its reply, for each index member that parses. */
    method QueueGets() returns (cmds: map<string, ForwardReply>)
      ensures forall m :: m in cmds <==> m in index.members && NewProjectId(m).Some?
      ensures forall m <- cmds :: cmds[m] == LookupForward(Value(), NewProjectId(m).value)
    {
      cmds := map[];
      var todo := index.members;
      while todo != {}
        invariant todo <= index.members
        invariant forall m :: m in cmds <==> m in index.members && m !in todo && NewProjectId(m).Some?
        invariant forall m <- cmds :: cmds[m] == LookupForward(Value(), NewProjectId(m).value)
      {
        var m :| m in todo;
        todo := todo - {m};
        match NewProjectId(m) {
          case None =>
          case Some(p) => cmds := cmds[m := LookupForward(Value(), p)];
        }
      }
    }

    /** The second loop: the replies that name a sandbox. */
    method CollectReplies(cmds: map<string, ForwardReply>) returns (result: map<ProjectId, SandboxId>)
      requires forall m <- cmds :: NewProjectId(m).Some? && cmds[m] == LookupForward(Value(), NewProjectId(m).value)
      ensures result == Collect(Value(), cmds.Keys)
    {
      result := map[];
      var keys := cmds.Keys;
      while keys != {}
        invariant keys <= cmds.Keys
        invariant result == Collect(Value(), cmds.Keys - keys)
      {
        var m :| m in keys;
        CollectOneMore(Value(), cmds.Keys - keys, m);
        assert cmds.Keys - (keys - {m}) == cmds.Keys - keys + {m};
        keys := keys - {m};
        match cmds[m] {
          case HasSandbox(s) => result := result[NewProjectId(m).value := s];
          case NoSandbox =>
          case BadSandbox =>
        }
      }
      assert cmds.Keys - keys == cmds.Keys;
    }
  }

  /** Members that do not parse contribute nothing. */
  lemma CollectMapped(st: Store, members: set<string>, parsed: set<string>)
    requires forall m :: m in parsed <==> m in members && NewProjectId(m).Some?
    ensures Collect(st, parsed) == Collect(st, members)
  {
    assert forall m :: m in parsed && IsMapped(st, m) <==> m in members && IsMapped(st, m);
  }

  lemma CollectOneMore(st: Store, members: set<string>, m: string)
    ensures Collect(st, members + {m}) ==
              if IsMapped(st, m) then
                Collect(st, members)[NewProjectId(m).value := LookupForward(st, NewProjectId(m).value).sandbox]
              else Collect(st, members)
  {
  }

  lemma SetUnfolds(st: Store, p: ProjectId, s: SandboxId)
    ensures AfterSet(st, p, s) ==
              Publish(ExpireIndex(AddToIndex(SetReverse(SetForward(st, p, s), p, s), p)), PrintUpdate(p, s))
  {
    var s1 := SetForward(st, p, s);
    var s2 := SetReverse(s1, p, s);
    var s3 := AddToIndex(s2, p);
    var s4 := ExpireIndex(s3);
    var s5 := Publish(s4, PrintUpdate(p, s));
    assert RunJob(s4, SetJob(p, s, 4)) == RunJob(s5, SetJob(p, s, 5)) == s5;
    assert RunJob(s3, SetJob(p, s, 3)) == RunJob(s4, SetJob(p, s, 4));
    assert RunJob(s2, SetJob(p, s, 2)) == RunJob(s3, SetJob(p, s, 3));
    assert RunJob(s1, SetJob(p, s, 1)) == RunJob(s2, SetJob(p, s, 2));
    assert RunJob(st, SetJob(p, s, 0)) == RunJob(s1, SetJob(p, s, 1));
  }

  lemma RemoveUnfolds(st: Store, s: SandboxId, found: Option<ProjectId>)
    requires FindProject(st, s) == Success(found)
    ensures AfterRemove(st, s) == MarkReleased(match found
        case None => st
        case Some(p) => Publish(RemoveFromIndex(DeleteForward(DeleteReverse(st, s), p), p), PrintRemoval(p)), s)
  {
    if found.Some? {
      var p := found.value;
      var s1 := DeleteReverse(st, s);
      var s2 := DeleteForward(s1, p);
      var s3 := RemoveFromIndex(s2, p);
      var s4 := Publish(s3, PrintRemoval(p));
      var s5 := MarkReleased(s4, s);
      assert RunJob(s4, RemoveJob(s, found, 4)) == RunJob(s5, RemoveJob(s, found, 5)) == s5;
      assert RunJob(s3, RemoveJob(s, found, 3)) == RunJob(s4, RemoveJob(s, found, 4));
      assert RunJob(s2, RemoveJob(s, found, 2)) == RunJob(s3, RemoveJob(s, found, 3));
      assert RunJob(s1, RemoveJob(s, found, 1)) == RunJob(s2, RemoveJob(s, found, 2));
      assert RunJob(st, RemoveJob(s, found, 0)) == RunJob(s1, RemoveJob(s, found, 1));
    } else {
      var s1 := MarkReleased(st, s);
      assert RunJob(st, RemoveJob(s, found, 0)) == RunJob(s1, RemoveJob(s, found, 1)) == s1;
    }
  }
}
