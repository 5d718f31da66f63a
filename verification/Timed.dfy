/** Redis string keys with a deadline, and the naming scheme that splits one Redis into tables. */
module Timed {
  import opened Wrappers
  import opened Ids

  /** Milliseconds. */
  type Time = nat

  const SECOND: Time := 1000
  const MINUTE: Time := 60 * SECOND
  const HOUR: Time := 60 * MINUTE
  const DAY: Time := 86_400_000

  datatype Entry<+V> = Entry(value: V, deadline: Time)

  /** An expired entry may stay in the map: nothing below can read it. */
  type Table<K, V> = map<K, Entry<V>>

  predicate Live<K, V>(t: Table<K, V>, k: K, now: Time) {
    k in t && now < t[k].deadline
  }

  function Get<K, V>(t: Table<K, V>, k: K, now: Time): Option<V> {
    if Live(t, k, now) then Some(t[k].value) else None
  }

  function Put<K, V>(t: Table<K, V>, k: K, v: V, deadline: Time): Table<K, V> {
    t[k := Entry(v, deadline)]
  }

  function Delete<K, V>(t: Table<K, V>, k: K): Table<K, V> {
    t - {k}
  }

  // ------------------------------------------------------------ key names

  /** Every Redis key the scheduler uses, by the function that forms it. */
  datatype Key =
    | IdemKey(key: string)
    | PendingKey(key: string)
    | SandboxIdempotenceKey(sandbox: SandboxId)
    | ReleasedKey(sandbox: SandboxId)
    | ProjectSandboxKey(project: ProjectId)
    | SandboxProjectKey(sandbox: SandboxId)
    | AllProjectsSetKey
    | ReadySetKey
    | PendingSetKey

  function Tag(k: Key): string {
    match k
    case IdemKey(_) => "idem:"
    case PendingKey(_) => "pending:"
    case SandboxIdempotenceKey(_) => "sandbox-idempotence:"
    case ReleasedKey(_) => "released:"
    case ProjectSandboxKey(_) => "project:"
    case SandboxProjectKey(_) => "sandbox:"
    case AllProjectsSetKey => "all-projects-set"
    case ReadySetKey => ":sandboxes:ready"
    case PendingSetKey => ":sandboxes:pending"
  }

  function Argument(k: Key): string {
    match k
    case IdemKey(key) => key
    case PendingKey(key) => key
    case SandboxIdempotenceKey(s) => s
    case ReleasedKey(s) => s
    case ProjectSandboxKey(p) => p
    case SandboxProjectKey(s) => s
    case AllProjectsSetKey => ""
    case ReadySetKey => ""
    case PendingSetKey => ""
  }

  /** The Redis key as the form*Key helpers and getKey build it. */
  function Form(keyPrefix: string, k: Key): string {
    keyPrefix + Tag(k) + Argument(k)
  }

  /** Tags of different families differ at a position both have. */
  lemma TagsDiffer(a: Key, b: Key)
    requires Tag(a) + Argument(a) == Tag(b) + Argument(b)
    ensures Tag(a) == Tag(b)
  {
    var x, y := Tag(a) + Argument(a), Tag(b) + Argument(b);
    assert Tag(a)[0] == x[0] && Tag(b)[0] == y[0];
    assert Tag(a)[1] == x[1] && Tag(b)[1] == y[1];
    if Tag(a)[0] == 's' {
      assert Tag(a)[7] == x[7] && Tag(b)[7] == y[7];
    } else if Tag(a)[0] == ':' {
      assert Tag(a)[11] == x[11] && Tag(b)[11] == y[11];
    }
  }

  /** A tag and an argument make one key: tags differ in length, or in their first or eighth character. */
  lemma SameKey(a: Key, b: Key)
    requires Tag(a) == Tag(b) && Argument(a) == Argument(b)
    ensures a == b
  {
    assert |Tag(a)| == |Tag(b)| && Tag(a)[0] == Tag(b)[0] && Tag(a)[1] == Tag(b)[1];
  }

  /** Two roles never share a Redis key, so each family of keys is a table of its own. */
  lemma KeysAreSeparate(keyPrefix: string, a: Key, b: Key)
    ensures Form(keyPrefix, a) == Form(keyPrefix, b) <==> a == b
  {
    if Form(keyPrefix, a) == Form(keyPrefix, b) {
      hide Tag, Argument;
      var x, y := Tag(a) + Argument(a), Tag(b) + Argument(b);
      assert Form(keyPrefix, a)[|keyPrefix|..] == x;
      assert Form(keyPrefix, b)[|keyPrefix|..] == y;
      TagsDiffer(a, b);
      assert x[|Tag(a)|..] == Argument(a) && y[|Tag(b)|..] == Argument(b);
      SameKey(a, b);
    }
  }
}
