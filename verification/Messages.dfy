/** The update messages published on the project channel: printing, parsing, and the handler's effect on a route map. */
module Messages {
  import opened Wrappers
  import opened Ids

  const SEPARATOR: char := ':'

  /** Position of the first separator, or the length. */
  function IndexOf(s: string): (i: nat)
    ensures i <= |s| && SEPARATOR !in s[..i]
    ensures i < |s| ==> s[i] == SEPARATOR
    ensures i == |s| <==> SEPARATOR !in s
  {
    if s == "" then 0
    else if s[0] == SEPARATOR then 0
    else
      var i := 1 + IndexOf(s[1..]);
      assert s[..i] == [s[0]] + s[1..][..i - 1];
      assert s == [s[0]] + s[1..];
      i
  }

  /** strings.SplitN(s, ":", n) for positive n. */
  function SplitN(s: string, n: nat): seq<string>
    requires n > 0
  {
    var i := IndexOf(s);
    if n == 1 || i == |s| then [s] else [s[..i]] + SplitN(s[i + 1..], n - 1)
  }

  datatype Update = Set(project: ProjectId, sandbox: SandboxId) | Removed(project: ProjectId)

  function PrintUpdate(p: ProjectId, s: SandboxId): string {
    p + ":update:" + s
  }

  function PrintRemoval(p: ProjectId): string {
    p + ":remove:"
  }

  /** What the subscriber makes of a payload; None is a message it skips. */
  function Parse(payload: string): Option<Update> {
    var parts := SplitN(payload, 3);
    if |parts| != 3 then None
    else
      match NewProjectId(parts[0])
      case None => None
      case Some(p) =>
        if parts[1] == "remove" then Some(Removed(p))
        else
          match NewSandboxId(parts[2])
          case None => None
          case Some(s) => Some(Set(p, s))
  }

  /** Nonempty, free of the separator, and without the project prefix. */
  predicate IsWellFormed(p: ProjectId) {
    p != "" && SEPARATOR !in p && !HasPrefix(p, PROJECT_PREFIX)
  }

  lemma {:induction false} IndexOfPrefix(a: string, b: string)
    requires SEPARATOR !in a
    ensures IndexOf(a + [SEPARATOR] + b) == |a|
  {
    var s := a + [SEPARATOR] + b;
    if a != "" {
      assert s[0] == a[0] && s[1..] == a[1..] + [SEPARATOR] + b;
      IndexOfPrefix(a[1..], b);
    }
  }

  lemma SplitOnce(a: string, b: string, n: nat)
    requires SEPARATOR !in a && n > 1
    ensures SplitN(a + [SEPARATOR] + b, n) == [a] + SplitN(b, n - 1)
  {
    var s := a + [SEPARATOR] + b;
    IndexOfPrefix(a, b);
    assert s[..|a|] == a && s[|a| + 1..] == b;
  }

  /** A message splits at its first two separators. */
  lemma SplitMessage(p: string, kind: string, rest: string)
    requires SEPARATOR !in p && SEPARATOR !in kind
    ensures SplitN(p + [SEPARATOR] + (kind + [SEPARATOR] + rest), 3) == [p, kind, rest]
  {
    SplitOnce(p, kind + [SEPARATOR] + rest, 3);
    SplitOnce(kind, rest, 2);
  }

  /** The first part never contains the separator, nor does the project parsed from it. */
  lemma ParsedProjectHasNoSeparator(payload: string)
    requires Parse(payload).Some?
    ensures SEPARATOR !in Parse(payload).value.project && Parse(payload).value.project != ""
  {
    var first := payload[..IndexOf(payload)];
    var p := Parse(payload).value.project;
    assert forall c <- p :: c in first;
  }

  /** Whatever kind a message is of, if not a removal it is taken for an update. */
  lemma ParseExactly(p: string, kind: string, rest: string)
    requires SEPARATOR !in p && SEPARATOR !in kind
    ensures Parse(p + ":" + kind + ":" + rest) ==
              if NewProjectId(p).None? then None
              else if kind == "remove" then Some(Removed(NewProjectId(p).value))
              else if NewSandboxId(rest).None? then None
              else Some(Set(NewProjectId(p).value, NewSandboxId(rest).value))
  {
    hide SplitN, NewProjectId, NewSandboxId;
    SplitMessage(p, kind, rest);
    assert p + ":" + kind + ":" + rest == p + [SEPARATOR] + (kind + [SEPARATOR] + rest);
  }

  /** With fewer than two separators it is skipped. */
  lemma ShortIsSkipped(p: string, kind: string)
    requires SEPARATOR !in p && SEPARATOR !in kind
    ensures Parse(p).None? && Parse(p + ":" + kind).None?
  {
    SplitOnce(p, kind, 3);
    assert p + ":" + kind == p + [SEPARATOR] + kind;
  }

  /** Printing then parsing an update gives it back exactly for well-formed projects and prefix-free sandboxes. */
  lemma UpdateRoundTrip(p: ProjectId, s: SandboxId)
    ensures Parse(PrintUpdate(p, s)) == Some(Set(p, s)) <==>
              IsWellFormed(p) && s != "" && !HasPrefix(s, SANDBOX_PREFIX)
  {
    hide Parse, NewId, HasPrefix;
    var payload := PrintUpdate(p, s);
    if SEPARATOR in p {
      if Parse(payload).Some? {
        ParsedProjectHasNoSeparator(payload);
      }
    } else {
      assert payload == p + ":" + "update" + ":" + s;
      ParseExactly(p, "update", s);
      ParseIsIdentity(p, PROJECT_PREFIX);
      ParseIsIdentity(s, SANDBOX_PREFIX);
    }
  }

  /** Likewise for removals. */
  lemma RemovalRoundTrip(p: ProjectId)
    ensures Parse(PrintRemoval(p)) == Some(Removed(p)) <==> IsWellFormed(p)
  {
    hide Parse, NewId, HasPrefix;
    var payload := PrintRemoval(p);
    if SEPARATOR in p {
      if Parse(payload).Some? {
        ParsedProjectHasNoSeparator(payload);
      }
    } else {
      assert payload == p + ":" + "remove" + ":" + "";
      ParseExactly(p, "remove", "");
      ParseIsIdentity(p, PROJECT_PREFIX);
    }
  }

  // ------------------------------------------------------------ handler

  type RouteMap = map<ProjectId, SandboxId>

  /** handleProjectSandboxUpdate, its effect on the route map taken as one step. */
  function Handle(routes: RouteMap, update: Update): RouteMap {
    match update
    case Set(p, s) => routes[p := s]
    case Removed(p) => routes - {p}
  }

  function HandlePayload(routes: RouteMap, payload: string): RouteMap {
    match Parse(payload)
    case None => routes
    case Some(u) => Handle(routes, u)
  }

  /** The route map after the payloads, in the order of publication. */
  function Replay(routes: RouteMap, payloads: seq<string>): RouteMap {
    if payloads == [] then routes
    else HandlePayload(Replay(routes, payloads[..|payloads| - 1]), payloads[|payloads| - 1])
  }

  lemma ReplayAppend(routes: RouteMap, payloads: seq<string>, payload: string)
    ensures Replay(routes, payloads + [payload]) == HandlePayload(Replay(routes, payloads), payload)
  {
    assert (payloads + [payload])[..|payloads|] == payloads;
  }
}
