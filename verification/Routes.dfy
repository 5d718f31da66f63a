/** The xDS route table: clusters and header routes generated from the project map, under first-match evaluation. */
module Routes {
  import opened Wrappers
  import opened Ids
  import opened Messages

  const ACTIVATOR_CLUSTER: string := "activator_cluster"
  const ACTIVATOR_HOST: string := "activator.sandbox.svc"

  /** A route on prefix "/" with an optional exact match of the Project-Id header. */
  datatype Route = Route(header: Option<string>, cluster: string)

  datatype Cluster = Cluster(name: string, host: string, port: nat)

  function ClusterName(p: ProjectId): string {
    "project_" + p + "_cluster"
  }

  /** GetProjectServiceHostname. */
  function ServiceHost(ns: string, p: ProjectId): string {
    WithPrefix(p, PROJECT_PREFIX) + "." + ns + ".svc"
  }

  predicate Matches(route: Route, header: Option<string>) {
    route.header.None? || route.header == header
  }

  /** Envoy's evaluation: the first route that matches. */
  function FirstMatch(routes: seq<Route>, header: Option<string>): Option<string> {
    if routes == [] then None
    else if Matches(routes[0], header) then Some(routes[0].cluster)
    else FirstMatch(routes[1..], header)
  }

  /** Where a request is meant to go. */
  function Destination(projects: RouteMap, header: Option<string>): string {
    if header.Some? && header.value in projects then ClusterName(header.value) else ACTIVATOR_CLUSTER
  }

  ghost predicate RoutesCorrectly(projects: RouteMap, routes: seq<Route>) {
    forall header :: FirstMatch(routes, header) == Some(Destination(projects, header))
  }

  /** The cluster a destination must resolve to. */
  function ExpectedCluster(ns: string, projects: RouteMap, header: Option<string>): Cluster {
    if header.Some? && header.value in projects
    then Cluster(ClusterName(header.value), ServiceHost(ns, header.value), 8000)
    else Cluster(ACTIVATOR_CLUSTER, ACTIVATOR_HOST, 80)
  }

  /** Every destination is defined, once, as the right cluster; nothing else is defined. */
  ghost predicate DefinesClusters(ns: string, projects: RouteMap, clusters: seq<Cluster>) {
    && (forall i, j :: 0 <= i < j < |clusters| ==> clusters[i].name != clusters[j].name)
    && (forall header :: ExpectedCluster(ns, projects, header) in clusters)
    && (forall c <- clusters :: exists header :: c == ExpectedCluster(ns, projects, header))
  }

  /** Every project has a host of its own. */
  lemma ServiceHostsDiffer(ns: string, p: ProjectId, q: ProjectId)
    ensures ServiceHost(ns, p) == ServiceHost(ns, q) <==> p == q
  {
    var tail := "." + ns + ".svc";
    assert ServiceHost(ns, p) == WithPrefix(p, PROJECT_PREFIX) + tail;
    assert ServiceHost(ns, q) == WithPrefix(q, PROJECT_PREFIX) + tail;
    assert ServiceHost(ns, p)[..|ServiceHost(ns, p)| - |tail|] == WithPrefix(p, PROJECT_PREFIX);
    assert ServiceHost(ns, q)[..|ServiceHost(ns, q)| - |tail|] == WithPrefix(q, PROJECT_PREFIX);
    if p != "" && q != "" {
      assert WithPrefix(p, PROJECT_PREFIX)[8..] == p && WithPrefix(q, PROJECT_PREFIX)[8..] == q;
    }
  }

  /** The host is that of the service project-<p> in the namespace: its first label, if p has no dot, is that name. */
  lemma ServiceHostLabels(ns: string, p: ProjectId)
    ensures p != "" ==> ServiceHost(ns, p) == "project-" + p + "." + ns + ".svc"
    ensures p != "" && '.' !in p ==> '.' !in ServiceHost(ns, p)[..8 + |p|] && ServiceHost(ns, p)[8 + |p|] == '.'
    ensures ServiceHost(ns, p) != ACTIVATOR_HOST
  {
    var host := ServiceHost(ns, p);
    if p != "" {
      assert host == "project-" + p + "." + ns + ".svc";
      assert host[..8 + |p|] == "project-" + p;
    }
    assert host[0] != 'a' && ACTIVATOR_HOST[0] == 'a';
  }

  function ClusterNamed(clusters: seq<Cluster>, name: string): Option<Cluster> {
    if clusters == [] then None
    else if clusters[0].name == name then Some(clusters[0])
    else ClusterNamed(clusters[1..], name)
  }

  lemma {:induction false} FindsCluster(clusters: seq<Cluster>, c: Cluster)
    requires c in clusters && forall i, j :: 0 <= i < j < |clusters| ==> clusters[i].name != clusters[j].name
    ensures ClusterNamed(clusters, c.name) == Some(c)
  {
    if clusters[0] != c {
      FindsCluster(clusters[1..], c);
    }
  }

  /** Where a request ends up: the cluster named by the first route that matches. */
  function Resolve(routes: seq<Route>, clusters: seq<Cluster>, header: Option<string>): Option<Cluster> {
    match FirstMatch(routes, header)
    case None => None
    case Some(name) => ClusterNamed(clusters, name)
  }

  /** A mapped project's requests end up at its service on port 8000, all others at the activator on port 80. */
  predicate IsRightFor(ns: string, projects: RouteMap, header: Option<string>, c: Cluster) {
    if header.Some? && header.value in projects
    then c.port == 8000 && (header.value != "" ==> c.host == "project-" + header.value + "." + ns + ".svc")
    else c.port == 80 && c.host == "activator.sandbox.svc"
  }

  predicate ShareHost(routes: seq<Route>, clusters: seq<Cluster>, a: Option<string>, b: Option<string>) {
    var c, d := Resolve(routes, clusters, a), Resolve(routes, clusters, b);
    c.Some? && d.Some? && c.value.host == d.value.host
  }

  /** Every request ends up where it should, and no other ends up at the host of a mapped project. */
  ghost predicate KeepsApart(ns: string, projects: RouteMap, routes: seq<Route>, clusters: seq<Cluster>) {
    && (forall header :: Resolve(routes, clusters, header).Some?
                         && IsRightFor(ns, projects, header, Resolve(routes, clusters, header).value))
    && (forall p <- projects, header :: ShareHost(routes, clusters, Some(p), header) ==> header == Some(p))
  }

  lemma ResolvesToExpected(ns: string, projects: RouteMap, routes: seq<Route>, clusters: seq<Cluster>,
                           header: Option<string>)
    requires RoutesCorrectly(projects, routes) && DefinesClusters(ns, projects, clusters)
    ensures Resolve(routes, clusters, header) == Some(ExpectedCluster(ns, projects, header))
    ensures IsRightFor(ns, projects, header, ExpectedCluster(ns, projects, header))
  {
    assert FirstMatch(routes, header) == Some(Destination(projects, header));
    FindsCluster(clusters, ExpectedCluster(ns, projects, header));
    if header.Some? {
      ServiceHostLabels(ns, header.value);
    }
  }

  lemma ServedApart(ns: string, projects: RouteMap, routes: seq<Route>, clusters: seq<Cluster>)
    requires RoutesCorrectly(projects, routes) && DefinesClusters(ns, projects, clusters)
    ensures KeepsApart(ns, projects, routes, clusters)
  {
    forall header
      ensures Resolve(routes, clusters, header) == Some(ExpectedCluster(ns, projects, header))
      ensures IsRightFor(ns, projects, header, ExpectedCluster(ns, projects, header))
    {
      ResolvesToExpected(ns, projects, routes, clusters, header);
    }
    forall p <- projects, header
      ensures ExpectedCluster(ns, projects, header).host == ExpectedCluster(ns, projects, Some(p)).host ==>
                header == Some(p)
    {
      ServiceHostLabels(ns, p);
      if header.Some? {
        ServiceHostsDiffer(ns, p, header.value);
      }
    }
  }

  lemma ClusterNamesInjective(p: ProjectId, q: ProjectId)
    ensures ClusterName(p) == ClusterName(q) <==> p == q
    ensures ClusterName(p) != ACTIVATOR_CLUSTER
  {
    assert ClusterName(p)[0] == 'p';
    assert ClusterName(p)[8..|ClusterName(p)| - 8] == p;
    assert ClusterName(q)[8..|ClusterName(q)| - 8] == q;
  }

  lemma {:induction false} FirstMatchAppend(routes: seq<Route>, route: Route, header: Option<string>)
    ensures FirstMatch(routes + [route], header) ==
              if FirstMatch(routes, header).Some? then FirstMatch(routes, header)
              else if Matches(route, header) then Some(route.cluster) else None
  {
    if routes == [] {
      assert routes + [route] == [route];
    } else {
      assert (routes + [route])[1..] == routes[1..] + [route];
      FirstMatchAppend(routes[1..], route, header);
    }
  }

  /** The part of the table built so far sends the projects done to their clusters and matches nothing else. */
  ghost predicate RoutesExactly(done: set<ProjectId>, routes: seq<Route>) {
    forall header :: FirstMatch(routes, header) ==
      if header.Some? && header.value in done then Some(ClusterName(header.value)) else None
  }

  lemma AddProjectRoute(done: set<ProjectId>, routes: seq<Route>, p: ProjectId)
    requires RoutesExactly(done, routes)
    ensures RoutesExactly(done + {p}, routes + [Route(Some(p), ClusterName(p))])
  {
    forall header
      ensures FirstMatch(routes + [Route(Some(p), ClusterName(p))], header) ==
                if header.Some? && header.value in done + {p} then Some(ClusterName(header.value)) else None
    {
      FirstMatchAppend(routes, Route(Some(p), ClusterName(p)), header);
    }
  }

  lemma AddDefaultRoute(projects: RouteMap, routes: seq<Route>)
    requires RoutesExactly(projects.Keys, routes)
    ensures RoutesCorrectly(projects, routes + [Route(None, ACTIVATOR_CLUSTER)])
  {
    forall header
      ensures FirstMatch(routes + [Route(None, ACTIVATOR_CLUSTER)], header) == Some(Destination(projects, header))
    {
      FirstMatchAppend(routes, Route(None, ACTIVATOR_CLUSTER), header);
    }
  }

  /** The clusters built so far: the activator's and those of the projects done. */
  ghost predicate ClustersExactly(ns: string, done: set<ProjectId>, clusters: seq<Cluster>) {
    && (forall i, j :: 0 <= i < j < |clusters| ==> clusters[i].name != clusters[j].name)
    && (forall c :: c in clusters <==>
          c == Cluster(ACTIVATOR_CLUSTER, ACTIVATOR_HOST, 80)
          || exists p :: p in done && c == Cluster(ClusterName(p), ServiceHost(ns, p), 8000))
  }

  lemma AddProjectCluster(ns: string, done: set<ProjectId>, clusters: seq<Cluster>, p: ProjectId)
    requires ClustersExactly(ns, done, clusters) && p !in done
    ensures ClustersExactly(ns, done + {p}, clusters + [Cluster(ClusterName(p), ServiceHost(ns, p), 8000)])
  {
    forall c <- clusters
      ensures c.name != ClusterName(p)
    {
      ClusterNamesInjective(p, p);
      if q :| q in done && c == Cluster(ClusterName(q), ServiceHost(ns, q), 8000) {
        ClusterNamesInjective(p, q);
      }
    }
  }

  lemma ClustersAreDefined(ns: string, projects: RouteMap, clusters: seq<Cluster>)
    requires ClustersExactly(ns, projects.Keys, clusters)
    ensures DefinesClusters(ns, projects, clusters)
  {
    forall c <- clusters
      ensures exists header :: c == ExpectedCluster(ns, projects, header)
    {
      if p :| p in projects.Keys && c == Cluster(ClusterName(p), ServiceHost(ns, p), 8000) {
        assert c == ExpectedCluster(ns, projects, Some(p));
      } else {
        assert c == ExpectedCluster(ns, projects, None);
      }
    }
  }

  /** The xDS service: the project map and the snapshot generated from it. Each handler runs under the lock. */
  class Service {
    const ns: string
    var projects: RouteMap
    var clusters: seq<Cluster>
    var virtualRoutes: seq<Route>

    /** The published snapshot serves the current project map. */
    ghost predicate Valid()
      reads this
    {
      RoutesCorrectly(projects, virtualRoutes) && DefinesClusters(ns, projects, clusters)
    }

    /** loadInitialRoutes on a new service. */
    constructor (ns: string, mappings: RouteMap)
      ensures Valid() && projects == mappings && this.ns == ns
    {
      this.ns := ns;
      projects, clusters, virtualRoutes := map[], [], [];
      new;
      LoadInitialRoutes(mappings);
    }

    method LoadInitialRoutes(mappings: RouteMap)
      modifies this
      ensures Valid() && projects == old(projects) + mappings
    {
      var todo := mappings.Keys;
      while todo != {}
        invariant todo <= mappings.Keys
        invariant projects == old(projects) + (map p | p in mappings && p !in todo :: mappings[p])
      {
        var p :| p in todo;
        projects := projects[p := mappings[p]];
        todo := todo - {p};
      }
      UpdateSnapshot();
    }

    /** The two loops visit the projects in any order, and not necessarily the same one. */
    method UpdateSnapshot()
      modifies `clusters, `virtualRoutes
      ensures Valid() && KeepsApart(ns, projects, virtualRoutes, clusters)
    {
      clusters := [Cluster(ACTIVATOR_CLUSTER, ACTIVATOR_HOST, 80)];
      var todo := projects.Keys;
      while todo != {}
        invariant todo <= projects.Keys && ClustersExactly(ns, projects.Keys - todo, clusters)
      {
        var p :| p in todo;
        AddProjectCluster(ns, projects.Keys - todo, clusters, p);
        assert projects.Keys - (todo - {p}) == projects.Keys - todo + {p};
        clusters := clusters + [Cluster(ClusterName(p), ServiceHost(ns, p), 8000)];
        todo := todo - {p};
      }
      assert projects.Keys - todo == projects.Keys;
      ClustersAreDefined(ns, projects, clusters);

      virtualRoutes := [];
      todo := projects.Keys;
      while todo != {}
        invariant todo <= projects.Keys && RoutesExactly(projects.Keys - todo, virtualRoutes)
        invariant DefinesClusters(ns, projects, clusters)
      {
        var p :| p in todo;
        AddProjectRoute(projects.Keys - todo, virtualRoutes, p);
        assert projects.Keys - (todo - {p}) == projects.Keys - todo + {p};
        virtualRoutes := virtualRoutes + [Route(Some(p), ClusterName(p))];
        todo := todo - {p};
      }
      assert projects.Keys - todo == projects.Keys;
      AddDefaultRoute(projects, virtualRoutes);
      virtualRoutes := virtualRoutes + [Route(None, ACTIVATOR_CLUSTER)];
      ServedApart(ns, projects, virtualRoutes, clusters);
    }

    method AddOrUpdateRoute(p: ProjectId, s: SandboxId)
      modifies this
      ensures Valid() && projects == old(projects)[p := s]
    {
      projects := projects[p := s];
      UpdateSnapshot();
    }

    method RemoveRoute(p: ProjectId)
      modifies this
      ensures Valid() && projects == old(projects) - {p}
    {
      projects := projects - {p};
      UpdateSnapshot();
    }

    method HandleProjectSandboxUpdate(update: Update)
      modifies this
      ensures Valid() && projects == Handle(old(projects), update)
    {
      match update {
        case Set(p, s) => AddOrUpdateRoute(p, s);
        case Removed(p) => RemoveRoute(p);
      }
    }

    /** The subscriber's loop over received payloads. */
    method Receive(payloads: seq<string>)
      requires Valid()
      modifies this
      ensures Valid() && projects == Replay(old(projects), payloads)
    {
      for i := 0 to |payloads|
        invariant Valid() && projects == Replay(old(projects), payloads[..i])
      {
        assert payloads[..i + 1] == payloads[..i] + [payloads[i]];
        ReplayAppend(old(projects), payloads[..i], payloads[i]);
        match Parse(payloads[i]) {
          case None =>
          case Some(update) => HandleProjectSandboxUpdate(update);
        }
      }
      assert payloads[..|payloads|] == payloads;
    }
  }
}
