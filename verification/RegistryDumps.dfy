/** Recursive dumps: they never throw for an existing object, whatever was added and deleted
    before, and show what is registered, marking as stale exactly what is missing. */
module RegistryDumps {
  import opened Basics
  import opened Registry
  import opened RegistryLists
  import opened RegistryDeletes
  import opened RegistryRuns
  import opened RegistryCover
  import C = Clusters

  datatype ClusterDump = ClusterDump(name: string, endpoints: seq<C.Endpoint>) | StaleCluster(name: string)

  datatype RouteDump =
    | RouteDump(name: string, destination: ClusterDump, ingress: seq<ClusterDump>, egress: seq<ClusterDump>)
    | StaleRoute(name: string)

  datatype RuleDump = RuleDump(name: string, route: Option<RouteDump>) | StaleRule(name: string)

  datatype ListDump = ListDump(name: string, rules: seq<RuleDump>)

  datatype ListenerDump =
    | ListenerDump(name: string, rules: seq<RuleDump>)
    | StaleList(name: string, list: string)

  /** A recursive dump; None is the exception for an unknown object. */
  function DumpEndPoint(s: State, n: string): Option<C.Endpoint> {
    var i := Find(s.endpoints, n);
    if i < 0 then None else Some(C.Endpoint(n, s.endpoints[i].body.address))
  }

  function DumpEndPoints(s: State, ns: seq<string>): Option<seq<C.Endpoint>> {
    if ns == [] then Some([])
    else
      var e := DumpEndPoint(s, ns[0]);
      var rest := DumpEndPoints(s, ns[1..]);
      if e.None? || rest.None? then None else Some([e.value] + rest.value)
  }

  const VIRTUAL_ADDRESS := "<VIRTUAL>"

  function DumpCluster(s: State, n: string): Option<ClusterDump> {
    var i := Find(s.clusters, n);
    if i < 0 then None
    else if s.clusters[i].body.virtual then Some(ClusterDump(n, [C.Endpoint(n, VIRTUAL_ADDRESS)]))
    else
      var es := DumpEndPoints(s, EndpointNames(s.clusters[i].body.cluster));
      if es.None? then None else Some(ClusterDump(n, es.value))
  }

  function DumpUse(s: State, n: string): Option<ClusterDump> {
    if Has(s.clusters, n) then DumpCluster(s, n) else Some(StaleCluster(n))
  }

  function DumpUses(s: State, ns: seq<string>): Option<seq<ClusterDump>> {
    if ns == [] then Some([])
    else
      var c := DumpUse(s, ns[0]);
      var rest := DumpUses(s, ns[1..]);
      if c.None? || rest.None? then None else Some([c.value] + rest.value)
  }

  function DumpRoute(s: State, n: string): Option<RouteDump> {
    var i := Find(s.routes, n);
    if i < 0 then None
    else
      var b := s.routes[i].body;
      var d, g, e := DumpUse(s, b.destination), DumpUses(s, b.ingress), DumpUses(s, b.egress);
      if d.None? || g.None? || e.None? then None else Some(RouteDump(n, d.value, g.value, e.value))
  }

  /** An object in the place of a route name is printed as text. */
  const NOT_A_NAME := "[object Object]"

  function DumpRule(s: State, n: string): Option<RuleDump> {
    var i := Find(s.rules, n);
    if i < 0 then None
    else
      match s.rules[i].body
      case NoRoute => Some(RuleDump(n, None))
      case Pending => Some(RuleDump(n, Some(StaleRoute(NOT_A_NAME))))
      case To(m) =>
        var r := if Has(s.routes, m) then DumpRoute(s, m) else Some(StaleRoute(m));
        if r.None? then None else Some(RuleDump(n, r))
  }

  function DumpRules(s: State, ns: seq<string>): Option<seq<RuleDump>> {
    if ns == [] then Some([])
    else
      var r := if Has(s.rules, ns[0]) then DumpRule(s, ns[0]) else Some(StaleRule(ns[0]));
      var rest := DumpRules(s, ns[1..]);
      if r.None? || rest.None? then None else Some([r.value] + rest.value)
  }

  function DumpRuleList(s: State, n: string): Option<ListDump> {
    var i := Find(s.rulelists, n);
    if i < 0 then None
    else
      var rs := DumpRules(s, s.rulelists[i].body);
      if rs.None? then None else Some(ListDump(n, rs.value))
  }

  function DumpListener(s: State, n: string): Option<ListenerDump> {
    var i := Find(s.listeners, n);
    if i < 0 then None
    else
      var rl := s.listeners[i].body;
      if !Has(s.rulelists, rl) then Some(StaleList(n, rl))
      else
        var d := DumpRuleList(s, rl);
        if d.None? then None else Some(ListenerDump(n, d.value.rules))
  }

  // ------------------------------------------------------------------------ what a dump shows

  /** x stands in the registry under its name, with its address. */
  predicate Registered(s: State, x: C.Endpoint) {
    Has(s.endpoints, x.name) && s.endpoints[Find(s.endpoints, x.name)].body.address == x.address
  }

  /** The endpoints ds are the registered ones of the names ns, in order. */
  predicate ShowsEndpoints(s: State, ds: seq<C.Endpoint>, ns: seq<string>) {
    |ds| == |ns| && forall i :: 0 <= i < |ns| ==> ds[i].name == ns[i] && Registered(s, ds[i])
  }

  predicate ShowsCluster(s: State, d: ClusterDump, n: string) {
    if Has(s.clusters, n) then
      var b := s.clusters[Find(s.clusters, n)].body;
      d.ClusterDump? && d.name == n &&
      if b.virtual then d.endpoints == [C.Endpoint(n, VIRTUAL_ADDRESS)]
      else ShowsEndpoints(s, d.endpoints, EndpointNames(b.cluster))
    else d == StaleCluster(n)
  }

  predicate ShowsClusters(s: State, ds: seq<ClusterDump>, ns: seq<string>) {
    |ds| == |ns| && forall i :: 0 <= i < |ns| ==> ShowsCluster(s, ds[i], ns[i])
  }

  predicate ShowsRoute(s: State, d: RouteDump, n: string) {
    if Has(s.routes, n) then
      var b := s.routes[Find(s.routes, n)].body;
      d.RouteDump? && d.name == n && ShowsCluster(s, d.destination, b.destination) &&
      ShowsClusters(s, d.ingress, b.ingress) && ShowsClusters(s, d.egress, b.egress)
    else d == StaleRoute(n)
  }

  predicate ShowsRule(s: State, d: RuleDump, n: string) {
    if Has(s.rules, n) then
      d.RuleDump? && d.name == n &&
      match s.rules[Find(s.rules, n)].body
      case NoRoute => d.route.None?
      case Pending => d.route == Some(StaleRoute(NOT_A_NAME))
      case To(m) => d.route.Some? && ShowsRoute(s, d.route.value, m)
    else d == StaleRule(n)
  }

  predicate ShowsRules(s: State, ds: seq<RuleDump>, ns: seq<string>) {
    |ds| == |ns| && forall i :: 0 <= i < |ns| ==> ShowsRule(s, ds[i], ns[i])
  }

  predicate ShowsListener(s: State, d: ListenerDump, n: string)
    requires Has(s.listeners, n)
  {
    var list := s.listeners[Find(s.listeners, n)].body;
    d.name == n &&
    if Has(s.rulelists, list) then d.ListenerDump? && ShowsRules(s, d.rules, s.rulelists[Find(s.rulelists, list)].body)
    else d == StaleList(n, list)
  }

  // ------------------------------------------------------------------- in any sound registry

  lemma {:induction false} EndpointsDump(s: State, ns: seq<string>)
    requires forall i :: 0 <= i < |ns| ==> Has(s.endpoints, ns[i])
    ensures DumpEndPoints(s, ns).Some? && ShowsEndpoints(s, DumpEndPoints(s, ns).value, ns)
    decreases |ns|
  {
    if ns != [] {
      EndpointsDump(s, ns[1..]);
    }
  }

  lemma ClusterDumps(s: State, n: string)
    requires Sound(s)
    ensures DumpCluster(s, n).Some? <==> Has(s.clusters, n)
    ensures Has(s.clusters, n) ==> ShowsCluster(s, DumpCluster(s, n).value, n)
  {
    var i := Find(s.clusters, n);
    if i >= 0 {
      var c := s.clusters[i].body.cluster;
      forall k | 0 <= k < |c.endpoints|
        ensures Has(s.endpoints, EndpointNames(c)[k])
      {
        ListedIsRegistered(s, i, c.endpoints[k]);
      }
      EndpointsDump(s, EndpointNames(c));
    }
  }

  lemma {:induction false} UsesDump(s: State, ns: seq<string>)
    requires Sound(s)
    ensures DumpUses(s, ns).Some? && ShowsClusters(s, DumpUses(s, ns).value, ns)
    decreases |ns|
  {
    if ns != [] {
      ClusterDumps(s, ns[0]);
      UsesDump(s, ns[1..]);
    }
  }

  lemma RouteDumps(s: State, n: string)
    requires Sound(s)
    ensures DumpRoute(s, n).Some? <==> Has(s.routes, n)
    ensures Has(s.routes, n) ==> ShowsRoute(s, DumpRoute(s, n).value, n)
  {
    var i := Find(s.routes, n);
    if i >= 0 {
      var b := s.routes[i].body;
      ClusterDumps(s, b.destination);
      UsesDump(s, b.ingress);
      UsesDump(s, b.egress);
    }
  }

  lemma RuleDumps(s: State, n: string)
    requires Sound(s)
    ensures DumpRule(s, n).Some? <==> Has(s.rules, n)
    ensures Has(s.rules, n) ==> ShowsRule(s, DumpRule(s, n).value, n)
  {
    var i := Find(s.rules, n);
    if i >= 0 && s.rules[i].body.To? {
      RouteDumps(s, s.rules[i].body.name);
    }
  }

  lemma {:induction false} RulesDump(s: State, ns: seq<string>)
    requires Sound(s)
    ensures DumpRules(s, ns).Some? && ShowsRules(s, DumpRules(s, ns).value, ns)
    decreases |ns|
  {
    if ns != [] {
      RuleDumps(s, ns[0]);
      RulesDump(s, ns[1..]);
    }
  }

  lemma RuleListDumps(s: State, n: string)
    requires Sound(s)
    ensures DumpRuleList(s, n).Some? <==> Has(s.rulelists, n)
    ensures Has(s.rulelists, n) ==>
              DumpRuleList(s, n).value.name == n &&
              ShowsRules(s, DumpRuleList(s, n).value.rules, s.rulelists[Find(s.rulelists, n)].body)
  {
    var i := Find(s.rulelists, n);
    if i >= 0 {
      RulesDump(s, s.rulelists[i].body);
    }
  }

  lemma ListenerDumps(s: State, n: string)
    requires Sound(s)
    ensures DumpListener(s, n).Some? <==> Has(s.listeners, n)
    ensures Has(s.listeners, n) ==> ShowsListener(s, DumpListener(s, n).value, n)
  {
    var i := Find(s.listeners, n);
    if i >= 0 {
      RuleListDumps(s, s.listeners[i].body);
    }
  }

  // ------------------------------------------------------------------------- over all runs

  /** In every configuration that any run reaches, colliding endpoint names included, a recursive
      dump throws exactly when there is no such object. */
  lemma DumpsNeverThrow(cs: seq<Call>, n: string)
    ensures var s := Run(EMPTY, cs);
      && (DumpListener(s, n).Some? <==> Has(s.listeners, n))
      && (DumpRuleList(s, n).Some? <==> Has(s.rulelists, n))
      && (DumpRule(s, n).Some? <==> Has(s.rules, n))
      && (DumpRoute(s, n).Some? <==> Has(s.routes, n))
      && (DumpCluster(s, n).Some? <==> Has(s.clusters, n))
  {
    RunSound(EMPTY, cs);
    var s := Run(EMPTY, cs);
    ListenerDumps(s, n);
    RuleListDumps(s, n);
    RuleDumps(s, n);
    RouteDumps(s, n);
    ClusterDumps(s, n);
  }

  /** And it shows rules, routes, clusters and endpoints in order, with a stale mark exactly
      for each object that is missing. */
  lemma DumpsShow(cs: seq<Call>, n: string)
    ensures var s := Run(EMPTY, cs);
      && (Has(s.listeners, n) ==> DumpListener(s, n).Some? && ShowsListener(s, DumpListener(s, n).value, n))
      && (Has(s.rules, n) ==> DumpRule(s, n).Some? && ShowsRule(s, DumpRule(s, n).value, n))
      && (Has(s.routes, n) ==> DumpRoute(s, n).Some? && ShowsRoute(s, DumpRoute(s, n).value, n))
      && (Has(s.clusters, n) ==> DumpCluster(s, n).Some? && ShowsCluster(s, DumpCluster(s, n).value, n))
  {
    RunSound(EMPTY, cs);
    var s := Run(EMPTY, cs);
    ListenerDumps(s, n);
    RuleDumps(s, n);
    RouteDumps(s, n);
    ClusterDumps(s, n);
  }

  // ------------------------------------------------------------------- a cluster's own list

  /** What a cluster really balances over is shown exactly when the first endpoint registered
      under each listed name has the listed address. */
  lemma OwnListShown(s: State, n: string)
    requires Sound(s) && Has(s.clusters, n) && !s.clusters[Find(s.clusters, n)].body.virtual
    ensures var es := s.clusters[Find(s.clusters, n)].body.cluster.endpoints;
      DumpCluster(s, n) == Some(ClusterDump(n, es)) <==> forall i :: 0 <= i < |es| ==> Registered(s, es[i])
  {
    var c := s.clusters[Find(s.clusters, n)].body.cluster;
    ClusterDumps(s, n);
    var ds := DumpCluster(s, n).value.endpoints;
    assert ShowsEndpoints(s, ds, EndpointNames(c));
    if forall i :: 0 <= i < |c.endpoints| ==> Registered(s, c.endpoints[i]) {
      forall i | 0 <= i < |ds|
        ensures ds[i] == c.endpoints[i]
      {
        assert Registered(s, ds[i]) && ds[i].name == EndpointNames(c)[i];
      }
      assert ds == c.endpoints;
    }
  }

  lemma AllRegistered(s: State, k: nat)
    requires WF(s) && k < |s.clusters|
    ensures forall i :: 0 <= i < |s.clusters[k].body.cluster.endpoints| ==>
              Registered(s, s.clusters[k].body.cluster.endpoints[i])
  {
    var c := s.clusters[k];
    assert Lists(c, s.endpoints);
    SelectIn(s.endpoints, c.name);
    forall i | 0 <= i < |c.body.cluster.endpoints|
      ensures Registered(s, c.body.cluster.endpoints[i])
    {
      var x := c.body.cluster.endpoints[i];
      assert x in Select(s.endpoints, c.name);
      var e :| e in s.endpoints && e.name == x.name && e.body == EndpointBody(c.name, x.address);
      var m :| 0 <= m < |s.endpoints| && s.endpoints[m] == e;
      FindAt(s.endpoints, m);
    }
  }

  /** After a run without a taken self-made name, a cluster's dump is its own list. */
  lemma FreeNamesShowOwnList(cs: seq<Call>, n: string)
    requires !Collision(EMPTY, cs)
    ensures var s := Run(EMPTY, cs);
      Has(s.clusters, n) && !s.clusters[Find(s.clusters, n)].body.virtual ==>
        DumpCluster(s, n) == Some(ClusterDump(n, s.clusters[Find(s.clusters, n)].body.cluster.endpoints))
  {
    var s := Run(EMPTY, cs);
    EmptyIsWellFormed();
    RunKeeps(EMPTY, cs);
    RunSound(EMPTY, cs);
    var i := Find(s.clusters, n);
    if i >= 0 && !s.clusters[i].body.virtual {
      AllRegistered(s, i);
      OwnListShown(s, n);
    }
  }

  lemma DoubledDump(s: State, cluster: string, own: string)
    requires Doubled(s, cluster, own)
    ensures DumpCluster(s, cluster) == Some(ClusterDump(cluster, [C.Endpoint(own, "a"), C.Endpoint(own, "a")]))
  {
    var ns := EndpointNames(s.clusters[0].body.cluster);
    assert |ns| == 2 && ns[0] == own && ns[1] == own;
    EndpointsDump(s, ns);
    var ds := DumpEndPoints(s, ns).value;
    assert Find(s.endpoints, own) == 0 && Find(s.clusters, cluster) == 0;
    assert Registered(s, ds[0]) && Registered(s, ds[1]);
    assert ds == [C.Endpoint(own, "a"), C.Endpoint(own, "a")];
  }

  /** With a taken name it need not be: the second endpoint is shown with the address of the
      first. */
  lemma TakenNameShowsOther(cluster: string)
    requires ValidName(Some(cluster))
    ensures var s, own := Run(EMPTY, Colliding(cluster)), cluster + "-EndPoint-" + Decimal(0);
      && Doubled(s, cluster, own)
      && DumpCluster(s, cluster) == Some(ClusterDump(cluster, [C.Endpoint(own, "a"), C.Endpoint(own, "a")]))
  {
    CollisionHappens(cluster);
    DoubledDump(Run(EMPTY, Colliding(cluster)), cluster, cluster + "-EndPoint-" + Decimal(0));
  }
}
