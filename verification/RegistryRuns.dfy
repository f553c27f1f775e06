/** Whole runs of API calls, each run to completion: the registry stays well-formed unless a
    self-made endpoint name is taken. */
module RegistryRuns {
  import opened Basics
  import opened Registry
  import opened RegistryLists
  import opened RegistryDeletes
  import opened RegistryClosure
  import opened RegistryAdds
  import opened RegistryGrowth
  import opened RegistryListeners
  import C = Clusters

  // ------------------------------------------------------------------------------- API calls

  datatype Call =
    | CallAddListener(listener: ListenerSpec)
    | CallAddCluster(cluster: ClusterSpec)
    | CallAddRuleList(name: Option<string>, rules: seq<Use<RuleSpec>>)
    | CallAddRule(rule: RuleSpec)
    | CallAddRoute(route: RouteSpec)
    | CallAddEndPoint(owner: string, endpoint: EndpointSpec)
    | CallAddRuleToRuleList(list: string, use: Use<RuleSpec>, pos: int)
    | CallDeleteRuleFromRuleList(list: string, pos: int, recursive: bool)
    | CallDeleteListener(n: string, recursive: bool)
    | CallDeleteCluster(n: string)
    | CallDeleteRuleList(n: string, recursive: bool)
    | CallDeleteRule(n: string, recursive: bool)
    | CallDeleteRoute(n: string, recursive: bool)
    | CallDeleteEndPoint(n: string)

  function Perform(s: State, c: Call): Out {
    match c
    case CallAddListener(l) => AddListener(s, l, false)
    case CallAddCluster(cl) => AddCluster(s, cl, false)
    case CallAddRuleList(n, rs) => AddRuleList(s, n, rs, false)
    case CallAddRule(r) => AddRule(s, r, false)
    case CallAddRoute(r) => AddRoute(s, r, false)
    case CallAddEndPoint(o, e) => AddEndPoint(s, o, e)
    case CallAddRuleToRuleList(n, u, p) =>
      var k := Find(s.rulelists, n); if k < 0 then Thrown(s, Unknown) else AddRuleToRuleList(s, k, u, p)
    case CallDeleteRuleFromRuleList(n, p, r) =>
      var k := Find(s.rulelists, n); if k < 0 then Thrown(s, Unknown) else DeleteRuleFromRuleList(s, k, p, r)
    case CallDeleteListener(n, r) => DeleteListener(s, n, r)
    case CallDeleteCluster(n) => DeleteCluster(s, n)
    case CallDeleteRuleList(n, r) => DeleteRuleList(s, n, r)
    case CallDeleteRule(n, r) => DeleteRule(s, n, r)
    case CallDeleteRoute(n, r) => DeleteRoute(s, n, r)
    case CallDeleteEndPoint(n) => DeleteEndPoint(s, n)
  }

  function Run(s: State, cs: seq<Call>): State
    decreases |cs|
  {
    if cs == [] then s else Run(Perform(s, cs[0]).reg, cs[1..])
  }

  /** Some call of the run adds a nameless endpoint whose self-made name is taken. */
  ghost predicate Collision(s: State, cs: seq<Call>)
    decreases |cs|
  {
    cs != [] && (Collides(s, cs[0]) || Collision(Perform(s, cs[0]).reg, cs[1..]))
  }

  ghost predicate Collides(s: State, c: Call) {
    c.CallAddEndPoint? && NameTaken(s, c.owner, c.endpoint)
  }

  // ------------------------------------------------------------------------- deletes keep it

  lemma DeleteRouteKeeps(s: State, n: string, recursive: bool)
    requires WF(s)
    ensures WF(DeleteRoute(s, n, recursive).reg)
  {
    var i := Find(s.routes, n);
    if recursive {
      DeleteRoutePrunes(s, n);
      PruneKeeps(s, RouteClosure(s, n));
    } else if i >= 0 {
      SpliceKeeps(s.routes, i);
      KeepUnique(s.routes, {n});
    }
  }

  lemma DeleteRuleKeeps(s: State, n: string, recursive: bool)
    requires WF(s)
    ensures WF(DeleteRule(s, n, recursive).reg)
  {
    var i := Find(s.rules, n);
    if recursive {
      DeleteRulePrunes(s, n);
      PruneKeeps(s, RuleClosure(s, {n}));
    } else if i >= 0 {
      SpliceKeeps(s.rules, i);
      KeepUnique(s.rules, {n});
    }
  }

  lemma DeleteRuleFromRuleListKeeps(s: State, k: nat, pos: int, recursive: bool)
    requires WF(s) && k < |s.rulelists|
    ensures WF(DeleteRuleFromRuleList(s, k, pos, recursive).reg)
  {
    var ns := s.rulelists[k].body;
    if 0 <= pos < |ns| {
      var o := if recursive then DeleteRule(s, ns[pos], recursive) else Done(s);
      if recursive {
        DeleteRuleKeeps(s, ns[pos], recursive);
      }
      SetListKeeps(o.reg, k, Splice(ns, pos));
    }
  }

  lemma {:induction false} DeleteListedKeeps(s: State, k: nat, ns: seq<string>)
    requires WF(s) && k < |s.rulelists|
    ensures WF(DeleteListed(s, k, ns).reg)
    decreases |ns|
  {
    if ns != [] {
      DeleteRuleFromRuleListKeeps(s, k, IndexOf(s.rulelists[k].body, ns[0]), false);
      var o := Unlist(s, k, ns[0]);
      DeleteRuleKeeps(o.reg, ns[0], true);
      var p := DeleteListedOnce(s, k, ns[0]);
      if p.Done? {
        DeleteListedKeeps(p.reg, k, ns[1..]);
      }
    }
  }

  lemma DropListKeeps(s: State, i: nat)
    requires WF(s) && i < |s.rulelists|
    ensures WF(s.(rulelists := Splice(s.rulelists, i)))
  {
    SpliceKeeps(s.rulelists, i);
    KeepUnique(s.rulelists, {s.rulelists[i].name});
  }

  lemma DeleteRuleListKeeps(s: State, n: string, recursive: bool)
    requires WF(s)
    ensures WF(DeleteRuleList(s, n, recursive).reg)
  {
    var i := Find(s.rulelists, n);
    if i >= 0 {
      DeleteListedKeeps(s, i, s.rulelists[i].body);
      var o := if recursive then DeleteListed(s, i, s.rulelists[i].body) else Done(s);
      DropListKeeps(o.reg, i);
    }
  }

  lemma DeleteListenerKeeps(s: State, n: string, recursive: bool)
    requires WF(s)
    ensures WF(DeleteListener(s, n, recursive).reg)
  {
    var i := Find(s.listeners, n);
    if i >= 0 {
      DeleteRuleListKeeps(s, s.listeners[i].body, recursive);
      SpliceKeeps(s.listeners, i);
      KeepUnique(s.listeners, {n});
    }
  }

  lemma AddListenerKeeps(s: State, l: ListenerSpec, auto: bool)
    requires WF(s)
    ensures WF(AddListener(s, l, auto).reg)
  {
    RegisterKeeps(s, l, auto);
    var o := Register(s, l, auto);
    if o.Done? {
      DeleteListenerKeeps(o.reg, l.name.value, true);
    }
  }

  lemma AddRuleToRuleListKeeps(s: State, k: nat, u: Use<RuleSpec>, pos: int)
    requires WF(s) && k < |s.rulelists|
    ensures WF(AddRuleToRuleList(s, k, u, pos).reg)
  {
    var rl := s.rulelists[k];
    if 0 <= pos <= |rl.body| {
      if u.Named? {
        SetListKeeps(s, k, Insert(rl.body, pos, u.name));
      } else if u.Inline? {
        AddInlineRuleKeeps(s, rl.name + "-Rule-", u.spec);
        var q := AddInlineRule(s, rl.name + "-Rule-", u.spec);
        if q.0.Done? {
          SetListKeeps(q.0.reg, k, Insert(rl.body, pos, q.1));
        }
      }
    }
  }

  // ------------------------------------------------------------------------------ whole runs

  /** Every API call, successful or not, keeps the registry well-formed, except a collision. */
  lemma PerformKeeps(s: State, c: Call)
    requires WF(s)
    ensures WF(Perform(s, c).reg) <==> !Collides(s, c)
  {
    match c {
      case CallAddListener(l) => AddListenerKeeps(s, l, false);
      case CallAddCluster(cl) => AddClusterKeeps(s, cl, false);
      case CallAddRuleList(n, rs) => AddRuleListKeeps(s, n, rs, false);
      case CallAddRule(r) => AddRuleKeeps(s, r, false);
      case CallAddRoute(r) => AddRouteKeeps(s, r, false);
      case CallAddEndPoint(o, e) => AddEndPointKeeps(s, o, e);
      case CallAddRuleToRuleList(n, u, p) =>
        if Has(s.rulelists, n) {
          AddRuleToRuleListKeeps(s, Find(s.rulelists, n), u, p);
        }
      case CallDeleteRuleFromRuleList(n, p, r) =>
        if Has(s.rulelists, n) {
          DeleteRuleFromRuleListKeeps(s, Find(s.rulelists, n), p, r);
        }
      case CallDeleteListener(n, r) => DeleteListenerKeeps(s, n, r);
      case CallDeleteCluster(n) =>
        DeleteClusterPrunes(s, n);
        PruneKeeps(s, Drops({}, {}, {n}));
      case CallDeleteRuleList(n, r) => DeleteRuleListKeeps(s, n, r);
      case CallDeleteRule(n, r) => DeleteRuleKeeps(s, n, r);
      case CallDeleteRoute(n, r) => DeleteRouteKeeps(s, n, r);
      case CallDeleteEndPoint(n) => DeleteEndPointKeeps(s, n);
    }
  }

  /** From an empty registry, any run without a collision ends well-formed: names are unique,
      and the endpoint registry is the disjoint union of the clusters' lists. */
  lemma {:induction false} RunKeeps(s: State, cs: seq<Call>)
    requires WF(s) && !Collision(s, cs)
    ensures WF(Run(s, cs))
    decreases |cs|
  {
    if cs != [] {
      PerformKeeps(s, cs[0]);
      RunKeeps(Perform(s, cs[0]).reg, cs[1..]);
    }
  }

  lemma EmptyIsWellFormed()
    ensures WF(EMPTY)
  {
  }

  lemma OwnerLists(s: State, i: nat, k: nat)
    requires WF(s) && i < |s.endpoints| && k < |s.clusters|
    ensures var e, c := s.endpoints[i], s.clusters[k];
      && (e.body.cluster == c.name ==> C.Endpoint(e.name, e.body.address) in c.body.cluster.endpoints)
      && (e.name in EndpointNames(c.body.cluster) ==> e.body.cluster == c.name)
  {
    var e, c := s.endpoints[i], s.clusters[k];
    assert Lists(c, s.endpoints);
    SelectIn(s.endpoints, c.name);
    assert e in s.endpoints;
    var ns := EndpointNames(c.body.cluster);
    if e.name in ns {
      var m :| 0 <= m < |ns| && ns[m] == e.name;
      assert c.body.cluster.endpoints[m] in Select(s.endpoints, c.name);
      var f :| f in s.endpoints && f.name == e.name && f.body.cluster == c.name;
    }
  }

  /** In a well-formed registry, each endpoint is in exactly one cluster's list. */
  lemma ExactlyOneOwner(s: State, i: nat)
    requires WF(s) && i < |s.endpoints|
    ensures exists j :: 0 <= j < |s.clusters|
              && C.Endpoint(s.endpoints[i].name, s.endpoints[i].body.address) in s.clusters[j].body.cluster.endpoints
              && forall k :: 0 <= k < |s.clusters| && k != j ==>
                   s.endpoints[i].name !in EndpointNames(s.clusters[k].body.cluster)
  {
    var e := s.endpoints[i];
    assert e in s.endpoints;
    var c :| c in s.clusters && c.name == e.body.cluster;
    var j :| 0 <= j < |s.clusters| && s.clusters[j] == c;
    OwnerLists(s, i, j);
    forall k | 0 <= k < |s.clusters| && k != j
      ensures e.name !in EndpointNames(s.clusters[k].body.cluster)
    {
      OwnerLists(s, i, k);
      assert s.clusters[k].name != c.name;
    }
  }

  function PlainCluster(n: string): ClusterSpec { ClusterSpec(Some(n), true, true, false, true, C.Trivial, [], true) }

  /** The three calls after which a self-made name is taken: a cluster, an endpoint under the
      name that the next nameless one will make up, and a nameless one. */
  function Colliding(cluster: string): seq<Call> {
    [CallAddCluster(PlainCluster(cluster)),
     CallAddEndPoint(cluster, EndpointSpec(Some(cluster + "-EndPoint-" + Decimal(0)), true, "a")),
     CallAddEndPoint(cluster, EndpointSpec(None, true, "b"))]
  }

  lemma OwnNameValid(cluster: string)
    requires ValidName(Some(cluster))
    ensures ValidName(Some(cluster + "-EndPoint-" + Decimal(0)))
  {
    var tail := "-EndPoint-" + Decimal(0);
    assert tail == "-EndPoint-0";
    assert forall i :: 0 <= i < |tail| ==> tail[i] !in WHITESPACE;
    assert cluster + "-EndPoint-" + Decimal(0) == cluster + tail;
  }

  /** Two endpoints of one name, with different addresses, in the cluster's list and in the
      registry. */
  predicate Doubled(s: State, cluster: string, own: string) {
    && |s.clusters| == 1 && s.clusters[0].name == cluster && !s.clusters[0].body.virtual
    && s.clusters[0].body.cluster.endpoints == [C.Endpoint(own, "a"), C.Endpoint(own, "b")]
    && s.endpoints == [Entry(own, false, EndpointBody(cluster, "a")), Entry(own, false, EndpointBody(cluster, "b"))]
  }

  /** From an empty registry these calls register one endpoint name twice. */
  lemma CollisionHappens(cluster: string)
    requires ValidName(Some(cluster))
    ensures Collision(EMPTY, Colliding(cluster)) && !WF(Run(EMPTY, Colliding(cluster)))
    ensures Doubled(Run(EMPTY, Colliding(cluster)), cluster, cluster + "-EndPoint-" + Decimal(0))
  {
    var cs := Colliding(cluster);
    var own := cluster + "-EndPoint-" + Decimal(0);
    OwnNameValid(cluster);
    var s1 := Perform(EMPTY, cs[0]).reg;
    var s2 := Perform(s1, cs[1]).reg;
    assert AddEndPoints(PushCluster(EMPTY, cluster, cs[0].cluster, false), cluster, []).Done?;
    assert s1 == EMPTY.(clusters := [Entry(cluster, false, ClusterBody(false, C.NewCluster(C.Trivial, true)))]);
    assert AddEndPoint(s1, cluster, cs[1].endpoint) == Done(PutEndPoint(s1, 0, own, "a"));
    assert s2.endpoints == [Entry(own, false, EndpointBody(cluster, "a"))];
    EmptyIsWellFormed();
    PerformKeeps(EMPTY, cs[0]);
    PerformKeeps(s1, cs[1]);
    assert NameTaken(s2, cluster, cs[2].endpoint);
    PerformKeeps(s2, cs[2]);
    assert Perform(s2, cs[2]).reg.endpoints == s2.endpoints + [Entry(own, false, EndpointBody(cluster, "b"))];
    assert cs[1..][1..] == [cs[2]] && cs[1..][0] == cs[1];
    assert Run(EMPTY, cs) == Run(s2, [cs[2]]) == Perform(s2, cs[2]).reg;
    assert Collision(s2, [cs[2]]);
  }
}
