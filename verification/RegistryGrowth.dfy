/** Nested adds of routes, rules and rule lists: the registry stays well-formed whatever the
    outcome, and what a successful add appends is reachable from the object added. */
module RegistryGrowth {
  import opened Basics
  import opened Registry
  import opened RegistryLists
  import opened RegistryDeletes
  import opened RegistryClosure
  import opened RegistryAdds

  // --------------------------------------------------------------------- what a spec names

  function NamedIn(us: seq<Use<ClusterSpec>>): set<string> { set u | u in us && u.Named? :: u.name }

  /** The clusters that a route refers to by name. */
  function NamedClusters(r: RouteSpec): set<string> {
    NamedIn([r.destination]) + NamedIn(r.ingress) + NamedIn(r.egress)
  }

  function WantedRoutes(r: RuleSpec): set<string> {
    if r.route.Some? && r.route.value.Named? then {r.route.value.name} else {}
  }

  function WantedClusters(r: RuleSpec): set<string> {
    if r.route.Some? && r.route.value.Inline? then NamedClusters(r.route.value.spec) else {}
  }

  // ------------------------------------------------------------------------------- clusters

  lemma NamesOfPrefix<B>(a: seq<Entry<B>>, b: seq<Entry<B>>)
    requires a <= b
    ensures Names(a) <= Names(b)
    ensures forall n :: n in Names(b) ==> n in Names(a) || exists i :: |a| <= i < |b| && b[i].name == n
  {
    assert b == a + b[|a|..];
    NamesOfSum(a, b[|a|..]);
    forall n | n in Names(b) && n !in Names(a)
      ensures exists i :: |a| <= i < |b| && b[i].name == n
    {
      var e :| e in b[|a|..] && e.name == n;
      var i :| 0 <= i < |b[|a|..]| && b[|a|..][i] == e;
      assert b[|a| + i] == e;
    }
  }

  lemma ClusterGrowthChains(s: State, t: State, u: State)
    requires ClusterGrowth(s, t) && ClusterGrowth(t, u)
    ensures ClusterGrowth(s, u)
  {
    NamesOfPrefix(s.clusters, t.clusters);
    forall i | |s.endpoints| <= i < |u.endpoints|
      ensures u.endpoints[i].body.cluster !in Names(s.clusters)
    {
      if i < |t.endpoints| {
        assert u.endpoints[i] == t.endpoints[i];
      }
    }
  }

  /** From s to t, every new cluster is autogenerated and mentioned in ns; ns mentions all that
      was named, and of the clusters of s nothing else. */
  ghost predicate Accounted(s: State, t: State, ns: set<string>, named: set<string>) {
    (forall i :: |s.clusters| <= i < |t.clusters| ==> t.clusters[i].auto && t.clusters[i].name in ns) &&
    (forall n :: n in ns ==> n in named || n !in Names(s.clusters)) &&
    named <= ns
  }

  lemma AccountedChains(s: State, t: State, u: State, a: set<string>, m: set<string>, b: set<string>, n: set<string>)
    requires s.clusters <= t.clusters <= u.clusters
    requires Accounted(s, t, a, m) && Accounted(t, u, b, n)
    ensures Accounted(s, u, a + b, m + n)
  {
    NamesOfPrefix(s.clusters, t.clusters);
    forall i | |s.clusters| <= i < |u.clusters|
      ensures u.clusters[i].auto && u.clusters[i].name in a + b
    {
      if i < |t.clusters| {
        assert u.clusters[i] == t.clusters[i];
      }
    }
  }

  lemma UseThenRest(s: State, t: State, v: State, u: Use<ClusterSpec>, n: string, us: seq<Use<ClusterSpec>>,
                    ns: seq<string>)
    requires ClusterGrowth(s, t) && Accounted(s, t, {n}, NamedIn([u]))
    requires ClusterGrowth(t, v) && Accounted(t, v, SetOf(ns), NamedIn(us))
    ensures ClusterGrowth(s, v) && Accounted(s, v, SetOf([n] + ns), NamedIn([u] + us))
  {
    assert SetOf([n] + ns) == {n} + SetOf(ns);
    assert NamedIn([u] + us) == NamedIn([u]) + NamedIn(us);
    ClusterGrowthChains(s, t, v);
    AccountedChains(s, t, v, {n}, NamedIn([u]), SetOf(ns), NamedIn(us));
  }

  /** What adding one autogenerated cluster named n comes to. */
  ghost predicate ClusterAdded(s: State, n: string, o: Out) {
    WF(o.reg) &&
    (o.Done? ==> ClusterGrowth(s, o.reg) && OneCluster(s, o.reg, n, true) && n !in Names(s.clusters))
  }

  lemma ClusterAddedIds(s: State, s1: State, n: string, o: Out)
    requires Same(s, s1) && ClusterAdded(s1, n, o)
    ensures ClusterAdded(s, n, o)
  {
  }

  lemma SameIsWF(s: State, s1: State)
    requires Same(s, s1) && WF(s)
    ensures WF(s1)
  {
  }

  lemma AddClusterAdds(s: State, c: ClusterSpec)
    requires WF(s) && c.name.Some?
    ensures ClusterAdded(s, c.name.value, AddCluster(s, c, true))
  {
    AddClusterKeeps(s, c, true);
  }

  lemma AddInlineClusterKeeps(s: State, prefix: string, c: ClusterSpec)
    requires WF(s)
    ensures var o := AddInlineCluster(s, prefix, c); ClusterAdded(s, o.1, o.0)
  {
    var n := PickName(c.name, s.clusters, prefix + Decimal(s.ids.cluster));
    var s1 := CountCluster(s, c.name);
    SameIsWF(s, s1);
    if n.Some? {
      AddClusterAdds(s1, c.(name := n));
      ClusterAddedIds(s, s1, n.value, AddCluster(s1, c.(name := n), true));
    }
  }

  lemma InlineUseKeeps(s: State, c: ClusterSpec, n: string, o: Out)
    requires ClusterAdded(s, n, o) && o.Done?
    ensures ClusterGrowth(s, o.reg) && Accounted(s, o.reg, {n}, NamedIn([Inline(c)]))
  {
    assert NamedIn([Inline(c)]) == {};
  }

  lemma NamedUseKeeps(s: State, n: string)
    ensures ClusterGrowth(s, s) && Accounted(s, s, {n}, NamedIn([Named(n)]))
  {
    var u: Use<ClusterSpec> := Named(n);
    assert NamedIn([u]) == {n} by { assert u in [u]; }
  }

  lemma AddUseKeeps(s: State, prefix: string, u: Use<ClusterSpec>)
    requires WF(s)
    ensures var o := AddUse(s, prefix, u);
      && WF(o.0.reg)
      && (o.0.Done? ==> ClusterGrowth(s, o.0.reg) && Accounted(s, o.0.reg, {o.1}, NamedIn([u])))
  {
    match u {
      case Other =>
      case Named(n) =>
        NamedUseKeeps(s, n);
      case Inline(c) =>
        AddInlineClusterKeeps(s, prefix, c);
        var o := AddInlineCluster(s, prefix, c);
        if o.0.Done? {
          InlineUseKeeps(s, c, o.1, o.0);
        }
    }
  }

  lemma {:induction false} AddUsesKeeps(s: State, prefix: string, uses: seq<Use<ClusterSpec>>)
    requires WF(s)
    ensures var r := AddUses(s, prefix, uses);
      && WF(r.0.reg)
      && (r.0.Done? ==> ClusterGrowth(s, r.0.reg) && Accounted(s, r.0.reg, SetOf(r.1), NamedIn(uses)))
    decreases |uses|
  {
    if uses != [] {
      AddUseKeeps(s, prefix, uses[0]);
      var o := AddUse(s, prefix, uses[0]);
      if o.0.Done? {
        AddUsesKeeps(o.0.reg, prefix, uses[1..]);
        var r := AddUses(o.0.reg, prefix, uses[1..]);
        if r.0.Done? {
          UseThenRest(s, o.0.reg, r.0.reg, uses[0], o.1, uses[1..], r.1);
          assert uses == [uses[0]] + uses[1..];
        }
      }
    }
  }

  // --------------------------------------------------------------------------------- routes

  /** One route was appended, with the clusters it defines inline. */
  ghost predicate RouteGrowth(s: State, t: State, n: string, auto: bool, named: set<string>) {
    SameOverRoutes(s, t) && |t.routes| == |s.routes| + 1 && s.routes <= t.routes &&
    t.routes[|s.routes|].name == n && t.routes[|s.routes|].auto == auto && n !in Names(s.routes) &&
    ClusterGrowth(s, t.(routes := s.routes)) &&
    Accounted(s, t, SetOf(Refs(t.routes[|s.routes|].body)), named)
  }

  lemma AddRouteKeeps(s: State, r: RouteSpec, auto: bool)
    requires WF(s)
    ensures var o := AddRoute(s, r, auto);
      WF(o.reg) && (o.Done? ==> RouteGrowth(s, o.reg, r.name.value, auto, NamedClusters(r)))
  {
    if ValidName(r.name) && r.wellFormed && !Has(s.routes, r.name.value) {
      var n := r.name.value;
      AddUsesKeeps(s, n + "-Cluster-", [r.destination]);
      var d := AddUses(s, n + "-Cluster-", [r.destination]);
      if d.0.Done? {
        AddUsesKeeps(d.0.reg, n + "-ingress-Cluster-", r.ingress);
        var i := AddUses(d.0.reg, n + "-ingress-Cluster-", r.ingress);
        if i.0.Done? {
          AddUsesKeeps(i.0.reg, n + "-egress-Cluster-", r.egress);
          var e := AddUses(i.0.reg, n + "-egress-Cluster-", r.egress);
          if e.0.Done? {
            RouteCompleted(s, d.0.reg, i.0.reg, e.0.reg, r, auto, d.1, i.1, e.1);
          }
        }
      }
    }
  }

  lemma RouteCompleted(s: State, d: State, i: State, e: State, r: RouteSpec, auto: bool,
                       dn: seq<string>, ins: seq<string>, egs: seq<string>)
    requires WF(e) && r.name.Some? && !Has(s.routes, r.name.value) && |dn| == 1
    requires ClusterGrowth(s, d) && ClusterGrowth(d, i) && ClusterGrowth(i, e)
    requires Accounted(s, d, SetOf(dn), NamedIn([r.destination]))
    requires Accounted(d, i, SetOf(ins), NamedIn(r.ingress))
    requires Accounted(i, e, SetOf(egs), NamedIn(r.egress))
    ensures var x := Entry(r.name.value, auto, RouteBody(dn[0], ins, egs));
      var t := e.(routes := e.routes + [x]);
      WF(t) && RouteGrowth(s, t, r.name.value, auto, NamedClusters(r))
  {
    var x := Entry(r.name.value, auto, RouteBody(dn[0], ins, egs));
    ClusterGrowthChains(s, d, i);
    ClusterGrowthChains(s, i, e);
    AccountedChains(s, d, i, SetOf(dn), NamedIn([r.destination]), SetOf(ins), NamedIn(r.ingress));
    AccountedChains(s, i, e, SetOf(dn) + SetOf(ins), NamedIn([r.destination]) + NamedIn(r.ingress),
                    SetOf(egs), NamedIn(r.egress));
    assert SetOf(Refs(x.body)) == SetOf(dn) + SetOf(ins) + SetOf(egs) by { assert dn == [dn[0]]; }
    PushUnique(e.routes, x);
    FindIs(s.routes, x.name);
  }

  // --------------------------------------------------------------------------------- rules

  /** A new rule points to n. */
  predicate Pointed(s: State, t: State, n: string) {
    exists k :: |s.rules| <= k < |t.rules| && t.rules[k].body == To(n)
  }

  /** A new route mentions n. */
  predicate Mentioned(s: State, t: State, n: string) {
    exists k :: |s.routes| <= k < |t.routes| && n in Refs(t.routes[k].body)
  }

  predicate Prefixes(s: State, t: State) {
    s.rules <= t.rules && s.routes <= t.routes && s.clusters <= t.clusters && s.endpoints <= t.endpoints
  }

  /** Everything new is autogenerated and reachable from a new rule. */
  ghost predicate Reachable(s: State, t: State) {
    (forall i :: |s.routes| <= i < |t.routes| ==> t.routes[i].auto && Pointed(s, t, t.routes[i].name)) &&
    (forall i :: |s.clusters| <= i < |t.clusters| ==> t.clusters[i].auto && Mentioned(s, t, t.clusters[i].name)) &&
    (forall i :: |s.endpoints| <= i < |t.endpoints| ==> t.endpoints[i].body.cluster !in Names(s.clusters))
  }

  /** New rules and routes refer to what was named (routes rs, clusters cs), and among what
      existed before to nothing else. */
  ghost predicate Traced(s: State, t: State, rs: set<string>, cs: set<string>) {
    (forall n :: n in rs ==> Pointed(s, t, n)) &&
    (forall n :: Pointed(s, t, n) ==> n in rs || n !in Names(s.routes)) &&
    (forall n :: n in cs ==> Mentioned(s, t, n)) &&
    (forall n :: Mentioned(s, t, n) ==> n in cs || n !in Names(s.clusters))
  }

  ghost predicate Grown(s: State, t: State, rs: set<string>, cs: set<string>) {
    Prefixes(s, t) && Reachable(s, t) && Traced(s, t, rs, cs)
  }

  lemma PointedChains(s: State, t: State, u: State, n: string)
    requires Prefixes(s, t) && Prefixes(t, u)
    ensures Pointed(s, u, n) <==> Pointed(s, t, n) || Pointed(t, u, n)
    ensures Mentioned(s, u, n) <==> Mentioned(s, t, n) || Mentioned(t, u, n)
  {
    if Pointed(s, t, n) {
      var k :| |s.rules| <= k < |t.rules| && t.rules[k].body == To(n);
      assert u.rules[k] == t.rules[k];
    }
    if Mentioned(s, t, n) {
      var k :| |s.routes| <= k < |t.routes| && n in Refs(t.routes[k].body);
      assert u.routes[k] == t.routes[k];
    }
    if Pointed(s, u, n) {
      var k :| |s.rules| <= k < |u.rules| && u.rules[k].body == To(n);
      assert k < |t.rules| ==> u.rules[k] == t.rules[k];
    }
    if Mentioned(s, u, n) {
      var k :| |s.routes| <= k < |u.routes| && n in Refs(u.routes[k].body);
      assert k < |t.routes| ==> u.routes[k] == t.routes[k];
    }
  }

  lemma ReachableChains(s: State, t: State, u: State)
    requires Prefixes(s, t) && Prefixes(t, u) && Reachable(s, t) && Reachable(t, u)
    ensures Reachable(s, u)
  {
    NamesOfPrefix(s.clusters, t.clusters);
    forall n
      ensures Pointed(s, u, n) <==> Pointed(s, t, n) || Pointed(t, u, n)
      ensures Mentioned(s, u, n) <==> Mentioned(s, t, n) || Mentioned(t, u, n)
    {
      PointedChains(s, t, u, n);
    }
    assert forall i :: 0 <= i < |t.routes| ==> u.routes[i] == t.routes[i];
    assert forall i :: 0 <= i < |t.clusters| ==> u.clusters[i] == t.clusters[i];
    assert forall i :: 0 <= i < |t.endpoints| ==> u.endpoints[i] == t.endpoints[i];
  }

  lemma GrownChains(s: State, t: State, u: State, a: set<string>, m: set<string>, b: set<string>, n: set<string>)
    requires Grown(s, t, a, m) && Grown(t, u, b, n)
    ensures Grown(s, u, a + b, m + n)
  {
    ReachableChains(s, t, u);
    NamesOfPrefix(s.routes, t.routes);
    NamesOfPrefix(s.clusters, t.clusters);
    forall n
      ensures Pointed(s, u, n) <==> Pointed(s, t, n) || Pointed(t, u, n)
      ensures Mentioned(s, u, n) <==> Mentioned(s, t, n) || Mentioned(t, u, n)
    {
      PointedChains(s, t, u, n);
    }
  }

  lemma PushRuleKeeps(s: State, n: string, r: RuleSpec, auto: bool)
    requires WF(s) && !Has(s.rules, n)
    ensures WF(PushRule(s, n, r, auto))
  {
    PushUnique(s.rules, PushRule(s, n, r, auto).rules[|s.rules|]);
  }

  lemma RouteGrowthIds(s: State, s1: State, t: State, n: string, named: set<string>)
    requires Same(s, s1) && RouteGrowth(s1, t, n, true, named)
    ensures RouteGrowth(s, t, n, true, named)
  {
  }

  /** What adding one autogenerated route named n comes to. */
  ghost predicate RouteAdded(s: State, n: string, named: set<string>, o: Out) {
    WF(o.reg) && (o.Done? ==> RouteGrowth(s, o.reg, n, true, named))
  }

  lemma RouteAddedIds(s: State, s1: State, n: string, named: set<string>, o: Out)
    requires Same(s, s1) && RouteAdded(s1, n, named, o)
    ensures RouteAdded(s, n, named, o)
  {
    if o.Done? {
      RouteGrowthIds(s, s1, o.reg, n, named);
    }
  }

  lemma AddRouteAdds(s: State, r: RouteSpec, n: string)
    requires WF(s)
    ensures RouteAdded(s, n, NamedClusters(r), AddRoute(s, r.(name := Some(n)), true))
  {
    AddRouteKeeps(s, r.(name := Some(n)), true);
  }

  lemma AddInlineRouteKeeps(s: State, prefix: string, r: RouteSpec)
    requires WF(s)
    ensures var o := AddInlineRoute(s, prefix, r); RouteAdded(s, o.1, NamedClusters(r), o.0)
  {
    var n := PickName(r.name, s.routes, prefix + Decimal(s.ids.route));
    var s1 := CountRoute(s, r.name);
    SameIsWF(s, s1);
    if n.Some? {
      AddRouteAdds(s1, r, n.value);
      RouteAddedIds(s, s1, n.value, NamedClusters(r), AddRoute(s1, r.(name := n), true));
    }
  }

  /** A rule whose inline route is in place. */
  lemma RuleWithRoute(s: State, p: State, t: State, n: string, named: set<string>)
    requires Prefixes(s, p) && |p.rules| == |s.rules| + 1 && p.routes == s.routes
    requires p.clusters == s.clusters && p.endpoints == s.endpoints
    requires RouteGrowth(p, t, n, true, named)
    ensures Grown(s, SetRoute(t, |s.rules|, n), {}, named)
  {
    var u := SetRoute(t, |s.rules|, n);
    assert u.rules == s.rules + [u.rules[|s.rules|]];
    assert forall m :: Pointed(s, u, m) <==> m == n by {
      assert u.rules[|s.rules|].body == To(n);
    }
    assert forall m :: Mentioned(s, u, m) <==> m in Refs(u.routes[|s.routes|].body);
  }

  lemma RuleWithoutRoute(s: State, t: State, rs: set<string>)
    requires s.rules <= t.rules && |t.rules| == |s.rules| + 1 && t.routes == s.routes
    requires t.clusters == s.clusters && t.endpoints == s.endpoints
    requires rs == if t.rules[|s.rules|].body.To? then {t.rules[|s.rules|].body.name} else {}
    ensures Grown(s, t, rs, {})
  {
    assert forall m :: Pointed(s, t, m) <==> m in rs by {
      assert forall m :: m in rs ==> t.rules[|s.rules|].body == To(m);
    }
  }

  /** The rule itself: registered under its name, with the names that its spec asks for. */
  ghost predicate RuleGrowth(s: State, t: State, n: string, r: RuleSpec) {
    SameLists(s, t) && Grown(s, t, WantedRoutes(r), WantedClusters(r)) &&
    |t.rules| == |s.rules| + 1 && t.rules[|s.rules|].name == n && n !in Names(s.rules)
  }

  lemma SetRouteKeeps(s: State, k: nat, n: string)
    requires WF(s) && k < |s.rules|
    ensures WF(SetRoute(s, k, n))
  {
  }

  lemma AddRuleKeeps(s: State, r: RuleSpec, auto: bool)
    requires WF(s)
    ensures var o := AddRule(s, r, auto);
      WF(o.reg) && (o.Done? ==> RuleGrowth(s, o.reg, r.name.value, r))
  {
    var o := AddRule(s, r, auto);
    if ValidName(r.name) && r.hasAction && !Has(s.rules, r.name.value) {
      var n := r.name.value;
      var p := PushRule(s, n, r, auto);
      PushRuleKeeps(s, n, r, auto);
      FindIs(s.rules, n);
      if r.route.None? || r.route.value.Named? {
        RuleWithoutRoute(s, p, WantedRoutes(r));
      } else if r.route.value.Inline? {
        AddInlineRouteKeeps(p, n + "-Route-", r.route.value.spec);
        var q := AddInlineRoute(p, n + "-Route-", r.route.value.spec);
        if q.0.Done? {
          RuleWithRoute(s, p, q.0.reg, q.1, NamedClusters(r.route.value.spec));
          SetRouteKeeps(q.0.reg, |s.rules|, q.1);
        }
      }
    }
  }
}
