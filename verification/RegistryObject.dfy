/** The registry as l7mp.js keeps it: six sequences of one object, changed by pushes, splices
    and loops over nested adds and deletes. */
module RegistryObject {
  import opened Basics
  import opened Registry
  import C = Clusters

  function ErrorOf(o: Out): Option<Error> {
    if o.Done? then None else Some(o.error)
  }

  method FindIndex<B>(es: seq<Entry<B>>, n: string) returns (i: int)
    ensures i == Find(es, n)
  {
    i := 0;
    while i < |es|
      invariant 0 <= i <= |es|
      invariant Find(es, n) == if Has(es[i..], n) then i + Find(es[i..], n) else -1
    {
      if es[i].name == n {
        return;
      }
      assert es[i..][1..] == es[i + 1..];
      i := i + 1;
    }
    i := -1;
  }

  /** `newName`: suffixes are tried in turn, at most twenty. */
  method FreshName<B>(es: seq<Entry<B>>, base: string) returns (r: Option<string>)
    ensures r == NewName(es, base, 0)
  {
    var i := 0;
    while true
      invariant 0 <= i <= MAX_NAME_ATTEMPTS + 1
      invariant NewName(es, base, 0) == NewName(es, base, i)
      decreases MAX_NAME_ATTEMPTS + 1 - i
    {
      if i > MAX_NAME_ATTEMPTS {
        return None;
      }
      var n := if i > 0 then base + "_" + Decimal(i) else base;
      var k := FindIndex(es, n);
      if k < 0 {
        return Some(n);
      }
      i := i + 1;
    }
  }

  /** One round of the loop over a cluster's endpoints. */
  lemma NextEndPoint(s: State, cluster: string, eps: seq<EndpointSpec>, k: nat)
    requires k < |eps|
    ensures AddEndPoints(s, cluster, eps[k..]) ==
            var o := AddOwnEndPoint(s, cluster, eps[k]);
            if o.Thrown? then o else AddEndPoints(o.reg, cluster, eps[k + 1..])
  {
    assert eps[k..][0] == eps[k] && eps[k..][1..] == eps[k + 1..];
  }

  class L7mp {
    var listeners: seq<Entry<string>>
    var rulelists: seq<Entry<seq<string>>>
    var rules: seq<Entry<RouteRef>>
    var routes: seq<Entry<RouteBody>>
    var clusters: seq<Entry<ClusterBody>>
    var endpoints: seq<Entry<EndpointBody>>
    var ids: Ids

    function View(): State
      reads this
    {
      State(listeners, rulelists, rules, routes, clusters, endpoints, ids)
    }

    constructor ()
      ensures View() == EMPTY
    {
      listeners, rulelists, rules, routes, clusters, endpoints := [], [], [], [], [], [];
      ids := Ids(0, 0, 0, 0, 0);
    }

    // ----------------------------------------------------------------------------- endpoints

    method SetClusterAt(j: nat, c: C.Cluster)
      requires j < |clusters|
      modifies this`clusters
      ensures View() == SetCluster(old(View()), j, c)
    {
      var e := clusters[j];
      clusters := clusters[j := e.(body := e.body.(cluster := c))];
    }

    method AddEndPoint(cluster: string, ep: EndpointSpec) returns (err: Option<Error>)
      modifies this
      ensures var o := Registry.AddEndPoint(old(View()), cluster, ep); View() == o.reg && err == ErrorOf(o)
    {
      if (ep.name.Some? && !ValidName(ep.name)) || !ep.hasSpec {
        return Some(Invalid);
      }
      if ep.name.Some? {
        var i := FindIndex(endpoints, ep.name.value);
        if i >= 0 {
          return Some(Duplicate);
        }
      }
      var j := FindIndex(clusters, cluster);
      if j < 0 {
        return Some(Unknown);
      }
      if !clusters[j].body.cluster.accepts {
        return Some(Unsupported);
      }
      var n: string;
      if ep.name.Some? {
        n := ep.name.value;
      } else {
        n := OwnName(View(), cluster);
        ids := ids.(endpoint := ids.endpoint + 1);
      }
      var owner := clusters[j].name;
      SetClusterAt(j, C.AddTo(clusters[j].body.cluster, C.Endpoint(n, ep.address)));
      endpoints := endpoints + [Entry(n, false, EndpointBody(owner, ep.address))];
      err := None;
    }

    method DeleteEndPoint(n: string) returns (err: Option<Error>)
      modifies this
      ensures var o := Registry.DeleteEndPoint(old(View()), n); View() == o.reg && err == ErrorOf(o)
    {
      var i := FindIndex(endpoints, n);
      if i < 0 {
        return Some(Unknown);
      }
      var j := FindIndex(clusters, endpoints[i].body.cluster);
      if j < 0 {
        return Some(Broken);
      }
      SetClusterAt(j, C.DeleteFrom(clusters[j].body.cluster, n));
      endpoints := endpoints[..i] + endpoints[i + 1..];
      err := None;
    }

    // ------------------------------------------------------------------------------ clusters

    method DeleteCluster(n: string) returns (err: Option<Error>)
      modifies this
      ensures var o := Registry.DeleteCluster(old(View()), n); View() == o.reg && err == ErrorOf(o)
    {
      var i := FindIndex(clusters, n);
      if i < 0 {
        return Some(Unknown);
      }
      var ns := EndpointNames(clusters[i].body.cluster);
      var k := 0;
      while k < |ns|
        invariant 0 <= k <= |ns|
        invariant DeleteEndPoints(old(View()), ns) == DeleteEndPoints(View(), ns[k..])
        invariant |clusters| == |old(clusters)|
      {
        assert ns[k..][0] == ns[k] && ns[k..][1..] == ns[k + 1..];
        err := DeleteEndPoint(ns[k]);
        if err.Some? {
          return;
        }
        k := k + 1;
      }
      clusters := clusters[..i] + clusters[i + 1..];
      err := None;
    }

    method AddCluster(c: ClusterSpec, auto: bool) returns (err: Option<Error>)
      modifies this
      ensures var o := Registry.AddCluster(old(View()), c, auto); View() == o.reg && err == ErrorOf(o)
    {
      if !ValidName(c.name) || !c.hasSpec {
        return Some(Invalid);
      }
      var n := c.name.value;
      var i := FindIndex(clusters, n);
      if i >= 0 {
        return Some(Duplicate);
      }
      if !c.known {
        return Some(Unsupported);
      }
      clusters := clusters + [Entry(n, auto, ClusterBody(c.virtual, C.NewCluster(c.policy, c.accepts)))];
      err := AddEndPointsOf(n, c.endpoints);
      if err.None? && !c.starts {
        err := DeleteCluster(n);
        if err.None? {
          err := Some(StartFailed);
        }
      }
    }

    method AddOwnEndPoint(cluster: string, e: EndpointSpec) returns (err: Option<Error>)
      modifies this
      ensures var o := Registry.AddOwnEndPoint(old(View()), cluster, e); View() == o.reg && err == ErrorOf(o)
    {
      var n := e.name;
      if !IsGiven(n) {
        n := FreshName(endpoints, cluster + "-EndPoint-" + Decimal(ids.endpoint));
        ids := ids.(endpoint := ids.endpoint + 1);
      }
      if n.None? {
        return Some(NoFreshName);
      }
      var ignored := AddEndPoint(cluster, e.(name := n));
      err := None;
    }

    method AddEndPointsOf(cluster: string, eps: seq<EndpointSpec>) returns (err: Option<Error>)
      modifies this
      ensures var o := AddEndPoints(old(View()), cluster, eps); View() == o.reg && err == ErrorOf(o)
    {
      var k := 0;
      while k < |eps|
        invariant 0 <= k <= |eps|
        invariant AddEndPoints(old(View()), cluster, eps) == AddEndPoints(View(), cluster, eps[k..])
      {
        NextEndPoint(View(), cluster, eps, k);
        err := AddOwnEndPoint(cluster, eps[k]);
        if err.Some? {
          return;
        }
        k := k + 1;
      }
      err := None;
    }

    // -------------------------------------------------------------------------------- routes

    method AddInlineCluster(prefix: string, c: ClusterSpec) returns (err: Option<Error>, name: string)
      modifies this
      ensures var o := Registry.AddInlineCluster(old(View()), prefix, c);
        View() == o.0.reg && err == ErrorOf(o.0) && name == o.1
    {
      var n := c.name;
      if !IsGiven(n) {
        n := FreshName(clusters, prefix + Decimal(ids.cluster));
        ids := ids.(cluster := ids.cluster + 1);
      }
      if n.None? {
        return Some(NoFreshName), "";
      }
      err := AddCluster(c.(name := n), true);
      name := n.value;
    }

    method AddOneUse(prefix: string, use: Use<ClusterSpec>) returns (err: Option<Error>, name: string)
      modifies this
      ensures var r := AddUse(old(View()), prefix, use);
        View() == r.0.reg && err == ErrorOf(r.0) && name == r.1
    {
      match use {
        case Other =>
          err, name := Some(Invalid), "";
        case Named(n) =>
          err, name := None, n;
        case Inline(c) =>
          err, name := AddInlineCluster(prefix, c);
      }
    }

    method AddUsedClusters(prefix: string, uses: seq<Use<ClusterSpec>>) returns (err: Option<Error>, names: seq<string>)
      modifies this
      ensures var r := AddUses(old(View()), prefix, uses);
        View() == r.0.reg && err == ErrorOf(r.0) && (err.None? ==> names == r.1)
    {
      names := [];
      var k := 0;
      while k < |uses|
        invariant 0 <= k <= |uses|
        invariant AddUses(old(View()), prefix, uses).0 == AddUses(View(), prefix, uses[k..]).0
        invariant AddUses(View(), prefix, uses[k..]).0.Done? ==>
                    AddUses(old(View()), prefix, uses).1 == names + AddUses(View(), prefix, uses[k..]).1
      {
        assert uses[k..][0] == uses[k] && uses[k..][1..] == uses[k + 1..];
        var n: string;
        err, n := AddOneUse(prefix, uses[k]);
        if err.Some? {
          return;
        }
        names := names + [n];
        k := k + 1;
      }
      err := None;
    }

    method AddRoute(r: RouteSpec, auto: bool) returns (err: Option<Error>)
      modifies this
      ensures var o := Registry.AddRoute(old(View()), r, auto); View() == o.reg && err == ErrorOf(o)
    {
      if !ValidName(r.name) || !r.wellFormed {
        return Some(Invalid);
      }
      var n := r.name.value;
      var i := FindIndex(routes, n);
      if i >= 0 {
        return Some(Duplicate);
      }
      var dest, ingress, egress: seq<string>;
      err, dest := AddUsedClusters(n + "-Cluster-", [r.destination]);
      if err.Some? {
        return;
      }
      err, ingress := AddUsedClusters(n + "-ingress-Cluster-", r.ingress);
      if err.Some? {
        return;
      }
      err, egress := AddUsedClusters(n + "-egress-Cluster-", r.egress);
      if err.Some? {
        return;
      }
      routes := routes + [Entry(n, auto, RouteBody(dest[0], ingress, egress))];
    }

    method DeleteUsedClusters(ns: seq<string>) returns (err: Option<Error>)
      modifies this
      ensures var o := DeleteUses(old(View()), ns); View() == o.reg && err == ErrorOf(o)
    {
      var k := 0;
      while k < |ns|
        invariant 0 <= k <= |ns|
        invariant DeleteUses(old(View()), ns) == DeleteUses(View(), ns[k..])
      {
        assert ns[k..][0] == ns[k] && ns[k..][1..] == ns[k + 1..];
        var j := FindIndex(clusters, ns[k]);
        if j >= 0 && clusters[j].auto {
          err := DeleteCluster(ns[k]);
          if err.Some? {
            return;
          }
        }
        k := k + 1;
      }
      err := None;
    }

    method DeleteRoute(n: string, recursive: bool) returns (err: Option<Error>)
      modifies this
      ensures var o := Registry.DeleteRoute(old(View()), n, recursive); View() == o.reg && err == ErrorOf(o)
    {
      var i := FindIndex(routes, n);
      if i < 0 {
        return Some(Unknown);
      }
      if recursive {
        err := DeleteUsedClusters(Refs(routes[i].body));
        if err.Some? {
          return;
        }
      }
      routes := routes[..i] + routes[i + 1..];
      err := None;
    }

    // --------------------------------------------------------------------------------- rules

    method AddInlineRoute(prefix: string, r: RouteSpec) returns (err: Option<Error>, name: string)
      modifies this
      ensures var o := Registry.AddInlineRoute(old(View()), prefix, r);
        View() == o.0.reg && err == ErrorOf(o.0) && name == o.1
    {
      var n := r.name;
      if !IsGiven(n) {
        n := FreshName(routes, prefix + Decimal(ids.route));
        ids := ids.(route := ids.route + 1);
      }
      if n.None? {
        return Some(NoFreshName), "";
      }
      assert View() == CountRoute(old(View()), r.name);
      err := AddRoute(r.(name := n), true);
      name := n.value;
    }

    method AddRule(r: RuleSpec, auto: bool) returns (err: Option<Error>)
      modifies this
      ensures var o := Registry.AddRule(old(View()), r, auto); View() == o.reg && err == ErrorOf(o)
    {
      if !ValidName(r.name) || !r.hasAction {
        return Some(Invalid);
      }
      var n := r.name.value;
      var i := FindIndex(rules, n);
      if i >= 0 {
        return Some(Duplicate);
      }
      var k := |rules|;
      var ref := if r.route.None? then NoRoute else if r.route.value.Named? then To(r.route.value.name) else Pending;
      rules := rules + [Entry(n, auto, ref)];
      if r.route.None? || r.route.value.Named? {
        return None;
      }
      if r.route.value.Other? {
        return Some(Invalid);
      }
      var m: string;
      err, m := AddInlineRoute(n + "-Route-", r.route.value.spec);
      if err.None? {
        rules := rules[k := rules[k].(body := To(m))];
      }
    }

    method DeleteTarget(ref: RouteRef) returns (err: Option<Error>)
      modifies this
      ensures var o := Registry.DeleteTarget(old(View()), ref); View() == o.reg && err == ErrorOf(o)
    {
      if ref.To? {
        var j := FindIndex(routes, ref.name);
        if j >= 0 && routes[j].auto {
          err := DeleteRoute(ref.name, true);
          return;
        }
      }
      err := None;
    }

    method DeleteRule(n: string, recursive: bool) returns (err: Option<Error>)
      modifies this
      ensures var o := Registry.DeleteRule(old(View()), n, recursive); View() == o.reg && err == ErrorOf(o)
    {
      var i := FindIndex(rules, n);
      if i < 0 {
        return Some(Unknown);
      }
      if recursive {
        err := DeleteTarget(rules[i].body);
        if err.Some? {
          return;
        }
      }
      rules := rules[..i] + rules[i + 1..];
      err := None;
    }

    // ---------------------------------------------------------------------------- rule lists

    method AddInlineRule(prefix: string, r: RuleSpec) returns (err: Option<Error>, name: string)
      modifies this
      ensures var o := Registry.AddInlineRule(old(View()), prefix, r);
        View() == o.0.reg && err == ErrorOf(o.0) && name == o.1
    {
      var n := r.name;
      if !IsGiven(n) {
        n := FreshName(rules, prefix + Decimal(ids.rule));
        ids := ids.(rule := ids.rule + 1);
      }
      if n.None? {
        return Some(NoFreshName), "";
      }
      assert View() == CountRule(old(View()), r.name);
      err := AddRule(r.(name := n), true);
      name := n.value;
    }

    method AddRuleToRuleList(k: nat, rule: Use<RuleSpec>, pos: int) returns (err: Option<Error>)
      requires k < |rulelists|
      modifies this
      ensures var o := Registry.AddRuleToRuleList(old(View()), k, rule, pos); View() == o.reg && err == ErrorOf(o)
    {
      if pos < 0 || pos > |rulelists[k].body| {
        return Some(Invalid);
      }
      var n: string;
      match rule {
        case Other =>
          return Some(Invalid);
        case Named(m) =>
          n := m;
        case Inline(r) =>
          err, n := AddInlineRule(rulelists[k].name + "-Rule-", r);
          if err.Some? {
            return;
          }
      }
      var ns := rulelists[k].body;
      rulelists := rulelists[k := rulelists[k].(body := ns[..pos] + [n] + ns[pos..])];
      err := None;
    }

    method AddRuleList(name: Option<string>, us: seq<Use<RuleSpec>>, auto: bool) returns (err: Option<Error>)
      modifies this
      ensures var o := Registry.AddRuleList(old(View()), name, us, auto); View() == o.reg && err == ErrorOf(o)
    {
      if !ValidName(name) {
        return Some(Invalid);
      }
      var j := FindIndex(rulelists, name.value);
      if j >= 0 {
        return Some(Duplicate);
      }
      var k := |rulelists|;
      rulelists := rulelists + [Entry(name.value, auto, [])];
      ghost var start := View();
      var i := 0;
      while i < |us|
        invariant 0 <= i <= |us| && k < |rulelists|
        invariant AddRules(start, k, us, 0) == AddRules(View(), k, us[i..], i)
      {
        assert us[i..][0] == us[i] && us[i..][1..] == us[i + 1..];
        err := AddRuleToRuleList(k, us[i], i);
        if err.Some? {
          return;
        }
        i := i + 1;
      }
      err := None;
    }

    method DeleteRuleFromRuleList(k: nat, pos: int, recursive: bool) returns (err: Option<Error>)
      requires k < |rulelists|
      modifies this
      ensures var o := Registry.DeleteRuleFromRuleList(old(View()), k, pos, recursive);
        View() == o.reg && err == ErrorOf(o)
    {
      var ns := rulelists[k].body;
      if pos < 0 || pos > |ns| {
        return Some(Invalid);
      }
      if recursive {
        if pos == |ns| {
          return Some(Unknown);
        }
        err := DeleteRule(ns[pos], recursive);
        if err.Some? {
          return;
        }
      }
      if pos < |ns| {
        rulelists := rulelists[k := rulelists[k].(body := ns[..pos] + ns[pos + 1..])];
      }
      err := None;
    }

    method FindName(ns: seq<string>, n: string) returns (i: int)
      ensures i == IndexOf(ns, n)
    {
      i := 0;
      while i < |ns|
        invariant 0 <= i <= |ns|
        invariant IndexOf(ns, n) == if n in ns[i..] then i + IndexOf(ns[i..], n) else -1
      {
        if ns[i] == n {
          return;
        }
        assert ns[i..][1..] == ns[i + 1..];
        i := i + 1;
      }
      i := -1;
    }

    method DeleteOneListed(k: nat, n: string) returns (err: Option<Error>)
      requires k < |rulelists|
      modifies this
      ensures var o := DeleteListedOnce(old(View()), k, n); View() == o.reg && err == ErrorOf(o)
    {
      var j := FindIndex(rules, n);
      if j >= 0 && rules[j].auto {
        var i := FindName(rulelists[k].body, n);
        err := DeleteRuleFromRuleList(k, i, false);
        if err.Some? {
          return;
        }
      }
      err := DeleteRule(n, true);
    }

    method DeleteAllListed(i: nat, ns: seq<string>) returns (err: Option<Error>)
      requires i < |rulelists|
      modifies this
      ensures var o := DeleteListed(old(View()), i, ns); View() == o.reg && err == ErrorOf(o)
    {
      var k := 0;
      while k < |ns|
        invariant 0 <= k <= |ns| && i < |rulelists|
        invariant DeleteListed(old(View()), i, ns) == DeleteListed(View(), i, ns[k..])
      {
        assert ns[k..][0] == ns[k] && ns[k..][1..] == ns[k + 1..];
        err := DeleteOneListed(i, ns[k]);
        if err.Some? {
          return;
        }
        k := k + 1;
      }
      err := None;
    }

    method DeleteRuleList(n: string, recursive: bool) returns (err: Option<Error>)
      modifies this
      ensures var o := Registry.DeleteRuleList(old(View()), n, recursive); View() == o.reg && err == ErrorOf(o)
    {
      var i := FindIndex(rulelists, n);
      if i < 0 {
        return Some(Unknown);
      }
      if recursive {
        err := DeleteAllListed(i, rulelists[i].body);
        if err.Some? {
          return;
        }
      }
      rulelists := rulelists[..i] + rulelists[i + 1..];
      err := None;
    }

    // ----------------------------------------------------------------------------- listeners

    method TakeListName(listener: string) returns (n: Option<string>)
      modifies this`ids
      ensures n == OwnListName(old(View()), listener) && View() == CountList(old(View()))
    {
      n := FreshName(rulelists, listener + "-RuleList-" + Decimal(ids.rulelist));
      ids := ids.(rulelist := ids.rulelist + 1);
    }

    method AddOwnList(listener: string, us: seq<Use<RuleSpec>>) returns (err: Option<Error>, list: string)
      modifies this
      ensures var r := Registry.AddOwnList(old(View()), listener, us);
        View() == r.0.reg && err == ErrorOf(r.0) && list == r.1
    {
      var n := TakeListName(listener);
      if n.None? {
        return Some(NoFreshName), "";
      }
      err := AddRuleList(n, us, true);
      list := n.value;
    }

    method BindRules(listener: string, rules: RulesUse) returns (err: Option<Error>, list: string)
      modifies this
      ensures var r := Registry.BindRules(old(View()), listener, rules);
        View() == r.0.reg && err == ErrorOf(r.0) && list == r.1
    {
      match rules {
        case Reference(n) =>
          err, list := None, n;
        case Listing(us) =>
          err, list := AddOwnList(listener, us);
      }
    }

    method AddListener(l: ListenerSpec, auto: bool) returns (err: Option<Error>)
      modifies this
      ensures var o := Registry.AddListener(old(View()), l, auto); View() == o.reg && err == ErrorOf(o)
    {
      if !ValidName(l.name) || !l.wellFormed {
        return Some(Invalid);
      }
      var n := l.name.value;
      var i := FindIndex(listeners, n);
      if i >= 0 {
        return Some(Duplicate);
      }
      if !l.known {
        return Some(Unsupported);
      }
      var list: string;
      err, list := BindRules(n, l.rules);
      if err.Some? {
        return;
      }
      listeners := listeners + [Entry(n, auto, list)];
      if !l.starts {
        err := DeleteListener(n, true);
        if err.None? {
          err := Some(StartFailed);
        }
      }
    }

    method DeleteListener(n: string, recursive: bool) returns (err: Option<Error>)
      modifies this
      ensures var o := Registry.DeleteListener(old(View()), n, recursive); View() == o.reg && err == ErrorOf(o)
    {
      var i := FindIndex(listeners, n);
      if i < 0 {
        return Some(Unknown);
      }
      if recursive {
        var j := FindIndex(rulelists, listeners[i].body);
        if j >= 0 && rulelists[j].auto {
          err := DeleteRuleList(rulelists[j].name, recursive);
          if err.Some? {
            return;
          }
        }
      }
      listeners := listeners[..i] + listeners[i + 1..];
      err := None;
    }
  }
}
