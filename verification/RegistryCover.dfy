/** What every API call keeps, collisions of endpoint names included: no cluster lists an
    endpoint more often than the registry holds one of that name for it. */
module RegistryCover {
  import opened Basics
  import opened Registry
  import opened RegistryLists
  import opened RegistryRuns
  import C = Clusters

  /** How many registered endpoints named n belong to cluster c. */
  function Owned(es: seq<Entry<EndpointBody>>, c: string, n: string): nat {
    if es == [] then 0
    else
      var e := es[|es| - 1];
      Owned(es[..|es| - 1], c, n) + if e.body.cluster == c && e.name == n then 1 else 0
  }

  /** How often a cluster lists n. */
  function Times(es: seq<C.Endpoint>, n: string): nat {
    if es == [] then 0 else Times(es[..|es| - 1], n) + if es[|es| - 1].name == n then 1 else 0
  }

  ghost predicate Covered(c: Entry<ClusterBody>, es: seq<Entry<EndpointBody>>) {
    forall n :: Times(c.body.cluster.endpoints, n) <= Owned(es, c.name, n)
  }

  ghost predicate Sound(s: State) {
    Unique(s.clusters) && forall i :: 0 <= i < |s.clusters| ==> Covered(s.clusters[i], s.endpoints)
  }

  // -------------------------------------------------------------------------------- counting

  lemma {:induction false} OwnedSum(a: seq<Entry<EndpointBody>>, b: seq<Entry<EndpointBody>>, c: string, n: string)
    ensures Owned(a + b, c, n) == Owned(a, c, n) + Owned(b, c, n)
  {
    if b == [] {
      assert a + b == a;
    } else {
      OwnedSum(a, b[..|b| - 1], c, n);
      assert (a + b)[..|a + b| - 1] == a + b[..|b| - 1];
    }
  }

  lemma {:induction false} TimesSum(a: seq<C.Endpoint>, b: seq<C.Endpoint>, n: string)
    ensures Times(a + b, n) == Times(a, n) + Times(b, n)
  {
    if b == [] {
      assert a + b == a;
    } else {
      TimesSum(a, b[..|b| - 1], n);
      assert (a + b)[..|a + b| - 1] == a + b[..|b| - 1];
    }
  }

  lemma OwnedSplice(es: seq<Entry<EndpointBody>>, i: nat, c: string, n: string)
    requires i < |es|
    ensures Owned(es, c, n) ==
            Owned(Splice(es, i), c, n) + if es[i].body.cluster == c && es[i].name == n then 1 else 0
  {
    var a, e, b := es[..i], es[i], es[i + 1..];
    assert es == a + [e] + b;
    OwnedSum(a + [e], b, c, n);
    OwnedSum(a, [e], c, n);
    OwnedSum(a, b, c, n);
    assert Owned([e], c, n) == if e.body.cluster == c && e.name == n then 1 else 0;
  }

  lemma {:induction false} TimesOfMember(es: seq<C.Endpoint>, n: string)
    ensures Times(es, n) > 0 <==> exists x :: x in es && x.name == n
  {
    if es != [] {
      var init, x := es[..|es| - 1], es[|es| - 1];
      TimesOfMember(init, n);
      assert es == init + [x];
    }
  }

  lemma {:induction false} OwnedIsRegistered(es: seq<Entry<EndpointBody>>, c: string, n: string)
    ensures Owned(es, c, n) > 0 ==> n in Names(es)
  {
    if es != [] {
      var init, e := es[..|es| - 1], es[|es| - 1];
      OwnedIsRegistered(init, c, n);
      assert es == init + [e];
      NamesOfSum(init, [e]);
      assert Names([e]) == {e.name} by { assert e in [e]; }
    }
  }

  /** A cluster loses one mention of the deleted name, if it has any. */
  lemma DeletedTimes(c: C.Cluster, n: string, m: string)
    ensures Times(C.DeleteFrom(c, n).endpoints, m) ==
            if m == n && Times(c.endpoints, n) > 0 then Times(c.endpoints, n) - 1 else Times(c.endpoints, m)
  {
    var i := C.FindEndpoint(c.endpoints, n);
    TimesOfMember(c.endpoints, n);
    if i >= 0 {
      var a, x, b := c.endpoints[..i], c.endpoints[i], c.endpoints[i + 1..];
      assert c.endpoints == a + [x] + b;
      TimesSum(a + [x], b, m);
      TimesSum(a, [x], m);
      TimesSum(a, b, m);
      assert Times([x], m) == if x.name == m then 1 else 0;
      assert x in c.endpoints;
    }
  }

  // --------------------------------------------------------------------- endpoints, clusters

  lemma SetClusterUnique(s: State, j: nat, c: C.Cluster)
    requires j < |s.clusters| && Unique(s.clusters)
    ensures Unique(SetCluster(s, j, c).clusters)
  {
  }

  lemma PutEndPointSound(s: State, j: nat, n: string, address: string)
    requires Sound(s) && j < |s.clusters|
    ensures Sound(PutEndPoint(s, j, n, address))
  {
    var t := PutEndPoint(s, j, n, address);
    var x, e := C.Endpoint(n, address), t.endpoints[|s.endpoints|];
    SetClusterUnique(s, j, C.AddTo(s.clusters[j].body.cluster, x));
    forall i, m | 0 <= i < |t.clusters|
      ensures Times(t.clusters[i].body.cluster.endpoints, m) <= Owned(t.endpoints, t.clusters[i].name, m)
    {
      assert Covered(s.clusters[i], s.endpoints);
      OwnedSum(s.endpoints, [e], s.clusters[i].name, m);
      assert Owned([e], s.clusters[i].name, m) == if e.body.cluster == s.clusters[i].name && n == m then 1 else 0;
      TimesSum(s.clusters[i].body.cluster.endpoints, [x], m);
      assert Times([x], m) == if n == m then 1 else 0;
    }
  }

  lemma DeleteEndPointSound(s: State, n: string)
    requires Sound(s)
    ensures Sound(DeleteEndPoint(s, n).reg)
  {
    var i := Find(s.endpoints, n);
    if i >= 0 && Has(s.clusters, s.endpoints[i].body.cluster) {
      var j := Find(s.clusters, s.endpoints[i].body.cluster);
      var t := DeleteEndPoint(s, n).reg;
      SetClusterUnique(s, j, C.DeleteFrom(s.clusters[j].body.cluster, n));
      forall k, m | 0 <= k < |t.clusters|
        ensures Times(t.clusters[k].body.cluster.endpoints, m) <= Owned(t.endpoints, t.clusters[k].name, m)
      {
        assert Covered(s.clusters[k], s.endpoints);
        OwnedSplice(s.endpoints, i, s.clusters[k].name, m);
        DeletedTimes(s.clusters[j].body.cluster, n, m);
        assert k != j ==> s.clusters[k].name != s.clusters[j].name;
      }
    }
  }

  lemma {:induction false} DeleteEndPointsSound(s: State, ns: seq<string>)
    requires Sound(s)
    ensures Sound(DeleteEndPoints(s, ns).reg)
    decreases |ns|
  {
    if ns != [] {
      DeleteEndPointSound(s, ns[0]);
      var o := DeleteEndPoint(s, ns[0]);
      if o.Done? {
        DeleteEndPointsSound(o.reg, ns[1..]);
      }
    }
  }

  lemma SpliceSound(s: State, i: nat)
    requires Sound(s) && i < |s.clusters|
    ensures Sound(s.(clusters := Splice(s.clusters, i)))
  {
    SpliceKeeps(s.clusters, i);
    KeepUnique(s.clusters, {s.clusters[i].name});
    var cs := Splice(s.clusters, i);
    forall k | 0 <= k < |cs|
      ensures Covered(cs[k], s.endpoints)
    {
      assert cs[k] == if k < i then s.clusters[k] else s.clusters[k + 1];
    }
  }

  lemma DeleteClusterSound(s: State, n: string)
    requires Sound(s)
    ensures Sound(DeleteCluster(s, n).reg)
  {
    var i := Find(s.clusters, n);
    if i >= 0 {
      var ns := EndpointNames(s.clusters[i].body.cluster);
      DeleteEndPointsSound(s, ns);
      var o := DeleteEndPoints(s, ns);
      if o.Done? {
        SpliceSound(o.reg, i);
      }
    }
  }

  lemma AddEndPointSound(s: State, cluster: string, ep: EndpointSpec)
    requires Sound(s)
    ensures Sound(AddEndPoint(s, cluster, ep).reg)
  {
    var j := Find(s.clusters, cluster);
    if j >= 0 {
      var s1 := s.(ids := s.ids.(endpoint := s.ids.endpoint + 1));
      if ep.name.Some? {
        PutEndPointSound(s, j, ep.name.value, ep.address);
      } else {
        assert Sound(s1);
        PutEndPointSound(s1, j, OwnName(s, cluster), ep.address);
      }
    }
  }

  lemma {:induction false} AddEndPointsSound(s: State, cluster: string, eps: seq<EndpointSpec>)
    requires Sound(s)
    ensures Sound(AddEndPoints(s, cluster, eps).reg)
    decreases |eps|
  {
    if eps != [] {
      var n := PickName(eps[0].name, s.endpoints, cluster + "-EndPoint-" + Decimal(s.ids.endpoint));
      var s1 := CountEndPoint(s, eps[0].name);
      assert Sound(s1);
      AddEndPointSound(s1, cluster, eps[0].(name := n));
      var o := AddOwnEndPoint(s, cluster, eps[0]);
      if o.Done? {
        AddEndPointsSound(o.reg, cluster, eps[1..]);
      }
    }
  }

  lemma PushClusterSound(s: State, n: string, c: ClusterSpec, auto: bool)
    requires Sound(s) && !Has(s.clusters, n)
    ensures Sound(PushCluster(s, n, c, auto))
  {
    var t := PushCluster(s, n, c, auto);
    PushUnique(s.clusters, t.clusters[|s.clusters|]);
    forall i | 0 <= i < |t.clusters|
      ensures Covered(t.clusters[i], t.endpoints)
    {
      assert i < |s.clusters| ==> Covered(s.clusters[i], s.endpoints);
    }
  }

  lemma AddClusterSound(s: State, c: ClusterSpec, auto: bool)
    requires Sound(s)
    ensures Sound(AddCluster(s, c, auto).reg)
  {
    if ValidName(c.name) && c.hasSpec && !Has(s.clusters, c.name.value) && c.known {
      var n := c.name.value;
      PushClusterSound(s, n, c, auto);
      AddEndPointsSound(PushCluster(s, n, c, auto), n, c.endpoints);
      DeleteClusterSound(AddEndPoints(PushCluster(s, n, c, auto), n, c.endpoints).reg, n);
    }
  }

  // ---------------------------------------------------------------------------- routes, rules

  lemma AddUseSound(s: State, prefix: string, u: Use<ClusterSpec>)
    requires Sound(s)
    ensures Sound(AddUse(s, prefix, u).0.reg)
  {
    if u.Inline? {
      var n := PickName(u.spec.name, s.clusters, prefix + Decimal(s.ids.cluster));
      var s1 := CountCluster(s, u.spec.name);
      assert Sound(s1);
      AddClusterSound(s1, u.spec.(name := n), true);
    }
  }

  lemma {:induction false} AddUsesSound(s: State, prefix: string, us: seq<Use<ClusterSpec>>)
    requires Sound(s)
    ensures Sound(AddUses(s, prefix, us).0.reg)
    decreases |us|
  {
    if us != [] {
      AddUseSound(s, prefix, us[0]);
      var o := AddUse(s, prefix, us[0]);
      if o.0.Done? {
        AddUsesSound(o.0.reg, prefix, us[1..]);
      }
    }
  }

  lemma AddRouteSound(s: State, r: RouteSpec, auto: bool)
    requires Sound(s)
    ensures Sound(AddRoute(s, r, auto).reg)
  {
    if ValidName(r.name) {
      var n := r.name.value;
      AddUsesSound(s, n + "-Cluster-", [r.destination]);
      var d := AddUses(s, n + "-Cluster-", [r.destination]).0.reg;
      AddUsesSound(d, n + "-ingress-Cluster-", r.ingress);
      var i := AddUses(d, n + "-ingress-Cluster-", r.ingress).0.reg;
      AddUsesSound(i, n + "-egress-Cluster-", r.egress);
    }
  }

  lemma {:induction false} DeleteUsesSound(s: State, ns: seq<string>)
    requires Sound(s)
    ensures Sound(DeleteUses(s, ns).reg)
    decreases |ns|
  {
    if ns != [] {
      DeleteClusterSound(s, ns[0]);
      var o := if IsAuto(s.clusters, ns[0]) then DeleteCluster(s, ns[0]) else Done(s);
      if o.Done? {
        DeleteUsesSound(o.reg, ns[1..]);
      }
    }
  }

  lemma DeleteRouteSound(s: State, n: string, recursive: bool)
    requires Sound(s)
    ensures Sound(DeleteRoute(s, n, recursive).reg)
  {
    if Has(s.routes, n) {
      DeleteUsesSound(s, Refs(s.routes[Find(s.routes, n)].body));
    }
  }

  lemma AddRuleSound(s: State, r: RuleSpec, auto: bool)
    requires Sound(s)
    ensures Sound(AddRule(s, r, auto).reg)
  {
    if ValidName(r.name) && r.route.Some? && r.route.value.Inline? {
      var p := PushRule(s, r.name.value, r, auto);
      var route := r.route.value.spec;
      var n := PickName(route.name, p.routes, r.name.value + "-Route-" + Decimal(p.ids.route));
      var s1 := CountRoute(p, route.name);
      assert Sound(s1);
      AddRouteSound(s1, route.(name := n), true);
    }
  }

  lemma DeleteRuleSound(s: State, n: string, recursive: bool)
    requires Sound(s)
    ensures Sound(DeleteRule(s, n, recursive).reg)
  {
    if Has(s.rules, n) && s.rules[Find(s.rules, n)].body.To? {
      DeleteRouteSound(s, s.rules[Find(s.rules, n)].body.name, true);
    }
  }

  // ------------------------------------------------------------------------------ rule lists

  lemma AddRuleToRuleListSound(s: State, k: nat, u: Use<RuleSpec>, pos: int)
    requires Sound(s) && k < |s.rulelists|
    ensures Sound(AddRuleToRuleList(s, k, u, pos).reg)
  {
    if u.Inline? {
      var n := PickName(u.spec.name, s.rules, s.rulelists[k].name + "-Rule-" + Decimal(s.ids.rule));
      var s1 := CountRule(s, u.spec.name);
      assert Sound(s1);
      AddRuleSound(s1, u.spec.(name := n), true);
    }
  }

  lemma {:induction false} AddRulesSound(s: State, k: nat, us: seq<Use<RuleSpec>>, pos: nat)
    requires Sound(s) && k < |s.rulelists|
    ensures Sound(AddRules(s, k, us, pos).reg)
    decreases |us|
  {
    if us != [] {
      AddRuleToRuleListSound(s, k, us[0], pos);
      var o := AddRuleToRuleList(s, k, us[0], pos);
      if o.Done? {
        AddRulesSound(o.reg, k, us[1..], pos + 1);
      }
    }
  }

  lemma AddRuleListSound(s: State, name: Option<string>, us: seq<Use<RuleSpec>>, auto: bool)
    requires Sound(s)
    ensures Sound(AddRuleList(s, name, us, auto).reg)
  {
    if ValidName(name) {
      var p := s.(rulelists := s.rulelists + [Entry(name.value, auto, [])]);
      assert Sound(p);
      AddRulesSound(p, |s.rulelists|, us, 0);
    }
  }

  lemma DeleteRuleFromRuleListSound(s: State, k: nat, pos: int, recursive: bool)
    requires Sound(s) && k < |s.rulelists|
    ensures Sound(DeleteRuleFromRuleList(s, k, pos, recursive).reg)
  {
    if 0 <= pos < |s.rulelists[k].body| {
      DeleteRuleSound(s, s.rulelists[k].body[pos], recursive);
    }
  }

  lemma {:induction false} DeleteListedSound(s: State, k: nat, ns: seq<string>)
    requires Sound(s) && k < |s.rulelists|
    ensures Sound(DeleteListed(s, k, ns).reg)
    decreases |ns|
  {
    if ns != [] {
      DeleteRuleFromRuleListSound(s, k, IndexOf(s.rulelists[k].body, ns[0]), false);
      DeleteRuleSound(Unlist(s, k, ns[0]).reg, ns[0], true);
      var o := DeleteListedOnce(s, k, ns[0]);
      if o.Done? {
        DeleteListedSound(o.reg, k, ns[1..]);
      }
    }
  }

  lemma DeleteRuleListSound(s: State, n: string, recursive: bool)
    requires Sound(s)
    ensures Sound(DeleteRuleList(s, n, recursive).reg)
  {
    var i := Find(s.rulelists, n);
    if i >= 0 {
      DeleteListedSound(s, i, s.rulelists[i].body);
    }
  }

  lemma RegisterSound(s: State, l: ListenerSpec, auto: bool)
    requires Sound(s)
    ensures Sound(Register(s, l, auto).reg)
  {
    if ValidName(l.name) && l.rules.Listing? {
      var s1 := CountList(s);
      assert Sound(s1);
      AddRuleListSound(s1, OwnListName(s, l.name.value), l.rules.rules, true);
    }
  }

  lemma SoundSame(s: State, t: State)
    requires Sound(s) && t.clusters == s.clusters && t.endpoints == s.endpoints
    ensures Sound(t)
  {
  }

  lemma DeleteListenerSound(s: State, n: string, recursive: bool)
    requires Sound(s)
    ensures Sound(DeleteListener(s, n, recursive).reg)
  {
    var i := Find(s.listeners, n);
    if i >= 0 {
      var rl := s.listeners[i].body;
      DeleteRuleListSound(s, rl, recursive);
      var o := if recursive && IsAuto(s.rulelists, rl) then DeleteRuleList(s, rl, recursive) else Done(s);
      SoundSame(o.reg, DeleteListener(s, n, recursive).reg);
    }
  }

  lemma AddListenerSound(s: State, l: ListenerSpec, auto: bool)
    requires Sound(s)
    ensures Sound(AddListener(s, l, auto).reg)
  {
    RegisterSound(s, l, auto);
    var o := Register(s, l, auto);
    if o.Done? {
      DeleteListenerSound(o.reg, l.name.value, true);
    }
  }

  // ------------------------------------------------------------------------------ whole runs

  /** Every API call keeps the cover, whatever its outcome and whatever names collide. */
  lemma PerformSound(s: State, c: Call)
    requires Sound(s)
    ensures Sound(Perform(s, c).reg)
  {
    match c {
      case CallAddListener(l) => AddListenerSound(s, l, false);
      case CallAddCluster(cl) => AddClusterSound(s, cl, false);
      case CallAddRuleList(n, rs) => AddRuleListSound(s, n, rs, false);
      case CallAddRule(r) => AddRuleSound(s, r, false);
      case CallAddRoute(r) => AddRouteSound(s, r, false);
      case CallAddEndPoint(o, e) => AddEndPointSound(s, o, e);
      case CallAddRuleToRuleList(n, u, p) =>
        if Has(s.rulelists, n) {
          AddRuleToRuleListSound(s, Find(s.rulelists, n), u, p);
        }
      case CallDeleteRuleFromRuleList(n, p, r) =>
        if Has(s.rulelists, n) {
          DeleteRuleFromRuleListSound(s, Find(s.rulelists, n), p, r);
        }
      case CallDeleteListener(n, r) => DeleteListenerSound(s, n, r);
      case CallDeleteCluster(n) => DeleteClusterSound(s, n);
      case CallDeleteRuleList(n, r) => DeleteRuleListSound(s, n, r);
      case CallDeleteRule(n, r) => DeleteRuleSound(s, n, r);
      case CallDeleteRoute(n, r) => DeleteRouteSound(s, n, r);
      case CallDeleteEndPoint(n) => DeleteEndPointSound(s, n);
    }
  }

  lemma {:induction false} RunSound(s: State, cs: seq<Call>)
    requires Sound(s)
    ensures Sound(Run(s, cs))
    decreases |cs|
  {
    if cs != [] {
      PerformSound(s, cs[0]);
      RunSound(Perform(s, cs[0]).reg, cs[1..]);
    }
  }

  /** In a sound registry every listed endpoint is registered under its name. */
  lemma ListedIsRegistered(s: State, i: nat, x: C.Endpoint)
    requires Sound(s) && i < |s.clusters| && x in s.clusters[i].body.cluster.endpoints
    ensures Has(s.endpoints, x.name)
  {
    var c := s.clusters[i];
    assert Covered(c, s.endpoints);
    TimesOfMember(c.body.cluster.endpoints, x.name);
    assert Times(c.body.cluster.endpoints, x.name) <= Owned(s.endpoints, c.name, x.name);
    OwnedIsRegistered(s.endpoints, c.name, x.name);
    FindIs(s.endpoints, x.name);
  }
}
