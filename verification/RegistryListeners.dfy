/** The round trip of a whole listener: rule list, rules, routes, clusters and endpoints. */
module RegistryListeners {
  import opened Basics
  import opened Registry
  import opened RegistryLists
  import opened RegistryDeletes
  import opened RegistryClosure
  import opened RegistryAdds
  import opened RegistryGrowth
  import opened RegistryRoundTrip

  // ------------------------------------------------------------------------------ the specs

  function RoutesNamed(us: seq<Use<RuleSpec>>): set<string> {
    set u, n | u in us && u.Inline? && n in WantedRoutes(u.spec) :: n
  }

  function ClustersNamed(us: seq<Use<RuleSpec>>): set<string> {
    set u, n | u in us && u.Inline? && n in WantedClusters(u.spec) :: n
  }

  /** What a caller can check before adding a listener: the rule list it refers to was not
      autogenerated; or all its rules are inline and no route or cluster they refer to by name
      was autogenerated. */
  ghost predicate Clean(s: State, l: ListenerSpec) {
    match l.rules
    case Reference(n) => n !in AutoNames(s.rulelists)
    case Listing(us) =>
      && (forall u :: u in us ==> u.Inline?)
      && RoutesNamed(us) !! AutoNames(s.routes)
      && ClustersNamed(us) !! AutoNames(s.clusters)
  }

  // ------------------------------------------------------------------------ adding the rules

  /** What adding one inline rule under the name n comes to. */
  ghost predicate RuleAdded(s: State, n: string, r: RuleSpec, o: Out) {
    WF(o.reg) && (o.Done? ==> RuleGrowth(s, o.reg, n, r))
  }

  lemma RuleAddedIds(s: State, s1: State, n: string, r: RuleSpec, o: Out)
    requires Same(s, s1) && RuleAdded(s1, n, r.(name := Some(n)), o)
    ensures RuleAdded(s, n, r, o)
  {
    if o.Done? {
      RuleGrowthIds(s, s1, o.reg, n, r);
    }
  }

  lemma AddRuleAdds(s: State, r: RuleSpec)
    requires WF(s) && r.name.Some?
    ensures RuleAdded(s, r.name.value, r, AddRule(s, r, true))
  {
    AddRuleKeeps(s, r, true);
  }

  lemma AddInlineRuleKeeps(s: State, prefix: string, r: RuleSpec)
    requires WF(s)
    ensures var o := AddInlineRule(s, prefix, r); RuleAdded(s, o.1, r, o.0)
  {
    var n := PickName(r.name, s.rules, prefix + Decimal(s.ids.rule));
    var s1 := CountRule(s, r.name);
    SameIsWF(s, s1);
    if n.Some? {
      AddRuleAdds(s1, r.(name := n));
      RuleAddedIds(s, s1, n.value, r, AddRule(s1, r.(name := n), true));
    }
  }

  lemma RuleGrowthIds(s: State, s1: State, t: State, n: string, r: RuleSpec)
    requires Same(s, s1) && RuleGrowth(s1, t, n, r.(name := Some(n)))
    ensures RuleGrowth(s, t, n, r)
  {
    GrownIds(s, s1, t, WantedRoutes(r), WantedClusters(r));
  }

  lemma GrownIds(s: State, s1: State, t: State, rs: set<string>, cs: set<string>)
    requires Same(s, s1) && Grown(s1, t, rs, cs)
    ensures Grown(s, t, rs, cs)
  {
    assert forall n :: Pointed(s, t, n) <==> Pointed(s1, t, n);
    assert forall n :: Mentioned(s, t, n) <==> Mentioned(s1, t, n);
  }

  /** The names that a list of uses stands for, given the rules that were appended for it. */
  predicate Listed(added: seq<Entry<RouteRef>>, us: seq<Use<RuleSpec>>, ns: seq<string>) {
    if us == [] then added == [] && ns == []
    else
      ns != [] &&
      match us[0]
      case Other => false
      case Named(n) => ns[0] == n && Listed(added, us[1..], ns[1..])
      case Inline(r) => added != [] && added[0].name == ns[0] && Listed(added[1..], us[1..], ns[1..])
  }

  lemma HeadName(added: seq<Entry<RouteRef>>)
    requires added != []
    ensures Names(added) == {added[0].name} + Names(added[1..])
  {
    assert added == [added[0]] + added[1..];
    NamesOfSum([added[0]], added[1..]);
    assert Names([added[0]]) == {added[0].name} by { assert added[0] in [added[0]]; }
  }

  lemma {:induction false} ListedCovers(added: seq<Entry<RouteRef>>, us: seq<Use<RuleSpec>>, ns: seq<string>)
    requires Listed(added, us, ns)
    ensures Names(added) <= SetOf(ns)
    ensures forall u :: u in us && u.Named? ==> u.name in ns
    decreases |us|
  {
    if us != [] {
      assert us == [us[0]] + us[1..] && ns == [ns[0]] + ns[1..];
      if us[0].Named? {
        ListedCovers(added, us[1..], ns[1..]);
      } else {
        ListedCovers(added[1..], us[1..], ns[1..]);
        HeadName(added);
      }
    }
  }

  lemma {:induction false} ListedInline(added: seq<Entry<RouteRef>>, us: seq<Use<RuleSpec>>, ns: seq<string>)
    requires Listed(added, us, ns) && Unique(added) && forall u :: u in us ==> u.Inline?
    ensures Names(added) == SetOf(ns) && Distinct(ns)
    decreases |us|
  {
    if us != [] {
      assert us == [us[0]] + us[1..] && ns == [ns[0]] + ns[1..];
      assert us[0] in us;
      ListedInline(added[1..], us[1..], ns[1..]);
      HeadName(added);
      assert SetOf(ns) == {ns[0]} + SetOf(ns[1..]);
    }
  }

  /** A list without repetitions refers to no rule that it also defines. */
  lemma {:induction false} ListedOnce(added: seq<Entry<RouteRef>>, us: seq<Use<RuleSpec>>, ns: seq<string>)
    requires Listed(added, us, ns) && Distinct(ns)
    ensures forall u :: u in us && u.Named? ==> u.name !in Names(added)
    decreases |us|
  {
    if us != [] {
      assert us == [us[0]] + us[1..];
      if us[0].Named? {
        ListedOnce(added, us[1..], ns[1..]);
        ListedCovers(added, us[1..], ns[1..]);
      } else {
        ListedOnce(added[1..], us[1..], ns[1..]);
        ListedCovers(added[1..], us[1..], ns[1..]);
        HeadName(added);
      }
    }
  }

  // -------------------------------------------------------------------------- the rule list

  /** From s to t, list k got the names ns appended, and the registries grew by what us
      defines inline. */
  ghost predicate ListGrowth(s: State, t: State, k: nat, us: seq<Use<RuleSpec>>, ns: seq<string>) {
    k < |s.rulelists| == |t.rulelists| && t.listeners == s.listeners &&
    t.rulelists == s.rulelists[k := s.rulelists[k].(body := s.rulelists[k].body + ns)] &&
    Grown(s, t, RoutesNamed(us), ClustersNamed(us)) && Listed(t.rules[|s.rules|..], us, ns)
  }

  lemma ListedSingle(a: seq<Entry<RouteRef>>, u: Use<RuleSpec>, n: string)
    requires Listed(a, [u], [n])
    ensures !u.Other? && (u.Named? ==> a == [] && u.name == n)
    ensures u.Inline? ==> |a| == 1 && a[0].name == n
  {
    assert [u][1..] == [] && [n][1..] == [];
  }

  lemma ListedCons(a: seq<Entry<RouteRef>>, b: seq<Entry<RouteRef>>, u: Use<RuleSpec>, us: seq<Use<RuleSpec>>,
                   n: string, ns: seq<string>)
    requires Listed(a, [u], [n]) && Listed(b, us, ns)
    ensures Listed(a + b, [u] + us, [n] + ns)
  {
    ListedSingle(a, u, n);
    assert ([u] + us)[1..] == us && ([n] + ns)[1..] == ns;
    assert (a + b)[|a|..] == b;
  }

  lemma NamedSums(a: seq<Use<RuleSpec>>, b: seq<Use<RuleSpec>>)
    ensures RoutesNamed(a + b) == RoutesNamed(a) + RoutesNamed(b)
    ensures ClustersNamed(a + b) == ClustersNamed(a) + ClustersNamed(b)
  {
  }

  lemma GrownThrough(s: State, t: State, v: State, a: seq<Use<RuleSpec>>, b: seq<Use<RuleSpec>>)
    requires Grown(s, t, RoutesNamed(a), ClustersNamed(a)) && Grown(t, v, RoutesNamed(b), ClustersNamed(b))
    ensures Grown(s, v, RoutesNamed(a + b), ClustersNamed(a + b))
  {
    NamedSums(a, b);
    GrownChains(s, t, v, RoutesNamed(a), ClustersNamed(a), RoutesNamed(b), ClustersNamed(b));
  }

  lemma ListGrowthChains(s: State, t: State, v: State, k: nat, u: Use<RuleSpec>, us: seq<Use<RuleSpec>>,
                         n: string, ns: seq<string>)
    requires ListGrowth(s, t, k, [u], [n]) && ListGrowth(t, v, k, us, ns)
    ensures ListGrowth(s, v, k, [u] + us, [n] + ns)
  {
    GrownThrough(s, t, v, [u], us);
    assert s.rulelists[k].body + [n] + ns == s.rulelists[k].body + ([n] + ns);
    var a, b := t.rules[|s.rules|..], v.rules[|t.rules|..];
    ListedCons(a, b, u, us, n, ns);
    assert v.rules[|s.rules|..] == a + b;
  }

  lemma SetListKeeps(s: State, k: nat, ns: seq<string>)
    requires WF(s) && k < |s.rulelists|
    ensures WF(SetList(s, k, ns))
  {
  }

  lemma NothingGrown(s: State, t: State)
    requires t.rules == s.rules && t.routes == s.routes && t.clusters == s.clusters && t.endpoints == s.endpoints
    ensures Grown(s, t, {}, {})
  {
  }

  lemma AppendRuleKeeps(s: State, k: nat, u: Use<RuleSpec>)
    requires WF(s) && k < |s.rulelists|
    ensures var o := AddRuleToRuleList(s, k, u, |s.rulelists[k].body|);
      WF(o.reg) && (o.Done? ==> exists n :: ListGrowth(s, o.reg, k, [u], [n]))
  {
    var rl := s.rulelists[k];
    var o := AddRuleToRuleList(s, k, u, |rl.body|);
    if u.Named? {
      SetListKeeps(s, k, rl.body + [u.name]);
      assert Insert(rl.body, |rl.body|, u.name) == rl.body + [u.name];
      NothingGrown(s, o.reg);
      assert RoutesNamed([u]) == {} && ClustersNamed([u]) == {};
      assert ListGrowth(s, o.reg, k, [u], [u.name]);
    } else if u.Inline? {
      AddInlineRuleKeeps(s, rl.name + "-Rule-", u.spec);
      var q := AddInlineRule(s, rl.name + "-Rule-", u.spec);
      if q.0.Done? {
        SetListKeeps(q.0.reg, k, rl.body + [q.1]);
        assert Insert(rl.body, |rl.body|, q.1) == rl.body + [q.1];
        InlineListed(s, q.0.reg, k, u.spec, q.1);
      }
    }
  }

  lemma InlineListed(s: State, t: State, k: nat, r: RuleSpec, n: string)
    requires k < |s.rulelists| && RuleGrowth(s, t, n, r)
    ensures ListGrowth(s, SetList(t, k, s.rulelists[k].body + [n]), k, [Inline(r)], [n])
  {
    var v := SetList(t, k, s.rulelists[k].body + [n]);
    assert RoutesNamed([Inline(r)]) == WantedRoutes(r) by { assert Inline(r) in [Inline(r)]; }
    assert ClustersNamed([Inline(r)]) == WantedClusters(r) by { assert Inline(r) in [Inline(r)]; }
    assert forall m :: Pointed(s, v, m) <==> Pointed(s, t, m);
    assert forall m :: Mentioned(s, v, m) <==> Mentioned(s, t, m);
    assert v.rules[|s.rules|..] == [t.rules[|s.rules|]];
  }

  /** What adding the rules us to list k comes to. */
  ghost predicate RulesAdded(s: State, k: nat, us: seq<Use<RuleSpec>>, o: Out) {
    WF(o.reg) && (o.Done? ==> exists ns :: ListGrowth(s, o.reg, k, us, ns))
  }

  lemma RulesAddedChains(s: State, t: State, k: nat, us: seq<Use<RuleSpec>>, o: Out)
    requires us != [] && exists n :: ListGrowth(s, t, k, us[..1], [n])
    requires RulesAdded(t, k, us[1..], o)
    ensures RulesAdded(s, k, us, o)
  {
    if o.Done? {
      var n :| ListGrowth(s, t, k, us[..1], [n]);
      var ns :| ListGrowth(t, o.reg, k, us[1..], ns);
      assert us[..1] == [us[0]] && us == [us[0]] + us[1..];
      ListGrowthChains(s, t, o.reg, k, us[0], us[1..], n, ns);
    }
  }

  lemma ListLength(s: State, t: State, k: nat, u: Use<RuleSpec>)
    requires exists n :: ListGrowth(s, t, k, [u], [n])
    ensures k < |s.rulelists| == |t.rulelists| && |t.rulelists[k].body| == |s.rulelists[k].body| + 1
  {
  }

  lemma NoRules(s: State, k: nat)
    requires WF(s) && k < |s.rulelists|
    ensures RulesAdded(s, k, [], Done(s))
  {
    NothingGrown(s, s);
    assert s.rulelists[k].body + [] == s.rulelists[k].body;
    assert RoutesNamed([]) == {} && ClustersNamed([]) == {};
    assert ListGrowth(s, s, k, [], []);
  }

  lemma AddRulesStep(s: State, t: State, k: nat, us: seq<Use<RuleSpec>>)
    requires k < |s.rulelists| && us != []
    requires AddRuleToRuleList(s, k, us[0], |s.rulelists[k].body|) == Done(t)
    requires exists n :: ListGrowth(s, t, k, us[..1], [n])
    requires RulesAdded(t, k, us[1..], AddRules(t, k, us[1..], |s.rulelists[k].body| + 1))
    ensures RulesAdded(s, k, us, AddRules(s, k, us, |s.rulelists[k].body|))
  {
    RulesAddedChains(s, t, k, us, AddRules(t, k, us[1..], |s.rulelists[k].body| + 1));
  }

  lemma {:induction false} AddRulesKeeps(s: State, k: nat, us: seq<Use<RuleSpec>>)
    requires WF(s) && k < |s.rulelists|
    ensures RulesAdded(s, k, us, AddRules(s, k, us, |s.rulelists[k].body|))
    decreases |us|
  {
    if us == [] {
      NoRules(s, k);
    } else {
      AppendRuleKeeps(s, k, us[0]);
      var o := AddRuleToRuleList(s, k, us[0], |s.rulelists[k].body|);
      if o.Done? {
        assert us[..1] == [us[0]];
        ListLength(s, o.reg, k, us[0]);
        AddRulesKeeps(o.reg, k, us[1..]);
        AddRulesStep(s, o.reg, k, us);
      }
    }
  }

  /** A rule list under a new name: on success its closure restores what was there exactly
      when the list is clean. */
  lemma AddRuleListKeeps(s: State, name: Option<string>, us: seq<Use<RuleSpec>>, auto: bool)
    requires WF(s)
    ensures var o := AddRuleList(s, name, us, auto);
      && WF(o.reg)
      && (o.Done? ==> exists ns :: ListAdded(s, o.reg, name.value, auto, us, ns))
  {
    var o := AddRuleList(s, name, us, auto);
    if ValidName(name) && !Has(s.rulelists, name.value) {
      var k := |s.rulelists|;
      var x := Entry(name.value, auto, []);
      var p := s.(rulelists := s.rulelists + [x]);
      PushUnique(s.rulelists, x);
      FindIs(s.rulelists, name.value);
      assert WF(p);
      AddRulesKeeps(p, k, us);
      if o.Done? {
        var ns :| ListGrowth(p, o.reg, k, us, ns);
        assert [] + ns == ns;
        assert o.reg.rulelists == s.rulelists + [Entry(name.value, auto, ns)];
        GrownSame(s, p, o.reg, RoutesNamed(us), ClustersNamed(us));
        assert ListAdded(s, o.reg, name.value, auto, us, ns);
      }
    }
  }

  lemma GrownSame(s: State, p: State, t: State, rs: set<string>, cs: set<string>)
    requires p.rules == s.rules && p.routes == s.routes && p.clusters == s.clusters && p.endpoints == s.endpoints
    requires Grown(p, t, rs, cs)
    ensures Grown(s, t, rs, cs)
  {
    assert forall n :: Pointed(s, t, n) <==> Pointed(p, t, n);
    assert forall n :: Mentioned(s, t, n) <==> Mentioned(p, t, n);
  }

  ghost predicate ListAdded(s: State, t: State, n: string, auto: bool, us: seq<Use<RuleSpec>>, ns: seq<string>) {
    t.listeners == s.listeners && n !in Names(s.rulelists) &&
    t.rulelists == s.rulelists + [Entry(n, auto, ns)] &&
    Grown(s, t, RoutesNamed(us), ClustersNamed(us)) && Listed(t.rules[|s.rules|..], us, ns)
  }

  // ------------------------------------------------------------- the closure of a new rule list

  lemma NewRules(s: State, t: State, us: seq<Use<RuleSpec>>, ns: seq<string>)
    requires WF(t) && s.rules <= t.rules && Listed(t.rules[|s.rules|..], us, ns)
    ensures (Distinct(ns) && Exist(t, ns) && SetOf(ns) !! Names(s.rules)) <==> forall u :: u in us ==> u.Inline?
    ensures Names(t.rules) == Names(s.rules) + Names(t.rules[|s.rules|..])
    ensures Names(s.rules) !! Names(t.rules[|s.rules|..])
  {
    var added := t.rules[|s.rules|..];
    assert t.rules == s.rules + added;
    NamesOfSum(s.rules, added);
    ListedCovers(added, us, ns);
    assert Unique(added);
    assert forall n :: n in ns ==> n in SetOf(ns);
    if forall u :: u in us ==> u.Inline? {
      ListedInline(added, us, ns);
      forall n | n in ns
        ensures Has(t.rules, n)
      {
        FindIs(t.rules, n);
      }
    } else if Distinct(ns) && Exist(t, ns) {
      ListedOnce(added, us, ns);
      ListedNoOther(added, us, ns);
      var u :| u in us && u.Named?;
      FindIs(t.rules, u.name);
      assert u.name in SetOf(ns) && u.name in Names(s.rules);
    }
  }

  lemma {:induction false} ListedNoOther(added: seq<Entry<RouteRef>>, us: seq<Use<RuleSpec>>, ns: seq<string>)
    requires Listed(added, us, ns)
    ensures forall u :: u in us ==> !u.Other?
    decreases |us|
  {
    if us != [] {
      assert us == [us[0]] + us[1..];
      ListedNoOther(if us[0].Named? then added else added[1..], us[1..], ns[1..]);
    }
  }

  lemma OldNames<B>(a: seq<Entry<B>>, b: seq<Entry<B>>)
    requires a <= b
    ensures forall k :: 0 <= k < |a| ==> b[k].name in Names(a)
  {
    forall k | 0 <= k < |a|
      ensures b[k].name in Names(a)
    {
      assert a[k] in a;
    }
  }

  /** For an all-inline list, the rules of the list point where the new rules point. */
  lemma NewTargets(s: State, t: State, us: seq<Use<RuleSpec>>, ns: seq<string>)
    requires WF(t) && Prefixes(s, t) && Listed(t.rules[|s.rules|..], us, ns)
    requires forall u :: u in us ==> u.Inline?
    ensures forall n :: n in RouteTargets(t.rules, SetOf(ns)) <==> Pointed(s, t, n)
    ensures forall i :: |s.rules| <= i < |t.rules| ==> t.rules[i].name in SetOf(ns)
  {
    var added := t.rules[|s.rules|..];
    NewRules(s, t, us, ns);
    ListedInline(added, us, ns);
    forall i | |s.rules| <= i < |t.rules|
      ensures t.rules[i].name in SetOf(ns)
    {
      assert t.rules[i] == added[i - |s.rules|];
      assert t.rules[i] in added;
    }
    forall n
      ensures n in RouteTargets(t.rules, SetOf(ns)) <==> Pointed(s, t, n)
    {
      if n in RouteTargets(t.rules, SetOf(ns)) {
        var k :| 0 <= k < |t.rules| && t.rules[k].name in SetOf(ns) && t.rules[k].body == To(n);
        OldNames(s.rules, t.rules);
      }
      if Pointed(s, t, n) {
        var k :| |s.rules| <= k < |t.rules| && t.rules[k].body == To(n);
        assert t.rules[k] in t.rules;
      }
    }
  }

  /** Which routes the closure of new rules drops: the new ones, and old ones that were named
      and autogenerated. */
  lemma DroppedRoutes(s: State, t: State, targets: set<string>, rs: set<string>)
    requires Unique(t.routes) && s.routes <= t.routes
    requires forall n :: n in targets <==> Pointed(s, t, n)
    requires forall i :: |s.routes| <= i < |t.routes| ==> t.routes[i].auto && Pointed(s, t, t.routes[i].name)
    requires forall n :: n in rs ==> Pointed(s, t, n)
    requires forall n :: Pointed(s, t, n) ==> n in rs || n !in Names(s.routes)
    ensures forall i :: |s.routes| <= i < |t.routes| ==> t.routes[i].name in targets * AutoNames(t.routes)
    ensures Names(s.routes) * targets * AutoNames(t.routes) == rs * AutoNames(s.routes)
  {
    AutoInNames(s.routes);
    forall i | |s.routes| <= i < |t.routes|
      ensures t.routes[i].name in targets * AutoNames(t.routes)
    {
      AutoNewest(t.routes, i);
    }
    forall n
      ensures n in Names(s.routes) * targets * AutoNames(t.routes) <==> n in rs * AutoNames(s.routes)
    {
      if n in Names(s.routes) {
        AutoBefore(s.routes, t.routes, n);
      }
    }
  }

  lemma NewMentions(s: State, t: State, ds: set<string>)
    requires s.routes <= t.routes && Names(s.routes) !! ds
    requires forall i :: |s.routes| <= i < |t.routes| ==> t.routes[i].name in ds
    ensures forall n :: n in ClusterTargets(t.routes, ds) <==> Mentioned(s, t, n)
  {
    OldNames(s.routes, t.routes);
    forall n
      ensures n in ClusterTargets(t.routes, ds) <==> Mentioned(s, t, n)
    {
      if n in ClusterTargets(t.routes, ds) {
        var k :| 0 <= k < |t.routes| && t.routes[k].name in ds && n in Refs(t.routes[k].body);
        assert k >= |s.routes|;
      }
      if Mentioned(s, t, n) {
        var k :| |s.routes| <= k < |t.routes| && n in Refs(t.routes[k].body);
        assert t.routes[k] in t.routes;
      }
    }
  }

  /** And which clusters. */
  lemma DroppedClusters(s: State, t: State, targets: set<string>, cs: set<string>)
    requires Unique(t.clusters) && s.clusters <= t.clusters
    requires forall n :: n in targets <==> Mentioned(s, t, n)
    requires forall i :: |s.clusters| <= i < |t.clusters| ==> t.clusters[i].auto && Mentioned(s, t, t.clusters[i].name)
    requires forall n :: n in cs ==> Mentioned(s, t, n)
    requires forall n :: Mentioned(s, t, n) ==> n in cs || n !in Names(s.clusters)
    ensures forall i :: |s.clusters| <= i < |t.clusters| ==> t.clusters[i].name in targets * AutoNames(t.clusters)
    ensures Names(s.clusters) * targets * AutoNames(t.clusters) == cs * AutoNames(s.clusters)
  {
    AutoInNames(s.clusters);
    forall i | |s.clusters| <= i < |t.clusters|
      ensures t.clusters[i].name in targets * AutoNames(t.clusters)
    {
      AutoNewest(t.clusters, i);
    }
    forall n
      ensures n in Names(s.clusters) * targets * AutoNames(t.clusters) <==> n in cs * AutoNames(s.clusters)
    {
      if n in Names(s.clusters) {
        AutoBefore(s.clusters, t.clusters, n);
      }
    }
  }

  /** What the closure of a new all-inline list drops, layer by layer. */
  lemma ClosureOfList(s: State, t: State, us: seq<Use<RuleSpec>>, ns: seq<string>, d: Drops)
    requires WF(t) && Grown(s, t, RoutesNamed(us), ClustersNamed(us))
    requires Listed(t.rules[|s.rules|..], us, ns) && (forall u :: u in us ==> u.Inline?)
    requires d == RuleClosure(t, SetOf(ns))
    ensures forall i :: |s.rules| <= i < |t.rules| ==> t.rules[i].name in d.rules
    ensures forall i :: |s.routes| <= i < |t.routes| ==> t.routes[i].name in d.routes
    ensures Names(s.routes) * d.routes == RoutesNamed(us) * AutoNames(s.routes)
    ensures RoutesNamed(us) !! AutoNames(s.routes) ==>
              && (forall i :: |s.clusters| <= i < |t.clusters| ==> t.clusters[i].name in d.clusters)
              && Names(s.clusters) * d.clusters == ClustersNamed(us) * AutoNames(s.clusters)
  {
    NewTargets(s, t, us, ns);
    var targets := RouteTargets(t.rules, SetOf(ns));
    DroppedRoutes(s, t, targets, RoutesNamed(us));
    assert Names(s.routes) * d.routes == Names(s.routes) * targets * AutoNames(t.routes);
    if RoutesNamed(us) !! AutoNames(s.routes) {
      NewMentions(s, t, d.routes);
      var mentions := ClusterTargets(t.routes, d.routes);
      DroppedClusters(s, t, mentions, ClustersNamed(us));
      assert Names(s.clusters) * d.clusters == Names(s.clusters) * mentions * AutoNames(t.clusters);
    }
  }

  // ------------------------------------------------------------------------- the round trip

  /** The four lower registries are the same. */
  predicate SameBelow(s: State, t: State) {
    t.rules == s.rules && t.routes == s.routes && t.clusters == s.clusters && t.endpoints == s.endpoints
  }

  lemma SameMeet(a: set<string>, b: set<string>, c: set<string>, d: set<string>)
    requires a * b == c * d
    ensures a !! b <==> c !! d
  {
    if c !! d {
      assert forall x :: x in a && x in b ==> x in a * b;
    }
    if a !! b {
      assert forall x :: x in c && x in d ==> x in c * d;
    }
  }

  lemma InlineRestored(s: State, t: State, us: seq<Use<RuleSpec>>, ns: seq<string>, d: Drops)
    requires WF(s) && WF(t) && Grown(s, t, RoutesNamed(us), ClustersNamed(us))
    requires Listed(t.rules[|s.rules|..], us, ns) && (forall u :: u in us ==> u.Inline?)
    requires d == RuleClosure(t, SetOf(ns))
    ensures SameBelow(s, Prune(t, d)) <==>
            RoutesNamed(us) !! AutoNames(s.routes) && ClustersNamed(us) !! AutoNames(s.clusters)
  {
    assert d.rules !! Names(s.rules) by { NewRules(s, t, us, ns); }
    ClosureOfList(s, t, us, ns, d);
    KeepLosesNames(s.routes, t.routes, d.routes);
    SameMeet(Names(s.routes), d.routes, RoutesNamed(us), AutoNames(s.routes));
    var u := Prune(t, d);
    if RoutesNamed(us) !! AutoNames(s.routes) {
      SameMeet(Names(s.clusters), d.clusters, ClustersNamed(us), AutoNames(s.clusters));
      RestoredIff(s, t, d);
      assert SameBelow(s, u) <==> ClustersNamed(us) !! AutoNames(s.clusters);
    } else {
      assert !SameBelow(s, u);
    }
  }

  /** After adding a rule list, its recursive deletion restores the four lower registries
      exactly when the list is all inline and refers to nothing that was autogenerated. */
  lemma ListRestored(s: State, t: State, us: seq<Use<RuleSpec>>, ns: seq<string>)
    requires WF(s) && WF(t) && Grown(s, t, RoutesNamed(us), ClustersNamed(us))
    requires Listed(t.rules[|s.rules|..], us, ns)
    ensures (Distinct(ns) && Exist(t, ns) && SameBelow(s, Prune(t, RuleClosure(t, SetOf(ns))))) <==>
            ((forall u :: u in us ==> u.Inline?)
             && RoutesNamed(us) !! AutoNames(s.routes) && ClustersNamed(us) !! AutoNames(s.clusters))
  {
    var d := RuleClosure(t, SetOf(ns));
    NewRules(s, t, us, ns);
    KeepLosesNames(s.rules, t.rules, d.rules);
    if forall u :: u in us ==> u.Inline? {
      InlineRestored(s, t, us, ns, d);
    }
  }

  lemma KeepLosesNames<B>(a: seq<Entry<B>>, es: seq<Entry<B>>, d: set<string>)
    ensures Keep(es, d) == a ==> Names(a) !! d
  {
    KeepNames(es, d);
  }

  lemma BindRulesKeeps(s: State, listener: string, rules: RulesUse)
    requires WF(s)
    ensures WF(BindRules(s, listener, rules).0.reg)
  {
    if rules.Listing? {
      var n := OwnListName(s, listener);
      var s1 := CountList(s);
      SameIsWF(s, s1);
      if n.Some? {
        AddRuleListKeeps(s1, n, rules.rules, true);
      }
    }
  }

  lemma RegisterKeeps(s: State, l: ListenerSpec, auto: bool)
    requires WF(s)
    ensures WF(Register(s, l, auto).reg)
  {
    var o := Register(s, l, auto);
    if ValidName(l.name) && l.wellFormed && !Has(s.listeners, l.name.value) && l.known {
      BindRulesKeeps(s, l.name.value, l.rules);
      if o.Done? {
        PushUnique(s.listeners, o.reg.listeners[|s.listeners|]);
      }
    }
  }

  /** What a listener with its own rules adds. */
  lemma RegisterListing(s: State, l: ListenerSpec, auto: bool) returns (n: string, ns: seq<string>)
    requires WF(s) && Register(s, l, auto).Done? && l.rules.Listing?
    ensures var t := Register(s, l, auto).reg;
      && t.listeners == s.listeners + [Entry(l.name.value, auto, n)] && !Has(s.listeners, l.name.value)
      && ListAdded(s, t.(listeners := s.listeners), n, true, l.rules.rules, ns)
  {
    var us := l.rules.rules;
    var s1 := CountList(s);
    n := OwnListName(s, l.name.value).value;
    SameIsWF(s, s1);
    AddRuleListKeeps(s1, Some(n), us, true);
    var o := AddRuleList(s1, Some(n), us, true);
    ns :| ListAdded(s1, o.reg, n, true, us, ns);
    GrownIds(s, s1, o.reg, RoutesNamed(us), ClustersNamed(us));
    assert Register(s, l, auto).reg.(listeners := s.listeners) == o.reg;
  }

  lemma DeleteNewest(t: State, ls: seq<Entry<string>>, x: Entry<string>)
    requires t.listeners == ls + [x] && !Has(ls, x.name)
    ensures Find(t.listeners, x.name) == |ls| && Splice(t.listeners, |ls|) == ls
  {
    FindIs(t.listeners, x.name);
    FindIs(ls, x.name);
    assert t.listeners[|ls|] in t.listeners;
    assert forall i :: 0 <= i < |ls| ==> t.listeners[i] == ls[i];
  }

  /** The round trip of a listener. */
  lemma ListenerRoundTrip(s: State, l: ListenerSpec, auto: bool)
    requires WF(s) && Register(s, l, auto).Done?
    ensures var o := DeleteListener(Register(s, l, auto).reg, l.name.value, true);
      (o.Done? && Same(s, o.reg)) <==> Clean(s, l)
  {
    var t := Register(s, l, auto).reg;
    RegisterKeeps(s, l, auto);
    match l.rules {
      case Reference(n) =>
        DeleteNewest(t, s.listeners, Entry(l.name.value, auto, n));
        DeleteRuleListPrunes(t, n);
        AutoIs(s.rulelists, n);
        AutoInNames(s.rulelists);
        KeepLosesNames(s.rulelists, s.rulelists, {n});
      case Listing(us) =>
        var n, ns := RegisterListing(s, l, auto);
        DeleteNewest(t, s.listeners, Entry(l.name.value, auto, n));
        DeleteRuleListPrunes(t, n);
        FindAt(t.rulelists, |s.rulelists|);
        GrownSame(s, s, t.(listeners := s.listeners), RoutesNamed(us), ClustersNamed(us));
        ListingRestored(s, t, us, n, ns);
    }
  }

  lemma ListingRestored(s: State, t: State, us: seq<Use<RuleSpec>>, n: string, ns: seq<string>)
    requires WF(s) && WF(t) && ListAdded(s, t.(listeners := s.listeners), n, true, us, ns)
    ensures var u := Prune(t, RuleClosure(t, SetOf(ns))).(rulelists := Keep(t.rulelists, {n}));
      (Distinct(ns) && Exist(t, ns) && Same(s, u.(listeners := s.listeners))) <==>
      ((forall u :: u in us ==> u.Inline?)
       && RoutesNamed(us) !! AutoNames(s.routes) && ClustersNamed(us) !! AutoNames(s.clusters))
  {
    var v := t.(listeners := s.listeners);
    ListRestored(s, v, us, ns);
    KeepDrops(s.rulelists, t.rulelists, {n});
    assert RuleClosure(v, SetOf(ns)) == RuleClosure(t, SetOf(ns));
  }

  /** A listener that fails to start leaves the registries as they were exactly under the same
      condition. */
  lemma FailedStartRestores(s: State, l: ListenerSpec, auto: bool)
    requires WF(s) && Register(s, l, auto).Done? && !l.starts
    ensures AddListener(s, l, auto).Thrown?
    ensures Same(s, AddListener(s, l, auto).reg) <==> Clean(s, l)
  {
    ListenerRoundTrip(s, l, auto);
    var t := Register(s, l, auto).reg;
    var d := DeleteListener(t, l.name.value, true);
    if d.Thrown? {
      ListenersStay(t, l.name.value);
    }
  }

  /** A delete that throws leaves the listener registered. */
  lemma ListenersStay(t: State, n: string)
    ensures var d := DeleteListener(t, n, true); d.Thrown? ==> d.reg.listeners == t.listeners
  {
  }

  /** When a cluster nested in a listener fails to start, only that cluster is taken back: the
      new rule list stays registered. */
  lemma NestedFailureStays(s: State, l: ListenerSpec, auto: bool)
    requires Register(s, l, auto).Thrown? && Register(s, l, auto).error == StartFailed
    ensures |AddListener(s, l, auto).reg.rulelists| == |s.rulelists| + 1
    ensures !Same(s, AddListener(s, l, auto).reg)
  {
  }
}
