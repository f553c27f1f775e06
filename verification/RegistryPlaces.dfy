/** Where the adds put what: the references of routes, rules, rule lists and listeners, place by
    place; and what the deletes take out that are not recursive. */
module RegistryPlaces {
  import opened Basics
  import opened Registry
  import opened RegistryContents
  import C = Clusters

  // --------------------------------------------------------------------------------- routes

  predicate Given(n: Option<string>) { n.Some? && n.value != "" }

  /** n is a name that was made up from the base. */
  ghost predicate Derived(base: string, n: string) { exists k :: 0 <= k <= 20 && n == Candidate(base, k) }

  /** The names ns that the references us of a route are stored as, in order, and the clusters
      appended for the inline ones; the counter stood at d. */
  ghost predicate Stored(added: seq<Entry<ClusterBody>>, us: seq<Use<ClusterSpec>>, ns: seq<string>, prefix: string,
                         d: nat)
    decreases |us|
  {
    if us == [] then added == [] && ns == []
    else
      ns != [] &&
      match us[0]
      case Other => false
      case Named(n) => ns[0] == n && Stored(added, us[1..], ns[1..], prefix, d)
      case Inline(c) =>
        && added != [] && ClusterOf(added[0], ns[0], c, true)
        && (if Given(c.name) then ns[0] == c.name.value && Stored(added[1..], us[1..], ns[1..], prefix, d)
            else Derived(prefix + Decimal(d), ns[0]) && Stored(added[1..], us[1..], ns[1..], prefix, d + 1))
  }

  /** How many inline clusters come without a name. */
  function Nameless(us: seq<Use<ClusterSpec>>): nat {
    if us == [] then 0 else (if us[0].Inline? && !Given(us[0].spec.name) then 1 else 0) + Nameless(us[1..])
  }

  /** Clusters, endpoints and the two counters behind their names may differ. */
  predicate OnlyBelow(s: State, t: State) {
    t == s.(clusters := t.clusters, endpoints := t.endpoints,
            ids := s.ids.(endpoint := t.ids.endpoint, cluster := t.ids.cluster))
  }

  /** From s to t the references us were added and are called ns. */
  ghost predicate UsesStored(s: State, t: State, us: seq<Use<ClusterSpec>>, ns: seq<string>, prefix: string) {
    && OnlyBelow(s, t) && s.clusters <= t.clusters && s.endpoints <= t.endpoints
    && t.ids.cluster == s.ids.cluster + Nameless(us)
    && Stored(t.clusters[|s.clusters|..], us, ns, prefix, s.ids.cluster)
  }

  lemma NamelessFirst(u: Use<ClusterSpec>, us: seq<Use<ClusterSpec>>)
    ensures Nameless([u]) == if u.Inline? && !Given(u.spec.name) then 1 else 0
    ensures Nameless([u] + us) == Nameless([u]) + Nameless(us)
  {
    var one, all := [u], [u] + us;
    assert one[0] == u && one[1..] == [];
    assert all[0] == u && all[1..] == us;
    assert Nameless(one) == (if u.Inline? && !Given(u.spec.name) then 1 else 0) + Nameless(one[1..]);
  }

  lemma StoredFirst(a: seq<Entry<ClusterBody>>, b: seq<Entry<ClusterBody>>, u: Use<ClusterSpec>,
                    us: seq<Use<ClusterSpec>>, n: string, ns: seq<string>, prefix: string, d: nat)
    requires Stored(a, [u], [n], prefix, d) && Stored(b, us, ns, prefix, d + Nameless([u]))
    ensures Stored(a + b, [u] + us, [n] + ns, prefix, d) && Nameless([u] + us) == Nameless([u]) + Nameless(us)
  {
    NamelessFirst(u, us);
    assert [u][1..] == [] && [n][1..] == [];
    assert ([u] + us)[1..] == us && ([n] + ns)[1..] == ns;
    assert ([u] + us)[0] == u && ([n] + ns)[0] == n;
    var e := d + Nameless([u]);
    match u {
      case Other =>
      case Named(m) =>
        assert Stored(a, [], [], prefix, d);
        assert a + b == b && e == d;
      case Inline(c) =>
        assert Stored(a[1..], [], [], prefix, e);
        assert a[1..] == [] && (a + b)[1..] == b && (a + b)[0] == a[0];
        assert e == if Given(c.name) then d else d + 1;
    }
  }

  lemma FirstThenRest(s: State, t: State, v: State, u: Use<ClusterSpec>, us: seq<Use<ClusterSpec>>, n: string,
                      ns: seq<string>, prefix: string)
    requires UsesStored(s, t, [u], [n], prefix) && UsesStored(t, v, us, ns, prefix)
    ensures UsesStored(s, v, [u] + us, [n] + ns, prefix)
  {
    var a, b := t.clusters[|s.clusters|..], v.clusters[|t.clusters|..];
    StoredFirst(a, b, u, us, n, ns, prefix, s.ids.cluster);
    assert v.clusters[|s.clusters|..] == a + b;
  }

  lemma InlineStored(s: State, prefix: string, c: ClusterSpec)
    requires AddInlineCluster(s, prefix, c).0.Done?
    ensures var o := AddInlineCluster(s, prefix, c); UsesStored(s, o.0.reg, [Inline(c)], [o.1], prefix)
  {
    var base := prefix + Decimal(s.ids.cluster);
    var n := PickName(c.name, s.clusters, base);
    PicksName(c.name, s.clusters, base);
    var s1 := CountCluster(s, c.name);
    AddClusterPuts(s1, c.(name := n), true);
    var t := AddCluster(s1, c.(name := n), true).reg;
    assert t.clusters[|s.clusters|..] == [t.clusters[|s.clusters|]];
    OneStored(t.clusters[|s.clusters|], c, n.value, prefix, s.ids.cluster);
  }

  lemma OneStored(e: Entry<ClusterBody>, c: ClusterSpec, n: string, prefix: string, d: nat)
    requires ClusterOf(e, n, c, true) && if Given(c.name) then n == c.name.value else Derived(prefix + Decimal(d), n)
    ensures Stored([e], [Inline(c)], [n], prefix, d)
    ensures Nameless([Inline(c)]) == if Given(c.name) then 0 else 1
  {
    var us: seq<Use<ClusterSpec>> := [Inline(c)];
    assert us[1..] == [] && [e][1..] == [] && [n][1..] == [];
  }

  lemma NamedStored(s: State, n: string, prefix: string)
    ensures UsesStored(s, s, [Named(n)], [n], prefix)
  {
    var us: seq<Use<ClusterSpec>> := [Named(n)];
    assert us[1..] == [] && [n][1..] == [];
  }

  lemma {:induction false} AddUsesStores(s: State, prefix: string, us: seq<Use<ClusterSpec>>)
    requires AddUses(s, prefix, us).0.Done?
    ensures var o := AddUses(s, prefix, us); UsesStored(s, o.0.reg, us, o.1, prefix)
    decreases |us|
  {
    if us != [] {
      var o := AddUse(s, prefix, us[0]);
      match us[0] {
        case Other =>
        case Named(n) => NamedStored(s, n, prefix);
        case Inline(c) => InlineStored(s, prefix, c);
      }
      AddUsesStores(o.0.reg, prefix, us[1..]);
      var r := AddUses(o.0.reg, prefix, us[1..]);
      FirstThenRest(s, o.0.reg, r.0.reg, us[0], us[1..], o.1, r.1, prefix);
      assert us == [us[0]] + us[1..];
    }
  }

  /** What is stored at place i: a name that is given stays, and the spec's own name is used. */
  lemma {:induction false} StoredAt(added: seq<Entry<ClusterBody>>, us: seq<Use<ClusterSpec>>, ns: seq<string>,
                                    prefix: string, d: nat, i: nat)
    requires Stored(added, us, ns, prefix, d) && i < |us|
    ensures |ns| == |us| && !us[i].Other? && (us[i].Named? ==> ns[i] == us[i].name)
    ensures us[i].Inline? ==>
              && (Given(us[i].spec.name) ==> ns[i] == us[i].spec.name.value)
              && (exists e :: e in added && ClusterOf(e, ns[i], us[i].spec, true))
    decreases |us|
  {
    var rest := if us[0].Named? then added else added[1..];
    var e := if us[0].Inline? && !Given(us[0].spec.name) then d + 1 else d;
    if i > 0 {
      StoredAt(rest, us[1..], ns[1..], prefix, e, i - 1);
      assert us[1..][i - 1] == us[i] && ns[1..][i - 1] == ns[i];
    } else if us[1..] != [] {
      StoredAt(rest, us[1..], ns[1..], prefix, e, 0);
    }
  }

  /** The route that a spec asks for: destination, then ingress, then egress chain, each reference
      in its place. */
  ghost predicate RouteStored(s: State, t: State, r: RouteSpec, n: string, auto: bool) {
    exists b: RouteBody, d: State, i: State, e: State ::
      && UsesStored(s, d, [r.destination], [b.destination], n + "-Cluster-")
      && UsesStored(d, i, r.ingress, b.ingress, n + "-ingress-Cluster-")
      && UsesStored(i, e, r.egress, b.egress, n + "-egress-Cluster-")
      && t == e.(routes := s.routes + [Entry(n, auto, b)])
  }

  /** Adding a route stores every reference at its place, under its name. */
  lemma AddRouteStores(s: State, r: RouteSpec, auto: bool)
    requires AddRoute(s, r, auto).Done?
    ensures r.name.Some? && RouteStored(s, AddRoute(s, r, auto).reg, r, r.name.value, auto)
  {
    var n := r.name.value;
    var d := AddUses(s, n + "-Cluster-", [r.destination]);
    AddUsesStores(s, n + "-Cluster-", [r.destination]);
    var i := AddUses(d.0.reg, n + "-ingress-Cluster-", r.ingress);
    AddUsesStores(d.0.reg, n + "-ingress-Cluster-", r.ingress);
    var e := AddUses(i.0.reg, n + "-egress-Cluster-", r.egress);
    AddUsesStores(i.0.reg, n + "-egress-Cluster-", r.egress);
    var b := RouteBody(d.1[0], i.1, e.1);
    assert d.1 == [b.destination];
    assert AddRoute(s, r, auto).reg == e.0.reg.(routes := s.routes + [Entry(n, auto, b)]);
  }

  /** Every place of the chain holds the name given for it, or that of the inline cluster. */
  predicate InPlace(us: seq<Use<ClusterSpec>>, ns: seq<string>, clusters: seq<Entry<ClusterBody>>) {
    |ns| == |us| && forall i :: 0 <= i < |us| ==>
      match us[i]
      case Other => false
      case Named(n) => ns[i] == n
      case Inline(c) =>
        && (Given(c.name) ==> ns[i] == c.name.value)
        && exists k :: 0 <= k < |clusters| && ClusterOf(clusters[k], ns[i], c, true)
  }

  lemma StoredInPlace(added: seq<Entry<ClusterBody>>, us: seq<Use<ClusterSpec>>, ns: seq<string>, prefix: string,
                      d: nat)
    requires Stored(added, us, ns, prefix, d)
    ensures InPlace(us, ns, added)
  {
    forall i: nat | i < |us| {
      StoredAt(added, us, ns, prefix, d, i);
    }
  }

  lemma StillInPlace(us: seq<Use<ClusterSpec>>, ns: seq<string>, a: seq<Entry<ClusterBody>>,
                     b: seq<Entry<ClusterBody>>, c: seq<Entry<ClusterBody>>)
    requires InPlace(us, ns, b)
    ensures InPlace(us, ns, a + b + c)
  {
    forall i | 0 <= i < |us| && us[i].Inline?
      ensures exists k :: 0 <= k < |a + b + c| && ClusterOf((a + b + c)[k], ns[i], us[i].spec, true)
    {
      var k :| 0 <= k < |b| && ClusterOf(b[k], ns[i], us[i].spec, true);
      assert (a + b + c)[|a| + k] == b[k];
    }
  }

  lemma UsesInPlace(s: State, t: State, v: State, us: seq<Use<ClusterSpec>>, ns: seq<string>, prefix: string)
    requires UsesStored(s, t, us, ns, prefix) && t.clusters <= v.clusters
    ensures InPlace(us, ns, v.clusters)
  {
    var added := t.clusters[|s.clusters|..];
    StoredInPlace(added, us, ns, prefix, s.ids.cluster);
    StillInPlace(us, ns, s.clusters, added, v.clusters[|t.clusters|..]);
    assert v.clusters == s.clusters + added + v.clusters[|t.clusters|..];
  }

  /** The positions of a new route: one route at the end, and at each place of its destination,
      ingress and egress chain the name that the spec has there. */
  lemma AddRoutePositions(s: State, r: RouteSpec, auto: bool)
    requires AddRoute(s, r, auto).Done?
    ensures var t := AddRoute(s, r, auto).reg;
      && |t.routes| == |s.routes| + 1 && t.routes[..|s.routes|] == s.routes
      && t.routes[|s.routes|].name == r.name.value && t.routes[|s.routes|].auto == auto
      && var b := t.routes[|s.routes|].body;
         && InPlace([r.destination], [b.destination], t.clusters)
         && InPlace(r.ingress, b.ingress, t.clusters)
         && InPlace(r.egress, b.egress, t.clusters)
  {
    AddRouteStores(s, r, auto);
    var n, t := r.name.value, AddRoute(s, r, auto).reg;
    var b: RouteBody, d: State, i: State, e: State :|
      && UsesStored(s, d, [r.destination], [b.destination], n + "-Cluster-")
      && UsesStored(d, i, r.ingress, b.ingress, n + "-ingress-Cluster-")
      && UsesStored(i, e, r.egress, b.egress, n + "-egress-Cluster-")
      && t == e.(routes := s.routes + [Entry(n, auto, b)]);
    UsesInPlace(s, d, e, [r.destination], [b.destination], n + "-Cluster-");
    UsesInPlace(d, i, e, r.ingress, b.ingress, n + "-ingress-Cluster-");
    UsesInPlace(i, e, e, r.egress, b.egress, n + "-egress-Cluster-");
  }

  lemma {:induction false} NamedUsesAdd(s: State, prefix: string, us: seq<Use<ClusterSpec>>)
    requires forall i :: 0 <= i < |us| ==> us[i].Named?
    ensures var o := AddUses(s, prefix, us);
      o.0 == Done(s) && |o.1| == |us| && forall i :: 0 <= i < |us| ==> o.1[i] == us[i].name
    decreases |us|
  {
    if us != [] {
      NamedUsesAdd(s, prefix, us[1..]);
    }
  }

  /** A route all of whose clusters are given by name is added, whether or not they exist. */
  lemma NamedRouteSucceeds(s: State, r: RouteSpec, auto: bool)
    requires ValidName(r.name) && r.wellFormed && !Used(s.routes, r.name.value) && r.destination.Named?
    requires forall i :: 0 <= i < |r.ingress| ==> r.ingress[i].Named?
    requires forall i :: 0 <= i < |r.egress| ==> r.egress[i].Named?
    ensures AddRoute(s, r, auto).Done? && AddRoute(s, r, auto).reg.(routes := s.routes) == s
  {
    var n := r.name.value;
    FindIsFirst(s.routes, n);
    NamedUsesAdd(s, n + "-Cluster-", [r.destination]);
    NamedUsesAdd(s, n + "-ingress-Cluster-", r.ingress);
    NamedUsesAdd(s, n + "-egress-Cluster-", r.egress);
  }

  /** What a route is refused for before anything is added. */
  lemma AddRouteRefuses(s: State, r: RouteSpec, auto: bool)
    ensures !ValidName(r.name) || !r.wellFormed ==> AddRoute(s, r, auto) == Thrown(s, Invalid)
    ensures ValidName(r.name) && r.wellFormed && Used(s.routes, r.name.value) ==>
              AddRoute(s, r, auto) == Thrown(s, Duplicate)
    ensures ValidName(r.name) && r.wellFormed && !Used(s.routes, r.name.value) && r.destination.Other? ==>
              AddRoute(s, r, auto) == Thrown(s, Invalid)
  {
    if ValidName(r.name) {
      FindIsFirst(s.routes, r.name.value);
    }
  }

  /** When all 21 candidates for a name are used, nothing is added, but the counter advances. */
  lemma NoFreeClusterName(s: State, prefix: string, c: ClusterSpec)
    requires PickName(c.name, s.clusters, prefix + Decimal(s.ids.cluster)).None?
    ensures AddInlineCluster(s, prefix, c).0 == Thrown(s.(ids := s.ids.(cluster := s.ids.cluster + 1)), NoFreshName)
  {
  }

  lemma NoFreeRouteName(s: State, prefix: string, x: RouteSpec)
    requires PickName(x.name, s.routes, prefix + Decimal(s.ids.route)).None?
    ensures AddInlineRoute(s, prefix, x).0 == Thrown(s.(ids := s.ids.(route := s.ids.route + 1)), NoFreshName)
  {
  }

  lemma NoFreeRuleName(s: State, prefix: string, r: RuleSpec)
    requires PickName(r.name, s.rules, prefix + Decimal(s.ids.rule)).None?
    ensures AddInlineRule(s, prefix, r).0 == Thrown(s.(ids := s.ids.(rule := s.ids.rule + 1)), NoFreshName)
  {
  }

  // ---------------------------------------------------------------------------------- rules

  lemma InlineRoutePut(s: State, prefix: string, x: RouteSpec)
    requires AddInlineRoute(s, prefix, x).0.Done?
    ensures var o := AddInlineRoute(s, prefix, x);
      && o.0.reg.rules == s.rules && o.0.reg.rulelists == s.rulelists && o.0.reg.listeners == s.listeners
      && |o.0.reg.routes| == |s.routes| + 1 && o.0.reg.routes[..|s.routes|] == s.routes
      && o.0.reg.routes[|s.routes|].name == o.1 && o.0.reg.routes[|s.routes|].auto
      && (if Given(x.name) then o.1 == x.name.value else Derived(prefix + Decimal(s.ids.route), o.1))
      && o.0.reg.ids.route == s.ids.route + (if Given(x.name) then 0 else 1) && o.0.reg.ids.rule == s.ids.rule
  {
    var base := prefix + Decimal(s.ids.route);
    PicksName(x.name, s.routes, base);
    var n := PickName(x.name, s.routes, base);
    var s1 := CountRoute(s, x.name);
    AddRoutePositions(s1, x.(name := n), true);
    AddRouteStores(s1, x.(name := n), true);
  }

  /** Adding a rule puts it at the end; its action then names the route: as given, or the new
      autogenerated route of an inline spec. */
  lemma AddRulePuts(s: State, r: RuleSpec, auto: bool)
    requires AddRule(s, r, auto).Done?
    ensures var t := AddRule(s, r, auto).reg;
      && |t.rules| == |s.rules| + 1 && t.rules[..|s.rules|] == s.rules
      && t.rules[|s.rules|].name == r.name.value && t.rules[|s.rules|].auto == auto
      && t.rulelists == s.rulelists && t.listeners == s.listeners && t.ids.rule == s.ids.rule
      && match r.route
         case None => t.rules[|s.rules|].body == NoRoute && t == s.(rules := t.rules)
         case Some(Named(m)) => t.rules[|s.rules|].body == To(m) && t == s.(rules := t.rules)
         case Some(Inline(x)) =>
           && |t.routes| == |s.routes| + 1 && t.routes[..|s.routes|] == s.routes && t.routes[|s.routes|].auto
           && t.rules[|s.rules|].body == To(t.routes[|s.routes|].name)
           && t.ids.route == s.ids.route + (if Given(x.name) then 0 else 1)
           && (if Given(x.name) then t.routes[|s.routes|].name == x.name.value
               else Derived(r.name.value + "-Route-" + Decimal(s.ids.route), t.routes[|s.routes|].name))
         case Some(Other) => false
  {
    var n := r.name.value;
    var p := PushRule(s, n, r, auto);
    if r.route.Some? && r.route.value.Inline? {
      InlineRoutePut(p, n + "-Route-", r.route.value.spec);
      var o := AddInlineRoute(p, n + "-Route-", r.route.value.spec);
      var t := SetRoute(o.0.reg, |s.rules|, o.1);
      assert t.rules[..|s.rules|] == s.rules;
    }
  }

  /** A rule without an inline route is added, and one with succeeds exactly when its route does. */
  lemma AddRuleSucceeds(s: State, r: RuleSpec, auto: bool)
    requires ValidName(r.name) && r.hasAction && !Used(s.rules, r.name.value)
    ensures AddRule(s, r, auto).Done? <==>
            r.route.None? || r.route.value.Named? ||
            (r.route.value.Inline? &&
             AddInlineRoute(s.(rules := s.rules + [Entry(r.name.value, auto, Pending)]), r.name.value + "-Route-",
                            r.route.value.spec).0.Done?)
  {
    FindIsFirst(s.rules, r.name.value);
  }

  /** What a rule is refused for; and what a rule whose route cannot be had leaves behind. */
  lemma AddRuleRefuses(s: State, r: RuleSpec, auto: bool)
    ensures !ValidName(r.name) || !r.hasAction ==> AddRule(s, r, auto) == Thrown(s, Invalid)
    ensures ValidName(r.name) && r.hasAction && Used(s.rules, r.name.value) ==>
              AddRule(s, r, auto) == Thrown(s, Duplicate)
    ensures ValidName(r.name) && r.hasAction && !Used(s.rules, r.name.value) && AddRule(s, r, auto).Thrown? ==>
              && r.route.Some? && !r.route.value.Named?
              && AddRule(s, r, auto).reg.rules == s.rules + [Entry(r.name.value, auto, Pending)]
  {
    if ValidName(r.name) {
      FindIsFirst(s.rules, r.name.value);
    }
  }
}
