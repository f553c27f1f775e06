/** Deleting recursively what was added restores the six registries exactly, under a condition
    on names that is necessary too. */
module RegistryRoundTrip {
  import opened Registry
  import opened RegistryLists
  import opened RegistryDeletes
  import opened RegistryClosure
  import opened RegistryAdds
  import opened RegistryGrowth

  // ------------------------------------------------------------------------ general restoring

  lemma KeepDrops<B>(a: seq<Entry<B>>, es: seq<Entry<B>>, d: set<string>)
    requires a <= es && forall i :: |a| <= i < |es| ==> es[i].name in d
    ensures Keep(es, d) == a <==> Names(a) !! d
  {
    if Names(a) !! d {
      KeepPrefix(a, es, d);
    } else {
      KeepNames(es, d);
    }
  }

  lemma KeepOwners(s: State, t: State, d: set<string>)
    requires WF(s) && WF(t) && s.clusters <= t.clusters && s.endpoints <= t.endpoints
    requires forall i :: |s.clusters| <= i < |t.clusters| ==> t.clusters[i].name in d
    requires forall i :: |s.endpoints| <= i < |t.endpoints| ==> t.endpoints[i].body.cluster !in Names(s.clusters)
    requires Names(s.clusters) !! d
    ensures KeepOf(t.endpoints, d) == s.endpoints
  {
    NamesOfPrefix(s.clusters, t.clusters);
    forall i | |s.endpoints| <= i < |t.endpoints|
      ensures t.endpoints[i].body.cluster in d
    {
      assert t.endpoints[i] in t.endpoints;
    }
    KeepOfPrefix(s.endpoints, t.endpoints, d);
  }

  /** If everything new is dropped, the rest is restored iff nothing old is dropped. */
  lemma RestoredIff(s: State, t: State, d: Drops)
    requires WF(s) && WF(t) && Prefixes(s, t)
    requires forall i :: |s.rules| <= i < |t.rules| ==> t.rules[i].name in d.rules
    requires forall i :: |s.routes| <= i < |t.routes| ==> t.routes[i].name in d.routes
    requires forall i :: |s.clusters| <= i < |t.clusters| ==> t.clusters[i].name in d.clusters
    requires forall i :: |s.endpoints| <= i < |t.endpoints| ==> t.endpoints[i].body.cluster !in Names(s.clusters)
    ensures var u := Prune(t, d);
      (u.rules == s.rules && u.routes == s.routes && u.clusters == s.clusters && u.endpoints == s.endpoints) <==>
      (Names(s.rules) !! d.rules && Names(s.routes) !! d.routes && Names(s.clusters) !! d.clusters)
  {
    KeepDrops(s.rules, t.rules, d.rules);
    KeepDrops(s.routes, t.routes, d.routes);
    KeepDrops(s.clusters, t.clusters, d.clusters);
    if Names(s.clusters) !! d.clusters {
      KeepOwners(s, t, d.clusters);
    }
  }

  /** A name that existed before is autogenerated now iff it was. */
  lemma AutoBefore<B>(a: seq<Entry<B>>, es: seq<Entry<B>>, n: string)
    requires a <= es && Unique(es) && n in Names(a)
    ensures n in AutoNames(es) <==> n in AutoNames(a)
  {
    var i :| 0 <= i < |a| && a[i].name == n;
    if n in AutoNames(a) {
      var e :| e in a && e.auto && e.name == n;
      assert e in es by { var k :| 0 <= k < |a| && a[k] == e; assert es[k] == e; }
    }
    if n in AutoNames(es) {
      var k :| 0 <= k < |es| && es[k].auto && es[k].name == n;
      assert es[i] == a[i];
      assert k == i;
      assert a[i] in a;
    }
  }

  lemma AutoNewest<B>(es: seq<Entry<B>>, i: nat)
    requires i < |es| && es[i].auto
    ensures es[i].name in AutoNames(es)
  {
    assert es[i] in es;
  }

  // ----------------------------------------------------------------------- clusters and routes

  /** Adding a cluster and deleting it again restores the registries. */
  lemma ClusterRoundTrip(s: State, c: ClusterSpec, auto: bool)
    requires WF(s) && AddCluster(s, c, auto).Done?
    ensures var o := DeleteCluster(AddCluster(s, c, auto).reg, c.name.value); o.Done? && Same(s, o.reg)
  {
    AddClusterKeeps(s, c, auto);
    var t := AddCluster(s, c, auto).reg;
    DeleteClusterPrunes(t, c.name.value);
    FindAt(t.clusters, |s.clusters|);
  }

  lemma RouteRestored(s: State, t: State, n: string, auto: bool, named: set<string>)
    requires WF(s) && WF(t) && RouteGrowth(s, t, n, auto, named)
    ensures Find(t.routes, n) == |s.routes|
    ensures Same(s, Prune(t, RouteClosure(t, n))) <==> named !! AutoNames(s.clusters)
  {
    var refs := SetOf(Refs(t.routes[|s.routes|].body));
    var d := RouteClosure(t, n);
    FindAt(t.routes, |s.routes|);
    LastTargets(t, |s.routes|);
    RouteDrops(s, t, refs, named, d.clusters);
    RestoredIff(s, t, d);
  }

  /** Adding a route and deleting it recursively restores the registries exactly when no
      cluster it refers to by name was autogenerated. */
  lemma RouteRoundTrip(s: State, r: RouteSpec, auto: bool)
    requires WF(s) && AddRoute(s, r, auto).Done?
    ensures var o := DeleteRoute(AddRoute(s, r, auto).reg, r.name.value, true);
      o.Done? && (Same(s, o.reg) <==> NamedClusters(r) !! AutoNames(s.clusters))
  {
    var t := AddRoute(s, r, auto).reg;
    AddRouteKeeps(s, r, auto);
    RouteRestored(s, t, r.name.value, auto, NamedClusters(r));
    DeleteRoutePrunes(t, r.name.value);
  }

  /** Of the clusters a new route mentions, those dropped with it are the new ones and the old
      ones it names that are autogenerated. */
  lemma RouteDrops(s: State, t: State, refs: set<string>, named: set<string>, drop: set<string>)
    requires Unique(t.clusters) && s.clusters <= t.clusters && Accounted(s, t, refs, named)
    requires drop == refs * AutoNames(t.clusters)
    ensures forall i :: |s.clusters| <= i < |t.clusters| ==> t.clusters[i].name in drop
    ensures Names(s.clusters) !! drop <==> named !! AutoNames(s.clusters)
  {
    forall i | |s.clusters| <= i < |t.clusters|
      ensures t.clusters[i].name in drop
    {
      AutoNewest(t.clusters, i);
    }
    AutoInNames(s.clusters);
    forall c | c in Names(s.clusters)
      ensures c in drop <==> c in named && c in AutoNames(s.clusters)
    {
      AutoBefore(s.clusters, t.clusters, c);
    }
  }

  lemma AutoInNames<B>(es: seq<Entry<B>>)
    ensures AutoNames(es) <= Names(es)
  {
  }

  lemma LastTargets(t: State, k: nat)
    requires Unique(t.routes) && k < |t.routes|
    ensures ClusterTargets(t.routes, {t.routes[k].name}) == SetOf(Refs(t.routes[k].body))
  {
    assert t.routes[k] in t.routes;
    forall r | r in t.routes && r.name == t.routes[k].name
      ensures r == t.routes[k]
    {
      var i :| 0 <= i < |t.routes| && t.routes[i] == r;
      FindAt(t.routes, i);
      FindAt(t.routes, k);
    }
  }
}
