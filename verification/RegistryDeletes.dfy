/** What deletes do to a well-formed registry: the endpoint registry is the union of the
    clusters' lists, and a recursive delete removes a closure. */
module RegistryDeletes {
  import opened Registry
  import opened RegistryLists
  import C = Clusters

  // -------------------------------------------------------------------------- the agreement

  predicate Lists(c: Entry<ClusterBody>, es: seq<Entry<EndpointBody>>) {
    c.body.cluster.endpoints == Select(es, c.name) && C.InSync(c.body.cluster)
  }

  /** Every endpoint belongs to a registered cluster, every cluster lists exactly its own
      endpoints in registry order, and every balancer agrees with its cluster's list. */
  ghost predicate Agree(cs: seq<Entry<ClusterBody>>, es: seq<Entry<EndpointBody>>) {
    (forall e :: e in es ==> e.body.cluster in Names(cs)) &&
    (forall i :: 0 <= i < |cs| ==> Lists(cs[i], es))
  }

  ghost predicate WF(s: State) {
    Unique(s.listeners) && Unique(s.rulelists) && Unique(s.rules) && Unique(s.routes) &&
    Unique(s.clusters) && Unique(s.endpoints) && Agree(s.clusters, s.endpoints)
  }

  lemma SetClusterNames(s: State, j: nat, c: C.Cluster)
    requires j < |s.clusters|
    ensures Names(SetCluster(s, j, c).clusters) == Names(s.clusters)
    ensures Unique(s.clusters) ==> Unique(SetCluster(s, j, c).clusters)
  {
    var t := SetCluster(s, j, c).clusters;
    forall n
      ensures n in Names(t) <==> n in Names(s.clusters)
    {
      if n in Names(t) {
        var i :| 0 <= i < |t| && t[i].name == n;
        assert s.clusters[i] in s.clusters && s.clusters[i].name == n;
      }
      if n in Names(s.clusters) {
        var i :| 0 <= i < |t| && s.clusters[i].name == n;
        assert t[i] in t && t[i].name == n;
      }
    }
  }

  // ------------------------------------------------------------------------------- pruning

  datatype Drops = Drops(rules: set<string>, routes: set<string>, clusters: set<string>)

  function Prune(s: State, d: Drops): State {
    s.(rules := Keep(s.rules, d.rules),
       routes := Keep(s.routes, d.routes),
       clusters := Keep(s.clusters, d.clusters),
       endpoints := KeepOf(s.endpoints, d.clusters))
  }

  function Both(d: Drops, f: Drops): Drops {
    Drops(d.rules + f.rules, d.routes + f.routes, d.clusters + f.clusters)
  }

  lemma PruneTwice(s: State, d: Drops, f: Drops)
    ensures Prune(Prune(s, d), f) == Prune(s, Both(d, f))
  {
    KeepKeep(s.rules, d.rules, f.rules);
    KeepKeep(s.routes, d.routes, f.routes);
    KeepKeep(s.clusters, d.clusters, f.clusters);
    KeepOfTwice(s.endpoints, d.clusters, f.clusters);
  }

  lemma PruneNothing(s: State)
    ensures Prune(s, Drops({}, {}, {})) == s
  {
    KeepSame(s.rules, {});
    KeepSame(s.routes, {});
    KeepSame(s.clusters, {});
    KeepOfAll(s.endpoints, {});
  }

  lemma PruneAgrees(s: State, d: set<string>)
    requires Agree(s.clusters, s.endpoints)
    ensures Agree(Keep(s.clusters, d), KeepOf(s.endpoints, d))
  {
    var cs, es := Keep(s.clusters, d), KeepOf(s.endpoints, d);
    KeepNames(s.clusters, d);
    KeepOfIn(s.endpoints, d);
    forall i | 0 <= i < |cs|
      ensures Lists(cs[i], es)
    {
      var c := cs[i];
      assert c in cs;
      KeepIn(s.clusters, d);
      SelectKeepOf(s.endpoints, d, c.name);
      assert c in s.clusters;
    }
  }

  lemma PruneKeeps(s: State, d: Drops)
    requires WF(s)
    ensures WF(Prune(s, d))
  {
    KeepUnique(s.rules, d.rules);
    KeepUnique(s.routes, d.routes);
    KeepUnique(s.clusters, d.clusters);
    KeepOfUnique(s.endpoints, d.clusters);
    PruneAgrees(s, d.clusters);
  }

  // -------------------------------------------------------------- deleting endpoints, clusters

  lemma DeleteFromMiddle(c: C.Cluster, p: seq<C.Endpoint>, x: C.Endpoint, q: seq<C.Endpoint>)
    requires c.endpoints == p + [x] + q
    requires forall k :: 0 <= k < |p| ==> p[k].name != x.name
    ensures C.DeleteFrom(c, x.name).endpoints == p + q
  {
    assert c.endpoints[|p|] == x;
    assert forall k :: 0 <= k < |p| ==> c.endpoints[k] == p[k];
    assert C.FindEndpoint(c.endpoints, x.name) == |p|;
  }

  /** Taking an endpoint out of the registry and out of its cluster's list is the same edit. */
  lemma SelectSplice(es: seq<Entry<EndpointBody>>, i: nat, c: C.Cluster, n: string)
    requires Unique(es) && i < |es| && n == es[i].body.cluster
    requires c.endpoints == Select(es, n)
    ensures C.DeleteFrom(c, es[i].name).endpoints == Select(Splice(es, i), n)
  {
    var a, e, b := es[..i], es[i], es[i + 1..];
    var x := C.Endpoint(e.name, e.body.address);
    var p, q := Select(a, n), Select(b, n);
    assert c.endpoints == p + [x] + q by {
      assert es == a + [e] + b;
      SelectSum(a + [e], b, n);
      SelectSum(a, [e], n);
      assert Select([e], n) == [x];
    }
    forall k | 0 <= k < |p|
      ensures p[k].name != e.name
    {
      SelectIn(a, n);
      assert p[k] in p;
    }
    DeleteFromMiddle(c, p, x, q);
    SelectSum(a, b, n);
  }

  lemma DeleteFirst(c: C.Cluster)
    requires c.endpoints != []
    ensures EndpointNames(C.DeleteFrom(c, EndpointNames(c)[0])) == EndpointNames(c)[1..]
  {
    DeleteFromMiddle(c, [], c.endpoints[0], c.endpoints[1..]);
  }

  lemma SelectSpliceOther(es: seq<Entry<EndpointBody>>, i: nat, n: string)
    requires i < |es| && n != es[i].body.cluster
    ensures Select(Splice(es, i), n) == Select(es, n)
  {
    var a, e, b := es[..i], es[i], es[i + 1..];
    assert es == a + [e] + b;
    SelectSum(a + [e], b, n);
    SelectSum(a, [e], n);
    SelectSum(a, b, n);
    assert Select([e], n) == [];
  }

  lemma DeleteEndPointKeeps(s: State, n: string)
    requires WF(s)
    ensures var o := DeleteEndPoint(s, n);
      && (o.Done? <==> Has(s.endpoints, n)) && (o.Thrown? ==> o == Thrown(s, Unknown))
      && WF(o.reg)
  {
    var i := Find(s.endpoints, n);
    if i >= 0 {
      var es := s.endpoints;
      assert es[i] in es;
      FindIs(s.clusters, es[i].body.cluster);
      var j := Find(s.clusters, es[i].body.cluster);
      var c := C.DeleteFrom(s.clusters[j].body.cluster, n);
      var t := DeleteEndPoint(s, n).reg;
      SetClusterNames(s, j, c);
      C.EditsKeepSync(s.clusters[j].body.cluster, C.Endpoint("", ""), n);
      SelectSplice(es, i, s.clusters[j].body.cluster, s.clusters[j].name);
      forall k | 0 <= k < |t.clusters|
        ensures Lists(t.clusters[k], t.endpoints)
      {
        assert Lists(s.clusters[k], es);
        if k != j {
          SelectSpliceOther(es, i, s.clusters[k].name);
        }
      }
      SpliceKeeps(es, i);
      KeepUnique(es, {n});
      KeepIn(es, {n});
    }
  }

  /** Only cluster j may differ, and not in its name. */
  predicate OthersSame(s: State, t: State, j: nat) {
    |t.clusters| == |s.clusters| && j < |s.clusters| && t.clusters[j].name == s.clusters[j].name &&
    t.clusters[..j] == s.clusters[..j] && t.clusters[j + 1..] == s.clusters[j + 1..] && t.ids == s.ids
  }

  lemma FirstListed(s: State, j: nat) returns (i: nat)
    requires WF(s) && j < |s.clusters| && s.clusters[j].body.cluster.endpoints != []
    ensures i < |s.endpoints| && s.endpoints[i].body.cluster == s.clusters[j].name
    ensures EndpointNames(s.clusters[j].body.cluster)[0] == s.endpoints[i].name
    ensures Find(s.endpoints, s.endpoints[i].name) == i && Find(s.clusters, s.clusters[j].name) == j
  {
    var c := s.clusters[j];
    assert Lists(c, s.endpoints);
    SelectIn(s.endpoints, c.name);
    var x := c.body.cluster.endpoints[0];
    assert x in Select(s.endpoints, c.name);
    var e :| e in s.endpoints && e.name == x.name && e.body.cluster == c.name;
    i :| 0 <= i < |s.endpoints| && s.endpoints[i] == e;
    FindAt(s.endpoints, i);
    FindAt(s.clusters, j);
  }

  lemma EmptyStep(s: State, j: nat)
    requires WF(s) && j < |s.clusters| && s.clusters[j].body.cluster.endpoints != []
    ensures var ns := EndpointNames(s.clusters[j].body.cluster);
      var o := DeleteEndPoint(s, ns[0]);
      && o.Done? && WF(o.reg) && OthersSame(s, o.reg, j)
      && EndpointNames(o.reg.clusters[j].body.cluster) == ns[1..]
      && KeepOf(o.reg.endpoints, {s.clusters[j].name}) == KeepOf(s.endpoints, {s.clusters[j].name})
  {
    var i := FirstListed(s, j);
    DeleteEndPointKeeps(s, s.endpoints[i].name);
    DeleteFirst(s.clusters[j].body.cluster);
    KeepOfSplice(s.endpoints, i, {s.clusters[j].name});
  }

  /** The loop of `deleteCluster` empties the cluster, removes its endpoints from the
      registry, and touches no other cluster. */
  lemma {:induction false} EmptyCluster(s: State, j: nat, ns: seq<string>)
    requires WF(s) && j < |s.clusters| && ns == EndpointNames(s.clusters[j].body.cluster)
    ensures var o := DeleteEndPoints(s, ns);
      && o.Done? && WF(o.reg) && OthersSame(s, o.reg, j)
      && o.reg.endpoints == KeepOf(s.endpoints, {s.clusters[j].name})
    decreases |ns|
  {
    if ns == [] {
      assert Lists(s.clusters[j], s.endpoints);
      SelectIn(s.endpoints, s.clusters[j].name);
      KeepOfAll(s.endpoints, {s.clusters[j].name});
    } else {
      EmptyStep(s, j);
      EmptyCluster(DeleteEndPoint(s, ns[0]).reg, j, ns[1..]);
    }
  }

  lemma KeepOfSplice(es: seq<Entry<EndpointBody>>, i: nat, d: set<string>)
    requires i < |es| && es[i].body.cluster in d
    ensures KeepOf(Splice(es, i), d) == KeepOf(es, d)
  {
    var a, e, b := es[..i], es[i], es[i + 1..];
    assert es == a + [e] + b;
    KeepOfSum(a + [e], b, d);
    KeepOfSum(a, [e], d);
    KeepOfSum(a, b, d);
    assert KeepOf([e], d) == [];
  }

  /** Deleting a cluster removes it with all of its endpoints, and nothing else. */
  lemma DeleteClusterPrunes(s: State, n: string)
    requires WF(s)
    ensures DeleteCluster(s, n) ==
            if Has(s.clusters, n) then Done(Prune(s, Drops({}, {}, {n}))) else Thrown(s, Unknown)
  {
    var j := Find(s.clusters, n);
    if j >= 0 {
      var ns := EndpointNames(s.clusters[j].body.cluster);
      EmptyCluster(s, j, ns);
      var t := DeleteEndPoints(s, ns).reg;
      SpliceKeeps(s.clusters, j);
      assert Splice(t.clusters, j) == Splice(s.clusters, j);
      KeepSame(s.rules, {});
      KeepSame(s.routes, {});
    }
  }
}
