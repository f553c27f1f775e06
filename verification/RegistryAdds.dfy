/** What nested adds do to a well-formed registry: it stays well-formed whatever the outcome,
    and a successful add only appends, each new object reachable from the one added. */
module RegistryAdds {
  import opened Basics
  import opened Registry
  import opened RegistryLists
  import opened RegistryDeletes
  import C = Clusters

  /** The same six registries; the counters behind generated names may differ. */
  predicate Same(s: State, t: State) { t.(ids := s.ids) == s }

  // -------------------------------------------------------------------- endpoints, clusters

  predicate EndpointGrowth(s: State, t: State, j: nat) {
    j < |s.clusters| == |t.clusters| && SameAbove(s, t) &&
    t.clusters[..j] == s.clusters[..j] && t.clusters[j + 1..] == s.clusters[j + 1..] &&
    t.clusters[j].name == s.clusters[j].name && t.clusters[j].auto == s.clusters[j].auto &&
    s.endpoints <= t.endpoints &&
    forall i :: |s.endpoints| <= i < |t.endpoints| ==> t.endpoints[i].body.cluster == s.clusters[j].name
  }

  lemma SelectPush(es: seq<Entry<EndpointBody>>, e: Entry<EndpointBody>, n: string)
    ensures Select(es + [e], n) ==
            Select(es, n) + if e.body.cluster == n then [C.Endpoint(e.name, e.body.address)] else []
  {
    assert (es + [e])[..|es + [e]| - 1] == es;
  }

  lemma PutEndPointLists(s: State, j: nat, n: string, address: string, i: nat)
    requires j < |s.clusters| && i < |s.clusters| && Unique(s.clusters) && Lists(s.clusters[i], s.endpoints)
    ensures var t := PutEndPoint(s, j, n, address); Lists(t.clusters[i], t.endpoints)
  {
    var t := PutEndPoint(s, j, n, address);
    var c := s.clusters[i].body.cluster;
    SelectPush(s.endpoints, t.endpoints[|s.endpoints|], s.clusters[i].name);
    C.EditsKeepSync(c, C.Endpoint(n, address), n);
    assert i != j ==> s.clusters[i].name != s.clusters[j].name;
  }

  lemma PutEndPointKeeps(s: State, j: nat, n: string, address: string)
    requires WF(s) && j < |s.clusters| && !Has(s.endpoints, n)
    ensures WF(PutEndPoint(s, j, n, address))
    ensures EndpointGrowth(s, PutEndPoint(s, j, n, address), j)
  {
    var t := PutEndPoint(s, j, n, address);
    var e := t.endpoints[|s.endpoints|];
    SetClusterNames(s, j, C.AddTo(s.clusters[j].body.cluster, C.Endpoint(n, address)));
    PushUnique(s.endpoints, e);
    forall i | 0 <= i < |t.clusters|
      ensures Lists(t.clusters[i], t.endpoints)
    {
      PutEndPointLists(s, j, n, address, i);
    }
    assert s.clusters[j] in s.clusters;
    assert e.body.cluster in Names(s.clusters);
  }

  /** The exception: a name that an endpoint makes up for itself is not checked. */
  ghost predicate NameTaken(s: State, cluster: string, ep: EndpointSpec) {
    ep.name.None? && AddEndPoint(s, cluster, ep).Done? && Has(s.endpoints, OwnName(s, cluster))
  }

  /** Adding an endpoint keeps the registry well-formed exactly when a self-made name is free. */
  lemma AddEndPointKeeps(s: State, cluster: string, ep: EndpointSpec)
    requires WF(s)
    ensures WF(AddEndPoint(s, cluster, ep).reg) <==> !NameTaken(s, cluster, ep)
    ensures !NameTaken(s, cluster, ep) && Has(s.clusters, cluster) ==>
              EndpointGrowth(s, AddEndPoint(s, cluster, ep).reg, Find(s.clusters, cluster))
  {
    var o := AddEndPoint(s, cluster, ep);
    var j := Find(s.clusters, cluster);
    if o.Done? {
      if ep.name.Some? {
        PutEndPointKeeps(s, j, ep.name.value, ep.address);
      } else {
        var s1 := s.(ids := s.ids.(endpoint := s.ids.endpoint + 1));
        var n := OwnName(s, cluster);
        if Has(s.endpoints, n) {
          assert o.reg.endpoints[|s.endpoints|].name == o.reg.endpoints[Find(s.endpoints, n)].name;
        } else {
          PutEndPointKeeps(s1, j, n, ep.address);
        }
      }
    }
  }

  lemma EndpointGrowthChains(s: State, t: State, u: State, j: nat)
    requires EndpointGrowth(s, t, j) && EndpointGrowth(t, u, j)
    ensures EndpointGrowth(s, u, j)
  {
    forall i | |s.endpoints| <= i < |u.endpoints|
      ensures u.endpoints[i].body.cluster == s.clusters[j].name
    {
      if i < |t.endpoints| {
        assert u.endpoints[i] == t.endpoints[i];
      }
    }
  }

  lemma FoundAgain(s: State, t: State, j: nat)
    requires Unique(s.clusters) && Unique(t.clusters) && EndpointGrowth(s, t, j)
    ensures Find(t.clusters, s.clusters[j].name) == j
  {
    FindAt(t.clusters, j);
  }

  lemma AddOwnEndPointKeeps(s: State, j: nat, e: EndpointSpec)
    requires WF(s) && j < |s.clusters|
    ensures var o := AddOwnEndPoint(s, s.clusters[j].name, e); WF(o.reg) && EndpointGrowth(s, o.reg, j)
  {
    var cluster := s.clusters[j].name;
    var n := PickName(e.name, s.endpoints, cluster + "-EndPoint-" + Decimal(s.ids.endpoint));
    var s1 := CountEndPoint(s, e.name);
    if n.Some? {
      AddEndPointKeeps(s1, cluster, e.(name := n));
      FindAt(s1.clusters, j);
    }
  }

  lemma {:induction false} AddEndPointsKeeps(s: State, j: nat, eps: seq<EndpointSpec>)
    requires WF(s) && j < |s.clusters|
    ensures var o := AddEndPoints(s, s.clusters[j].name, eps); WF(o.reg) && EndpointGrowth(s, o.reg, j)
    decreases |eps|
  {
    var cluster := s.clusters[j].name;
    if eps != [] {
      AddOwnEndPointKeeps(s, j, eps[0]);
      var o := AddOwnEndPoint(s, cluster, eps[0]);
      if o.Done? {
        AddEndPointsKeeps(o.reg, j, eps[1..]);
        EndpointGrowthChains(s, o.reg, AddEndPoints(o.reg, cluster, eps[1..]).reg, j);
      }
    }
  }

  /** Clusters and their endpoints were appended; existing ones did not change. */
  ghost predicate ClusterGrowth(s: State, t: State) {
    SameAbove(s, t) && s.clusters <= t.clusters && s.endpoints <= t.endpoints &&
    forall i :: |s.endpoints| <= i < |t.endpoints| ==> t.endpoints[i].body.cluster !in Names(s.clusters)
  }

  lemma PushClusterKeeps(s: State, n: string, c: ClusterSpec, auto: bool)
    requires WF(s) && !Has(s.clusters, n)
    ensures var t := PushCluster(s, n, c, auto);
      WF(t) && t.clusters[|s.clusters|].name == n && Names(t.clusters) == Names(s.clusters) + {n}
  {
    var t := PushCluster(s, n, c, auto);
    var x := t.clusters[|s.clusters|];
    PushUnique(s.clusters, x);
    FindIs(s.clusters, n);
    SelectIn(s.endpoints, n);
    assert Lists(x, s.endpoints);
  }

  /** A cluster entry was appended, nothing above changed. */
  predicate OneCluster(s: State, t: State, n: string, auto: bool) {
    |t.clusters| == |s.clusters| + 1 && s.clusters <= t.clusters &&
    t.clusters[|s.clusters|].name == n && t.clusters[|s.clusters|].auto == auto
  }

  lemma NewClusterGrows(s: State, p: State, t: State, n: string, auto: bool)
    requires n !in Names(s.clusters) && SameAbove(s, p) && p.endpoints == s.endpoints
    requires OneCluster(s, p, n, auto) && EndpointGrowth(p, t, |s.clusters|)
    ensures ClusterGrowth(s, t) && OneCluster(s, t, n, auto)
  {
    assert t.clusters == s.clusters + [t.clusters[|s.clusters|]];
  }

  /** Dropping the one new cluster restores what was there. */
  lemma DropNewCluster(s: State, t: State, n: string, auto: bool)
    requires Agree(s.clusters, s.endpoints) && n !in Names(s.clusters)
    requires SameAbove(s, t) && OneCluster(s, t, n, auto) && s.endpoints <= t.endpoints
    requires forall i :: |s.endpoints| <= i < |t.endpoints| ==> t.endpoints[i].body.cluster == n
    ensures Same(s, Prune(t, Drops({}, {}, {n})))
  {
    KeepPrefix(s.clusters, t.clusters, {n});
    KeepOfPrefix(s.endpoints, t.endpoints, {n});
    KeepSame(s.rules, {});
    KeepSame(s.routes, {});
  }

  /** Adding a cluster: the registry stays well-formed; on success exactly one cluster and its
      endpoints are appended; when the cluster does not start, everything is as before. */
  lemma AddClusterKeeps(s: State, c: ClusterSpec, auto: bool)
    requires WF(s)
    ensures var o := AddCluster(s, c, auto);
      && WF(o.reg)
      && (o.Done? ==> ClusterGrowth(s, o.reg) && OneCluster(s, o.reg, c.name.value, auto)
                      && c.name.value !in Names(s.clusters)
                      && Same(s, Prune(o.reg, Drops({}, {}, {c.name.value}))))
      && (o.Thrown? && o.error == StartFailed ==> Same(s, o.reg))
  {
    var o := AddCluster(s, c, auto);
    if ValidName(c.name) && c.hasSpec && !Has(s.clusters, c.name.value) && c.known {
      var n, k := c.name.value, |s.clusters|;
      var p := PushCluster(s, n, c, auto);
      PushClusterKeeps(s, n, c, auto);
      AddEndPointsKeeps(p, k, c.endpoints);
      var t := AddEndPoints(p, n, c.endpoints).reg;
      FindIs(s.clusters, n);
      NewClusterGrows(s, p, t, n, auto);
      DropNewCluster(s, t, n, auto);
      DeleteClusterPrunes(t, n);
      FoundAgain(p, t, k);
      PruneKeeps(t, Drops({}, {}, {n}));
      AddEndPointsError(p, n, c.endpoints);
    }
  }

  lemma {:induction false} AddEndPointsError(s: State, cluster: string, eps: seq<EndpointSpec>)
    ensures var o := AddEndPoints(s, cluster, eps); o.Thrown? ==> o.error == NoFreshName
    decreases |eps|
  {
    if eps != [] {
      var o := AddOwnEndPoint(s, cluster, eps[0]);
      if o.Done? {
        AddEndPointsError(o.reg, cluster, eps[1..]);
      }
    }
  }
}
