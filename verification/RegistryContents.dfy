/** What the adds register, entry by entry, and what they refuse: names, flags, endpoints and the
    positions of the references of a route. */
module RegistryContents {
  import opened Basics
  import opened Registry
  import C = Clusters

  // ---------------------------------------------------------------------------------- names

  predicate Used<B>(es: seq<Entry<B>>, n: string) { exists i :: 0 <= i < |es| && es[i].name == n }

  /** Place i is the first of the name. */
  predicate FirstOf<B>(es: seq<Entry<B>>, i: int, n: string) {
    0 <= i < |es| && es[i].name == n && forall j :: 0 <= j < i ==> es[j].name != n
  }

  lemma {:induction false} FindIsFirst<B>(es: seq<Entry<B>>, n: string)
    ensures Has(es, n) <==> Used(es, n)
    ensures Has(es, n) ==> FirstOf(es, Find(es, n), n)
  {
    if es != [] {
      FindIsFirst(es[1..], n);
      assert forall i :: 0 < i < |es| ==> es[i] == es[1..][i - 1];
      if Used(es, n) && es[0].name != n {
        var i :| 0 <= i < |es| && es[i].name == n;
        assert es[1..][i - 1].name == n;
      }
    }
  }

  /** A name is valid when it is given, not empty and without white space. */
  lemma ValidNames(n: Option<string>)
    ensures ValidName(n) <==>
            n.Some? && n.value != "" &&
            forall i :: 0 <= i < |n.value| ==>
              n.value[i] != ' ' && n.value[i] != '\t' && n.value[i] != '\n' && n.value[i] != '\r'
  {
  }

  /** A made-up name: the base, or the base with a suffix. */
  function Candidate(base: string, i: nat): string { if i == 0 then base else base + "_" + Decimal(i) }

  lemma NewNameStep<B>(es: seq<Entry<B>>, base: string, i: nat)
    ensures NewName(es, base, i) ==
            if i > 20 then None
            else if Used(es, Candidate(base, i)) then NewName(es, base, i + 1)
            else Some(Candidate(base, i))
  {
    FindIsFirst(es, Candidate(base, i));
  }

  /** n is the first free candidate from number i on. */
  ghost predicate FreeFrom<B>(es: seq<Entry<B>>, base: string, i: nat, n: string) {
    !Used(es, n) &&
    exists k :: i <= k <= 20 && n == Candidate(base, k) && forall j :: i <= j < k ==> Used(es, Candidate(base, j))
  }

  ghost predicate NoneFree<B>(es: seq<Entry<B>>, base: string, i: nat) {
    forall k :: i <= k <= 20 ==> Used(es, Candidate(base, k))
  }

  lemma UsedThenFree<B>(es: seq<Entry<B>>, base: string, i: nat, n: string)
    requires Used(es, Candidate(base, i)) && FreeFrom(es, base, i + 1, n)
    ensures FreeFrom(es, base, i, n)
  {
    var k :| i + 1 <= k <= 20 && n == Candidate(base, k)
      && forall j :: i + 1 <= j < k ==> Used(es, Candidate(base, j));
    assert forall j :: i <= j < k ==> Used(es, Candidate(base, j));
  }

  lemma UsedThenNone<B>(es: seq<Entry<B>>, base: string, i: nat)
    requires Used(es, Candidate(base, i)) && NoneFree(es, base, i + 1)
    ensures NoneFree(es, base, i)
  {
  }

  lemma FreeAtOnce<B>(es: seq<Entry<B>>, base: string, i: nat)
    requires i <= 20 && !Used(es, Candidate(base, i))
    ensures FreeFrom(es, base, i, Candidate(base, i))
  {
  }

  /** What `newName` gives from attempt i on. */
  ghost predicate NameFrom<B>(es: seq<Entry<B>>, base: string, i: nat, r: Option<string>) {
    if r.None? then NoneFree(es, base, i) else FreeFrom(es, base, i, r.value)
  }

  lemma UsedThen<B>(es: seq<Entry<B>>, base: string, i: nat, r: Option<string>)
    requires Used(es, Candidate(base, i)) && NameFrom(es, base, i + 1, r)
    ensures NameFrom(es, base, i, r)
  {
    if r.None? {
      UsedThenNone(es, base, i);
    } else {
      UsedThenFree(es, base, i, r.value);
    }
  }

  lemma {:induction false} NewNameFrom<B>(es: seq<Entry<B>>, base: string, i: nat) returns (r: Option<string>)
    requires i <= 21
    ensures r == NewName(es, base, i) && NameFrom(es, base, i, r)
    decreases 21 - i
  {
    NewNameStep(es, base, i);
    if i > 20 {
      r := None;
    } else if Used(es, Candidate(base, i)) {
      r := NewNameFrom(es, base, i + 1);
      UsedThen(es, base, i, r);
    } else {
      r := Some(Candidate(base, i));
      FreeAtOnce(es, base, i);
    }
  }

  /** n is the first free one of the 21 candidates. */
  ghost predicate MadeUp<B>(es: seq<Entry<B>>, base: string, n: string) { FreeFrom(es, base, 0, n) }

  /** A name that is given is taken, else the first free candidate; 21 are tried. */
  lemma PicksName<B>(given: Option<string>, es: seq<Entry<B>>, base: string)
    ensures given.Some? && given.value != "" ==> PickName(given, es, base) == given
    ensures given.None? || given.value == "" ==>
              match PickName(given, es, base)
              case None => NoneFree(es, base, 0)
              case Some(n) => MadeUp(es, base, n)
  {
    var r := NewNameFrom(es, base, 0);
  }

  // ------------------------------------------------------------------------------ endpoints

  /** An endpoint of name n and this address was added to cluster j: last in the cluster's list and
      in the registry; nothing else but the counters differs. */
  predicate EndPointPut(s: State, t: State, j: nat, n: string, address: string) {
    && j < |s.clusters| == |t.clusters|
    && (forall i :: 0 <= i < |s.clusters| && i != j ==> t.clusters[i] == s.clusters[i])
    && SameCluster(s.clusters[j], t.clusters[j])
    && t.clusters[j].body.cluster.endpoints == s.clusters[j].body.cluster.endpoints + [C.Endpoint(n, address)]
    && t.endpoints == s.endpoints + [Entry(n, false, EndpointBody(s.clusters[j].name, address))]
    && t == s.(clusters := t.clusters, endpoints := t.endpoints, ids := t.ids)
  }

  /** The same cluster, up to its endpoints. */
  predicate SameCluster(c: Entry<ClusterBody>, d: Entry<ClusterBody>) {
    && d.name == c.name && d.auto == c.auto && d.body.virtual == c.body.virtual
    && d.body.cluster.accepts == c.body.cluster.accepts
    && d.body.cluster.lb.policy == c.body.cluster.lb.policy
  }

  /** When `addEndPoint` throws what; then nothing changes. */
  lemma AddEndPointRefuses(s: State, cluster: string, ep: EndpointSpec)
    ensures var o := AddEndPoint(s, cluster, ep);
      var bad := (ep.name.Some? && !ValidName(ep.name)) || !ep.hasSpec;
      var taken := ep.name.Some? && Used(s.endpoints, ep.name.value);
      && (o.Thrown? ==> o.reg == s && o.error in {Invalid, Duplicate, Unknown, Unsupported})
      && (o == Thrown(s, Invalid) <==> bad)
      && (o == Thrown(s, Duplicate) <==> !bad && taken)
      && (o == Thrown(s, Unknown) <==> !bad && !taken && !Used(s.clusters, cluster))
      && (o == Thrown(s, Unsupported) <==>
            !bad && !taken && exists j :: FirstOf(s.clusters, j, cluster) && !s.clusters[j].body.cluster.accepts)
  {
    FindIsFirst(s.clusters, cluster);
    if ep.name.Some? {
      FindIsFirst(s.endpoints, ep.name.value);
    }
  }

  /** On success the endpoint has the given name, or one made up from the cluster's name and the
      counter, which then advances. */
  lemma AddEndPointPuts(s: State, cluster: string, ep: EndpointSpec)
    requires AddEndPoint(s, cluster, ep).Done?
    ensures var t := AddEndPoint(s, cluster, ep).reg;
      && (exists j: nat :: FirstOf(s.clusters, j, cluster) && s.clusters[j].body.cluster.accepts &&
            EndPointPut(s, t, j, if ep.name.Some? then ep.name.value
                                 else cluster + "-EndPoint-" + Decimal(s.ids.endpoint), ep.address))
      && t.ids == if ep.name.Some? then s.ids else s.ids.(endpoint := s.ids.endpoint + 1)
  {
    FindIsFirst(s.clusters, cluster);
    var j := Find(s.clusters, cluster);
    assert FirstOf(s.clusters, j, cluster);
  }

  // ------------------------------------------------------------------------------- clusters

  /** Only cluster j and the endpoint registry grew. */
  ghost predicate Growing(s: State, t: State, j: nat) {
    && j < |s.clusters| == |t.clusters|
    && (forall i :: 0 <= i < |s.clusters| && i != j ==> t.clusters[i] == s.clusters[i])
    && SameCluster(s.clusters[j], t.clusters[j])
    && s.clusters[j].body.cluster.endpoints <= t.clusters[j].body.cluster.endpoints
    && s.endpoints <= t.endpoints
    && t == s.(clusters := t.clusters, endpoints := t.endpoints, ids := s.ids.(endpoint := t.ids.endpoint))
  }

  lemma GrowingChains(s: State, t: State, u: State, j: nat)
    requires Growing(s, t, j) && Growing(t, u, j)
    ensures Growing(s, u, j)
  {
  }

  lemma StillFirst(s: State, t: State, j: nat, n: string)
    requires Growing(s, t, j) && Find(s.clusters, n) == j
    ensures Find(t.clusters, n) == j
  {
    FindIsFirst(s.clusters, n);
    FindIsFirst(t.clusters, n);
    assert t.clusters[j].name == n;
    assert forall i :: 0 <= i < |s.clusters| ==> t.clusters[i].name == s.clusters[i].name;
  }

  lemma AddOwnGrows(s: State, j: nat, n: string, e: EndpointSpec)
    requires Find(s.clusters, n) == j
    ensures Growing(s, AddOwnEndPoint(s, n, e).reg, j)
  {
    var s1 := CountEndPoint(s, e.name);
    var m := PickName(e.name, s.endpoints, n + "-EndPoint-" + Decimal(s.ids.endpoint));
    if m.Some? {
      var o := AddEndPoint(s1, n, e.(name := m));
      if o.Done? {
        AddEndPointPuts(s1, n, e.(name := m));
      } else {
        AddEndPointRefuses(s1, n, e.(name := m));
      }
    }
  }

  lemma {:induction false} AddAllGrow(s: State, j: nat, n: string, eps: seq<EndpointSpec>)
    requires Find(s.clusters, n) == j
    ensures Growing(s, AddEndPoints(s, n, eps).reg, j)
    decreases |eps|
  {
    if eps != [] {
      AddOwnGrows(s, j, n, eps[0]);
      var o := AddOwnEndPoint(s, n, eps[0]);
      if o.Done? {
        StillFirst(s, o.reg, j, n);
        AddAllGrow(o.reg, j, n, eps[1..]);
        GrowingChains(s, o.reg, AddEndPoints(o.reg, n, eps[1..]).reg, j);
      }
    }
  }

  lemma NewestFound(es: seq<Entry<ClusterBody>>, e: Entry<ClusterBody>)
    requires !Has(es, e.name)
    ensures Find(es + [e], e.name) == |es|
  {
    FindIsFirst(es, e.name);
    FindIsFirst(es + [e], e.name);
    assert (es + [e])[|es|].name == e.name;
    assert forall i :: 0 <= i < |es| ==> (es + [e])[i] == es[i];
  }

  /** The cluster that a spec asks for, under the name n. */
  predicate ClusterOf(e: Entry<ClusterBody>, n: string, c: ClusterSpec, auto: bool) {
    && e.name == n && e.auto == auto && e.body.virtual == c.virtual
    && e.body.cluster.accepts == c.accepts && e.body.cluster.lb.policy == c.policy
  }

  /** Nothing but clusters, endpoints and the counter of endpoint names differs. */
  predicate OnlyClusters(s: State, t: State) {
    t == s.(clusters := t.clusters, endpoints := t.endpoints, ids := s.ids.(endpoint := t.ids.endpoint))
  }

  /** When `addCluster` throws what before it registers anything. */
  lemma AddClusterRefuses(s: State, c: ClusterSpec, auto: bool)
    ensures var o := AddCluster(s, c, auto);
      && (!ValidName(c.name) || !c.hasSpec ==> o == Thrown(s, Invalid))
      && (ValidName(c.name) && c.hasSpec && Used(s.clusters, c.name.value) ==> o == Thrown(s, Duplicate))
      && (ValidName(c.name) && c.hasSpec && !Used(s.clusters, c.name.value) && !c.known ==> o == Thrown(s, Unsupported))
      && (o.Done? ==> c.starts)
  {
    if ValidName(c.name) {
      FindIsFirst(s.clusters, c.name.value);
    }
  }

  /** A success puts exactly the cluster of the spec at the end. */
  lemma AddClusterPuts(s: State, c: ClusterSpec, auto: bool)
    requires AddCluster(s, c, auto).Done?
    ensures var t := AddCluster(s, c, auto).reg;
      && OnlyClusters(s, t) && s.endpoints <= t.endpoints
      && |t.clusters| == |s.clusters| + 1 && t.clusters[..|s.clusters|] == s.clusters
      && ClusterOf(t.clusters[|s.clusters|], c.name.value, c, auto) && !Used(s.clusters, c.name.value)
  {
    var n := c.name.value;
    var p := PushCluster(s, n, c, auto);
    FindIsFirst(s.clusters, n);
    NewestFound(s.clusters, p.clusters[|s.clusters|]);
    AddAllGrow(p, |s.clusters|, n, c.endpoints);
  }

  lemma {:induction false} GivenNamesDone(s: State, n: string, eps: seq<EndpointSpec>)
    requires forall i :: 0 <= i < |eps| ==> eps[i].name.Some? && eps[i].name.value != ""
    ensures AddEndPoints(s, n, eps).Done?
    decreases |eps|
  {
    if eps != [] {
      GivenNamesDone(AddOwnEndPoint(s, n, eps[0]).reg, n, eps[1..]);
    }
  }

  /** A new cluster whose endpoints come with names starts whether or not they can be added: those
      that cannot are skipped. */
  lemma BadEndPointsSkipped(s: State, c: ClusterSpec, auto: bool)
    requires ValidName(c.name) && c.hasSpec && !Used(s.clusters, c.name.value) && c.known
    requires forall i :: 0 <= i < |c.endpoints| ==> c.endpoints[i].name.Some? && c.endpoints[i].name.value != ""
    ensures AddCluster(s, c, auto).Done? <==> c.starts
  {
    FindIsFirst(s.clusters, c.name.value);
    GivenNamesDone(PushCluster(s, c.name.value, c, auto), c.name.value, c.endpoints);
  }

  /** How many endpoints come without a name. */
  function NamelessEndPoints(eps: seq<EndpointSpec>): nat {
    if eps == [] then 0
    else (if eps[0].name.None? || eps[0].name.value == "" then 1 else 0) + NamelessEndPoints(eps[1..])
  }

  lemma AddOwnCounts(s: State, n: string, e: EndpointSpec)
    ensures AddOwnEndPoint(s, n, e).reg.ids.endpoint == s.ids.endpoint + NamelessEndPoints([e])
  {
    assert [e][1..] == [] && [e][0] == e;
    var m := PickName(e.name, s.endpoints, n + "-EndPoint-" + Decimal(s.ids.endpoint));
    if m.Some? && AddEndPoint(CountEndPoint(s, e.name), n, e.(name := m)).Done? {
      AddEndPointPuts(CountEndPoint(s, e.name), n, e.(name := m));
    } else if m.Some? {
      AddEndPointRefuses(CountEndPoint(s, e.name), n, e.(name := m));
    }
  }

  lemma {:induction false} AddAllCount(s: State, n: string, eps: seq<EndpointSpec>)
    ensures var o := AddEndPoints(s, n, eps);
      o.Done? ==> o.reg.ids.endpoint == s.ids.endpoint + NamelessEndPoints(eps)
    decreases |eps|
  {
    if eps != [] {
      AddOwnCounts(s, n, eps[0]);
      assert [eps[0]][1..] == [];
      var o := AddOwnEndPoint(s, n, eps[0]);
      if o.Done? {
        AddAllCount(o.reg, n, eps[1..]);
      }
    }
  }

  /** Every endpoint that comes without a name advances the counter once. */
  lemma AddClusterCounts(s: State, c: ClusterSpec, auto: bool)
    requires AddCluster(s, c, auto).Done?
    ensures AddCluster(s, c, auto).reg.ids.endpoint == s.ids.endpoint + NamelessEndPoints(c.endpoints)
  {
    AddAllCount(PushCluster(s, c.name.value, c, auto), c.name.value, c.endpoints);
  }

  /** The endpoints of a spec whose names are given, valid, different and free. */
  predicate Acceptable(s: State, eps: seq<EndpointSpec>) {
    && (forall i :: 0 <= i < |eps| ==>
          ValidName(eps[i].name) && eps[i].hasSpec && !Used(s.endpoints, eps[i].name.value))
    && (forall i, j :: 0 <= i < j < |eps| ==> eps[i].name != eps[j].name)
  }

  function ListOf(eps: seq<EndpointSpec>): (r: seq<C.Endpoint>)
    requires forall i :: 0 <= i < |eps| ==> eps[i].name.Some?
  {
    seq(|eps|, i requires 0 <= i < |eps| => C.Endpoint(eps[i].name.value, eps[i].address))
  }

  function EntriesOf(eps: seq<EndpointSpec>, n: string): (r: seq<Entry<EndpointBody>>)
    requires forall i :: 0 <= i < |eps| ==> eps[i].name.Some?
  {
    seq(|eps|, i requires 0 <= i < |eps| => Entry(eps[i].name.value, false, EndpointBody(n, eps[i].address)))
  }

  lemma AddOwnPuts(s: State, j: nat, n: string, e: EndpointSpec)
    requires Find(s.clusters, n) == j && s.clusters[j].body.cluster.accepts
    requires ValidName(e.name) && e.hasSpec && !Used(s.endpoints, e.name.value)
    ensures var o := AddOwnEndPoint(s, n, e); o.Done? && EndPointPut(s, o.reg, j, e.name.value, e.address)
  {
    FindIsFirst(s.endpoints, e.name.value);
  }

  lemma StillAcceptable(s: State, t: State, j: nat, eps: seq<EndpointSpec>)
    requires eps != [] && Acceptable(s, eps) && EndPointPut(s, t, j, eps[0].name.value, eps[0].address)
    ensures Acceptable(t, eps[1..])
  {
    forall i | 0 <= i < |eps[1..]|
      ensures !Used(t.endpoints, eps[1..][i].name.value)
    {
      assert eps[1..][i] == eps[i + 1] && eps[i + 1].name != eps[0].name;
      assert forall k :: 0 <= k < |s.endpoints| ==> t.endpoints[k] == s.endpoints[k];
    }
  }

  lemma FirstListed(eps: seq<EndpointSpec>, n: string)
    requires eps != [] && forall i :: 0 <= i < |eps| ==> eps[i].name.Some?
    ensures var e := eps[0];
      && ListOf(eps) == [C.Endpoint(e.name.value, e.address)] + ListOf(eps[1..])
      && EntriesOf(eps, n) == [Entry(e.name.value, false, EndpointBody(n, e.address))] + EntriesOf(eps[1..], n)
  {
  }

  /** The endpoints eps were appended for cluster j. */
  predicate AllPut(s: State, t: State, j: nat, n: string, eps: seq<EndpointSpec>)
    requires forall i :: 0 <= i < |eps| ==> eps[i].name.Some?
  {
    && j < |s.clusters| == |t.clusters|
    && t.endpoints == s.endpoints + EntriesOf(eps, n)
    && t.clusters[j].body.cluster.endpoints == s.clusters[j].body.cluster.endpoints + ListOf(eps)
  }

  lemma PutThenAll(s: State, t: State, v: State, j: nat, n: string, eps: seq<EndpointSpec>)
    requires eps != [] && forall i :: 0 <= i < |eps| ==> eps[i].name.Some?
    requires EndPointPut(s, t, j, eps[0].name.value, eps[0].address) && s.clusters[j].name == n
    requires AllPut(t, v, j, n, eps[1..])
    ensures AllPut(s, v, j, n, eps)
  {
    FirstListed(eps, n);
  }

  lemma {:induction false} AddAllPut(s: State, j: nat, n: string, eps: seq<EndpointSpec>)
    requires Find(s.clusters, n) == j && s.clusters[j].body.cluster.accepts && Acceptable(s, eps)
    ensures AddEndPoints(s, n, eps).Done? && AllPut(s, AddEndPoints(s, n, eps).reg, j, n, eps)
    decreases |eps|
  {
    if eps != [] {
      AddOwnPuts(s, j, n, eps[0]);
      AddOwnGrows(s, j, n, eps[0]);
      var t := AddOwnEndPoint(s, n, eps[0]).reg;
      StillFirst(s, t, j, n);
      StillAcceptable(s, t, j, eps);
      AddAllPut(t, j, n, eps[1..]);
      PutThenAll(s, t, AddEndPoints(t, n, eps[1..]).reg, j, n, eps);
    }
  }

  /** A new cluster lists the endpoints of its spec in order, and so does the registry. */
  lemma AddClusterLists(s: State, c: ClusterSpec, auto: bool)
    requires ValidName(c.name) && c.hasSpec && !Used(s.clusters, c.name.value) && c.known && c.starts && c.accepts
    requires Acceptable(s, c.endpoints)
    ensures var o := AddCluster(s, c, auto);
      && o.Done? && o.reg.endpoints == s.endpoints + EntriesOf(c.endpoints, c.name.value)
      && |o.reg.clusters| == |s.clusters| + 1
      && o.reg.clusters[|s.clusters|].body.cluster.endpoints == ListOf(c.endpoints)
  {
    var n := c.name.value;
    var p := PushCluster(s, n, c, auto);
    FindIsFirst(s.clusters, n);
    NewestFound(s.clusters, p.clusters[|s.clusters|]);
    AddAllPut(p, |s.clusters|, n, c.endpoints);
    assert [] + ListOf(c.endpoints) == ListOf(c.endpoints);
  }
}
