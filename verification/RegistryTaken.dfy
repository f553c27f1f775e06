/** What deleting a cluster removes when endpoint names are taken. */
module RegistryTaken {
  import opened Basics
  import opened Registry
  import opened RegistryLists
  import opened RegistryDeletes
  import opened RegistryRuns
  import C = Clusters

  // ------------------------------------------------------------ when a delete keeps to its own

  /** The endpoints that a loop over the names ns deletes from the registry es, each the first of
      its name at that time, all belong to cluster c. */
  predicate HitsOwn(es: seq<Entry<EndpointBody>>, ns: seq<string>, c: string)
    decreases |ns|
  {
    ns == [] ||
    var i := Find(es, ns[0]);
    i >= 0 && es[i].body.cluster == c && HitsOwn(Splice(es, i), ns[1..], c)
  }

  lemma {:induction false} KeepOfLength(es: seq<Entry<EndpointBody>>, d: set<string>)
    ensures |KeepOf(es, d)| <= |es| && (|KeepOf(es, d)| == |es| ==> KeepOf(es, d) == es)
  {
    if es != [] {
      KeepOfLength(es[..|es| - 1], d);
      assert es == es[..|es| - 1] + [es[|es| - 1]];
    }
  }

  lemma KeepOfSpliceOther(es: seq<Entry<EndpointBody>>, i: nat, d: set<string>)
    requires i < |es| && es[i].body.cluster !in d
    ensures |KeepOf(Splice(es, i), d)| < |KeepOf(es, d)|
  {
    var a, e, b := es[..i], es[i], es[i + 1..];
    assert es == a + [e] + b;
    KeepOfSum(a + [e], b, d);
    KeepOfSum(a, [e], d);
    KeepOfSum(a, b, d);
    assert KeepOf([e], d) == [e];
  }

  /** Deleting endpoints by name never adds one. */
  lemma {:induction false} OthersShrink(s: State, ns: seq<string>, d: set<string>)
    ensures |KeepOf(DeleteEndPoints(s, ns).reg.endpoints, d)| <= |KeepOf(s.endpoints, d)|
    decreases |ns|
  {
    if ns != [] && DeleteEndPoint(s, ns[0]).Done? {
      var i := Find(s.endpoints, ns[0]);
      if s.endpoints[i].body.cluster in d {
        KeepOfSplice(s.endpoints, i, d);
      } else {
        KeepOfSpliceOther(s.endpoints, i, d);
      }
      OthersShrink(DeleteEndPoint(s, ns[0]).reg, ns[1..], d);
    }
  }

  /** One own endpoint goes: the others stay, and so do the other clusters. */
  lemma OwnDeleted(s: State, j: nat, n: string)
    requires j < |s.clusters| && Find(s.clusters, s.clusters[j].name) == j
    requires Find(s.endpoints, n) >= 0 && s.endpoints[Find(s.endpoints, n)].body.cluster == s.clusters[j].name
    ensures var o := DeleteEndPoint(s, n);
      && o.Done? && OthersSame(s, o.reg, j) && o.reg.endpoints == Splice(s.endpoints, Find(s.endpoints, n))
      && KeepOf(o.reg.endpoints, {s.clusters[j].name}) == KeepOf(s.endpoints, {s.clusters[j].name})
  {
    KeepOfSplice(s.endpoints, Find(s.endpoints, n), {s.clusters[j].name});
  }

  lemma OwnFound(s: State, t: State, j: nat)
    requires OthersSame(s, t, j) && Unique(s.clusters)
    ensures Unique(t.clusters) && Find(t.clusters, t.clusters[j].name) == j
  {
    forall x, y | 0 <= x < y < |t.clusters|
      ensures t.clusters[x].name != t.clusters[y].name
    {
      assert t.clusters[x].name == s.clusters[x].name by { NameSame(s, t, j, x); }
      assert t.clusters[y].name == s.clusters[y].name by { NameSame(s, t, j, y); }
    }
    FindAt(t.clusters, j);
  }

  lemma NameSame(s: State, t: State, j: nat, x: nat)
    requires OthersSame(s, t, j) && x < |s.clusters|
    ensures t.clusters[x].name == s.clusters[x].name
  {
    if x < j {
      assert t.clusters[x] == t.clusters[..j][x] == s.clusters[..j][x];
    } else if x > j {
      assert t.clusters[x] == t.clusters[j + 1..][x - j - 1] == s.clusters[j + 1..][x - j - 1];
    }
  }

  lemma {:induction false} OwnLoop(s: State, j: nat, ns: seq<string>)
    requires j < |s.clusters| && Unique(s.clusters) && HitsOwn(s.endpoints, ns, s.clusters[j].name)
    ensures var o := DeleteEndPoints(s, ns);
      && o.Done? && OthersSame(s, o.reg, j) && |o.reg.endpoints| == |s.endpoints| - |ns|
      && KeepOf(o.reg.endpoints, {s.clusters[j].name}) == KeepOf(s.endpoints, {s.clusters[j].name})
    decreases |ns|
  {
    if ns != [] {
      FindAt(s.clusters, j);
      OwnDeleted(s, j, ns[0]);
      var t := DeleteEndPoint(s, ns[0]).reg;
      OwnFound(s, t, j);
      OwnLoop(t, j, ns[1..]);
    }
  }

  /** A loop that hits another cluster's endpoint throws, or an endpoint of another goes. */
  lemma {:induction false} ForeignLoop(s: State, j: nat, ns: seq<string>)
    requires j < |s.clusters| && Unique(s.clusters) && !HitsOwn(s.endpoints, ns, s.clusters[j].name)
    ensures var o := DeleteEndPoints(s, ns);
      o.Thrown? || |KeepOf(o.reg.endpoints, {s.clusters[j].name})| < |KeepOf(s.endpoints, {s.clusters[j].name})|
    decreases |ns|
  {
    var i, n := Find(s.endpoints, ns[0]), s.clusters[j].name;
    var o := DeleteEndPoint(s, ns[0]);
    if i >= 0 && s.endpoints[i].body.cluster == n {
      FindAt(s.clusters, j);
      OwnDeleted(s, j, ns[0]);
      OwnFound(s, o.reg, j);
      ForeignLoop(o.reg, j, ns[1..]);
    } else if o.Done? {
      KeepOfSpliceOther(s.endpoints, i, {n});
      OthersShrink(o.reg, ns[1..], {n});
    }
  }

  /** How many registered endpoints belong to cluster c. */
  function OwnCount(es: seq<Entry<EndpointBody>>, c: string): int { |es| - |KeepOf(es, {c})| }

  /** Over any registry whose cluster names are unique: deleting a cluster removes exactly it and
      all of its endpoints when the first endpoints of the names it lists are its own, and it
      lists as many as it has; otherwise it throws or removes something else. */
  lemma DeletesOwnExactly(s: State, j: nat)
    requires Unique(s.clusters) && j < |s.clusters|
    ensures var n, ns := s.clusters[j].name, EndpointNames(s.clusters[j].body.cluster);
      DeleteCluster(s, n) == Done(Prune(s, Drops({}, {}, {n}))) <==>
      HitsOwn(s.endpoints, ns, n) && |ns| == OwnCount(s.endpoints, n)
  {
    var n, ns := s.clusters[j].name, EndpointNames(s.clusters[j].body.cluster);
    FindAt(s.clusters, j);
    KeepSame(s.rules, {});
    KeepSame(s.routes, {});
    KeepOfLength(s.endpoints, {n});
    if HitsOwn(s.endpoints, ns, n) {
      OwnLoop(s, j, ns);
      var t := DeleteEndPoints(s, ns).reg;
      KeepOfLength(t.endpoints, {n});
      SpliceKeeps(s.clusters, j);
      assert Splice(t.clusters, j) == Splice(s.clusters, j);
    } else {
      ForeignLoop(s, j, ns);
      KeepOfTwice(s.endpoints, {n}, {n});
      assert {n} + {n} == {n};
    }
  }

  // ------------------------------------------------------------- a name taken across clusters

  /** Cluster b gets an endpoint under the name that cluster a's next nameless one makes up, and
      cluster a then gets that one. */
  function Crossing(a: string, b: string): seq<Call> {
    [CallAddCluster(PlainCluster(a)), CallAddCluster(PlainCluster(b)),
     CallAddEndPoint(b, EndpointSpec(Some(a + "-EndPoint-" + Decimal(0)), true, "x")),
     CallAddEndPoint(a, EndpointSpec(None, true, "y"))]
  }

  function TrivialCluster(n: string, es: seq<C.Endpoint>): Entry<ClusterBody> {
    Entry(n, false, ClusterBody(false, C.Cluster(es, C.Balancer(C.Trivial, es, map[]), true)))
  }

  lemma AddPlain(s: State, n: string)
    requires ValidName(Some(n)) && !Has(s.clusters, n)
    ensures Perform(s, CallAddCluster(PlainCluster(n))) == Done(s.(clusters := s.clusters + [TrivialCluster(n, [])]))
  {
    assert AddEndPoints(PushCluster(s, n, PlainCluster(n), false), n, []).Done?;
  }

  /** Both clusters list one name, and the registry holds b's endpoint first. */
  predicate Crossed(s: State, a: string, b: string, own: string) {
    && s.clusters == [TrivialCluster(a, [C.Endpoint(own, "y")]), TrivialCluster(b, [C.Endpoint(own, "x")])]
    && s.endpoints == [Entry(own, false, EndpointBody(b, "x")), Entry(own, false, EndpointBody(a, "y"))]
  }

  lemma PutPlain(s: State, j: nat, n: string, own: string, address: string)
    requires j < |s.clusters| && s.clusters[j] == TrivialCluster(n, [])
    ensures var t := PutEndPoint(s, j, own, address);
      && t.clusters == s.clusters[j := TrivialCluster(n, [C.Endpoint(own, address)])]
      && t.endpoints == s.endpoints + [Entry(own, false, EndpointBody(n, address))]
  {
    assert [] + [C.Endpoint(own, address)] == [C.Endpoint(own, address)];
  }

  lemma CrossingEndpoints(s: State, a: string, b: string)
    requires ValidName(Some(a)) && a != b
    requires s == EMPTY.(clusters := [TrivialCluster(a, []), TrivialCluster(b, [])])
    ensures var t := Perform(s, Crossing(a, b)[2]).reg;
      Crossed(Perform(t, Crossing(a, b)[3]).reg, a, b, a + "-EndPoint-" + Decimal(0))
  {
    var own := a + "-EndPoint-" + Decimal(0);
    OwnNameValid(a);
    assert Find(s.clusters, a) == 0 && Find(s.clusters, b) == 1;
    assert AddEndPoint(s, b, EndpointSpec(Some(own), true, "x")) == Done(PutEndPoint(s, 1, own, "x"));
    var t := PutEndPoint(s, 1, own, "x");
    PutPlain(s, 1, b, own, "x");
    assert t.clusters == [TrivialCluster(a, []), TrivialCluster(b, [C.Endpoint(own, "x")])];
    assert Find(t.clusters, a) == 0;
    var t1 := t.(ids := t.ids.(endpoint := 1));
    assert Perform(t, Crossing(a, b)[3]).reg == PutEndPoint(t1, 0, own, "y");
    PutPlain(t1, 0, a, own, "y");
  }

  lemma OneCall(s: State, c: Call)
    ensures Run(s, [c]) == Perform(s, c).reg
  {
    assert [c][1..] == [];
  }

  lemma FirstCall(s: State, c: Call, cs: seq<Call>)
    ensures Run(s, [c] + cs) == Run(Perform(s, c).reg, cs)
  {
    assert ([c] + cs)[1..] == cs;
  }

  lemma CrossingRuns(a: string, b: string)
    requires ValidName(Some(a)) && ValidName(Some(b)) && a != b
    ensures Crossed(Run(EMPTY, Crossing(a, b)), a, b, a + "-EndPoint-" + Decimal(0))
  {
    var cs := Crossing(a, b);
    AddPlain(EMPTY, a);
    var s1 := Perform(EMPTY, cs[0]).reg;
    AddPlain(s1, b);
    var s2 := Perform(s1, cs[1]).reg;
    assert s2.clusters == [TrivialCluster(a, []), TrivialCluster(b, [])];
    CrossingEndpoints(s2, a, b);
    FirstCall(EMPTY, cs[0], [cs[1], cs[2], cs[3]]);
    FirstCall(s1, cs[1], [cs[2], cs[3]]);
    FirstCall(s2, cs[2], [cs[3]]);
    OneCall(Perform(s2, cs[2]).reg, cs[3]);
    assert cs == [cs[0]] + [cs[1], cs[2], cs[3]] && [cs[1], cs[2], cs[3]] == [cs[1]] + [cs[2], cs[3]];
    assert [cs[2], cs[3]] == [cs[2]] + [cs[3]];
  }

  /** Deleting cluster a then removes b's endpoint, in the registry and in b, and leaves a's; to
      delete that one is to reach the case that "should never happen". */
  lemma CrossedDeletes(s: State, a: string, b: string, own: string)
    requires Crossed(s, a, b, own) && a != b
    ensures var d := DeleteCluster(s, a);
      && d.Done? && d.reg.clusters == [TrivialCluster(b, [])]
      && d.reg.endpoints == [Entry(own, false, EndpointBody(a, "y"))]
      && DeleteEndPoint(d.reg, own) == Thrown(d.reg, Broken)
  {
    assert Find(s.clusters, a) == 0 && Find(s.clusters, b) == 1 && Find(s.endpoints, own) == 0;
    var ns := EndpointNames(s.clusters[0].body.cluster);
    assert ns == [own];
    var t := DeleteEndPoint(s, own).reg;
    assert DeleteEndPoints(s, ns) == Done(t);
    assert C.DeleteFrom(s.clusters[1].body.cluster, own).endpoints == [];
    assert t.clusters == [TrivialCluster(a, [C.Endpoint(own, "y")]), TrivialCluster(b, [])];
    assert t.endpoints == [Entry(own, false, EndpointBody(a, "y"))];
    assert Splice(t.clusters, 0) == [TrivialCluster(b, [])];
  }

  lemma CrossingBreaks(a: string, b: string)
    requires ValidName(Some(a)) && ValidName(Some(b)) && a != b
    ensures var s, own := Run(EMPTY, Crossing(a, b)), a + "-EndPoint-" + Decimal(0);
      var d := DeleteCluster(s, a);
      && Crossed(s, a, b, own) && d.Done? && d.reg.clusters == [TrivialCluster(b, [])]
      && d.reg.endpoints == [Entry(own, false, EndpointBody(a, "y"))]
      && DeleteEndPoint(d.reg, own) == Thrown(d.reg, Broken)
  {
    CrossingRuns(a, b);
    CrossedDeletes(Run(EMPTY, Crossing(a, b)), a, b, a + "-EndPoint-" + Decimal(0));
  }
}
