/** Clusters and their load balancers (cluster.js). */
module Clusters {

  datatype Endpoint = Endpoint(name: string, address: string)

  datatype Policy = NoBalancing | Trivial | HashRing

  /** `es` is what `LoadBalancer.update` stores, `keys` what `HashRingLoadBalancer.update`
      rebuilds. */
  datatype Balancer = Balancer(policy: Policy, es: seq<Endpoint>, keys: map<string, Endpoint>)

  datatype Cluster = Cluster(endpoints: seq<Endpoint>, lb: Balancer, accepts: bool)

  /** Later endpoints win over earlier ones with the same address. */
  function KeyMap(es: seq<Endpoint>): map<string, Endpoint> {
    if es == [] then map[]
    else KeyMap(es[..|es| - 1])[es[|es| - 1].address := es[|es| - 1]]
  }

  function Update(b: Balancer, es: seq<Endpoint>): Balancer {
    if b.policy == HashRing then b.(keys := KeyMap(es)) else b.(es := es)
  }

  datatype Choice = Chosen(endpoint: Endpoint) | NotFound | Undefined

  /** Where the ring places a key: an abstract function into the key set. */
  type Ring = (set<string>, string) -> string

  ghost predicate IntoKeys(ring: Ring) {
    forall keys: set<string>, key: string :: keys != {} ==> ring(keys, key) in keys
  }

  function Apply(b: Balancer, ring: Ring, key: string): Choice {
    match b.policy
    case NoBalancing => Undefined
    case Trivial => if b.es == [] then NotFound else Chosen(b.es[0])
    case HashRing =>
      if b.keys == map[] then NotFound
      else var n := ring(b.keys.Keys, key); if n in b.keys then Chosen(b.keys[n]) else Undefined
  }

  function NewCluster(policy: Policy, accepts: bool): Cluster {
    Cluster([], Balancer(policy, [], map[]), accepts)
  }

  function FindEndpoint(es: seq<Endpoint>, n: string): (i: int)
    ensures -1 <= i < |es|
    ensures i >= 0 ==> es[i].name == n && forall j :: 0 <= j < i ==> es[j].name != n
    ensures i < 0 ==> forall j :: 0 <= j < |es| ==> es[j].name != n
  {
    if es == [] then -1
    else if es[0].name == n then 0
    else var i := FindEndpoint(es[1..], n); if i < 0 then -1 else i + 1
  }

  function AddTo(c: Cluster, e: Endpoint): Cluster {
    var es := c.endpoints + [e];
    c.(endpoints := es, lb := Update(c.lb, es))
  }

  function DeleteFrom(c: Cluster, n: string): Cluster {
    var i := FindEndpoint(c.endpoints, n);
    if i < 0 then c
    else
      var es := c.endpoints[..i] + c.endpoints[i + 1..];
      c.(endpoints := es, lb := Update(c.lb, es))
  }

  /** The balancer's view agrees with the cluster's list. */
  predicate InSync(c: Cluster) {
    c.lb == Update(c.lb, c.endpoints) && (c.lb.policy == HashRing ==> c.lb.es == [])
  }

  lemma {:induction false} KeyMapKeys(es: seq<Endpoint>)
    ensures forall e :: e in es ==> e.address in KeyMap(es)
    ensures forall a :: a in KeyMap(es) ==> KeyMap(es)[a] in es && KeyMap(es)[a].address == a
  {
    if es != [] {
      var init, last := es[..|es| - 1], es[|es| - 1];
      KeyMapKeys(init);
      assert es == init + [last];
    }
  }

  /** A balancer in sync with its cluster chooses a current endpoint, and reports NotFound
      exactly when the cluster has none; the base class alone returns nothing. */
  lemma ApplyChoosesCurrent(c: Cluster, ring: Ring, key: string)
    requires InSync(c) && IntoKeys(ring)
    ensures var r := Apply(c.lb, ring, key);
      && (r.Chosen? ==> r.endpoint in c.endpoints)
      && (r == NotFound <==> c.endpoints == [] && c.lb.policy != NoBalancing)
      && (r == Undefined <==> c.lb.policy == NoBalancing)
  {
    KeyMapKeys(c.endpoints);
    if c.endpoints != [] {
      assert c.endpoints[0].address in KeyMap(c.endpoints);
      assert KeyMap(c.endpoints).Keys != {};
    }
    if c.lb.policy == HashRing && c.lb.keys != map[] {
      assert c.lb.keys.Keys != {};
    }
  }

  /** Endpoint i is the latest with its address. */
  predicate LatestAt(es: seq<Endpoint>, i: nat) {
    i < |es| && forall j :: i < j < |es| ==> es[j].address != es[i].address
  }

  lemma {:induction false} KeyMapLatest(es: seq<Endpoint>)
    ensures forall i: nat :: LatestAt(es, i) ==> es[i].address in KeyMap(es) && KeyMap(es)[es[i].address] == es[i]
    ensures KeyMap(es).Keys == set e | e in es :: e.address
  {
    if es != [] {
      var init, last := es[..|es| - 1], es[|es| - 1];
      KeyMapLatest(init);
      assert es == init + [last];
      forall i: nat | LatestAt(es, i)
        ensures es[i].address in KeyMap(es) && KeyMap(es)[es[i].address] == es[i]
      {
        if i < |init| {
          assert LatestAt(init, i) && last.address != es[i].address by {
            assert forall j :: i < j < |init| ==> init[j] == es[j];
          }
        }
      }
    }
  }

  lemma SomeLatest(es: seq<Endpoint>, address: string) returns (i: nat)
    requires exists e :: e in es && e.address == address
    ensures LatestAt(es, i) && es[i].address == address
  {
    i := |es| - 1;
    while es[i].address != address
      invariant 0 <= i < |es|
      invariant forall j :: i < j < |es| ==> es[j].address != address
      decreases i
    {
      assert i > 0 by {
        var e :| e in es && e.address == address;
      }
      i := i - 1;
    }
  }

  /** Which one is chosen: the first of the list; or, on the ring, the latest endpoint with the
      address that the ring gives for the session's key among all addresses. */
  lemma ApplyChooses(c: Cluster, ring: Ring, key: string)
    requires InSync(c) && IntoKeys(ring) && c.endpoints != []
    ensures c.lb.policy == Trivial ==> Apply(c.lb, ring, key) == Chosen(c.endpoints[0])
    ensures c.lb.policy == HashRing ==>
              exists i: nat :: LatestAt(c.endpoints, i) && Apply(c.lb, ring, key) == Chosen(c.endpoints[i])
                && c.endpoints[i].address == ring(set e | e in c.endpoints :: e.address, key)
  {
    if c.lb.policy == HashRing {
      var addresses := set e | e in c.endpoints :: e.address;
      KeyMapLatest(c.endpoints);
      assert c.endpoints[0].address in addresses;
      var a := ring(addresses, key);
      assert a in addresses;
      var i := SomeLatest(c.endpoints, a);
      assert Apply(c.lb, ring, key) == Chosen(c.endpoints[i]);
    }
  }

  /** An added endpoint is the last of the list; a delete takes out the first of the name, no
      other, and nothing when there is none. */
  lemma EditsList(c: Cluster, e: Endpoint, n: string)
    ensures AddTo(c, e).endpoints == c.endpoints + [e]
    ensures (forall j :: 0 <= j < |c.endpoints| ==> c.endpoints[j].name != n) ==> DeleteFrom(c, n) == c
    ensures forall i :: 0 <= i < |c.endpoints| && c.endpoints[i].name == n
                        && (forall j :: 0 <= j < i ==> c.endpoints[j].name != n) ==>
                          DeleteFrom(c, n).endpoints == c.endpoints[..i] + c.endpoints[i + 1..]
  {
    forall i | 0 <= i < |c.endpoints| && c.endpoints[i].name == n
               && (forall j :: 0 <= j < i ==> c.endpoints[j].name != n)
      ensures DeleteFrom(c, n).endpoints == c.endpoints[..i] + c.endpoints[i + 1..]
    {
      assert i == FindEndpoint(c.endpoints, n);
    }
  }

  /** Adding and deleting keep balancer and list in sync. */
  lemma EditsKeepSync(c: Cluster, e: Endpoint, n: string)
    requires InSync(c)
    ensures InSync(AddTo(c, e)) && InSync(DeleteFrom(c, n)) && InSync(NewCluster(c.lb.policy, c.accepts))
  {
  }

  lemma FindLast(es: seq<Endpoint>, e: Endpoint)
    requires FindEndpoint(es, e.name) < 0
    ensures FindEndpoint(es + [e], e.name) == |es|
  {
    var i := FindEndpoint(es + [e], e.name);
    assert forall j :: 0 <= j < |es| ==> (es + [e])[j] == es[j];
    assert (es + [e])[|es|].name == e.name;
  }

  /** Deleting the endpoint just added, whose name is new, gives the cluster back. */
  lemma DeleteUndoesAdd(c: Cluster, e: Endpoint)
    requires InSync(c) && FindEndpoint(c.endpoints, e.name) < 0
    ensures DeleteFrom(AddTo(c, e), e.name) == c
  {
    FindLast(c.endpoints, e);
    var es, i := c.endpoints + [e], |c.endpoints|;
    assert es[..i] + es[i + 1..] == c.endpoints;
  }

  // ---------------------------------------------------------------------- the classes

  class LoadBalancer {
    const policy: Policy
    var es: seq<Endpoint>
    var keys: map<string, Endpoint>

    function View(): Balancer
      reads this
    {
      Balancer(policy, es, keys)
    }

    constructor (policy: Policy)
      ensures View() == Balancer(policy, [], map[])
    {
      this.policy, es, keys := policy, [], map[];
    }

    method UpdateWith(endpoints: seq<Endpoint>)
      modifies this
      ensures View() == Update(old(View()), endpoints)
    {
      if policy == HashRing {
        keys := map[];
        for i := 0 to |endpoints|
          invariant keys == KeyMap(endpoints[..i]) && es == old(es)
        {
          assert endpoints[..i + 1][..i] == endpoints[..i];
          keys := keys[endpoints[i].address := endpoints[i]];
        }
        assert endpoints[..|endpoints|] == endpoints;
      } else {
        es := endpoints;
      }
    }

    method Choose(ring: Ring, key: string) returns (c: Choice)
      ensures c == Apply(View(), ring, key)
    {
      match policy {
        case NoBalancing =>
          c := Undefined;
        case Trivial =>
          c := if |es| == 0 then NotFound else Chosen(es[0]);
        case HashRing =>
          if keys == map[] {
            return NotFound;
          }
          var n := ring(keys.Keys, key);
          c := if n in keys then Chosen(keys[n]) else Undefined;
      }
    }
  }

  class ClusterObject {
    var endpoints: seq<Endpoint>
    const loadbalancer: LoadBalancer
    const accepts: bool

    function View(): Cluster
      reads this, loadbalancer
    {
      Cluster(endpoints, loadbalancer.View(), accepts)
    }

    constructor (policy: Policy, accepts: bool)
      ensures View() == NewCluster(policy, accepts) && fresh(loadbalancer)
    {
      endpoints, this.accepts := [], accepts;
      loadbalancer := new LoadBalancer(policy);
    }

    method AddEndPoint(e: Endpoint)
      modifies this, loadbalancer
      ensures View() == AddTo(old(View()), e)
    {
      endpoints := endpoints + [e];
      loadbalancer.UpdateWith(endpoints);
    }

    method FindIndex(n: string) returns (i: int)
      ensures i == FindEndpoint(endpoints, n)
    {
      i := 0;
      while i < |endpoints|
        invariant 0 <= i <= |endpoints|
        invariant forall j :: 0 <= j < i ==> endpoints[j].name != n
      {
        if endpoints[i].name == n {
          return;
        }
        i := i + 1;
      }
      i := -1;
    }

    method DeleteEndPoint(n: string)
      modifies this, loadbalancer
      ensures View() == DeleteFrom(old(View()), n)
    {
      var i := FindIndex(n);
      if i < 0 {
        return;
      }
      endpoints := endpoints[..i] + endpoints[i + 1..];
      loadbalancer.UpdateWith(endpoints);
    }
  }
}
