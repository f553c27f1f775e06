/** The pipes of a set-up: two calls of `pipeline_finish` (session.js). */
module PipelineSetup {
  import opened Pipeline

  /** Pipes laid by one call of `pipeline_finish`, from stage `from` over `chain` to `dest`. */
  function ChainEdges(from: nat, chain: seq<nat>, dest: nat): seq<(nat, nat)>
    decreases |chain|
  {
    if chain == [] then [(from, dest)] else [(from, chain[0])] + ChainEdges(chain[0], chain[1..], dest)
  }

  function IngressChain(c: Config): seq<nat> { seq(c.ingress, i requires 0 <= i => IngressAt(c, i)) }

  function EgressChain(c: Config): seq<nat> { seq(c.egress, i requires 0 <= i => EgressAt(c, i)) }

  /** Pipes laid by the two calls that finish a set-up. */
  function SetupEdges(c: Config): seq<(nat, nat)> {
    ChainEdges(0, IngressChain(c), Dest(c)) + ChainEdges(Dest(c), EgressChain(c), 0)
  }

  function Streams(st: seq<Stage>, edges: seq<(nat, nat)>): seq<(int, int)>
    requires forall e :: e in edges ==> e.0 < |st| && e.1 < |st|
  {
    seq(|edges|, i requires 0 <= i < |edges| =>
      assert edges[i] in edges; (st[edges[i].0].stream, st[edges[i].1].stream))
  }

  lemma {:induction false} ChainEdgesAt(from: nat, chain: seq<nat>, dest: nat, i: nat)
    requires i <= |chain|
    ensures |ChainEdges(from, chain, dest)| == |chain| + 1
    ensures ChainEdges(from, chain, dest)[i] ==
            (if i == 0 then from else chain[i - 1], if i == |chain| then dest else chain[i])
    decreases |chain|
  {
    if chain != [] {
      ChainEdgesAt(chain[0], chain[1..], dest, if i == 0 then 0 else i - 1);
    }
  }

  /** Finishing a set-up lays exactly one pipe per stage: edge number k leaves the stage at
      position k of the ring and enters the next one, so together they form the single cycle
      through all stages in route order. */
  lemma SetupBuildsTheRing(c: Config)
    ensures |SetupEdges(c)| == Size(c)
    ensures forall k: nat :: k < Size(c) ==> SetupEdges(c)[k] == (k, Succ(c, k))
  {
    var a := ChainEdges(0, IngressChain(c), Dest(c));
    var b := ChainEdges(Dest(c), EgressChain(c), 0);
    ChainEdgesAt(0, IngressChain(c), Dest(c), 0);
    ChainEdgesAt(Dest(c), EgressChain(c), 0, 0);
    forall k: nat | k < Size(c)
      ensures SetupEdges(c)[k] == (k, Succ(c, k))
    {
      if k <= c.ingress {
        ChainEdgesAt(0, IngressChain(c), Dest(c), k);
        assert SetupEdges(c)[k] == a[k];
      } else {
        ChainEdgesAt(Dest(c), EgressChain(c), 0, k - Dest(c));
        assert SetupEdges(c)[k] == b[k - Dest(c)];
      }
    }
  }

  /** On the streams of a session those edges are the pipes that `LayRing` adds. */
  lemma SetupLaysTheRing(s: State)
    requires |s.st| == Size(s.cfg)
    ensures forall e :: e in SetupEdges(s.cfg) ==> e.0 < |s.st| && e.1 < |s.st|
    ensures Streams(s.st, SetupEdges(s.cfg)) == RingPipes(s)
  {
    SetupBuildsTheRing(s.cfg);
  }
}
