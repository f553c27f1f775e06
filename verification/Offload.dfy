/** The kernel fast path of a pipe between two UDP stages: flow maps kept by user space
    (udp-offload.js, session.js), packets rewritten by the kernel program
    (kernel-offload/udp_kernel_offload.c), and the user-space pipe they stand for. */
module Offload {
  import opened Basics
  import opened FlowCodec
  import K = Checksum

  // --------------------------------------------------------------------------------- packets

  type Packet = seq<Byte>

  /** Ethernet, IPv4 without options, UDP. */
  const HEADERS := 42

  const UDP := 17

  function EtherType(p: Packet): nat
    requires |p| >= HEADERS
  {
    256 * (p[12] as nat) + p[13] as nat
  }

  /** A packet that the kernel program looks at. */
  predicate IsUdp(p: Packet) { |p| >= HEADERS && EtherType(p) == 0x0800 && p[23] == UDP }

  /** The 5-tuple as a reader of the packet sees it. */
  function FlowOf(p: Packet): Flow
    requires |p| >= HEADERS
  {
    Flow(FromBE(p[26..30]), FromBE(p[34..36]), FromBE(p[30..34]), FromBE(p[36..38]), UDP)
  }

  function Payload(p: Packet): seq<Byte>
    requires |p| >= HEADERS
  {
    p[HEADERS..]
  }

  /** The packed `flow_id` that the kernel program fills from the raw packet. */
  function KeyOf(p: Packet): seq<Byte>
    requires |p| >= HEADERS
  {
    p[26..30] + p[30..34] + p[34..36] + p[36..38] + [UDP, 0, 0, 0]
  }

  /** The bytes user space writes for a flow and the bytes the kernel program reads from a
      packet are the same exactly when the 5-tuples are. */
  lemma KeysAgree(p: Packet, f: Flow)
    requires |p| >= HEADERS
    ensures |KeyOf(p)| == KEY_SIZE
    ensures ToBuffer(f) == Some(KeyOf(p)) <==> f == FlowOf(p)
    ensures InRange(FlowOf(p))
  {
    var k := KeyOf(p);
    Parts(p[26..30], p[30..34], p[34..36], p[36..38], [UDP, 0, 0, 0]);
    assert FromLE([UDP, 0, 0, 0]) == UDP by {
      ZeroBytes([UDP, 0, 0, 0][1..]);
    }
    assert FromBuffer(k) == Some(FlowOf(p));
    BufferRoundTrip(k);
    if ToBuffer(f) == Some(k) {
      FlowRoundTrip(f);
    }
  }

  // ------------------------------------------------------------------------ header rewriting

  /** The four fields of the 5-tuple, taken from a redirect entry. */
  function Rewrite(p: Packet, v: seq<Byte>): (q: Packet)
    requires |p| >= HEADERS && |v| == KEY_SIZE
    ensures |q| == |p|
  {
    p[..26] + v[0..4] + v[4..8] + v[8..10] + v[10..12] + p[38..]
  }

  /** A 16-bit field as a little-endian host reads it. */
  function WordAt(p: Packet, i: nat): K.Word
    requires i + 1 < |p|
  {
    p[i] as nat + 256 * (p[i + 1] as nat)
  }

  function SetWord(p: Packet, i: nat, w: K.Word): (q: Packet)
    requires i + 1 < |p|
    ensures |q| == |p|
  {
    p[i := w % 256][i + 1 := w / 256]
  }

  /** The ten words of the IPv4 header. */
  function Header(p: Packet): seq<K.Word>
    requires |p| >= HEADERS
  {
    seq(10, i requires 0 <= i < 10 => WordAt(p, 14 + 2 * i))
  }

  /** The packet that `ipv4_csum` is computed over: new 5-tuple, checksum zero. */
  function Cleared(p: Packet, v: seq<Byte>): (q: Packet)
    requires |p| >= HEADERS && |v| == KEY_SIZE
    ensures |q| == |p|
  {
    SetWord(Rewrite(p, v), 24, 0)
  }

  /** Both checksums set: the IPv4 one from the sum, the UDP one to zero. */
  function Summed(q: Packet, diff: nat): (r: Packet)
    requires |q| >= HEADERS
    ensures |r| == |q|
  {
    SetWord(SetWord(q, 24, K.Finish(K.Fold(diff, K.FOLDS))), 40, 0)
  }

  function LowerTtl(p: Packet): (q: Packet)
    requires |p| >= HEADERS
    ensures |q| == |p|
  {
    SetWord(p, 24, K.DecreasedCheck(WordAt(p, 24)))[22 := K.DecreasedTtl(p[22])]
  }

  /** What the route lookup answers: the next hop's and the own link address; or that the packet
      is to be dropped; or that it is left to the stack. */
  datatype Fib = Success(dmac: seq<Byte>, smac: seq<Byte>) | Drop | Pass

  datatype Action = Ok | Shot | Redirect

  datatype Verdict = Verdict(packet: Packet, action: Action, accounted: bool)

  predicate Macs(fib: Fib) { fib.Success? ==> |fib.dmac| == 6 && |fib.smac| == 6 }

  /** The kernel program, up to accounting. */
  function Process(p: Packet, redirects: map<seq<Byte>, seq<Byte>>, diff: nat, fib: Fib): Verdict
    requires Macs(fib) && (forall k :: k in redirects ==> |redirects[k]| == KEY_SIZE)
  {
    if !IsUdp(p) || KeyOf(p) !in redirects then Verdict(p, Ok, false)
    else
      var q := Summed(Cleared(p, redirects[KeyOf(p)]), diff);
      match fib
      case Success(d, s) => Verdict(d + s + LowerTtl(q)[12..], Redirect, true)
      case Drop => Verdict(q, Shot, false)
      case Pass => Verdict(q, Ok, true)
  }

  // -------------------------------------------------------- what rewriting does to the header

  lemma RewriteFields(p: Packet, v: seq<Byte>)
    requires |p| >= HEADERS && |v| == KEY_SIZE
    ensures var q := Rewrite(p, v);
      && q[26..30] == v[0..4] && q[30..34] == v[4..8] && q[34..36] == v[8..10] && q[36..38] == v[10..12]
      && q[..26] == p[..26] && q[38..] == p[38..]
  {
    var q := Rewrite(p, v);
    assert q[..26] == p[..26];
    assert q[26..30] == v[0..4];
    assert q[30..34] == v[4..8];
    assert q[34..36] == v[8..10];
    assert q[36..38] == v[10..12];
    assert q[38..] == p[38..];
  }

  lemma FlowUnaffected(p: Packet, q: Packet)
    requires |p| >= HEADERS && |q| == |p|
    requires forall i :: 26 <= i < 38 || HEADERS <= i < |p| ==> q[i] == p[i]
    ensures FlowOf(q) == FlowOf(p) && Payload(q) == Payload(p)
  {
    assert q[26..30] == p[26..30] && q[30..34] == p[30..34];
    assert q[34..36] == p[34..36] && q[36..38] == p[36..38];
    assert q[HEADERS..] == p[HEADERS..];
  }

  /** A redirected packet leaves with the redirect entry's 5-tuple and its own payload. */
  lemma ProcessRedirects(p: Packet, redirects: map<seq<Byte>, seq<Byte>>, diff: nat, fib: Fib, g: Flow)
    requires Macs(fib) && (forall k :: k in redirects ==> |redirects[k]| == KEY_SIZE)
    requires IsUdp(p) && KeyOf(p) in redirects && ToBuffer(g) == Some(redirects[KeyOf(p)]) && g.proto == UDP
    ensures var q := Process(p, redirects, diff, fib).packet;
      |q| == |p| && FlowOf(q) == g && Payload(q) == Payload(p)
  {
    var v := redirects[KeyOf(p)];
    var r := Rewrite(p, v);
    RewriteFields(p, v);
    FlowRoundTrip(g);
    assert FlowOf(r) == g;
    assert Payload(r) == Payload(p) by { assert r[38..][4..] == p[38..][4..]; }
    FlowUnaffected(r, Process(p, redirects, diff, fib).packet);
  }

  // ------------------------------------------------------------------- every byte of a packet

  /** The kernel program looks at a packet exactly when it is long enough, says IPv4 (0x0800 at
      byte 12) and UDP (17 at byte 23), and its 5-tuple has a redirect entry; the entry is looked
      up by source address, destination address, source port, destination port and protocol. */
  lemma LooksAt(p: Packet, redirects: map<seq<Byte>, seq<Byte>>, diff: nat, fib: Fib)
    requires Macs(fib) && (forall k :: k in redirects ==> |redirects[k]| == KEY_SIZE)
    ensures var v := Process(p, redirects, diff, fib);
      if |p| >= 42 && p[12] == 8 && p[13] == 0 && p[23] == 17
         && p[26..30] + p[30..34] + p[34..36] + p[36..38] + [17, 0, 0, 0] in redirects
      then v.action == (match fib case Success(_, _) => Redirect case Drop => Shot case Pass => Ok)
           && (v.accounted <==> !fib.Drop?)
      else v == Verdict(p, Ok, false)
  {
  }

  /** What a redirected packet p leaves as, byte by byte: link addresses and TTL as routed, the
      5-tuple v, no UDP checksum, and all else but the IPv4 checksum (bytes 24 and 25) as it was. */
  predicate Rewritten(p: Packet, q: Packet, v: seq<Byte>, fib: Fib)
    requires |p| >= 42 && |v| >= 12
  {
    && |q| == |p|
    && q[26..38] == v[0..12]
    && q[40] == 0 && q[41] == 0
    && q[12..14] == p[12..14]
    && (forall i :: 14 <= i < |p| && i != 22 && !(24 <= i < 38) && i != 40 && i != 41 ==> q[i] == p[i])
    && (match fib
        case Success(dmac, smac) =>
          q[0..6] == dmac && q[6..12] == smac && q[22] == (if p[22] == 0 then 255 else p[22] - 1)
        case _ => q[..14] == p[..14] && q[22] == p[22])
  }

  lemma SummedBytes(p: Packet, v: seq<Byte>, diff: nat)
    requires |p| >= HEADERS && |v| == KEY_SIZE
    ensures Rewritten(p, Summed(Cleared(p, v), diff), v, Pass)
  {
    var r, q := Rewrite(p, v), Summed(Cleared(p, v), diff);
    assert forall i :: 0 <= i < |p| && !(24 <= i < 26) && i != 40 && i != 41 ==> q[i] == r[i];
    RewriteFields(p, v);
    assert forall i :: 0 <= i < 26 ==> r[i] == p[i];
    assert forall i :: 38 <= i < |p| ==> r[i] == p[i];
    assert r[26..38] == v[0..12];
    assert q[26..38] == r[26..38];
    assert q[..14] == p[..14] && q[12..14] == p[12..14];
  }

  lemma RoutedBytes(p: Packet, q: Packet, v: seq<Byte>, fib: Fib)
    requires |p| >= HEADERS && |v| == KEY_SIZE && Macs(fib) && fib.Success? && Rewritten(p, q, v, Pass)
    ensures Rewritten(p, fib.dmac + fib.smac + LowerTtl(q)[12..], v, fib)
  {
    var l := LowerTtl(q);
    var t := fib.dmac + fib.smac + l[12..];
    assert forall i :: 12 <= i < |p| ==> t[i] == l[i];
    assert forall i :: 0 <= i < |p| && i != 22 && i != 24 && i != 25 ==> l[i] == q[i];
    assert t[26..38] == q[26..38] && t[12..14] == q[12..14];
    assert t[0..6] == fib.dmac && t[6..12] == fib.smac;
  }

  /** Every byte of a redirected packet. */
  lemma ProcessBytes(p: Packet, redirects: map<seq<Byte>, seq<Byte>>, diff: nat, fib: Fib)
    requires Macs(fib) && (forall k :: k in redirects ==> |redirects[k]| == KEY_SIZE)
    requires IsUdp(p) && KeyOf(p) in redirects
    ensures Rewritten(p, Process(p, redirects, diff, fib).packet, redirects[KeyOf(p)], fib)
  {
    var v := redirects[KeyOf(p)];
    SummedBytes(p, v, diff);
    if fib.Success? {
      RoutedBytes(p, Summed(Cleared(p, v), diff), v, fib);
    }
  }

  // -------------------------------------------------------------------- the header still checks

  lemma HeaderUpdate(p: Packet, i: nat, w: K.Word)
    requires |p| >= HEADERS && i < 10
    ensures Header(SetWord(p, 14 + 2 * i, w)) == Header(p)[i := w]
  {
    var q := SetWord(p, 14 + 2 * i, w);
    assert WordAt(q, 14 + 2 * i) == w;
    forall j | 0 <= j < 10 && j != i
      ensures WordAt(q, 14 + 2 * j) == WordAt(p, 14 + 2 * j)
    {
    }
  }

  lemma HeaderSame(p: Packet, q: Packet)
    requires |p| >= HEADERS && |q| == |p| && forall i :: 14 <= i < 34 ==> q[i] == p[i]
    ensures Header(q) == Header(p)
  {
  }

  /** Version 4 without options. */
  predicate PlainIPv4(p: Packet) { |p| >= HEADERS && p[14] == 0x45 }

  /** Whatever 64-bit sum `bpf_csum_diff` returns, the recomputed header checks. */
  lemma SummedChecks(p: Packet, v: seq<Byte>, diff: nat)
    requires PlainIPv4(p) && |v| == KEY_SIZE && K.CsumDiff(diff, Header(Cleared(p, v)))
    ensures K.Checks(Header(Summed(Cleared(p, v), diff)))
  {
    var q := Cleared(p, v);
    var h := Header(q);
    RewriteFields(p, v);
    assert q[14] == 0x45 by { assert Rewrite(p, v)[..26][14] == p[..26][14]; }
    assert h[0] > 0;
    K.SumUpdate(h, 0, 0);
    K.RecomputedChecks(h, 5, diff);
    HeaderUpdate(q, 5, K.Finish(K.Fold(diff, K.FOLDS)));
    var r := SetWord(q, 24, K.Finish(K.Fold(diff, K.FOLDS)));
    HeaderSame(r, Summed(q, diff));
  }

  /** Lowering the TTL keeps the header checking exactly when the TTL was at least 1. */
  lemma LowerTtlChecks(p: Packet)
    requires PlainIPv4(p) && K.Checks(Header(p))
    ensures K.Checks(Header(LowerTtl(p))) <==> p[22] >= 1
  {
    var h := Header(p);
    assert h[4] == K.TtlWord(p[22], p[23]) && h[0] > 0;
    K.TtlKeepsChecking(h, 4, 5, p[22], p[23]);
    var w := K.TtlWord(K.DecreasedTtl(p[22]), p[23]);
    var q := SetWord(p, 22, w);
    HeaderUpdate(p, 4, w);
    HeaderUpdate(q, 5, K.DecreasedCheck(h[5]));
    LowBytes(w, K.DecreasedTtl(p[22]), p[23]);
    assert WordAt(p, 24) == h[5];
    HeaderSame(SetWord(q, 24, K.DecreasedCheck(h[5])), LowerTtl(p));
  }

  lemma LowBytes(w: nat, low: Byte, high: Byte)
    requires w == low + 256 * high
    ensures w % 256 == low && w / 256 == high
  {
  }

  /** Every packet that the program passes on has a header that checks, in either byte order,
      except one whose TTL was already zero when it was routed. */
  lemma ProcessChecks(p: Packet, redirects: map<seq<Byte>, seq<Byte>>, diff: nat, fib: Fib)
    requires Macs(fib) && (forall k :: k in redirects ==> |redirects[k]| == KEY_SIZE)
    requires IsUdp(p) && PlainIPv4(p) && KeyOf(p) in redirects
    requires K.CsumDiff(diff, Header(Cleared(p, redirects[KeyOf(p)])))
    ensures var h := Header(Process(p, redirects, diff, fib).packet);
      && (K.Checks(h) <==> !(fib.Success? && p[22] == 0))
      && (K.Checks(K.SwapAll(h)) <==> K.Checks(h))
  {
    var v := redirects[KeyOf(p)];
    var q := Summed(Cleared(p, v), diff);
    SummedChecks(p, v, diff);
    RewriteFields(p, v);
    assert q[14] == p[14] && q[22] == p[22] by {
      assert Rewrite(p, v)[..26][14] == p[..26][14] && Rewrite(p, v)[..26][22] == p[..26][22];
    }
    LowerTtlChecks(q);
    var r := Process(p, redirects, diff, fib).packet;
    if fib.Success? {
      HeaderSame(LowerTtl(q), r);
    }
    K.ByteOrderIndependent(Header(r));
  }
}
