/** The byte layout of flow keys and flow statistics (udp-offload.js), shared with the packed C
    structures of kernel-offload/udp_kernel_offload.c. */
module FlowCodec {
  import opened Basics

  type Byte = b: nat | b < 256

  function Pow256(k: nat): nat { if k == 0 then 1 else 256 * Pow256(k - 1) }

  // ---------------------------------------------------------------------------- byte strings

  function ToBE(n: nat, k: nat): (r: seq<Byte>)
    ensures |r| == k
  {
    if k == 0 then [] else ToBE(n / 256, k - 1) + [n % 256]
  }

  function FromBE(bs: seq<Byte>): nat {
    if bs == [] then 0 else 256 * FromBE(bs[..|bs| - 1]) + bs[|bs| - 1]
  }

  function ToLE(n: nat, k: nat): (r: seq<Byte>)
    ensures |r| == k
  {
    if k == 0 then [] else [n % 256] + ToLE(n / 256, k - 1)
  }

  function FromLE(bs: seq<Byte>): nat {
    if bs == [] then 0 else bs[0] + 256 * FromLE(bs[1..])
  }

  lemma {:induction false} BERoundTrip(n: nat, k: nat)
    ensures n < Pow256(k) ==> FromBE(ToBE(n, k)) == n
  {
    if k > 0 {
      BERoundTrip(n / 256, k - 1);
      var bs := ToBE(n, k);
      assert bs[..|bs| - 1] == ToBE(n / 256, k - 1);
      SmallerQuotient(n, Pow256(k - 1));
    }
  }

  lemma {:induction false} BEBack(bs: seq<Byte>)
    ensures FromBE(bs) < Pow256(|bs|) && ToBE(FromBE(bs), |bs|) == bs
  {
    if bs != [] {
      BEBack(bs[..|bs| - 1]);
      DivMod(FromBE(bs[..|bs| - 1]), bs[|bs| - 1]);
      assert bs == bs[..|bs| - 1] + [bs[|bs| - 1]];
    }
  }

  lemma {:induction false} LERoundTrip(n: nat, k: nat)
    ensures n < Pow256(k) ==> FromLE(ToLE(n, k)) == n
  {
    if k > 0 {
      LERoundTrip(n / 256, k - 1);
      var bs := ToLE(n, k);
      assert bs[1..] == ToLE(n / 256, k - 1);
      SmallerQuotient(n, Pow256(k - 1));
    }
  }

  lemma {:induction false} LEBack(bs: seq<Byte>)
    ensures FromLE(bs) < Pow256(|bs|) && ToLE(FromLE(bs), |bs|) == bs
  {
    if bs != [] {
      LEBack(bs[1..]);
      DivMod(FromLE(bs[1..]), bs[0]);
      assert bs == [bs[0]] + bs[1..];
    }
  }

  lemma SmallerQuotient(n: nat, p: nat)
    ensures n < 256 * p ==> n / 256 < p
  {
  }

  lemma DivMod(q: nat, r: Byte)
    ensures (256 * q + r) / 256 == q && (256 * q + r) % 256 == r
  {
  }

  // ----------------------------------------------------------------------------------- flows

  /** A 5-tuple; numbers may be out of range, as in the source. */
  datatype Flow = Flow(srcIp: int, srcPort: int, dstIp: int, dstPort: int, proto: int)

  const KEY_SIZE := 16

  predicate InRange(f: Flow) {
    0 <= f.srcIp < 0x1_0000_0000 && 0 <= f.dstIp < 0x1_0000_0000 &&
    0 <= f.srcPort < 0x1_0000 && 0 <= f.dstPort < 0x1_0000 && 0 <= f.proto < 0x1_0000_0000
  }

  /** Addresses and ports in network order, the protocol in host order; None is the RangeError
      of a buffer write. */
  function ToBuffer(f: Flow): (r: Option<seq<Byte>>)
    ensures r.Some? ==> |r.value| == KEY_SIZE
  {
    if !InRange(f) then None
    else Some(ToBE(f.srcIp, 4) + ToBE(f.dstIp, 4) + ToBE(f.srcPort, 2) + ToBE(f.dstPort, 2) + ToLE(f.proto, 4))
  }

  function FromBuffer(b: seq<Byte>): Option<Flow> {
    if |b| < KEY_SIZE then None
    else Some(Flow(FromBE(b[0..4]), FromBE(b[8..10]), FromBE(b[4..8]), FromBE(b[10..12]), FromLE(b[12..16])))
  }

  lemma Powers()
    ensures Pow256(2) == 0x1_0000 && Pow256(4) == 0x1_0000_0000 && Pow256(8) == 0x1_0000_0000_0000_0000
  {
    assert Pow256(0) == 1 && Pow256(1) == 256 && Pow256(2) == 0x1_0000 && Pow256(3) == 0x100_0000;
    assert Pow256(4) == 0x1_0000_0000 && Pow256(5) == 0x100_0000_0000 && Pow256(6) == 0x1_0000_0000_0000;
    assert Pow256(7) == 0x100_0000_0000_0000;
  }

  lemma Cut(x: seq<Byte>, y: seq<Byte>, i: nat, j: nat)
    requires i <= j <= |y|
    ensures (x + y)[..|x|] == x
    ensures (x + y)[|x| + i..|x| + j] == y[i..j]
  {
  }

  /** The parts of a key, read back by position. */
  lemma Parts(p: seq<Byte>, q: seq<Byte>, r: seq<Byte>, s: seq<Byte>, t: seq<Byte>)
    requires |p| == 4 && |q| == 4 && |r| == 2 && |s| == 2 && |t| == 4
    ensures var b := p + q + r + s + t;
      b[0..4] == p && b[4..8] == q && b[8..10] == r && b[10..12] == s && b[12..16] == t
  {
    var b := p + q + r + s + t;
    assert b == p + (q + r + s + t);
    assert b == (p + q) + (r + s + t);
    assert b == (p + q + r) + (s + t);
    Cut(p, q + r + s + t, 0, 4);
    Cut(p + q, r + s + t, 0, 2);
    Cut(p + q + r, s + t, 0, 2);
    Cut(p + q + r + s, t, 0, 4);
  }

  /** Decoding an encoded 5-tuple gives it back. */
  lemma FlowRoundTrip(f: Flow)
    requires InRange(f)
    ensures FromBuffer(ToBuffer(f).value) == Some(f)
  {
    Powers();
    BERoundTrip(f.srcIp, 4);
    BERoundTrip(f.dstIp, 4);
    BERoundTrip(f.srcPort, 2);
    BERoundTrip(f.dstPort, 2);
    LERoundTrip(f.proto, 4);
    Parts(ToBE(f.srcIp, 4), ToBE(f.dstIp, 4), ToBE(f.srcPort, 2), ToBE(f.dstPort, 2), ToLE(f.proto, 4));
  }

  function TwoByteNumber(high: nat, low: nat): nat { 0x100 * high + low }

  function FourByteNumber(a: nat, b: nat, c: nat, d: nat): nat { 0x100_0000 * a + 0x1_0000 * b + 0x100 * c + d }

  /** The bytes of a key, one by one: source address, destination address, source port and
      destination port most significant byte first, the protocol least significant first. */
  lemma FlowLayout(f: Flow)
    requires InRange(f)
    ensures var b := ToBuffer(f).value;
      && f.srcIp == FourByteNumber(b[0], b[1], b[2], b[3])
      && f.dstIp == FourByteNumber(b[4], b[5], b[6], b[7])
      && f.srcPort == TwoByteNumber(b[8], b[9])
      && f.dstPort == TwoByteNumber(b[10], b[11])
      && f.proto == FourByteNumber(b[15], b[14], b[13], b[12])
  {
    FlowRoundTrip(f);
    var b := ToBuffer(f).value;
    FourBytes(b[0..4]);
    FourBytes(b[4..8]);
    TwoBytes(b[8..10]);
    TwoBytes(b[10..12]);
    FourBytes(b[12..16]);
  }

  lemma TwoBytes(b: seq<Byte>)
    requires |b| == 2
    ensures FromBE(b) == TwoByteNumber(b[0], b[1])
  {
    assert FromBE(b[..1]) == 256 * FromBE(b[..1][..0]) + b[0];
  }

  lemma FourBytes(b: seq<Byte>)
    requires |b| == 4
    ensures FromBE(b) == FourByteNumber(b[0], b[1], b[2], b[3])
    ensures FromLE(b) == FourByteNumber(b[3], b[2], b[1], b[0])
  {
    TwoBytes(b[..2]);
    assert b[..3][..2] == b[..2] && FromBE(b[..3]) == 256 * FromBE(b[..2]) + b[2];
    assert b[1..][1..] == b[2..] && b[2..][1..] == b[3..] && b[3..][1..] == [];
    assert FromLE(b[3..]) == b[3] && FromLE(b[2..]) == b[2] + 256 * FromLE(b[3..]);
    assert FromLE(b[1..]) == b[1] + 256 * FromLE(b[2..]);
  }

  lemma Rejoin(b: seq<Byte>)
    requires |b| == KEY_SIZE
    ensures b == b[0..4] + b[4..8] + b[8..10] + b[10..12] + b[12..16]
  {
    assert b[..8] == b[0..4] + b[4..8];
    assert b[..10] == b[..8] + b[8..10];
    assert b[..12] == b[..10] + b[10..12];
    assert b == b[..12] + b[12..16];
  }

  /** Every 16-byte key is the encoding of exactly one 5-tuple. */
  lemma BufferRoundTrip(b: seq<Byte>)
    requires |b| == KEY_SIZE
    ensures InRange(FromBuffer(b).value) && ToBuffer(FromBuffer(b).value) == Some(b)
  {
    Powers();
    BEBack(b[0..4]);
    BEBack(b[4..8]);
    BEBack(b[8..10]);
    BEBack(b[10..12]);
    LEBack(b[12..16]);
    Rejoin(b);
  }

  lemma EncodingInjective(f: Flow, g: Flow)
    requires InRange(f) && ToBuffer(f) == ToBuffer(g)
    ensures f == g
  {
    FlowRoundTrip(f);
    FlowRoundTrip(g);
  }

  // ------------------------------------------------------------------------------ statistics

  datatype Stat = Stat(pkts: nat, bytes: nat, timestamp: nat)

  const STAT_SIZE := 24

  predicate StatInRange(s: Stat) { s.pkts < U64 && s.bytes < U64 && s.timestamp < U64 }

  function StatToBuffer(s: Stat): (r: Option<seq<Byte>>)
    ensures r.Some? ==> |r.value| == STAT_SIZE
  {
    if !StatInRange(s) then None else Some(ToLE(s.pkts, 8) + ToLE(s.bytes, 8) + ToLE(s.timestamp, 8))
  }

  function StatFromBuffer(b: seq<Byte>): Option<Stat> {
    if |b| < STAT_SIZE then None else Some(Stat(FromLE(b[0..8]), FromLE(b[8..16]), FromLE(b[16..24])))
  }

  lemma StatRoundTrip(s: Stat)
    requires StatInRange(s)
    ensures StatFromBuffer(StatToBuffer(s).value) == Some(s)
  {
    Powers();
    LERoundTrip(s.pkts, 8);
    LERoundTrip(s.bytes, 8);
    LERoundTrip(s.timestamp, 8);
    var b := StatToBuffer(s).value;
    assert b[0..8] == ToLE(s.pkts, 8) && b[8..16] == ToLE(s.bytes, 8) && b[16..24] == ToLE(s.timestamp, 8);
  }

  /** Packets, bytes and the timestamp are little-endian 64-bit numbers at offsets 0, 8 and 16. */
  lemma StatLayout(s: Stat)
    requires StatInRange(s)
    ensures var b := StatToBuffer(s).value;
      s.pkts == Little(b, 0) && s.bytes == Little(b, 8) && s.timestamp == Little(b, 16)
  {
    StatRoundTrip(s);
    var b := StatToBuffer(s).value;
    EightBytes(b, 0);
    EightBytes(b, 8);
    EightBytes(b, 16);
  }

  function Little(b: seq<Byte>, i: nat): nat
    requires i + 8 <= |b|
  {
    FourByteNumber(b[i + 3], b[i + 2], b[i + 1], b[i]) +
    0x1_0000_0000 * FourByteNumber(b[i + 7], b[i + 6], b[i + 5], b[i + 4])
  }

  lemma EightBytes(b: seq<Byte>, i: nat)
    requires i + 8 <= |b|
    ensures FromLE(b[i..i + 8]) == Little(b, i)
  {
    var w := b[i..i + 8];
    FourBytes(w[4..]);
    assert w[1..][1..] == w[2..] && w[2..][1..] == w[3..] && w[3..][1..] == w[4..];
    assert FromLE(w[3..]) == w[3] + 256 * FromLE(w[4..]);
    assert FromLE(w[2..]) == w[2] + 256 * FromLE(w[3..]);
    assert FromLE(w[1..]) == w[1] + 256 * FromLE(w[2..]);
  }

  lemma StatBufferRoundTrip(b: seq<Byte>)
    requires |b| == STAT_SIZE
    ensures StatInRange(StatFromBuffer(b).value) && StatToBuffer(StatFromBuffer(b).value) == Some(b)
  {
    Powers();
    LEBack(b[0..8]);
    LEBack(b[8..16]);
    LEBack(b[16..24]);
    assert b == b[0..8] + b[8..16] + b[16..24];
  }

  lemma {:induction false} ZeroBytes(b: seq<Byte>)
    requires forall i :: 0 <= i < |b| ==> b[i] == 0
    ensures FromLE(b) == 0
  {
    if b != [] {
      ZeroBytes(b[1..]);
    }
  }

  /** A buffer of zeros is the statistics of a flow without traffic. */
  lemma ZeroStat(b: seq<Byte>)
    requires |b| == STAT_SIZE && forall i :: 0 <= i < |b| ==> b[i] == 0
    ensures StatFromBuffer(b) == Some(Stat(0, 0, 0))
  {
    ZeroBytes(b[0..8]);
    ZeroBytes(b[8..16]);
    ZeroBytes(b[16..24]);
  }

  // ----------------------------------------------------------------------------- the classes

  /** A write of several bytes at an offset of a buffer. */
  method WriteAt(buf: array<Byte>, offset: nat, bytes: seq<Byte>)
    requires offset + |bytes| <= buf.Length
    modifies buf
    ensures forall k :: offset <= k < offset + |bytes| ==> buf[k] == bytes[k - offset]
    ensures forall k :: 0 <= k < buf.Length && !(offset <= k < offset + |bytes|) ==> buf[k] == old(buf[k])
  {
    var i := 0;
    while i < |bytes|
      invariant 0 <= i <= |bytes|
      invariant forall k :: offset <= k < offset + i ==> buf[k] == bytes[k - offset]
      invariant forall k :: 0 <= k < buf.Length && !(offset <= k < offset + i) ==> buf[k] == old(buf[k])
    {
      buf[offset + i] := bytes[i];
      i := i + 1;
    }
  }

  method WriteParts(buf: array<Byte>, p: seq<Byte>, q: seq<Byte>, r: seq<Byte>, s: seq<Byte>, t: seq<Byte>)
    requires buf.Length == 16 && |p| == 4 && |q| == 4 && |r| == 2 && |s| == 2 && |t| == 4
    modifies buf
    ensures buf[..] == p + q + r + s + t
  {
    WriteAt(buf, 0, p);
    WriteAt(buf, 4, q);
    WriteAt(buf, 8, r);
    WriteAt(buf, 10, s);
    WriteAt(buf, 12, t);
    assert buf[..4] == p;
    assert buf[..8] == buf[..4] + q;
    assert buf[..10] == buf[..8] + r;
    assert buf[..12] == buf[..10] + s;
    assert buf[..] == buf[..12] + t;
  }

  class FlowObject {
    var srcIp: int
    var srcPort: int
    var dstIp: int
    var dstPort: int
    var proto: int

    function View(): Flow
      reads this
    {
      Flow(srcIp, srcPort, dstIp, dstPort, proto)
    }

    constructor (f: Flow)
      ensures View() == f
    {
      srcIp, srcPort, dstIp, dstPort, proto := f.srcIp, f.srcPort, f.dstIp, f.dstPort, f.proto;
    }

    /** Null is the RangeError. */
    method Encode() returns (buf: array?<Byte>)
      ensures buf == null <==> ToBuffer(View()) == None
      ensures buf != null ==> fresh(buf) && Some(buf[..]) == ToBuffer(View())
    {
      if !InRange(View()) {
        return null;
      }
      var b := new Byte[KEY_SIZE](i => 0);
      WriteParts(b, ToBE(srcIp, 4), ToBE(dstIp, 4), ToBE(srcPort, 2), ToBE(dstPort, 2), ToLE(proto, 4));
      return b;
    }

    method Decode(buffer: array<Byte>) returns (ok: bool)
      modifies this
      ensures ok <==> FromBuffer(buffer[..]).Some?
      ensures ok ==> View() == FromBuffer(buffer[..]).value
    {
      if buffer.Length < KEY_SIZE {
        return false;
      }
      srcIp := FromBE(buffer[0..4]);
      dstIp := FromBE(buffer[4..8]);
      srcPort := FromBE(buffer[8..10]);
      dstPort := FromBE(buffer[10..12]);
      proto := FromLE(buffer[12..16]);
      ok := true;
      var b := buffer[..];
      assert b[0..4] == buffer[0..4] && b[4..8] == buffer[4..8] && b[8..10] == buffer[8..10];
      assert b[10..12] == buffer[10..12] && b[12..16] == buffer[12..16];
    }
  }
}
