/** The offload as the programs run it: maps updated in place, packets rewritten in place. */
module OffloadObject {
  import opened Basics
  import opened FlowCodec
  import opened Offload
  import opened OffloadRuns
  import K = Checksum

  class UDPOffload {
    var redirectsMap: map<seq<Byte>, seq<Byte>>
    var statisticsMap: map<seq<Byte>, Stat>

    function View(): Maps
      reads this
    {
      Maps(redirectsMap, statisticsMap)
    }

    constructor ()
      ensures View() == NO_FLOWS
    {
      redirectsMap, statisticsMap := map[], map[];
    }

    method SetOffload(inFlow: FlowObject, redirFlow: FlowObject?, action: string) returns (err: Option<Error>)
      modifies this
      ensures (View(), err) ==
              OffloadRuns.SetOffload(old(View()), inFlow.View(),
                                     if redirFlow == null then None else Some(redirFlow.View()), action)
    {
      var key := inFlow.Encode();
      if key == null {
        return Some(RangeError);
      }
      var k := key[..];
      if action == "create" {
        statisticsMap := statisticsMap[k := Stat(0, 0, 0)];
        if redirFlow == null {
          return Some(TypeError);
        }
        var value := redirFlow.Encode();
        if value == null {
          return Some(RangeError);
        }
        redirectsMap := redirectsMap[k := value[..]];
      } else if action == "remove" {
        redirectsMap := redirectsMap - {k};
        statisticsMap := statisticsMap - {k};
      } else {
        return Some(InvalidAction);
      }
      err := None;
    }

    method GetStat(inFlow: FlowObject) returns (s: Option<Stat>)
      ensures s == OffloadRuns.GetStat(View(), inFlow.View())
    {
      var key := inFlow.Encode();
      if key == null || key[..] !in statisticsMap {
        return None;
      }
      s := Some(statisticsMap[key[..]]);
    }

    /** The accounting at the end of the kernel program. */
    method AccountPacket(k: seq<Byte>, length: nat, now: nat)
      modifies this`statisticsMap
      ensures statisticsMap == Account(old(statisticsMap), k, length, now)
    {
      if k in statisticsMap {
        var s := statisticsMap[k];
        statisticsMap := statisticsMap[k := Stat((s.pkts + 1) % U64, (s.bytes + length) % U64, now)];
      } else {
        statisticsMap := statisticsMap[k := Stat(1, length, now)];
      }
    }
  }

  // ------------------------------------------------------------------------- in-place edits

  function Overwrite(p: seq<Byte>, offset: nat, bs: seq<Byte>): (q: seq<Byte>)
    requires offset + |bs| <= |p|
    ensures |q| == |p|
  {
    p[..offset] + bs + p[offset + |bs|..]
  }

  method Put(buf: array<Byte>, offset: nat, bs: seq<Byte>)
    requires offset + |bs| <= buf.Length
    modifies buf
    ensures buf[..] == Overwrite(old(buf[..]), offset, bs)
  {
    WriteAt(buf, offset, bs);
  }

  method PutWord(buf: array<Byte>, i: nat, w: K.Word)
    requires i + 1 < buf.Length
    modifies buf
    ensures buf[..] == SetWord(old(buf[..]), i, w)
  {
    buf[i] := w % 256;
    buf[i + 1] := w / 256;
  }

  /** Writing the four fields one after the other is the rewrite. */
  lemma OverwriteFields(p: Packet, v: seq<Byte>)
    requires |p| >= HEADERS && |v| == KEY_SIZE
    ensures Overwrite(Overwrite(Overwrite(Overwrite(p, 26, v[0..4]), 30, v[4..8]), 34, v[8..10]), 36, v[10..12])
            == Rewrite(p, v)
  {
    var a := Overwrite(p, 26, v[0..4]);
    var b := Overwrite(a, 30, v[4..8]);
    var c := Overwrite(b, 34, v[8..10]);
    var d := Overwrite(c, 36, v[10..12]);
    assert a[..30] == p[..26] + v[0..4] && a[30..] == p[30..];
    assert b[..34] == a[..30] + v[4..8] && b[34..] == p[34..];
    assert c[..36] == b[..34] + v[8..10] && c[36..] == p[36..];
    assert d[..38] == c[..36] + v[10..12] && d[38..] == p[38..];
    assert d == d[..38] + d[38..];
  }

  method ReplaceFlow(pkt: array<Byte>, v: seq<Byte>)
    requires pkt.Length >= HEADERS && |v| == KEY_SIZE
    modifies pkt
    ensures pkt[..] == Rewrite(old(pkt[..]), v)
  {
    OverwriteFields(pkt[..], v);
    Put(pkt, 26, v[0..4]);
    Put(pkt, 30, v[4..8]);
    Put(pkt, 34, v[8..10]);
    Put(pkt, 36, v[10..12]);
  }

  method RewriteAndSum(pkt: array<Byte>, v: seq<Byte>, diff: nat)
    requires pkt.Length >= HEADERS && |v| == KEY_SIZE
    modifies pkt
    ensures pkt[..] == Summed(Cleared(old(pkt[..]), v), diff)
  {
    ReplaceFlow(pkt, v);
    PutWord(pkt, 24, 0);
    var csum := K.CsumFoldHelper(diff);
    PutWord(pkt, 24, csum);
    PutWord(pkt, 40, 0);
  }

  method DecreaseTtl(pkt: array<Byte>)
    requires pkt.Length >= HEADERS
    modifies pkt
    ensures pkt[..] == LowerTtl(old(pkt[..]))
  {
    var check := WordAt(pkt[..], 24);
    PutWord(pkt, 24, K.DecreasedCheck(check));
    pkt[22] := if pkt[22] == 0 then 255 else pkt[22] - 1;
  }

  method SetLinkAddresses(pkt: array<Byte>, dmac: seq<Byte>, smac: seq<Byte>)
    requires pkt.Length >= HEADERS && |dmac| == 6 && |smac| == 6
    modifies pkt
    ensures pkt[..] == dmac + smac + old(pkt[..])[12..]
  {
    Put(pkt, 0, dmac);
    Put(pkt, 6, smac);
  }

  /** The kernel program on a packet buffer; `diff` is what `bpf_csum_diff` returns, `fib` what
      the route lookup returns. */
  method Sidecar(pkt: array<Byte>, maps: UDPOffload, diff: nat, fib: Fib, now: nat) returns (action: Action)
    requires Sized(maps.View()) && Macs(fib)
    modifies pkt, maps`statisticsMap
    ensures pkt[..] == Process(old(pkt[..]), old(maps.redirectsMap), diff, fib).packet
    ensures action == Process(old(pkt[..]), old(maps.redirectsMap), diff, fib).action
    ensures maps.View() == Step(old(maps.View()), Seen(old(pkt[..]), diff, fib, now))
  {
    if pkt.Length < HEADERS || 256 * (pkt[12] as nat) + pkt[13] as nat != 0x0800 || pkt[23] != UDP {
      return Ok;
    }
    var key := KeyOf(pkt[..]);
    if key !in maps.redirectsMap {
      return Ok;
    }
    RewriteAndSum(pkt, maps.redirectsMap[key], diff);
    action := Ok;
    match fib {
      case Success(dmac, smac) =>
        DecreaseTtl(pkt);
        SetLinkAddresses(pkt, dmac, smac);
        action := Redirect;
      case Drop =>
        action := Shot;
      case Pass =>
    }
    if action != Shot {
      maps.AccountPacket(key, pkt.Length, now);
    }
  }
}
