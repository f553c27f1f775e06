/** Runs of the offload: pipes created and removed in user space, packets seen by the kernel. */
module OffloadRuns {
  import opened Basics
  import opened FlowCodec
  import opened Offload
  import K = Checksum

  /** The two maps that user space and the kernel share. */
  datatype Maps = Maps(redirects: map<seq<Byte>, seq<Byte>>, stats: map<seq<Byte>, Stat>)

  const NO_FLOWS := Maps(map[], map[])

  datatype Error = RangeError | TypeError | InvalidAction

  /** `setOffload`: the statistics entry is made before the redirect flow is encoded, so an
      error there leaves it behind. */
  function SetOffload(m: Maps, inFlow: Flow, redir: Option<Flow>, action: string): (Maps, Option<Error>) {
    var k := ToBuffer(inFlow);
    if k.None? then (m, Some(RangeError))
    else if action == "create" then
      var m1 := m.(stats := m.stats[k.value := Stat(0, 0, 0)]);
      if redir.None? then (m1, Some(TypeError))
      else
        var v := ToBuffer(redir.value);
        if v.None? then (m1, Some(RangeError)) else (m1.(redirects := m1.redirects[k.value := v.value]), None)
    else if action == "remove" then (Maps(m.redirects - {k.value}, m.stats - {k.value}), None)
    else (m, Some(InvalidAction))
  }

  /** When `setOffload` throws what, and that it leaves both maps alone then, but for the zero
      statistics entry of a create whose redirect flow is missing or cannot be encoded. */
  lemma SetOffloadFails(m: Maps, inFlow: Flow, redir: Option<Flow>, action: string)
    ensures var o := SetOffload(m, inFlow, redir, action);
      && (o.1 == Some(RangeError) <==>
          !InRange(inFlow) || (action == "create" && redir.Some? && !InRange(redir.value)))
      && (o.1 == Some(TypeError) <==> InRange(inFlow) && action == "create" && redir.None?)
      && (o.1 == Some(InvalidAction) <==> InRange(inFlow) && action != "create" && action != "remove")
      && (o.1.Some? ==>
            o.0 == if InRange(inFlow) && action == "create" then
                     m.(stats := m.stats[ToBuffer(inFlow).value := Stat(0, 0, 0)])
                   else m)
  {
  }

  /** `getStat`: a flow without an entry makes the decoder fail. */
  function GetStat(m: Maps, f: Flow): Option<Stat> {
    var k := ToBuffer(f);
    if k.None? || k.value !in m.stats then None else Some(m.stats[k.value])
  }

  function Account(stats: map<seq<Byte>, Stat>, k: seq<Byte>, length: nat, now: nat): map<seq<Byte>, Stat> {
    if k in stats then
      stats[k := Stat((stats[k].pkts + 1) % U64, (stats[k].bytes + length) % U64, now)]
    else stats[k := Stat(1, length, now)]
  }

  /** A packet passed on counts one and its length, and leaves its time, for its flow alone; a flow
      without an entry gets one. */
  lemma Accounts(stats: map<seq<Byte>, Stat>, k: seq<Byte>, length: nat, now: nat)
    ensures var r := Account(stats, k, length, now);
      && r.Keys == stats.Keys + {k} && (forall x :: x in stats && x != k ==> r[x] == stats[x])
      && r[k].timestamp == now
      && r[k].pkts == (if k in stats then (stats[k].pkts + 1) % 0x1_0000_0000_0000_0000 else 1)
      && r[k].bytes == (if k in stats then (stats[k].bytes + length) % 0x1_0000_0000_0000_0000 else length)
  {
  }

  predicate Sized(m: Maps) { forall k :: k in m.redirects ==> |m.redirects[k]| == KEY_SIZE }

  // ------------------------------------------------------------------------------------ runs

  datatype Event =
    | Create(inFlow: Flow, redir: Option<Flow>)
    | Remove(inFlow: Flow)
    | Seen(packet: Packet, diff: nat, fib: Fib, now: nat)

  function Step(m: Maps, e: Event): (r: Maps)
    requires Sized(m)
    ensures Sized(r)
  {
    match e
    case Create(f, g) => SetOffload(m, f, g, "create").0
    case Remove(f) => SetOffload(m, f, None, "remove").0
    case Seen(p, diff, fib, now) =>
      if Macs(fib) && Process(p, m.redirects, diff, fib).accounted
      then m.(stats := Account(m.stats, KeyOf(p), |p|, now))
      else m
  }

  function Run(es: seq<Event>): (r: Maps)
    ensures Sized(r)
  {
    if es == [] then NO_FLOWS else Step(Run(es[..|es| - 1]), es[|es| - 1])
  }

  predicate SameKeys(m: Maps) { m.redirects.Keys == m.stats.Keys }

  /** The redirect flow is given and can be encoded. */
  predicate Usable(redir: Option<Flow>) { redir.Some? && InRange(redir.value) }

  /** A redirect flow that is missing or cannot be encoded, for a flow not redirected yet. */
  predicate HalfDone(m: Maps, e: Event) {
    e.Create? && InRange(e.inFlow) && !Usable(e.redir) && ToBuffer(e.inFlow).value !in m.redirects
  }

  /** Each step keeps the key sets of the two maps the same, with exactly one exception. */
  lemma StepKeepsKeys(m: Maps, e: Event)
    requires Sized(m) && SameKeys(m)
    ensures SameKeys(Step(m, e)) <==> !HalfDone(m, e)
  {
    var r := Step(m, e);
    if HalfDone(m, e) {
      assert ToBuffer(e.inFlow).value in r.stats.Keys && ToBuffer(e.inFlow).value !in r.redirects.Keys;
    }
  }

  /** Such a create happens: the first one for any flow, without a redirect flow, fails after
      the statistics entry is made. */
  lemma HalfDoneHappens(f: Flow)
    requires InRange(f)
    ensures var e := Create(f, None);
      && HalfDone(NO_FLOWS, e) && !SameKeys(Step(NO_FLOWS, e))
      && SetOffload(NO_FLOWS, f, None, "create").1 == Some(TypeError)
      && GetStat(Step(NO_FLOWS, e), f) == Some(Stat(0, 0, 0))
  {
    assert SameKeys(NO_FLOWS);
    StepKeepsKeys(NO_FLOWS, Create(f, None));
  }

  predicate Encodable(es: seq<Event>) {
    forall i :: 0 <= i < |es| ==> es[i].Create? ==> Usable(es[i].redir)
  }

  lemma {:induction false} RunKeepsKeys(es: seq<Event>)
    requires Encodable(es)
    ensures SameKeys(Run(es))
  {
    if es != [] {
      RunKeepsKeys(es[..|es| - 1]);
      StepKeepsKeys(Run(es[..|es| - 1]), es[|es| - 1]);
    }
  }

  /** Where the latest create or remove of a flow leaves it. */
  function Target(f: Flow, es: seq<Event>): Option<Flow> {
    if es == [] then None
    else
      var e := es[|es| - 1];
      if e.Create? && e.inFlow == f then e.redir
      else if e.Remove? && e.inFlow == f then None
      else Target(f, es[..|es| - 1])
  }

  /** After any run, a flow is redirected as its latest create says, unless it was removed
      since; other flows do not interfere. */
  lemma {:induction false} LatestWins(f: Flow, es: seq<Event>)
    requires InRange(f) && Encodable(es)
    ensures var k := ToBuffer(f).value;
      && (k in Run(es).redirects <==> Target(f, es).Some?)
      && (k in Run(es).redirects ==> Some(Run(es).redirects[k]) == ToBuffer(Target(f, es).value))
  {
    if es != [] {
      var e := es[|es| - 1];
      LatestWins(f, es[..|es| - 1]);
      if !e.Seen? && InRange(e.inFlow) && e.inFlow != f {
        if ToBuffer(e.inFlow) == ToBuffer(f) {
          EncodingInjective(f, e.inFlow);
        }
      }
    }
  }

  /** The packets and bytes of a flow since it was last created, and the time of the last one,
      which is 0 while there is none. */
  datatype Traffic = Traffic(packets: nat, bytes: nat, last: nat)

  /** The traffic of a flow, one event further. */
  function Counting(f: Flow, before: Option<Traffic>, e: Event): Option<Traffic> {
    match e
    case Create(g, _) => if g == f then Some(Traffic(0, 0, 0)) else before
    case Remove(g) => if g == f then None else before
    case Seen(p, _, fib, now) =>
      if before.Some? && IsUdp(p) && FlowOf(p) == f && Macs(fib) && fib != Drop
      then Some(Traffic(before.value.packets + 1, before.value.bytes + |p|, now))
      else before
  }

  function TrafficOf(f: Flow, es: seq<Event>): Option<Traffic> {
    if es == [] then None else Counting(f, TrafficOf(f, es[..|es| - 1]), es[|es| - 1])
  }

  /** A flow's statistics are what its traffic comes to, modulo 64 bits. */
  predicate Counted(m: Maps, f: Flow, traffic: Option<Traffic>) {
    var s := GetStat(m, f);
    (s.Some? <==> traffic.Some?) &&
    (s.Some? ==>
       && s.value.pkts == traffic.value.packets % 0x1_0000_0000_0000_0000
       && s.value.bytes == traffic.value.bytes % 0x1_0000_0000_0000_0000
       && s.value.timestamp == traffic.value.last)
  }

  lemma SetCounts(m: Maps, f: Flow, e: Event, traffic: Option<Traffic>)
    requires Sized(m) && InRange(f) && Counted(m, f, traffic)
    requires e.Remove? || (e.Create? && Usable(e.redir))
    ensures Counted(Step(m, e), f, Counting(f, traffic, e))
  {
    if f != e.inFlow && ToBuffer(f) == ToBuffer(e.inFlow) {
      EncodingInjective(f, e.inFlow);
    }
  }

  lemma WrapOnce(x: nat, y: nat)
    ensures (x % U64 + y) % U64 == (x + y) % U64
  {
    assert x % U64 + y == x + y - 0x1_0000_0000_0000_0000 * (x / 0x1_0000_0000_0000_0000);
  }

  lemma SeenCounts(m: Maps, f: Flow, e: Event, traffic: Option<Traffic>)
    requires Sized(m) && SameKeys(m) && InRange(f) && Counted(m, f, traffic) && e.Seen?
    ensures Counted(Step(m, e), f, Counting(f, traffic, e))
  {
    if IsUdp(e.packet) {
      KeysAgree(e.packet, f);
      assert KeyOf(e.packet) in m.redirects <==> KeyOf(e.packet) in m.redirects.Keys;
      if traffic.Some? {
        WrapOnce(traffic.value.packets, 1);
        WrapOnce(traffic.value.bytes, |e.packet|);
      }
    }
  }

  /** The statistics of a flow count, modulo 64 bits, exactly the packets of that flow that the
      kernel passed on since the flow was last created, and tell when the last one was. */
  lemma {:induction false} StatsCount(f: Flow, es: seq<Event>)
    requires InRange(f) && Encodable(es)
    ensures Counted(Run(es), f, TrafficOf(f, es))
  {
    if es != [] {
      var init, e := es[..|es| - 1], es[|es| - 1];
      StatsCount(f, init);
      RunKeepsKeys(init);
      if e.Seen? {
        SeenCounts(Run(init), f, e, TrafficOf(f, init));
      } else {
        SetCounts(Run(init), f, e, TrafficOf(f, init));
      }
    }
  }

  // ------------------------------------------------------------------------ the slow path

  datatype Address = Address(ip: int, port: int, ipv4: bool)

  /** A connected datagram socket. */
  datatype Socket = Socket(local: Address, remote: Address)

  /** A stage of a session; `udp` says that its listener or cluster runs over UDP and that it
      has a stream. */
  datatype Stage = Stage(udp: bool, socket: Socket)

  datatype Datagram = Datagram(flow: Flow, payload: seq<Byte>)

  /** What a connected socket takes in: datagrams from its peer to itself. */
  predicate Receives(s: Socket, d: Datagram) {
    d.flow == Flow(s.remote.ip, s.remote.port, s.local.ip, s.local.port, UDP)
  }

  /** What sending on a connected socket puts on the wire. */
  function Sent(s: Socket, payload: seq<Byte>): Datagram {
    Datagram(Flow(s.local.ip, s.local.port, s.remote.ip, s.remote.port, UDP), payload)
  }

  /** The user-space pipe: a datagram read from one socket is written to the other. */
  function UserPipe(from: Stage, to: Stage, d: Datagram): Option<Datagram> {
    if from.udp && to.udp && Receives(from.socket, d) then Some(Sent(to.socket, d.payload)) else None
  }

  function GetOffloadFlow(st: Stage, incoming: bool): Option<Flow> {
    if !st.udp then None
    else
      var src := if incoming then st.socket.remote else st.socket.local;
      var dst := if incoming then st.socket.local else st.socket.remote;
      if !src.ipv4 || !dst.ipv4 then None else Some(Flow(src.ip, src.port, dst.ip, dst.port, UDP))
  }

  /** `Stage.pipe`: 1 if the pipe was offloaded, 0 if not; errors are swallowed. */
  function Pipe(m: Maps, offload: bool, from: Stage, to: Stage): (Maps, nat) {
    var i, o := GetOffloadFlow(from, true), GetOffloadFlow(to, false);
    if offload && i.Some? && o.Some? then
      var r := SetOffload(m, i.value, o, "create");
      (r.0, if r.1.Some? then 0 else 1)
    else (m, 0)
  }

  /** A pipe that cannot be offloaded leaves the maps alone. */
  lemma PipeLeavesMaps(m: Maps, offload: bool, from: Stage, to: Stage)
    ensures !offload || !from.udp || !to.udp || !from.socket.remote.ipv4 || !from.socket.local.ipv4
            || !to.socket.local.ipv4 || !to.socket.remote.ipv4 || !InRange(Sent(from.socket, []).flow)
            ==> Pipe(m, offload, from, to) == (m, 0)
  {
  }

  /** Offloading happens exactly when it is enabled and both ends are UDP over IPv4 with
      addresses that can be encoded. */
  lemma PipeOffloads(m: Maps, offload: bool, from: Stage, to: Stage)
    ensures Pipe(m, offload, from, to).1 == 1 <==>
            offload && from.udp && to.udp
            && from.socket.remote.ipv4 && from.socket.local.ipv4 && to.socket.local.ipv4 && to.socket.remote.ipv4
            && InRange(Sent(from.socket, []).flow) && InRange(Sent(to.socket, []).flow)
  {
  }

  function Wire(p: Packet): Datagram
    requires |p| >= HEADERS
  {
    Datagram(FlowOf(p), Payload(p))
  }

  /** Packets of other flows are untouched: whatever the run of creates and removes, a packet
      whose flow is not redirected keeps every byte and is passed to the stack. */
  lemma OthersUntouched(es: seq<Event>, p: Packet, diff: nat, fib: Fib)
    requires Encodable(es) && Macs(fib)
    requires IsUdp(p) ==> Target(FlowOf(p), es).None?
    ensures Process(p, Run(es).redirects, diff, fib) == Verdict(p, Ok, false)
  {
    if IsUdp(p) {
      KeysAgree(p, FlowOf(p));
      LatestWins(FlowOf(p), es);
    }
  }

  /** And after any run, a packet of a redirected flow leaves with the flow it was last
      redirected to. */
  lemma RunRedirects(es: seq<Event>, p: Packet, diff: nat, fib: Fib)
    requires Encodable(es) && Macs(fib) && IsUdp(p)
    requires Target(FlowOf(p), es).Some? && Target(FlowOf(p), es).value.proto == UDP
    ensures Wire(Process(p, Run(es).redirects, diff, fib).packet)
            == Datagram(Target(FlowOf(p), es).value, Payload(p))
  {
    var f := FlowOf(p);
    KeysAgree(p, f);
    LatestWins(f, es);
    ProcessRedirects(p, Run(es).redirects, diff, fib, Target(f, es).value);
  }

  /** And every other byte of it is as `Rewritten` says. */
  lemma RunRewrites(es: seq<Event>, p: Packet, diff: nat, fib: Fib)
    requires Encodable(es) && Macs(fib) && IsUdp(p) && Target(FlowOf(p), es).Some?
    ensures InRange(Target(FlowOf(p), es).value)
    ensures Rewritten(p, Process(p, Run(es).redirects, diff, fib).packet,
                      ToBuffer(Target(FlowOf(p), es).value).value, fib)
  {
    KeysAgree(p, FlowOf(p));
    LatestWins(FlowOf(p), es);
    ProcessBytes(p, Run(es).redirects, diff, fib);
  }

  /** A packet of a redirected flow is sent out, dropped or passed on as the route lookup says. */
  lemma RunActs(es: seq<Event>, p: Packet, diff: nat, fib: Fib)
    requires Encodable(es) && Macs(fib) && IsUdp(p) && Target(FlowOf(p), es).Some?
    ensures Process(p, Run(es).redirects, diff, fib).action ==
            if fib.Drop? then Shot else if fib.Pass? then Ok else Redirect
  {
    KeysAgree(p, FlowOf(p));
    LatestWins(FlowOf(p), es);
  }

  /** An offloaded pipe is a create of its two flows. */
  lemma PipeIsCreate(m: Maps, from: Stage, to: Stage)
    requires Sized(m) && Pipe(m, true, from, to).1 == 1
    ensures var i, o := GetOffloadFlow(from, true), GetOffloadFlow(to, false);
      && i.Some? && o.Some? && InRange(i.value) && Usable(o)
      && Pipe(m, true, from, to).0 == Step(m, Create(i.value, o))
  {
  }

  /** The pipe from A to B is the latest create or remove of the flow that A receives. */
  predicate LatestPipe(es: seq<Event>, from: Stage, to: Stage) {
    var i, o := GetOffloadFlow(from, true), GetOffloadFlow(to, false);
    i.Some? && o.Some? && Target(i.value, es) == o
  }

  lemma PipeIsLatest(es: seq<Event>, from: Stage, to: Stage)
    requires Pipe(Run(es), true, from, to).1 == 1
    ensures var e := Create(GetOffloadFlow(from, true).value, GetOffloadFlow(to, false));
      && Run(es + [e]) == Pipe(Run(es), true, from, to).0 && LatestPipe(es + [e], from, to)
      && (Encodable(es) ==> Encodable(es + [e]))
  {
    PipeIsCreate(Run(es), from, to);
    var e := Create(GetOffloadFlow(from, true).value, GetOffloadFlow(to, false));
    assert (es + [e])[..|es + [e]| - 1] == es;
  }

  /** The fast path refines the slow path: after any run in which the pipe from A to B is the
      latest create or remove of the flow that A receives, every packet that the user-space
      pipe would have read becomes the datagram that it would have sent, and leaves the kernel
      as that unless the route lookup drops it. */
  lemma FastPathIsSlowPath(es: seq<Event>, from: Stage, to: Stage, p: Packet, diff: nat, fib: Fib)
    requires Encodable(es) && LatestPipe(es, from, to) && IsUdp(p) && Macs(fib)
    requires UserPipe(from, to, Wire(p)).Some?
    ensures Some(Wire(Process(p, Run(es).redirects, diff, fib).packet)) == UserPipe(from, to, Wire(p))
    ensures Process(p, Run(es).redirects, diff, fib).action ==
            if fib.Drop? then Shot else if fib.Pass? then Ok else Redirect
    ensures var g := GetOffloadFlow(to, false).value;
      InRange(g) && Rewritten(p, Process(p, Run(es).redirects, diff, fib).packet, ToBuffer(g).value, fib)
  {
    assert FlowOf(p) == GetOffloadFlow(from, true).value;
    RunRedirects(es, p, diff, fib);
    RunActs(es, p, diff, fib);
    RunRewrites(es, p, diff, fib);
  }
}
