/** The broadcast mesh of stream.js: every port's input feeds the outputs of all ports with a
    different key. */
module Broadcast {

  /** Streams are known by the number of the port they belong to. */
  datatype Port = Port(id: nat, key: string)

  /** A pipe (i, j) runs from the input of port i to the output of port j; attaching one twice
      makes two of them, detaching takes one away. */
  datatype Hub = Hub(ports: seq<Port>, pipes: multiset<(nat, nat)>, next: nat)

  const EMPTY := Hub([], multiset{}, 0)

  /** Pipes from input i to the outputs of the ports with another key, in port order. */
  function Outgoing(ports: seq<Port>, key: string, i: nat): multiset<(nat, nat)> {
    if ports == [] then multiset{}
    else
      var p := ports[|ports| - 1];
      Outgoing(ports[..|ports| - 1], key, i) + if p.key != key then multiset{(i, p.id)} else multiset{}
  }

  function Incoming(ports: seq<Port>, key: string, j: nat): multiset<(nat, nat)> {
    if ports == [] then multiset{}
    else
      var p := ports[|ports| - 1];
      Incoming(ports[..|ports| - 1], key, j) + if p.key != key then multiset{(p.id, j)} else multiset{}
  }

  function Add(h: Hub, key: string): Hub {
    var ports := h.ports + [Port(h.next, key)];
    Hub(ports, h.pipes + Outgoing(ports, key, h.next) + Incoming(ports, key, h.next), h.next + 1)
  }

  function FindKey(ports: seq<Port>, key: string): (i: int)
    ensures -1 <= i < |ports|
    ensures i >= 0 ==> ports[i].key == key
  {
    if ports == [] then -1
    else if ports[0].key == key then 0
    else var i := FindKey(ports[1..], key); if i < 0 then -1 else i + 1
  }

  /** Removes the oldest port with the key. */
  function Remove(h: Hub, key: string): Hub {
    var i := FindKey(h.ports, key);
    if i < 0 then h
    else
      var id := h.ports[i].id;
      Hub(h.ports[..i] + h.ports[i + 1..],
          h.pipes - Outgoing(h.ports, key, id) - Incoming(h.ports, key, id), h.next)
  }

  // ---------------------------------------------------------------------------- the invariant

  predicate Ids(h: Hub) {
    (forall p :: p in h.ports ==> p.id < h.next) &&
    forall i, j :: 0 <= i < j < |h.ports| ==> h.ports[i].id != h.ports[j].id
  }

  /** Port number i has a key other than key. */
  predicate Apart(ports: seq<Port>, i: nat, key: string) { exists p :: p in ports && p.id == i && p.key != key }

  predicate Linked(ports: seq<Port>, i: nat, j: nat) { exists p :: p in ports && p.id == j && Apart(ports, i, p.key) }

  /** Exactly one pipe between two ports with different keys, none otherwise. */
  ghost predicate Mesh(h: Hub) {
    Ids(h) && forall i: nat, j: nat :: h.pipes[(i, j)] == if Linked(h.ports, i, j) then 1 else 0
  }

  lemma {:induction false} OutgoingIs(ports: seq<Port>, key: string, i: nat, a: nat, b: nat)
    requires forall x, y :: 0 <= x < y < |ports| ==> ports[x].id != ports[y].id
    ensures Outgoing(ports, key, i)[(a, b)] == if a == i && Apart(ports, b, key) then 1 else 0
  {
    if ports != [] {
      var init, p := ports[..|ports| - 1], ports[|ports| - 1];
      OutgoingIs(init, key, i, a, b);
      assert ports == init + [p];
      assert forall q :: q in init ==> q.id != p.id;
      assert Apart(ports, b, key) <==> Apart(init, b, key) || (p.id == b && p.key != key);
    }
  }

  lemma {:induction false} IncomingIs(ports: seq<Port>, key: string, j: nat, a: nat, b: nat)
    requires forall x, y :: 0 <= x < y < |ports| ==> ports[x].id != ports[y].id
    ensures Incoming(ports, key, j)[(a, b)] == if b == j && Apart(ports, a, key) then 1 else 0
  {
    if ports != [] {
      var init, p := ports[..|ports| - 1], ports[|ports| - 1];
      IncomingIs(init, key, j, a, b);
      assert ports == init + [p];
      assert forall q :: q in init ==> q.id != p.id;
      assert Apart(ports, a, key) <==> Apart(init, a, key) || (p.id == a && p.key != key);
    }
  }

  lemma ApartPush(ports: seq<Port>, p: Port, i: nat, key: string)
    ensures Apart(ports + [p], i, key) <==> Apart(ports, i, key) || (p.id == i && p.key != key)
  {
    assert forall q :: q in ports + [p] <==> q in ports || q == p;
  }

  lemma LinkedPush(ports: seq<Port>, p: Port, i: nat, j: nat)
    requires forall q :: q in ports ==> q.id != p.id
    ensures Linked(ports + [p], i, j) <==>
            Linked(ports, i, j) || (i == p.id && Apart(ports, j, p.key)) || (j == p.id && Apart(ports, i, p.key))
  {
    var all := ports + [p];
    assert forall q :: q in all <==> q in ports || q == p;
    if Linked(all, i, j) {
      var q :| q in all && q.id == j && Apart(all, i, q.key);
      ApartPush(ports, p, i, q.key);
    }
    if Linked(ports, i, j) {
      var q :| q in ports && q.id == j && Apart(ports, i, q.key);
      ApartPush(ports, p, i, q.key);
      assert q in all && Apart(all, i, q.key);
    }
    if i == p.id && Apart(ports, j, p.key) {
      var q :| q in ports && q.id == j && q.key != p.key;
      ApartPush(ports, p, i, q.key);
      assert q in all && Apart(all, i, q.key);
    }
    if j == p.id && Apart(ports, i, p.key) {
      ApartPush(ports, p, i, p.key);
      assert p in all && Apart(all, i, p.key);
    }
  }

  /** Adding a port keeps the mesh, even when its key is already there. */
  lemma AddKeeps(h: Hub, key: string)
    requires Mesh(h)
    ensures Mesh(Add(h, key))
  {
    var p := Port(h.next, key);
    var all := h.ports + [p];
    var r := Add(h, key);
    assert forall q :: q in all <==> q in h.ports || q == p;
    forall i: nat, j: nat
      ensures r.pipes[(i, j)] == if Linked(all, i, j) then 1 else 0
    {
      OutgoingIs(all, key, p.id, i, j);
      IncomingIs(all, key, p.id, i, j);
      ApartPush(h.ports, p, i, key);
      ApartPush(h.ports, p, j, key);
      LinkedPush(h.ports, p, i, j);
      LinkedKnown(h, i, j);
    }
  }

  lemma LinkedKnown(h: Hub, i: nat, j: nat)
    requires Ids(h)
    ensures Linked(h.ports, i, j) ==> i < h.next && j < h.next
    ensures forall key :: Apart(h.ports, i, key) ==> i < h.next
    ensures forall key :: Apart(h.ports, j, key) ==> j < h.next
  {
  }

  lemma ApartSplice(ports: seq<Port>, k: nat, i: nat, key: string)
    requires k < |ports| && forall x, y :: 0 <= x < y < |ports| ==> ports[x].id != ports[y].id
    ensures Apart(ports[..k] + ports[k + 1..], i, key) <==> Apart(ports, i, key) && i != ports[k].id
  {
    var rest := ports[..k] + ports[k + 1..];
    assert ports == ports[..k] + [ports[k]] + ports[k + 1..];
    assert forall q :: q in rest ==> q in ports && q.id != ports[k].id;
    assert forall q :: q in ports && q.id != ports[k].id ==> q in rest;
  }

  lemma LinkedSplice(ports: seq<Port>, k: nat, i: nat, j: nat)
    requires k < |ports| && forall x, y :: 0 <= x < y < |ports| ==> ports[x].id != ports[y].id
    ensures Linked(ports[..k] + ports[k + 1..], i, j) <==> Linked(ports, i, j) && i != ports[k].id && j != ports[k].id
  {
    var rest := ports[..k] + ports[k + 1..];
    assert ports == ports[..k] + [ports[k]] + ports[k + 1..];
    assert forall q :: q in rest ==> q in ports && q.id != ports[k].id;
    assert forall q :: q in ports && q.id != ports[k].id ==> q in rest;
    if Linked(rest, i, j) {
      var q :| q in rest && q.id == j && Apart(rest, i, q.key);
      ApartSplice(ports, k, i, q.key);
    }
    if Linked(ports, i, j) && i != ports[k].id && j != ports[k].id {
      var q :| q in ports && q.id == j && Apart(ports, i, q.key);
      ApartSplice(ports, k, i, q.key);
    }
  }

  lemma LinkedOf(ports: seq<Port>, k: nat, i: nat, j: nat)
    requires k < |ports| && forall x, y :: 0 <= x < y < |ports| ==> ports[x].id != ports[y].id
    ensures Linked(ports, ports[k].id, j) <==> Apart(ports, j, ports[k].key)
    ensures Linked(ports, i, ports[k].id) <==> Apart(ports, i, ports[k].key)
  {
    assert ports[k] in ports;
    if Apart(ports, j, ports[k].key) {
      var q :| q in ports && q.id == j && q.key != ports[k].key;
      assert Apart(ports, ports[k].id, q.key);
    }
  }

  lemma RemovedPipe(h: Hub, k: nat, key: string, i: nat, j: nat)
    requires Mesh(h) && k < |h.ports| && h.ports[k].key == key
    ensures var id := h.ports[k].id;
      (h.pipes - Outgoing(h.ports, key, id) - Incoming(h.ports, key, id))[(i, j)] ==
      if Linked(h.ports[..k] + h.ports[k + 1..], i, j) then 1 else 0
  {
    var id := h.ports[k].id;
    OutgoingIs(h.ports, key, id, i, j);
    IncomingIs(h.ports, key, id, i, j);
    LinkedOf(h.ports, k, i, j);
    LinkedSplice(h.ports, k, i, j);
  }

  lemma RemovedIds(h: Hub, key: string)
    requires Ids(h)
    ensures Ids(Remove(h, key))
  {
    var r := Remove(h, key);
    assert forall q :: q in r.ports ==> q in h.ports;
  }

  /** Removing keeps the mesh: all pipes of the removed port go, and no others. */
  lemma RemoveKeeps(h: Hub, key: string)
    requires Mesh(h)
    ensures Mesh(Remove(h, key))
  {
    var k := FindKey(h.ports, key);
    if k >= 0 {
      var r := Remove(h, key);
      RemovedIds(h, key);
      forall i: nat, j: nat
        ensures r.pipes[(i, j)] == if Linked(r.ports, i, j) then 1 else 0
      {
        RemovedPipe(h, k, key, i, j);
      }
    }
  }

  // ------------------------------------------------------------------------- which ports remain

  /** Port i is the oldest one with the key. */
  predicate OldestOf(ports: seq<Port>, i: nat, key: string) {
    i < |ports| && ports[i].key == key && forall j :: 0 <= j < i ==> ports[j].key != key
  }

  lemma {:induction false} FindsOldest(ports: seq<Port>, key: string)
    ensures var i := FindKey(ports, key);
      if i < 0 then forall p :: p in ports ==> p.key != key else OldestOf(ports, i, key)
  {
    if ports != [] && ports[0].key != key {
      FindsOldest(ports[1..], key);
      assert ports == [ports[0]] + ports[1..];
    }
  }

  /** Adding puts one new port at the end. */
  lemma AddAppends(h: Hub, key: string)
    ensures Add(h, key).ports == h.ports + [Port(h.next, key)] && Add(h, key).next == h.next + 1
  {
  }

  /** Removing an unknown key changes nothing. Else the oldest port with the key goes, no other,
      and no pipe begins or ends at it any more. */
  lemma RemoveTakesOldest(h: Hub, key: string)
    requires Mesh(h)
    ensures (forall p :: p in h.ports ==> p.key != key) ==> Remove(h, key) == h
    ensures forall i: nat :: OldestOf(h.ports, i, key) ==>
              var r, id := Remove(h, key), h.ports[i].id;
              && r.ports == h.ports[..i] + h.ports[i + 1..] && r.next == h.next
              && forall a: nat :: r.pipes[(id, a)] == 0 && r.pipes[(a, id)] == 0
  {
    FindsOldest(h.ports, key);
    RemoveKeeps(h, key);
    forall i: nat | OldestOf(h.ports, i, key)
      ensures var r, id := Remove(h, key), h.ports[i].id;
        && r.ports == h.ports[..i] + h.ports[i + 1..] && r.next == h.next
        && forall a: nat :: r.pipes[(id, a)] == 0 && r.pipes[(a, id)] == 0
    {
      assert i == FindKey(h.ports, key);
      var r, id := Remove(h, key), h.ports[i].id;
      assert forall p :: p in r.ports ==> p.id != id;
      forall a: nat
        ensures r.pipes[(id, a)] == 0 && r.pipes[(a, id)] == 0
      {
        assert !Linked(r.ports, id, a) && !Linked(r.ports, a, id);
      }
    }
  }

  datatype Op = AddPort(key: string) | RemovePort(key: string)

  function Run(ops: seq<Op>): Hub {
    if ops == [] then EMPTY
    else
      var h := Run(ops[..|ops| - 1]);
      match ops[|ops| - 1]
      case AddPort(k) => Add(h, k)
      case RemovePort(k) => Remove(h, k)
  }

  /** Whatever ports come and go, repeated keys included, the mesh is complete. */
  lemma {:induction false} RunKeeps(ops: seq<Op>)
    ensures Mesh(Run(ops))
  {
    if ops != [] {
      RunKeeps(ops[..|ops| - 1]);
      match ops[|ops| - 1] {
        case AddPort(k) => AddKeeps(Run(ops[..|ops| - 1]), k);
        case RemovePort(k) => RemoveKeeps(Run(ops[..|ops| - 1]), k);
      }
    }
  }

  /** How many ports were ever added. */
  function Adds(ops: seq<Op>): nat {
    if ops == [] then 0 else Adds(ops[..|ops| - 1]) + if ops[|ops| - 1].AddPort? then 1 else 0
  }

  /** The ports added under a key and not removed since, by their number in the order of adding: a
      queue, from which each remove takes the oldest. */
  function Queue(ops: seq<Op>, key: string): seq<nat> {
    if ops == [] then []
    else
      var before := Queue(ops[..|ops| - 1], key);
      match ops[|ops| - 1]
      case AddPort(k) => if k == key then before + [Adds(ops[..|ops| - 1])] else before
      case RemovePort(k) => if k == key && before != [] then before[1..] else before
  }

  /** The numbers of the ports with a key, in the order of the ports. */
  function IdsOf(ports: seq<Port>, key: string): seq<nat> {
    if ports == [] then []
    else IdsOf(ports[..|ports| - 1], key) + if ports[|ports| - 1].key == key then [ports[|ports| - 1].id] else []
  }

  lemma {:induction false} IdsOfSum(a: seq<Port>, b: seq<Port>, key: string)
    ensures IdsOf(a + b, key) == IdsOf(a, key) + IdsOf(b, key)
  {
    if b == [] {
      assert a + b == a;
    } else {
      IdsOfSum(a, b[..|b| - 1], key);
      assert (a + b)[..|a + b| - 1] == a + b[..|b| - 1] && (a + b)[|a + b| - 1] == b[|b| - 1];
      var last := if b[|b| - 1].key == key then [b[|b| - 1].id] else [];
      assert IdsOf(a + b, key) == IdsOf(a + b[..|b| - 1], key) + last;
      assert IdsOf(b, key) == IdsOf(b[..|b| - 1], key) + last;
    }
  }

  lemma {:induction false} NoIds(ports: seq<Port>, key: string)
    requires forall i :: 0 <= i < |ports| ==> ports[i].key != key
    ensures IdsOf(ports, key) == []
  {
    if ports != [] {
      NoIds(ports[..|ports| - 1], key);
    }
  }

  lemma OneId(p: Port, key: string)
    ensures IdsOf([p], key) == if p.key == key then [p.id] else []
  {
    assert [p][..0] == [];
  }

  lemma AddQueues(h: Hub, k: string, key: string)
    ensures IdsOf(Add(h, k).ports, key) == IdsOf(h.ports, key) + if k == key then [h.next] else []
  {
    IdsOfSum(h.ports, [Port(h.next, k)], key);
    OneId(Port(h.next, k), key);
  }

  lemma IdsOfSplice(ports: seq<Port>, i: nat, key: string)
    requires i < |ports|
    ensures IdsOf(ports, key) ==
            IdsOf(ports[..i], key) + (if ports[i].key == key then [ports[i].id] else []) + IdsOf(ports[i + 1..], key)
    ensures IdsOf(ports[..i] + ports[i + 1..], key) == IdsOf(ports[..i], key) + IdsOf(ports[i + 1..], key)
  {
    var a, p, b := ports[..i], ports[i], ports[i + 1..];
    assert ports == a + [p] + b;
    IdsOfSum(a + [p], b, key);
    IdsOfSum(a, [p], key);
    IdsOfSum(a, b, key);
    OneId(p, key);
  }

  lemma RemoveQueues(h: Hub, k: string, key: string)
    ensures var ids := IdsOf(h.ports, key);
      IdsOf(Remove(h, k).ports, key) == if k == key && ids != [] then ids[1..] else ids
  {
    var i := FindKey(h.ports, k);
    FindsOldest(h.ports, k);
    if i < 0 {
      if k == key {
        NoIds(h.ports, key);
      }
    } else {
      IdsOfSplice(h.ports, i, key);
      if k == key {
        NoIds(h.ports[..i], key);
      }
    }
  }

  predicate Ascending(ports: seq<Port>) { forall i, j :: 0 <= i < j < |ports| ==> ports[i].id < ports[j].id }

  lemma StepAscends(h: Hub, k: string)
    requires Ascending(h.ports) && Ids(h)
    ensures Ascending(Add(h, k).ports) && Ascending(Remove(h, k).ports)
  {
    assert forall i :: 0 <= i < |h.ports| ==> h.ports[i] in h.ports;
  }

  /** After any run, the ports are exactly those added and not removed since, in the order of
      adding: under each key its queue, and the numbers ascend. */
  lemma {:induction false} PortsAre(ops: seq<Op>, key: string)
    ensures var h := Run(ops);
      h.next == Adds(ops) && IdsOf(h.ports, key) == Queue(ops, key) && Ascending(h.ports)
  {
    if ops != [] {
      var init := ops[..|ops| - 1];
      PortsAre(init, key);
      RunKeeps(init);
      var h := Run(init);
      match ops[|ops| - 1] {
        case AddPort(k) =>
          AddQueues(h, k, key);
          StepAscends(h, k);
        case RemovePort(k) =>
          RemoveQueues(h, k, key);
          StepAscends(h, k);
      }
    }
  }

  /** How often a message written to port x comes out of port y. */
  function Copies(h: Hub, x: nat, y: nat): nat
    requires x < |h.ports| && y < |h.ports|
  {
    h.pipes[(h.ports[x].id, h.ports[y].id)]
  }

  /** Every message reaches each port with a different key exactly once, and no other port. */
  lemma DeliveredOnce(ops: seq<Op>, x: nat, y: nat)
    requires x < |Run(ops).ports| && y < |Run(ops).ports|
    ensures var h := Run(ops);
      Copies(h, x, y) == if h.ports[x].key != h.ports[y].key then 1 else 0
  {
    RunKeeps(ops);
    var h := Run(ops);
    LinkedAt(h.ports, x, y);
  }

  lemma LinkedAt(ports: seq<Port>, x: nat, y: nat)
    requires x < |ports| && y < |ports|
    requires forall i, j :: 0 <= i < j < |ports| ==> ports[i].id != ports[j].id
    ensures Linked(ports, ports[x].id, ports[y].id) <==> ports[x].key != ports[y].key
  {
    assert ports[x] in ports && ports[y] in ports;
    if ports[x].key != ports[y].key {
      assert Apart(ports, ports[x].id, ports[y].key);
    }
  }

  // ------------------------------------------------------------------------------- the object

  lemma PlusPlus<T>(a: multiset<T>, b: multiset<T>, e: T)
    ensures a + b + multiset{e} == a + (b + multiset{e})
  {
  }

  lemma MinusPlus<T>(a: multiset<T>, b: multiset<T>, e: T)
    ensures a - b - multiset{e} == a - (b + multiset{e})
  {
  }

  lemma OnePortFurther(ports: seq<Port>, i: nat, key: string, id: nat)
    requires i < |ports|
    ensures Outgoing(ports[..i + 1], key, id) ==
            Outgoing(ports[..i], key, id) + if ports[i].key != key then multiset{(id, ports[i].id)} else multiset{}
    ensures Incoming(ports[..i + 1], key, id) ==
            Incoming(ports[..i], key, id) + if ports[i].key != key then multiset{(ports[i].id, id)} else multiset{}
  {
    assert ports[..i + 1][..i] == ports[..i];
  }

  lemma PlusPort(before: multiset<(nat, nat)>, ports: seq<Port>, i: nat, key: string, id: nat)
    requires i < |ports|
    ensures before + Outgoing(ports[..i + 1], key, id) ==
            before + Outgoing(ports[..i], key, id) +
            if ports[i].key != key then multiset{(id, ports[i].id)} else multiset{}
    ensures before + Incoming(ports[..i + 1], key, id) ==
            before + Incoming(ports[..i], key, id) +
            if ports[i].key != key then multiset{(ports[i].id, id)} else multiset{}
  {
    OnePortFurther(ports, i, key, id);
    PlusPlus(before, Outgoing(ports[..i], key, id), (id, ports[i].id));
    PlusPlus(before, Incoming(ports[..i], key, id), (ports[i].id, id));
  }

  lemma MinusPort(before: multiset<(nat, nat)>, ports: seq<Port>, i: nat, key: string, id: nat)
    requires i < |ports|
    ensures before - Outgoing(ports[..i + 1], key, id) ==
            before - Outgoing(ports[..i], key, id) -
            if ports[i].key != key then multiset{(id, ports[i].id)} else multiset{}
    ensures before - Incoming(ports[..i + 1], key, id) ==
            before - Incoming(ports[..i], key, id) -
            if ports[i].key != key then multiset{(ports[i].id, id)} else multiset{}
  {
    OnePortFurther(ports, i, key, id);
    MinusPlus(before, Outgoing(ports[..i], key, id), (id, ports[i].id));
    MinusPlus(before, Incoming(ports[..i], key, id), (ports[i].id, id));
  }

  class BroadcastStream {
    var ports: seq<Port>
    var pipes: multiset<(nat, nat)>
    var next: nat

    function View(): Hub
      reads this
    {
      Hub(ports, pipes, next)
    }

    constructor ()
      ensures View() == EMPTY
    {
      ports, pipes, next := [], multiset{}, 0;
    }

    /** The input of a port is piped into the outputs of the others. */
    method PipeInput(id: nat, key: string)
      modifies this`pipes
      ensures pipes == old(pipes) + Outgoing(ports, key, id)
    {
      var i := 0;
      while i < |ports|
        invariant 0 <= i <= |ports|
        invariant pipes == old(pipes) + Outgoing(ports[..i], key, id)
      {
        PlusPort(old(pipes), ports, i, key, id);
        if ports[i].key != key {
          pipes := pipes + multiset{(id, ports[i].id)};
        }
        i := i + 1;
      }
      assert ports[..|ports|] == ports;
    }

    /** The inputs of the others are piped into its output. */
    method PipeOutput(id: nat, key: string)
      modifies this`pipes
      ensures pipes == old(pipes) + Incoming(ports, key, id)
    {
      var i := 0;
      while i < |ports|
        invariant 0 <= i <= |ports|
        invariant pipes == old(pipes) + Incoming(ports[..i], key, id)
      {
        PlusPort(old(pipes), ports, i, key, id);
        if ports[i].key != key {
          pipes := pipes + multiset{(ports[i].id, id)};
        }
        i := i + 1;
      }
      assert ports[..|ports|] == ports;
    }

    method UnpipeInput(id: nat, key: string)
      modifies this`pipes
      ensures pipes == old(pipes) - Outgoing(ports, key, id)
    {
      var i := 0;
      while i < |ports|
        invariant 0 <= i <= |ports|
        invariant pipes == old(pipes) - Outgoing(ports[..i], key, id)
      {
        MinusPort(old(pipes), ports, i, key, id);
        if ports[i].key != key {
          pipes := pipes - multiset{(id, ports[i].id)};
        }
        i := i + 1;
      }
      assert ports[..|ports|] == ports;
    }

    method UnpipeOutput(id: nat, key: string)
      modifies this`pipes
      ensures pipes == old(pipes) - Incoming(ports, key, id)
    {
      var i := 0;
      while i < |ports|
        invariant 0 <= i <= |ports|
        invariant pipes == old(pipes) - Incoming(ports[..i], key, id)
      {
        MinusPort(old(pipes), ports, i, key, id);
        if ports[i].key != key {
          pipes := pipes - multiset{(ports[i].id, id)};
        }
        i := i + 1;
      }
      assert ports[..|ports|] == ports;
    }

    method AddPort(key: string) returns (id: nat)
      modifies this
      ensures View() == Add(old(View()), key) && id == old(next)
    {
      id := next;
      next := next + 1;
      ports := ports + [Port(id, key)];
      PipeInput(id, key);
      PipeOutput(id, key);
    }

    method FindIndex(key: string) returns (i: int)
      ensures i == FindKey(ports, key)
    {
      i := 0;
      while i < |ports|
        invariant 0 <= i <= |ports|
        invariant FindKey(ports, key) == if FindKey(ports[i..], key) < 0 then -1 else i + FindKey(ports[i..], key)
      {
        if ports[i].key == key {
          return;
        }
        assert ports[i..][1..] == ports[i + 1..];
        i := i + 1;
      }
      i := -1;
    }

    method RemovePort(key: string)
      modifies this
      ensures View() == Remove(old(View()), key)
    {
      var k := FindIndex(key);
      if k < 0 {
        return;
      }
      var id := ports[k].id;
      UnpipeInput(id, key);
      UnpipeOutput(id, key);
      ports := ports[..k] + ports[k + 1..];
    }
  }
}
