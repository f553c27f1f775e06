/** The classes of session.js, with the fields their methods update, proved against the
    functions of `Pipeline`.  `model` is the abstract state; `Valid` ties the fields to it. */
module SessionObjects {
  import opened Pipeline

  class StageObject {
    const id: nat
    var status: StageStatus
    var stream: int
    var retriable: bool
    ghost var loop: Loop  // the promise of p-retry
    ghost var ends: nat   // calls of `end` on the current stream

    ghost function View(): Stage
      reads this
    {
      Stage(status, stream, loop, retriable, ends)
    }

    constructor (id: nat, status: StageStatus, stream: int, retriable: bool, ghost loop: Loop)
      ensures this.id == id && View() == Stage(status, stream, loop, retriable, 0)
    {
      this.id, this.status, this.stream, this.retriable := id, status, stream, retriable;
      this.loop, this.ends := loop, 0;
    }
  }

  class SessionObject {
    // made by pipeline_init, never replaced afterwards
    const source: StageObject
    const destination: StageObject
    const ingress: seq<StageObject>
    const egress: seq<StageObject>
    var status: SessionStatus
    var active_streams: int
    var num_streams: int
    var events: seq<LogEvent>
    var pipes: seq<(int, int)>       // the pipes laid so far
    var total: nat                   // pipes.total
    var setup: Setup                 // which code awaits the retry loops
    const retry_on: RetryOn
    const num_retries: nat
    const intended: bool             // the last-egress test of repipe, see Config
    ghost var model: State
    ghost const ring: seq<StageObject>

    ghost predicate RingShape()
    {
      && |ring| == |ingress| + |egress| + 2
      && ring[0] == source && ring[|ingress| + 1] == destination
      && (forall i :: 0 <= i < |ingress| ==> ring[1 + i] == ingress[i])
      && (forall i :: 0 <= i < |egress| ==> ring[|ingress| + 2 + i] == egress[i])
      && (forall i, j :: 0 <= i < j < |ring| ==> ring[i].id != ring[j].id)
    }

    ghost predicate Fields()
      reads this
    {
      && model.cfg.ingress == |ingress| && model.cfg.egress == |egress|
      && model.cfg.on == retry_on && model.cfg.retries == num_retries && model.cfg.intended == intended
      && model.status == status && model.active == active_streams && model.num == num_streams
      && model.log == events && model.pipes == pipes && model.setup == setup
    }

    ghost predicate Valid()
      reads this, ring
    {
      RingShape() && Fields() && Views(model.st)
    }

    ghost predicate Views(st: seq<Stage>)
      reads ring
    {
      |st| == |ring| && forall i :: 0 <= i < |ring| ==> ring[i].View() == st[i]
    }

    ghost predicate At(stage: StageObject, k: nat)
    {
      k < |ring| && ring[k] == stage
    }

    constructor (c: Config, ghost initial: State, src: StageObject, ing: seq<StageObject>, dst: StageObject,
                 egr: seq<StageObject>)
      requires |ing| == c.ingress && |egr| == c.egress
      requires initial == Initial(c, src.retriable)
      ensures model == initial && Fields() && total == 0
      ensures source == src && ingress == ing && destination == dst && egress == egr
      ensures ring == [src] + ing + [dst] + egr
    {
      source, ingress, egress, destination := src, ing, egr, dst;
      status, active_streams, num_streams, total := SessionInit, 0, 0, 0;
      events, pipes := [LogInit], [];
      retry_on, num_retries, intended, setup := c.on, c.retries, c.intended, Pending;
      ring := [src] + ing + [dst] + egr;
      model := initial;
    }

    /** `create` and `pipeline_init`: the stages are numbered in the order they are made. */
    static method PipelineInit(c: Config, sourceRetriable: bool) returns (s: SessionObject)
      ensures fresh(s) && fresh(s.ring) && s.Valid()
      ensures s.model == Initial(c, sourceRetriable) && s.total == 0
    {
      var retries := SetupRetries(c);
      var src := new StageObject(0, READY, 0, sourceRetriable, Idle);
      var ing := MakeChain(1, c.ingress, retries);
      var egr := MakeChain(1 + c.ingress, c.egress, retries);
      var dst := new StageObject(1 + c.ingress + c.egress, INIT, -1, true, Flight(retries));
      s := new SessionObject(c, Initial(c, sourceRetriable), src, ing, dst, egr);
      InitialRing(c, sourceRetriable, src, ing, dst, egr);
      s.Shape(src, ing, dst, egr);
    }

    lemma Shape(src: StageObject, ing: seq<StageObject>, dst: StageObject, egr: seq<StageObject>)
      requires source == src && ingress == ing && destination == dst && egress == egr
      requires ring == [src] + ing + [dst] + egr
      requires forall i, j :: 0 <= i < j < |ring| ==> ring[i].id != ring[j].id
      ensures RingShape()
    {
      Concatenation(src, ing, dst, egr);
    }

    /** Stages numbered and initialised as `pipeline_init` does have distinct numbers and the
        initial views. */
    static lemma InitialRing(c: Config, sourceRetriable: bool, src: StageObject, ing: seq<StageObject>,
                             dst: StageObject, egr: seq<StageObject>)
      requires |ing| == c.ingress && |egr| == c.egress
      requires src.id == 0 && dst.id == Size(c) - 1
      requires forall j :: 0 <= j < |ing| ==> ing[j].id == 1 + j && ing[j].View() == NewStage(c)
      requires forall j :: 0 <= j < |egr| ==> egr[j].id == 1 + c.ingress + j && egr[j].View() == NewStage(c)
      requires src.View() == Stage(READY, 0, Idle, sourceRetriable, 0) && dst.View() == NewStage(c)
      ensures var ring := [src] + ing + [dst] + egr;
        && |ring| == Size(c)
        && (forall i :: 0 <= i < |ring| ==> ring[i].View() == Initial(c, sourceRetriable).st[i])
        && (forall i, j :: 0 <= i < j < |ring| ==> ring[i].id != ring[j].id)
    {
      Concatenation(src, ing, dst, egr);
      var ring := [src] + ing + [dst] + egr;
      forall i | 0 <= i < |ring|
        ensures ring[i].id == (if i < Dest(c) then i else if i == Dest(c) then Size(c) - 1 else i - 1)
        ensures ring[i].View() == Initial(c, sourceRetriable).st[i]
      {
        assert 0 < i < Dest(c) ==> ring[1 + (i - 1)] == ing[i - 1];
        assert i > Dest(c) ==> ring[|ing| + 2 + (i - Dest(c) - 1)] == egr[i - Dest(c) - 1];
      }
    }

    static lemma Concatenation<T>(a: T, xs: seq<T>, b: T, ys: seq<T>)
      ensures var r := [a] + xs + [b] + ys;
        && r[0] == a && r[|xs| + 1] == b
        && (forall i :: 0 <= i < |xs| ==> r[1 + i] == xs[i])
        && (forall i :: 0 <= i < |ys| ==> r[|xs| + 2 + i] == ys[i])
    {
    }

    static method MakeChain(id: nat, n: nat, retries: nat) returns (chain: seq<StageObject>)
      ensures |chain| == n
      ensures forall j :: 0 <= j < n ==>
        fresh(chain[j]) && chain[j].id == id + j && chain[j].View() == Stage(INIT, -1, Flight(retries), true, 0)
    {
      chain := [];
      for i := 0 to n
        invariant |chain| == i
        invariant forall j :: 0 <= j < i ==>
          fresh(chain[j]) && chain[j].id == id + j && chain[j].View() == Stage(INIT, -1, Flight(retries), true, 0)
      {
        var stage := new StageObject(id + i, INIT, -1, true, Flight(retries));
        chain := chain + [stage];
      }
    }

    method Connected()
      requires Valid()
      modifies this`status, this`events, this`model
      ensures Valid() && model == Connect(old(model))
    {
      status := SessionConnected;
      events := events + [LogConnect];
      model := Connect(model);
    }

    /** The order of `get_stages` differs from the ring's: the destination comes last. */
    function GetStages(): (stages: seq<StageObject>)
      requires RingShape()
      ensures |stages| == |ring|
      ensures forall j :: 0 <= j < |ring| ==> stages[j] == ring[Place(j)]
    {
      var stages := [source] + ingress + egress + [destination];
      assert forall j :: 0 <= j < |ring| ==> stages[j] == ring[Place(j)] by {
        forall j | 0 <= j < |ring|
          ensures stages[j] == ring[Place(j)]
        {
          if 0 < j <= |ingress| {
            assert ring[1 + (j - 1)] == ingress[j - 1];
          } else if |ingress| < j <= |ingress| + |egress| {
            assert ring[|ingress| + 2 + (j - 1 - |ingress|)] == egress[j - 1 - |ingress|];
          }
        }
      }
      stages
    }

    ghost function Place(j: nat): nat
    {
      if j <= |ingress| then j else if j <= |ingress| + |egress| then j + 1 else |ingress| + 1
    }

    /** The inverse of `Place`. */
    ghost function Position(k: nat): (j: nat)
      requires k < |ingress| + |egress| + 2
      ensures j < |ingress| + |egress| + 2 && Place(j) == k
    {
      if k <= |ingress| then k else if k == |ingress| + 1 then |ingress| + |egress| + 1 else k - 1
    }

    /** The loop of `destroy`, over stages whose views are `before`. */
    static method EndStages(stages: seq<StageObject>, ghost before: seq<Stage>) returns (ret: nat)
      requires forall i, j :: 0 <= i < j < |stages| ==> stages[i] != stages[j]
      requires |before| == |stages| && forall j :: 0 <= j < |stages| ==> stages[j].View() == before[j]
      modifies stages
      ensures forall j :: 0 <= j < |stages| ==> stages[j].View() == DestroyStage(before[j])
      ensures ret == if exists j :: 0 <= j < |stages| && before[j].status == RETRYING then 0 else 1
    {
      ret := 1;
      for i := 0 to |stages|
        invariant ret == if exists j :: 0 <= j < i && before[j].status == RETRYING then 0 else 1
        invariant forall j :: 0 <= j < i ==> stages[j].View() == DestroyStage(before[j])
        invariant forall j :: i <= j < |stages| ==> stages[j].View() == before[j]
      {
        var stage := stages[i];
        assert stage.View() == before[i];
        if stage.status == RETRYING {
          ret := 0;
          continue;
        }
        if stage.status != END && stage.stream >= 0 {
          stage.ends := stage.ends + 1;  // stream.end()
        }
        stage.status := END;
      }
    }

    method Destroy() returns (ret: nat)
      requires Valid()
      modifies this`status, this`events, this`model, ring
      ensures Valid() && model == Pipeline.Destroy(old(model))
      ensures ret == DestroyResult(old(model))
    {
      ghost var was := model.st;
      ghost var before := seq(|ring|, j requires 0 <= j < |ring| => was[Place(j)]);
      DistinctStages();
      AnyRetrying(before);
      ret := EndStages(GetStages(), before);
      assert Views(Pipeline.Destroy(model).st) by {
        forall k | 0 <= k < |ring|
          ensures ring[k].View() == DestroyStage(model.st[k])
        {
          assert GetStages()[Position(k)] == ring[k];
        }
      }
      status := Destroyed;
      events := events + [LogDestroy];
      model := Pipeline.Destroy(model);
    }

    lemma AnyRetrying(before: seq<Stage>)
      requires RingShape() && |before| == |ring| == |model.st|
      requires forall j :: 0 <= j < |ring| ==> before[j] == model.st[Place(j)]
      ensures DestroyResult(model) == if exists j :: 0 <= j < |before| && before[j].status == RETRYING then 0 else 1
    {
      if k :| 0 <= k < |ring| && model.st[k].status == RETRYING {
        assert before[Position(k)].status == RETRYING;
      }
    }

    lemma DistinctStages()
      requires RingShape()
      ensures forall i, j :: 0 <= i < j < |ring| ==> GetStages()[i] != GetStages()[j]
      ensures forall j :: 0 <= j < |ring| ==> GetStages()[j] in ring
    {
      forall i, j | 0 <= i < j < |ring|
        ensures GetStages()[i] != GetStages()[j]
      {
        assert Place(i) != Place(j);
        assert ring[Place(i)].id != ring[Place(j)].id;
      }
    }

    method SessionError() returns (ret: nat)
      requires Valid()
      modifies this`status, this`events, this`model, ring
      ensures Valid() && model == Pipeline.SessionError(old(model)) && ret == DestroyResult(old(model))
    {
      events := events + [LogError];
      status := Finalizing;
      model := model.(log := events, status := Finalizing);
      ret := Destroy();
    }

    method SessionEnd() returns (ret: nat)
      requires Valid()
      modifies this`status, this`events, this`model, ring
      ensures Valid() && model == Pipeline.SessionEnd(old(model)) && ret == DestroyResult(old(model))
    {
      events := events + [LogEnd];
      status := Finalizing;
      model := model.(log := events, status := Finalizing);
      ret := Destroy();
    }

    // ------------------------------------------------------------------------ piping

    method Pipe(from: StageObject, to: StageObject)
      modifies this`pipes, this`total
      ensures pipes == old(pipes) + [(from.stream, to.stream)] && total == old(total) + 1
    {
      pipes := pipes + [(from.stream, to.stream)];
      total := total + 1;
    }

    static ghost function Edge(from: StageObject, chain: seq<StageObject>, dest: StageObject, j: nat): (int, int)
      requires j <= |chain|
      reads from`stream, chain`stream, dest`stream
    {
      ((if j == 0 then from else chain[j - 1]).stream, (if j == |chain| then dest else chain[j]).stream)
    }

    /** The first n pipes of `pipeline_finish`. */
    static ghost function Laid(from: StageObject, chain: seq<StageObject>, dest: StageObject, n: nat)
      : (p: seq<(int, int)>)
      requires n <= |chain| + 1
      reads from`stream, chain`stream, dest`stream
      ensures |p| == n
      ensures forall j :: 0 <= j < n ==> p[j] == Edge(from, chain, dest, j)
    {
      if n == 0 then [] else Laid(from, chain, dest, n - 1) + [Edge(from, chain, dest, n - 1)]
    }

    lemma RingAt(k: nat)
      requires RingShape() && k < |ring|
      ensures ring[k] ==
        if k == 0 then source
        else if k <= |ingress| then ingress[k - 1]
        else if k == |ingress| + 1 then destination
        else egress[k - |ingress| - 2]
    {
      assert 0 < k <= |ingress| ==> ring[1 + (k - 1)] == ingress[k - 1];
      assert k > |ingress| + 1 ==> ring[|ingress| + 2 + (k - |ingress| - 2)] == egress[k - |ingress| - 2];
    }

    lemma LaidIsTheRing()
      requires Valid()
      ensures Laid(source, ingress, destination, |ingress| + 1) + Laid(destination, egress, source, |egress| + 1)
              == RingPipes(model)
    {
      var a, b := Laid(source, ingress, destination, |ingress| + 1), Laid(destination, egress, source, |egress| + 1);
      forall k | 0 <= k < |ring|
        ensures (a + b)[k] == (model.st[k].stream, model.st[Succ(model.cfg, k)].stream)
      {
        RingAt(k);
        RingAt(Succ(model.cfg, k));
        assert ring[k].View() == model.st[k] && ring[Succ(model.cfg, k)].View() == model.st[Succ(model.cfg, k)];
      }
    }

    method PipelineFinish(source: StageObject, dest: StageObject, chain: seq<StageObject>)
      modifies this`pipes, this`total, source`status, chain`status
      ensures pipes == old(pipes) + old(Laid(source, chain, dest, |chain| + 1))
      ensures total == old(total) + |chain| + 1
      ensures source.status == READY && forall j :: 0 <= j < |chain| ==> chain[j].status == READY
    {
      ghost var laid := Laid(source, chain, dest, |chain| + 1);
      var from := source;
      from.status := READY;
      for i := 0 to |chain|
        invariant from == if i == 0 then source else chain[i - 1]
        invariant pipes == old(pipes) + laid[..i] && total == old(total) + i
        invariant source.status == READY && forall j :: 0 <= j < i - 1 ==> chain[j].status == READY
        invariant source.stream == old(source.stream) && dest.stream == old(dest.stream)
        invariant forall j :: 0 <= j < |chain| ==> chain[j].stream == old(chain[j].stream)
      {
        var to := chain[i];
        assert laid[i] == old(Edge(source, chain, dest, i));
        assert laid[..i + 1] == laid[..i] + [laid[i]];
        Pipe(from, to);
        from.status := READY;
        from := to;
      }
      assert laid[|chain|] == old(Edge(source, chain, dest, |chain|));
      assert laid == laid[..|chain|] + [laid[|chain|]];
      Pipe(from, dest);
      from.status := READY;
    }

    /** The tail of `pipeline`: as many pipes as stages, forming the ring. */
    method FinishSetup()
      requires Valid()
      modifies this`status, this`events, this`model, this`pipes, this`total, this`setup
      modifies this`active_streams, this`num_streams, ring`status
      ensures Valid() && model == Finish(old(model)) && total == old(total) + |ring|
    {
      LayPipes();
      Connected();
    }

    method LayPipes()
      requires Valid()
      modifies this`model, this`pipes, this`total, this`setup, this`active_streams, this`num_streams, ring`status
      ensures Valid() && model == LayRing(old(model)) && total == old(total) + |ring|
    {
      CountStreams();
      PipeRing();
      setup := Complete;
      model := model.(setup := Complete, late := LogDestroy in events);
    }

    method CountStreams()
      requires Valid()
      modifies this`model, this`active_streams, this`num_streams
      ensures Valid() && model == old(model).(num := |ring| - 1, active := |ring| - 1)
    {
      active_streams := |ingress| + |egress| + 1;
      num_streams := active_streams;
      model := model.(num := num_streams, active := active_streams);
    }

    method PipeRing()
      requires Valid()
      modifies this`model, this`pipes, this`total, ring`status
      ensures Valid() && total == old(total) + |ring|
      ensures model == old(model).(pipes := old(model).pipes + RingPipes(old(model)), st := AllReady(old(model).st))
    {
      ghost var was := model;
      LaidIsTheRing();
      PipeBothDirections();
      assert pipes == was.pipes + RingPipes(was);
      forall k | 0 <= k < |ring|
        ensures ring[k].View() == AllReady(was.st)[k]
      {
        assert old(ring[k].View()) == was.st[k];
      }
      model := was.(pipes := pipes, st := AllReady(was.st));
    }

    method PipeBothDirections()
      requires RingShape()
      modifies this`pipes, this`total, ring`status
      ensures total == old(total) + |ring|
      ensures pipes == old(pipes) + old(Laid(source, ingress, destination, |ingress| + 1)
                                        + Laid(destination, egress, source, |egress| + 1))
      ensures forall k :: 0 <= k < |ring| ==> ring[k].View() == old(ring[k].View()).(status := READY)
    {
      assert source in ring && destination in ring;
      PipelineFinish(source, destination, ingress);
      PipelineFinish(destination, source, egress);
      forall k | 0 <= k < |ring|
        ensures ring[k].status == READY
      {
        RingAt(k);
      }
    }

    /** `findIndex` by stage id. */
    static method FindIndex(chain: seq<StageObject>, id: nat) returns (i: int)
      ensures -1 <= i < |chain|
      ensures i >= 0 ==> chain[i].id == id
      ensures i < 0 ==> forall j :: 0 <= j < |chain| ==> chain[j].id != id
    {
      for n := 0 to |chain|
        invariant forall j :: 0 <= j < n ==> chain[j].id != id
      {
        if chain[n].id == id {
          return n;
        }
      }
      return -1;
    }

    /** The neighbours `repipe` looks up for a stage, by comparing ids; `found` is false where
        the code reads past the end of the egress chain. */
    method Neighbours(stage: StageObject, ghost k: nat) returns (from: StageObject, to: StageObject, found: bool)
      requires RingShape() && At(stage, k)
      requires |ingress| == model.cfg.ingress && |egress| == model.cfg.egress && intended == model.cfg.intended
      ensures At(from, RepipeFrom(model.cfg, k))
      ensures found <==> RepipeTo(model.cfg, k) >= 0
      ensures found ==> At(to, RepipeTo(model.cfg, k))
    {
      RingAt(k);
      if stage.id == source.id {
        to := if |ingress| > 0 then ingress[0] else destination;
        from := if |egress| > 0 then egress[|egress| - 1] else destination;
        return from, to, true;
      }
      if stage.id == destination.id {
        from := if |ingress| > 0 then ingress[|ingress| - 1] else source;
        to := if |egress| > 0 then egress[0] else source;
        return from, to, true;
      }
      var i := FindIndex(ingress, stage.id);
      if i >= 0 {
        assert ring[1 + i] == ingress[i];
        from := if i == 0 then source else ingress[i - 1];
        to := if i == |ingress| - 1 then destination else ingress[i + 1];
        return from, to, true;
      }
      i := FindIndex(egress, stage.id);
      assert ring[|ingress| + 2 + i] == egress[i];
      from := if i == 0 then destination else egress[i - 1];
      if intended && i == |egress| - 1 {
        return from, source, true;
      }
      if i + 1 < |egress| {
        return from, egress[i + 1], true;
      }
      return from, source, false;
    }

    method LayRepipe(stage: StageObject, ghost k: nat) returns (ok: bool)
      requires Valid() && At(stage, k)
      modifies this`pipes, this`total
      ensures pipes == Pipeline.Repipe(model, k).0.pipes && ok == Pipeline.Repipe(model, k).1
    {
      RepipeNamesNeighbours(model.cfg, k);
      var from, to, found := Neighbours(stage, k);
      assert from.View() == model.st[RepipeFrom(model.cfg, k)] && stage.View() == model.st[k];
      if stage.id == source.id {
        assert k == 0;
        Pipe(stage, to);
        Pipe(from, stage);
      } else {
        assert k != 0;
        Pipe(from, stage);
        if !found {
          return false;
        }
        Pipe(stage, to);
      }
      return true;
    }

    /** `repipe`; false when it throws. */
    method Repipe(stage: StageObject, ghost k: nat) returns (ok: bool)
      requires Valid() && At(stage, k)
      modifies this`pipes, this`total, this`model, stage`status
      ensures Valid() && (model, ok) == Pipeline.Repipe(old(model), k)
    {
      ok := LayRepipe(stage, k);
      if ok {
        stage.status := READY;
      }
      model := Pipeline.Repipe(model, k).0;
    }

    // -------------------------------------------------------------------- retry loops

    /** A retry loop of `stage` ended without a stream: `connect` rejects. */
    method Reject(stage: StageObject, ghost k: nat, status': StageStatus)
      requires Valid() && At(stage, k)
      modifies this`status, this`events, this`model, this`setup, ring
      ensures Valid() && model == Pipeline.Reject(old(model), k, status')
    {
      stage.status := status';
      stage.loop := Idle;
      var aborted := setup == Aborted;
      if setup == Pending {
        setup := Aborted;
      }
      model := Put(model, k, model.st[k].(loop := Idle, status := status'), setup);
      if !aborted {
        var _ := SessionError();
      }
    }

    /** One attempt of `Stage.connect`, up to the call to the cluster.  `registered` is what
        `getSession` finds; `clusterRetriable` is the flag of the cluster. */
    method StartAttempt(stage: StageObject, ghost k: nat, ghost left: nat, registered: bool, clusterRetriable: bool)
      requires Valid() && At(stage, k) && registered == model.named
      modifies this`status, this`events, this`model, this`setup, ring
      ensures Valid() && model == Pipeline.StartAttempt(old(model), k, left, clusterRetriable)
    {
      assert stage.View() == model.st[k];
      if !registered {
        Reject(stage, k, END);
      } else if stage.status == CONNECTED || stage.status == FINALIZING || stage.status == END {
        Reject(stage, k, stage.status);
      } else {
        stage.retriable := clusterRetriable;
        stage.loop := Flight(left);
        model := Pipeline.StartAttempt(model, k, left, clusterRetriable);
      }
    }

    method AttemptFails(stage: StageObject, ghost k: nat, retriesLeft: nat)
      requires Valid() && At(stage, k) && stage.loop == Flight(retriesLeft)
      modifies this`status, this`events, this`model, this`setup, ring
      ensures Valid() && model == Fail(old(model), k)
    {
      assert stage.View() == model.st[k];
      assert k == 0 <==> stage == source;
      if stage == source {
        Reject(stage, k, stage.status);
      } else if retriesLeft == 0 {
        Reject(stage, k, END);
      } else {
        stage.status := RETRYING;
        stage.loop := Waiting(retriesLeft - 1);
        model := Fail(model, k);
      }
    }

    // --------------------------------------------------------- losing and regaining a stage

    /** `disconnect` up to its await. */
    method Disconnect(stage: StageObject, ghost k: nat, listener: Listener, registered: bool, clusterRetriable: bool)
      requires Valid() && At(stage, k) && registered == model.named
      modifies this`status, this`events, this`model, this`setup, this`active_streams, ring
      ensures Valid() && model == Pipeline.Disconnect(old(model), k, listener, clusterRetriable)
    {
      assert stage.View() == model.st[k];
      events := events + [LogDisconnect];
      model := Logged(model, LogDisconnect);
      if stage.status != READY {
        return;
      }
      Lose(stage, k, listener, registered, clusterRetriable);
    }

    /** The rest of `disconnect` for a READY stage. */
    method Lose(stage: StageObject, ghost k: nat, listener: Listener, registered: bool, clusterRetriable: bool)
      requires Valid() && At(stage, k) && registered == model.named && model.st[k].status == READY
      modifies this`status, this`events, this`model, this`setup, this`active_streams, ring
      ensures Valid() && model == Pipeline.Lose(old(model), k, listener, clusterRetriable)
    {
      stage.status := DISCONNECTED;
      active_streams := active_streams - 1;
      model := MarkLost(model, k);
      ApplyPolicy(stage, k, listener, registered, clusterRetriable);
    }

    method ApplyPolicy(stage: StageObject, ghost k: nat, listener: Listener, registered: bool, clusterRetriable: bool)
      requires Valid() && At(stage, k) && registered == model.named
      modifies this`status, this`events, this`model, this`setup, ring
      ensures Valid() && model == Pipeline.ApplyPolicy(old(model), k, listener, clusterRetriable)
    {
      match retry_on {
        case Always | OnDisconnect =>
          Reconnect(stage, k, listener, registered, clusterRetriable);
        case OnConnectFailure | Never =>
          var _ := SessionEnd();
        case UnknownPolicy =>
          var _ := SessionError();
      }
    }

    method Reconnect(stage: StageObject, ghost k: nat, listener: Listener, registered: bool, clusterRetriable: bool)
      requires Valid() && At(stage, k) && registered == model.named && (retry_on == Always || retry_on == OnDisconnect)
      modifies this`status, this`events, this`model, this`setup, ring
      ensures Valid() && model == Pipeline.Reconnect(old(model), k, listener, clusterRetriable)
    {
      assert stage.View() == model.st[k];
      assert k == 0 <==> stage == source;
      if !stage.retriable {
        var _ := SessionError();
      } else if stage == source {
        if listener != CanReconnect {
          var _ := SessionError();
        } else {
          stage.loop := Flight(0);
          model := Pipeline.Reconnect(model, k, listener, clusterRetriable);
        }
      } else {
        StartAttempt(stage, k, if num_retries > 0 then num_retries - 1 else 0, registered, clusterRetriable);
      }
    }

    /** `Stage.connect` stores the new stream. */
    method Renew(stage: StageObject, ghost k: nat, stream: int)
      requires Valid() && At(stage, k) && stream == model.next
      modifies this`model, ring
      ensures Valid() && model == Pipeline.Renew(old(model), k)
    {
      stage.stream, stage.status := stream, CONNECTED;
      stage.loop, stage.ends := Idle, 0;
      model := Pipeline.Renew(model, k);
    }

    /** The end of `disconnect`: the stage is back. */
    method Resume(stage: StageObject, ghost k: nat)
      requires Valid() && At(stage, k)
      modifies this`status, this`events, this`model, this`pipes, this`total, this`active_streams, ring
      ensures Valid() && model == Pipeline.Resume(old(model), k)
    {
      stage.status := READY;
      active_streams := active_streams + 1;
      model := Repay(model, k);
      var ok := Repipe(stage, k);
      if !ok {
        var _ := SessionError();
      } else if active_streams == num_streams {
        Connected();
      }
    }

    static lemma LastAwaited(s: State, k: nat)
      requires k < |s.st|
      ensures (forall j :: 0 <= j < |s.st| ==> Pipeline.Renew(s, k).st[j].loop == Idle) <==>
              forall j :: 0 <= j < |s.st| && j != k ==> s.st[j].loop == Idle
    {
      var r := Pipeline.Renew(s, k);
      assert r.st[k].loop == Idle;
      forall j | 0 <= j < |s.st| && j != k
        ensures r.st[j].loop == Idle <==> s.st[j].loop == Idle
      {
        assert r.st[j] == s.st[j];
      }
    }

    /** The running attempt of `stage` produced the new stream `stream`. During set-up the promise
        of `Promise.all` resolves with the last one awaited; a set-up that failed has been
        rejected before, and nobody awaits the attempt any more. */
    method AttemptSucceeds(stage: StageObject, ghost k: nat, stream: int, last: bool)
      requires Valid() && At(stage, k) && stream == model.next
      requires last <==> forall j :: 0 <= j < |ring| && j != k ==> model.st[j].loop == Idle
      modifies this`status, this`events, this`model, this`pipes, this`total, this`setup
      modifies this`active_streams, this`num_streams, ring
      ensures Valid() && model == Succeed(old(model), k)
    {
      LastAwaited(model, k);
      Renew(stage, k, stream);
      match setup {
        case Aborted =>
        case Pending =>
          if last {
            FinishSetup();
          }
        case Complete =>
          Resume(stage, k);
      }
    }
  }
}
