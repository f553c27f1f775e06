/** What every step of a session keeps, and what follows for whole runs (session.js). */
module PipelineSafety {
  import opened Pipeline
  import opened PipelineSteps

  predicate Ready(s: State, k: nat) { k < |s.st| && s.st[k].status == READY }

  /** Stream identities: never reused, one stage each, and no pipe ends at a future one. */
  ghost predicate Identities(s: State) {
    && |s.st| == Size(s.cfg)
    && (forall k :: 0 <= k < |s.st| ==> -1 <= s.st[k].stream < s.next)
    && (forall k, j :: 0 <= k < j < |s.st| && s.st[k].stream >= 0 ==> s.st[k].stream != s.st[j].stream)
    && (forall p :: p in s.pipes ==> p.0 < s.next && p.1 < s.next)
    && (s.setup == Complete ==> forall k :: 0 <= k < |s.st| ==> s.st[k].stream >= 0)
  }

  /** How many pipes lead from the current stream of stage k to that of stage j. */
  ghost function PipeCount(s: State, k: int, j: int): nat
    requires 0 <= k < |s.st| && 0 <= j < |s.st|
  {
    multiset(s.pipes)[(s.st[k].stream, s.st[j].stream)]
  }

  /** Neighbours that are both READY are joined by exactly one pipe between their current
      streams, and no other pipe joins the current streams of two READY stages. */
  ghost predicate Wired(s: State) {
    if s.setup == Complete then
      forall k, j :: 0 <= k < |s.st| && 0 <= j < |s.st| && Ready(s, k) && Ready(s, j) ==>
        PipeCount(s, k, j) == if j == Succ(s.cfg, k) then 1 else 0
    else s.pipes == []
  }

  /** Every decrement of `active` belongs to one lost stage and is repaid once. */
  ghost predicate Ledger(s: State) {
    && (forall k :: k in s.lost ==> k < |s.st| && s.st[k].status != READY)
    && (s.setup == Complete ==> s.num == |s.st| - 1 && s.active + |s.lost| == s.num)
    && (s.setup != Complete ==> s.lost == {})
    && (s.setup != Complete ==> forall k :: 0 < k < |s.st| ==> s.st[k].status != READY)
  }

  /** Which stages have a retry loop. */
  ghost predicate Loops(s: State) {
    && |s.st| > 0
    && (forall k :: 0 <= k < |s.st| && s.st[k].loop.Waiting? ==> s.st[k].status == RETRYING)
    && (forall k :: 0 <= k < |s.st| && s.st[k].status == RETRYING ==> !s.st[k].loop.Idle?)
    && (s.setup == Complete ==> forall k :: 0 <= k < |s.st| && !s.st[k].loop.Idle? ==> k in s.lost)
    && (s.setup != Complete ==> s.st[0].loop == Idle)
    && s.st[0].stream >= 0
    && s.st[0].status != RETRYING
    && (s.setup == Pending ==> forall k :: 0 < k < |s.st| && s.st[k].loop.Idle? ==> s.st[k].stream >= 0)
  }

  /** Until the session is destroyed, every stage is READY or has a running retry loop. */
  ghost predicate Alive(s: State) {
    s.setup == Complete && LogDestroy !in s.log ==>
      forall k :: 0 <= k < |s.st| ==> Ready(s, k) || (k in s.lost && !s.st[k].loop.Idle?)
  }

  /** `destroy` never ends a stream twice. */
  ghost predicate EndedOnce(s: State) {
    && (LogDestroy !in s.log ==> !s.late && forall k :: 0 <= k < |s.st| ==> s.st[k].ends == 0)
    && (!s.late ==> forall k :: 0 <= k < |s.st| ==>
          s.st[k].ends <= 1 && (s.st[k].ends == 1 ==> s.st[k].status == END || s.st[k].status == RETRYING))
  }

  ghost predicate DisconnectBetween(log: seq<LogEvent>, i: int, j: int) {
    exists m :: i < m < j && 0 <= m < |log| && log[m] == LogDisconnect
  }

  ghost predicate Discipline(s: State) {
    && (s.setup != Complete ==> LogConnect !in s.log)
    && (forall i, j :: 0 <= i < j < |s.log| && s.log[i] == LogConnect && s.log[j] == LogConnect ==>
          DisconnectBetween(s.log, i, j))
    && (s.lost != {} ==> forall i :: 0 <= i < |s.log| && s.log[i] == LogConnect ==>
          DisconnectBetween(s.log, i, |s.log|))
  }

  ghost predicate Inv(s: State) {
    && Identities(s)
    && Wired(s)
    && Ledger(s)
    && Loops(s)
    && Alive(s)
    && EndedOnce(s)
    && Discipline(s)
  }

  // ---------------------------------------------------- the log, apart from the rest

  lemma QuietLog(s: State, r: State)
    requires Discipline(s) && Quiet(s, r)
    requires r.lost != s.lost ==> |r.log| > |s.log| && r.log[|s.log|] == LogDisconnect
    requires s.setup != Complete ==> r.lost == {}
    ensures Discipline(r)
  {
    forall i, j | 0 <= i < j < |r.log| && r.log[i] == LogConnect && r.log[j] == LogConnect
      ensures DisconnectBetween(r.log, i, j)
    {
      assert s.log[i] == LogConnect && s.log[j] == LogConnect;
      assert DisconnectBetween(s.log, i, j);
      var m :| i < m < j && 0 <= m < |s.log| && s.log[m] == LogDisconnect;
      assert r.log[m] == LogDisconnect;
    }
    if r.lost != {} {
      forall i | 0 <= i < |r.log| && r.log[i] == LogConnect
        ensures DisconnectBetween(r.log, i, |r.log|)
      {
        assert s.log[i] == LogConnect;
        if r.lost != s.lost {
          assert r.log[|s.log|] == LogDisconnect;
        } else {
          assert DisconnectBetween(s.log, i, |s.log|);
          var m :| i < m < |s.log| && 0 <= m < |s.log| && s.log[m] == LogDisconnect;
          assert r.log[m] == LogDisconnect;
        }
      }
    }
  }

  lemma LogConnects(s: State, r: State)
    requires Discipline(s)
    requires forall i :: 0 <= i < |s.log| && s.log[i] == LogConnect ==> DisconnectBetween(s.log, i, |s.log|)
    requires r.log == s.log + [LogConnect] && r.setup == Complete && r.lost == {}
    ensures Discipline(r)
  {
    forall i, j | 0 <= i < j < |r.log| && r.log[i] == LogConnect && r.log[j] == LogConnect
      ensures DisconnectBetween(r.log, i, j)
    {
      assert s.log[i] == LogConnect;
      if j < |s.log| {
        assert s.log[j] == LogConnect;
      }
      assert DisconnectBetween(s.log, i, j);
      var m :| i < m < j && 0 <= m < |s.log| && s.log[m] == LogDisconnect;
      assert r.log[m] == LogDisconnect;
    }
  }

  // ------------------------------------------------------------- steps without pipes

  /** A quiet stretch keeps the invariant if its losses, at most the one of stage k, are
      booked and logged. */
  lemma QuietKeeps(s: State, r: State, k: nat)
    requires Inv(s) && Quiet(s, r) && Alive(r)
    requires
      || (r.lost == s.lost && r.active == s.active)
      || (s.setup == Complete && k !in s.lost && r.lost == s.lost + {k} && r.active == s.active - 1
          && |r.log| > |s.log| && r.log[|s.log|] == LogDisconnect)
    ensures Inv(r)
  {
    QuietLog(s, r);
    QuietStages(s, r);
    QuietWired(s, r);
    assert LogDestroy in s.log ==> LogDestroy in r.log;
  }

  lemma QuietStages(s: State, r: State)
    requires Quiet(s, r)
    requires Identities(s) && Loops(s)
    requires r.setup != Complete ==> r.lost == {}
    ensures Identities(r) && Loops(r)
  {
    forall k | 0 <= k < |s.st|
      ensures StageStep(s.st[k], r.st[k])
    {
    }
  }

  lemma SamePipesWired(s: State, r: State)
    requires Wired(s) && SameShape(s, r) && r.pipes == s.pipes && r.setup == s.setup && r.st == s.st
    ensures Wired(r)
  {
    forall k, j | 0 <= k < |r.st| && 0 <= j < |r.st| && Ready(r, k) && Ready(r, j) && r.setup == Complete
      ensures PipeCount(r, k, j) == if j == Succ(r.cfg, k) then 1 else 0
    {
      assert Ready(s, k) && Ready(s, j) && PipeCount(r, k, j) == PipeCount(s, k, j);
    }
  }

  lemma QuietWired(s: State, r: State)
    requires Quiet(s, r) && Wired(s)
    ensures Wired(r)
  {
    forall k, j | 0 <= k < |r.st| && 0 <= j < |r.st| && Ready(r, k) && Ready(r, j) && r.setup == Complete
      ensures PipeCount(r, k, j) == if j == Succ(r.cfg, k) then 1 else 0
    {
      assert StageStep(s.st[k], r.st[k]) && StageStep(s.st[j], r.st[j]);
      assert Ready(s, k) && Ready(s, j) && PipeCount(r, k, j) == PipeCount(s, k, j);
    }
  }

  lemma DisconnectKeeps(s: State, k: nat, listener: Listener, retriable: bool)
    requires Inv(s) && k < |s.st| && (k == 0 ==> s.setup == Complete)
    ensures Inv(Disconnect(s, k, listener, retriable))
  {
    assert s.st[k].status == READY ==> k !in s.lost && s.st[k].loop == Idle;
    DisconnectFacts(s, k, listener, retriable);
    DisconnectAlive(s, k, listener, retriable);
    QuietKeeps(s, Disconnect(s, k, listener, retriable), k);
  }

  lemma DisconnectAlive(s: State, k: nat, listener: Listener, retriable: bool)
    requires Alive(s) && k < |s.st| && (s.st[k].status == READY ==> s.st[k].loop == Idle)
    ensures Alive(Disconnect(s, k, listener, retriable))
  {
    DisconnectFacts(s, k, listener, retriable);
    var r := Disconnect(s, k, listener, retriable);
    if LogDestroy !in r.log {
      assert LogDestroy !in s.log;
    }
  }

  lemma FailAlive(s: State, k: nat)
    requires Alive(s) && k < |s.st| && s.st[k].loop.Flight? && s.st[0].status != RETRYING
    requires s.setup == Complete ==> k in s.lost
    ensures Alive(Fail(s, k))
  {
    FailLocal(s, k);
  }

  lemma FailKeeps(s: State, k: nat)
    requires Inv(s) && k < |s.st| && s.st[k].loop.Flight?
    ensures Inv(Fail(s, k))
  {
    FailLocal(s, k);
    FailAlive(s, k);
    QuietKeeps(s, Fail(s, k), k);
  }

  lemma TimerKeeps(s: State, k: nat, retriable: bool)
    requires Inv(s) && k < |s.st| && s.st[k].loop.Waiting?
    ensures Inv(StartAttempt(s, k, s.st[k].loop.left, retriable))
  {
    StartLocal(s, k, s.st[k].loop.left, retriable);
    QuietKeeps(s, StartAttempt(s, k, s.st[k].loop.left, retriable), k);
  }

  lemma SessionEndKeeps(s: State)
    requires Inv(s)
    ensures Inv(SessionEnd(s))
  {
    SessionEnds(s);
    QuietKeeps(s, SessionEnd(s), 0);
  }

  // --------------------------------------------------------------- steps that lay pipes

  lemma RenewKeeps(s: State, k: nat)
    requires Inv(s) && k < |s.st| && s.st[k].loop.Flight? && s.setup != Complete
    ensures Inv(Renew(s, k))
  {
  }

  /** Stage k is back with a new stream, a pipe from its predecessor and, if `both`, one to
      its successor; nothing else moved but the ledger. */
  ghost predicate CameBack(s: State, r: State, k: nat, both: bool)
    requires |s.st| == Size(s.cfg) && k < |s.st|
  {
    var from := (s.st[Pred(s.cfg, k)].stream, s.next);
    var to := (s.next, s.st[Succ(s.cfg, k)].stream);
    && SameShape(s, r)
    && r.st[k].stream == s.next && r.st[k].status == READY && r.st[k].loop == Idle && r.st[k].ends == 0
    && (forall j :: 0 <= j < |s.st| && j != k ==> r.st[j] == s.st[j])
    && r.next == s.next + 1
    && multiset(r.pipes) == multiset(s.pipes) + (if both then multiset{from, to} else multiset{from})
    && r.active == s.active + 1 && r.lost == s.lost - {k}
    && r.log == s.log && r.setup == s.setup && r.num == s.num && r.late == s.late
  }

  lemma RepipeCameBack(s: State, k: nat)
    requires |s.st| == Size(s.cfg) && k < |s.st|
    ensures CameBack(s, Repipe(Repay(Renew(s, k), k), k).0, k, s.cfg.intended || !LastEgress(s.cfg, k))
    ensures Repipe(Repay(Renew(s, k), k), k).1 == (s.cfg.intended || !LastEgress(s.cfg, k))
  {
    RepipeNamesNeighbours(s.cfg, k);
  }

  lemma CameBackIdentities(s: State, r: State, k: nat, both: bool)
    requires Inv(s) && k < |s.st| && s.setup == Complete
    requires CameBack(s, r, k, both)
    ensures Identities(r)
  {
    forall p | p in r.pipes
      ensures p.0 < r.next && p.1 < r.next
    {
      assert p in multiset(r.pipes);
    }
  }

  lemma CameBackStages(s: State, r: State, k: nat, both: bool)
    requires Inv(s) && k < |s.st| && s.st[k].loop.Flight? && s.setup == Complete
    requires CameBack(s, r, k, both)
    ensures Ledger(r) && Loops(r) && EndedOnce(r) && Alive(r) && Discipline(r)
  {
  }

  lemma CameBackWired(s: State, r: State, k: nat)
    requires Inv(s) && k < |s.st| && s.st[k].loop.Flight? && s.setup == Complete
    requires CameBack(s, r, k, true)
    ensures Wired(r)
  {
    forall i, j | 0 <= i < |r.st| && 0 <= j < |r.st| && Ready(r, i) && Ready(r, j)
      ensures PipeCount(r, i, j) == if j == Succ(r.cfg, i) then 1 else 0
    {
      if i != k && j != k {
        assert Ready(s, i) && Ready(s, j);
      } else {
        assert (r.st[i].stream, r.st[j].stream) !in s.pipes;
      }
    }
  }

  /** `repipe` threw: the stage lacks a pipe, but `destroy` closes every stage at once. */
  lemma ThrowKeeps(r: State)
    requires Identities(r) && Ledger(r) && Loops(r) && EndedOnce(r) && Discipline(r)
    requires r.setup == Complete
    ensures Inv(SessionError(r))
  {
    var e := SessionError(r);
    SessionEnds(r);
    QuietLog(r, e);
    QuietStages(r, e);
    assert forall j :: 0 <= j < |e.st| ==> Closed(e.st[j]);
  }

  lemma ConnectKeeps(r: State)
    requires Inv(r) && r.setup == Complete && r.lost == {}
    requires forall i :: 0 <= i < |r.log| && r.log[i] == LogConnect ==> DisconnectBetween(r.log, i, |r.log|)
    ensures Inv(Connect(r))
  {
    var c := Connect(r);
    SamePipesWired(r, c);
    LogConnects(r, c);
    assert LogDestroy in c.log <==> LogDestroy in r.log;
  }

  lemma ResumeKeeps(s: State, k: nat)
    requires Inv(s) && k < |s.st| && s.st[k].loop.Flight? && s.setup == Complete
    ensures Inv(Resume(Renew(s, k), k))
  {
    var (r, ok) := Repipe(Repay(Renew(s, k), k), k);
    RepipeCameBack(s, k);
    CameBackIdentities(s, r, k, ok);
    CameBackStages(s, r, k, ok);
    if !ok {
      ThrowKeeps(r);
    } else {
      CameBackWired(s, r, k);
      if r.active == r.num {
        assert k in s.lost && r.lost == {};
        ConnectKeeps(r);
      }
    }
  }

  lemma CountInSeq<T>(xs: seq<T>, i: nat)
    requires i < |xs| && forall j :: 0 <= j < |xs| && j != i ==> xs[j] != xs[i]
    ensures multiset(xs)[xs[i]] == 1
  {
    assert xs == xs[..i] + [xs[i]] + xs[i + 1..];
    assert xs[i] !in xs[..i] && xs[i] !in xs[i + 1..];
  }

  lemma RingCount(s: State, k: nat, j: nat)
    requires Identities(s) && k < |s.st| && j < |s.st|
    requires forall i :: 0 <= i < |s.st| ==> s.st[i].stream >= 0
    ensures multiset(RingPipes(s))[(s.st[k].stream, s.st[j].stream)] == if j == Succ(s.cfg, k) then 1 else 0
  {
    var xs := RingPipes(s);
    var x := (s.st[k].stream, s.st[j].stream);
    assert forall i: nat :: i < |xs| ==> xs[i] == (s.st[i].stream, s.st[Succ(s.cfg, i)].stream);
    if j == Succ(s.cfg, k) {
      assert xs[k] == x;
      CountInSeq(xs, k);
    } else {
      assert x !in xs;
    }
  }

  lemma FinishIdentities(s: State)
    requires Inv(s) && s.setup == Pending
    requires forall j :: 0 <= j < |s.st| ==> s.st[j].stream >= 0
    ensures Identities(Finish(s))
  {
    var r := Finish(s);
    RingInRange(s);
    assert r.pipes == s.pipes + RingPipes(s);
    assert forall k :: 0 <= k < |s.st| ==> r.st[k].stream == s.st[k].stream;
  }

  lemma RingInRange(s: State)
    requires Identities(s)
    ensures forall p :: p in RingPipes(s) ==> p.0 < s.next && p.1 < s.next
  {
    var xs := RingPipes(s);
    forall p | p in xs
      ensures p.0 < s.next && p.1 < s.next
    {
      var i: nat :| i < |xs| && xs[i] == p;
      assert p == (s.st[i].stream, s.st[Succ(s.cfg, i)].stream);
    }
  }

  lemma FinishWired(s: State)
    requires Identities(s) && Wired(s) && s.setup == Pending
    requires forall j :: 0 <= j < |s.st| ==> s.st[j].stream >= 0
    ensures Wired(Finish(s))
  {
    var r := Finish(s);
    assert r.pipes == RingPipes(s);
    forall k, j | 0 <= k < |r.st| && 0 <= j < |r.st|
      ensures PipeCount(r, k, j) == if j == Succ(r.cfg, k) then 1 else 0
    {
      RingCount(s, k, j);
      assert r.st[k].stream == s.st[k].stream && r.st[j].stream == s.st[j].stream;
    }
  }

  lemma FinishKeeps(s: State)
    requires Inv(s) && s.setup == Pending
    requires forall j :: 0 <= j < |s.st| ==> s.st[j].loop == Idle
    ensures Inv(Finish(s))
  {
    var r := Finish(s);
    assert forall k :: 0 <= k < |s.st| ==> r.st[k] == s.st[k].(status := READY);
    FinishIdentities(s);
    FinishWired(s);
    LogConnects(s, r);
    assert LogDestroy in r.log <==> LogDestroy in s.log;
  }

  lemma SucceedKeeps(s: State, k: nat)
    requires Inv(s) && k < |s.st| && s.st[k].loop.Flight?
    ensures Inv(Succeed(s, k))
  {
    if s.setup == Complete {
      ResumeKeeps(s, k);
    } else {
      RenewKeeps(s, k);
      var s1 := Renew(s, k);
      if s.setup == Pending && forall j :: 0 <= j < |s1.st| ==> s1.st[j].loop == Idle {
        FinishKeeps(s1);
      }
    }
  }

  // ----------------------------------------------------------------------- whole runs

  lemma StepKeeps(s: State, e: Event)
    requires Inv(s)
    ensures Inv(Step(s, e))
  {
    if Enabled(s, e) {
      match e
      case Lost(k, listener, retriable) => DisconnectKeeps(s, k, listener, retriable);
      case AttemptSucceeded(k) => SucceedKeeps(s, k);
      case AttemptFailed(k) => FailKeeps(s, k);
      case Timer(k, retriable) => TimerKeeps(s, k, retriable);
      case ApiEnd => SessionEndKeeps(s);
      case Removed => NamedKeeps(s, false);
      case NameReused => NamedKeeps(s, true);
    }
  }

  lemma NamedKeeps(s: State, named: bool)
    requires Inv(s)
    ensures Inv(s.(named := named))
  {
    SamePipesWired(s, s.(named := named));
  }

  lemma InitialInv(c: Config, sourceRetriable: bool)
    ensures Inv(Initial(c, sourceRetriable))
  {
  }

  lemma {:induction false} RunKeeps(s: State, es: seq<Event>)
    requires Inv(s)
    ensures Inv(Run(s, es))
    decreases |es|
  {
    if es != [] {
      StepKeeps(s, es[0]);
      RunKeeps(Step(s, es[0]), es[1..]);
    }
  }
}
