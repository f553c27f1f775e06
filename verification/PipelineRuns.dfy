/** What the safety invariant means for every run of a session, from set-up to removal. */
module PipelineRuns {
  import opened Pipeline
  import opened PipelineSteps
  import opened PipelineSafety

  ghost predicate Reachable(s: State, c: Config) {
    exists sourceRetriable: bool, es: seq<Event> :: s == Run(Initial(c, sourceRetriable), es)
  }

  lemma ReachableInv(s: State, c: Config)
    requires Reachable(s, c)
    ensures Inv(s) && s.cfg == c
  {
    var sourceRetriable: bool, es: seq<Event> :| s == Run(Initial(c, sourceRetriable), es);
    InitialInv(c, sourceRetriable);
    RunKeeps(Initial(c, sourceRetriable), es);
  }

  /** Of the events that change a session, only a success lays a pipe. */
  lemma StepQuiet(s: State, e: Event)
    requires Inv(s) && Enabled(s, e) && !e.AttemptSucceeded? && !e.Removed? && !e.NameReused?
    ensures Quiet(s, Step(s, e))
  {
    match e
    case Lost(k, listener, retriable) =>
      assert s.st[k].status == READY ==> s.st[k].loop == Idle;
      DisconnectFacts(s, k, listener, retriable);
    case AttemptFailed(k) => FailLocal(s, k);
    case Timer(k, retriable) => StartLocal(s, k, s.st[k].loop.left, retriable);
    case ApiEnd => SessionEnds(s);
  }

  lemma StaysComplete(s: State, e: Event)
    requires Inv(s) && s.setup == Complete
    ensures Step(s, e).setup == Complete
  {
    if Enabled(s, e) && !e.Removed? && !e.NameReused? {
      if e.AttemptSucceeded? {
        SucceedFacts(s, e.k);
      } else {
        StepQuiet(s, e);
      }
    }
  }

  // -------------------------------------------------------------------- the ring of pipes

  /** Under any interleaving of losses and reconnections of any stages, two READY stages are
      joined by exactly one pipe between their current streams if they are ring-adjacent in
      that direction, and by none otherwise. */
  lemma RingExactlyOnce(s: State, c: Config, k: nat, j: nat)
    requires Reachable(s, c) && s.setup == Complete
    requires Ready(s, k) && Ready(s, j)
    ensures multiset(s.pipes)[(s.st[k].stream, s.st[j].stream)] == if j == Succ(c, k) then 1 else 0
  {
    ReachableInv(s, c);
  }

  /** `active_streams` falls short of `num_streams` by the number of stages lost and not yet
      repiped, the source included. */
  lemma LedgerBalances(s: State, c: Config)
    requires Reachable(s, c) && s.setup == Complete
    ensures s.num == Size(c) - 1 && s.active + |s.lost| == s.num
    ensures forall k :: k in s.lost ==> k < Size(c) && s.st[k].status != READY
    ensures LogDestroy !in s.log ==> forall k: nat :: k < Size(c) && k !in s.lost ==> Ready(s, k)
  {
    ReachableInv(s, c);
  }

  predicate Reports(s: State, r: State) {
    |s.log| < |r.log| && r.log[|r.log| - 1] == LogConnect
  }

  /** A step that reports CONNECT leaves no loss unpaid; unless the session was destroyed
      before, every stage is READY and the whole ring is piped, each pipe once. */
  lemma ConnectMeansWhole(s: State, e: Event)
    requires Inv(s)
    ensures var r := Step(s, e); Reports(s, r) ==>
      && r.setup == Complete && r.lost == {} && r.active == r.num
      && (LogDestroy !in r.log ==> forall k: nat :: k < Size(r.cfg) ==>
            Ready(r, k) && PipeCount(r, k, Succ(r.cfg, k)) == 1)
  {
    StepKeeps(s, e);
    if !e.AttemptSucceeded? {
      OnlySuccessReports(s, e);
    } else if Enabled(s, e) {
      SuccessReports(s, e.k);
    }
  }

  lemma OnlySuccessReports(s: State, e: Event)
    requires Inv(s) && !e.AttemptSucceeded?
    ensures !Reports(s, Step(s, e)) && s.log <= Step(s, e).log
    ensures forall i :: |s.log| <= i < |Step(s, e).log| ==> Step(s, e).log[i] != LogConnect
  {
    if Enabled(s, e) && !e.Removed? && !e.NameReused? {
      StepQuiet(s, e);
    }
  }

  lemma SuccessReports(s: State, k: nat)
    requires Inv(s) && k < |s.st| && s.st[k].loop.Flight?
    ensures Reports(s, Succeed(s, k)) ==> Succeed(s, k).setup == Complete && Succeed(s, k).lost == {}
  {
    SucceedFacts(s, k);
    if s.setup == Complete {
      assert |s.lost - {k}| == |s.lost| - 1;
    } else {
      assert s.lost == {} && Renew(s, k).log == s.log;
    }
  }

  /** In every run two CONNECT reports have a DISCONNECT between them. */
  lemma DisconnectBetweenConnects(s: State, c: Config, i: nat, j: nat)
    requires Reachable(s, c)
    requires i < j < |s.log| && s.log[i] == LogConnect && s.log[j] == LogConnect
    ensures exists m :: i < m < j && s.log[m] == LogDisconnect
  {
    ReachableInv(s, c);
    assert DisconnectBetween(s.log, i, j);
  }

  // ------------------------------------------------------------------ lost for good

  /** The branches in which the session gives up stage k: it is lost and cannot return, its
      attempts are exhausted, or its timer finds the session's name unregistered. */
  predicate GivesUp(s: State, e: Event, k: nat) {
    && s.setup == Complete && Enabled(s, e)
    && match e
       case Lost(j, listener, _) => j == k && s.st[k].status == READY && CannotReturn(s, k, listener)
       case AttemptFailed(j) => j == k && (k == 0 || s.st[k].loop.left == 0)
       case Timer(j, _) => j == k && !s.named
       case _ => false
  }

  /** A loss that nothing can repay any more. */
  predicate Dead(s: State, k: nat) {
    s.setup == Complete && k in s.lost && k < |s.st| && s.st[k].loop == Idle
  }

  /** A stage becomes dead exactly when the session gives it up, and then the session has
      been destroyed. */
  lemma DeadExactlyWhenGivenUp(s: State, e: Event, k: nat)
    requires Inv(s) && k < |s.st|
    ensures Dead(Step(s, e), k) <==> Dead(s, k) || GivesUp(s, e, k)
    ensures GivesUp(s, e, k) ==> LogDestroy in Step(s, e).log
  {
    if Enabled(s, e) {
      match e
      case Lost(j, listener, retriable) => LostDead(s, j, listener, retriable, k);
      case AttemptSucceeded(j) => SucceedDead(s, j, k);
      case AttemptFailed(j) => FailDead(s, j, k);
      case Timer(j, retriable) => TimerDead(s, j, retriable, k);
      case ApiEnd => SessionEnds(s);
      case Removed =>
      case NameReused =>
    }
  }

  lemma LostDead(s: State, j: nat, listener: Listener, retriable: bool, k: nat)
    requires Inv(s) && j < |s.st| && k < |s.st| && (j == 0 ==> s.setup == Complete)
    ensures Dead(Disconnect(s, j, listener, retriable), k) <==>
            Dead(s, k) || GivesUp(s, Lost(j, listener, retriable), k)
    ensures GivesUp(s, Lost(j, listener, retriable), k) ==>
            LogDestroy in Disconnect(s, j, listener, retriable).log
  {
    assert s.st[j].status == READY && s.setup == Complete ==> s.st[j].loop == Idle;
    if s.st[j].status == READY ==> s.st[j].loop == Idle {
      DisconnectFacts(s, j, listener, retriable);
    }
  }

  lemma FailDead(s: State, j: nat, k: nat)
    requires Inv(s) && j < |s.st| && k < |s.st| && s.st[j].loop.Flight?
    ensures Dead(Fail(s, j), k) <==> Dead(s, k) || GivesUp(s, AttemptFailed(j), k)
    ensures GivesUp(s, AttemptFailed(j), k) ==> LogDestroy in Fail(s, j).log
  {
    FailLocal(s, j);
  }

  lemma TimerDead(s: State, j: nat, retriable: bool, k: nat)
    requires Inv(s) && j < |s.st| && k < |s.st| && s.st[j].loop.Waiting?
    ensures var r := StartAttempt(s, j, s.st[j].loop.left, retriable);
      && (Dead(r, k) <==> Dead(s, k) || GivesUp(s, Timer(j, retriable), k))
      && (GivesUp(s, Timer(j, retriable), k) ==> LogDestroy in r.log)
  {
    assert s.st[j].status == RETRYING;
    StartLocal(s, j, s.st[j].loop.left, retriable);
  }

  lemma SucceedDead(s: State, j: nat, k: nat)
    requires Inv(s) && j < |s.st| && k < |s.st| && s.st[j].loop.Flight?
    ensures Dead(Succeed(s, j), k) <==> Dead(s, k)
  {
    SucceedFacts(s, j);
  }

  /** A session that gave up a stage never reports CONNECTED again, whatever happens next:
      not even when other stages, still being retried, come back. */
  lemma {:induction false} NeverConnectsAgain(s: State, k: nat, es: seq<Event>)
    requires Inv(s) && Dead(s, k)
    ensures s.log <= Run(s, es).log
    ensures forall i :: |s.log| <= i < |Run(s, es).log| ==> Run(s, es).log[i] != LogConnect
    decreases |es|
  {
    if es != [] {
      var t := Step(s, es[0]);
      StepKeeps(s, es[0]);
      DeadExactlyWhenGivenUp(s, es[0], k);
      DeadStepSilent(s, es[0], k);
      NeverConnectsAgain(t, k, es[1..]);
      var r := Run(t, es[1..]);
      forall i | |s.log| <= i < |r.log|
        ensures r.log[i] != LogConnect
      {
        assert i < |t.log| ==> r.log[i] == t.log[i];
      }
    }
  }

  lemma DeadStepSilent(s: State, e: Event, k: nat)
    requires Inv(s) && Dead(s, k)
    ensures s.log <= Step(s, e).log
    ensures forall i :: |s.log| <= i < |Step(s, e).log| ==> Step(s, e).log[i] != LogConnect
  {
    if !e.AttemptSucceeded? {
      OnlySuccessReports(s, e);
    } else if Enabled(s, e) {
      OpenLossSilent(s, e.k, k);
    }
  }

  /** While another loss is open, a success does not report CONNECT. */
  lemma OpenLossSilent(s: State, j: nat, k: nat)
    requires Inv(s) && s.setup == Complete && k in s.lost && j != k && j < |s.st| && s.st[j].loop.Flight?
    ensures s.log <= Succeed(s, j).log
    ensures forall i :: |s.log| <= i < |Succeed(s, j).log| ==> Succeed(s, j).log[i] != LogConnect
  {
    SucceedFacts(s, j);
    assert {j, k} <= s.lost;
    assert |s.lost - {j}| > 0;
  }

  // --------------------------------------------------------------------- ending streams

  /** `destroy` leaves every stage END or RETRYING, returns 1 exactly when none is RETRYING,
      and a second call, whether through `end` or `error`, ends no stream again. */
  lemma DestroyAgainEndsNothing(s: State)
    requires |s.st| == Size(s.cfg)
    ensures forall k :: 0 <= k < |s.st| ==> Closed(Destroy(s).st[k])
    ensures DestroyResult(s) == 1 <==> forall k :: 0 <= k < |s.st| ==> Destroy(s).st[k].status == END
    ensures SessionEnd(Destroy(s)).st == Destroy(s).st && SessionError(Destroy(s)).st == Destroy(s).st
    ensures DestroyResult(Destroy(s)) == DestroyResult(s)
  {
    var d := Destroy(s);
    DestroyEnds(s);
    assert forall k :: 0 <= k < |s.st| ==> (d.st[k].status == RETRYING <==> s.st[k].status == RETRYING);
    assert forall t: State :: t.st == d.st ==> Destroy(t).st == d.st;
  }

  /** What ending a session does to each stage: one that is RETRYING is left alone; any other is
      END, and its stream, if it has one, is ended once more unless the stage was END before. No
      loop, stream or pipe changes. */
  lemma DestroyEndsEach(s: State, k: nat)
    requires k < |s.st|
    ensures forall r :: r in [Destroy(s), SessionEnd(s), SessionError(s)] ==>
              && r.pipes == s.pipes && r.lost == s.lost && r.active == s.active && r.setup == s.setup
              && r.st[k].stream == s.st[k].stream && r.st[k].loop == s.st[k].loop
              && r.st[k].retriable == s.st[k].retriable
              && r.st[k].status == (if s.st[k].status == RETRYING then RETRYING else END)
              && r.st[k].ends == s.st[k].ends +
                 (if s.st[k].status == RETRYING || s.st[k].status == END || s.st[k].stream < 0 then 0 else 1)
  {
    assert forall t: State :: t.st == s.st ==> Destroy(t).st[k] == DestroyStage(s.st[k]);
  }

  /** In a run whose set-up did not complete after a `destroy`, no stream is ended twice. */
  lemma StreamsEndOnce(s: State, c: Config, k: nat)
    requires Reachable(s, c) && !s.late && k < |s.st|
    ensures s.st[k].ends <= 1
  {
    ReachableInv(s, c);
  }
}
