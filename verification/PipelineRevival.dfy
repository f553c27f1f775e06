/** When a session that lost stages can report CONNECT again. */
module PipelineRevival {
  import opened Pipeline
  import opened PipelineSteps
  import opened PipelineSafety
  import opened PipelineRuns

  /** Every loss has an attempt running. */
  ghost predicate AllInFlight(s: State) {
    s.setup == Complete && s.lost != {} && forall k :: k in s.lost ==> k < |s.st| && s.st[k].loop.Flight?
  }

  /** Timers fire and attempts succeed; nothing else happens. */
  predicate Favourable(es: seq<Event>) {
    forall i :: 0 <= i < |es| ==> es[i].AttemptSucceeded? || es[i].Timer?
  }

  /** Some such run reports CONNECT. */
  ghost predicate CanConnect(s: State)
    requires |s.st| == Size(s.cfg)
  {
    exists es: seq<Event> :: Favourable(es) && Connects(s, es)
  }

  ghost predicate Connects(s: State, es: seq<Event>)
    requires |s.st| == Size(s.cfg)
  {
    exists i :: |s.log| <= i < |Run(s, es).log| && Run(s, es).log[i] == LogConnect
  }

  /** Stage k, in flight, succeeds: the losses shrink by k alone, and CONNECT is reported
      exactly when none is left and the repipe did not throw. */
  lemma SuccessEffect(s: State, k: nat)
    requires Inv(s) && AllInFlight(s) && k in s.lost
    ensures var r := Succeed(s, k);
      && r.lost == s.lost - {k} && r.setup == Complete && r.cfg == s.cfg && s.log <= r.log
      && OtherLoopsSame(s, r, k) && r.st[k].loop == Idle
      && ((exists i :: |s.log| <= i < |r.log| && r.log[i] == LogConnect) <==>
          s.lost == {k} && (s.cfg.intended || !LastEgress(s.cfg, k)))
  {
    SucceedFacts(s, k);
    assert s.lost == {k} <==> |s.lost - {k}| == 0;
    if s.active + 1 == s.num {
      assert ResumeLog(s, k) == [LogConnect] ==> Succeed(s, k).log[|s.log|] == LogConnect;
    }
  }

  lemma OthersInFlight(s: State, t: State, k: nat)
    requires AllInFlight(s) && k in s.lost && s.lost != {k}
    requires t.lost == s.lost - {k} && t.setup == Complete && SameShape(s, t) && OtherLoopsSame(s, t, k)
    ensures AllInFlight(t)
  {
    assert exists j :: j in s.lost && j != k;
  }

  lemma SuccessGoesOn(s: State, k: nat)
    requires Inv(s) && AllInFlight(s) && k in s.lost && s.lost != {k}
    ensures Inv(Succeed(s, k)) && AllInFlight(Succeed(s, k))
    ensures Succeed(s, k).lost == s.lost - {k} && s.log <= Succeed(s, k).log
  {
    SuccessEffect(s, k);
    SucceedKeeps(s, k);
    OthersInFlight(s, Succeed(s, k), k);
  }

  lemma CanConnectBefore(s: State, e: Event)
    requires |s.st| == Size(s.cfg) && s.log <= Step(s, e).log && (e.AttemptSucceeded? || e.Timer?)
    requires CanConnect(Step(s, e))
    ensures CanConnect(s)
  {
    var es: seq<Event> :| Favourable(es) && Connects(Step(s, e), es);
    Prepend(s, e, es);
    assert Favourable([e] + es);
  }

  lemma LastSuccess(s: State, k: nat)
    requires Inv(s) && AllInFlight(s) && s.lost == {k}
    requires s.cfg.intended || !LastEgress(s.cfg, k)
    ensures CanConnect(s)
  {
    assert k in s.lost;
    SuccessEffect(s, k);
    var r := Succeed(s, k);
    var i :| |s.log| <= i < |r.log| && r.log[i] == LogConnect;
    assert Step(s, AttemptSucceeded(k)).log[i] == LogConnect;
    OneStepConnects(s, AttemptSucceeded(k));
  }

  lemma OneStepConnects(s: State, e: Event)
    requires |s.st| == Size(s.cfg) && e.AttemptSucceeded?
    requires exists i :: |s.log| <= i < |Step(s, e).log| && Step(s, e).log[i] == LogConnect
    ensures CanConnect(s)
  {
    var es := [e];
    assert es[1..] == [] && Run(s, es) == Step(s, e);
    assert Connects(s, es) && Favourable(es);
  }

  /** Let stage k succeed first; no other lost stage may be one whose repipe throws. */
  lemma {:induction false} ReviveFrom(s: State, k: nat)
    requires Inv(s) && AllInFlight(s) && k in s.lost
    requires s.cfg.intended || (forall j :: j in s.lost && j != k ==> !LastEgress(s.cfg, j))
    requires s.cfg.intended || !LastEgress(s.cfg, k) || s.lost != {k}
    ensures CanConnect(s)
    decreases |s.lost|
  {
    if s.lost == {k} {
      LastSuccess(s, k);
    } else {
      SuccessGoesOn(s, k);
      var j :| j in Succeed(s, k).lost;
      ReviveFrom(Succeed(s, k), j);
      CanConnectBefore(s, AttemptSucceeded(k));
    }
  }

  lemma Prepend(s: State, e: Event, es: seq<Event>)
    requires |s.st| == Size(s.cfg) && s.log <= Step(s, e).log
    requires Connects(Step(s, e), es)
    ensures Connects(s, [e] + es)
  {
    assert ([e] + es)[1..] == es;
    var i :| |Step(s, e).log| <= i < |Run(Step(s, e), es).log| && Run(Step(s, e), es).log[i] == LogConnect;
    assert Run(s, [e] + es).log[i] == LogConnect;
  }

  /** With every loss in flight, the only hopeless case is the written one. */
  lemma InFlightRevives(s: State)
    requires Inv(s) && AllInFlight(s) && !Hopeless(s)
    ensures CanConnect(s)
  {
    if k: nat :| k in s.lost && LastEgress(s.cfg, k) {
      ReviveFrom(s, k);
    } else {
      var k: nat :| k in s.lost;
      ReviveFrom(s, k);
    }
  }

  /** As written: the last egress stage is the only loss, and its repipe throws. */
  predicate Hopeless(s: State) {
    !s.cfg.intended && exists k :: k in s.lost && LastEgress(s.cfg, k) && s.lost == {k}
  }

  ghost predicate Retried(s: State, k: nat) {
    k < |s.st| && (s.st[k].loop.Flight? || (s.st[k].loop.Waiting? && s.named))
  }

  function WaitingLosses(s: State): set<nat> { set k | k in s.lost && k < |s.st| && s.st[k].loop.Waiting? }

  lemma TimerFires(s: State, k: nat)
    requires Inv(s) && s.setup == Complete && k < |s.st| && s.st[k].loop.Waiting? && s.named
    ensures var t := Step(s, Timer(k, true));
      && t.lost == s.lost && t.log == s.log && t.named && t.setup == Complete && t.cfg == s.cfg
      && t.st[k].loop.Flight? && forall j :: 0 <= j < |s.st| && j != k ==> t.st[j] == s.st[j]
  {
  }

  /** Due retries start first, then every attempt succeeds. */
  lemma {:induction false} RetriedRevives(s: State)
    requires Inv(s) && s.setup == Complete && s.lost != {}
    requires (forall k :: k in s.lost ==> Retried(s, k)) && !Hopeless(s)
    ensures CanConnect(s)
    decreases WaitingLosses(s)
  {
    if k: nat :| k in WaitingLosses(s) {
      var e := Timer(k, true);
      var t := Step(s, e);
      TimerFires(s, k);
      StepKeeps(s, e);
      assert WaitingLosses(t) == WaitingLosses(s) - {k};
      RetriedRevives(t);
      CanConnectBefore(s, e);
    } else {
      assert forall k: nat :: k in s.lost ==> k !in WaitingLosses(s);
      InFlightRevives(s);
    }
  }

  /** A loss that is not retried, or waits for a name that is gone, keeps every favourable run
      from reporting CONNECT. */
  lemma {:induction false} StuckSilent(s: State, k: nat, es: seq<Event>)
    requires Inv(s) && s.setup == Complete && k in s.lost && !Retried(s, k) && Favourable(es)
    ensures !Connects(s, es)
    decreases |es|
  {
    if es != [] {
      var e, t := es[0], Step(s, es[0]);
      StepKeeps(s, e);
      StuckStep(s, k, e);
      if s.st[k].loop == Idle {
        NeverConnectsAgain(s, k, es);
      } else {
        StuckSilent(t, k, es[1..]);
        SilentFirst(s, es);
      }
    }
  }

  lemma StuckStep(s: State, k: nat, e: Event)
    requires Inv(s) && s.setup == Complete && k in s.lost && !Retried(s, k) && (e.AttemptSucceeded? || e.Timer?)
    ensures var t := Step(s, e);
      && t.setup == Complete && k in t.lost && !Retried(t, k) && s.log <= t.log
      && forall i :: |s.log| <= i < |t.log| ==> t.log[i] != LogConnect
  {
    if Enabled(s, e) {
      if e.AttemptSucceeded? {
        SucceedFacts(s, e.k);
        OpenLossSilent(s, e.k, k);
      } else {
        StartLocal(s, e.k, s.st[e.k].loop.left, e.retriable);
      }
    }
  }

  lemma StepLog(s: State, e: Event)
    requires Inv(s)
    ensures s.log <= Step(s, e).log
  {
    if !e.AttemptSucceeded? {
      OnlySuccessReports(s, e);
    } else if Enabled(s, e) {
      SucceedFacts(s, e.k);
    }
  }

  lemma {:induction false} LogGrows(s: State, es: seq<Event>)
    requires Inv(s)
    ensures s.log <= Run(s, es).log
    decreases |es|
  {
    if es != [] {
      StepKeeps(s, es[0]);
      StepLog(s, es[0]);
      LogGrows(Step(s, es[0]), es[1..]);
    }
  }

  lemma Silent(s: State, e: Event, es: seq<Event>)
    requires Inv(s) && s.log <= Step(s, e).log
    requires forall i :: |s.log| <= i < |Step(s, e).log| ==> Step(s, e).log[i] != LogConnect
    requires !Connects(Step(s, e), es)
    ensures !Connects(s, [e] + es)
  {
    var t := Step(s, e);
    assert ([e] + es)[1..] == es;
    StepKeeps(s, e);
    LogGrows(t, es);
    assert forall i :: 0 <= i < |t.log| ==> Run(t, es).log[i] == t.log[i];
  }

  lemma SilentFirst(s: State, es: seq<Event>)
    requires Inv(s) && es != [] && s.log <= Step(s, es[0]).log
    requires forall i :: |s.log| <= i < |Step(s, es[0]).log| ==> Step(s, es[0]).log[i] != LogConnect
    requires !Connects(Step(s, es[0]), es[1..])
    ensures !Connects(s, es)
  {
    Silent(s, es[0], es[1..]);
    assert es == [es[0]] + es[1..];
  }

  lemma {:induction false} NothingInFlight(s: State, es: seq<Event>)
    requires |s.st| == Size(s.cfg) && Favourable(es) && forall j :: 0 <= j < |s.st| ==> s.st[j].loop == Idle
    ensures Run(s, es) == s
    decreases |es|
  {
    if es != [] {
      assert !Enabled(s, es[0]);
      NothingInFlight(s, es[1..]);
    }
  }

  /** The only loss is the last egress stage, as written: nothing favourable helps. */
  lemma {:induction false} OnlyThrows(s: State, k: nat, es: seq<Event>)
    requires Inv(s) && s.setup == Complete && s.lost == {k} && LastEgress(s.cfg, k) && !s.cfg.intended
    requires Favourable(es)
    ensures !Connects(s, es)
    decreases |es|
  {
    if es != [] {
      var e, rest := es[0], es[1..];
      var t := Step(s, e);
      OnlyThrowsStep(s, k, e);
      if Enabled(s, e) && e.AttemptSucceeded? {
        NothingConnects(t, rest);
      } else {
        StepKeeps(s, e);
        OnlyThrows(t, k, rest);
      }
      SilentFirst(s, es);
    }
  }

  lemma OnlyThrowsStep(s: State, k: nat, e: Event)
    requires Inv(s) && s.setup == Complete && s.lost == {k} && LastEgress(s.cfg, k) && !s.cfg.intended
    requires e.AttemptSucceeded? || e.Timer?
    ensures var t := Step(s, e);
      && s.log <= t.log && (forall i :: |s.log| <= i < |t.log| ==> t.log[i] != LogConnect)
      && if Enabled(s, e) && e.AttemptSucceeded? then forall j :: 0 <= j < |s.st| ==> t.st[j].loop == Idle
         else t.setup == Complete && t.lost == {k} && t.cfg == s.cfg
  {
    if Enabled(s, e) {
      assert e.k in s.lost;
      if e.AttemptSucceeded? {
        ThrowIdles(s, k);
      } else {
        StartLocal(s, k, s.st[k].loop.left, e.retriable);
      }
    }
  }

  lemma NothingConnects(s: State, es: seq<Event>)
    requires |s.st| == Size(s.cfg) && Favourable(es) && forall j :: 0 <= j < |s.st| ==> s.st[j].loop == Idle
    ensures !Connects(s, es)
  {
    NothingInFlight(s, es);
  }

  lemma ThrowIdles(s: State, k: nat)
    requires Inv(s) && s.setup == Complete && s.lost == {k} && LastEgress(s.cfg, k) && !s.cfg.intended
    requires k < |s.st| && s.st[k].loop.Flight?
    ensures var t := Succeed(s, k);
      && (forall j :: 0 <= j < |s.st| ==> t.st[j].loop == Idle) && s.log <= t.log
      && forall i :: |s.log| <= i < |t.log| ==> t.log[i] != LogConnect
  {
    SucceedFacts(s, k);
  }

  /** When the retry loops of a session can make it report CONNECT again, destroyed or not: some
      stage is lost, every lost stage has an attempt running or waits for one that the registry
      still allows, and, as the code is written, the last egress stage is not the only loss. */
  lemma RevivesExactlyWhen(s: State)
    requires Inv(s) && s.setup == Complete
    ensures CanConnect(s) <==> s.lost != {} && (forall k :: k in s.lost ==> Retried(s, k)) && !Hopeless(s)
  {
    if s.lost == {} {
      forall es: seq<Event> | Favourable(es)
        ensures !Connects(s, es)
      {
        NothingInFlight(s, es);
      }
    } else if k: nat :| k in s.lost && !Retried(s, k) {
      forall es: seq<Event> | Favourable(es)
        ensures !Connects(s, es)
      {
        StuckSilent(s, k, es);
      }
    } else if Hopeless(s) {
      var k: nat :| k in s.lost && LastEgress(s.cfg, k) && s.lost == {k};
      forall es: seq<Event> | Favourable(es)
        ensures !Connects(s, es)
      {
        OnlyThrows(s, k, es);
      }
    } else {
      RetriedRevives(s);
    }
  }

  /** As the code is written, losing the last egress stage ends in `error`: its reconnection
      repays the loss, then the repipe throws and the session is destroyed. */
  lemma LastEgressCannotReturn(s: State, k: nat)
    requires Inv(s) && s.setup == Complete && k < |s.st| && s.st[k].loop.Flight?
    ensures LastEgress(s.cfg, k) && !s.cfg.intended <==> !Repipe(Repay(Renew(s, k), k), k).1
    ensures LastEgress(s.cfg, k) && !s.cfg.intended ==> LogDestroy in Succeed(s, k).log
  {
    RepipeCameBack(s, k);
    SessionEnds(Repipe(Repay(Renew(s, k), k), k).0);
  }

  /** The other losses keep their running attempts, and once those succeed the session so
      destroyed reports CONNECT. */
  lemma DestroyedSessionReportsConnect(s: State, k: nat)
    requires Inv(s) && AllInFlight(s) && k in s.lost && LastEgress(s.cfg, k) && !s.cfg.intended
    requires s.lost != {k}
    ensures LogDestroy in Succeed(s, k).log && CanConnect(Succeed(s, k))
  {
    LastEgressCannotReturn(s, k);
    SuccessGoesOn(s, k);
    var j :| j in Succeed(s, k).lost;
    ReviveFrom(Succeed(s, k), j);
  }
}
