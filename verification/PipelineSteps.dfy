/** What one stretch of session code does to the state, function by function. */
module PipelineSteps {
  import opened Pipeline

  lemma RunFirst(s: State, e: Event, es: seq<Event>)
    requires |s.st| == Size(s.cfg)
    ensures Run(s, [e] + es) == Run(Step(s, e), es)
  {
    assert ([e] + es)[1..] == es;
  }

  predicate Closed(t: Stage) { t.status == END || t.status == RETRYING }

  /** What a stage can go through without obtaining a new stream. */
  predicate StageStep(a: Stage, b: Stage) {
    && b.stream == a.stream
    && (b.status == READY ==> a.status == READY)
    && (Closed(a) ==> Closed(b) && b.ends == a.ends)
    && (b.ends == a.ends || (b.ends == a.ends + 1 && Closed(b)))
    && ((a.loop.Waiting? ==> a.status == RETRYING) && (a.status == RETRYING ==> !a.loop.Idle?) ==>
          (b.loop.Waiting? ==> b.status == RETRYING) && (b.status == RETRYING ==> !b.loop.Idle?))
  }

  /** What any stretch of session code does that lays no pipe: stages move by `StageStep`,
      the log grows without reporting CONNECT, a retry loop starts for a lost stage only. */
  ghost predicate Quiet(s: State, r: State) {
    && SameShape(s, r)
    && r.pipes == s.pipes && r.next == s.next && r.late == s.late && r.num == s.num
    && r.named == s.named && (!s.named ==> r.attempts == s.attempts)
    && s.lost <= r.lost
    && (r.setup == s.setup || (s.setup == Pending && r.setup == Aborted))
    && s.log <= r.log
    && (forall i :: |s.log| <= i < |r.log| ==> r.log[i] != LogConnect)
    && (forall j :: 0 <= j < |s.st| ==> StageStep(s.st[j], r.st[j]))
    && (forall j :: 0 <= j < |s.st| && !r.st[j].loop.Idle? ==> !s.st[j].loop.Idle? || j in r.lost)
    && (forall j :: j in r.lost && j !in s.lost ==> j < |s.st| && r.st[j].status != READY)
    && (LogDestroy !in r.log ==> forall j :: 0 <= j < |s.st| ==> r.st[j].ends == s.st[j].ends)
    && (r.setup == Pending ==> forall j :: 0 <= j < |s.st| && r.st[j].loop.Idle? ==> s.st[j].loop.Idle?)
    && (|s.st| > 0 && s.st[0].status != RETRYING ==> r.st[0].status != RETRYING)
  }

  lemma QuietTransitive(s: State, t: State, r: State)
    ensures Quiet(s, t) && Quiet(t, r) ==> Quiet(s, r)
  {
    if Quiet(s, t) && Quiet(t, r) {
      forall i | |s.log| <= i < |r.log|
        ensures r.log[i] != LogConnect
      {
        assert i < |t.log| ==> r.log[i] == t.log[i];
      }
      assert LogDestroy in t.log ==> LogDestroy in r.log;
    }
  }

  /** After set-up, a stage that is to come back has a retry loop unless the session was
      destroyed, and the other stages are as before. */
  ghost predicate Restarted(s: State, r: State, k: nat)
    requires SameShape(s, r) && k < |s.st|
  {
    s.setup == Complete && LogDestroy !in r.log ==>
      !r.st[k].loop.Idle? && forall j :: 0 <= j < |s.st| && j != k ==> r.st[j] == s.st[j]
  }

  /** Pipes, statuses and the ledger may differ; the retry loops do not. */
  ghost predicate SameLoops(s: State, r: State) {
    && SameShape(s, r) && r.attempts == s.attempts && r.named == s.named
    && forall j :: 0 <= j < |s.st| ==> r.st[j].loop == s.st[j].loop
  }

  ghost predicate OtherLoopsSame(s: State, r: State, k: nat)
    requires SameShape(s, r)
  {
    forall j :: 0 <= j < |s.st| && j != k ==> r.st[j].loop == s.st[j].loop
  }

  /** What `destroy`, and with it `error` and `end`, does. */
  ghost predicate Ended(s: State, r: State) {
    && Quiet(s, r) && SameLoops(s, r)
    && r.lost == s.lost && r.active == s.active && LogDestroy in r.log
    && forall j :: 0 <= j < |r.st| ==> Closed(r.st[j])
  }

  lemma DestroyEnds(s: State)
    ensures Ended(s, Destroy(s))
  {
    var r := Destroy(s);
    assert forall j :: 0 <= j < |s.st| ==> r.st[j] == DestroyStage(s.st[j]);
    assert r.log[|s.log|] == LogDestroy;
  }

  lemma SessionEnds(s: State)
    ensures Ended(s, SessionEnd(s)) && Ended(s, SessionError(s))
  {
    DestroyEnds(s.(log := s.log + [LogEnd], status := Finalizing));
    DestroyEnds(s.(log := s.log + [LogError], status := Finalizing));
  }

  lemma PutQuiet(s: State, k: nat, t: Stage, setup: Setup)
    requires k < |s.st|
    requires StageStep(s.st[k], t) && t.ends == s.st[k].ends
    requires !t.loop.Idle? ==> !s.st[k].loop.Idle? || k in s.lost
    requires setup == s.setup || (s.setup == Pending && setup == Aborted)
    requires setup == Pending && t.loop.Idle? ==> s.st[k].loop.Idle?
    requires k == 0 && t.status == RETRYING ==> s.st[k].status == RETRYING
    ensures Quiet(s, Put(s, k, t, setup))
  {
  }

  /** A stretch that changes no loss and no loop but that of stage k. */
  ghost predicate Local(s: State, r: State, k: nat) {
    && Quiet(s, r) && r.lost == s.lost && r.active == s.active && OtherLoopsSame(s, r, k)
  }

  lemma RejectLocal(s: State, k: nat, status: StageStatus)
    requires k < |s.st|
    requires status == END || (status == s.st[k].status && status != RETRYING)
    ensures Local(s, Reject(s, k, status), k) && Reject(s, k, status).st[k].loop == Idle
    ensures s.setup != Aborted ==> LogDestroy in Reject(s, k, status).log
  {
    var t := s.st[k].(loop := Idle, status := status);
    var setup := if s.setup == Pending then Aborted else s.setup;
    PutQuiet(s, k, t, setup);
    SessionEnds(Put(s, k, t, setup));
    QuietTransitive(s, Put(s, k, t, setup), SessionError(Put(s, k, t, setup)));
  }

  lemma StartLocal(s: State, k: nat, left: nat, retriable: bool)
    requires k < |s.st| && (!s.st[k].loop.Idle? || k in s.lost)
    ensures var r := StartAttempt(s, k, left, retriable);
      && Local(s, r, k) && Restarted(s, r, k)
      && (r.st[k].loop == Idle <==> !s.named || NotRetried(s.st[k].status))
  {
    if !s.named {
      RejectLocal(s, k, END);
    } else if NotRetried(s.st[k].status) {
      RejectLocal(s, k, s.st[k].status);
    } else {
      PutQuiet(s.(attempts := s.attempts + 1), k, s.st[k].(loop := Flight(left), retriable := retriable), s.setup);
    }
  }

  lemma ReconnectLocal(s: State, k: nat, listener: Listener, retriable: bool)
    requires k < |s.st| && k in s.lost && s.st[k].status == DISCONNECTED && s.st[k].loop == Idle
    requires s.cfg.on == Always || s.cfg.on == OnDisconnect
    ensures var r := Reconnect(s, k, listener, retriable);
      Local(s, r, k) && Restarted(s, r, k) && (r.st[k].loop == Idle <==> CannotReturn(s, k, listener))
  {
    SessionEnds(s);
    if k == 0 {
      PutQuiet(s, k, s.st[k].(loop := Flight(0)), s.setup);
    } else {
      StartLocal(s, k, if s.cfg.retries > 0 then s.cfg.retries - 1 else 0, retriable);
    }
  }

  lemma PolicyLocal(s: State, k: nat, listener: Listener, retriable: bool)
    requires k < |s.st| && k in s.lost && s.st[k].status == DISCONNECTED && s.st[k].loop == Idle
    ensures var r := ApplyPolicy(s, k, listener, retriable);
      Local(s, r, k) && Restarted(s, r, k) && (r.st[k].loop == Idle <==> CannotReturn(s, k, listener))
  {
    if s.cfg.on == Always || s.cfg.on == OnDisconnect {
      ReconnectLocal(s, k, listener, retriable);
    } else {
      SessionEnds(s);
    }
  }

  /** The loss of stage k, booked. */
  ghost predicate Booked(s: State, r: State, k: nat, listener: Listener)
    requires k < |s.st|
  {
    && Quiet(s, r) && OtherLoopsSame(s, r, k)
    && r.lost == s.lost + {k} && r.active == s.active - 1
    && (r.st[k].loop == Idle <==> CannotReturn(s, k, listener))
    && (s.setup == Complete && LogDestroy !in r.log ==>
          !r.st[k].loop.Idle? && forall j :: 0 <= j < |s.st| && j != k ==> r.st[j] == s.st[j])
  }

  lemma LoseLost(s: State, k: nat, listener: Listener, retriable: bool)
    requires k < |s.st| && s.st[k].status == READY && s.st[k].loop == Idle
    ensures Booked(s, Lose(s, k, listener, retriable), k, listener)
  {
    var t := MarkLost(s, k);
    PolicyLocal(t, k, listener, retriable);
    assert Quiet(s, t);
    QuietTransitive(s, t, ApplyPolicy(t, k, listener, retriable));
  }

  lemma DisconnectFacts(s: State, k: nat, listener: Listener, retriable: bool)
    requires k < |s.st| && (s.st[k].status == READY ==> s.st[k].loop == Idle)
    ensures var r := Disconnect(s, k, listener, retriable);
      && Quiet(s, r) && |r.log| > |s.log| && r.log[|s.log|] == LogDisconnect
      && (s.st[k].status == READY ==> Booked(s, r, k, listener))
      && (s.st[k].status != READY ==> r.lost == s.lost && r.active == s.active && r.st == s.st)
  {
    var t := Logged(s, LogDisconnect);
    assert Quiet(s, t);
    if s.st[k].status == READY {
      LoseLost(t, k, listener, retriable);
      QuietTransitive(s, t, Lose(t, k, listener, retriable));
    }
  }

  lemma FailLocal(s: State, k: nat)
    requires k < |s.st| && s.st[k].loop.Flight? && s.st[0].status != RETRYING
    ensures var r := Fail(s, k);
      && Local(s, r, k) && !r.st[k].loop.Flight?
      && (r.st[k].loop == Idle <==> k == 0 || s.st[k].loop.left == 0)
      && (r.st[k].loop == Idle && s.setup != Aborted ==> LogDestroy in r.log)
  {
    if k == 0 {
      RejectLocal(s, k, s.st[k].status);
    } else if s.st[k].loop.left == 0 {
      RejectLocal(s, k, END);
    } else {
      PutQuiet(s, k, s.st[k].(status := RETRYING, loop := Waiting(s.st[k].loop.left - 1)), s.setup);
    }
  }

  /** What the reconnection of stage k adds to the log. */
  function ResumeLog(s: State, k: nat): seq<LogEvent> {
    if !s.cfg.intended && LastEgress(s.cfg, k) then [LogError, LogDestroy]
    else if s.active + 1 == s.num then [LogConnect]
    else []
  }

  lemma RepipeFacts(s: State, k: nat)
    requires |s.st| == Size(s.cfg) && k < |s.st|
    ensures var (t, ok) := Repipe(s, k);
      && SameLoops(s, t) && t.lost == s.lost && t.setup == s.setup && t.log == s.log
      && t.active == s.active && t.num == s.num && ok == (s.cfg.intended || !LastEgress(s.cfg, k))
  {
    RepipeNamesNeighbours(s.cfg, k);
  }

  /** What `disconnect` does after the await. */
  lemma ResumeFacts(s: State, k: nat)
    requires |s.st| == Size(s.cfg) && k < |s.st|
    ensures var r := Resume(s, k);
      && SameLoops(s, r) && r.lost == s.lost - {k} && r.setup == s.setup
      && r.log == s.log + ResumeLog(s, k)
  {
    var (t, ok) := Repipe(Repay(s, k), k);
    RepipeFacts(Repay(s, k), k);
    if !ok {
      SessionEnds(t);
    }
  }

  lemma SucceedFacts(s: State, k: nat)
    requires |s.st| == Size(s.cfg) && k < |s.st|
    ensures var r := Succeed(s, k);
      && r.attempts == s.attempts && r.named == s.named
      && OtherLoopsSame(s, r, k) && r.st[k].loop == Idle
      && (s.setup == Complete ==> r.setup == Complete && r.log == s.log + ResumeLog(s, k))
      && s.log <= r.log
      && r.lost == if s.setup == Complete then s.lost - {k} else s.lost
  {
    if s.setup == Complete {
      ResumeFacts(Renew(s, k), k);
    }
  }
}
