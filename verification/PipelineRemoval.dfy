/** What becomes of the retry loops of a session that has left the registry. */
module PipelineRemoval {
  import opened Pipeline
  import opened PipelineSteps
  import opened PipelineSafety
  import opened PipelineRuns

  /** No session takes the name over. */
  predicate Unnamed(es: seq<Event>) { forall i :: 0 <= i < |es| ==> !es[i].NameReused? }

  // ------------------------------------------------------------------- stages of clusters

  /** Events that can still end the retry loop of a cluster stage, at most. */
  function LoopRank(t: Stage): nat {
    match t.loop
    case Idle => 0
    case Waiting(_) => 1
    case Flight(_) => 2
  }

  /** While no session carries the name, a step calls no cluster and no retry loop of a
      cluster stage gets further from its end. */
  lemma UnnamedStep(s: State, e: Event, k: nat)
    requires Inv(s) && !s.named && !e.NameReused? && 0 < k < |s.st|
    ensures Step(s, e).attempts == s.attempts && !Step(s, e).named
    ensures LoopRank(Step(s, e).st[k]) <= LoopRank(s.st[k])
  {
    if Enabled(s, e) {
      match e
      case Lost(j, listener, retriable) => UnnamedLost(s, j, listener, retriable, k);
      case AttemptSucceeded(j) => SucceedFacts(s, j);
      case AttemptFailed(j) => FailLocal(s, j);
      case Timer(j, retriable) => UnnamedTimer(s, j, retriable, k);
      case ApiEnd => SessionEnds(s);
      case Removed =>
      case NameReused =>
    }
  }

  lemma UnnamedTimer(s: State, j: nat, retriable: bool, k: nat)
    requires Inv(s) && !s.named && j < |s.st| && s.st[j].loop.Waiting? && k < |s.st|
    ensures var r := StartAttempt(s, j, s.st[j].loop.left, retriable);
      r.attempts == s.attempts && !r.named && LoopRank(r.st[k]) <= LoopRank(s.st[k])
  {
    StartLocal(s, j, s.st[j].loop.left, retriable);
  }

  /** An attempt or a timer of a retry loop that ends brings that loop nearer to its end
      while no session carries the name. */
  lemma LoopAdvances(s: State, e: Event)
    requires Inv(s) && !s.named && Enabled(s, e) && (e.AttemptSucceeded? || e.AttemptFailed? || e.Timer?)
    ensures LoopRank(Step(s, e).st[e.k]) < LoopRank(s.st[e.k])
  {
    match e
    case AttemptSucceeded(k) => SucceedFacts(s, k);
    case AttemptFailed(k) => FailLocal(s, k);
    case Timer(k, retriable) => StartLocal(s, k, s.st[k].loop.left, retriable);
  }

  lemma UnnamedLost(s: State, j: nat, listener: Listener, retriable: bool, k: nat)
    requires Inv(s) && !s.named && j < |s.st| && 0 < k < |s.st| && (j == 0 ==> s.setup == Complete)
    ensures var r := Disconnect(s, j, listener, retriable);
      r.attempts == s.attempts && !r.named && LoopRank(r.st[k]) <= LoopRank(s.st[k])
  {
    assert s.st[j].status == READY ==> s.st[j].loop == Idle;
    DisconnectFacts(s, j, listener, retriable);
  }

  /** Once the session has left the registry and while its name is not taken over, no cluster is
      called for it, in any run. */
  lemma {:induction false} NoAttemptOnceRemoved(s: State, es: seq<Event>)
    requires Inv(s) && !s.named && Unnamed(es)
    ensures Run(s, es).attempts == s.attempts
    ensures forall k :: 0 < k < |s.st| ==> LoopRank(Run(s, es).st[k]) <= LoopRank(s.st[k])
    decreases |es|
  {
    if es != [] {
      StepKeeps(s, es[0]);
      forall k | 0 < k < |s.st|
        ensures LoopRank(Step(s, es[0]).st[k]) <= LoopRank(s.st[k])
      {
        UnnamedStep(s, es[0], k);
      }
      UnnamedStep(s, es[0], 1);
      NoAttemptOnceRemoved(Step(s, es[0]), es[1..]);
    }
  }

  /** The event ends an attempt or a timer of the retry loop of stage k. */
  predicate LoopEvent(s: State, e: Event, k: nat) {
    Enabled(s, e) && (e.AttemptSucceeded? || e.AttemptFailed? || e.Timer?) && e.k == k
  }

  /** How many such events the run has. */
  function LoopEvents(s: State, es: seq<Event>, k: nat): nat
    requires |s.st| == Size(s.cfg)
    decreases |es|
  {
    if es == [] then 0
    else (if LoopEvent(s, es[0], k) then 1 else 0) + LoopEvents(Step(s, es[0]), es[1..], k)
  }

  /** The retry loops of cluster stages end: in any run while no session carries the name, such a
      loop sees at most as many events as its rank says, so at most two. */
  lemma {:induction false} LoopsTerminate(s: State, es: seq<Event>, k: nat)
    requires Inv(s) && !s.named && 0 < k < |s.st| && Unnamed(es)
    ensures LoopEvents(s, es, k) + LoopRank(Run(s, es).st[k]) <= LoopRank(s.st[k]) <= 2
    decreases |es|
  {
    if es != [] {
      var e := es[0];
      StepKeeps(s, e);
      UnnamedStep(s, e, k);
      if Enabled(s, e) && (e.AttemptSucceeded? || e.AttemptFailed? || e.Timer?) {
        LoopAdvances(s, e);
      }
      LoopsTerminate(Step(s, e), es[1..], k);
    }
  }

  /** The registry is asked by name: a due retry starts an attempt exactly when some session,
      this one or a later namesake, is registered under the name. */
  lemma AttemptStartsExactlyWhenNamed(s: State, k: nat, retriable: bool)
    requires Inv(s) && k < |s.st| && s.st[k].loop.Waiting?
    ensures Step(s, Timer(k, retriable)).attempts == (if s.named then s.attempts + 1 else s.attempts)
    ensures Step(s, Timer(k, retriable)).st[k].loop == Idle <==> !s.named
  {
    StartLocal(s, k, s.st[k].loop.left, retriable);
  }

  // --------------------------------------------------------------------------- the source

  predicate Reconnects(c: Config) { c.on == Always || c.on == OnDisconnect }

  predicate Returning(t: Stage) { t.status == READY || t.loop.Flight? }

  /** Set-up that is pending can still complete: every stage without a stream has its attempt
      running. */
  predicate MayComplete(s: State) {
    s.setup == Pending
    && (exists k :: 0 <= k < |s.st| && s.st[k].loop.Flight?)
    && forall k :: 0 <= k < |s.st| ==> !s.st[k].loop.Waiting?
  }

  /** The source is reconnected without asking the registry, so it can be for ever: the policy
      reconnects, its listener is retriable, and it is READY, coming back, or will be READY once
      set-up completes. */
  predicate Endless(s: State) {
    && |s.st| > 0 && Reconnects(s.cfg) && s.st[0].retriable
    && ((s.setup == Complete && Returning(s.st[0])) || MayComplete(s))
  }

  function SourceRank(s: State): nat
    requires |s.st| > 0
  {
    if s.st[0].loop.Flight? then 1 else 0
  }

  /** Nothing makes the source READY or starts an attempt of it, and it stays as retriable. */
  ghost predicate SourceRests(s: State, r: State) {
    && SameShape(s, r) && |s.st| > 0
    && r.st[0].retriable == s.st[0].retriable
    && (r.st[0].status == READY ==> s.st[0].status == READY)
    && (r.st[0].loop.Flight? ==> s.st[0].loop.Flight?)
  }

  lemma RestsTransitive(s: State, t: State, r: State)
    requires SourceRests(s, t) && SourceRests(t, r)
    ensures SourceRests(s, r)
  {
  }

  lemma EndRests(s: State)
    requires |s.st| > 0
    ensures SourceRests(s, SessionEnd(s)) && SourceRests(s, SessionError(s))
  {
  }

  lemma RejectRests(s: State, k: nat, status: StageStatus)
    requires k < |s.st| && status != READY
    ensures SourceRests(s, Reject(s, k, status))
    ensures k == 0 ==> !Reject(s, k, status).st[0].loop.Flight?
  {
    EndRests(Put(s, k, s.st[k].(loop := Idle, status := status), if s.setup == Pending then Aborted else s.setup));
  }

  lemma StartRests(s: State, k: nat, left: nat, retriable: bool)
    requires 0 < k < |s.st| && s.st[k].status != READY
    ensures SourceRests(s, StartAttempt(s, k, left, retriable))
  {
    RejectRests(s, k, END);
    RejectRests(s, k, s.st[k].status);
  }

  lemma FailRests(s: State, k: nat)
    requires k < |s.st| && s.st[k].loop.Flight? && s.st[k].status != READY
    ensures SourceRests(s, Fail(s, k)) && (k == 0 ==> !Fail(s, k).st[0].loop.Flight?)
  {
    RejectRests(s, k, s.st[k].status);
    RejectRests(s, k, END);
  }

  lemma PolicyRests(t: State, k: nat, listener: Listener, retriable: bool)
    requires k < |t.st| && t.st[k].status == DISCONNECTED
    requires k == 0 ==> !Reconnects(t.cfg) || !t.st[0].retriable
    ensures SourceRests(t, ApplyPolicy(t, k, listener, retriable))
  {
    EndRests(t);
    if k > 0 {
      StartRests(t, k, if t.cfg.retries > 0 then t.cfg.retries - 1 else 0, retriable);
    }
  }

  /** A loss lets the source rest unless it is the source's own and repairable. */
  lemma LossRests(s: State, k: nat, listener: Listener, retriable: bool)
    requires k < |s.st|
    requires k == 0 && Reconnects(s.cfg) && s.st[0].retriable ==> s.st[0].status != READY
    ensures SourceRests(s, Disconnect(s, k, listener, retriable))
  {
    if s.st[k].status == READY {
      var t := MarkLost(Logged(s, LogDisconnect), k);
      PolicyRests(t, k, listener, retriable);
      RestsTransitive(s, t, ApplyPolicy(t, k, listener, retriable));
    }
  }

  lemma SuccessRests(s: State, k: nat)
    requires Inv(s) && s.setup == Complete && 0 < k < |s.st| && s.st[k].loop.Flight?
    ensures SourceRests(s, Succeed(s, k))
  {
    RepipeCameBack(s, k);
    var t := Repipe(Repay(Renew(s, k), k), k).0;
    EndRests(t);
    assert SourceRests(s, t);
  }

  lemma SourceBack(s: State)
    requires Inv(s) && s.setup == Complete && s.st[0].loop.Flight?
    ensures var r := Succeed(s, 0);
      r.st[0] == s.st[0].(stream := s.next, status := READY, loop := Idle, ends := 0) && r.setup == Complete
  {
    RepipeCameBack(s, 0);
  }

  /** After set-up a source that is not endless has at most the one running attempt left. */
  lemma CompleteSettles(s: State, e: Event)
    requires Inv(s) && s.setup == Complete && !Endless(s)
    ensures var r := Step(s, e);
      !Endless(r) && (if LoopEvent(s, e, 0) then 1 else 0) + SourceRank(r) <= SourceRank(s)
  {
    StaysComplete(s, e);
    if Enabled(s, e) {
      match e
      case Lost(k, listener, retriable) => LossRests(s, k, listener, retriable);
      case AttemptSucceeded(k) =>
        if k == 0 {
          SourceBack(s);
        } else {
          SuccessRests(s, k);
        }
      case AttemptFailed(k) => FailRests(s, k);
      case Timer(k, retriable) => StartRests(s, k, s.st[k].loop.left, retriable);
      case ApiEnd => EndRests(s);
      case Removed =>
      case NameReused =>
    }
  }

  /** Before set-up completes nothing concerns the source, and a set-up that cannot complete
      stays so while no session carries the name. */
  ghost predicate SetupRests(s: State, r: State) {
    && SameShape(s, r) && |s.st| > 0 && r.st[0].retriable == s.st[0].retriable && r.st[0].loop == Idle
    && (!MayComplete(s) ==> r.setup != Complete && !MayComplete(r))
  }

  lemma SetupSuccess(s: State, k: nat)
    requires Inv(s) && s.setup != Complete && k < |s.st| && s.st[k].loop.Flight?
    ensures SetupRests(s, Succeed(s, k))
  {
    assert k != 0;
    var t := Renew(s, k);
    assert forall j :: 0 <= j < |s.st| && j != k ==> t.st[j] == s.st[j];
    if s.setup == Pending && !MayComplete(s) {
      var w :| 0 <= w < |s.st| && s.st[w].loop.Waiting?;
      assert t.st[w].loop.Waiting?;
    }
  }

  lemma SetupLoss(s: State, k: nat, listener: Listener, retriable: bool)
    requires Inv(s) && s.setup != Complete && 0 < k < |s.st|
    ensures SetupRests(s, Disconnect(s, k, listener, retriable))
  {
  }

  lemma SetupFailure(s: State, k: nat)
    requires Inv(s) && s.setup != Complete && k < |s.st| && s.st[k].loop.Flight?
    ensures SetupRests(s, Fail(s, k))
  {
    assert k != 0;
    FailRests(s, k);
    FailLocal(s, k);
    if s.st[k].loop.left > 0 {
      assert Fail(s, k).st[k].loop.Waiting?;
    }
  }

  lemma SetupTimer(s: State, k: nat, retriable: bool)
    requires Inv(s) && s.setup != Complete && !s.named && k < |s.st| && s.st[k].loop.Waiting?
    ensures SetupRests(s, StartAttempt(s, k, s.st[k].loop.left, retriable))
  {
    assert k != 0;
    StartRests(s, k, s.st[k].loop.left, retriable);
    StartLocal(s, k, s.st[k].loop.left, retriable);
  }

  lemma SetupEnd(s: State)
    requires Inv(s) && s.setup != Complete
    ensures SetupRests(s, SessionEnd(s))
  {
    EndRests(s);
    SessionEnds(s);
    var r := SessionEnd(s);
    assert forall j :: 0 <= j < |s.st| ==> s.st[j].loop == r.st[j].loop;
    if MayComplete(r) {
      var k :| 0 <= k < |r.st| && r.st[k].loop.Flight?;
      assert s.st[k].loop.Flight?;
    }
  }

  lemma SetupSettles(s: State, e: Event)
    requires Inv(s) && s.setup != Complete && !s.named && !e.NameReused?
    ensures SetupRests(s, Step(s, e)) && !LoopEvent(s, e, 0)
  {
    if Enabled(s, e) {
      match e
      case Lost(k, listener, retriable) => SetupLoss(s, k, listener, retriable);
      case AttemptSucceeded(k) => SetupSuccess(s, k);
      case AttemptFailed(k) => SetupFailure(s, k);
      case Timer(k, retriable) => SetupTimer(s, k, retriable);
      case ApiEnd => SetupEnd(s);
      case Removed =>
    }
  }

  /** A source that is not endless has at most one attempt left, in any run. */
  lemma {:induction false} SourceTerminates(s: State, es: seq<Event>)
    requires Inv(s) && !s.named && Unnamed(es) && !Endless(s)
    ensures LoopEvents(s, es, 0) <= SourceRank(s) <= 1
    decreases |es|
  {
    if es != [] {
      var e := es[0];
      StepKeeps(s, e);
      UnnamedStep(s, e, 1);
      if s.setup == Complete {
        CompleteSettles(s, e);
      } else {
        SetupSettles(s, e);
      }
      SourceTerminates(Step(s, e), es[1..]);
    }
  }

  // ---------------------------------------------------------------- reconnecting for ever

  /** A source whose attempt is running, under a policy that reconnects it. */
  ghost predicate Reconnecting(s: State) {
    Inv(s) && s.setup == Complete && Reconnects(s.cfg) && s.st[0].retriable && s.st[0].loop.Flight?
  }

  lemma SourceLost(s: State)
    requires Inv(s) && s.setup == Complete && Reconnects(s.cfg) && s.st[0].retriable && s.st[0].status == READY
    ensures Reconnecting(Step(s, Lost(0, CanReconnect, true)))
  {
    StepKeeps(s, Lost(0, CanReconnect, true));
    StaysComplete(s, Lost(0, CanReconnect, true));
    var t := MarkLost(Logged(s, LogDisconnect), 0);
    assert Step(s, Lost(0, CanReconnect, true)) == Put(t, 0, t.st[0].(loop := Flight(0)), t.setup);
  }

  /** The source comes back and is lost again, and then es happens. */
  function Round(es: seq<Event>): seq<Event> { [AttemptSucceeded(0)] + ([Lost(0, CanReconnect, true)] + es) }

  lemma OneRound(s: State)
    requires Reconnecting(s)
    ensures var e, f := AttemptSucceeded(0), Lost(0, CanReconnect, true);
      LoopEvent(s, e, 0) && Reconnecting(Step(Step(s, e), f))
  {
    StepKeeps(s, AttemptSucceeded(0));
    SourceBack(s);
    SourceLost(Step(s, AttemptSucceeded(0)));
  }

  lemma EventFirst(s: State, e: Event, es: seq<Event>, k: nat)
    requires |s.st| == Size(s.cfg)
    ensures LoopEvents(s, [e] + es, k) == (if LoopEvent(s, e, k) then 1 else 0) + LoopEvents(Step(s, e), es, k)
  {
    assert ([e] + es)[1..] == es;
  }

  lemma RoundCounts(s: State) returns (t: State)
    requires Reconnecting(s)
    ensures Reconnecting(t)
    ensures forall es :: LoopEvents(s, Round(es), 0) >= 1 + LoopEvents(t, es, 0)
  {
    var e, f := AttemptSucceeded(0), Lost(0, CanReconnect, true);
    OneRound(s);
    t := Step(Step(s, e), f);
    forall es
      ensures LoopEvents(s, Round(es), 0) >= 1 + LoopEvents(t, es, 0)
    {
      EventFirst(Step(s, e), f, es, 0);
      EventFirst(s, e, [f] + es, 0);
    }
  }

  /** The source comes back and is lost again, as often as you like. */
  lemma {:induction false} RoundsGoOn(s: State, n: nat) returns (es: seq<Event>)
    requires Reconnecting(s)
    ensures Unnamed(es) && LoopEvents(s, es, 0) >= n
    decreases n
  {
    es := [];
    if n > 0 {
      var t := RoundCounts(s);
      var rest := RoundsGoOn(t, n - 1);
      es := Round(rest);
    }
  }

  lemma {:induction false} EventsAfter(s: State, a: seq<Event>, b: seq<Event>, k: nat)
    requires |s.st| == Size(s.cfg)
    ensures LoopEvents(s, a + b, k) >= LoopEvents(Run(s, a), b, k)
    decreases |a|
  {
    if a == [] {
      assert a + b == b;
    } else {
      EventsAfter(Step(s, a[0]), a[1..], b, k);
      assert (a + b)[1..] == a[1..] + b;
    }
  }

  function Flights(s: State): set<nat> { set k: nat | k < |s.st| && s.st[k].loop.Flight? }

  /** One running attempt of a pending set-up succeeds: it was the last one, or one fewer runs. */
  lemma AttemptOfSetup(s: State, k: nat)
    requires Inv(s) && MayComplete(s) && k < |s.st| && s.st[k].loop.Flight?
    ensures var t := Step(s, AttemptSucceeded(k));
      && t.cfg == s.cfg && t.st[0].retriable == s.st[0].retriable
      && (t.setup == Complete ==> t.st[0].status == READY)
      && (t.setup != Complete ==> MayComplete(t) && Flights(t) < Flights(s))
  {
    assert k != 0 && k in Flights(s);
    var t := Renew(s, k);
    assert forall j :: 0 <= j < |s.st| && j != k ==> t.st[j] == s.st[j];
    assert Flights(t) == Flights(s) - {k};
    if j :| 0 <= j < |s.st| && t.st[j].loop != Idle {
      assert t.st[j].loop.Flight?;
    }
  }

  lemma SomeAttempt(s: State) returns (e: Event, t: State)
    requires Inv(s) && MayComplete(s)
    ensures !e.NameReused? && Inv(t) && t.cfg == s.cfg && t.st[0].retriable == s.st[0].retriable
    ensures t.setup == Complete ==> t.st[0].status == READY
    ensures t.setup != Complete ==> MayComplete(t) && Flights(t) < Flights(s)
    ensures forall es :: Run(s, [e] + es) == Run(t, es)
  {
    var k: nat :| k < |s.st| && s.st[k].loop.Flight?;
    e := AttemptSucceeded(k);
    t := Step(s, e);
    AttemptOfSetup(s, k);
    StepKeeps(s, e);
    forall es
      ensures Run(s, [e] + es) == Run(t, es)
    {
      RunFirst(s, e, es);
    }
  }

  /** The running attempts of a pending set-up succeed one by one. */
  lemma {:induction false} SetupCompletes(s: State) returns (es: seq<Event>)
    requires Inv(s) && MayComplete(s)
    ensures Unnamed(es) && Inv(Run(s, es))
    ensures var r := Run(s, es);
      && r.setup == Complete && r.cfg == s.cfg
      && r.st[0].retriable == s.st[0].retriable && r.st[0].status == READY
    decreases Flights(s)
  {
    var e, t := SomeAttempt(s);
    var rest := [];
    if t.setup != Complete {
      rest := SetupCompletes(t);
    }
    es := [e] + rest;
    assert Run(s, es) == Run(t, rest);
  }

  /** An endless source can be reconnected any number of times. */
  lemma EndlessGoesOn(s: State, n: nat)
    requires Inv(s) && Endless(s)
    ensures exists es :: Unnamed(es) && LoopEvents(s, es, 0) >= n
  {
    if s.setup != Complete {
      var es := SetupCompletes(s);
      ReadyGoesOn(Run(s, es), n);
      var again: seq<Event> :| Unnamed(again) && LoopEvents(Run(s, es), again, 0) >= n;
      EventsAfter(s, es, again, 0);
      assert Unnamed(es + again);
    } else if s.st[0].status == READY {
      ReadyGoesOn(s, n);
    } else {
      var es := RoundsGoOn(s, n);
    }
  }

  lemma ReadyGoesOn(s: State, n: nat)
    requires Inv(s) && s.setup == Complete && Reconnects(s.cfg) && s.st[0].retriable && s.st[0].status == READY
    ensures exists es :: Unnamed(es) && LoopEvents(s, es, 0) >= n
  {
    var f := Lost(0, CanReconnect, true);
    SourceLost(s);
    var es := RoundsGoOn(Step(s, f), n);
    EventFirst(s, f, es, 0);
    assert Unnamed([f] + es);
  }

  // ---------------------------------------------------------------------- all retry loops

  /** No run without the name has more than n events of any one stage's retry loop. */
  ghost predicate Bounded(s: State, n: nat)
    requires |s.st| == Size(s.cfg)
  {
    forall es: seq<Event>, k: nat :: Unnamed(es) && k < |s.st| ==> LoopEvents(s, es, k) <= n
  }

  lemma NeverBounded(s: State, n: nat)
    requires Inv(s) && Endless(s)
    ensures !Bounded(s, n)
  {
    EndlessGoesOn(s, n + 1);
    var es: seq<Event> :| Unnamed(es) && LoopEvents(s, es, 0) >= n + 1;
  }

  lemma AlwaysBounded(s: State)
    requires Inv(s) && !s.named && !Endless(s)
    ensures Bounded(s, 2)
  {
    forall es: seq<Event>, k: nat | Unnamed(es) && k < |s.st|
      ensures LoopEvents(s, es, k) <= 2
    {
      if k == 0 {
        SourceTerminates(s, es);
      } else {
        LoopsTerminate(s, es, k);
      }
    }
  }

  /** The retry loops of a session that left the registry all end exactly when its source is
      not endless; then each sees at most two more events. */
  lemma AllLoopsTerminateIff(s: State)
    requires Inv(s) && !s.named
    ensures (exists n: nat :: Bounded(s, n)) <==> !Endless(s)
    ensures !Endless(s) ==> Bounded(s, 2)
  {
    if Endless(s) {
      forall n: nat
        ensures !Bounded(s, n)
      {
        NeverBounded(s, n);
      }
    } else {
      AlwaysBounded(s);
    }
  }

  lemma TwoSteps(s: State, e: Event, f: Event)
    requires |s.st| == Size(s.cfg)
    ensures Run(s, [e, f]) == Step(Step(s, e), f)
  {
    RunFirst(s, e, [f]);
    var t := Step(s, e);
    RunFirst(t, f, []);
    assert [e] + [f] == [e, f] && [f] + [] == [f];
  }

  lemma SetupOfTwo(retries: nat)
    ensures var t := Step(Initial(Config(0, 0, Always, retries, true), true), AttemptSucceeded(1));
      t.setup == Complete && t.cfg.on == Always && t.st[0].retriable && t.st[0].status == READY
  {
    var i := Initial(Config(0, 0, Always, retries, true), true);
    assert Step(i, AttemptSucceeded(1)) == Finish(Renew(i, 1));
  }

  lemma SourceComesBack(retries: nat) returns (s: State)
    ensures s == Run(Initial(Config(0, 0, Always, retries, true), true),
                     [AttemptSucceeded(1), Lost(0, CanReconnect, true)])
    ensures Reconnecting(s)
  {
    var i := Initial(Config(0, 0, Always, retries, true), true);
    InitialInv(i.cfg, true);
    SetupOfTwo(retries);
    StepKeeps(i, AttemptSucceeded(1));
    SourceLost(Step(i, AttemptSucceeded(1)));
    TwoSteps(i, AttemptSucceeded(1), Lost(0, CanReconnect, true));
    s := Run(i, [AttemptSucceeded(1), Lost(0, CanReconnect, true)]);
  }

  lemma DeletedAndRemoved(s: State)
    requires Reconnecting(s)
    ensures var r := Run(s, [ApiEnd, Removed]); !r.named && r.setup == Complete && Endless(r)
  {
    SessionEnds(s);
    EndRests(s);
    TwoSteps(s, ApiEnd, Removed);
  }

  lemma {:induction false} RunSum(s: State, a: seq<Event>, b: seq<Event>)
    requires |s.st| == Size(s.cfg)
    ensures Run(s, a + b) == Run(Run(s, a), b)
    decreases |a|
  {
    if a == [] {
      assert a + b == b;
    } else {
      RunSum(Step(s, a[0]), a[1..], b);
      assert (a + b)[1..] == a[1..] + b;
    }
  }

  lemma ReachableOn(i: State, s: State, a: seq<Event>, b: seq<Event>, c: Config, sourceRetriable: bool)
    requires i == Initial(c, sourceRetriable) && s == Run(i, a)
    ensures Reachable(Run(s, b), c)
  {
    RunSum(i, a, b);
    assert Run(s, b) == Run(Initial(c, sourceRetriable), a + b);
  }

  /** The case that breaks it: the source is lost and coming back when its session is deleted
      and leaves the registry. */
  lemma EndlessHappens(retries: nat)
    ensures exists s :: Reachable(s, Config(0, 0, Always, retries, true))
              && !s.named && s.setup == Complete && Endless(s)
  {
    var c := Config(0, 0, Always, retries, true);
    var s := SourceComesBack(retries);
    DeletedAndRemoved(s);
    ReachableOn(Initial(c, true), s, [AttemptSucceeded(1), Lost(0, CanReconnect, true)], [ApiEnd, Removed], c, true);
  }
}
