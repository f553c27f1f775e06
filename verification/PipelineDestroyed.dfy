/** What a destroyed session can still report, and how often a stream can be ended. */
module PipelineDestroyed {
  import opened Pipeline
  import opened PipelineSteps
  import opened PipelineSafety
  import opened PipelineRuns
  import opened PipelineRevival

  /** The stretch from s to r runs `destroy`. */
  predicate Destroys(s: State, r: State) {
    exists i :: |s.log| <= i < |r.log| && r.log[i] == LogDestroy
  }

  /** Between s and r, both complete: `destroy` closed every stage; or each stage is as it was,
      or is READY, or has a retry loop. */
  ghost predicate Effect(s: State, r: State) {
    SameShape(s, r) &&
    if Destroys(s, r) then forall j :: 0 <= j < |r.st| ==> Closed(r.st[j])
    else forall j :: 0 <= j < |r.st| ==>
      || (r.st[j] == s.st[j] && (j in r.lost <==> j in s.lost))
      || r.st[j].status == READY
      || !r.st[j].loop.Idle?
  }

  lemma EndedEffect(s: State, r: State)
    requires Ended(s, r) && |r.log| > |s.log| && r.log[|r.log| - 1] == LogDestroy
    ensures Effect(s, r) && Destroys(s, r)
  {
  }

  lemma RejectEffect(s: State, k: nat, status: StageStatus)
    requires k < |s.st| && s.setup == Complete
    ensures Effect(s, Reject(s, k, status))
  {
    var s1 := Put(s, k, s.st[k].(loop := Idle, status := status), s.setup);
    SessionEnds(s1);
    EndedEffect(s1, SessionError(s1));
  }

  lemma StartEffect(s: State, k: nat, left: nat, retriable: bool)
    requires k < |s.st| && s.setup == Complete
    ensures Effect(s, StartAttempt(s, k, left, retriable))
  {
    RejectEffect(s, k, END);
    RejectEffect(s, k, s.st[k].status);
  }

  lemma FailEffect(s: State, k: nat)
    requires k < |s.st| && s.st[k].loop.Flight? && s.setup == Complete
    ensures Effect(s, Fail(s, k))
  {
    RejectEffect(s, k, s.st[k].status);
    RejectEffect(s, k, END);
  }

  /** An effect may begin with changes to stage k alone, if stage k ends READY or retried. */
  lemma EffectFrom(s: State, t: State, r: State, k: nat)
    requires k < |s.st| && SameShape(s, t) && (forall j :: 0 <= j < |s.st| && j != k ==> t.st[j] == s.st[j])
    requires forall j :: j != k ==> (j in t.lost <==> j in s.lost)
    requires s.log <= t.log && !Destroys(s, t) && t.log <= r.log && Effect(t, r)
    requires Destroys(t, r) || r.st[k].status == READY || !r.st[k].loop.Idle?
    ensures Effect(s, r)
  {
    LaterDestroy(s, t, r);
  }

  lemma LaterDestroy(s: State, t: State, r: State)
    requires s.log <= t.log && !Destroys(s, t) && t.log <= r.log
    ensures Destroys(s, r) <==> Destroys(t, r)
  {
    assert forall i :: |s.log| <= i < |t.log| ==> r.log[i] == t.log[i] && t.log[i] != LogDestroy;
  }

  lemma StartDestroys(t: State, k: nat, left: nat, retriable: bool)
    requires k < |t.st| && t.setup == Complete && !t.named
    ensures Destroys(t, StartAttempt(t, k, left, retriable))
  {
    var r := StartAttempt(t, k, left, retriable);
    assert r.log[|r.log| - 1] == LogDestroy;
  }

  /** A lost stage: destroyed with its session, or retried. */
  ghost predicate Handled(t: State, r: State, k: nat)
    requires k < |t.st|
  {
    Effect(t, r) && t.log <= r.log && (Destroys(t, r) || !r.st[k].loop.Idle?)
  }

  lemma EndsHandled(t: State, k: nat)
    requires k < |t.st|
    ensures Handled(t, SessionEnd(t), k) && Handled(t, SessionError(t), k)
  {
    SessionEnds(t);
    EndedEffect(t, SessionError(t));
    EndedEffect(t, SessionEnd(t));
  }

  lemma StartHandled(t: State, k: nat, left: nat, retriable: bool)
    requires k < |t.st| && k in t.lost && t.st[k].status == DISCONNECTED && t.setup == Complete
    ensures Handled(t, StartAttempt(t, k, left, retriable), k)
  {
    StartEffect(t, k, left, retriable);
    StartLocal(t, k, left, retriable);
    if !t.named {
      StartDestroys(t, k, left, retriable);
    }
  }

  lemma PolicyHandled(t: State, k: nat, listener: Listener, retriable: bool)
    requires k < |t.st| && k in t.lost && t.st[k].status == DISCONNECTED && t.setup == Complete
    ensures Handled(t, ApplyPolicy(t, k, listener, retriable), k)
  {
    EndsHandled(t, k);
    StartHandled(t, k, if t.cfg.retries > 0 then t.cfg.retries - 1 else 0, retriable);
  }

  lemma DisconnectEffect(s: State, k: nat, listener: Listener, retriable: bool)
    requires Inv(s) && k < |s.st| && s.setup == Complete
    ensures Effect(s, Disconnect(s, k, listener, retriable))
  {
    if s.st[k].status == READY {
      assert s.st[k].loop == Idle;
      var t := MarkLost(Logged(s, LogDisconnect), k);
      PolicyHandled(t, k, listener, retriable);
      EffectFrom(s, t, ApplyPolicy(t, k, listener, retriable), k);
    }
  }

  lemma ResumeEffect(t: State, k: nat, ok: bool)
    requires k < |t.st| && t.st[k].status == READY
    ensures var r := if !ok then SessionError(t) else if t.active == t.num then Connect(t) else t;
      Effect(t, r) && t.log <= r.log && (Destroys(t, r) || r.st[k].status == READY)
  {
    SessionEnds(t);
    EndedEffect(t, SessionError(t));
  }

  lemma SucceedEffect(s: State, k: nat)
    requires Inv(s) && k < |s.st| && s.setup == Complete && s.st[k].loop.Flight?
    ensures Effect(s, Succeed(s, k))
  {
    RepipeCameBack(s, k);
    var (t, ok) := Repipe(Repay(Renew(s, k), k), k);
    ResumeEffect(t, k, ok);
    EffectFrom(s, t, Succeed(s, k), k);
  }

  lemma StepEffect(s: State, e: Event)
    requires Inv(s) && s.setup == Complete
    ensures Effect(s, Step(s, e)) && Step(s, e).setup == Complete
  {
    if Enabled(s, e) {
      match e
      case Lost(k, listener, retriable) =>
        DisconnectEffect(s, k, listener, retriable);
        DisconnectFacts(s, k, listener, retriable);
      case AttemptSucceeded(k) =>
        SucceedEffect(s, k);
        SucceedFacts(s, k);
      case AttemptFailed(k) =>
        FailEffect(s, k);
        FailLocal(s, k);
      case Timer(k, retriable) =>
        StartEffect(s, k, s.st[k].loop.left, retriable);
        StartLocal(s, k, s.st[k].loop.left, retriable);
      case ApiEnd =>
        SessionEnds(s);
        EndedEffect(s, SessionEnd(s));
      case Removed =>
      case NameReused =>
    }
  }

  // --------------------------------------------------------------------- abandoned stages

  /** A stage of a complete session that was ended and is not being retried: nothing gives it
      a stream again. */
  predicate Abandoned(s: State, j: nat) {
    s.setup == Complete && j < |s.st| && s.st[j].status == END && s.st[j].loop == Idle
  }

  /** A stage is abandoned exactly when a complete session is destroyed while the stage has no
      retry loop, and stays so. */
  lemma AbandonedExactly(s: State, e: Event, j: nat)
    requires Inv(s) && j < |s.st|
    ensures var r := Step(s, e);
      Abandoned(r, j) <==>
      Abandoned(s, j) || (s.setup == Complete && Destroys(s, r) && r.st[j].loop == Idle)
  {
    var r := Step(s, e);
    StepKeeps(s, e);
    if s.setup == Complete {
      StepEffect(s, e);
      if Abandoned(s, j) {
        AbandonedStays(s, e, j);
      }
    } else {
      NotAbandonedYet(s, e, j);
    }
  }

  lemma NotAbandonedYet(s: State, e: Event, j: nat)
    requires Inv(s) && j < |s.st| && s.setup != Complete
    ensures !Abandoned(Step(s, e), j)
  {
    if Enabled(s, e) {
      match e
      case Lost(k, listener, retriable) => DisconnectFacts(s, k, listener, retriable);
      case AttemptSucceeded(k) =>
      case AttemptFailed(k) => FailLocal(s, k);
      case Timer(k, retriable) => StartLocal(s, k, s.st[k].loop.left, retriable);
      case ApiEnd => SessionEnds(s);
      case Removed =>
      case NameReused =>
    }
  }

  /** An abandoned stage gets no retry loop and does not become READY. */
  lemma NoWayBack(s: State, e: Event, j: nat)
    requires Inv(s) && Abandoned(s, j)
    ensures Step(s, e).st[j].loop == Idle && Step(s, e).st[j].status != READY
  {
    if Enabled(s, e) {
      match e
      case Lost(k, listener, retriable) => DisconnectFacts(s, k, listener, retriable);
      case AttemptSucceeded(k) => OthersBack(s, k, j);
      case AttemptFailed(k) => FailLocal(s, k);
      case Timer(k, retriable) => StartLocal(s, k, s.st[k].loop.left, retriable);
      case ApiEnd => SessionEnds(s);
      case Removed =>
      case NameReused =>
    }
  }

  lemma OthersBack(s: State, k: nat, j: nat)
    requires |s.st| == Size(s.cfg) && k < |s.st| && j < |s.st| && j != k && s.setup == Complete
    requires s.st[j].status == END
    ensures Succeed(s, k).st[j].status == END && Succeed(s, k).st[j].loop == s.st[j].loop
  {
    RepipeCameBack(s, k);
  }

  lemma AbandonedStays(s: State, e: Event, j: nat)
    requires Inv(s) && Abandoned(s, j)
    ensures Abandoned(Step(s, e), j)
  {
    StepEffect(s, e);
    StepKeeps(s, e);
    NoWayBack(s, e, j);
  }

  // --------------------------------------------------------------------------- whole rings

  /** In a complete session a stage that is not lost is READY, or was ended. */
  predicate Settled(s: State) {
    s.setup == Complete ==>
      forall k :: 0 <= k < |s.st| && k !in s.lost ==> s.st[k].status == READY || s.st[k].status == END
  }

  lemma StepSettles(s: State, e: Event)
    requires Inv(s) && Settled(s)
    ensures Settled(Step(s, e))
  {
    StepKeeps(s, e);
    if s.setup == Complete {
      StepEffect(s, e);
    } else {
      FirstSettled(s, e);
    }
  }

  lemma FirstSettled(s: State, e: Event)
    requires Inv(s) && s.setup != Complete
    ensures Settled(Step(s, e))
  {
    if Enabled(s, e) {
      match e
      case Lost(k, listener, retriable) => DisconnectFacts(s, k, listener, retriable);
      case AttemptSucceeded(k) =>
      case AttemptFailed(k) => FailLocal(s, k);
      case Timer(k, retriable) => StartLocal(s, k, s.st[k].loop.left, retriable);
      case ApiEnd => SessionEnds(s);
      case Removed =>
      case NameReused =>
    }
  }

  /** Every stage is READY and every pipe of the ring is there once. */
  ghost predicate Joined(s: State) {
    |s.st| == Size(s.cfg) &&
    forall k: nat :: k < Size(s.cfg) ==> Ready(s, k) && PipeCount(s, k, Succ(s.cfg, k)) == 1
  }

  ghost predicate NoneAbandoned(s: State) { forall j: nat :: j < |s.st| ==> !Abandoned(s, j) }

  /** With no loss open, the ring is whole exactly when no stage is abandoned. */
  lemma JoinedUnlessAbandoned(r: State)
    requires Inv(r) && Settled(r) && r.setup == Complete && r.lost == {}
    ensures Joined(r) <==> NoneAbandoned(r)
  {
    if NoneAbandoned(r) {
      forall k: nat | k < Size(r.cfg)
        ensures Ready(r, k)
      {
        assert !Abandoned(r, k) && k !in r.lost;
        assert r.st[k].loop == Idle;
      }
      forall k: nat | k < Size(r.cfg)
        ensures PipeCount(r, k, Succ(r.cfg, k)) == 1
      {
        assert Ready(r, k) && Ready(r, Succ(r.cfg, k));
      }
    } else {
      var j: nat :| j < |r.st| && Abandoned(r, j);
      assert !Ready(r, j);
    }
  }

  /** Some step of the run destroys the complete session while stage j has no retry loop. */
  ghost predicate Forsaken(s: State, es: seq<Event>, j: nat)
    requires |s.st| == Size(s.cfg) && j < |s.st|
    decreases |es|
  {
    es != [] &&
    var r := Step(s, es[0]);
    (s.setup == Complete && Destroys(s, r) && r.st[j].loop == Idle) || Forsaken(r, es[1..], j)
  }

  lemma {:induction false} AbandonedExactlyWhenForsaken(s: State, es: seq<Event>, j: nat)
    requires Inv(s) && j < |s.st|
    ensures Abandoned(Run(s, es), j) <==> Abandoned(s, j) || Forsaken(s, es, j)
    decreases |es|
  {
    if es != [] {
      StepKeeps(s, es[0]);
      AbandonedExactly(s, es[0], j);
      AbandonedExactlyWhenForsaken(Step(s, es[0]), es[1..], j);
    }
  }

  lemma {:induction false} RunSettles(s: State, es: seq<Event>)
    requires Inv(s) && Settled(s)
    ensures Settled(Run(s, es))
    decreases |es|
  {
    if es != [] {
      StepKeeps(s, es[0]);
      StepSettles(s, es[0]);
      RunSettles(Step(s, es[0]), es[1..]);
    }
  }

  ghost predicate NoneForsaken(i: State, es: seq<Event>)
    requires |i.st| == Size(i.cfg)
  {
    forall j: nat :: j < |i.st| ==> !Forsaken(i, es, j)
  }

  lemma NoneAbandonedExactly(i: State, es: seq<Event>)
    requires Inv(i) && NoneAbandoned(i)
    ensures NoneAbandoned(Run(i, es)) <==> NoneForsaken(i, es)
  {
    var r := Run(i, es);
    forall j: nat | j < |i.st|
      ensures Abandoned(r, j) <==> Forsaken(i, es, j)
    {
      assert !Abandoned(i, j);
      AbandonedExactlyWhenForsaken(i, es, j);
    }
    if NoneForsaken(i, es) {
      forall j: nat | j < |r.st|
        ensures !Abandoned(r, j)
      {
        assert !Forsaken(i, es, j);
      }
    }
    if NoneAbandoned(r) {
      forall j: nat | j < |i.st|
        ensures !Forsaken(i, es, j)
      {
        assert !Abandoned(r, j);
      }
    }
  }

  lemma SameAbandoned(s: State, e: Event)
    requires Inv(s) && !Destroys(s, Step(s, e))
    ensures NoneAbandoned(Step(s, e)) <==> NoneAbandoned(s)
  {
    forall j: nat | j < |s.st|
      ensures Abandoned(Step(s, e), j) <==> Abandoned(s, j)
    {
      AbandonedExactly(s, e, j);
    }
  }

  lemma ConnectIsJoinedFrom(s: State, e: Event)
    requires Inv(s) && Settled(s) && Reports(s, Step(s, e))
    ensures Joined(Step(s, e)) <==> NoneAbandoned(s)
  {
    StepKeeps(s, e);
    StepSettles(s, e);
    ConnectMeansWhole(s, e);
    OnlyReports(s, e);
    SameAbandoned(s, e);
    JoinedUnlessAbandoned(Step(s, e));
  }

  // ---------------------------------------------------------------------- ended streams

  /** The ring is joined, and no stream in it was ended. */
  ghost predicate Whole(s: State) {
    Joined(s) && forall k :: 0 <= k < |s.st| ==> s.st[k].ends == 0
  }

  /** Whether the stream of stage j after the step is one that a deletion during set-up ended:
      the stage had it then, and has got no other since. */
  predicate StaleAfter(s: State, e: Event, j: nat, was: bool)
    requires |s.st| == Size(s.cfg) && j < |s.st|
  {
    if e == AttemptSucceeded(j) && Enabled(s, e) then false
    else was || (s.setup == Pending && e == ApiEnd && s.st[j].stream >= 0)
  }

  ghost predicate Stale(s: State, es: seq<Event>, j: nat, was: bool)
    requires |s.st| == Size(s.cfg) && j < |s.st|
    decreases |es|
  {
    if es == [] then was else Stale(Step(s, es[0]), es[1..], j, StaleAfter(s, es[0], j, was))
  }

  /** `was` says what became of the stream of stage j, as long as that matters. */
  predicate Tracks(s: State, j: nat, was: bool)
    requires j < |s.st|
  {
    var t := s.st[j];
    match s.setup
    case Aborted => true
    case Pending =>
      if t.stream < 0 then t.ends == 0 && !was
      else t.loop == Idle && t.status != RETRYING && (t.ends > 0 <==> was) && (t.status == END ==> was)
    case Complete => t.status == READY ==> (t.ends > 0 <==> was)
  }

  lemma PendingTracks(s: State, e: Event, j: nat, was: bool)
    requires Inv(s) && s.setup == Pending && j < |s.st| && Tracks(s, j, was)
    ensures Tracks(Step(s, e), j, StaleAfter(s, e, j, was))
  {
    if Enabled(s, e) {
      match e
      case Lost(k, listener, retriable) =>
      case AttemptSucceeded(k) =>
      case AttemptFailed(k) =>
      case Timer(k, retriable) =>
      case ApiEnd =>
      case Removed =>
      case NameReused =>
    }
  }

  lemma QuietTracks(s: State, r: State, j: nat, was: bool)
    requires Quiet(s, r) && s.setup == Complete && j < |s.st| && Tracks(s, j, was)
    ensures Tracks(r, j, was)
  {
    assert StageStep(s.st[j], r.st[j]);
  }

  /** In a complete session the stage that comes back has a fresh stream, and every other READY
      stage the one it had. */
  lemma CompleteTracks(s: State, e: Event, j: nat, was: bool)
    requires Inv(s) && s.setup == Complete && j < |s.st| && Tracks(s, j, was)
    ensures Tracks(Step(s, e), j, StaleAfter(s, e, j, was))
  {
    if Enabled(s, e) {
      if e.AttemptSucceeded? {
        BackTracks(s, e.k, j);
      } else if !e.Removed? && !e.NameReused? {
        StepQuiet(s, e);
        QuietTracks(s, Step(s, e), j, was);
      }
    }
  }

  lemma BackTracks(s: State, k: nat, j: nat)
    requires Inv(s) && s.setup == Complete && j < |s.st| && k < |s.st|
    ensures var r := Succeed(s, k);
      r.setup == Complete && (r.st[j].status == READY ==>
        if j == k then r.st[j].ends == 0 else s.st[j].status == READY && r.st[j].ends == s.st[j].ends)
  {
    RepipeCameBack(s, k);
    SessionEnds(Repipe(Repay(Renew(s, k), k), k).0);
  }

  lemma {:induction false} RunTracks(s: State, es: seq<Event>, j: nat, was: bool)
    requires Inv(s) && j < |s.st| && Tracks(s, j, was)
    ensures Tracks(Run(s, es), j, Stale(s, es, j, was))
    decreases |es|
  {
    if es != [] {
      var e := es[0];
      StepKeeps(s, e);
      if s.setup == Pending {
        PendingTracks(s, e, j, was);
      } else if s.setup == Complete {
        CompleteTracks(s, e, j, was);
      } else {
        StaysAborted(s, e);
      }
      RunTracks(Step(s, e), es[1..], j, StaleAfter(s, e, j, was));
    }
  }

  lemma StaysAborted(s: State, e: Event)
    requires Inv(s) && s.setup == Aborted
    ensures Step(s, e).setup == Aborted
  {
    if Enabled(s, e) && !e.AttemptSucceeded? && !e.Removed? && !e.NameReused? {
      StepQuiet(s, e);
    }
  }

  /** No stage has a stream that was ended before set-up completed. */
  ghost predicate NoneStale(i: State, es: seq<Event>)
    requires |i.st| == Size(i.cfg)
  {
    forall j: nat :: j < |i.st| ==> !Stale(i, es, j, false)
  }

  lemma UnendedExactly(c: Config, sourceRetriable: bool, es: seq<Event>)
    requires Joined(Run(Initial(c, sourceRetriable), es)) && Run(Initial(c, sourceRetriable), es).setup == Complete
    ensures Whole(Run(Initial(c, sourceRetriable), es)) <==> NoneStale(Initial(c, sourceRetriable), es)
  {
    var i := Initial(c, sourceRetriable);
    var r := Run(i, es);
    InitialInv(c, sourceRetriable);
    forall j: nat | j < |i.st|
      ensures r.st[j].ends > 0 <==> Stale(i, es, j, false)
    {
      RunTracks(i, es, j, false);
      assert Ready(r, j);
    }
  }

  /** Over every run: a CONNECT means that every stage is READY and the whole ring is piped
      exactly when each stage had a retry loop whenever the complete session was destroyed; and
      no stream of that ring was ended exactly when, besides, each stage that had a stream when
      the session was deleted during set-up has come back since. */
  lemma ConnectIsWholeIff(c: Config, sourceRetriable: bool, es: seq<Event>, e: Event)
    ensures var i := Initial(c, sourceRetriable);
      var s, r := Run(i, es), Run(i, es + [e]);
      Reports(s, r) ==>
      && (Joined(r) <==> NoneForsaken(i, es))
      && (Whole(r) <==> NoneForsaken(i, es) && NoneStale(i, es + [e]))
      && (!r.late ==> (Whole(r) <==> NoneForsaken(i, es)))
  {
    var i := Initial(c, sourceRetriable);
    var s, r := Run(i, es), Run(i, es + [e]);
    InitialInv(c, sourceRetriable);
    RunKeeps(i, es);
    LastStep(i, es, e);
    RunSettles(i, es);
    NoneAbandonedExactly(i, es);
    if Reports(s, r) {
      ConnectIsJoinedFrom(s, e);
      ConnectMeansWhole(s, e);
      if Joined(r) {
        UnendedExactly(c, sourceRetriable, es + [e]);
        if !r.late {
          StepKeeps(s, e);
          JoinedUnended(r);
        }
      }
    }
  }

  lemma {:induction false} LastStep(s: State, es: seq<Event>, e: Event)
    requires |s.st| == Size(s.cfg)
    ensures Run(s, es + [e]) == Step(Run(s, es), e)
    decreases |es|
  {
    if es == [] {
      assert es + [e] == [e] && [e][1..] == [];
    } else {
      LastStep(Step(s, es[0]), es[1..], e);
      assert (es + [e])[1..] == es[1..] + [e];
    }
  }

  lemma JoinedUnended(r: State)
    requires Inv(r) && Joined(r) && !r.late
    ensures Whole(r)
  {
    forall k: nat | k < |r.st|
      ensures r.st[k].ends == 0
    {
      assert Ready(r, k);
    }
  }

  /** A step that reports CONNECT destroys nothing. */
  lemma OnlyReports(s: State, e: Event)
    requires Inv(s) && Reports(s, Step(s, e))
    ensures !Destroys(s, Step(s, e))
  {
    if !e.AttemptSucceeded? {
      OnlySuccessReports(s, e);
    } else if Enabled(s, e) {
      SucceedFacts(s, e.k);
    }
  }

  /** Deleting a complete session, or an error in it, abandons exactly the stages without a
      retry loop. */
  lemma EndAbandons(s: State, j: nat)
    requires Inv(s) && s.setup == Complete && j < |s.st|
    ensures Abandoned(SessionEnd(s), j) <==> s.st[j].loop == Idle
    ensures Abandoned(SessionError(s), j) <==> s.st[j].loop == Idle
  {
    SessionEnds(s);
  }

  lemma StillReports(s: State, k: nat)
    requires Inv(s) && AllInFlight(s) && s.lost == {k}
    requires s.cfg.intended || !LastEgress(s.cfg, k)
    ensures var d := SessionEnd(s); d.st[k].loop.Flight? && Reports(d, Succeed(d, k))
  {
    SessionEnds(s);
    SucceedFacts(SessionEnd(s), k);
  }

  /** The case that breaks it: one stage is lost and being retried, the session is deleted, and
      the attempt succeeds. CONNECT is reported while every other stage is ended. */
  lemma ConnectAfterDelete(s: State, k: nat)
    requires Inv(s) && AllInFlight(s) && s.lost == {k} && LogDestroy !in s.log
    requires s.cfg.intended || !LastEgress(s.cfg, k)
    ensures var d := Step(s, ApiEnd);
      var r := Step(d, AttemptSucceeded(k));
      && Reports(d, r) && !Joined(r)
      && forall j: nat :: j < |s.st| && j != k ==> r.st[j].status == END
  {
    StillReports(s, k);
    OthersEnded(s, k);
    assert !Ready(Succeed(SessionEnd(s), k), Succ(s.cfg, k));
  }

  lemma OthersEnded(s: State, k: nat)
    requires Inv(s) && s.setup == Complete && s.lost == {k}
    ensures forall j: nat :: j < |s.st| && j != k ==> Succeed(SessionEnd(s), k).st[j].status == END
  {
    forall j: nat | j < |s.st| && j != k
      ensures Succeed(SessionEnd(s), k).st[j].status == END
    {
      EndAbandons(s, j);
      OthersBack(SessionEnd(s), k, j);
    }
  }

  lemma FirstSuccess(retries: nat)
    ensures var i := Initial(Config(0, 0, Always, retries, true), false);
      var t := Step(i, AttemptSucceeded(1));
      && t.setup == Complete && t.lost == {} && LogDestroy !in t.log && t.named && t.cfg == i.cfg
      && t.st[1].status == READY && t.st[1].loop == Idle && t.st[1].retriable
  {
    var i := Initial(Config(0, 0, Always, retries, true), false);
    assert Step(i, AttemptSucceeded(1)) == Finish(Renew(i, 1));
  }

  lemma ThenLost(t: State)
    requires Inv(t) && t.setup == Complete && t.lost == {} && LogDestroy !in t.log && t.named && t.cfg.on == Always
    requires |t.st| == 2 && t.st[1].status == READY && t.st[1].loop == Idle && t.st[1].retriable
    ensures var r := Step(t, Lost(1, Gone, true));
      AllInFlight(r) && r.lost == {1} && LogDestroy !in r.log && r.cfg == t.cfg
  {
    var m := MarkLost(Logged(t, LogDisconnect), 1);
    assert Step(t, Lost(1, Gone, true))
        == StartAttempt(m, 1, if t.cfg.retries > 0 then t.cfg.retries - 1 else 0, true);
  }

  /** Such a session is reached: its one cluster stage connects and is lost again. */
  lemma OneStageLost(retries: nat)
    ensures exists s :: Reachable(s, Config(0, 0, Always, retries, true))
              && AllInFlight(s) && s.lost == {1} && LogDestroy !in s.log
  {
    var i := Initial(Config(0, 0, Always, retries, true), false);
    InitialInv(i.cfg, false);
    FirstSuccess(retries);
    var t := Step(i, AttemptSucceeded(1));
    StepKeeps(i, AttemptSucceeded(1));
    ThenLost(t);
    var es := [AttemptSucceeded(1), Lost(1, Gone, true)];
    assert es[1..] == [Lost(1, Gone, true)];
    assert Run(i, es) == Step(t, Lost(1, Gone, true));
    assert Reachable(Run(i, es), i.cfg);
  }

  // ------------------------------------------------------------------ ending a stream twice

  /** Before set-up completes, the source has been ended once if the session was destroyed,
      and not at all otherwise. */
  predicate SourceEnds(s: State) {
    |s.st| > 0 &&
    (s.setup != Complete ==>
       if LogDestroy in s.log then s.st[0].ends == 1 && s.st[0].status == END
       else s.st[0].ends == 0 && s.st[0].status == READY)
  }

  lemma EndingSource(s: State)
    requires SourceEnds(s) && s.setup != Complete && s.st[0].stream >= 0
    ensures SourceEnds(SessionEnd(s)) && SourceEnds(SessionError(s))
  {
    SessionEnds(s);
  }

  lemma RejectingSource(s: State, k: nat, status: StageStatus)
    requires SourceEnds(s) && s.setup != Complete && s.st[0].stream >= 0 && 0 < k < |s.st|
    ensures SourceEnds(Reject(s, k, status))
  {
    EndingSource(Put(s, k, s.st[k].(loop := Idle, status := status), if s.setup == Pending then Aborted else s.setup));
  }

  lemma StepCountsSource(s: State, e: Event)
    requires Inv(s) && SourceEnds(s)
    ensures SourceEnds(Step(s, e))
  {
    if s.setup == Complete {
      StepEffect(s, e);
    } else if Enabled(s, e) {
      match e
      case Lost(k, listener, retriable) => DisconnectFacts(s, k, listener, retriable);
      case AttemptSucceeded(k) =>
      case AttemptFailed(k) => RejectingSource(s, k, END);
      case Timer(k, retriable) =>
        RejectingSource(s, k, END);
        RejectingSource(s, k, s.st[k].status);
      case ApiEnd => EndingSource(s);
      case Removed =>
      case NameReused =>
    }
  }

  lemma {:induction false} RunCountsSource(s: State, es: seq<Event>)
    requires Inv(s) && SourceEnds(s)
    ensures SourceEnds(Run(s, es))
    decreases |es|
  {
    if es != [] {
      StepKeeps(s, es[0]);
      StepCountsSource(s, es[0]);
      RunCountsSource(Step(s, es[0]), es[1..]);
    }
  }

  lemma ReachableCountsSource(s: State, c: Config)
    requires Reachable(s, c)
    ensures Inv(s) && SourceEnds(s)
  {
    var sourceRetriable: bool, es: seq<Event> :| s == Run(Initial(c, sourceRetriable), es);
    InitialInv(c, sourceRetriable);
    RunKeeps(Initial(c, sourceRetriable), es);
    RunCountsSource(Initial(c, sourceRetriable), es);
  }

  /** Set-up completes with the attempt of stage k, and the session is deleted then. */
  lemma DeletedAfterSetup(s: State, k: nat)
    requires Inv(s) && s.setup == Pending && k < |s.st| && s.st[k].loop.Flight?
    requires forall j :: 0 <= j < |s.st| && j != k ==> s.st[j].loop == Idle
    ensures forall j :: 0 <= j < |s.st| ==>
              SessionEnd(Succeed(s, k)).st[j].ends == (if j == k then 0 else s.st[j].ends) + 1
  {
    var t := Renew(s, k);
    assert Succeed(s, k) == Finish(t);
    forall j | 0 <= j < |s.st|
      ensures SessionEnd(Finish(t)).st[j].ends == t.st[j].ends + 1
    {
      assert Finish(t).st[j] == t.st[j].(status := READY);
    }
  }

  /** Set-up completing and a deletion after it end some stream twice exactly when the session
      had been destroyed before; k is the stage whose attempt completes the set-up. */
  lemma LateSetupEndsTwice(s: State, c: Config, k: nat)
    requires Reachable(s, c) && s.setup == Pending && k < |s.st| && s.st[k].loop.Flight?
    requires forall j :: 0 <= j < |s.st| && j != k ==> s.st[j].loop == Idle
    ensures (exists j :: 0 <= j < |s.st| && SessionEnd(Succeed(s, k)).st[j].ends > 1) <==> LogDestroy in s.log
  {
    ReachableCountsSource(s, c);
    DeletedAfterSetup(s, k);
    if LogDestroy in s.log {
      assert k != 0 && SessionEnd(Succeed(s, k)).st[0].ends > 1;
    }
  }

  /** A session deleted while its only attempt runs is in such a state. */
  lemma LateSetupHappens(retries: nat)
    ensures exists s :: Reachable(s, Config(0, 0, Always, retries, true)) && s.setup == Pending
              && |s.st| == 2 && s.st[1].loop.Flight? && s.st[0].loop == Idle && LogDestroy in s.log
  {
    var i := Initial(Config(0, 0, Always, retries, true), false);
    InitialInv(i.cfg, false);
    SessionEnds(i);
    assert Run(i, [ApiEnd]) == Run(SessionEnd(i), []) == SessionEnd(i);
    assert Reachable(SessionEnd(i), i.cfg);
  }
}
