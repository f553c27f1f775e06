/** The record of a session: what every event adds to its log, and its status. */
module PipelineLog {
  import opened Pipeline
  import opened PipelineSteps
  import opened PipelineSafety
  import opened PipelineRuns

  // ------------------------------------------------------------------------------- the log

  const ENDED: seq<LogEvent> := [LogEnd, LogDestroy]

  const FAILED: seq<LogEvent> := [LogError, LogDestroy]

  /** What the retry policy records for a lost stage: the end of the session under the policies
      that do not reconnect, its error when the policy is unknown or the stage cannot be brought
      back. */
  function PolicyRecord(s: State, k: nat, listener: Listener): seq<LogEvent>
    requires k < |s.st|
  {
    match s.cfg.on
    case Never => ENDED
    case OnConnectFailure => ENDED
    case UnknownPolicy => FAILED
    case _ => if !s.st[k].retriable || (if k == 0 then listener != CanReconnect else !s.named) then FAILED else []
  }

  /** Losing a stage records the loss; only for a READY one the policy is asked. */
  function LossLog(s: State, k: nat, listener: Listener): seq<LogEvent>
    requires k < |s.st|
  {
    [LogDisconnect] + if s.st[k].status == READY then PolicyRecord(s, k, listener) else []
  }

  /** A retry loop that gives up is an error of the session, unless set-up failed before. */
  function GivingUpLog(s: State): seq<LogEvent> { if s.setup == Aborted then [] else FAILED }

  /** What a success records: nothing after a failed set-up; CONNECT when it is the last that
      set-up awaits; after that CONNECT when it repays the last loss, or, as written, an error
      for the last egress stage. */
  function SuccessLog(s: State, k: nat): seq<LogEvent>
    requires k < |s.st|
  {
    match s.setup
    case Aborted => []
    case Pending => if forall j :: 0 <= j < |s.st| && j != k ==> s.st[j].loop.Idle? then [LogConnect] else []
    case Complete =>
      if !s.cfg.intended && LastEgress(s.cfg, k) then FAILED
      else if s.lost == {k} then [LogConnect]
      else []
  }

  /** What an event that can occur adds to the log. */
  function Entry(s: State, e: Event): seq<LogEvent>
    requires |s.st| == Size(s.cfg) && Enabled(s, e)
  {
    match e
    case Lost(k, listener, _) => LossLog(s, k, listener)
    case AttemptSucceeded(k) => SuccessLog(s, k)
    case AttemptFailed(k) => if k == 0 || s.st[k].loop.left == 0 then GivingUpLog(s) else []
    case Timer(_, _) => if s.named then [] else GivingUpLog(s)
    case ApiEnd => ENDED
    case Removed => []
    case NameReused => []
  }

  lemma RejectLog(s: State, k: nat, status: StageStatus)
    requires k < |s.st|
    ensures Reject(s, k, status).log == s.log + GivingUpLog(s)
  {
    assert s.log + [LogError] + [LogDestroy] == s.log + FAILED;
    assert s.log + [] == s.log;
  }

  lemma EndLog(s: State)
    ensures SessionEnd(s).log == s.log + ENDED && SessionError(s).log == s.log + FAILED
  {
    assert s.log + [LogEnd] + [LogDestroy] == s.log + ENDED;
    assert s.log + [LogError] + [LogDestroy] == s.log + FAILED;
  }

  lemma StartLog(s: State, k: nat, left: nat, retriable: bool)
    requires k < |s.st| && !NotRetried(s.st[k].status)
    ensures StartAttempt(s, k, left, retriable).log == s.log + if s.named then [] else GivingUpLog(s)
  {
    RejectLog(s, k, END);
    assert s.log + [] == s.log;
  }

  lemma PolicyLog(m: State, k: nat, listener: Listener, retriable: bool)
    requires k < |m.st| && m.st[k].status == DISCONNECTED && m.setup == Complete
    ensures ApplyPolicy(m, k, listener, retriable).log == m.log + PolicyRecord(m, k, listener)
  {
    EndLog(m);
    assert m.log + [] == m.log;
    if k > 0 {
      StartLog(m, k, if m.cfg.retries > 0 then m.cfg.retries - 1 else 0, retriable);
    }
  }

  lemma DisconnectLog(s: State, k: nat, listener: Listener, retriable: bool)
    requires k < |s.st| && s.setup == Complete
    ensures Disconnect(s, k, listener, retriable).log == s.log + LossLog(s, k, listener)
  {
    var t := Logged(s, LogDisconnect);
    if s.st[k].status == READY {
      var m := MarkLost(t, k);
      PolicyLog(m, k, listener, retriable);
      var rest := PolicyRecord(s, k, listener);
      assert s.log + [LogDisconnect] + rest == s.log + ([LogDisconnect] + rest);
    } else {
      assert s.log + [LogDisconnect] == s.log + ([LogDisconnect] + []);
    }
  }

  lemma EarlyLossLog(s: State, k: nat, listener: Listener, retriable: bool)
    requires k < |s.st| && s.st[k].status != READY
    ensures Disconnect(s, k, listener, retriable).log == s.log + LossLog(s, k, listener)
  {
    assert s.log + [LogDisconnect] == s.log + ([LogDisconnect] + []);
  }

  lemma SucceedLog(s: State, k: nat)
    requires Inv(s) && k < |s.st| && s.st[k].loop.Flight?
    ensures Succeed(s, k).log == s.log + SuccessLog(s, k)
  {
    assert s.log + [] == s.log;
    if s.setup == Complete {
      SucceedFacts(s, k);
      assert s.lost == {k} <==> |s.lost - {k}| == 0;
    } else {
      var t := Renew(s, k);
      assert (forall j :: 0 <= j < |t.st| ==> t.st[j].loop == Idle) <==>
             (forall j :: 0 <= j < |s.st| && j != k ==> s.st[j].loop.Idle?) by {
        assert forall j :: 0 <= j < |s.st| && j != k ==> t.st[j] == s.st[j];
      }
    }
  }

  /** What each event records, ends and errors told apart. */
  lemma StepRecords(s: State, e: Event)
    requires Inv(s) && Enabled(s, e)
    ensures Step(s, e).log == s.log + Entry(s, e)
  {
    match e
    case Lost(k, listener, retriable) =>
      if s.st[k].status == READY {
        DisconnectLog(s, k, listener, retriable);
      } else {
        EarlyLossLog(s, k, listener, retriable);
      }
    case AttemptSucceeded(k) => SucceedLog(s, k);
    case AttemptFailed(k) => FailLog(s, k);
    case Timer(k, retriable) => StartLog(s, k, s.st[k].loop.left, retriable);
    case ApiEnd => EndLog(s);
    case Removed => assert s.log + [] == s.log;
    case NameReused => assert s.log + [] == s.log;
  }

  lemma FailLog(s: State, k: nat)
    requires k < |s.st| && s.st[k].loop.Flight?
    ensures Fail(s, k).log == s.log + if k == 0 || s.st[k].loop.left == 0 then GivingUpLog(s) else []
  {
    RejectLog(s, k, s.st[k].status);
    RejectLog(s, k, END);
    assert s.log + [] == s.log;
  }

  // ------------------------------------------------------------------------------ the status

  /** The status that the log tells: as of the last CONNECT or DESTROY. */
  function StatusOf(log: seq<LogEvent>): SessionStatus {
    if log == [] then SessionInit
    else
      match log[|log| - 1]
      case LogConnect => SessionConnected
      case LogDestroy => Destroyed
      case _ => StatusOf(log[..|log| - 1])
  }

  predicate StatusTold(s: State) { s.status == StatusOf(s.log) }

  lemma EndTold(s: State)
    ensures StatusTold(SessionEnd(s)) && StatusTold(SessionError(s))
  {
  }

  lemma LoggedTold(s: State, e: LogEvent)
    requires StatusTold(s) && e != LogConnect && e != LogDestroy
    ensures StatusTold(Logged(s, e))
  {
    assert (s.log + [e])[..|s.log|] == s.log;
  }

  lemma StartTold(s: State, k: nat, left: nat, retriable: bool)
    requires StatusTold(s) && k < |s.st|
    ensures StatusTold(StartAttempt(s, k, left, retriable))
  {
  }

  lemma FailTold(s: State, k: nat)
    requires StatusTold(s) && k < |s.st| && s.st[k].loop.Flight?
    ensures StatusTold(Fail(s, k))
  {
  }

  lemma PolicyTold(m: State, k: nat, listener: Listener, retriable: bool)
    requires StatusTold(m) && k < |m.st|
    ensures StatusTold(ApplyPolicy(m, k, listener, retriable))
  {
    EndTold(m);
    StartTold(m, k, if m.cfg.retries > 0 then m.cfg.retries - 1 else 0, retriable);
  }

  lemma DisconnectTold(s: State, k: nat, listener: Listener, retriable: bool)
    requires StatusTold(s) && k < |s.st|
    ensures StatusTold(Disconnect(s, k, listener, retriable))
  {
    LoggedTold(s, LogDisconnect);
    if s.st[k].status == READY {
      PolicyTold(MarkLost(Logged(s, LogDisconnect), k), k, listener, retriable);
    }
  }

  lemma ResumeTold(s: State, k: nat)
    requires StatusTold(s) && |s.st| == Size(s.cfg) && k < |s.st|
    ensures StatusTold(Resume(s, k))
  {
    EndTold(Repipe(Repay(s, k), k).0);
  }

  lemma SucceedTold(s: State, k: nat)
    requires StatusTold(s) && |s.st| == Size(s.cfg) && k < |s.st|
    ensures StatusTold(Succeed(s, k))
  {
    ResumeTold(Renew(s, k), k);
  }

  lemma StepTold(s: State, e: Event)
    requires StatusTold(s) && |s.st| == Size(s.cfg)
    ensures StatusTold(Step(s, e))
  {
    if Enabled(s, e) {
      match e
      case Lost(k, listener, retriable) => DisconnectTold(s, k, listener, retriable);
      case AttemptSucceeded(k) => SucceedTold(s, k);
      case AttemptFailed(k) => FailTold(s, k);
      case Timer(k, retriable) => StartTold(s, k, s.st[k].loop.left, retriable);
      case ApiEnd => EndTold(s);
      case Removed =>
      case NameReused =>
    }
  }

  lemma {:induction false} RunTold(s: State, es: seq<Event>)
    requires StatusTold(s) && |s.st| == Size(s.cfg)
    ensures StatusTold(Run(s, es))
    decreases |es|
  {
    if es != [] {
      StepTold(s, es[0]);
      RunTold(Step(s, es[0]), es[1..]);
    }
  }

  /** In every run the status of the session is INIT, then CONNECTED after a CONNECT and
      DESTROYED after a `destroy`, whichever was last; FINALIZING is never seen from outside. */
  lemma StatusFollowsLog(s: State, c: Config)
    requires Reachable(s, c)
    ensures s.status == StatusOf(s.log)
  {
    var sourceRetriable: bool, es: seq<Event> :| s == Run(Initial(c, sourceRetriable), es);
    assert StatusTold(Initial(c, sourceRetriable)) by { assert [LogInit][..0] == []; }
    RunTold(Initial(c, sourceRetriable), es);
  }
}
