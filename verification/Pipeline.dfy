/** The life of one session as a transition system (session.js).

    A session is a ring of stages in route order: position 0 is the source, then the
    ingress chain, the destination and the egress chain, and back to the source.  Every
    function below is one uninterrupted stretch of the session code; `Step` is what one
    external event (a stream closing, an attempt ending, a timer, an API call) does.
    `SessionObjects` proves the field-updating methods against these functions. */
module Pipeline {

  datatype StageStatus = INIT | CONNECTED | READY | DISCONNECTED | RETRYING | FINALIZING | END

  datatype SessionStatus = SessionInit | SessionConnected | Finalizing | Destroyed

  datatype LogEvent = LogInit | LogConnect | LogDisconnect | LogError | LogEnd | LogDestroy

  datatype RetryOn = Always | OnDisconnect | OnConnectFailure | Never | UnknownPolicy

  /** What p-retry is doing for a stage.  `left` is the number of retries left should the
      attempt (running, or due when the timer fires) fail. */
  datatype Loop = Idle | Flight(left: nat) | Waiting(left: nat)

  /** `stream` is the identity of the current stream, -1 while there is none; `ends` counts
      the calls of `end` that `destroy` made on that stream. */
  datatype Stage = Stage(status: StageStatus, stream: int, loop: Loop, retriable: bool, ends: nat)

  /** `intended` selects the last-egress test of `repipe`: false is the test as written,
      `i === this.chain.egress - 1`; true is the test against the length of the chain. */
  datatype Config = Config(ingress: nat, egress: nat, on: RetryOn, retries: nat, intended: bool)

  datatype Setup = Pending | Complete | Aborted

  /** `pipes` lists the pipes laid so far by the identities of the two streams; `lost` holds the
      stages whose decrement of `active` has not been repaid; `attempts` counts the calls to a
      cluster for a stream; `named` says whether some registered session carries this session's
      name; `late` says that set-up completed after a `destroy`. */
  datatype State = State(
    cfg: Config,
    st: seq<Stage>,
    status: SessionStatus,
    setup: Setup,
    active: int,
    num: int,
    pipes: seq<(int, int)>,
    next: int,
    log: seq<LogEvent>,
    lost: set<nat>,
    attempts: nat,
    named: bool,
    late: bool)

  // ------------------------------------------------------------------ the ring

  function Size(c: Config): nat { c.ingress + c.egress + 2 }

  function Dest(c: Config): nat { c.ingress + 1 }

  function Succ(c: Config, k: nat): nat { if k + 1 == Size(c) then 0 else k + 1 }

  function Pred(c: Config, k: nat): nat { if k == 0 then Size(c) - 1 else k - 1 }

  function IngressAt(c: Config, i: nat): nat { 1 + i }

  function EgressAt(c: Config, i: nat): nat { Dest(c) + 1 + i }

  /** The stage that `repipe` pipes into stage k, by the case split of the code. */
  function RepipeFrom(c: Config, k: nat): nat {
    if k == 0 then (if c.egress > 0 then EgressAt(c, c.egress - 1) else Dest(c))
    else if k == Dest(c) then (if c.ingress > 0 then IngressAt(c, c.ingress - 1) else 0)
    else if k < Dest(c) then (var i := k - 1; if i == 0 then 0 else IngressAt(c, i - 1))
    else (var i := k - Dest(c) - 1; if i == 0 then Dest(c) else EgressAt(c, i - 1))
  }

  /** The stage that `repipe` pipes stage k into; -1 where the code reads past the chain. */
  function RepipeTo(c: Config, k: nat): int {
    if k == 0 then (if c.ingress > 0 then IngressAt(c, 0) else Dest(c))
    else if k == Dest(c) then (if c.egress > 0 then EgressAt(c, 0) else 0)
    else if k < Dest(c) then (var i := k - 1; if i == c.ingress - 1 then Dest(c) else IngressAt(c, i + 1))
    else
      var i := k - Dest(c) - 1;
      if c.intended && i == c.egress - 1 then 0
      else if i + 1 < c.egress then EgressAt(c, i + 1)
      else -1
  }

  predicate LastEgress(c: Config, k: nat) { c.egress > 0 && k == Size(c) - 1 }

  /** The four-way case split of `repipe` names the two neighbours in the ring, for chains of
      any length, with one exception: as written, it finds no successor for a stage exactly
      when that stage is the last one of the egress chain. */
  lemma RepipeNamesNeighbours(c: Config, k: nat)
    requires k < Size(c)
    ensures RepipeFrom(c, k) == Pred(c, k)
    ensures RepipeTo(c, k) == if !c.intended && LastEgress(c, k) then -1 else Succ(c, k)
  {
  }

  // ------------------------------------------------------- pieces of the session code

  function DestroyStage(t: Stage): Stage {
    if t.status == RETRYING then t
    else t.(status := END, ends := if t.status != END && t.stream >= 0 then t.ends + 1 else t.ends)
  }

  predicate SameShape(s: State, r: State) { |r.st| == |s.st| && r.cfg == s.cfg }

  function Destroy(s: State): (r: State)
    ensures SameShape(s, r)
  {
    s.(st := seq(|s.st|, i requires 0 <= i < |s.st| => DestroyStage(s.st[i])),
       status := Destroyed,
       log := s.log + [LogDestroy])
  }

  /** The value `destroy` returns. */
  function DestroyResult(s: State): nat {
    if exists k :: 0 <= k < |s.st| && s.st[k].status == RETRYING then 0 else 1
  }

  function SessionError(s: State): (r: State)
    ensures SameShape(s, r)
  {
    Destroy(s.(log := s.log + [LogError], status := Finalizing))
  }

  function SessionEnd(s: State): (r: State)
    ensures SameShape(s, r)
  {
    Destroy(s.(log := s.log + [LogEnd], status := Finalizing))
  }

  function Connect(s: State): State {
    s.(status := SessionConnected, log := s.log + [LogConnect])
  }

  function AllReady(st: seq<Stage>): seq<Stage> {
    seq(|st|, i requires 0 <= i < |st| => st[i].(status := READY))
  }

  /** One pipe from each stage's current stream to that of the next stage of the ring. */
  function RingPipes(s: State): (r: seq<(int, int)>)
    requires |s.st| == Size(s.cfg)
  {
    seq(|s.st|, k requires 0 <= k < |s.st| => (s.st[k].stream, s.st[Succ(s.cfg, k)].stream))
  }

  /** All streams resolved: `pipeline` lays the ring of pipes. */
  function LayRing(s: State): (r: State)
    requires |s.st| == Size(s.cfg)
    ensures SameShape(s, r)
  {
    s.(num := |s.st| - 1,
       active := |s.st| - 1,
       pipes := s.pipes + RingPipes(s),
       st := AllReady(s.st),
       setup := Complete,
       late := LogDestroy in s.log)
  }

  /** The tail of `pipeline`. */
  function Finish(s: State): (r: State)
    requires |s.st| == Size(s.cfg)
    ensures SameShape(s, r)
  {
    Connect(LayRing(s))
  }

  /** `repipe`: false when it throws, after the first of its two pipes is already laid. */
  function Repipe(s: State, k: nat): (r: (State, bool))
    requires |s.st| == Size(s.cfg) && k < |s.st|
    ensures SameShape(s, r.0)
  {
    RepipeNamesNeighbours(s.cfg, k);
    var me := s.st[k].stream;
    var into := (s.st[RepipeFrom(s.cfg, k)].stream, me);
    var to := RepipeTo(s.cfg, k);
    if to < 0 then (s.(pipes := s.pipes + [into]), false)
    else
      var out := (me, s.st[to].stream);
      var laid := if k == 0 then [out, into] else [into, out];
      (s.(pipes := s.pipes + laid, st := s.st[k := s.st[k].(status := READY)]), true)
  }

  /** What happens to the listener of a lost source. */
  datatype Listener = Gone | CannotReconnect | CanReconnect

  /** A stage just lost that will not come back: the policy does not reconnect, the stage is
      not retriable, its listener cannot reconnect, or the session's name is not registered. */
  predicate CannotReturn(s: State, k: nat, listener: Listener)
    requires k < |s.st|
  {
    || (s.cfg.on != Always && s.cfg.on != OnDisconnect)
    || !s.st[k].retriable
    || (if k == 0 then listener != CanReconnect else !s.named)
  }

  /** Overwrites the record of stage k. */
  function Put(s: State, k: nat, t: Stage, setup: Setup): (r: State)
    requires k < |s.st|
    ensures SameShape(s, r)
  {
    s.(st := s.st[k := t], setup := setup)
  }

  /** A retry loop gave up, leaving the stage in `status`: `connect` rejects. */
  function Reject(s: State, k: nat, status: StageStatus): (r: State)
    requires k < |s.st|
    ensures SameShape(s, r)
  {
    var s1 := Put(s, k, s.st[k].(loop := Idle, status := status), if s.setup == Pending then Aborted else s.setup);
    if s.setup == Aborted then s1
    else SessionError(s1)
  }

  /** The statuses that abort an attempt. */
  predicate NotRetried(st: StageStatus) { st == CONNECTED || st == FINALIZING || st == END }

  /** The start of one attempt of `Stage.connect`, up to the call to the cluster. */
  function StartAttempt(s: State, k: nat, left: nat, retriable: bool): (r: State)
    requires k < |s.st|
    ensures SameShape(s, r)
  {
    if !s.named then Reject(s, k, END)
    else if NotRetried(s.st[k].status) then Reject(s, k, s.st[k].status)
    else Put(s.(attempts := s.attempts + 1), k, s.st[k].(loop := Flight(left), retriable := retriable), s.setup)
  }

  /** The bookkeeping of `disconnect` for a stage that was READY. */
  function MarkLost(s: State, k: nat): (r: State)
    requires k < |s.st| && s.st[k].status == READY
    ensures SameShape(s, r)
  {
    s.(st := s.st[k := s.st[k].(status := DISCONNECTED)], active := s.active - 1, lost := s.lost + {k})
  }

  function Logged(s: State, e: LogEvent): (r: State)
    requires e != LogConnect && e != LogDestroy
    ensures SameShape(s, r)
  {
    s.(log := s.log + [e])
  }

  /** `disconnect` of a READY stage, after the event is logged. */
  function Lose(s: State, k: nat, listener: Listener, retriable: bool): (r: State)
    requires k < |s.st| && s.st[k].status == READY
    ensures SameShape(s, r)
  {
    ApplyPolicy(MarkLost(s, k), k, listener, retriable)
  }

  /** `disconnect` up to its await.  `listener` matters for the source only; `retriable` is
      the flag a cluster reports when the attempt starts. */
  function Disconnect(s: State, k: nat, listener: Listener, retriable: bool): (r: State)
    requires k < |s.st|
    ensures SameShape(s, r)
  {
    var t := Logged(s, LogDisconnect);
    if s.st[k].status != READY then t else Lose(t, k, listener, retriable)
  }

  /** The switch over the retry policy. */
  function ApplyPolicy(s: State, k: nat, listener: Listener, retriable: bool): (r: State)
    requires k < |s.st|
    ensures SameShape(s, r)
  {
    match s.cfg.on
    case Always => Reconnect(s, k, listener, retriable)
    case OnDisconnect => Reconnect(s, k, listener, retriable)
    case OnConnectFailure => SessionEnd(s)
    case Never => SessionEnd(s)
    case UnknownPolicy => SessionError(s)
  }

  function Reconnect(s: State, k: nat, listener: Listener, retriable: bool): (r: State)
    requires k < |s.st|
    requires s.cfg.on == Always || s.cfg.on == OnDisconnect
    ensures SameShape(s, r)
  {
    if !s.st[k].retriable then SessionError(s)
    else if k == 0 then
      if listener != CanReconnect then SessionError(s)
      else Put(s, k, s.st[k].(loop := Flight(0)), s.setup)
    else StartAttempt(s, k, if s.cfg.retries > 0 then s.cfg.retries - 1 else 0, retriable)
  }

  /** The new stream of stage k, as `Stage.connect` stores it. */
  function Renew(s: State, k: nat): (r: State)
    requires k < |s.st|
    ensures SameShape(s, r)
  {
    s.(st := s.st[k := s.st[k].(stream := s.next, status := CONNECTED, loop := Idle, ends := 0)],
       next := s.next + 1)
  }

  /** The end of `reconnect`, and the increment that repays the loss. */
  function Repay(s: State, k: nat): (r: State)
    requires k < |s.st|
    ensures SameShape(s, r)
  {
    s.(st := s.st[k := s.st[k].(status := READY)], active := s.active + 1, lost := s.lost - {k})
  }

  /** What `disconnect` does once stage k has its new stream. */
  function Resume(s: State, k: nat): (r: State)
    requires |s.st| == Size(s.cfg) && k < |s.st|
    ensures SameShape(s, r)
  {
    var (s1, ok) := Repipe(Repay(s, k), k);
    if !ok then SessionError(s1)
    else if s1.active == s1.num then Connect(s1)
    else s1
  }

  /** The running attempt of stage k yields a new stream. */
  function Succeed(s: State, k: nat): (r: State)
    requires |s.st| == Size(s.cfg) && k < |s.st|
    ensures SameShape(s, r)
  {
    var s1 := Renew(s, k);
    match s.setup
    case Aborted => s1
    case Pending => if forall j :: 0 <= j < |s1.st| ==> s1.st[j].loop == Idle then Finish(s1) else s1
    case Complete => Resume(s1, k)
  }

  /** The running attempt of stage k fails. */
  function Fail(s: State, k: nat): (r: State)
    requires k < |s.st| && s.st[k].loop.Flight?
    ensures SameShape(s, r)
  {
    var left := s.st[k].loop.left;
    if k == 0 then Reject(s, k, s.st[k].status)
    else if left == 0 then Reject(s, k, END)
    else Put(s, k, s.st[k].(status := RETRYING, loop := Waiting(left - 1)), s.setup)
  }

  // --------------------------------------------------------------------- events

  datatype Event =
    | Lost(k: nat, listener: Listener, retriable: bool)
    | AttemptSucceeded(k: nat)
    | AttemptFailed(k: nat)
    | Timer(k: nat, retriable: bool)
    | ApiEnd
    | Removed
    | NameReused

  /** Which events can occur.  The source has no event handlers before set-up completes. */
  predicate Enabled(s: State, e: Event) {
    match e
    case Lost(k, _, _) => k < |s.st| && (k == 0 ==> s.setup == Complete)
    case AttemptSucceeded(k) => k < |s.st| && s.st[k].loop.Flight?
    case AttemptFailed(k) => k < |s.st| && s.st[k].loop.Flight?
    case Timer(k, _) => k < |s.st| && s.st[k].loop.Waiting?
    case ApiEnd => true
    case Removed => LogDestroy in s.log
    case NameReused => !s.named
  }

  function Step(s: State, e: Event): (r: State)
    requires |s.st| == Size(s.cfg)
    ensures SameShape(s, r)
  {
    if !Enabled(s, e) then s
    else match e
      case Lost(k, listener, retriable) => Disconnect(s, k, listener, retriable)
      case AttemptSucceeded(k) => Succeed(s, k)
      case AttemptFailed(k) => Fail(s, k)
      case Timer(k, retriable) => StartAttempt(s, k, s.st[k].loop.left, retriable)
      case ApiEnd => SessionEnd(s)
      case Removed => s.(named := false)
      case NameReused => s.(named := true)
  }

  function SetupRetries(c: Config): nat {
    if c.on == OnConnectFailure || c.on == Always then c.retries else 0
  }

  /** A cluster stage whose first attempt is running. */
  function NewStage(c: Config): Stage { Stage(INIT, -1, Flight(SetupRetries(c)), true, 0) }

  /** The state right after `pipeline_init`: every cluster stage has its first attempt
      running; only the source has a stream. */
  function Initial(c: Config, sourceRetriable: bool): State {
    State(c,
          [Stage(READY, 0, Idle, sourceRetriable, 0)] + seq(Size(c) - 1, i => NewStage(c)),
          SessionInit, Pending, 0, 0, [], 1, [LogInit], {}, Size(c) - 1, true, false)
  }

  function Run(s: State, es: seq<Event>): (r: State)
    requires |s.st| == Size(s.cfg)
    ensures SameShape(s, r)
    decreases |es|
  {
    if es == [] then s else Run(Step(s, es[0]), es[1..])
  }
}
