/** The retry loop of one stage, played out event by event in the life of its session, is the loop
    of `Stage.connect`. */
module RetryLoops {
  import opened Pipeline
  import opened PipelineSteps
  import R = Retry

  /** The running attempt of stage k fails, and so do the next n, each when its timer fires. */
  function Failing(k: nat, n: nat, retriable: bool): seq<Event> {
    if n == 0 then [AttemptFailed(k)] else [AttemptFailed(k)] + ([Timer(k, retriable)] + Failing(k, n - 1, retriable))
  }

  /** What n + 1 failures of stage k come to, with `left` retries. */
  ghost predicate FailuresSeen(s: State, t: State, k: nat, left: nat, n: nat) {
    && k < |s.st| == |t.st| && t.attempts == s.attempts + n
    && (if n < left then t.st[k].loop.Waiting? && t.st[k].status == RETRYING
        else t.st[k].loop == Idle && t.st[k].status == END && (s.setup != Aborted ==> LogDestroy in t.log))
  }

  /** The loop of a stage with `left` retries, all of which fail, makes exactly left + 1 attempts:
      after each of the first `left` another one is due, after the next the stage is END. */
  ghost predicate Exhausts(s: State, k: nat, left: nat, retriable: bool)
    requires |s.st| == Size(s.cfg) && k < |s.st|
  {
    forall n: nat :: n <= left ==> FailuresSeen(s, Run(s, Failing(k, n, retriable)), k, left, n)
  }

  lemma FailsOnce(s: State, k: nat)
    requires |s.st| == Size(s.cfg) && 0 < k < |s.st| && s.st[k].loop.Flight? && s.named
    ensures var t := Step(s, AttemptFailed(k));
      && t.attempts == s.attempts
      && (if s.st[k].loop.left > 0 then
            && t.st[k].loop == Waiting(s.st[k].loop.left - 1) && t.st[k].status == RETRYING
            && t.named && t.setup == s.setup && t.log == s.log
          else t.st[k].loop == Idle && t.st[k].status == END && (s.setup != Aborted ==> LogDestroy in t.log))
  {
    var e := Put(s, k, s.st[k].(loop := Idle, status := END), if s.setup == Pending then Aborted else s.setup);
    DestroyEnds(e.(log := e.log + [LogError], status := Finalizing));
  }

  /** An attempt that fails for good ends the session; the source's old stream is ended with it,
      that of a cluster stage is not. */
  lemma LastFailureEnds(s: State, k: nat)
    requires |s.st| == Size(s.cfg) && k < |s.st| && s.st[k].loop == Flight(0) && s.setup == Complete
    requires s.st[k].status == DISCONNECTED || s.st[k].status == RETRYING
    requires k == 0 ==> s.st[k].status == DISCONNECTED && s.st[k].stream >= 0
    ensures var t := Step(s, AttemptFailed(k));
      && t.st[k].status == END && t.st[k].loop == Idle && t.log == s.log + [LogError, LogDestroy]
      && t.st[k].ends == s.st[k].ends + if k == 0 then 1 else 0
  {
    assert s.log + [LogError] + [LogDestroy] == s.log + [LogError, LogDestroy];
  }

  /** A timer that finds the name starts the next attempt. */
  lemma StartsAgain(s: State, k: nat, retriable: bool)
    requires |s.st| == Size(s.cfg) && k < |s.st| && s.st[k].loop.Waiting? && s.st[k].status == RETRYING && s.named
    ensures var t := Step(s, Timer(k, retriable));
      && t.attempts == s.attempts + 1 && t.named && t.setup == s.setup && t.log == s.log
      && t.st[k] == s.st[k].(loop := Flight(s.st[k].loop.left), retriable := retriable)
  {
  }

  lemma FailsThen(s: State, k: nat, retriable: bool) returns (t: State)
    requires |s.st| == Size(s.cfg) && 0 < k < |s.st| && s.st[k].loop.Flight? && s.st[k].loop.left > 0 && s.named
    ensures |t.st| == Size(t.cfg) && |t.st| == |s.st| && t.attempts == s.attempts + 1 && t.named
    ensures t.setup == s.setup && t.log == s.log && t.st[k].loop == Flight(s.st[k].loop.left - 1)
    ensures forall es :: Run(s, [AttemptFailed(k)] + ([Timer(k, retriable)] + es)) == Run(t, es)
  {
    FailsOnce(s, k);
    var u := Step(s, AttemptFailed(k));
    StartsAgain(u, k, retriable);
    t := Step(u, Timer(k, retriable));
    forall es
      ensures Run(s, [AttemptFailed(k)] + ([Timer(k, retriable)] + es)) == Run(t, es)
    {
      RunFirst(u, Timer(k, retriable), es);
      RunFirst(s, AttemptFailed(k), [Timer(k, retriable)] + es);
    }
  }

  lemma OneFailure(s: State, k: nat)
    requires |s.st| == Size(s.cfg) && 0 < k < |s.st| && s.st[k].loop.Flight? && s.named
    ensures FailuresSeen(s, Run(s, [AttemptFailed(k)]), k, s.st[k].loop.left, 0)
  {
    FailsOnce(s, k);
    RunFirst(s, AttemptFailed(k), []);
    assert [AttemptFailed(k)] + [] == [AttemptFailed(k)];
  }

  lemma {:induction false} LoopExhausts(s: State, k: nat, left: nat, n: nat, retriable: bool)
    requires |s.st| == Size(s.cfg) && 0 < k < |s.st| && s.st[k].loop == Flight(left) && s.named && n <= left
    ensures FailuresSeen(s, Run(s, Failing(k, n, retriable)), k, left, n)
    decreases n
  {
    if n == 0 {
      OneFailure(s, k);
    } else {
      var t := FailsThen(s, k, retriable);
      LoopExhausts(t, k, left - 1, n - 1, retriable);
      assert Run(s, Failing(k, n, retriable)) == Run(t, Failing(k, n - 1, retriable));
    }
  }

  /** At set-up, a cluster stage whose attempts all fail makes num_retries + 1 attempts under the
      policies `always` and `connect-failure`, and one under the others; then the session ends. */
  lemma SetupAttempts(c: Config, sourceRetriable: bool, k: nat, retriable: bool)
    requires 0 < k < Size(c)
    ensures Initial(c, sourceRetriable).st[k].status == INIT && Initial(c, sourceRetriable).attempts == Size(c) - 1
    ensures Exhausts(Initial(c, sourceRetriable), k,
                     match c.on case Always => c.retries case OnConnectFailure => c.retries case _ => 0, retriable)
  {
    var left := match c.on case Always => c.retries case OnConnectFailure => c.retries case _ => 0;
    forall n: nat | n <= left {
      LoopExhausts(Initial(c, sourceRetriable), k, left, n, retriable);
    }
  }

  /** A lost cluster stage that can return starts one attempt at once, and if all fail makes
      max(1, num_retries) attempts in all. */
  lemma LossAttempts(s: State, k: nat, listener: Listener, reported: bool, retriable: bool)
    requires |s.st| == Size(s.cfg) && 0 < k < |s.st| && s.st[k].status == READY && s.named && s.st[k].retriable
    requires s.cfg.on == Always || s.cfg.on == OnDisconnect
    ensures var t := Disconnect(s, k, listener, reported);
      && t.attempts == s.attempts + 1 && t.st[k].status == DISCONNECTED && t.st[k].retriable == reported
      && Exhausts(t, k, if s.cfg.retries > 1 then s.cfg.retries - 1 else 0, retriable)
  {
    var left := if s.cfg.retries > 1 then s.cfg.retries - 1 else 0;
    var t := Disconnect(s, k, listener, reported);
    LossStarts(s, k, listener, reported);
    forall n: nat | n <= left {
      LoopExhausts(t, k, left, n, retriable);
    }
  }

  lemma LossStarts(s: State, k: nat, listener: Listener, reported: bool)
    requires 0 < k < |s.st| && s.st[k].status == READY && s.named && s.st[k].retriable
    requires s.cfg.on == Always || s.cfg.on == OnDisconnect
    ensures var t := Disconnect(s, k, listener, reported);
      && t.named && t.attempts == s.attempts + 1
      && t.st[k] == s.st[k].(status := DISCONNECTED, retriable := reported,
                             loop := Flight(if s.cfg.retries > 1 then s.cfg.retries - 1 else 0))
  {
    var m := MarkLost(Logged(s, LogDisconnect), k);
    assert !NotRetried(m.st[k].status) && m.st[k].retriable && m.named;
  }

  /** The retries are those of `Stage.reconnect`. */
  lemma LossStartsLoop(s: State, k: nat, listener: Listener, retriable: bool)
    requires 0 < k < |s.st| && s.st[k].status == READY && !CannotReturn(s, k, listener)
    ensures var t := Disconnect(s, k, listener, retriable).st[k];
      t.loop == Flight(R.ReconnectRetries(s.cfg.on, s.cfg.retries)) && t.status == DISCONNECTED
  {
    LossStarts(s, k, listener, retriable);
  }

  /** The registry before attempt j is due. */
  function Naming(a: R.Attempt): Event { if a.registered then NameReused else Removed }

  /** The rest of the loop of stage k while attempt j is running: it fails until one succeeds, none
      is left, or the timer finds the name gone. */
  function Played(k: nat, tries: seq<R.Attempt>, j: nat, retriable: bool): seq<Event>
    requires j < |tries|
    decreases |tries| - j
  {
    if R.Success(tries[j]) then [AttemptSucceeded(k)]
    else if j + 1 == |tries| then [AttemptFailed(k)]
    else
      [AttemptFailed(k)] + ([Naming(tries[j + 1])] + ([Timer(k, retriable)] +
      if tries[j + 1].registered then Played(k, tries, j + 1, retriable) else []))
  }

  /** The attempt fails, and the timer of the next one fires. */
  lemma NextAttempt(s: State, k: nat, a: R.Attempt, retriable: bool) returns (t: State)
    requires |s.st| == Size(s.cfg) && 0 < k < |s.st| && s.st[k].loop.Flight? && s.st[k].loop.left > 0
    requires s.named && (LogDestroy in s.log || a.registered)
    ensures |t.st| == Size(t.cfg) && |t.st| == |s.st|
    ensures t.named == a.registered && t.st[k].stream == s.st[k].stream && t.next == s.next && s.log <= t.log
    ensures a.registered ==>
              && t.st[k].loop == Flight(s.st[k].loop.left - 1) && t.st[k].status == RETRYING
              && t.attempts == s.attempts + 1
    ensures !a.registered ==> t.st[k].loop == Idle && t.st[k].status == END && t.attempts == s.attempts
    ensures forall es :: Run(s, [AttemptFailed(k)] + ([Naming(a)] + ([Timer(k, retriable)] + es))) == Run(t, es)
  {
    var s1 := Step(s, AttemptFailed(k));
    var s2 := Step(s1, Naming(a));
    t := Step(s2, Timer(k, retriable));
    assert s2 == s1.(named := a.registered);
    forall es
      ensures Run(s, [AttemptFailed(k)] + ([Naming(a)] + ([Timer(k, retriable)] + es))) == Run(t, es)
    {
      RunFirst(s2, Timer(k, retriable), es);
      RunFirst(s1, Naming(a), [Timer(k, retriable)] + es);
      RunFirst(s, AttemptFailed(k), [Naming(a)] + ([Timer(k, retriable)] + es));
    }
  }

  lemma AttemptWins(s: State, k: nat)
    requires |s.st| == Size(s.cfg) && 0 < k < |s.st| && s.st[k].loop.Flight?
    ensures var t := Run(s, [AttemptSucceeded(k)]);
      t.st[k].loop == Idle && t.st[k].stream == s.next && t.attempts == s.attempts
  {
    RunFirst(s, AttemptSucceeded(k), []);
    assert [AttemptSucceeded(k)] + [] == [AttemptSucceeded(k)];
    SucceedFacts(s, k);
    NewStream(s, k);
  }

  lemma NewStream(s: State, k: nat)
    requires |s.st| == Size(s.cfg) && k < |s.st|
    ensures Succeed(s, k).st[k].stream == s.next
  {
    assert Renew(s, k).st[k].stream == s.next;
  }

  lemma LastFailure(s: State, k: nat)
    requires |s.st| == Size(s.cfg) && 0 < k < |s.st| && s.st[k].loop == Flight(0)
    ensures var t := Run(s, [AttemptFailed(k)]);
      t.st[k] == s.st[k].(loop := Idle, status := END) && t.attempts == s.attempts
  {
    RunFirst(s, AttemptFailed(k), []);
    assert [AttemptFailed(k)] + [] == [AttemptFailed(k)];
  }

  /** In the session's life the loop comes to the outcome, the status and the number of attempts of
      `Stage.connect`: on success the stage has a new stream, else it is END with the one it had. */
  lemma {:induction false} LoopIsConnect(s: State, k: nat, tries: seq<R.Attempt>, j: nat, retriable: bool)
    requires |s.st| == Size(s.cfg) && 0 < k < |s.st| && j < |tries|
    requires s.st[k].loop == Flight(|tries| - 1 - j) && !NotRetried(s.st[k].status) && s.st[k].stream < s.next
    requires s.named && tries[j].registered
    requires LogDestroy in s.log || forall i :: j < i < |tries| ==> tries[i].registered
    ensures var o := R.ConnectFrom(s.st[k].status, |tries| - 1, tries, j);
      var t := Run(s, Played(k, tries, j, retriable));
      && t.st[k].loop == Idle
      && t.attempts == s.attempts + o.made - (if o.outcome == R.Stopped then 2 else 1)
      && t.st[k].stream == (if o.outcome == R.Connected then s.next else s.st[k].stream)
      && (o.outcome != R.Connected ==> t.st[k].status == o.status)
    decreases |tries| - j
  {
    if R.Success(tries[j]) {
      AttemptWins(s, k);
    } else if j + 1 == |tries| {
      LastFailure(s, k);
    } else {
      var next := tries[j + 1];
      var t := NextAttempt(s, k, next, retriable);
      if next.registered {
        LoopIsConnect(t, k, tries, j + 1, retriable);
      }
    }
  }
}
