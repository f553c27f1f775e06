/** The retry loop of a stage: `Stage.connect` and `Stage.reconnect` (session.js) under p-retry,
    which makes attempts 1 to N + 1 and stops at once on an abort. */
module Retry {
  import opened Pipeline

  /** What an attempt meets: whether the session's name is still registered, whether the cluster
      exists, and whether the cluster gives a stream. */
  datatype Attempt = Attempt(registered: bool, cluster: bool, answers: bool)

  datatype Outcome = Connected | Stopped | Exhausted

  /** `calls` counts the calls to the cluster, `made` the attempts. */
  datatype Result = Result(outcome: Outcome, status: StageStatus, calls: nat, made: nat)

  /** Attempts from number k on (the first is 0), with the status left by the one before. */
  function ConnectFrom(st: StageStatus, retries: nat, tries: seq<Attempt>, k: nat): Result
    requires |tries| == retries + 1 && k <= retries
    decreases retries - k
  {
    var a := tries[k];
    if !a.registered then Result(Stopped, END, 0, 1)
    else if NotRetried(st) then Result(Stopped, st, 0, 1)
    else if a.cluster && a.answers then Result(Connected, CONNECTED, 1, 1)
    else
      var call := if a.cluster then 1 else 0;
      if k == retries then Result(Exhausted, END, call, 1)
      else
        var r := ConnectFrom(RETRYING, retries, tries, k + 1);
        r.(calls := call + r.calls, made := 1 + r.made)
  }

  /** The stages that make no attempt and stay as they are: CONNECTED, FINALIZING or END. */
  lemma NotTried(st: StageStatus, retries: nat, tries: seq<Attempt>, k: nat)
    requires |tries| == retries + 1 && k <= retries && tries[k].registered
    ensures ConnectFrom(st, retries, tries, k) == Result(Stopped, st, 0, 1) <==> st in {CONNECTED, FINALIZING, END}
  {
    if st in {INIT, READY, DISCONNECTED, RETRYING} {
      FirstDecides(st, retries, tries, k);
      SomeDecides(tries, k);
    }
  }

  predicate Success(a: Attempt) { a.registered && a.cluster && a.answers }

  /** Attempt j is the first one, from k on, that decides. */
  predicate Decides(tries: seq<Attempt>, k: nat, j: nat) {
    k <= j < |tries| && (Success(tries[j]) || !tries[j].registered) &&
    forall i :: k <= i < j ==> tries[i].registered && !Success(tries[i])
  }

  function ClusterCalls(tries: seq<Attempt>, k: nat, j: nat): nat
    requires k <= j <= |tries|
    decreases j - k
  {
    if k == j then 0 else (if tries[k].cluster then 1 else 0) + ClusterCalls(tries, k + 1, j)
  }

  lemma {:induction false} CallsBounded(tries: seq<Attempt>, k: nat, j: nat)
    requires k <= j <= |tries|
    ensures ClusterCalls(tries, k, j) <= j - k
    decreases j - k
  {
    if k < j {
      CallsBounded(tries, k + 1, j);
    }
  }

  lemma {:induction false} DecidedAt(st: StageStatus, retries: nat, tries: seq<Attempt>, k: nat, j: nat)
    requires |tries| == retries + 1 && k <= retries && !NotRetried(st) && Decides(tries, k, j)
    ensures ConnectFrom(st, retries, tries, k) ==
            if Success(tries[j]) then Result(Connected, CONNECTED, ClusterCalls(tries, k, j) + 1, j - k + 1)
            else Result(Stopped, END, ClusterCalls(tries, k, j), j - k + 1)
    decreases retries - k
  {
    if k < j {
      DecidedAt(RETRYING, retries, tries, k + 1, j);
    }
  }

  lemma {:induction false} NoneDecides(st: StageStatus, retries: nat, tries: seq<Attempt>, k: nat)
    requires |tries| == retries + 1 && k <= retries && !NotRetried(st)
    requires forall i :: k <= i <= retries ==> tries[i].registered && !Success(tries[i])
    ensures ConnectFrom(st, retries, tries, k) ==
            Result(Exhausted, END, ClusterCalls(tries, k, retries + 1), retries + 1 - k)
    decreases retries - k
  {
    if k < retries {
      NoneDecides(RETRYING, retries, tries, k + 1);
    } else {
      assert ClusterCalls(tries, k + 1, k + 1) == 0;
    }
  }

  /** The loop's result is that of the first deciding attempt; without one all retries are used
      up. */
  lemma FirstDecides(st: StageStatus, retries: nat, tries: seq<Attempt>, k: nat)
    requires |tries| == retries + 1 && k <= retries && !NotRetried(st)
    ensures var r := ConnectFrom(st, retries, tries, k);
      && (forall j: nat :: Decides(tries, k, j) && Success(tries[j]) ==>
            r == Result(Connected, CONNECTED, ClusterCalls(tries, k, j) + 1, j - k + 1))
      && (forall j: nat :: Decides(tries, k, j) && !Success(tries[j]) ==>
            r == Result(Stopped, END, ClusterCalls(tries, k, j), j - k + 1))
      && ((forall i :: k <= i <= retries ==> tries[i].registered && !Success(tries[i])) ==>
            r == Result(Exhausted, END, ClusterCalls(tries, k, retries + 1), retries + 1 - k))
  {
    forall j: nat | Decides(tries, k, j) {
      DecidedAt(st, retries, tries, k, j);
    }
    if forall i :: k <= i <= retries ==> tries[i].registered && !Success(tries[i]) {
      NoneDecides(st, retries, tries, k);
    }
  }

  lemma {:induction false} SomeDecides(tries: seq<Attempt>, k: nat)
    requires k <= |tries|
    ensures (exists j: nat :: Decides(tries, k, j)) <==>
            exists i :: k <= i < |tries| && (Success(tries[i]) || !tries[i].registered)
    decreases |tries| - k
  {
    if j: nat :| Decides(tries, k, j) {
      assert Success(tries[j]) || !tries[j].registered;
    }
    if k < |tries| {
      if Success(tries[k]) || !tries[k].registered {
        assert Decides(tries, k, k);
      } else {
        var next := k + 1;
        SomeDecides(tries, next);
        if j: nat :| Decides(tries, next, j) {
          assert Decides(tries, k, j);
        }
      }
    }
  }

  /** Without aborts, a connection with N retries succeeds exactly when one of the first N + 1
      attempts does; it ends CONNECTED or END accordingly and calls the cluster at most N + 1
      times. */
  lemma ConnectSucceedsIff(st: StageStatus, retries: nat, tries: seq<Attempt>)
    requires |tries| == retries + 1 && !NotRetried(st) && forall i :: 0 <= i <= retries ==> tries[i].registered
    ensures var r := ConnectFrom(st, retries, tries, 0);
      && (r.outcome == Connected <==> exists i :: 0 <= i <= retries && Success(tries[i]))
      && (r.outcome == Connected ==> r.status == CONNECTED)
      && (r.outcome != Connected ==> r.outcome == Exhausted && r.status == END && r.made == retries + 1)
      && r.calls <= r.made <= retries + 1
  {
    FirstDecides(st, retries, tries, 0);
    SomeDecides(tries, 0);
    CallsBounded(tries, 0, retries + 1);
    if j: nat :| Decides(tries, 0, j) {
      CallsBounded(tries, 0, j);
    }
  }

  // ------------------------------------------------------------------------------- reconnecting

  /** The number of retries that a reconnection passes on: one less than configured, because
      the reconnection itself is the first retry. */
  function ReconnectRetries(on: RetryOn, numRetries: nat): nat {
    var n := if on == OnDisconnect || on == Always then numRetries else 0;
    if n > 0 then n - 1 else 0
  }

  /** Reconnecting a cluster stage makes at most max(1, num_retries) calls to the cluster. */
  lemma ReconnectCalls(st: StageStatus, on: RetryOn, numRetries: nat, tries: seq<Attempt>)
    requires |tries| == ReconnectRetries(on, numRetries) + 1
    ensures ConnectFrom(st, ReconnectRetries(on, numRetries), tries, 0).calls <=
            if numRetries > 1 then numRetries else 1
  {
    CallsAtMost(st, ReconnectRetries(on, numRetries), tries, 0);
  }

  lemma {:induction false} CallsAtMost(st: StageStatus, retries: nat, tries: seq<Attempt>, k: nat)
    requires |tries| == retries + 1 && k <= retries
    ensures ConnectFrom(st, retries, tries, k).calls <= ConnectFrom(st, retries, tries, k).made <= retries + 1 - k
    decreases retries - k
  {
    if k < retries {
      CallsAtMost(RETRYING, retries, tries, k + 1);
    }
  }

  // --------------------------------------------------------------------------------- the object

  class Stage {
    var status: StageStatus
    var calls: nat

    constructor (st: StageStatus)
      ensures status == st && calls == 0
    {
      status, calls := st, 0;
    }

    /** One attempt; Exhausted stands for a failure that may be retried. */
    method Try(a: Attempt) returns (r: Outcome)
      modifies this
      ensures !a.registered ==> r == Stopped && status == END && calls == old(calls)
      ensures a.registered && NotRetried(old(status)) ==> r == Stopped && status == old(status) && calls == old(calls)
      ensures a.registered && !NotRetried(old(status)) ==>
                && (r == Connected <==> Success(a)) && r != Stopped
                && status == (if Success(a) then CONNECTED else old(status))
                && calls == old(calls) + if a.cluster then 1 else 0
    {
      if !a.registered {
        status := END;
        return Stopped;
      }
      if status == CONNECTED || status == FINALIZING || status == END {
        return Stopped;
      }
      if !a.cluster {
        return Exhausted;
      }
      calls := calls + 1;
      if !a.answers {
        return Exhausted;
      }
      status := CONNECTED;
      r := Connected;
    }

    method Connect(retries: nat, attempts: seq<Attempt>) returns (r: Outcome)
      requires |attempts| == retries + 1
      modifies this
      ensures var s := ConnectFrom(old(status), retries, attempts, 0);
        r == s.outcome && status == s.status && calls == old(calls) + s.calls
    {
      var k := 0;
      while true
        invariant 0 <= k <= retries
        invariant var s, t := ConnectFrom(old(status), retries, attempts, 0), ConnectFrom(status, retries, attempts, k);
          s.outcome == t.outcome && s.status == t.status && old(calls) + s.calls == calls + t.calls
        decreases retries - k
      {
        r := Try(attempts[k]);
        if r != Exhausted {
          return;
        }
        var retriesLeft := retries - k;
        status := if retriesLeft == 0 then END else RETRYING;
        if retriesLeft == 0 {
          return;
        }
        k := k + 1;
      }
    }

    /** A cluster stage; the outcome is Connected when the stage is READY again. */
    method Reconnect(on: RetryOn, numRetries: nat, attempts: seq<Attempt>) returns (r: Outcome)
      requires |attempts| == ReconnectRetries(on, numRetries) + 1
      modifies this
      ensures var s := ConnectFrom(old(status), ReconnectRetries(on, numRetries), attempts, 0);
        && r == s.outcome && calls == old(calls) + s.calls
        && status == if r == Connected then READY else s.status
    {
      var n := if on == OnDisconnect || on == Always then numRetries else 0;
      r := Connect(if n > 0 then n - 1 else 0, attempts);
      if r == Connected {
        status := READY;
      }
    }
  }
}
