/** The command heartbeat loop over any sequence of heartbeat outcomes. */
module CommandHeartbeat {
  import opened Prelude
  import opened ControlFrames

  const COMMAND_HEARTBEAT_INTERVAL: nat := 30
  const COMMAND_HEARTBEAT_RETRY_DELAY: nat := 1
  const COMMAND_HEARTBEAT_FAILURE_LIMIT: nat := 3

  /** How many retryable failures in a row the sequence ends with. */
  function Streak(outcomes: seq<HeartbeatOutcome>): nat {
    if outcomes == [] || outcomes[|outcomes| - 1] != RetryableFailure then 0
    else Streak(outcomes[..|outcomes| - 1]) + 1
  }

  lemma {:induction false} StreakMeaning(outcomes: seq<HeartbeatOutcome>, n: nat)
    ensures Streak(outcomes) >= n <==>
              n <= |outcomes| && forall i :: |outcomes| - n <= i < |outcomes| ==> outcomes[i] == RetryableFailure
  {
    if n > 0 && outcomes != [] {
      var front := outcomes[..|outcomes| - 1];
      StreakMeaning(front, n - 1);
      assert forall i :: 0 <= i < |front| ==> front[i] == outcomes[i];
    }
  }

  /** The outcome at `k` ends the loop: it is fatal, or the third retryable failure in a row. */
  predicate StopsAt(outcomes: seq<HeartbeatOutcome>, k: nat)
    requires k < |outcomes|
  {
    outcomes[k] == FatalFailure
    || (k >= 2 && outcomes[k - 2] == outcomes[k - 1] == outcomes[k] == RetryableFailure)
  }

  datatype LoopExit = StillRunning | FailureLimit | FatalReply

  ghost function Outcomes(trace: seq<HeartbeatIo>): seq<HeartbeatOutcome> {
    seq(|trace|, i requires 0 <= i < |trace| => SendCommandHeartbeat(trace[i]))
  }

  /** Thirty seconds after a success or at the start, one second within a streak of failures. */
  ghost function DelayBefore(outcomes: seq<HeartbeatOutcome>, i: nat): nat
    requires i <= |outcomes|
  {
    if i > 0 && outcomes[i - 1] == RetryableFailure then 1 else 30
  }

  /** The first `used` outcomes did not stop the loop, and the pauses before them were as they should. */
  ghost predicate BeatsAt(outcomes: seq<HeartbeatOutcome>, used: nat, delays: seq<nat>) {
    && |delays| == used <= |outcomes|
    && (forall i :: 0 <= i < used ==> delays[i] == DelayBefore(outcomes, i))
    && (forall k :: 0 <= k < used ==> !StopsAt(outcomes, k))
  }

  lemma BeatNext(outcomes: seq<HeartbeatOutcome>, used: nat, delays: seq<nat>)
    requires used < |outcomes| && BeatsAt(outcomes, used, delays) && !StopsAt(outcomes, used)
    ensures BeatsAt(outcomes, used + 1, delays + [DelayBefore(outcomes, used)])
  {
  }

  /** How the loop ended: at the end of the trace, or at the first outcome that stops it. */
  ghost predicate BeatsEnd(outcomes: seq<HeartbeatOutcome>, exit: LoopExit, used: nat, delays: seq<nat>) {
    if exit == StillRunning then used == |outcomes| && BeatsAt(outcomes, used, delays)
    else
      && 0 < used == |delays| <= |outcomes| && BeatsAt(outcomes, used - 1, delays[..used - 1])
      && delays[used - 1] == DelayBefore(outcomes, used - 1) && StopsAt(outcomes, used - 1)
      && (exit == FatalReply <==> outcomes[used - 1] == FatalFailure)
  }

  /** Runs until the first outcome that stops it, or to the end of the trace; `delays[i]` is the
      pause before the `i`-th heartbeat. */
  method CommandHeartbeatLoop(trace: seq<HeartbeatIo>) returns (exit: LoopExit, used: nat, delays: seq<nat>)
    ensures BeatsEnd(Outcomes(trace), exit, used, delays)
  {
    ghost var outcomes := Outcomes(trace);
    var failureCount := 0;
    var nextDelay := COMMAND_HEARTBEAT_INTERVAL;
    used, delays := 0, [];
    while used < |trace|
      invariant BeatsAt(outcomes, used, delays)
      invariant failureCount == Streak(outcomes[..used]) < COMMAND_HEARTBEAT_FAILURE_LIMIT
      invariant nextDelay == if failureCount == 0 then COMMAND_HEARTBEAT_INTERVAL else COMMAND_HEARTBEAT_RETRY_DELAY
    {
      StreakNext(outcomes, used);
      ghost var before := delays;
      delays := delays + [nextDelay];
      assert delays == before + [DelayBefore(outcomes, used)] && delays[..used] == before;
      var result := SendCommandHeartbeat(trace[used]);
      assert result == outcomes[used];
      used := used + 1;
      match result {
        case Acked =>
          failureCount, nextDelay := 0, COMMAND_HEARTBEAT_INTERVAL;
        case RetryableFailure =>
          failureCount := failureCount + 1;
          if failureCount >= COMMAND_HEARTBEAT_FAILURE_LIMIT {
            return FailureLimit, used, delays;
          }
          nextDelay := COMMAND_HEARTBEAT_RETRY_DELAY;
        case FatalFailure =>
          return FatalReply, used, delays;
      }
      BeatNext(outcomes, used - 1, before);
    }
    exit := StillRunning;
  }

  lemma StreakNext(outcomes: seq<HeartbeatOutcome>, k: nat)
    requires k < |outcomes| && Streak(outcomes[..k]) < COMMAND_HEARTBEAT_FAILURE_LIMIT
    ensures Streak(outcomes[..k + 1]) == if outcomes[k] == RetryableFailure then Streak(outcomes[..k]) + 1 else 0
    ensures StopsAt(outcomes, k) <==>
              outcomes[k] == FatalFailure || Streak(outcomes[..k + 1]) == COMMAND_HEARTBEAT_FAILURE_LIMIT
    ensures Streak(outcomes[..k]) > 0 <==> k > 0 && outcomes[k - 1] == RetryableFailure
  {
    var before := outcomes[..k];
    assert outcomes[..k + 1][..k] == before;
    StreakMeaning(before, 1);
    StreakMeaning(before, 2);
  }
}
