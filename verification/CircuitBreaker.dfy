/**
 The tool-level circuit breaker of `ghost-agent-loop`.

 The code keeps a lazy three-state machine: `Open` turns into `HalfOpen` only when somebody
 looks.  It is proved to refine a specification that knows nothing of states: the log of what
 was recorded, from which `Allows` reads off whether a call may be made.
 Instants are nanoseconds of the monotonic clock.
 */
module CircuitBreakers {
  import opened Wrappers

  datatype BreakerState = Closed | Open | HalfOpen

  datatype FailureType = Transient | RateLimit | AuthFailure | ModelRefusal | Fatal {
    predicate ShouldIncrement() {
      Transient? || Fatal?
    }
  }

  /** What a caller told the breaker. */
  datatype CallRecord = Succeeded | Failed(kind: FailureType, at: nat) {
    predicate Trips() {
      Failed? && kind.ShouldIncrement()
    }
  }

  /** The number of tripping failures since the last success. */
  ghost function TrippingSinceSuccess(log: seq<CallRecord>): nat {
    if log == [] then 0
    else
      var before, last := log[..|log| - 1], log[|log| - 1];
      if last.Succeeded? then 0
      else if last.Trips() then TrippingSinceSuccess(before) + 1
      else TrippingSinceSuccess(before)
  }

  /** The instant of the latest tripping failure ever recorded. */
  ghost function LatestTripping(log: seq<CallRecord>): Option<nat> {
    if log == [] then None
    else
      var last := log[|log| - 1];
      if last.Trips() then Some(last.at) else LatestTripping(log[..|log| - 1])
  }

  /** The specification.  A threshold of 0 trips at the first failure, as a threshold of 1 does. */
  ghost predicate Allows(log: seq<CallRecord>, threshold: nat, cooldown: nat, now: nat) {
    || TrippingSinceSuccess(log) < (if threshold == 0 then 1 else threshold)
    || (LatestTripping(log).Some? && now - LatestTripping(log).value >= cooldown)
  }

  class CircuitBreaker {
    var state: BreakerState
    var consecutiveFailures: nat
    const threshold: nat
    const cooldown: nat
    var lastFailure: Option<nat>

    var clock: nat  // the latest reading of the monotonic clock, which never goes back

    ghost var log: seq<CallRecord>

    ghost predicate Valid()
      reads this
    {
      && consecutiveFailures == TrippingSinceSuccess(log)
      && lastFailure == LatestTripping(log)
      && (lastFailure.Some? ==> lastFailure.value <= clock)
      && (consecutiveFailures > 0 ==> lastFailure.Some?)
      && (state.Closed? <==> consecutiveFailures < if threshold == 0 then 1 else threshold)
      && (state.HalfOpen? ==> lastFailure.Some? && clock - lastFailure.value >= cooldown)
    }

    constructor (threshold: nat, cooldown: nat)
      ensures Valid() && log == [] && clock == 0
      ensures this.threshold == threshold && this.cooldown == cooldown
    {
      state, consecutiveFailures, lastFailure := Closed, 0, None;
      this.threshold, this.cooldown := threshold, cooldown;
      log, clock := [], 0;
    }

    /** The state as seen at `now`: the stored one, except that an elapsed `Open` reads `HalfOpen`. */
    function State(now: nat): (s: BreakerState)
      requires Valid() && clock <= now
      reads this
      ensures s.Open? <==> !Allows(log, threshold, cooldown, now)
      ensures s.Closed? <==> consecutiveFailures < if threshold == 0 then 1 else threshold
    {
      if state.Open? && lastFailure.Some? && now - lastFailure.value >= cooldown then HalfOpen
      else state
    }

    method AllowsCall(now: nat) returns (ok: bool)
      requires Valid() && clock <= now
      modifies this
      ensures Valid() && clock == now && log == old(log)
      ensures consecutiveFailures == old(consecutiveFailures) && lastFailure == old(lastFailure)
      ensures ok <==> Allows(log, threshold, cooldown, now)
    {
      match State(now) {
        case Closed => ok := true;
        case Open => ok := false;
        case HalfOpen =>
          state := HalfOpen;
          ok := true;
      }
      clock := now;
    }

    method RecordSuccess()
      requires Valid()
      modifies this
      ensures Valid() && log == old(log) + [Succeeded] && clock == old(clock)
      ensures forall now :: Allows(log, threshold, cooldown, now)
    {
      consecutiveFailures := 0;
      state := Closed;
      log := log + [Succeeded];
    }

    method RecordClassifiedFailure(kind: FailureType, now: nat)
      requires Valid() && clock <= now
      modifies this
      ensures Valid() && log == old(log) + [Failed(kind, now)] && clock == now
    {
      log := log + [Failed(kind, now)];
      clock := now;
      if !kind.ShouldIncrement() {
        return;
      }
      consecutiveFailures := consecutiveFailures + 1;
      lastFailure := Some(now);
      match state
      case Closed =>
        if consecutiveFailures >= threshold {
          state := Open;
        }
      case HalfOpen => state := Open;
      case Open =>
    }
  }

  /**
   Server errors and fatal errors count, and set the time of the latest failure; rate limits, bad keys
   and refusals do neither.
   */
  lemma WhichFailuresCount(log: seq<CallRecord>, at: nat)
    ensures forall kind :: kind in {Transient, Fatal} ==>
              && TrippingSinceSuccess(log + [Failed(kind, at)]) == TrippingSinceSuccess(log) + 1
              && LatestTripping(log + [Failed(kind, at)]) == Some(at)
    ensures forall kind :: kind in {RateLimit, AuthFailure, ModelRefusal} ==>
              && TrippingSinceSuccess(log + [Failed(kind, at)]) == TrippingSinceSuccess(log)
              && LatestTripping(log + [Failed(kind, at)]) == LatestTripping(log)
  {
    forall kind: FailureType
      ensures (log + [Failed(kind, at)])[..|log|] == log
    {
    }
  }

  /**
   A run of failures that reaches the threshold blocks every call strictly inside the cooldown
   of its last tripping failure, and none from then on; failures that do not trip neither
   advance nor delay this.
   */
  lemma {:induction false} FailureRunBlocks(log: seq<CallRecord>, failures: seq<CallRecord>, threshold: nat,
                                            cooldown: nat, now: nat)
    requires forall i :: 0 <= i < |failures| ==> failures[i].Failed?
    requires exists i :: 0 <= i < |failures| && failures[i].Trips()
    ensures LatestTripping(log + failures) == LatestTripping(failures)
    ensures LatestTripping(failures).Some?
    ensures TrippingSinceSuccess(log + failures) == TrippingSinceSuccess(log) + TrippingSinceSuccess(failures)
    ensures TrippingSinceSuccess(failures) >= threshold ==>
              (Allows(log + failures, threshold, cooldown, now) <==>
               now - LatestTripping(failures).value >= cooldown)
  {
    var before, last := failures[..|failures| - 1], failures[|failures| - 1];
    assert (log + failures)[..|log + failures| - 1] == log + before;
    if exists i :: 0 <= i < |before| && before[i].Trips() {
      FailureRunBlocks(log, before, threshold, cooldown, now);
    } else {
      NoTripping(before);
      QuietFailures(log, before);
    }
  }

  lemma {:induction false} NoTripping(log: seq<CallRecord>)
    requires forall i :: 0 <= i < |log| ==> !log[i].Trips()
    ensures TrippingSinceSuccess(log) == 0 && LatestTripping(log).None?
  {
    if log != [] {
      NoTripping(log[..|log| - 1]);
    }
  }

  /** Failures that do not trip (rate limits, bad keys, refusals) leave both observations alone. */
  lemma {:induction false} QuietFailures(log: seq<CallRecord>, quiet: seq<CallRecord>)
    requires forall i :: 0 <= i < |quiet| ==> quiet[i].Failed? && !quiet[i].Trips()
    ensures TrippingSinceSuccess(log + quiet) == TrippingSinceSuccess(log)
    ensures LatestTripping(log + quiet) == LatestTripping(log)
  {
    if quiet == [] {
      assert log + quiet == log;
    } else {
      assert (log + quiet)[..|log + quiet| - 1] == log + quiet[..|quiet| - 1];
      QuietFailures(log, quiet[..|quiet| - 1]);
    }
  }
}
