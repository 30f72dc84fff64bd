/** The runner's connection state and how long it waits before the next try. */
module Reconnect {
  import opened Common

  datatype Phase = Disconnected | Authenticating | Negotiating | Active | BackingOff | Stopped

  datatype Reason = Network | ServerRestart | Unavailable | Authentication | Protocol | Policy

  predicate Final(reason: Reason) {
    reason.Authentication? || reason.Protocol? || reason.Policy?
  }

  datatype State = State(phase: Phase, attempt: nat, activeSince: Option<int>, stable: bool)

  datatype Step = Authenticate | Negotiate | Activate(now: int) | MarkStable(now: int) | Disconnect(reason: Reason) | Retry | Stop

  /** Whether the call is allowed in the state; a call that is not throws and changes nothing. */
  predicate Allowed(s: State, step: Step) {
    match step
    case Authenticate => s.phase.Disconnected? || s.phase.BackingOff?
    case Negotiate => s.phase.Authenticating?
    case Activate(_) => s.phase.Negotiating? || s.phase.Authenticating?
    case MarkStable(now) => s.phase.Active? && s.activeSince.Some? && now - s.activeSince.value >= 30
    case Disconnect(_) => true
    case Retry => s.phase.BackingOff?
    case Stop => true
  }

  function Next(s: State, step: Step): State {
    if !Allowed(s, step) then s
    else match step
      case Authenticate => s.(phase := Authenticating)
      case Negotiate => s.(phase := Negotiating)
      case Activate(now) => s.(phase := Active, activeSince := Some(now), stable := false)
      case MarkStable(_) => s.(attempt := 0, stable := true)
      case Disconnect(reason) =>
        if s.phase.Stopped? then s
        else if Final(reason) then s.(phase := Stopped)
        else State(BackingOff, (if s.stable then 0 else s.attempt) + 1, None, false)
      case Retry => s.(phase := Authenticating)
      case Stop => State(Stopped, s.attempt, None, false)
  }

  function Reached(steps: seq<Step>): State {
    if steps == [] then State(Disconnected, 0, None, false) else Next(Reached(steps[..|steps| - 1]), steps[|steps| - 1])
  }

  function Power2(n: nat): nat {
    if n == 0 then 1 else 2 * Power2(n - 1)
  }

  function Clamp(low: real, value: real, high: real): real
    requires low <= high
  {
    if value < low then low else if value > high then high else value
  }

  /** min(30, 2 ** max(0, attempt - 1)) */
  function Base(attempt: nat): real {
    var power := Power2(if attempt == 0 then 0 else attempt - 1);
    if power < 30 then power as real else 30.0
  }

  function Jittered(base: real, jitter: real): real {
    base * Clamp(0.0, jitter, 1.0)
  }

  /** Seconds to wait before the next try, for a jitter of any value. */
  function Delay(s: State, jitter: real): real
    requires s.phase.BackingOff?
  {
    Clamp(0.1, Jittered(Base(s.attempt), jitter), 30.0)
  }

  // ---- every history

  /** Retryable disconnects since the last connection that was marked stable. */
  function FailuresSinceStable(steps: seq<Step>): nat {
    if steps == [] then 0
    else
      var before, s, step := FailuresSinceStable(steps[..|steps| - 1]), Reached(steps[..|steps| - 1]), steps[|steps| - 1];
      if step.MarkStable? && Allowed(s, step) then 0
      else if step.Disconnect? && !s.phase.Stopped? && !Final(step.reason) then before + 1
      else before
  }

  /** The attempt counter counts exactly those disconnects, and a runner that backs off has had one. */
  lemma {:induction false} AttemptCountsFailures(steps: seq<Step>)
    ensures var s := Reached(steps);
            && s.attempt == FailuresSinceStable(steps) && (s.phase.BackingOff? ==> s.attempt >= 1)
            && (s.stable ==> s.attempt == 0)
  {
    if steps != [] {
      AttemptCountsFailures(steps[..|steps| - 1]);
    }
  }

  lemma {:induction false} StoppedStays(before: seq<Step>, after: seq<Step>)
    requires Reached(before).phase.Stopped?
    ensures Reached(before + after).phase.Stopped?
  {
    if after == [] {
      assert before + after == before;
    } else {
      StoppedStays(before, after[..|after| - 1]);
      assert (before + after)[..|before + after| - 1] == before + after[..|after| - 1];
    }
  }

  /** The call of active() that made the connection active. */
  ghost function ActiveSince(steps: seq<Step>): Option<int> {
    if steps == [] then None
    else
      var before, step := steps[..|steps| - 1], steps[|steps| - 1];
      if step.Activate? && Reached(before).phase in {Negotiating, Authenticating} then Some(step.now) else ActiveSince(before)
  }

  /** A connection is marked stable exactly when it is active and has been for thirty seconds. */
  lemma {:induction false} StableAfterThirtySeconds(steps: seq<Step>, now: int)
    ensures Reached(steps).phase == Active ==> Reached(steps).activeSince == ActiveSince(steps) && ActiveSince(steps).Some?
    ensures Allowed(Reached(steps), MarkStable(now)) <==>
              Reached(steps).phase == Active && ActiveSince(steps).Some? && now >= ActiveSince(steps).value + 30
  {
    if steps != [] {
      StableAfterThirtySeconds(steps[..|steps| - 1], now);
    }
  }

  /** Where a call may lead from a phase. */
  function Leads(phase: Phase): set<Phase> {
    match phase
    case Disconnected => {Authenticating, BackingOff, Stopped}
    case Authenticating => {Negotiating, Active, BackingOff, Stopped}
    case Negotiating => {Active, BackingOff, Stopped}
    case Active => {BackingOff, Stopped}
    case BackingOff => {Authenticating, Stopped}
    case Stopped => {}
  }

  /** The phase that a call is for. */
  function Aim(step: Step): Option<Phase> {
    match step
    case Authenticate => Some(Authenticating)
    case Negotiate => Some(Negotiating)
    case Activate(_) => Some(Active)
    case Retry => Some(Authenticating)
    case Stop => Some(Stopped)
    case Disconnect(reason) => Some(if reason in {Network, ServerRestart, Unavailable} then BackingOff else Stopped)
    case MarkStable(_) => None
  }

  /** The phases from which a call gets there; marking a connection stable never changes the phase, nor does a refused call. */
  lemma {:induction false} CallsGetThereIff(s: State, step: Step)
    ensures var from :=
              match step
              case Authenticate => {Disconnected, BackingOff}
              case Negotiate => {Authenticating}
              case Activate(_) => {Negotiating, Authenticating}
              case Retry => {BackingOff}
              case Stop => {Disconnected, Authenticating, Negotiating, Active, BackingOff, Stopped}
              case Disconnect(_) => {Disconnected, Authenticating, Negotiating, Active, BackingOff}
              case MarkStable(_) => {};
            Next(s, step).phase == if s.phase in from then Aim(step).value else s.phase
  {
  }

  /** A call changes the phase only so, each such change has a call, and a lost connection is retried exactly unless the reason is final. */
  lemma {:induction false} PhasesFollow(s: State, step: Step, to: Phase)
    ensures Next(s, step).phase == s.phase || Next(s, step).phase in Leads(s.phase)
    ensures to in Leads(s.phase) ==> exists call :: Next(s, call).phase == to
    ensures step.Disconnect? && s.phase != Stopped ==>
              Next(s, step).phase == if step.reason in {Network, ServerRestart, Unavailable} then BackingOff else Stopped
  {
    if to in Leads(s.phase) {
      var call := match to case Authenticating => Authenticate case Negotiating => Negotiate case Active => Activate(0)
                           case BackingOff => Disconnect(Network) case _ => Stop;
      assert Next(s, call).phase == to;
    }
  }

  /** With full jitter the wait after the k-th failure in a row is 2^(k-1) seconds, up to thirty; with none it is a tenth of one. */
  lemma {:induction false} DelayDoubles(steps: seq<Step>)
    requires Reached(steps).phase.BackingOff?
    ensures FailuresSinceStable(steps) >= 1
    ensures var power := Power2(FailuresSinceStable(steps) - 1);
            && Delay(Reached(steps), 1.0) == (if power < 30 then power as real else 30.0) && Delay(Reached(steps), 0.0) == 0.1
  {
    hide Reached, FailuresSinceStable, Power2;
    AttemptCountsFailures(steps);
    PowerAtLeastOne(FailuresSinceStable(steps) - 1);
  }

  lemma {:induction false} PowerAtLeastOne(n: nat)
    ensures Power2(n) >= 1
  {
    if n > 0 {
      PowerAtLeastOne(n - 1);
    }
  }

  /** The wait is between a tenth of a second and half a minute, and the k-th failure in a row waits at most 2^(k-1) seconds. */
  lemma {:induction false} DelayIsBounded(steps: seq<Step>, jitter: real)
    requires Reached(steps).phase.BackingOff?
    ensures var delay, failures := Delay(Reached(steps), jitter), FailuresSinceStable(steps);
            failures >= 1 && 0.1 <= delay <= 30.0 && delay <= Power2(failures - 1) as real
  {
    hide Reached, FailuresSinceStable, Power2, Base, Jittered;
    AttemptCountsFailures(steps);
    var failures := FailuresSinceStable(steps);
    BaseBounds(failures);
    JitteredBounds(Base(failures), jitter);
  }

  lemma {:induction false} BaseBounds(failures: nat)
    requires failures >= 1
    ensures 1.0 <= Base(failures) <= 30.0 && Base(failures) <= Power2(failures - 1) as real
  {
    PowerAtLeastOne(failures - 1);
  }

  lemma {:induction false} JitteredBounds(base: real, jitter: real)
    requires base >= 0.0
    ensures 0.0 <= Jittered(base, jitter) <= base
  {
    var j := Clamp(0.0, jitter, 1.0);
    assert base * j <= base * 1.0;
  }

  class RunnerReconnectState {
    var phase: Phase
    var attempt: nat
    var activeSince: Option<int>
    var stable: bool

    function S(): State
      reads this
    {
      State(phase, attempt, activeSince, stable)
    }

    constructor ()
      ensures S() == Reached([])
    {
      phase, attempt, activeSince, stable := Phase.Disconnected, 0, None, false;
    }

    method Active(now: int) returns (ok: bool)
      modifies this
      ensures ok == Allowed(old(S()), Activate(now)) && S() == Next(old(S()), Activate(now))
    {
      if !phase.Negotiating? && !phase.Authenticating? {
        return false;
      }
      phase, activeSince, stable := Phase.Active, Some(now), false;
      return true;
    }

    method Stable(now: int) returns (ok: bool)
      modifies this
      ensures ok == Allowed(old(S()), MarkStable(now)) && S() == Next(old(S()), MarkStable(now))
    {
      if !phase.Active? || activeSince == None || now - activeSince.value < 30 {
        return false;
      }
      attempt, stable := 0, true;
      return true;
    }

    method Lost(reason: Reason)
      modifies this
      ensures S() == Next(old(S()), Disconnect(reason))
    {
      if phase.Stopped? {
        return;
      }
      if Final(reason) {
        phase := Phase.Stopped;
        return;
      }
      if stable {
        attempt := 0;
      }
      attempt, activeSince, stable := attempt + 1, None, false;
      phase := Phase.BackingOff;
    }
  }
}
