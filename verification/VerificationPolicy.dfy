/** What one verified run of an objective does to its policy: fail streak, automatic
    remediation, escalation and recovery. */
module VerificationPolicy {
  import opened Common
  import opened RowQuery
  import opened Schema

  // ----- the reflection trend

  datatype Direction = Flat | Up | Down

  datatype Trend = Trend(count: nat, passRate: Option<real>, delta: real, direction: Direction)

  function PassCount(rows: seq<Reflection>): (n: nat)
    ensures n <= |rows|
  {
    if rows == [] then 0
    else PassCount(rows[..|rows| - 1]) + (if rows[|rows| - 1].passed then 1 else 0)
  }

  function TrendOf(rows: seq<Reflection>): Trend {
    if rows == [] then Trend(0, None, 0.0, Flat)
    else
      var delta := rows[0].confidence - rows[|rows| - 1].confidence;
      Trend(
        |rows|,
        Some(PassCount(rows) as real / |rows| as real),
        delta,
        if delta > 0.08 then Up else if delta < -0.08 then Down else Flat)
  }

  method ObjectiveReflectionTrend(rows: seq<Reflection>) returns (t: Trend)
    ensures t == TrendOf(rows)
  {
    if rows == [] {
      return Trend(0, None, 0.0, Flat);
    }
    var passCount := 0;
    var confidences: seq<real> := [];
    for i := 0 to |rows|
      invariant passCount == PassCount(rows[..i])
      invariant |confidences| == i
      invariant forall j :: 0 <= j < i ==> confidences[j] == rows[j].confidence
    {
      assert rows[..i + 1][..i] == rows[..i];
      if rows[i].passed {
        passCount := passCount + 1;
      }
      confidences := confidences + [rows[i].confidence];
    }
    assert rows[..|rows|] == rows;
    var delta := if |confidences| >= 2 then confidences[0] - confidences[|confidences| - 1] else 0.0;
    var direction := Flat;
    if delta > 0.08 {
      direction := Up;
    } else if delta < -0.08 {
      direction := Down;
    }
    t := Trend(|rows|, Some(passCount as real / |rows| as real), delta, direction);
  }

  /** A downward trend takes two reflections. */
  lemma DownNeedsTwo(rows: seq<Reflection>)
    requires TrendOf(rows).direction.Down?
    ensures |rows| >= 2
  {
  }

  // ----- one verification

  datatype EscalationReason = NotEscalated | WaitingEscalation | FailStreakEscalation

  datatype Outcome = Outcome(
    objective: Objective,
    reason: EscalationReason,
    remediated: bool,
    resolved: bool)
  {
    predicate Escalated() { !reason.NotEscalated? }
  }

  function NextFailStreak(p: Policy, passed: bool): nat {
    if passed then 0 else p.failStreak + 1
  }

  function CurrentCadence(o: Objective): (c: real)
    ensures 0.0 <= c <= 86400.0
    ensures 0.0 <= o.cadence <= 86400.0 ==> c == o.cadence
  {
    FloatOrDefault(Some(o.cadence), 0.0, 0.0, 86400.0)
  }

  function DeferredUntil(p: Policy, now: real): real {
    FloatOrDefault(p.deferredUntil, 0.0, 0.0, now + SECONDS_PER_YEAR)
  }

  /** A deferral is running: no escalation may open. */
  predicate WindowActive(p: Policy, now: real) {
    p.escalation.Deferred? && DeferredUntil(p, now) > now
  }

  predicate Waiting(final: FinalStatus) {
    final.FinalWaitingForInput? || final.FinalNeedsInput?
  }

  predicate RemediationDue(o: Objective, passed: bool, trend: Trend) {
    && o.constraints.remediationEnabled
    && !passed
    && NextFailStreak(o.policy, passed) >= o.constraints.MinFailStreak()
    && trend.count >= o.constraints.MinReflections()
    && trend.direction.Down?
    && trend.passRate.Some? && trend.passRate.value <= o.constraints.PassRateMax()
    && trend.delta <= -o.constraints.ConfDrop()
  }

  function SlowedCadence(o: Objective): real {
    var current := CurrentCadence(o);
    var base := if current > 0.0 then current else o.constraints.BaseCadence();
    MaxReal(o.constraints.MinCadence(), base * o.constraints.Slowdown())
  }

  /** Why this verification escalates, if it does. */
  function ReasonToEscalate(o: Objective, passed: bool, final: FinalStatus, trend: Trend, now: real): EscalationReason {
    if RemediationDue(o, passed, trend) || WindowActive(o.policy, now) then NotEscalated
    else if Waiting(final) && o.constraints.escalateOnWaiting then WaitingEscalation
    else if !passed && o.constraints.escalateOnFailStreak
            && NextFailStreak(o.policy, passed) >= o.constraints.MaxFailStreak() then FailStreakEscalation
    else NotEscalated
  }

  function CountedPolicy(p: Policy, passed: bool): Policy {
    p.(failStreak := NextFailStreak(p, passed),
       passStreak :=
         if !InRemediation(p) then p.passStreak
         else if passed then MinInt(p.passStreak, 1000000) + 1
         else 0)
  }

  function RemediatedPolicy(p: Policy, current: real, until: real): Policy {
    p.(remediation := RemediationActive,
       passStreak := 0,
       escalation := Deferred,
       deferredUntil := Some(until),
       holdUntil := Some(until),
       holdReason := AutoRemediationWindow,
       cadenceBefore := Some(current))
  }

  function ReleasedHold(p: Policy): Policy {
    if p.holdReason.AutoRemediationWindow? then p.(holdUntil := None, holdReason := NoReason) else p
  }

  /** A pass that did not escalate: recovery advances, and an open escalation may close. */
  function PassedPolicy(p: Policy, c: Constraints): Policy {
    var q :=
      if !InRemediation(p) then p
      else if MinInt(p.passStreak, 1000000) >= c.RecoveryPasses() then
        ReleasedHold(p).(remediation := Recovered, escalation := Resolved)
      else
        ReleasedHold(p).(remediation := Recovering,
                         escalation := if p.escalation.Deferred? then Resolved else p.escalation);
    if q.escalation.Open? && c.autoCloseOnPass then q.(escalation := Resolved) else q
  }

  /** The policy after the counters and a possible remediation, before escalation. */
  function PreparedPolicy(o: Objective, passed: bool, trend: Trend, now: real): Policy {
    var counted := CountedPolicy(o.policy, passed);
    if RemediationDue(o, passed, trend)
    then RemediatedPolicy(counted, CurrentCadence(o), now + o.constraints.RetryWindow())
    else counted
  }

  predicate Recovers(o: Objective, passed: bool, final: FinalStatus, trend: Trend, now: real) {
    && passed
    && ReasonToEscalate(o, passed, final, trend, now).NotEscalated?
    && InRemediation(o.policy)
    && MinInt(o.policy.passStreak, 1000000) + 1 >= o.constraints.RecoveryPasses()
  }

  /** The whole effect of one verification on its objective's row. */
  function Verify(o: Objective, event: Id, passed: bool, final: FinalStatus, trend: Trend, now: real): Outcome {
    var remediated := RemediationDue(o, passed, trend);
    var reason := ReasonToEscalate(o, passed, final, trend, now);
    var resolved := Recovers(o, passed, final, trend, now);
    var prepared := PreparedPolicy(o, passed, trend, now);
    var policy :=
      if !reason.NotEscalated? then prepared.(escalation := Open, escalationEvent := Some(event))
      else if passed then PassedPolicy(prepared, o.constraints)
      else prepared;
    var cadence :=
      if remediated then SlowedCadence(o)
      else if resolved then FloatOrDefault(o.policy.cadenceBefore, CurrentCadence(o), 0.0, 86400.0)
      else CurrentCadence(o);
    var next := MaxReal(o.nextRun, 0.0);
    var held := if WindowActive(policy, now) then MaxReal(next, DeferredUntil(policy, now)) else next;
    Outcome(
      o.(status :=
           if !reason.NotEscalated? && o.constraints.pauseOnEscalation && o.status.Active? then Paused else o.status,
         cadence := cadence,
         nextRun := if resolved && cadence > 0.0 then MinReal(held, now + cadence) else held,
         policy := policy),
      reason, remediated, resolved)
  }

  /** Cadences are read clamped to a day and written back: even a verification that neither
      remediates nor recovers keeps the cadence only if it is at most a day. */
  lemma VerificationKeepsCadenceExactly(o: Objective, event: Id, passed: bool, final: FinalStatus, trend: Trend,
                                        now: real)
    requires o.cadence >= 0.0
    requires !RemediationDue(o, passed, trend) && !Recovers(o, passed, final, trend, now)
    ensures
      var cadence := Verify(o, event, passed, final, trend, now).objective.cadence;
      && (cadence == o.cadence <==> o.cadence <= 86400.0)
      && (o.cadence > 86400.0 ==> cadence == 86400.0)
  {
  }

  /** Counters, then the remediation block: the policy dictionary edited field by field. */
  method CountAndRemediate(o: Objective, passed: bool, trend: Trend, now: real)
    returns (policy: Policy, cadenceAfter: real, remediated: bool)
    ensures remediated == RemediationDue(o, passed, trend)
    ensures policy == PreparedPolicy(o, passed, trend, now)
    ensures cadenceAfter == if remediated then SlowedCadence(o) else CurrentCadence(o)
  {
    var c := o.constraints;
    policy := o.policy;
    var previousStreak := policy.failStreak;
    var failStreak := if passed then 0 else previousStreak + 1;
    policy := policy.(failStreak := failStreak);
    var current := FloatOrDefault(Some(o.cadence), 0.0, 0.0, 86400.0);
    if InRemediation(policy) {
      policy := policy.(passStreak := if passed then MinInt(policy.passStreak, 1000000) + 1 else 0);
    }
    cadenceAfter := current;
    remediated :=
      && c.remediationEnabled
      && !passed && failStreak > previousStreak && failStreak >= c.MinFailStreak()
      && trend.count >= c.MinReflections()
      && trend.direction.Down?
      && trend.passRate.Some? && trend.passRate.value <= c.PassRateMax()
      && trend.delta <= -c.ConfDrop();
    if remediated {
      var until := now + c.RetryWindow();
      policy := policy.(remediation := RemediationActive, passStreak := 0);
      policy := policy.(escalation := Deferred, deferredUntil := Some(until));
      policy := policy.(holdUntil := Some(until), holdReason := AutoRemediationWindow);
      var base := if current > 0.0 then current else c.BaseCadence();
      cadenceAfter := MaxReal(c.MinCadence(), base * c.Slowdown());
      policy := policy.(cadenceBefore := Some(current));
    }
  }

  /** The recovery block, reached on a pass that did not escalate. */
  method AdvanceRecovery(p: Policy, c: Constraints, current: real)
    returns (policy: Policy, cadenceAfter: real, resolved: bool)
    ensures policy == PassedPolicy(p, c)
    ensures resolved == (InRemediation(p) && MinInt(p.passStreak, 1000000) >= c.RecoveryPasses())
    ensures cadenceAfter == if resolved then FloatOrDefault(p.cadenceBefore, current, 0.0, 86400.0) else current
  {
    policy, cadenceAfter, resolved := p, current, false;
    if InRemediation(policy) {
      if MinInt(policy.passStreak, 1000000) >= c.RecoveryPasses() {
        resolved := true;
        policy := policy.(remediation := Recovered, escalation := Resolved);
        if policy.holdReason.AutoRemediationWindow? {
          policy := policy.(holdUntil := None, holdReason := NoReason);
        }
        cadenceAfter := FloatOrDefault(policy.cadenceBefore, current, 0.0, 86400.0);
      } else {
        policy := policy.(remediation := Recovering);
        if policy.holdReason.AutoRemediationWindow? {
          policy := policy.(holdUntil := None, holdReason := NoReason);
        }
        if policy.escalation.Deferred? {
          policy := policy.(escalation := Resolved);
        }
      }
    }
    if policy.escalation.Open? && c.autoCloseOnPass {
      policy := policy.(escalation := Resolved);
    }
  }

  method ApplyVerificationPolicy(o: Objective, event: Id, passed: bool, final: FinalStatus, trend: Trend, now: real)
    returns (r: Outcome)
    ensures r == Verify(o, event, passed, final, trend, now)
  {
    var c := o.constraints;
    var waiting := Waiting(final);
    var policy, cadenceAfter, remediated := CountAndRemediate(o, passed, trend, now);
    var windowActive := remediated || WindowActive(o.policy, now);
    var reason := NotEscalated;
    var resolved := false;
    var status := o.status;
    if waiting && c.escalateOnWaiting && !windowActive {
      reason := WaitingEscalation;
      policy := policy.(escalation := Open, escalationEvent := Some(event));
      if c.pauseOnEscalation && o.status.Active? {
        status := Paused;
      }
    } else if !passed && c.escalateOnFailStreak && policy.failStreak >= c.MaxFailStreak() && !windowActive {
      reason := FailStreakEscalation;
      policy := policy.(escalation := Open, escalationEvent := Some(event));
      if c.pauseOnEscalation && o.status.Active? {
        status := Paused;
      }
    } else if passed {
      policy, cadenceAfter, resolved := AdvanceRecovery(policy, c, cadenceAfter);
    }
    var until := DeferredUntil(policy, now);
    var nextRun := MaxReal(o.nextRun, 0.0);
    if policy.escalation.Deferred? && until > now {
      nextRun := MaxReal(nextRun, until);
    }
    if resolved && cadenceAfter > 0.0 {
      nextRun := MinReal(nextRun, now + cadenceAfter);
    }
    r := Outcome(o.(status := status, cadence := cadenceAfter, nextRun := nextRun, policy := policy),
                 reason, remediated, resolved);
  }
}
