/** Objective rows: creation, operator updates, and the dispatch decisions of the intake loop. */
module Scheduler {
  import opened Common
  import opened RowQuery
  import opened Schema
  import opened EventQueue

  const DUE_WINDOW: nat := 64

  // ----- operator changes

  datatype Update = Update(
    status: Option<ObjectiveStatus>,
    priority: Option<int>,
    cadence: Option<real>,
    nextRun: Option<real>,
    constraints: Option<Constraints>,
    policy: Option<Policy>)

  const NO_UPDATE: Update := Update(None, None, None, None, None, None)

  function UpdatedPolicy(o: Objective, u: Update): Policy {
    var policy := u.policy.GetOr(o.policy);
    match u.status
    case Some(Active) =>
      var preserveOpen := u.policy.Some? && u.policy.value.escalation.Open?;
      policy.(escalation := if policy.escalation.Open? && !preserveOpen then Resolved else policy.escalation,
              holdUntil := None,
              holdReason := NoReason)
    case Some(Paused) =>
      policy.(escalation := if policy.escalation.NoEscalation? then EscalationPaused else policy.escalation)
    case _ => policy
  }

  function Updated(o: Objective, u: Update, now: real): Objective {
    o.(status := u.status.GetOr(o.status),
       priority := if u.priority.Some? then MaxInt(1, MinInt(u.priority.value, 1000)) else o.priority,
       cadence := u.cadence.GetOr(o.cadence),
       nextRun := if u.nextRun.Some? then u.nextRun.value
                  else if u.status == Some(Active) then now
                  else o.nextRun,
       constraints := u.constraints.GetOr(o.constraints),
       policy := UpdatedPolicy(o, u))
  }

  /** A negative cadence is refused. */
  predicate UpdateAccepted(u: Update) {
    u.cadence.Some? ==> u.cadence.value >= 0.0
  }

  function CreatedObjective(niche: string, priority: int, cadence: real, nextRun: Option<real>,
                            constraints: Constraints, policy: Policy, now: real): Objective {
    Objective(niche, Active, MaxInt(1, MinInt(priority, 1000)), cadence, nextRun.GetOr(now), None,
              constraints, policy, now, None)
  }

  // ----- priority and deadline

  function Deadline(o: Objective): Option<real> {
    if o.constraints.deadlineAt.Some? && o.constraints.deadlineAt.value > 0.0 then o.constraints.deadlineAt
    else if o.constraints.slaSeconds.Some? && o.constraints.slaSeconds.value >= 0.0
    then Some(o.createdAt + o.constraints.slaSeconds.value)
    else None
  }

  /** A positive deadline counts as it is; else a service time counts from the creation. */
  lemma DeadlineExactly(o: Objective, d: real)
    ensures
      var c := o.constraints;
      Deadline(o) == Some(d) <==>
        if c.deadlineAt.GetOr(0.0) > 0.0 then d == c.deadlineAt.value
        else c.slaSeconds.Some? && c.slaSeconds.value >= 0.0 && d == o.createdAt + c.slaSeconds.value
  {
  }

  predicate DeadlineMissed(o: Objective, now: real) {
    Deadline(o).Some? && now >= Deadline(o).value
  }

  function AgingBoost(o: Objective, now: real): (b: int)
    ensures 0 <= b <= 300
  {
    var overdue := MaxReal(0.0, now - o.nextRun);
    if overdue > 0.0 && o.constraints.AgingMaxBoost() > 0 then
      assert overdue / o.constraints.AgingWindow() >= 0.0;
      MinInt(o.constraints.AgingMaxBoost(), (overdue / o.constraints.AgingWindow()).Floor)
    else 0
  }

  function EffectivePriority(o: Objective, now: real): (p: int)
    ensures 1 <= p <= 1000
  {
    var base := MaxInt(1, MinInt(o.priority, 1000));
    var aged := MaxInt(1, base - AgingBoost(o, now));
    if DeadlineMissed(o, now) then 1
    else if Deadline(o).Some? && o.constraints.DeadlineWarning() > 0.0
            && Deadline(o).value - now <= o.constraints.DeadlineWarning()
    then MaxInt(1, aged - 15)
    else aged
  }

  lemma QuotientMonotone(a: real, b: real, w: real)
    requires a <= b && w > 0.0
    ensures a / w <= b / w
  {
    assert b / w - a / w == (b - a) / w;
  }

  lemma AgingGrows(o: Objective, t: real, now: real)
    requires t <= now
    ensures AgingBoost(o, t) <= AgingBoost(o, now)
  {
    QuotientMonotone(MaxReal(0.0, t - o.nextRun), MaxReal(0.0, now - o.nextRun), o.constraints.AgingWindow());
  }

  /** While nobody serves it, an objective only becomes more urgent. */
  lemma UrgencyOnlyGrows(o: Objective, t: real, now: real)
    requires t <= now
    ensures EffectivePriority(o, now) <= EffectivePriority(o, t)
  {
    AgingGrows(o, t, now);
  }

  /** The objective is overdue by `k` full aging windows, or not due yet. */
  predicate OverdueBy(o: Objective, now: real, k: nat) {
    var w, overdue := o.constraints.AgingWindow(), now - o.nextRun;
    if overdue < 0.0 then k == 0 else k as real * w <= overdue < (k + 1) as real * w
  }

  /** One step of priority for every full aging window overdue, up to the maximum; the last stretch
      before the deadline is worth 15 more, and a missed deadline comes first. */
  lemma UrgencyExactly(o: Objective, now: real, k: nat)
    requires OverdueBy(o, now, k)
    ensures
      var base := MaxInt(1, MinInt(o.priority, 1000));
      var aged := MaxInt(1, base - MinInt(k, o.constraints.AgingMaxBoost()));
      var near := Deadline(o).Some? && o.constraints.DeadlineWarning() > 0.0
        && Deadline(o).value - now <= o.constraints.DeadlineWarning();
      EffectivePriority(o, now) ==
        if Deadline(o).Some? && Deadline(o).value <= now then 1
        else if near then MaxInt(1, aged - 15) else aged
  {
    if now >= o.nextRun {
      FloorOfQuotient(now - o.nextRun, o.constraints.AgingWindow(), k);
    }
  }

  lemma FloorOfQuotient(a: real, w: real, k: nat)
    requires w > 0.0 && k as real * w <= a < (k + 1) as real * w
    ensures a >= 0.0 && (a / w).Floor == k
  {
    QuotientBetween(a, w, k as real, (k + 1) as real);
    TimesOrders(0.0, k as real, w);
    var q := a / w;
    assert k as real <= q < k as real + 1.0;
  }

  lemma QuotientBetween(a: real, w: real, low: real, high: real)
    requires w > 0.0 && low * w <= a < high * w
    ensures low <= a / w < high
  {
    var q := a / w;
    assert q * w == a;
    if q < low {
      TimesOrders(q, low, w);
    } else if q >= high {
      TimesOrders(high, q, w);
    }
  }

  lemma TimesOrders(a: real, b: real, w: real)
    requires a <= b && w > 0.0
    ensures a * w <= b * w
    ensures a < b ==> a * w < b * w
  {
    if a < b {
      assert (b - a) * w > 0.0;
      assert b * w - a * w == (b - a) * w;
    }
  }

  // ----- the intake of one due objective

  datatype Intake = InFlight | HeldDeferred | HeldOpen | CompletedOneShot | PausedOnDeadline | Dispatched

  function LastStatus(db: Db, o: Objective): Option<EventStatus> {
    if o.lastEvent.Some? && o.lastEvent.value in db.events
    then Some(db.events[o.lastEvent.value].status) else None
  }

  predicate AutotuneDue(o: Objective, now: real) {
    && o.constraints.autotuneEnabled
    && (o.constraints.AutotuneInterval() <= 0.0
        || now - FloatOrDefault(o.tunedAt, 0.0, 0.0, now + SECONDS_PER_YEAR) >= o.constraints.AutotuneInterval())
  }

  /** The row the rest of the intake works on. `tuned` is the autotuner's answer: the constraints
      it leaves, or none when it did not run through. */
  function TunedRow(o: Objective, tuned: Option<Constraints>, now: real): Objective {
    if AutotuneDue(o, now) && tuned.Some? then o.(constraints := tuned.value, tunedAt := Some(now)) else o
  }

  function Hold(p: Policy, now: real): real {
    FloatOrDefault(p.holdUntil, 0.0, 0.0, now + SECONDS_PER_YEAR)
  }

  /** What the intake decides, from the row it read and the status of the last event. */
  function Decide(row: Objective, last: Option<EventStatus>, now: real): Intake {
    if last.Some? && Live(last.value) then InFlight
    else if row.policy.escalation.Deferred? && Hold(row.policy, now) > now then HeldDeferred
    else if row.policy.escalation.Open? then HeldOpen
    else if row.cadence <= 0.0 && (last == Some(Done) || last == Some(Failed)) then CompletedOneShot
    else if DeadlineMissed(row, now) && row.constraints.pauseOnDeadlineMiss then PausedOnDeadline
    else Dispatched
  }

  /** The elapsed deferral as the intake clears it. */
  function Elapsed(p: Policy): Policy {
    if p.escalation.Deferred? then p.(escalation := Resolved, holdUntil := None, holdReason := NoReason) else p
  }

  function NextDue(cadence: real, now: real): real {
    if cadence > 0.0 then now + cadence else now
  }

  /** The objective's row after a dispatch. The policy written back is the one the intake read,
      so a deferral it had just cleared is restored without its hold. */
  function DispatchedRow(row: Objective, event: Id, now: real): Objective {
    row.(lastEvent := Some(event),
         nextRun := NextDue(row.cadence, now),
         policy := row.policy.(holdUntil := None, holdReason := NoReason))
  }

  function IntakeRow(row: Objective, d: Intake, event: Id, now: real): Objective {
    match d
    case InFlight => row
    case HeldDeferred =>
      var due := MaxReal(row.nextRun, Hold(row.policy, now));
      row.(nextRun := due,
           policy := row.policy.(
             holdUntil := Some(due),
             holdReason := if row.policy.holdReason.NoReason? then AutoRemediationWindow else row.policy.holdReason))
    case HeldOpen =>
      var due := MaxReal(row.nextRun, now + row.constraints.ApprovalCooldown());
      row.(nextRun := due, policy := row.policy.(holdUntil := Some(due), holdReason := EscalationIsOpen))
    case CompletedOneShot => row.(status := Completed, policy := Elapsed(row.policy))
    case PausedOnDeadline => row.(status := Paused)
    case Dispatched => DispatchedRow(row, event, now)
  }

  /** The request the daemon enqueues for an objective. */
  function DispatchRequest(row: Objective, id: Id, niche: string, lowRisk: bool, now: real): Request {
    Request(niche, Some(id), Some(id), [], Some(EffectivePriority(row, now)), 100, 3, 0,
            row.constraints.autoApproveMax, row.constraints.autoApproveStatusWaiting, lowRisk)
  }

  /** One due objective taken by the intake: the new uuid, the autotuner's answer, and whether the
      dispatched text counts as low risk. */
  datatype Job = Job(objective: Id, event: Id, tuned: Option<Constraints>, lowRisk: bool)

  predicate Due(o: Objective, niche: string, now: real) {
    o.niche == niche && o.status.Active? && o.nextRun <= now
  }

  /** The row a job works on and the decision it reaches. */
  function JobRow(db: Db, job: Job, now: real): Objective
    requires job.objective in db.objectives
  {
    var o := db.objectives[job.objective];
    if LastStatus(db, o).Some? && Live(LastStatus(db, o).value) then o else TunedRow(o, job.tuned, now)
  }

  function JobDecision(db: Db, job: Job, now: real): Intake
    requires job.objective in db.objectives
  {
    Decide(JobRow(db, job, now), LastStatus(db, db.objectives[job.objective]), now)
  }

  function AfterIntake(db: Db, job: Job, niche: string, now: real): Db
    requires job.objective in db.objectives
  {
    var row := JobRow(db, job, now);
    var d := JobDecision(db, job, now);
    var queued :=
      if d.Dispatched?
      then AfterEnqueue(db, job.event, DispatchRequest(row, job.objective, niche, job.lowRisk, now), now)
      else db;
    queued.(objectives := db.objectives[job.objective := IntakeRow(row, d, job.event, now)])
  }

  /** An intake takes a deferral off the row exactly when it completes a one-shot. It also clears an
      elapsed one before it dispatches or pauses, but then writes the policy it had read over that. */
  lemma DeferralClearedExactly(db: Db, job: Job, niche: string, now: real)
    requires job.objective in db.objectives && db.objectives[job.objective].policy.escalation.Deferred?
    ensures
      var row, last := db.objectives[job.objective], LastStatus(db, db.objectives[job.objective]);
      var after := AfterIntake(db, job, niche, now).objectives[job.objective];
      && (!after.policy.escalation.Deferred? <==>
            (last == Some(Done) || last == Some(Failed)) && Hold(row.policy, now) <= now && row.cadence <= 0.0)
      && (!after.policy.escalation.Deferred? <==> JobDecision(db, job, now).CompletedOneShot?)
  {
  }

  // ----- operator dispatch

  predicate Dispatchable(o: Objective, niche: string, resume: bool) {
    o.niche == niche && (o.status.Active? || (resume && o.status.Paused?))
  }

  /** The row the manual dispatch reads: a paused objective is resumed first. */
  function ResumedRow(o: Objective, resume: bool, now: real): Objective {
    if resume && o.status.Paused? then Updated(o, NO_UPDATE.(status := Some(Active)), now) else o
  }

  /** Dispatch on request: no in-flight, hold or escalation check. A paused objective is resumed
      even when its niche then turns out to be another one. */
  function AfterManualDispatch(db: Db, o: Id, event: Id, niche: string, resume: bool, lowRisk: bool, now: real): Db
    requires o in db.objectives
  {
    var row := ResumedRow(db.objectives[o], resume, now);
    if row.niche != niche || !row.status.Active?
    then db.(objectives := db.objectives[o := row])
    else
      AfterEnqueue(db, event, DispatchRequest(row, o, niche, lowRisk, now), now).(
        objectives := db.objectives[o := DispatchedRow(row, event, now)])
  }
}
