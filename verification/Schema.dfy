/** The rows of the daemon's tables: the event queue, the objectives and the reflections. */
module Schema {
  import opened Common
  import opened RowQuery

  datatype EventStatus = Pending | Processing | WaitingForInput | Done | Failed

  /** An event that its objective still waits for. */
  predicate Live(s: EventStatus) {
    s.Pending? || s.Processing? || s.WaitingForInput?
  }

  /** One row of the event queue. `serial` is the row's insertion number. `autoMax` and
      `autoAllowed` are the constraint values copied into the event when it was dispatched. */
  datatype Event = Event(
    niche: string,
    serial: nat,
    metaObjective: Option<Id>,
    parent: Option<Id>,
    deps: seq<Id>,
    status: EventStatus,
    attempts: nat,
    maxAttempts: nat,
    priority: int,
    availableAt: real,
    createdAt: real,
    startedAt: Option<real>,
    autoCount: int,
    autoMax: Option<int>,
    autoAllowed: Option<bool>,
    lowRisk: bool)

  /** The objective an event is verified against: its metadata's, or else its parent. */
  function ContextOf(e: Event): Option<Id> {
    if e.metaObjective.Some? then e.metaObjective else e.parent
  }

  datatype ObjectiveStatus = Active | Paused | Completed | Archived

  datatype Escalation = NoEscalation | Open | Deferred | Resolved | EscalationPaused

  datatype Remediation = NoRemediation | RemediationActive | RemediationDeferred | Recovering | Recovered

  datatype HoldReason = NoReason | AutoRemediationWindow | EscalationIsOpen | OtherReason

  /** The `policy` object inside an objective's metadata. */
  datatype Policy = Policy(
    failStreak: nat,
    escalation: Escalation,
    escalationEvent: Option<Id>,
    deferredUntil: Option<real>,
    holdUntil: Option<real>,
    holdReason: HoldReason,
    remediation: Remediation,
    passStreak: nat,
    cadenceBefore: Option<real>)

  predicate InRemediation(p: Policy) {
    p.remediation.RemediationActive? || p.remediation.RemediationDeferred? || p.remediation.Recovering?
  }

  /** Operator-supplied settings of an objective. Numbers are kept as stored; the functions
      below give the value the daemon uses. */
  datatype Constraints = Constraints(
    maxFailStreak: Option<int>,
    escalateOnFailStreak: bool,
    pauseOnEscalation: bool,
    escalateOnWaiting: bool,
    autoCloseOnPass: bool,
    reflectionWindow: Option<int>,
    remediationEnabled: bool,
    minFailStreak: Option<int>,
    minReflections: Option<int>,
    passRateMax: Option<real>,
    confDrop: Option<real>,
    retryWindow: Option<real>,
    slowdown: Option<real>,
    minCadence: Option<real>,
    baseCadence: Option<real>,
    recoveryPasses: Option<int>,
    approvalCooldown: Option<real>,
    autotuneEnabled: bool,
    autotuneInterval: Option<real>,
    autoApproveMax: Option<int>,
    autoApproveStatusWaiting: Option<bool>,
    pauseOnDeadlineMiss: bool,
    deadlineAt: Option<real>,
    slaSeconds: Option<real>,
    agingWindow: Option<real>,
    agingMaxBoost: Option<int>,
    deadlineWarning: Option<real>)
  {
    function MaxFailStreak(): int { IntOrDefault(maxFailStreak, 3, 1, 20) }
    function ReflectionWindow(): int { IntOrDefault(reflectionWindow, 5, 2, 20) }
    function MinFailStreak(): int { IntOrDefault(minFailStreak, 2, 1, 20) }
    function MinReflections(): int { IntOrDefault(minReflections, 3, 1, 50) }
    function PassRateMax(): real { FloatOrDefault(passRateMax, 0.7, 0.0, 1.0) }
    function ConfDrop(): real { FloatOrDefault(confDrop, 0.08, 0.0, 1.0) }
    function RetryWindow(): real { FloatOrDefault(retryWindow, 600.0, 60.0, 86400.0) }
    function Slowdown(): real { FloatOrDefault(slowdown, 1.5, 1.0, 8.0) }
    function MinCadence(): real { FloatOrDefault(minCadence, 60.0, 1.0, 86400.0) }
    function BaseCadence(): real { FloatOrDefault(baseCadence, 300.0, 1.0, 86400.0) }
    function RecoveryPasses(): int { IntOrDefault(recoveryPasses, 2, 1, 10) }
    function ApprovalCooldown(): real { FloatOrDefault(approvalCooldown, 180.0, 5.0, 86400.0) }
    function AutotuneInterval(): real { FloatOrDefault(autotuneInterval, 3600.0, 0.0, 86400.0 * 30.0) }
    function AgingWindow(): real { MaxReal(agingWindow.GetOr(300.0), 1.0) }
    function AgingMaxBoost(): int { IntOrDefault(agingMaxBoost, 30, 0, 300) }
    function DeadlineWarning(): real { MaxReal(deadlineWarning.GetOr(600.0), 0.0) }
  }

  datatype Objective = Objective(
    niche: string,
    status: ObjectiveStatus,
    priority: int,
    cadence: real,
    nextRun: real,
    lastEvent: Option<Id>,
    constraints: Constraints,
    policy: Policy,
    createdAt: real,
    tunedAt: Option<real>)

  datatype Reflection = Reflection(objective: Id, passed: bool, confidence: real, createdAt: real)

  datatype Db = Db(
    events: map<Id, Event>,
    objectives: map<Id, Objective>,
    reflections: map<Id, Reflection>)

  const EMPTY_DB: Db := Db(map[], map[], map[])

  /** `id` is a new uuid: nothing stored mentions it. */
  ghost predicate Fresh(db: Db, id: Id) {
    && id !in db.events && id !in db.objectives && id !in db.reflections
    && (forall k <- db.events ::
      && id !in db.events[k].deps
      && db.events[k].metaObjective != Some(id)
      && db.events[k].parent != Some(id))
    && (forall k <- db.objectives :: db.objectives[k].lastEvent != Some(id))
    && (forall k <- db.reflections :: db.reflections[k].objective != id)
  }

  /** How one agent tick ended, as far as the queue and the policy look at it. */
  datatype FinalStatus = Finished | FinalWaitingForInput | FinalNeedsInput

  datatype Tick = Tick(finalStatus: FinalStatus, passed: bool, confidence: real)

  /** What an objective without settings is run with. */
  lemma DefaultSettings(c: Constraints)
    requires c.maxFailStreak.None? && c.reflectionWindow.None? && c.minFailStreak.None? && c.minReflections.None?
    requires c.passRateMax.None? && c.confDrop.None? && c.retryWindow.None? && c.slowdown.None?
    requires c.minCadence.None? && c.baseCadence.None? && c.recoveryPasses.None? && c.approvalCooldown.None?
    requires c.autotuneInterval.None? && c.agingWindow.None? && c.agingMaxBoost.None? && c.deadlineWarning.None?
    ensures c.MaxFailStreak() == 3 && c.ReflectionWindow() == 5 && c.MinFailStreak() == 2 && c.MinReflections() == 3
    ensures c.PassRateMax() == 0.7 && c.ConfDrop() == 0.08 && c.RetryWindow() == 600.0 && c.Slowdown() == 1.5
    ensures c.MinCadence() == 60.0 && c.BaseCadence() == 300.0 && c.RecoveryPasses() == 2
    ensures c.ApprovalCooldown() == 180.0 && c.AutotuneInterval() == 3600.0
    ensures c.AgingWindow() == 300.0 && c.AgingMaxBoost() == 30 && c.DeadlineWarning() == 600.0
  {
  }

  /** A setting within its range is used as it is; none leaves its range. */
  lemma SettingRanges(c: Constraints)
    ensures 1 <= c.MaxFailStreak() <= 20 && 2 <= c.ReflectionWindow() <= 20 && 1 <= c.MinFailStreak() <= 20
    ensures 1 <= c.MinReflections() <= 50 && 0.0 <= c.PassRateMax() <= 1.0 && 0.0 <= c.ConfDrop() <= 1.0
    ensures 60.0 <= c.RetryWindow() <= 86400.0 && 1.0 <= c.Slowdown() <= 8.0 && 1.0 <= c.MinCadence() <= 86400.0
    ensures 1.0 <= c.BaseCadence() <= 86400.0 && 1 <= c.RecoveryPasses() <= 10
    ensures 5.0 <= c.ApprovalCooldown() <= 86400.0 && 0 <= c.AgingMaxBoost() <= 300 && c.AgingWindow() >= 1.0
    ensures c.maxFailStreak.Some? && 1 <= c.maxFailStreak.value <= 20 ==> c.MaxFailStreak() == c.maxFailStreak.value
    ensures c.minFailStreak.Some? && 1 <= c.minFailStreak.value <= 20 ==> c.MinFailStreak() == c.minFailStreak.value
    ensures c.minReflections.Some? && 1 <= c.minReflections.value <= 50 ==>
              c.MinReflections() == c.minReflections.value
    ensures c.recoveryPasses.Some? && 1 <= c.recoveryPasses.value <= 10 ==>
              c.RecoveryPasses() == c.recoveryPasses.value
    ensures c.retryWindow.Some? && 60.0 <= c.retryWindow.value <= 86400.0 ==> c.RetryWindow() == c.retryWindow.value
    ensures c.slowdown.Some? && 1.0 <= c.slowdown.value <= 8.0 ==> c.Slowdown() == c.slowdown.value
    ensures c.approvalCooldown.Some? && 5.0 <= c.approvalCooldown.value <= 86400.0 ==>
              c.ApprovalCooldown() == c.approvalCooldown.value
  {
  }
}
