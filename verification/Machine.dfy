/** The daemon, its crashes and its operators as one state machine over the database. */
module Machine {
  import opened Common
  import opened RowQuery
  import opened Schema
  import opened VerificationPolicy
  import opened EventQueue
  import opened Scheduler

  /** `claimed` is the event the single daemon is working on; the clock never goes back. */
  datatype World = World(db: Db, claimed: Option<Id>, clock: real)

  datatype Action =
    | Enqueue(event: Id, request: Request)
    | Ingest(niche: string, job: Job)
    | Claim(niche: string, rows: seq<Id>)
    | Complete(event: Id, tick: Tick, recent: seq<Id>, trend: seq<Reflection>)
    | Fail(event: Id, failure: FailureClass, retryable: bool)
    | Crash
    | Requeue(niche: string, staleAfter: real)
    | Resolve(event: Id, approved: bool)
    | Create(objective: Id, niche: string, priority: int, cadence: real, nextRun: Option<real>,
             constraints: Constraints, policy: Policy)
    | Change(objective: Id, update: Update)
    | DispatchNow(objective: Id, niche: string, event: Id, resume: bool, lowRisk: bool)

  datatype Step = Step(before: World, act: Action, now: real, after: World)

  /** Calls the daemon loop makes one after the other happen only when their guard here holds;
      operators may act at any time, and may have the intake run by hand. New uuids are fresh. */
  ghost predicate Enabled(w: World, a: Action, now: real) {
    match a
    case Enqueue(id, q) => Fresh(w.db, id) && id !in q.deps && q.metaObjective != Some(id) && q.parent != Some(id)
    case Ingest(niche, job) =>
      && job.objective in w.db.objectives
      && Due(w.db.objectives[job.objective], niche, now)
      && Fresh(w.db, job.event) && job.event != job.objective
    case Claim(niche, rows) => w.claimed.None? && FirstRows(ClaimKeys(w.db, niche, now), CLAIM_WINDOW, rows)
    case Complete(id, tick, ids, rows) =>
      w.claimed == Some(id) && id in w.db.events && TrendAnswer(w.db, id, ids, rows)
    case Fail(id, c, retryable) => w.claimed == Some(id) && id in w.db.events
    case Crash => true
    case Requeue(niche, staleAfter) => w.claimed.None?
    case Resolve(id, approved) => true
    case Create(o, niche, priority, cadence, nextRun, constraints, policy) => Fresh(w.db, o) && cadence >= 0.0
    case Change(o, u) => o in w.db.objectives && UpdateAccepted(u)
    case DispatchNow(o, niche, id, resume, lowRisk) => o in w.db.objectives && Fresh(w.db, id)
  }

  ghost function PickOf(db: Db, niche: string, rows: seq<Id>): Option<Id>
    requires forall id <- rows :: id in db.events
  {
    FirstReady(db, niche, rows)
  }

  ghost function AppliedDb(w: World, a: Action, now: real): Db
    requires Enabled(w, a, now)
  {
    match a
    case Enqueue(id, q) => AfterEnqueue(w.db, id, q, now)
    case Ingest(niche, job) => AfterIntake(w.db, job, niche, now)
    case Claim(niche, rows) => AfterClaim(w.db, PickOf(w.db, niche, rows), now)
    case Complete(id, tick, ids, rows) => AfterComplete(w.db, id, tick, rows, now)
    case Fail(id, c, retryable) => AfterFail(w.db, id, c, retryable, now)
    case Crash => w.db
    case Requeue(niche, staleAfter) => AfterRequeue(w.db, niche, staleAfter, now)
    case Resolve(id, approved) => AfterResolve(w.db, id, approved, now)
    case Create(o, niche, priority, cadence, nextRun, constraints, policy) =>
      w.db.(objectives := w.db.objectives[
        o := CreatedObjective(niche, priority, cadence, nextRun, constraints, policy, now)])
    case Change(o, u) => w.db.(objectives := w.db.objectives[o := Updated(w.db.objectives[o], u, now)])
    case DispatchNow(o, niche, id, resume, lowRisk) => AfterManualDispatch(w.db, o, id, niche, resume, lowRisk, now)
  }

  ghost function AppliedClaim(w: World, a: Action, now: real): Option<Id>
    requires Enabled(w, a, now)
  {
    match a
    case Claim(niche, rows) => PickOf(w.db, niche, rows)
    case Complete(_, _, _, _) => None
    case Fail(_, _, _) => None
    case Crash => None
    case _ => w.claimed
  }

  ghost predicate Next(s: Step) {
    && s.now >= s.before.clock
    && Enabled(s.before, s.act, s.now)
    && s.after == World(AppliedDb(s.before, s.act, s.now), AppliedClaim(s.before, s.act, s.now), s.now)
  }

  type Run = seq<Step>

  ghost predicate IsRun(r: Run) {
    && (forall s <- r :: Next(s))
    && (forall i :: 0 <= i < |r| - 1 ==> r[i].after == r[i + 1].before)
  }

  /** A daemon started on an empty database. */
  ghost predicate Init(w: World) {
    w.db == EMPTY_DB && w.claimed.None? && w.clock >= 0.0
  }

  /** The prefix of a run is a run, and its last step follows it. */
  lemma RunPrefix(r: Run)
    requires IsRun(r) && r != []
    ensures IsRun(r[..|r| - 1])
    ensures Next(r[|r| - 1])
    ensures |r| > 1 ==> r[|r| - 1].before == r[|r| - 2].after && r[..|r| - 1][0] == r[0]
  {
    var p := r[..|r| - 1];
    assert r[|r| - 1] in r;
    forall s | s in p ensures Next(s) {
      assert s in r;
    }
    forall i | 0 <= i < |p| - 1 ensures p[i].after == p[i + 1].before {
      assert r[i].after == r[i + 1].before;
    }
  }

  /** Events of one objective. */
  predicate Belongs(db: Db, id: Id, o: Id) {
    id in db.events && ContextOf(db.events[id]) == Some(o)
  }

  /** The step dispatches an event for the objective from the intake loop. */
  ghost predicate IngestDispatches(s: Step, o: Id) {
    s.act.Ingest? && s.act.job.objective == o && s.after.db.events.Keys != s.before.db.events.Keys
  }

  /** The step completes an event of the objective, so that it is verified. */
  ghost predicate Verifies(s: Step, o: Id) {
    && s.act.Complete?
    && Belongs(s.before.db, s.act.event, o)
    && o in s.before.db.objectives
  }

  ghost function VerifyOutcome(s: Step, o: Id): Outcome
    requires Verifies(s, o)
  {
    OutcomeOf(s.before.db.objectives[o], s.act.event, s.act.tick, s.act.trend, s.now)
  }

  /** The step applies an automatic remediation to the objective. */
  ghost predicate Remediates(s: Step, o: Id) {
    Verifies(s, o) && VerifyOutcome(s, o).remediated
  }

  /** An operator acts on the objective or on one of its events, or someone enqueues an event in
      its name. */
  ghost predicate OperatorStep(s: Step, o: Id) {
    match s.act
    case Enqueue(id, q) => q.Context() == Some(o)
    case Resolve(id, _) => Belongs(s.before.db, id, o)
    case Create(x, _, _, _, _, _, _) => x == o
    case Change(x, _) => x == o
    case DispatchNow(x, _, _, _, _) => x == o
    case _ => false
  }
}
