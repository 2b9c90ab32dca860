/** Two dispatches of a recurring objective are a cadence apart. */
module DispatchSpacing {
  import opened Common
  import opened RowQuery
  import opened Schema
  import opened EventQueue
  import opened Scheduler
  import opened Machine

  /** What brings the next run forward: an operator who sets it, resumes or dispatches the objective, and
      a recovery, which makes it due after the restored cadence. */
  ghost predicate Hastens(s: Step, o: Id) {
    match s.act
    case Change(x, u) => x == o && (u.nextRun.Some? || u.status == Some(Active))
    case DispatchNow(x, _, _, _, _) => x == o
    case Complete(_, _, _, _) => Verifies(s, o) && VerifyOutcome(s, o).resolved
    case _ => false
  }

  ghost predicate NotDueBefore(db: Db, o: Id, t: real) {
    o in db.objectives && db.objectives[o].nextRun >= t
  }

  lemma IntakeDelays(db: Db, job: Job, niche: string, now: real, o: Id, t: real)
    requires NotDueBefore(db, o, t) && now < t && job.objective in db.objectives
    requires Due(db.objectives[job.objective], niche, now)
    ensures NotDueBefore(AfterIntake(db, job, niche, now), o, t)
  {
  }

  lemma CompleteDelays(db: Db, id: Id, tick: Tick, rows: seq<Reflection>, now: real, o: Id, t: real)
    requires NotDueBefore(db, o, t) && id in db.events
    requires Belongs(db, id, o) ==> !OutcomeOf(db.objectives[o], id, tick, rows, now).resolved
    ensures NotDueBefore(AfterComplete(db, id, tick, rows, now), o, t)
  {
  }

  lemma DelayStep(s: Step, o: Id, t: real)
    requires Next(s) && NotDueBefore(s.before.db, o, t) && !Hastens(s, o) && s.now < t
    ensures NotDueBefore(s.after.db, o, t)
  {
    match s.act
    case Ingest(niche, job) => IntakeDelays(s.before.db, job, niche, s.now, o, t);
    case Complete(id, tick, ids, rows) => CompleteDelays(s.before.db, id, tick, rows, s.now, o, t);
    case _ =>
  }

  lemma IntakeWithoutEvent(db: Db, job: Job, niche: string, now: real)
    requires job.objective in db.objectives
    ensures !JobDecision(db, job, now).Dispatched? ==> AfterIntake(db, job, niche, now).events == db.events
    ensures JobRow(db, job, now).cadence == db.objectives[job.objective].cadence
  {
  }

  lemma DispatchSets(s: Step, o: Id)
    requires Next(s) && IngestDispatches(s, o)
    ensures o in s.before.db.objectives
    ensures s.before.db.objectives[o].cadence > 0.0 ==>
      NotDueBefore(s.after.db, o, s.now + s.before.db.objectives[o].cadence)
  {
    IntakeWithoutEvent(s.before.db, s.act.job, s.act.niche, s.now);
  }

  lemma {:induction false} DelayAlong(r: Run, o: Id, i: nat, k: nat, t: real)
    requires IsRun(r) && i <= k < |r| && NotDueBefore(r[i].after.db, o, t)
    requires forall m :: i < m <= k ==> !Hastens(r[m], o)
    requires r[k].now < t
    ensures NotDueBefore(r[k].after.db, o, t)
  {
    if i < k {
      assert r[k - 1].after == r[k].before && r[k] in r && r[k - 1] in r;
      DelayAlong(r, o, i, k - 1, t);
      DelayStep(r[k], o, t);
    }
  }

  lemma ClockForward(r: Run, k: nat)
    requires IsRun(r) && 0 < k < |r|
    ensures r[k - 1].after == r[k].before && r[k - 1].now <= r[k].now && Next(r[k])
  {
    assert r[k - 1] in r && r[k] in r;
  }

  lemma DispatchedWhenDue(s: Step, o: Id, t: real)
    requires Next(s) && IngestDispatches(s, o)
    ensures NotDueBefore(s.before.db, o, t) ==> s.now >= t
  {
  }

  lemma DispatchedLater(r: Run, o: Id, i: nat, j: nat, t: real)
    requires IsRun(r) && i < j < |r| && NotDueBefore(r[i].after.db, o, t) && IngestDispatches(r[j], o)
    requires forall m :: i < m < j ==> !Hastens(r[m], o)
    ensures r[j].now >= t
  {
    ClockForward(r, j);
    DispatchedWhenDue(r[j], o, t);
    if r[j].now < t {
      DelayAlong(r, o, i, j - 1, t);
    }
  }

  /** With nothing in between that brings its next run forward, two intake dispatches of a recurring
      objective are at least the cadence apart that it had at the first. */
  lemma DispatchesApart(r: Run, o: Id, i: nat, j: nat)
    requires IsRun(r) && i < j < |r|
    requires IngestDispatches(r[i], o) && IngestDispatches(r[j], o)
    requires forall m :: i < m < j ==> !Hastens(r[m], o)
    ensures o in r[i].before.db.objectives
    ensures r[i].before.db.objectives[o].cadence > 0.0 ==>
      r[j].now >= r[i].now + r[i].before.db.objectives[o].cadence
  {
    assert r[i] in r;
    DispatchSets(r[i], o);
    if r[i].before.db.objectives[o].cadence > 0.0 {
      DispatchedLater(r, o, i, j, r[i].now + r[i].before.db.objectives[o].cadence);
    }
  }
}
