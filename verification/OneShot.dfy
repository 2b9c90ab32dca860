/** A one-shot objective is dispatched by the intake at most once. */
module OneShot {
  import opened Common
  import opened RowQuery
  import opened Schema
  import opened VerificationPolicy
  import opened EventQueue
  import opened Scheduler
  import opened Machine

  /** A recovery would give the objective no cadence: it is under no remediation, or under one that
      remembers none. */
  predicate RemembersNone(p: Policy) {
    InRemediation(p) ==> p.cadenceBefore.GetOr(0.0) <= 0.0
  }

  /** A one-shot objective and everything stored in its name: one event and one reflection at most,
      so that no trend can form and no remediation can give it a cadence. */
  ghost predicate OneShotState(db: Db, o: Id) {
    && o in db.objectives
    && db.objectives[o].cadence == 0.0
    && RemembersNone(db.objectives[o].policy)
    && (forall id <- db.events :: Belongs(db, id, o) ==> db.objectives[o].lastEvent == Some(id))
    && (db.objectives[o].lastEvent.Some? ==> db.objectives[o].lastEvent.value in db.events)
    && (forall id <- db.reflections ::
          db.reflections[id].objective == o ==> db.objectives[o].lastEvent == Some(id))
  }

  lemma ShortTrend(db: Db, o: Id, ids: seq<Id>, limit: nat)
    requires OneShotState(db, o) && FirstRows(TrendKeys(db, o), limit, ids)
    ensures |ids| <= 1
  {
    forall i | 0 <= i < |ids| ensures db.objectives[o].lastEvent == Some(ids[i]) {
      assert ids[i] in ids;
    }
    if ids != [] {
      assert ids[|ids| - 1] == ids[0];
    }
  }

  lemma VerifyKeepsOneShot(db: Db, id: Id, tick: Tick, ids: seq<Id>, rows: seq<Reflection>, now: real, o: Id)
    requires OneShotState(db, o) && Belongs(db, id, o) && TrendAnswer(db, id, ids, rows)
    ensures !OutcomeOf(db.objectives[o], id, tick, rows, now).remediated
    ensures RemembersNone(OutcomeOf(db.objectives[o], id, tick, rows, now).objective.policy)
    ensures OutcomeOf(db.objectives[o], id, tick, rows, now).objective.cadence == 0.0
  {
    ShortTrend(db, o, ids, db.objectives[o].constraints.ReflectionWindow());
    if TrendOf(rows).direction.Down? {
      DownNeedsTwo(rows);
    }
  }

  lemma CompleteKeepsOneShot(db: Db, id: Id, tick: Tick, ids: seq<Id>, rows: seq<Reflection>, now: real, o: Id)
    requires OneShotState(db, o) && id in db.events && TrendAnswer(db, id, ids, rows)
    ensures OneShotState(AfterComplete(db, id, tick, rows, now), o)
  {
    if Belongs(db, id, o) {
      VerifyKeepsOneShot(db, id, tick, ids, rows, now, o);
      CompletedOneShot(db, id, tick, rows, now, o);
    }
    CompleteFrame(db, id, tick, rows, now, o);
  }

  /** The completed objective is the verified one, up to an automatic approval. */
  lemma CompletedOneShot(db: Db, id: Id, tick: Tick, rows: seq<Reflection>, now: real, o: Id)
    requires o in db.objectives && id in db.events
    ensures
      var verified := OutcomeOf(db.objectives[o], id, tick, rows, now).objective;
      var settled := CompletedObjective(db, o, id, tick, rows, now);
      && settled.cadence == verified.cadence
      && settled.policy.remediation == verified.policy.remediation
      && settled.policy.cadenceBefore == verified.policy.cadenceBefore
      && settled.lastEvent == verified.lastEvent == db.objectives[o].lastEvent
  {
  }

  /** What a completion does to one objective's row and in its name. */
  lemma CompleteFrame(db: Db, id: Id, tick: Tick, rows: seq<Reflection>, now: real, o: Id)
    requires o in db.objectives && id in db.events
    ensures
      var after := AfterComplete(db, id, tick, rows, now);
      && o in after.objectives
      && after.objectives[o]
         == (if Belongs(db, id, o) then CompletedObjective(db, o, id, tick, rows, now) else db.objectives[o])
      && after.events.Keys == db.events.Keys
      && (forall k <- db.events :: ContextOf(after.events[k]) == ContextOf(db.events[k]))
      && (forall k <- after.reflections ::
            || (k == id && ContextOf(db.events[id]) == Some(after.reflections[k].objective))
            || (k in db.reflections && after.reflections[k] == db.reflections[k]))
  {
  }

  lemma IntakeKeepsOneShot(db: Db, job: Job, niche: string, now: real, o: Id)
    requires job.objective in db.objectives && OneShotState(db, o)
    requires Fresh(db, job.event) && job.event != job.objective
    ensures OneShotState(AfterIntake(db, job, niche, now), o)
  {
    if job.objective == o {
      DispatchMeansFirst(db, job, now);
      OwnIntakeKeeps(db, job, niche, now);
    } else {
      OtherIntakeKeeps(db, job, niche, now, o);
    }
  }

  lemma OwnIntakeKeeps(db: Db, job: Job, niche: string, now: real)
    requires OneShotState(db, job.objective) && job.event !in db.events
    requires JobDecision(db, job, now).Dispatched? ==> db.objectives[job.objective].lastEvent.None?
    ensures OneShotState(AfterIntake(db, job, niche, now), job.objective)
  {
  }

  lemma OtherIntakeKeeps(db: Db, job: Job, niche: string, now: real, o: Id)
    requires job.objective in db.objectives && job.objective != o && OneShotState(db, o)
    requires job.event !in db.events
    ensures OneShotState(AfterIntake(db, job, niche, now), o)
  {
  }

  lemma DispatchKeepsOneShot(db: Db, x: Id, event: Id, niche: string, resume: bool, lowRisk: bool, now: real,
                             o: Id)
    requires x in db.objectives && x != o && event !in db.events && OneShotState(db, o)
    ensures OneShotState(AfterManualDispatch(db, x, event, niche, resume, lowRisk, now), o)
  {
  }

  lemma ResolveKeepsOneShot(db: Db, id: Id, approved: bool, now: real, o: Id)
    requires OneShotState(db, o)
    ensures OneShotState(AfterResolve(db, id, approved, now), o)
  {
  }

  /** The operator steps that can make a one-shot run again: a second event in its name, or an edit
      that gives it a cadence or the memory of one. Approvals, rejections, pausing, resuming and other
      edits cannot. */
  ghost predicate Rearms(s: Step, o: Id) {
    match s.act
    case Enqueue(id, q) => q.Context() == Some(o)
    case Create(x, _, _, _, _, _, _) => x == o
    case Change(x, u) =>
      x == o && (u.cadence.GetOr(0.0) > 0.0 || (u.policy.Some? && !RemembersNone(u.policy.value)))
    case DispatchNow(x, _, _, _, _) => x == o
    case _ => false
  }

  lemma ChangeKeepsOneShot(db: Db, u: Update, now: real, o: Id)
    requires OneShotState(db, o) && UpdateAccepted(u)
    requires u.cadence.GetOr(0.0) <= 0.0 && (u.policy.Some? ==> RemembersNone(u.policy.value))
    ensures OneShotState(db.(objectives := db.objectives[o := Updated(db.objectives[o], u, now)]), o)
  {
  }

  lemma OneShotStep(s: Step, o: Id)
    requires Next(s) && OneShotState(s.before.db, o) && !Rearms(s, o)
    ensures OneShotState(s.after.db, o)
  {
    match s.act
    case Ingest(niche, job) => IntakeKeepsOneShot(s.before.db, job, niche, s.now, o);
    case Complete(id, tick, ids, rows) => CompleteKeepsOneShot(s.before.db, id, tick, ids, rows, s.now, o);
    case DispatchNow(x, niche, id, resume, lowRisk) =>
      DispatchKeepsOneShot(s.before.db, x, id, niche, resume, lowRisk, s.now, o);
    case Resolve(id, approved) => ResolveKeepsOneShot(s.before.db, id, approved, s.now, o);
    case Change(x, u) =>
      if x == o {
        ChangeKeepsOneShot(s.before.db, u, s.now, o);
      }
    case _ =>
  }

  /** A dispatch finds no last event and leaves one; nothing ever takes it away. */
  lemma LastEventStays(s: Step, o: Id)
    requires Next(s) && OneShotState(s.before.db, o) && o in s.after.db.objectives
    ensures s.before.db.objectives[o].lastEvent.Some? && !Rearms(s, o) ==>
              s.after.db.objectives[o].lastEvent.Some?
    ensures IngestDispatches(s, o) ==>
              s.before.db.objectives[o].lastEvent.None? && s.after.db.objectives[o].lastEvent.Some?
  {
    match s.act
    case Ingest(niche, job) => IntakeLastEvent(s, o);
    case Complete(id, tick, ids, rows) => CompleteFrame(s.before.db, id, tick, rows, s.now, o);
    case Resolve(id, approved) =>
    case DispatchNow(x, niche, id, resume, lowRisk) =>
    case _ =>
  }

  lemma IntakeLastEvent(s: Step, o: Id)
    requires Next(s) && s.act.Ingest? && OneShotState(s.before.db, o)
    ensures s.before.db.objectives[o].lastEvent.Some? ==> s.after.db.objectives[o].lastEvent.Some?
    ensures IngestDispatches(s, o) ==>
              s.before.db.objectives[o].lastEvent.None? && s.after.db.objectives[o].lastEvent.Some?
  {
    var db, job := s.before.db, s.act.job;
    if job.objective == o {
      DispatchMeansFirst(db, job, s.now);
      if !JobDecision(db, job, s.now).Dispatched? {
        assert s.after.db.events == db.events;
      }
    }
  }

  lemma DispatchMeansFirst(db: Db, job: Job, now: real)
    requires OneShotState(db, job.objective)
    ensures JobDecision(db, job, now).Dispatched? ==> db.objectives[job.objective].lastEvent.None?
    ensures JobRow(db, job, now).lastEvent == db.objectives[job.objective].lastEvent
  {
    assert JobRow(db, job, now).cadence == 0.0;
    assert forall s: EventStatus :: Live(s) || s.Done? || s.Failed?;
  }

  /** The run starts with the creation of a one-shot objective that remembers no cadence, and nobody
      re-arms it afterwards. */
  ghost predicate OneShotRun(r: Run, o: Id) {
    && IsRun(r) && r != []
    && r[0].act.Create? && r[0].act.objective == o
    && r[0].act.cadence == 0.0 && RemembersNone(r[0].act.policy)
    && forall i :: 0 < i < |r| ==> !Rearms(r[i], o)
  }

  lemma {:induction false} OneShotAlong(r: Run, o: Id, k: nat)
    requires OneShotRun(r, o) && k < |r|
    ensures OneShotState(r[k].after.db, o)
    ensures (exists i :: 0 < i <= k && IngestDispatches(r[i], o)) ==> r[k].after.db.objectives[o].lastEvent.Some?
  {
    assert r[k] in r;
    if k == 0 {
    } else {
      OneShotAlong(r, o, k - 1);
      assert r[k - 1].after == r[k].before;
      OneShotStep(r[k], o);
      LastEventStays(r[k], o);
    }
  }

  /** No two intake steps of such a run dispatch the objective, and its cadence never changes. */
  lemma DispatchedAtMostOnce(r: Run, o: Id, i: nat, j: nat)
    requires OneShotRun(r, o) && i < j < |r|
    requires IngestDispatches(r[i], o)
    ensures !IngestDispatches(r[j], o)
    ensures OneShotState(r[j].after.db, o)
  {
    OneShotAlong(r, o, j - 1);
    OneShotAlong(r, o, j);
    assert r[j - 1].after == r[j].before && r[j] in r && r[0] in r;
    assert i > 0;
    LastEventStays(r[j], o);
  }
}
