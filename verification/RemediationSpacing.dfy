/** Two automatic remediations of one objective are at least a retry window apart. */
module RemediationSpacing {
  import opened RowQuery
  import opened Schema
  import opened EventQueue
  import opened Scheduler
  import opened Machine
  import opened LiveEvents

  /** Until time `t` the objective is not due and nothing of it can run. */
  ghost predicate QuietUntil(w: World, o: Id, t: real) {
    w.clock < t ==>
      && o in w.db.objectives
      && w.db.objectives[o].nextRun >= t
      && forall id <- w.db.events :: Belongs(w.db, id, o) ==>
           !w.db.events[id].status.Pending? && !w.db.events[id].status.Processing?
  }

  /** The part of it about the database. */
  ghost predicate Quiet(db: Db, o: Id, t: real) {
    && o in db.objectives
    && db.objectives[o].nextRun >= t
    && forall id <- db.events :: Belongs(db, id, o) ==>
         !db.events[id].status.Pending? && !db.events[id].status.Processing?
  }

  lemma QuietIntake(db: Db, job: Job, niche: string, now: real, o: Id, t: real)
    requires Quiet(db, o, t) && now < t && job.objective in db.objectives && job.event !in db.events
    requires Due(db.objectives[job.objective], niche, now)
    ensures Quiet(AfterIntake(db, job, niche, now), o, t)
  {
  }

  lemma QuietComplete(db: Db, id: Id, tick: Tick, rows: seq<Reflection>, now: real, o: Id, t: real)
    requires Quiet(db, o, t) && id in db.events && db.events[id].status.Processing?
    ensures Quiet(AfterComplete(db, id, tick, rows, now), o, t)
  {
  }

  lemma QuietDispatch(db: Db, x: Id, event: Id, niche: string, resume: bool, lowRisk: bool, now: real, o: Id, t: real)
    requires Quiet(db, o, t) && x in db.objectives && x != o && event !in db.events
    ensures Quiet(AfterManualDispatch(db, x, event, niche, resume, lowRisk, now), o, t)
  {
  }

  lemma QuietResolve(db: Db, id: Id, approved: bool, now: real, o: Id, t: real)
    requires Quiet(db, o, t) && !Belongs(db, id, o)
    ensures Quiet(AfterResolve(db, id, approved, now), o, t)
  {
  }

  lemma QuietStep(s: Step, o: Id, t: real)
    requires Next(s) && ClaimHeld(s.before) && !OperatorStep(s, o) && QuietUntil(s.before, o, t)
    ensures QuietUntil(s.after, o, t)
  {
    if s.now < t {
      var db := s.before.db;
      assert Quiet(db, o, t);
      match s.act
      case Ingest(niche, job) => QuietIntake(db, job, niche, s.now, o, t);
      case Complete(id, tick, ids, rows) => QuietComplete(db, id, tick, rows, s.now, o, t);
      case DispatchNow(x, niche, id, resume, lowRisk) =>
        QuietDispatch(db, x, id, niche, resume, lowRisk, s.now, o, t);
      case Resolve(id, approved) => QuietResolve(db, id, approved, s.now, o, t);
      case _ =>
    }
  }

  /** A remediation pushes the next run past its window and leaves nothing of the objective that
      could run before. */
  lemma RemediationQuiets(db: Db, id: Id, tick: Tick, rows: seq<Reflection>, now: real, o: Id)
    requires Belongs(db, id, o) && o in db.objectives && db.events[id].status.Processing? && now >= 0.0
    requires LiveIsLast(db, o) && OutcomeOf(db.objectives[o], id, tick, rows, now).remediated
    ensures Quiet(AfterComplete(db, id, tick, rows, now), o, now + db.objectives[o].constraints.RetryWindow())
  {
    RemediationPushes(db.objectives[o], id, tick, rows, now);
    SettledEvent(db, id, tick, rows, now, o);
  }

  lemma RemediationPushes(row: Objective, id: Id, tick: Tick, rows: seq<Reflection>, now: real)
    requires now >= 0.0 && OutcomeOf(row, id, tick, rows, now).remediated
    ensures !OutcomeOf(row, id, tick, rows, now).Escalated()
    ensures OutcomeOf(row, id, tick, rows, now).objective.nextRun >= now + row.constraints.RetryWindow()
  {
  }

  /** Without an escalation the event is done or waiting, and the objective as verified. */
  lemma SettledEvent(db: Db, id: Id, tick: Tick, rows: seq<Reflection>, now: real, o: Id)
    requires Belongs(db, id, o) && o in db.objectives
    requires !OutcomeOf(db.objectives[o], id, tick, rows, now).Escalated()
    ensures
      var after := AfterComplete(db, id, tick, rows, now);
      && o in after.objectives && after.objectives[o] == OutcomeOf(db.objectives[o], id, tick, rows, now).objective
      && after.events.Keys == db.events.Keys
      && (after.events[id].status.Done? || after.events[id].status.WaitingForInput?)
      && forall k <- db.events :: k != id ==> after.events[k] == db.events[k]
  {
  }

  lemma {:induction false} QuietAlong(r: Run, o: Id, i: nat, k: nat, t: real)
    requires IsRun(r) && i <= k < |r| && Init(r[0].before)
    requires forall m :: i < m <= k ==> !OperatorStep(r[m], o)
    requires forall m :: 0 <= m <= k ==> !SideDispatch(r[m], o)
    requires QuietUntil(r[i].after, o, t)
    ensures QuietUntil(r[k].after, o, t)
  {
    if i < k {
      QuietAlong(r, o, i, k - 1, t);
      assert r[k - 1].after == r[k].before && r[k] in r;
      LiveBefore(r, o, k);
      QuietStep(r[k], o, t);
    }
  }

  lemma {:induction false} ClockFromInit(r: Run, k: nat)
    requires IsRun(r) && k < |r| && Init(r[0].before)
    ensures r[k].now >= 0.0
  {
    assert r[k] in r;
    if k > 0 {
      ClockFromInit(r, k - 1);
      assert r[k - 1].after == r[k].before && r[k - 1] in r;
    }
  }

  /** Nobody ever dispatches the objective by hand, and no operator acts on it between the two
      remediations: then the second comes at least the first one's retry window later. */
  lemma RemediationsApart(r: Run, o: Id, i: nat, j: nat)
    requires IsRun(r) && i < j < |r| && Init(r[0].before)
    requires forall m :: 0 <= m <= j ==> !SideDispatch(r[m], o)
    requires forall m :: i < m <= j ==> !OperatorStep(r[m], o)
    requires Remediates(r[i], o) && Remediates(r[j], o)
    ensures r[j].now >= r[i].now + r[i].before.db.objectives[o].constraints.RetryWindow()
    ensures r[j].now >= r[i].now + 60.0
  {
    var t := r[i].now + r[i].before.db.objectives[o].constraints.RetryWindow();
    assert r[i] in r && r[j] in r;
    ClockFromInit(r, i);
    LiveBefore(r, o, i);
    RemediationQuiets(r[i].before.db, r[i].act.event, r[i].act.tick, r[i].act.trend, r[i].now, o);
    QuietAlong(r, o, i, j - 1, t);
    assert r[j - 1].after == r[j].before;
    LiveBefore(r, o, j);
  }
}
