/** At most one event of an objective is live, and it is the one dispatched last. */
module LiveEvents {
  import opened Common
  import opened RowQuery
  import opened Schema
  import opened EventQueue
  import opened Scheduler
  import opened Machine

  ghost predicate LiveIsLast(db: Db, o: Id) {
    o in db.objectives ==>
      forall id <- db.events ::
        Belongs(db, id, o) && Live(db.events[id].status) ==> db.objectives[o].lastEvent == Some(id)
  }

  /** The daemon holds only what it is processing. */
  ghost predicate ClaimHeld(w: World) {
    w.claimed.Some? ==> w.claimed.value in w.db.events && w.db.events[w.claimed.value].status.Processing?
  }

  /** Steps that put a second event of the objective into the queue behind the intake's back. */
  ghost predicate SideDispatch(s: Step, o: Id) {
    match s.act
    case Enqueue(id, q) => q.Context() == Some(o)
    case DispatchNow(x, _, _, _, _) => x == o
    case _ => false
  }

  /** Nothing but its own completion or failure takes a claimed event out of processing. */
  lemma ClaimHeldStep(s: Step)
    requires Next(s) && ClaimHeld(s.before)
    ensures ClaimHeld(s.after)
  {
    if s.before.claimed.Some? {
      var id := s.before.claimed.value;
      match s.act
      case Enqueue(x, q) =>
      case Create(x, niche, priority, cadence, nextRun, constraints, policy) =>
      case Change(x, u) =>
      case Resolve(x, approved) => ResolveLeaves(s.before.db, x, approved, s.now, id);
      case DispatchNow(x, niche, event, resume, lowRisk) =>
        DispatchLeaves(s.before.db, x, event, niche, resume, lowRisk, s.now, id);
      case _ =>
    }
  }

  lemma ResolveLeaves(db: Db, x: Id, approved: bool, now: real, id: Id)
    requires id in db.events && !db.events[id].status.WaitingForInput?
    ensures
      var events := AfterResolve(db, x, approved, now).events;
      id in events && events[id] == db.events[id]
  {
  }

  lemma DispatchLeaves(db: Db, o: Id, event: Id, niche: string, resume: bool, lowRisk: bool, now: real, id: Id)
    requires o in db.objectives && id in db.events && event !in db.events
    ensures
      var events := AfterManualDispatch(db, o, event, niche, resume, lowRisk, now).events;
      id in events && events[id] == db.events[id]
  {
  }

  /** Live events of the objective were live before, and its last event is the same. */
  ghost predicate LiveShrinks(a: Db, b: Db, o: Id) {
    && (o in b.objectives ==> o in a.objectives && b.objectives[o].lastEvent == a.objectives[o].lastEvent)
    && forall id <- b.events :: Belongs(b, id, o) && Live(b.events[id].status) ==>
         Belongs(a, id, o) && Live(a.events[id].status)
  }

  lemma EnqueueShrinks(db: Db, id: Id, q: Request, now: real, o: Id)
    requires id !in db.events && q.Context() != Some(o)
    ensures LiveShrinks(db, AfterEnqueue(db, id, q, now), o)
  {
  }

  lemma ClaimShrinks(db: Db, pick: Option<Id>, now: real, o: Id)
    requires pick.Some? ==> pick.value in db.events && db.events[pick.value].status.Pending?
    ensures LiveShrinks(db, AfterClaim(db, pick, now), o)
  {
  }

  lemma FailShrinks(db: Db, id: Id, c: FailureClass, retryable: bool, now: real, o: Id)
    requires id in db.events && Live(db.events[id].status)
    ensures LiveShrinks(db, AfterFail(db, id, c, retryable, now), o)
  {
  }

  lemma RequeueShrinks(db: Db, niche: string, staleAfter: real, now: real, o: Id)
    ensures LiveShrinks(db, AfterRequeue(db, niche, staleAfter, now), o)
  {
  }

  lemma ResolveShrinks(db: Db, id: Id, approved: bool, now: real, o: Id)
    ensures LiveShrinks(db, AfterResolve(db, id, approved, now), o)
  {
  }

  lemma DispatchShrinks(db: Db, x: Id, event: Id, niche: string, resume: bool, lowRisk: bool, now: real, o: Id)
    requires x in db.objectives && x != o && event !in db.events
    ensures LiveShrinks(db, AfterManualDispatch(db, x, event, niche, resume, lowRisk, now), o)
  {
  }

  lemma PickWasPending(db: Db, niche: string, now: real, rows: seq<Id>)
    requires FirstRows(ClaimKeys(db, niche, now), CLAIM_WINDOW, rows)
    ensures forall id <- rows :: id in db.events && Eligible(db.events[id], niche, now)
  {
  }

  lemma LiveIsLastStep(s: Step, o: Id)
    requires Next(s) && ClaimHeld(s.before) && LiveIsLast(s.before.db, o) && !SideDispatch(s, o)
    ensures LiveIsLast(s.after.db, o)
  {
    var db, now := s.before.db, s.now;
    match s.act
    case Enqueue(id, q) => EnqueueShrinks(db, id, q, now, o);
    case Ingest(niche, job) => IntakeKeeps(db, job, niche, now, o);
    case Claim(niche, rows) =>
      PickWasPending(db, niche, now, rows);
      ClaimShrinks(db, PickOf(db, niche, rows), now, o);
    case Complete(id, tick, ids, rows) => CompleteKeeps(db, id, tick, rows, now, o);
    case Fail(id, c, retryable) => FailShrinks(db, id, c, retryable, now, o);
    case Crash =>
    case Requeue(niche, staleAfter) => RequeueShrinks(db, niche, staleAfter, now, o);
    case Resolve(id, approved) => ResolveShrinks(db, id, approved, now, o);
    case Create(x, niche, priority, cadence, nextRun, constraints, policy) =>
    case Change(x, u) =>
    case DispatchNow(x, niche, id, resume, lowRisk) => DispatchShrinks(db, x, id, niche, resume, lowRisk, now, o);
  }

  lemma IntakeKeeps(db: Db, job: Job, niche: string, now: real, o: Id)
    requires job.objective in db.objectives && LiveIsLast(db, o) && Fresh(db, job.event)
    ensures LiveIsLast(AfterIntake(db, job, niche, now), o)
  {
  }

  lemma CompleteKeeps(db: Db, id: Id, tick: Tick, rows: seq<Reflection>, now: real, o: Id)
    requires id in db.events && db.events[id].status.Processing? && LiveIsLast(db, o)
    ensures LiveIsLast(AfterComplete(db, id, tick, rows, now), o)
  {
  }

  /** In every state of every run, whatever crashes, retries, approvals and rejections happened,
      an objective that nobody dispatched by hand has at most one live event: its last one. */
  lemma {:induction false} AtMostOneLiveEvent(r: Run, o: Id, k: nat)
    requires IsRun(r) && k < |r| && Init(r[0].before)
    requires forall i :: 0 <= i <= k ==> !SideDispatch(r[i], o)
    ensures ClaimHeld(r[k].after)
    ensures LiveIsLast(r[k].after.db, o)
    ensures
      var db := r[k].after.db;
      o in db.objectives ==>
        forall a <- db.events, b <- db.events ::
          (Belongs(db, a, o) && Live(db.events[a].status) && Belongs(db, b, o) && Live(db.events[b].status)) ==>
            a == b
  {
    assert r[k] in r;
    if k > 0 {
      AtMostOneLiveEvent(r, o, k - 1);
      assert r[k - 1].after == r[k].before;
    }
    ClaimHeldStep(r[k]);
    LiveIsLastStep(r[k], o);
  }

  /** The same for the state a step starts from. */
  lemma LiveBefore(r: Run, o: Id, k: nat)
    requires IsRun(r) && k < |r| && Init(r[0].before)
    requires forall i :: 0 <= i < k ==> !SideDispatch(r[i], o)
    ensures ClaimHeld(r[k].before) && LiveIsLast(r[k].before.db, o)
  {
    if k > 0 {
      AtMostOneLiveEvent(r, o, k - 1);
      assert r[k - 1].after == r[k].before;
    }
  }

  lemma IngestDispatchesExactly(s: Step, o: Id)
    requires Next(s) && s.act.Ingest? && s.act.job.objective == o && LiveIsLast(s.before.db, o)
    requires Belonging(s.before.db, o)
    ensures
      var db := s.before.db;
      var row := JobRow(db, s.act.job, s.now);
      IngestDispatches(s, o) <==>
        && (forall id <- db.events :: Belongs(db, id, o) ==> !Live(db.events[id].status))
        && !(row.policy.escalation.Deferred? && Hold(row.policy, s.now) > s.now)
        && !row.policy.escalation.Open?
        && (row.cadence > 0.0 || row.lastEvent.None?)
        && !(DeadlineMissed(row, s.now) && row.constraints.pauseOnDeadlineMiss)
  {
    var db, job := s.before.db, s.act.job;
    var row := JobRow(db, job, s.now);
    assert row.lastEvent == db.objectives[o].lastEvent;
    if JobDecision(db, job, s.now).Dispatched? {
      assert job.event in s.after.db.events;
    }
  }

  /** The remembered last event is one of the objective's own. */
  ghost predicate Belonging(db: Db, o: Id) {
    o in db.objectives && db.objectives[o].lastEvent.Some? ==>
      Belongs(db, db.objectives[o].lastEvent.value, o)
  }

  /** The objective's last event is kept or is a new one of its own, and no event changes hands. */
  ghost predicate BelongingKept(a: Db, b: Db, o: Id) {
    && (forall id <- a.events :: id in b.events && ContextOf(b.events[id]) == ContextOf(a.events[id]))
    && (o in b.objectives && b.objectives[o].lastEvent.Some? ==>
          || Belongs(b, b.objectives[o].lastEvent.value, o)
          || (o in a.objectives && b.objectives[o].lastEvent == a.objectives[o].lastEvent))
  }

  lemma IntakeBelongs(db: Db, job: Job, niche: string, now: real, o: Id)
    requires job.objective in db.objectives && job.event !in db.events
    ensures BelongingKept(db, AfterIntake(db, job, niche, now), o)
  {
  }

  lemma DispatchBelongs(db: Db, x: Id, event: Id, niche: string, resume: bool, lowRisk: bool, now: real, o: Id)
    requires x in db.objectives && event !in db.events
    ensures BelongingKept(db, AfterManualDispatch(db, x, event, niche, resume, lowRisk, now), o)
  {
  }

  lemma CompleteBelongs(db: Db, id: Id, tick: Tick, rows: seq<Reflection>, now: real, o: Id)
    requires id in db.events
    ensures BelongingKept(db, AfterComplete(db, id, tick, rows, now), o)
  {
  }

  lemma ResolveBelongs(db: Db, id: Id, approved: bool, now: real, o: Id)
    ensures BelongingKept(db, AfterResolve(db, id, approved, now), o)
  {
  }

  lemma BelongingStep(s: Step, o: Id)
    requires Next(s) && Belonging(s.before.db, o)
    ensures Belonging(s.after.db, o)
  {
    var db := s.before.db;
    match s.act
    case Ingest(niche, job) => IntakeBelongs(db, job, niche, s.now, o);
    case Complete(id, tick, ids, rows) => CompleteBelongs(db, id, tick, rows, s.now, o);
    case Resolve(id, approved) => ResolveBelongs(db, id, approved, s.now, o);
    case DispatchNow(x, niche, id, resume, lowRisk) => DispatchBelongs(db, x, id, niche, resume, lowRisk, s.now, o);
    case _ => assert BelongingKept(db, s.after.db, o);
  }

  lemma {:induction false} BelongingBefore(r: Run, o: Id, k: nat)
    requires IsRun(r) && k < |r| && Init(r[0].before)
    ensures Belonging(r[k].before.db, o)
  {
    if k > 0 {
      BelongingBefore(r, o, k - 1);
      assert r[k - 1] in r && r[k - 1].after == r[k].before;
      BelongingStep(r[k - 1], o);
    }
  }

  /** In any run, exactly when the intake dispatches a due objective that nobody dispatched by
      hand: no event of it is live, no deferral holds it, no escalation is open, it is not a
      finished one-shot and it is not paused for a missed deadline. */
  lemma IntakeDecidesExactly(r: Run, o: Id, k: nat)
    requires IsRun(r) && k < |r| && Init(r[0].before)
    requires forall i :: 0 <= i < k ==> !SideDispatch(r[i], o)
    requires r[k].act.Ingest? && r[k].act.job.objective == o
    ensures o in r[k].before.db.objectives
    ensures
      var db, s := r[k].before.db, r[k];
      var row := JobRow(db, s.act.job, s.now);
      IngestDispatches(s, o) <==>
        && (forall id <- db.events :: Belongs(db, id, o) ==> !Live(db.events[id].status))
        && !(row.policy.escalation.Deferred? && Hold(row.policy, s.now) > s.now)
        && !row.policy.escalation.Open?
        && (row.cadence > 0.0 || row.lastEvent.None?)
        && !(DeadlineMissed(row, s.now) && row.constraints.pauseOnDeadlineMiss)
  {
    assert r[k] in r;
    LiveBefore(r, o, k);
    BelongingBefore(r, o, k);
    IngestDispatchesExactly(r[k], o);
  }
}
