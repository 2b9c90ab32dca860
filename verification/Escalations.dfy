/** An open escalation always has an event waiting for the operator, unless an operator opened it. */
module Escalations {
  import opened Common
  import opened RowQuery
  import opened Schema
  import opened EventQueue
  import opened Scheduler
  import opened Machine
  import opened LiveEvents

  ghost predicate EscalationOpen(db: Db, o: Id) {
    o in db.objectives && db.objectives[o].policy.escalation.Open?
  }

  /** The escalation's event waits for input and names the objective in its metadata. */
  ghost predicate EventWaits(db: Db, o: Id)
    requires o in db.objectives
  {
    var e := db.objectives[o].policy.escalationEvent;
    && e.Some? && e.value in db.events
    && db.events[e.value].status.WaitingForInput?
    && db.events[e.value].metaObjective == Some(o)
  }

  /** The step sets the escalation open by an operator's own hand: a rejection, or a policy written
      with an open escalation in it. */
  ghost predicate OpensByHand(s: Step, o: Id) {
    match s.act
    case Resolve(id, approved) =>
      && !approved && id in s.before.db.events
      && s.before.db.events[id].status.WaitingForInput?
      && s.before.db.events[id].metaObjective == Some(o)
    case Create(x, _, _, _, _, _, policy) => x == o && policy.escalation.Open?
    case Change(x, u) => x == o && u.policy.Some? && u.policy.value.escalation.Open?
    case _ => false
  }

  /** The escalation open at the end of the run is one that an operator opened and that no
      verification has opened again since. */
  ghost predicate OpenByHand(r: Run, o: Id) {
    r != [] &&
    var s := r[|r| - 1];
    EscalationOpen(s.after.db, o) &&
    (OpensByHand(s, o)
     || (!(Verifies(s, o) && VerifyOutcome(s, o).Escalated()) && OpenByHand(r[..|r| - 1], o)))
  }

  /** An event tied to the objective through its parent alone. Approval does not look there. */
  ghost predicate LinksByParentOnly(s: Step, o: Id) {
    s.act.Enqueue? && s.act.request.metaObjective.None? && s.act.request.parent == Some(o)
  }

  ghost predicate LinkedByMetadata(db: Db, o: Id) {
    forall id <- db.events :: Belongs(db, id, o) ==> db.events[id].metaObjective == Some(o)
  }

  lemma IntakeLinks(db: Db, job: Job, niche: string, now: real, o: Id)
    requires job.objective in db.objectives && job.event !in db.events && LinkedByMetadata(db, o)
    ensures LinkedByMetadata(AfterIntake(db, job, niche, now), o)
  {
  }

  lemma DispatchLinks(db: Db, x: Id, event: Id, niche: string, resume: bool, lowRisk: bool, now: real, o: Id)
    requires x in db.objectives && event !in db.events && LinkedByMetadata(db, o)
    ensures LinkedByMetadata(AfterManualDispatch(db, x, event, niche, resume, lowRisk, now), o)
  {
  }

  lemma CompleteLinks(db: Db, id: Id, tick: Tick, rows: seq<Reflection>, now: real, o: Id)
    requires id in db.events && LinkedByMetadata(db, o)
    ensures LinkedByMetadata(AfterComplete(db, id, tick, rows, now), o)
  {
  }

  lemma LinkedByMetadataStep(s: Step, o: Id)
    requires Next(s) && LinkedByMetadata(s.before.db, o) && !LinksByParentOnly(s, o)
    ensures LinkedByMetadata(s.after.db, o)
  {
    var db := s.before.db;
    match s.act
    case Ingest(niche, job) => IntakeLinks(db, job, niche, s.now, o);
    case Complete(id, tick, ids, rows) => CompleteLinks(db, id, tick, rows, s.now, o);
    case DispatchNow(x, niche, id, resume, lowRisk) => DispatchLinks(db, x, id, niche, resume, lowRisk, s.now, o);
    case _ =>
  }

  /** A step keeps the waiting event, or closes the escalation, or is the operator opening it. */
  lemma EscalationStep(s: Step, o: Id)
    requires Next(s) && ClaimHeld(s.before) && LinkedByMetadata(s.before.db, o)
    requires EscalationOpen(s.before.db, o) ==> EventWaits(s.before.db, o)
    requires EscalationOpen(s.after.db, o) && !OpensByHand(s, o)
    ensures EventWaits(s.after.db, o)
  {
    var db := s.before.db;
    match s.act
    case Ingest(niche, job) => IngestEscalation(db, job, niche, s.now, o);
    case Complete(id, tick, ids, rows) => CompleteEscalation(db, id, tick, rows, s.now, o);
    case Resolve(id, approved) => ResolveEscalation(s, o);
    case Change(x, u) =>
    case DispatchNow(x, niche, id, resume, lowRisk) => DispatchEscalation(db, x, id, niche, resume, lowRisk, s.now, o);
    case _ =>
  }

  lemma IngestEscalation(db: Db, job: Job, niche: string, now: real, o: Id)
    requires job.objective in db.objectives && job.event !in db.events
    requires EscalationOpen(db, o) ==> EventWaits(db, o)
    ensures
      var after := AfterIntake(db, job, niche, now);
      && (EscalationOpen(after, o) ==> EventWaits(after, o))
      && (EscalationOpen(after, o) ==> EscalationOpen(db, o))
  {
  }

  lemma DispatchEscalation(db: Db, x: Id, event: Id, niche: string, resume: bool, lowRisk: bool, now: real, o: Id)
    requires x in db.objectives && event !in db.events
    requires EscalationOpen(db, o) ==> EventWaits(db, o)
    ensures
      var after := AfterManualDispatch(db, x, event, niche, resume, lowRisk, now);
      && (EscalationOpen(after, o) ==> EventWaits(after, o))
      && (EscalationOpen(after, o) ==> EscalationOpen(db, o))
  {
  }

  lemma ResolveEscalation(s: Step, o: Id)
    requires Next(s) && s.act.Resolve? && EscalationOpen(s.after.db, o) && !OpensByHand(s, o)
    requires EscalationOpen(s.before.db, o) ==> EventWaits(s.before.db, o)
    ensures EventWaits(s.after.db, o)
  {
  }

  lemma Reopened(db: Db, id: Id, tick: Tick, rows: seq<Reflection>, now: real, o: Id)
    requires Belongs(db, id, o) && o in db.objectives && LinkedByMetadata(db, o)
    requires OutcomeOf(db.objectives[o], id, tick, rows, now).Escalated()
    requires EscalationOpen(AfterComplete(db, id, tick, rows, now), o)
    ensures EventWaits(AfterComplete(db, id, tick, rows, now), o)
  {
  }

  /** Without an escalation of its own a completion leaves an open escalation only as it was. */
  lemma StaysOpen(db: Db, id: Id, tick: Tick, rows: seq<Reflection>, now: real, o: Id)
    requires id in db.events
    requires Belongs(db, id, o) && o in db.objectives ==> !OutcomeOf(db.objectives[o], id, tick, rows, now).Escalated()
    requires EscalationOpen(AfterComplete(db, id, tick, rows, now), o)
    ensures EscalationOpen(db, o)
    ensures AfterComplete(db, id, tick, rows, now).objectives[o].policy.escalationEvent
         == db.objectives[o].policy.escalationEvent
  {
  }

  /** A completion leaves an escalation open only with the event waiting: the one just completed,
      or the one before. */
  lemma CompleteEscalation(db: Db, id: Id, tick: Tick, rows: seq<Reflection>, now: real, o: Id)
    requires id in db.events && db.events[id].status.Processing? && LinkedByMetadata(db, o)
    requires EscalationOpen(db, o) ==> EventWaits(db, o)
    requires EscalationOpen(AfterComplete(db, id, tick, rows, now), o)
    ensures EventWaits(AfterComplete(db, id, tick, rows, now), o)
  {
    if Belongs(db, id, o) && o in db.objectives && OutcomeOf(db.objectives[o], id, tick, rows, now).Escalated() {
      Reopened(db, id, tick, rows, now, o);
    } else {
      StaysOpen(db, id, tick, rows, now, o);
      OthersStay(db, id, tick, rows, now, db.objectives[o].policy.escalationEvent.value);
    }
  }

  lemma OthersStay(db: Db, id: Id, tick: Tick, rows: seq<Reflection>, now: real, e: Id)
    requires id in db.events && e in db.events && e != id
    ensures
      var events := AfterComplete(db, id, tick, rows, now).events;
      e in events && events[e] == db.events[e]
  {
  }

  /** Only a verification or an operator opens an escalation. */
  lemma OpenedBy(s: Step, o: Id)
    requires Next(s) && EscalationOpen(s.after.db, o) && !OpensByHand(s, o)
    requires !EscalationOpen(s.before.db, o)
    ensures Verifies(s, o) && VerifyOutcome(s, o).Escalated()
  {
    var db := s.before.db;
    match s.act
    case Ingest(niche, job) => IngestEscalation(db, job, niche, s.now, o);
    case Complete(id, tick, ids, rows) => CompleteOpens(db, id, tick, rows, s.now, o);
    case DispatchNow(x, niche, id, resume, lowRisk) => DispatchEscalation(db, x, id, niche, resume, lowRisk, s.now, o);
    case _ =>
  }

  lemma CompleteOpens(db: Db, id: Id, tick: Tick, rows: seq<Reflection>, now: real, o: Id)
    requires id in db.events && !EscalationOpen(db, o)
    requires EscalationOpen(AfterComplete(db, id, tick, rows, now), o)
    ensures o in db.objectives && ContextOf(db.events[id]) == Some(o)
    ensures OutcomeOf(db.objectives[o], id, tick, rows, now).Escalated()
  {
  }

  /** Whenever an escalation is open, its event is waiting for input, or an operator opened it and
      nothing has reopened it since. */
  lemma {:induction false} OpenMeansWaiting(r: Run, o: Id)
    requires IsRun(r) && r != [] && Init(r[0].before)
    requires forall s <- r :: !LinksByParentOnly(s, o)
    ensures ClaimHeld(r[|r| - 1].after) && LinkedByMetadata(r[|r| - 1].after.db, o)
    ensures
      var db := r[|r| - 1].after.db;
      EscalationOpen(db, o) ==> EventWaits(db, o) || OpenByHand(r, o)
  {
    RunPrefix(r);
    var s, p := r[|r| - 1], r[..|r| - 1];
    if |r| > 1 {
      forall t | t in p ensures !LinksByParentOnly(t, o) { assert t in r; }
      OpenMeansWaiting(p, o);
      assert p[|p| - 1].after == s.before;
    }
    assert s in r;
    ClaimHeldStep(s);
    LinkedByMetadataStep(s, o);
    if EscalationOpen(s.after.db, o) && !OpenByHand(r, o) {
      if Verifies(s, o) && VerifyOutcome(s, o).Escalated() {
        Reopened(s.before.db, s.act.event, s.act.tick, s.act.trend, s.now, o);
      } else {
        if EscalationOpen(s.before.db, o) {
        } else {
          OpenedBy(s, o);
        }
        EscalationStep(s, o);
      }
    }
  }

  /** The intake never dispatches an objective whose escalation is open. */
  lemma OpenIsNeverDispatched(s: Step, o: Id)
    requires Next(s) && EscalationOpen(s.before.db, o)
    ensures !IngestDispatches(s, o)
  {
    if s.act.Ingest? && s.act.job.objective == o {
      HeldWhileOpen(s.before.db, s.act.job, s.act.niche, s.now);
    }
  }

  lemma HeldWhileOpen(db: Db, job: Job, niche: string, now: real)
    requires EscalationOpen(db, job.objective)
    ensures AfterIntake(db, job, niche, now).events == db.events
    ensures EscalationOpen(AfterIntake(db, job, niche, now), job.objective)
  {
  }

  /** Why the metadata link matters: approving the event of an open escalation closes it exactly
      when the event names the objective in its metadata. An event linked through its parent alone
      goes back to the queue and leaves the escalation open with nothing waiting. */
  lemma ApprovalClosesExactly(db: Db, o: Id, id: Id, now: real)
    requires EscalationOpen(db, o) && Belongs(db, id, o)
    requires db.objectives[o].policy.escalationEvent == Some(id)
    requires db.events[id].status.WaitingForInput?
    ensures
      var after := AfterResolve(db, id, true, now);
      && after.events[id].status.Pending?
      && (!EscalationOpen(after, o) <==> db.events[id].metaObjective == Some(o))
      && (EscalationOpen(after, o) ==> !EventWaits(after, o))
  {
  }

  /** When an intake step ends a deferral: exactly when the objective is a one-shot whose only event
      is over and whose hold has elapsed. */
  lemma IntakeEndsDeferralExactly(s: Step, o: Id)
    requires Next(s) && s.act.Ingest? && s.act.job.objective == o
    requires s.before.db.objectives[o].policy.escalation.Deferred?
    ensures
      var db, row := s.before.db, s.before.db.objectives[o];
      var last := LastStatus(db, row);
      o in s.after.db.objectives &&
      (!s.after.db.objectives[o].policy.escalation.Deferred? <==>
         (last == Some(Done) || last == Some(Failed)) && Hold(row.policy, s.now) <= s.now && row.cadence <= 0.0)
    ensures !s.after.db.objectives[o].policy.escalation.Deferred? ==>
      !IngestDispatches(s, o) && s.after.db.objectives[o].status.Completed?
    ensures IngestDispatches(s, o) ==>
      s.after.db.objectives[o].policy.escalation.Deferred? && s.after.db.objectives[o].policy.holdUntil.None?
  {
    DeferralClearedExactly(s.before.db, s.act.job, s.act.niche, s.now);
  }

  /** A failure reported for an event after its escalating completion would take it out of waiting and
      leave the escalation open: the theorems about runs rest on the daemon not doing so. */
  lemma LateFailureLeavesOpen(db: Db, id: Id, tick: Tick, rows: seq<Reflection>, now: real, o: Id,
                              c: FailureClass, retryable: bool, late: real)
    requires Belongs(db, id, o) && o in db.objectives
    requires OutcomeOf(db.objectives[o], id, tick, rows, now).Escalated() && !AutoApproved(db, id, tick, rows, now)
    ensures
      var done := AfterComplete(db, id, tick, rows, now);
      && id in done.events && done.events[id].status.WaitingForInput?
      && EscalationOpen(AfterFail(done, id, c, retryable, late), o)
      && !EventWaits(AfterFail(done, id, c, retryable, late), o)
  {
  }
}
