/** The daemon's database with the operations that change it in place. */
module Store {
  import opened Common
  import opened RowQuery
  import opened Schema
  import opened VerificationPolicy
  import opened EventQueue
  import opened Scheduler
  import opened Dependencies
  import opened IntakeRuns

  datatype ApprovalAnswer = NotFound | NotWaiting | NowPending | NowFailed

  datatype DispatchAnswer = ObjectiveNotFound | ObjectiveNotActive | DispatchedAs(event: Id)

  class CognitiveStore {
    var events: map<Id, Event>
    var objectives: map<Id, Objective>
    var reflections: map<Id, Reflection>

    function Snapshot(): Db
      reads this
    {
      Db(events, objectives, reflections)
    }

    constructor ()
      ensures Snapshot() == EMPTY_DB
    {
      events, objectives, reflections := map[], map[], map[];
    }

    method EnqueueEvent(id: Id, q: Request, now: real)
      requires id !in events
      modifies this`events
      ensures Snapshot() == AfterEnqueue(old(Snapshot()), id, q, now)
    {
      var asked := q.derived;
      if q.priority.Some? && q.priority.value > 0 {
        asked := q.priority.value;
      }
      if asked > 1000 {
        asked := 1000;
      }
      var budget := q.maxAttempts;
      if budget < 1 {
        budget := 1;
      }
      if budget > 10 {
        budget := 10;
      }
      events := events[id := Event(q.niche, |events|, q.metaObjective, q.parent, q.deps, Pending, 0, budget, asked,
                                   now, now, None, q.autoCount, q.autoMax, q.autoAllowed, q.lowRisk)];
    }

    /** Stores a split request: every step depends on the one before and belongs to the first. */
    method EnqueuePlan(ids: seq<Id>, q: Request, now: real)
      requires Distinct(ids) && forall id <- ids :: id !in events
      modifies this`events
      ensures Snapshot() == AfterPlan(old(Snapshot()), ids, q, now)
    {
      var last: Option<Id> := None;
      var parent: Option<Id> := None;
      for i := 0 to |ids|
        invariant last == if i == 0 then None else Some(ids[i - 1])
        invariant parent == if i == 0 then None else Some(ids[0])
        invariant Snapshot() == AfterPlan(old(Snapshot()), ids[..i], q, now)
        invariant forall j :: i <= j < |ids| ==> ids[j] !in events
      {
        PlanOne(old(Snapshot()), ids, i, q, now);
        EnqueueEvent(ids[i], q.(parent := parent, deps := if last.Some? then [last.value] else []), now);
        if parent.None? {
          parent := Some(ids[i]);
        }
        last := Some(ids[i]);
      }
      assert ids[..|ids|] == ids;
    }

    method RequeueStaleProcessing(niche: string, staleAfter: real, now: real) returns (changed: nat)
      modifies this`events
      ensures Snapshot() == AfterRequeue(old(Snapshot()), niche, staleAfter, now)
      ensures changed == |set id <- old(events) | events[id] != old(events)[id]|
    {
      var stale := set id <- events | Stale(events[id], niche, staleAfter, now);
      events := map id <- events ::
        if id in stale then events[id].(status := Pending, startedAt := None) else events[id];
      changed := |stale|;
      assert stale == set id <- old(events) | events[id] != old(events)[id];
    }

    /** How many dependencies of the niche are unfinished. */
    method CountUnresolved(niche: string, deps: seq<Id>) returns (unresolved: nat)
      ensures unresolved == 0 <==> Ready(Snapshot(), niche, deps)
    {
      unresolved := 0;
      for i := 0 to |deps|
        invariant unresolved == 0 <==> Ready(Snapshot(), niche, deps[..i])
      {
        assert deps[..i + 1] == deps[..i] + [deps[i]];
        if deps[i] in events && events[deps[i]].niche == niche && !events[deps[i]].status.Done? {
          unresolved := unresolved + 1;
        }
      }
      assert deps[..|deps|] == deps;
    }

    /** The first candidate without unfinished dependencies. */
    method PickReady(niche: string, rows: seq<Id>) returns (pick: Option<Id>)
      requires forall id <- rows :: id in events
      ensures pick == FirstReady(Snapshot(), niche, rows)
    {
      var i := 0;
      while i < |rows|
        invariant 0 <= i <= |rows|
        invariant FirstReady(Snapshot(), niche, rows) == FirstReady(Snapshot(), niche, rows[i..])
      {
        var candidate := rows[i];
        assert rows[i..][1..] == rows[i + 1..];
        var unresolved := CountUnresolved(niche, events[candidate].deps);
        if unresolved == 0 {
          return Some(candidate);
        }
        i := i + 1;
      }
      return None;
    }

    method ClaimNextEvent(niche: string, now: real) returns (pick: Option<Id>, ghost rows: seq<Id>)
      modifies this`events
      ensures FirstRows(ClaimKeys(old(Snapshot()), niche, now), CLAIM_WINDOW, rows)
      ensures forall id <- rows :: id in old(events)
      ensures pick == FirstReady(old(Snapshot()), niche, rows)
      ensures Snapshot() == AfterClaim(old(Snapshot()), pick, now)
    {
      var keys := ClaimKeys(Snapshot(), niche, now);
      var found := Select(keys, CLAIM_WINDOW);
      rows := found;
      pick := PickReady(niche, found);
      if pick.Some? {
        assert pick.value in keys;
        if events[pick.value].status.Pending? {
          var e := events[pick.value];
          events := events[pick.value := e.(status := Processing, attempts := e.attempts + 1, startedAt := Some(now))];
        }
      }
    }

    method QueryTrend(o: Id, limit: nat) returns (ids: seq<Id>, rows: seq<Reflection>)
      ensures FirstRows(TrendKeys(Snapshot(), o), limit, ids)
      ensures forall id <- ids :: id in reflections
      ensures rows == ReflectionsAt(Snapshot(), ids)
    {
      ids := Select(TrendKeys(Snapshot(), o), limit);
      rows := ReflectionsAt(Snapshot(), ids);
    }

    method UpsertReflection(id: Id, o: Id, tick: Tick, now: real)
      requires id in events
      modifies this`reflections
      ensures reflections == old(reflections)[id := CompletedReflection(old(Snapshot()), id, o, tick, now)]
    {
      var created := now;
      if id in reflections {
        created := reflections[id].createdAt;
      }
      reflections := reflections[id := Reflection(o, tick.passed, tick.confidence, created)];
    }

    /** Verifies the event against its stored objective and updates the objective's row. */
    method SettleObjective(id: Id, o: Id, tick: Tick, now: real)
      returns (escalated: bool, autoApproved: bool, ghost ids: seq<Id>, ghost trend: seq<Reflection>)
      requires id in events && VerifiedObjective(Snapshot(), id) == Some(o)
      modifies this`objectives
      ensures TrendAnswer(old(Snapshot()), id, ids, trend)
      ensures escalated == OutcomeOf(old(objectives)[o], id, tick, trend, now).Escalated()
      ensures autoApproved == AutoApproved(old(Snapshot()), id, tick, trend, now)
      ensures objectives == old(objectives)[o := CompletedObjective(old(Snapshot()), o, id, tick, trend, now)]
    {
      var e, row := events[id], objectives[o];
      var c := row.constraints;
      var recent, rows := QueryTrend(o, c.ReflectionWindow());
      ids, trend := recent, rows;
      var stats := ObjectiveReflectionTrend(rows);
      var out := ApplyVerificationPolicy(row, id, tick.passed, tick.finalStatus, stats, now);
      var settled := out.objective;
      escalated, autoApproved := out.Escalated(), false;
      if escalated {
        var limit := AutoLimit(e, Some(c));
        if limit > 0 && AutoCount(e) < limit && AutoAllowed(e, Some(c)) && e.lowRisk {
          autoApproved := true;
          settled := settled.(
            status := Active,
            policy := settled.policy.(escalation := Resolved, holdUntil := None, holdReason := NoReason));
        }
      }
      objectives := objectives[o := settled];
    }

    /** The part of a completion that concerns the event's objective. */
    method SettleContext(id: Id, tick: Tick, now: real)
      returns (escalated: bool, autoApproved: bool, ghost ids: seq<Id>, ghost trend: seq<Reflection>)
      requires id in events
      modifies this`objectives, this`reflections
      ensures TrendAnswer(old(Snapshot()), id, ids, trend)
      ensures objectives == AfterComplete(old(Snapshot()), id, tick, trend, now).objectives
      ensures reflections == AfterComplete(old(Snapshot()), id, tick, trend, now).reflections
      ensures autoApproved == AutoApproved(old(Snapshot()), id, tick, trend, now)
      ensures escalated ==
        var target := VerifiedObjective(old(Snapshot()), id);
        target.Some? && OutcomeOf(old(objectives)[target.value], id, tick, trend, now).Escalated()
    {
      ids, trend, escalated, autoApproved := [], [], false, false;
      var context := ContextOf(events[id]);
      if context.Some? {
        if context.value in objectives {
          escalated, autoApproved, ids, trend := SettleObjective(id, context.value, tick, now);
        }
        UpsertReflection(id, context.value, tick, now);
      }
    }

    /** The event goes back to the queue, waits for the operator, or is done. */
    method SettleEvent(id: Id, tick: Tick, escalated: bool, autoApproved: bool, now: real)
      requires id in events
      modifies this`events
      ensures events == old(events)[id :=
        if autoApproved then AutoApprovedEvent(old(events)[id], now)
        else if tick.finalStatus.FinalWaitingForInput? || escalated then old(events)[id].(status := WaitingForInput)
        else old(events)[id].(status := Done)]
    {
      var e := events[id];
      if autoApproved {
        events := events[id := e.(status := Pending, availableAt := now, startedAt := None,
                                  autoCount := AutoCount(e) + 1)];
      } else if escalated || tick.finalStatus.FinalWaitingForInput? {
        events := events[id := e.(status := WaitingForInput)];
      } else {
        events := events[id := e.(status := Done)];
      }
    }

    /** Verifies the event against its objective and settles objective and queue in one go. */
    method CompleteEvent(id: Id, tick: Tick, now: real)
      returns (ghost ids: seq<Id>, ghost trend: seq<Reflection>)
      requires id in events
      modifies this
      ensures TrendAnswer(old(Snapshot()), id, ids, trend)
      ensures Snapshot() == AfterComplete(old(Snapshot()), id, tick, trend, now)
    {
      var escalated, autoApproved;
      escalated, autoApproved, ids, trend := SettleContext(id, tick, now);
      SettleEvent(id, tick, escalated, autoApproved, now);
    }

    method FailEvent(id: Id, failure: FailureClass, retryable: bool, now: real) returns (retryIn: Option<real>)
      requires id in events
      modifies this`events
      ensures Snapshot() == AfterFail(old(Snapshot()), id, failure, retryable, now)
      ensures retryIn.Some? <==> events[id].status.Pending?
      ensures retryIn.Some? ==> events[id].availableAt == now + retryIn.value
    {
      var e := events[id];
      var shouldRetry := false;
      var delay := 0.0;
      if retryable && failure.RateLimit? {
        shouldRetry := e.attempts < e.maxAttempts;
        delay := MinReal(300.0, (10 * Pow2(MaxInt(0, e.attempts - 1))) as real);
      } else if retryable && failure.Transient? {
        shouldRetry := e.attempts < e.maxAttempts;
        delay := MinReal(120.0, Pow2(e.attempts) as real);
      } else if retryable && failure.Unknown? {
        shouldRetry := e.attempts < MinInt(e.maxAttempts, 2);
        delay := (3 * MaxInt(1, e.attempts)) as real;
      }
      if shouldRetry {
        events := events[id := e.(status := Pending, availableAt := now + delay)];
        retryIn := Some(delay);
      } else {
        events := events[id := e.(status := Failed)];
        retryIn := None;
      }
    }

    method ResolveEventApproval(id: Id, approved: bool, now: real) returns (answer: ApprovalAnswer)
      modifies this
      ensures Snapshot() == AfterResolve(old(Snapshot()), id, approved, now)
      ensures answer.NotFound? <==> id !in old(events)
      ensures answer.NotFound? || answer.NotWaiting? ==> Snapshot() == old(Snapshot())
      ensures answer.NowPending? ==> approved && events[id].status.Pending?
      ensures answer.NowFailed? ==> !approved && events[id].status.Failed?
    {
      if id !in events {
        return NotFound;
      }
      var e := events[id];
      if !e.status.WaitingForInput? {
        return NotWaiting;
      }
      var o := e.metaObjective;
      if approved {
        events := events[id := e.(status := Pending, availableAt := now, startedAt := None, autoCount := 0)];
        if o.Some? && o.value in objectives {
          var policy := objectives[o.value].policy.(escalation := Resolved);
          objectives := objectives[o.value := objectives[o.value].(status := Active, policy := policy)];
        }
        return NowPending;
      }
      events := events[id := e.(status := Failed, autoCount := 0)];
      if o.Some? && o.value in objectives {
        var policy := objectives[o.value].policy.(escalation := Open);
        objectives := objectives[o.value := objectives[o.value].(status := Paused, policy := policy)];
      }
      return NowFailed;
    }

    method CreateObjective(o: Id, niche: string, priority: int, cadence: real, nextRun: Option<real>,
                           constraints: Constraints, policy: Policy, now: real)
      returns (ok: bool)
      requires o !in objectives
      modifies this`objectives
      ensures ok <==> cadence >= 0.0
      ensures objectives == if !ok then old(objectives)
        else old(objectives)[o := CreatedObjective(niche, priority, cadence, nextRun, constraints, policy, now)]
    {
      ok := cadence >= 0.0;
      if ok {
        objectives := objectives[o := Objective(niche, Active, MaxInt(1, MinInt(priority, 1000)), cadence,
                                                nextRun.GetOr(now), None, constraints, policy, now, None)];
      }
    }

    /** The policy dictionary an update stores, edited in place. */
    method EditedPolicy(current: Objective, u: Update) returns (policy: Policy)
      ensures policy == UpdatedPolicy(current, u)
    {
      policy := if u.policy.Some? then u.policy.value else current.policy;
      if u.status == Some(Active) {
        if policy.escalation.Open? && u.policy.None? {
          policy := policy.(escalation := Resolved);
        }
        policy := policy.(holdUntil := None, holdReason := NoReason);
      } else if u.status == Some(Paused) {
        if policy.escalation.NoEscalation? {
          policy := policy.(escalation := EscalationPaused);
        }
      }
    }

    method UpdateObjective(o: Id, u: Update, now: real) returns (ok: bool)
      modifies this`objectives
      ensures ok <==> o in old(objectives) && UpdateAccepted(u)
      ensures objectives == if ok then old(objectives)[o := Updated(old(objectives)[o], u, now)] else old(objectives)
    {
      if o !in objectives || (u.cadence.Some? && u.cadence.value < 0.0) {
        return false;
      }
      var row := objectives[o];
      var policy := EditedPolicy(row, u);
      row := row.(policy := policy);
      if u.status.Some? {
        row := row.(status := u.status.value);
      }
      if u.priority.Some? {
        row := row.(priority := MaxInt(1, MinInt(u.priority.value, 1000)));
      }
      if u.cadence.Some? {
        row := row.(cadence := u.cadence.value);
      }
      if u.constraints.Some? {
        row := row.(constraints := u.constraints.value);
      }
      if u.nextRun.Some? {
        row := row.(nextRun := u.nextRun.value);
      } else if u.status == Some(Active) {
        row := row.(nextRun := now);
      }
      objectives := objectives[o := row];
      return true;
    }

    method DispatchObjectiveNow(o: Id, event: Id, niche: string, resume: bool, lowRisk: bool, now: real)
      returns (answer: DispatchAnswer)
      requires event !in events
      modifies this
      ensures o !in old(objectives) ==> answer.ObjectiveNotFound? && Snapshot() == old(Snapshot())
      ensures o in old(objectives) ==>
        Snapshot() == AfterManualDispatch(old(Snapshot()), o, event, niche, resume, lowRisk, now)
      ensures answer.DispatchedAs? <==> o in old(objectives) && Dispatchable(old(objectives)[o], niche, resume)
    {
      if o !in objectives {
        return ObjectiveNotFound;
      }
      if resume && objectives[o].status.Paused? {
        var resumed := UpdateObjective(o, NO_UPDATE.(status := Some(Active)), now);
      }
      var row := objectives[o];
      if row.niche != niche {
        return ObjectiveNotFound;
      }
      if !row.status.Active? {
        return ObjectiveNotActive;
      }
      EnqueueEvent(event, DispatchRequest(row, o, niche, lowRisk, now), now);
      var nextDue := now;
      if row.cadence > 0.0 {
        nextDue := now + row.cadence;
      }
      objectives := objectives[o := row.(lastEvent := Some(event), nextRun := nextDue,
                                         policy := row.policy.(holdUntil := None, holdReason := NoReason))];
      return DispatchedAs(event);
    }

    /** A deferral holds the objective until its window has passed, and is cleared then. */
    method HoldDeferred(o: Id, row: Objective, now: real) returns (held: bool)
      requires o in objectives && row.policy.escalation.Deferred?
      modifies this`objectives
      ensures held <==> Hold(row.policy, now) > now
      ensures objectives == old(objectives)[o :=
        if held then IntakeRow(row, Intake.HeldDeferred, "", now) else row.(policy := Elapsed(row.policy))]
    {
      var policy := row.policy;
      var hold := Hold(policy, now);
      held := hold > now;
      if held {
        var due := MaxReal(row.nextRun, hold);
        policy := policy.(holdUntil := Some(due));
        if policy.holdReason.NoReason? {
          policy := policy.(holdReason := AutoRemediationWindow);
        }
        objectives := objectives[o := row.(nextRun := due, policy := policy)];
      } else {
        policy := policy.(escalation := Resolved, holdUntil := None, holdReason := NoReason);
        objectives := objectives[o := row.(policy := policy)];
      }
    }

    /** Enqueues the objective's event and moves its row on. */
    method DispatchRow(o: Id, row: Objective, event: Id, niche: string, lowRisk: bool, now: real)
      requires event !in events
      modifies this`events, this`objectives
      ensures events == AfterEnqueue(old(Snapshot()), event, DispatchRequest(row, o, niche, lowRisk, now), now).events
      ensures objectives == old(objectives)[o := DispatchedRow(row, event, now)]
    {
      EnqueueEvent(event, DispatchRequest(row, o, niche, lowRisk, now), now);
      var nextDue := now;
      if row.cadence > 0.0 {
        nextDue := now + row.cadence;
      }
      objectives := objectives[o := row.(lastEvent := Some(event), nextRun := nextDue,
                                         policy := row.policy.(holdUntil := None, holdReason := NoReason))];
    }

    /** The rest of the intake for a row with no live event, as read and tuned. */
    method IngestReady(o: Id, row: Objective, last: Option<EventStatus>, event: Id, niche: string, lowRisk: bool,
                       now: real)
      returns (dispatched: bool)
      requires o in objectives && event !in events && !(last.Some? && Live(last.value))
      requires objectives[o] == row
      modifies this`events, this`objectives
      ensures dispatched == Decide(row, last, now).Dispatched?
      ensures objectives == old(objectives)[o := IntakeRow(row, Decide(row, last, now), event, now)]
      ensures events == if dispatched
        then AfterEnqueue(old(Snapshot()), event, DispatchRequest(row, o, niche, lowRisk, now), now).events
        else old(events)
    {
      if row.policy.escalation.Deferred? {
        var held := HoldDeferred(o, row, now);
        if held {
          return false;
        }
      }
      if row.policy.escalation.Open? {
        var due := MaxReal(row.nextRun, now + row.constraints.ApprovalCooldown());
        var policy := row.policy.(holdUntil := Some(due), holdReason := EscalationIsOpen);
        objectives := objectives[o := row.(nextRun := due, policy := policy)];
        return false;
      }
      if row.cadence <= 0.0 && (last == Some(Done) || last == Some(Failed)) {
        var completed := UpdateObjective(o, NO_UPDATE.(status := Some(Completed)), now);
        return false;
      }
      if DeadlineMissed(row, now) && row.constraints.pauseOnDeadlineMiss {
        objectives := objectives[o := row.(status := Paused)];
        return false;
      }
      DispatchRow(o, row, event, niche, lowRisk, now);
      return true;
    }

    /** The body of the intake loop, for the row read before the loop. */
    method IngestOne(read: Objective, job: Job, niche: string, now: real) returns (dispatched: bool)
      requires job.objective in objectives && objectives[job.objective] == read && job.event !in events
      modifies this`events, this`objectives
      ensures Snapshot() == AfterIntake(old(Snapshot()), job, niche, now)
      ensures dispatched == JobDecision(old(Snapshot()), job, now).Dispatched?
    {
      var last := LastStatus(Snapshot(), read);
      if last.Some? && Live(last.value) {
        assert objectives[job.objective := read] == objectives;
        return false;
      }
      var row := read;
      if AutotuneDue(row, now) && job.tuned.Some? {
        row := row.(constraints := job.tuned.value, tunedAt := Some(now));
        objectives := objectives[job.objective := row];
      }
      dispatched := IngestReady(job.objective, row, last, job.event, niche, job.lowRisk, now);
    }

    /** The rows from position `i` on are as they were read, and their new uuids are unused. */
    ghost predicate Untaken(order: seq<Id>, i: nat, rows: map<Id, Objective>, supply: map<Id, Job>)
      reads this
    {
      forall j :: i <= j < |order| ==>
        && order[j] in objectives && order[j] in rows && objectives[order[j]] == rows[order[j]]
        && order[j] in supply && supply[order[j]].objective == order[j] && supply[order[j]].event !in events
    }

    /** One turn of the intake loop. */
    method IngestNext(order: seq<Id>, i: nat, rows: map<Id, Objective>, supply: map<Id, Job>, niche: string, now: real)
      returns (dispatched: bool)
      requires Distinct(order) && i < |order| && Untaken(order, i, rows, supply)
      requires forall j :: i < j < |order| ==> supply[order[j]].event != supply[order[i]].event
      modifies this`events, this`objectives
      ensures Untaken(order, i + 1, rows, supply)
      ensures Snapshot() == AfterIntake(old(Snapshot()), supply[order[i]], niche, now)
      ensures events.Keys == old(events).Keys + (if dispatched then {supply[order[i]].event} else {})
    {
      var job := supply[order[i]];
      dispatched := IngestOne(rows[order[i]], job, niche, now);
      IntakeFrame(old(Snapshot()), job, niche, now);
    }

    /** The intake loop after `i` turns. */
    ghost predicate IntakeAt(start: Db, order: seq<Id>, i: nat, rows: map<Id, Objective>, supply: map<Id, Job>,
                             niche: string, now: real, jobs: seq<Job>, dispatched: seq<Id>)
      reads this
    {
      && i <= |order| && |jobs| == i && JobsFor(order, supply, jobs)
      && Untaken(order, i, rows, supply)
      && Snapshot() == IntakeAll(start, jobs, niche, now)
      && events.Keys == start.events.Keys + Members(dispatched)
    }

    method IngestTurn(ghost start: Db, order: seq<Id>, i: nat, rows: map<Id, Objective>, supply: map<Id, Job>,
                      niche: string, now: real, ghost jobs: seq<Job>, dispatched: seq<Id>)
      returns (ghost taken: seq<Job>, sent: seq<Id>)
      requires Distinct(order) && i < |order|
      requires IntakeAt(start, order, i, rows, supply, niche, now, jobs, dispatched)
      requires forall j :: i < j < |order| ==> supply[order[j]].event != supply[order[i]].event
      modifies this`events, this`objectives
      ensures IntakeAt(start, order, i + 1, rows, supply, niche, now, taken, sent)
      ensures |sent| <= |dispatched| + 1
    {
      IntakeAllGrows(start, jobs, supply[order[i]], niche, now);
      JobsGrow(order, supply, jobs);
      var took := IngestNext(order, i, rows, supply, niche, now);
      taken := jobs + [supply[order[i]]];
      sent := dispatched;
      if took {
        MembersGrow(dispatched, supply[order[i]].event);
        sent := dispatched + [supply[order[i]].event];
      }
    }

    /** The intake loop over the ranked rows, read before it starts. */
    method IngestRanked(order: seq<Id>, limit: nat, supply: map<Id, Job>, niche: string, now: real)
      returns (dispatched: seq<Id>, ghost jobs: seq<Job>)
      requires Distinct(order) && Untaken(order, 0, objectives, supply)
      requires forall i, j :: 0 <= i < j < |order| ==> supply[order[i]].event != supply[order[j]].event
      modifies this`events, this`objectives
      ensures JobsFor(order, supply, jobs)
      ensures Snapshot() == IntakeAll(old(Snapshot()), jobs, niche, now)
      ensures |dispatched| <= limit
      ensures |jobs| < |order| ==> |dispatched| == limit
      ensures events.Keys == old(events).Keys + Members(dispatched)
    {
      var rows := objectives;
      jobs, dispatched := [], [];
      var i := 0;
      while i < |order| && |dispatched| < limit
        invariant 0 <= i <= |order| && |dispatched| <= limit
        invariant IntakeAt(old(Snapshot()), order, i, rows, supply, niche, now, jobs, dispatched)
      {
        jobs, dispatched := IngestTurn(old(Snapshot()), order, i, rows, supply, niche, now, jobs, dispatched);
        i := i + 1;
      }
    }

    /** The whole intake: the due objectives, the most urgent first, until enough were dispatched. */
    method IngestDueObjectives(niche: string, maxDispatch: int, supply: map<Id, Job>, now: real)
      returns (dispatched: seq<Id>, ghost due: seq<Id>, ghost ranked: seq<Id>, ghost jobs: seq<Job>)
      requires Supplies(Snapshot(), supply)
      modifies this`events, this`objectives
      ensures FirstRows(DueKeys(old(Snapshot()), niche, now), DUE_WINDOW, due)
      ensures FirstRows(RankKeys(old(Snapshot()), due, now), DUE_WINDOW, ranked)
      ensures JobsFor(ranked, supply, jobs)
      ensures ReadsDue(old(Snapshot()), niche, now, due) && ServesInOrder(old(Snapshot()), now, due, jobs)
      ensures Snapshot() == IntakeAll(old(Snapshot()), jobs, niche, now)
      ensures |dispatched| <= DispatchLimit(maxDispatch)
      ensures |jobs| < |ranked| ==> |dispatched| == DispatchLimit(maxDispatch)
      ensures events.Keys == old(events).Keys + Members(dispatched)
    {
      var picked := Select(DueKeys(Snapshot(), niche, now), DUE_WINDOW);
      var order := Select(RankKeys(Snapshot(), picked, now), DUE_WINDOW);
      due, ranked := picked, order;
      ghost var start := Snapshot();
      dispatched, jobs := IngestRanked(order, DispatchLimit(maxDispatch), supply, niche, now);
      ServesByUrgency(start, niche, now, due, ranked, supply, jobs);
    }
  }
}
