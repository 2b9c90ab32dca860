/** What each step of the machine leaves behind, in terms of the rows before and after it. */
module StepOutcomes {
  import opened Common
  import opened RowQuery
  import opened Schema
  import opened VerificationPolicy
  import opened EventQueue
  import opened Scheduler
  import opened Machine

  /** Nothing but the event `id` differs, and nothing but the objective `o`. */
  ghost predicate OnlyTouches(a: Db, b: Db, id: Option<Id>, o: Option<Id>) {
    && (forall k <- a.events :: k in b.events && (Some(k) != id ==> b.events[k] == a.events[k]))
    && (forall k <- b.events :: k in a.events || Some(k) == id)
    && (forall k <- a.objectives :: k in b.objectives && (Some(k) != o ==> b.objectives[k] == a.objectives[k]))
    && (forall k <- b.objectives :: k in a.objectives || Some(k) == o)
  }

  // ----- enqueue

  /** The new row is pending and unclaimed; a positive priority is kept up to 1000, otherwise the one
      derived from the text counts; the attempt budget lies between 1 and 10. */
  lemma EnqueueOutcome(s: Step)
    requires Next(s) && s.act.Enqueue?
    ensures
      var id, q, after := s.act.event, s.act.request, s.after.db;
      && OnlyTouches(s.before.db, after, Some(id), None) && after.reflections == s.before.db.reflections
      && id in after.events &&
      var e := after.events[id];
      && e.status.Pending? && e.attempts == 0 && e.startedAt.None?
      && e.niche == q.niche && e.deps == q.deps && e.metaObjective == q.metaObjective && e.parent == q.parent
      && e.availableAt == s.now && e.createdAt == s.now
      && (q.priority.Some? && 0 < q.priority.value <= 1000 ==> e.priority == q.priority.value)
      && (q.priority.Some? && q.priority.value > 1000 ==> e.priority == 1000)
      && ((q.priority.None? || q.priority.value <= 0) && q.derived <= 1000 ==> e.priority == q.derived)
      && 1 <= e.maxAttempts <= 10
      && (1 <= q.maxAttempts <= 10 ==> e.maxAttempts == q.maxAttempts)
      && (q.maxAttempts < 1 ==> e.maxAttempts == 1) && (q.maxAttempts > 10 ==> e.maxAttempts == 10)
  {
  }

  // ----- claim

  /** A dependency stored in the event's niche is not done. */
  ghost predicate Blocked(db: Db, niche: string, id: Id)
    requires id in db.events
  {
    exists d <- db.events[id].deps :: d in db.events && db.events[d].niche == niche && !db.events[d].status.Done?
  }

  lemma BlockedIsNotReady(db: Db, niche: string, id: Id)
    requires id in db.events
    ensures Blocked(db, niche, id) <==> !Ready(db, niche, db.events[id].deps)
  {
  }

  /** The first of the rows looked at that nothing blocks. */
  ghost predicate FirstFree(db: Db, niche: string, rows: seq<Id>, p: Id)
    requires forall id <- rows :: id in db.events
  {
    exists i :: 0 <= i < |rows| && rows[i] == p && !Blocked(db, niche, p)
      && forall j :: 0 <= j < i ==> Blocked(db, niche, rows[j])
  }

  lemma PickIsFirstFree(db: Db, niche: string, rows: seq<Id>)
    requires forall id <- rows :: id in db.events
    ensures FirstReady(db, niche, rows).None? ==> forall id <- rows :: Blocked(db, niche, id)
    ensures FirstReady(db, niche, rows).Some? ==> FirstFree(db, niche, rows, FirstReady(db, niche, rows).value)
  {
    forall id | id in rows ensures Blocked(db, niche, id) <==> !Ready(db, niche, db.events[id].deps) {
      BlockedIsNotReady(db, niche, id);
    }
    if FirstReady(db, niche, rows).Some? {
      var i := FirstReadyAt(db, niche, rows);
      assert rows[i] in rows && forall j :: 0 <= j < i ==> rows[j] in rows;
    }
  }

  /** Only pending rows of the niche whose time has come are looked at, 50 at most; the first one
      that nothing blocks is taken: it is processing, with one more attempt, from now. If all are
      blocked nothing changes. */
  lemma ClaimOutcome(s: Step)
    requires Next(s) && s.act.Claim?
    ensures
      var db, niche, rows := s.before.db, s.act.niche, s.act.rows;
      && |rows| <= 50
      && (forall id <- rows :: id in db.events && db.events[id].niche == niche
            && db.events[id].status.Pending? && db.events[id].availableAt <= s.now)
      && match s.after.claimed
         case None => s.after.db == db && forall id <- rows :: Blocked(db, niche, id)
         case Some(p) =>
           && OnlyTouches(db, s.after.db, Some(p), None)
           && p in s.after.db.events && p in db.events && FirstFree(db, niche, rows, p)
           && s.after.db.events[p]
                == db.events[p].(status := Processing, attempts := db.events[p].attempts + 1, startedAt := Some(s.now))
  {
    ClaimRows(s.before.db, s.act.niche, s.now, s.act.rows);
    PickIsFirstFree(s.before.db, s.act.niche, s.act.rows);
    ClaimTouches(s.before.db, s.after.claimed, s.now);
  }

  lemma ClaimTouches(db: Db, pick: Option<Id>, now: real)
    requires pick.Some? ==> pick.value in db.events
    ensures OnlyTouches(db, AfterClaim(db, pick, now), pick, None)
    ensures pick.None? ==> AfterClaim(db, pick, now) == db
  {
  }

  lemma ClaimRows(db: Db, niche: string, now: real, rows: seq<Id>)
    requires FirstRows(ClaimKeys(db, niche, now), CLAIM_WINDOW, rows)
    ensures |rows| <= 50
    ensures forall id <- rows :: id in db.events && db.events[id].niche == niche
              && db.events[id].status.Pending? && db.events[id].availableAt <= now
  {
  }

  // ----- failure

  /** In seconds: a first rate-limited attempt waits 10 and a first transient one 2; every further
      attempt doubles the wait, up to 300 and 120; an unknown failure waits 3 for each attempt. */
  lemma RetryInSeconds(e: Event, c: FailureClass, now: real)
    requires FailedEvent(e, c, true, now).status.Pending? && e.attempts >= 1
    ensures
      var wait := FailedEvent(e, c, true, now).availableAt - now;
      && (c.RateLimit? && e.attempts == 1 ==> wait == 10.0)
      && (c.Transient? && e.attempts == 1 ==> wait == 2.0)
      && (c.Unknown? ==> wait == 3.0 * e.attempts as real)
  {
    assert Pow2(0) == 1 && Pow2(1) == 2;
  }

  lemma RetryDoubles(e: Event, c: FailureClass, now: real)
    requires e.attempts >= 1 && (c.RateLimit? || c.Transient?) && e.status.Processing?
    requires FailedEvent(e.(attempts := e.attempts + 1), c, true, now).status.Pending?
    ensures FailedEvent(e, c, true, now).status.Pending?
    ensures
      var wait := FailedEvent(e, c, true, now).availableAt - now;
      var next := FailedEvent(e.(attempts := e.attempts + 1), c, true, now).availableAt - now;
      next == MinReal(if c.RateLimit? then 300.0 else 120.0, 2.0 * wait)
  {
    var n := e.attempts;
    assert Pow2(n) == 2 * Pow2(n - 1) && Pow2(n + 1) == 2 * Pow2(n);
  }

  /** A failing step looks at nothing but the event: it waits as above, or has failed for good. */
  lemma FailOutcome(s: Step)
    requires Next(s) && s.act.Fail?
    ensures
      var id := s.act.event;
      && OnlyTouches(s.before.db, s.after.db, Some(id), None) && s.after.claimed.None?
      && id in s.before.db.events && id in s.after.db.events
      && s.after.db.events[id] == FailedEvent(s.before.db.events[id], s.act.failure, s.act.retryable, s.now)
      && (s.after.db.events[id].status.Pending? || s.after.db.events[id].status.Failed?)
      && s.after.db.events[id].(status := Processing, availableAt := 0.0)
           == s.before.db.events[id].(status := Processing, availableAt := 0.0)
  {
  }

  // ----- requeue

  /** Exactly the processing rows of the niche that started more than `staleAfter` ago go back, all of
      them when it is not positive; nothing else about them changes, their attempts included. */
  lemma RequeueOutcome(s: Step, id: Id)
    requires Next(s) && s.act.Requeue? && id in s.before.db.events
    ensures s.after.db.events.Keys == s.before.db.events.Keys && s.after.db.objectives == s.before.db.objectives
    ensures
      var e := s.before.db.events[id];
      var stale := e.niche == s.act.niche && e.status.Processing?
        && (s.act.staleAfter <= 0.0 || (e.startedAt.Some? && s.now - e.startedAt.value > s.act.staleAfter));
      s.after.db.events[id] == if stale then e.(status := Pending, startedAt := None) else e
  {
  }

  // ----- approval and rejection

  /** An approval returns the waiting event to the queue with a clean automatic count, makes the
      objective its metadata names active and closes its escalation; nothing else changes. */
  lemma ApprovalOutcome(s: Step)
    requires Next(s) && s.act.Resolve? && s.act.approved
    requires s.act.event in s.before.db.events && s.before.db.events[s.act.event].status.WaitingForInput?
    ensures
      var id, a, b := s.act.event, s.before.db, s.after.db;
      var e := a.events[id];
      && OnlyTouches(a, b, Some(id), e.metaObjective) && b.reflections == a.reflections
      && b.events[id] == e.(status := Pending, availableAt := s.now, startedAt := None, autoCount := 0)
      && (e.metaObjective.Some? && e.metaObjective.value in a.objectives ==>
            var o := e.metaObjective.value;
            b.objectives[o] == a.objectives[o].(
              status := Active, policy := a.objectives[o].policy.(escalation := Resolved)))
      && (e.metaObjective.Some? && e.metaObjective.value !in a.objectives ==> b.objectives == a.objectives)
  {
  }

  /** A rejection fails the event, with a clean automatic count, and pauses its objective with an open
      escalation. */
  lemma RejectionOutcome(s: Step)
    requires Next(s) && s.act.Resolve? && !s.act.approved
    requires s.act.event in s.before.db.events && s.before.db.events[s.act.event].status.WaitingForInput?
    ensures
      var id, a, b := s.act.event, s.before.db, s.after.db;
      var e := a.events[id];
      && OnlyTouches(a, b, Some(id), e.metaObjective) && b.reflections == a.reflections
      && b.events[id] == e.(status := EventStatus.Failed, autoCount := 0)
      && (e.metaObjective.Some? && e.metaObjective.value in a.objectives ==>
            var o := e.metaObjective.value;
            b.objectives[o] == a.objectives[o].(
              status := Paused, policy := a.objectives[o].policy.(escalation := Open)))
      && (e.metaObjective.Some? && e.metaObjective.value !in a.objectives ==> b.objectives == a.objectives)
  {
  }

  /** Any other event is left alone. */
  lemma ResolveRefused(s: Step)
    requires Next(s) && s.act.Resolve?
    requires s.act.event in s.before.db.events ==> !s.before.db.events[s.act.event].status.WaitingForInput?
    ensures s.after.db == s.before.db
  {
  }

  // ----- objectives by hand

  lemma CreateOutcome(s: Step)
    requires Next(s) && s.act.Create?
    ensures
      var o := s.act.objective;
      && OnlyTouches(s.before.db, s.after.db, None, Some(o)) && o in s.after.db.objectives &&
      var row := s.after.db.objectives[o];
      && row.status.Active? && row.cadence == s.act.cadence && row.lastEvent.None? && row.createdAt == s.now
      && row.niche == s.act.niche && row.policy == s.act.policy && row.constraints == s.act.constraints
      && row.nextRun == (if s.act.nextRun.Some? then s.act.nextRun.value else s.now)
      && 1 <= row.priority <= 1000 && (1 <= s.act.priority <= 1000 ==> row.priority == s.act.priority)
  {
  }

  /** A given value replaces the stored one, everything else stays; resuming makes the objective due
      now unless a next run is given, drops its hold, and closes an open escalation unless the update
      brings a policy with one; pausing marks a policy without escalation as paused. */
  lemma ChangeOutcome(s: Step)
    requires Next(s) && s.act.Change?
    ensures
      var o, u := s.act.objective, s.act.update;
      && OnlyTouches(s.before.db, s.after.db, None, Some(o))
      && o in s.before.db.objectives && o in s.after.db.objectives &&
      var a, b := s.before.db.objectives[o], s.after.db.objectives[o];
      && b.status == (if u.status.Some? then u.status.value else a.status)
      && b.cadence == (if u.cadence.Some? then u.cadence.value else a.cadence)
      && b.constraints == (if u.constraints.Some? then u.constraints.value else a.constraints)
      && (u.priority.None? ==> b.priority == a.priority)
      && (u.priority.Some? ==> 1 <= b.priority <= 1000)
      && (u.priority.Some? && 1 <= u.priority.value <= 1000 ==> b.priority == u.priority.value)
      && (u.nextRun.Some? ==> b.nextRun == u.nextRun.value)
      && (u.nextRun.None? && u.status == Some(Active) ==> b.nextRun == s.now)
      && (u.nextRun.None? && u.status != Some(Active) ==> b.nextRun == a.nextRun)
      && b.lastEvent == a.lastEvent && b.niche == a.niche && b.createdAt == a.createdAt
  {
  }

  lemma ChangePolicyOutcome(s: Step)
    requires Next(s) && s.act.Change?
    ensures
      var o, u := s.act.objective, s.act.update;
      && o in s.before.db.objectives && o in s.after.db.objectives &&
      var p := if u.policy.Some? then u.policy.value else s.before.db.objectives[o].policy;
      var b := s.after.db.objectives[o].policy;
      && (u.status != Some(Active) && u.status != Some(Paused) ==> b == p)
      && (u.status == Some(Active) ==>
            && b.holdUntil.None? && b.holdReason.NoReason?
            && (p.escalation.Open? && u.policy.None? ==> b.escalation.Resolved?)
            && (!p.escalation.Open? || u.policy.Some? ==> b.escalation == p.escalation))
      && (u.status == Some(Paused) ==>
            && b.holdUntil == p.holdUntil && b.holdReason == p.holdReason
            && (p.escalation.NoEscalation? ==> b.escalation.EscalationPaused?)
            && (!p.escalation.NoEscalation? ==> b.escalation == p.escalation))
      && b.failStreak == p.failStreak && b.escalationEvent == p.escalationEvent
      && b.deferredUntil == p.deferredUntil && b.remediation == p.remediation
      && b.passStreak == p.passStreak && b.cadenceBefore == p.cadenceBefore
  {
  }

  // ----- a verification

  /** Failures in a row, this verification included. */
  ghost function Streak(s: Step, o: Id): nat
    requires Verifies(s, o)
  {
    if s.act.tick.passed then 0 else s.before.db.objectives[o].policy.failStreak + 1
  }

  ghost function Passing(rows: seq<Reflection>): set<nat> {
    set i: nat | i < |rows| && rows[i].passed
  }

  lemma {:induction false} PassCountIsCount(rows: seq<Reflection>)
    ensures |Passing(rows)| == PassCount(rows)
  {
    if rows != [] {
      var p := rows[..|rows| - 1];
      PassCountIsCount(p);
      assert Passing(rows) == Passing(p) + (if rows[|rows| - 1].passed then {|rows| - 1} else {});
    }
  }

  /** The newest reflections, newest first, show enough runs, few passes and a fall of the confidence. */
  ghost predicate Declining(c: Constraints, rows: seq<Reflection>) {
    && |rows| >= 1 && |rows| >= c.MinReflections()
    && FewPass(rows, c.PassRateMax())
    && rows[0].confidence + 0.08 < rows[|rows| - 1].confidence
    && rows[0].confidence + c.ConfDrop() <= rows[|rows| - 1].confidence
  }

  /** At most the given share of the runs passed. */
  ghost predicate FewPass(rows: seq<Reflection>, share: real) {
    |Passing(rows)| as real <= share * |rows| as real
  }

  ghost predicate NeedsRemedy(s: Step, o: Id)
    requires Verifies(s, o)
  {
    var c := s.before.db.objectives[o].constraints;
    c.remediationEnabled && !s.act.tick.passed && Streak(s, o) >= c.MinFailStreak() && Declining(c, s.act.trend)
  }

  lemma QuotientAtMost(p: real, n: real, x: real)
    requires n > 0.0
    ensures p / n <= x <==> p <= x * n
  {
    var q := p / n;
    assert q * n == p;
    if q <= x {
      assert (x - q) * n >= 0.0;
    } else {
      assert (q - x) * n > 0.0;
    }
  }

  lemma RateInFull(rows: seq<Reflection>, share: real)
    requires rows != []
    ensures TrendOf(rows).passRate.Some? && (TrendOf(rows).passRate.value <= share <==> FewPass(rows, share))
  {
    PassCountIsCount(rows);
    QuotientAtMost(PassCount(rows) as real, |rows| as real, share);
  }

  /** The trend but for its rate. */
  lemma FallInFull(rows: seq<Reflection>, drop: real)
    requires rows != []
    ensures TrendOf(rows).count == |rows|
    ensures TrendOf(rows).delta <= -drop <==> rows[0].confidence + drop <= rows[|rows| - 1].confidence
    ensures TrendOf(rows).direction.Down? <==> rows[0].confidence + 0.08 < rows[|rows| - 1].confidence
  {
  }

  predicate IsDeclining(c: Constraints, t: Trend) {
    && t.count >= c.MinReflections() && t.direction.Down?
    && t.passRate.Some? && t.passRate.value <= c.PassRateMax() && t.delta <= -c.ConfDrop()
  }

  lemma DecliningTrend(c: Constraints, rows: seq<Reflection>)
    ensures Declining(c, rows) <==> IsDeclining(c, TrendOf(rows))
  {
    if rows != [] {
      var t := TrendOf(rows);
      RateInFull(rows, c.PassRateMax());
      FallInFull(rows, c.ConfDrop());
      SameDecline(c, rows, t);
    }
  }

  lemma SameDecline(c: Constraints, rows: seq<Reflection>, t: Trend)
    requires rows != [] && t.count == |rows| && t.passRate.Some?
    requires t.passRate.value <= c.PassRateMax() <==> FewPass(rows, c.PassRateMax())
    requires t.delta <= -c.ConfDrop() <==> rows[0].confidence + c.ConfDrop() <= rows[|rows| - 1].confidence
    requires t.direction.Down? <==> rows[0].confidence + 0.08 < rows[|rows| - 1].confidence
    ensures Declining(c, rows) <==> IsDeclining(c, t)
  {
  }

  /** When a verification remediates. */
  lemma RemediatesExactly(s: Step, o: Id)
    requires Verifies(s, o)
    ensures Remediates(s, o) <==> NeedsRemedy(s, o)
  {
    DecliningTrend(s.before.db.objectives[o].constraints, s.act.trend);
  }

  /** The objective's deferral has not run out. */
  predicate DeferredStill(p: Policy, now: real) {
    p.escalation.Deferred? && p.deferredUntil.Some? && p.deferredUntil.value > now
  }

  ghost predicate NeedsOperator(s: Step, o: Id)
    requires Verifies(s, o)
  {
    var c, tick := s.before.db.objectives[o].constraints, s.act.tick;
    && !NeedsRemedy(s, o) && !DeferredStill(s.before.db.objectives[o].policy, s.now)
    && ((c.escalateOnWaiting && (tick.finalStatus.FinalWaitingForInput? || tick.finalStatus.FinalNeedsInput?))
        || (c.escalateOnFailStreak && !tick.passed && Streak(s, o) >= c.MaxFailStreak()))
  }

  lemma WindowIsDeferral(p: Policy, now: real)
    requires now >= 0.0
    ensures WindowActive(p, now) <==> DeferredStill(p, now)
  {
  }

  /** When a verification escalates: an operator is needed, and neither a remediation nor a running
      deferral comes first. */
  lemma EscalatesExactly(s: Step, o: Id)
    requires Verifies(s, o) && s.now >= 0.0
    ensures VerifyOutcome(s, o).Escalated() <==> NeedsOperator(s, o)
  {
    RemediatesExactly(s, o);
    WindowIsDeferral(s.before.db.objectives[o].policy, s.now);
  }

  // ----- a completion

  /** The event's own limit or else its objective's, one when neither says, at most 20. */
  function AutoApprovals(e: Event, c: Constraints): int {
    if e.autoMax.Some? then MaxInt(0, MinInt(e.autoMax.value, 20))
    else if c.autoApproveMax.Some? then MaxInt(0, MinInt(c.autoApproveMax.value, 20))
    else 1
  }

  /** An escalated event goes on without an operator: it is of low risk, nobody switched that off, and
      its limit is not reached. */
  ghost predicate GoesOn(s: Step, o: Id)
    requires Verifies(s, o)
  {
    var e, c := s.before.db.events[s.act.event], s.before.db.objectives[o].constraints;
    && NeedsOperator(s, o)
    && e.lowRisk
    && e.autoAllowed != Some(false) && (e.autoAllowed.None? ==> c.autoApproveStatusWaiting != Some(false))
    && MaxInt(0, e.autoCount) < AutoApprovals(e, c)
  }

  lemma AutoApprovedExactly(s: Step, o: Id)
    requires Verifies(s, o) && s.now >= 0.0
    ensures AutoApproved(s.before.db, s.act.event, s.act.tick, s.act.trend, s.now) <==> GoesOn(s, o)
  {
    EscalatesExactly(s, o);
    assert VerifiedObjective(s.before.db, s.act.event) == Some(o);
  }

  /** The event waits for an operator exactly when one is needed or the tick asks for input, unless it
      goes on by itself: then it is pending at once and the approval is counted. Otherwise it is done. */
  lemma CompletionOutcome(s: Step, o: Id)
    requires Next(s) && Verifies(s, o) && s.now >= 0.0
    ensures
      var id, a, b := s.act.event, s.before.db, s.after.db;
      && OnlyTouches(a, b, Some(id), Some(o)) && id in b.events && s.after.claimed.None?
      && b.events[id] ==
           if GoesOn(s, o) then
             a.events[id].(status := Pending, availableAt := s.now, startedAt := None,
                           autoCount := MaxInt(0, a.events[id].autoCount) + 1)
           else if NeedsOperator(s, o) || s.act.tick.finalStatus.FinalWaitingForInput? then
             a.events[id].(status := WaitingForInput)
           else a.events[id].(status := EventStatus.Done)
  {
    EscalatesExactly(s, o);
    AutoApprovedExactly(s, o);
    assert VerifiedObjective(s.before.db, s.act.event) == Some(o);
  }

  /** The run is reflected on under its objective, with the time of its first reflection. */
  lemma ReflectionOutcome(s: Step)
    requires Next(s) && s.act.Complete?
    ensures
      var id, a, b := s.act.event, s.before.db, s.after.db;
      && id in a.events &&
      match ContextOf(a.events[id])
      case None => b.reflections == a.reflections
      case Some(o) =>
        b.reflections == a.reflections[id := Reflection(
          o, s.act.tick.passed, s.act.tick.confidence, if id in a.reflections then a.reflections[id].createdAt else s.now)]
  {
  }

  /** The trend is read from reflections of the objective, newest first, and no newer one is left out. */
  lemma TrendIsNewest(s: Step, o: Id)
    requires Next(s) && Verifies(s, o)
    ensures
      var db, ids, rows := s.before.db, s.act.recent, s.act.trend;
      && |rows| == |ids| <= db.objectives[o].constraints.ReflectionWindow()
      && (forall i :: 0 <= i < |ids| ==>
            ids[i] in db.reflections && rows[i] == db.reflections[ids[i]] && rows[i].objective == o)
      && (forall i, j :: 0 <= i < j < |ids| ==> ids[i] != ids[j] && rows[i].createdAt >= rows[j].createdAt)
      && (forall k <- db.reflections :: db.reflections[k].objective == o && k !in ids ==>
            |ids| == db.objectives[o].constraints.ReflectionWindow()
            && forall i :: 0 <= i < |ids| ==> rows[i].createdAt >= db.reflections[k].createdAt)
  {
    var db, ids := s.before.db, s.act.recent;
    assert VerifiedObjective(db, s.act.event) == Some(o);
    TrendRows(db, o, ids, db.objectives[o].constraints.ReflectionWindow());
  }

  lemma TrendRows(db: Db, o: Id, ids: seq<Id>, limit: nat)
    requires FirstRows(TrendKeys(db, o), limit, ids)
    ensures |ids| <= limit
    ensures forall i :: 0 <= i < |ids| ==> ids[i] in db.reflections && db.reflections[ids[i]].objective == o
    ensures forall i, j :: 0 <= i < j < |ids| ==>
              ids[i] != ids[j] && db.reflections[ids[i]].createdAt >= db.reflections[ids[j]].createdAt
    ensures forall k <- db.reflections :: db.reflections[k].objective == o && k !in ids ==>
              |ids| == limit && forall i :: 0 <= i < |ids| ==>
                db.reflections[ids[i]].createdAt >= db.reflections[k].createdAt
  {
    var keys := TrendKeys(db, o);
    forall i | 0 <= i < |ids| ensures ids[i] in keys {
      assert ids[i] in ids;
    }
    forall k, i | k in keys && k !in ids && 0 <= i < |ids|
      ensures db.reflections[ids[i]].createdAt >= db.reflections[k].createdAt
    {
      assert ids[i] in ids && KeyLeq(keys[ids[i]], keys[k]);
    }
  }

  // ----- the verified objective

  /** An escalation pauses an active objective if it is set to; one that goes on by itself leaves it
      active, and without an escalation the status stays. */
  lemma StatusOutcome(s: Step, o: Id)
    requires Next(s) && Verifies(s, o) && s.now >= 0.0
    ensures o in s.after.db.objectives
    ensures
      var a, b := s.before.db.objectives[o], s.after.db.objectives[o];
      && (GoesOn(s, o) ==> b.status.Active?)
      && (NeedsOperator(s, o) && !GoesOn(s, o) ==>
            (b.status.Paused? <==> a.status.Paused? || (a.status.Active? && a.constraints.pauseOnEscalation))
            && (!b.status.Paused? ==> b.status == a.status))
      && (!NeedsOperator(s, o) ==> b.status == a.status)
  {
    EscalatesExactly(s, o);
    AutoApprovedExactly(s, o);
  }

  /** The cadence as a verification reads it: at most a day. */
  function Read(cadence: real): real {
    MinReal(MaxReal(cadence, 0.0), 86400.0)
  }

  /** The failure counter, and during a remediation the counter of passes. */
  lemma VerifyCounts(o: Objective, id: Id, tick: Tick, rows: seq<Reflection>, now: real)
    ensures
      var a, b := o.policy, OutcomeOf(o, id, tick, rows, now).objective.policy;
      && b.failStreak == (if tick.passed then 0 else a.failStreak + 1)
      && (InRemediation(a) && tick.passed ==> b.passStreak == MinInt(a.passStreak, 1000000) + 1)
      && (InRemediation(a) && !tick.passed ==> b.passStreak == 0)
      && (!InRemediation(a) && !OutcomeOf(o, id, tick, rows, now).remediated ==> b.passStreak == a.passStreak)
  {
  }

  lemma SettledCounts(db: Db, id: Id, tick: Tick, rows: seq<Reflection>, now: real, o: Id)
    requires Belongs(db, id, o) && o in db.objectives
    ensures o in AfterComplete(db, id, tick, rows, now).objectives
    ensures
      var b := AfterComplete(db, id, tick, rows, now).objectives[o].policy;
      var v := OutcomeOf(db.objectives[o], id, tick, rows, now).objective.policy;
      b.failStreak == v.failStreak && b.passStreak == v.passStreak
  {
  }

  lemma CounterOutcome(s: Step, o: Id)
    requires Next(s) && Verifies(s, o)
    ensures o in s.after.db.objectives
    ensures
      var a, b := s.before.db.objectives[o].policy, s.after.db.objectives[o].policy;
      && b.failStreak == Streak(s, o)
      && (InRemediation(a) && s.act.tick.passed ==> b.passStreak == MinInt(a.passStreak, 1000000) + 1)
      && (InRemediation(a) && !s.act.tick.passed ==> b.passStreak == 0)
      && (!InRemediation(a) && !NeedsRemedy(s, o) ==> b.passStreak == a.passStreak)
  {
    RemediatesExactly(s, o);
    VerifyCounts(s.before.db.objectives[o], s.act.event, s.act.tick, s.act.trend, s.now);
    SettledCounts(s.before.db, s.act.event, s.act.tick, s.act.trend, s.now, o);
  }

  /** The policy and the next run a remediation leaves. */
  predicate Deferring(a: Objective, b: Objective, until: real) {
    && b.policy.remediation.RemediationActive? && b.policy.passStreak == 0
    && b.policy.escalation.Deferred? && b.policy.deferredUntil == Some(until)
    && b.policy.holdUntil == Some(until) && b.policy.holdReason.AutoRemediationWindow?
    && b.policy.escalationEvent == a.policy.escalationEvent
    && b.policy.cadenceBefore == Some(Read(a.cadence))
    && b.nextRun == MaxReal(a.nextRun, until)
  }

  lemma RemediationDefers(o: Objective, id: Id, tick: Tick, rows: seq<Reflection>, now: real)
    requires now >= 0.0 && OutcomeOf(o, id, tick, rows, now).remediated
    ensures !OutcomeOf(o, id, tick, rows, now).Escalated()
    ensures Deferring(o, OutcomeOf(o, id, tick, rows, now).objective, now + o.constraints.RetryWindow())
  {
  }

  /** A cadence slowed down, from the base cadence if there is none. */
  function Slowed(c: Constraints, cadence: real): real {
    MaxReal(c.MinCadence(), (if cadence > 0.0 then cadence else c.BaseCadence()) * c.Slowdown())
  }

  lemma SlowedInFull(o: Objective)
    ensures SlowedCadence(o) == Slowed(o.constraints, Read(o.cadence))
  {
  }

  lemma RemediationReadsSlowed(o: Objective, id: Id, tick: Tick, rows: seq<Reflection>, now: real)
    requires OutcomeOf(o, id, tick, rows, now).remediated
    ensures OutcomeOf(o, id, tick, rows, now).objective.cadence == SlowedCadence(o)
  {
  }

  lemma RemediationSlows(o: Objective, id: Id, tick: Tick, rows: seq<Reflection>, now: real)
    requires OutcomeOf(o, id, tick, rows, now).remediated
    ensures OutcomeOf(o, id, tick, rows, now).objective.cadence == Slowed(o.constraints, Read(o.cadence))
  {
    SlowedInFull(o);
    RemediationReadsSlowed(o, id, tick, rows, now);
  }

  /** A remediation defers the objective for its retry window, holds it so long, slows it down from a
      base cadence or the one it had, and remembers that. */
  lemma RemedyOutcome(s: Step, o: Id)
    requires Next(s) && Verifies(s, o) && s.now >= 0.0 && NeedsRemedy(s, o)
    ensures o in s.after.db.objectives
    ensures
      var a, b := s.before.db.objectives[o], s.after.db.objectives[o];
      && Deferring(a, b, s.now + a.constraints.RetryWindow())
      && b.cadence == Slowed(a.constraints, Read(a.cadence))
  {
    RemediatesExactly(s, o);
    RemediationDefers(s.before.db.objectives[o], s.act.event, s.act.tick, s.act.trend, s.now);
    RemediationSlows(s.before.db.objectives[o], s.act.event, s.act.tick, s.act.trend, s.now);
    Unescalated(s.before.db, s.act.event, s.act.tick, s.act.trend, s.now, o);
  }

  lemma Unescalated(db: Db, id: Id, tick: Tick, rows: seq<Reflection>, now: real, o: Id)
    requires Belongs(db, id, o) && o in db.objectives
    requires !OutcomeOf(db.objectives[o], id, tick, rows, now).Escalated()
    ensures o in AfterComplete(db, id, tick, rows, now).objectives
    ensures AfterComplete(db, id, tick, rows, now).objectives[o]
         == OutcomeOf(db.objectives[o], id, tick, rows, now).objective
  {
  }

  /** An escalation that waits for the operator is open and names its event; one that goes on by itself
      is closed again, without a hold. Either way cadence and remediation stay. */
  lemma EscalationOutcome(s: Step, o: Id)
    requires Next(s) && Verifies(s, o) && s.now >= 0.0 && NeedsOperator(s, o)
    ensures o in s.after.db.objectives
    ensures
      var a, b := s.before.db.objectives[o], s.after.db.objectives[o];
      && b.policy.escalationEvent == Some(s.act.event)
      && (GoesOn(s, o) ==> b.policy.escalation.Resolved? && b.policy.holdUntil.None? && b.policy.holdReason.NoReason?)
      && (!GoesOn(s, o) ==>
            && b.policy.escalation.Open?
            && b.policy.holdUntil == a.policy.holdUntil && b.policy.holdReason == a.policy.holdReason)
      && b.policy.remediation == a.policy.remediation && b.policy.cadenceBefore == a.policy.cadenceBefore
      && b.policy.deferredUntil == a.policy.deferredUntil
      && b.cadence == Read(a.cadence) && b.nextRun == MaxReal(a.nextRun, 0.0)
  {
    EscalatesExactly(s, o);
    AutoApprovedExactly(s, o);
  }

  /** A failure that neither remediates nor escalates only counts; a running deferral keeps the next
      run behind it. */
  lemma MissOutcome(s: Step, o: Id)
    requires Next(s) && Verifies(s, o) && s.now >= 0.0
    requires !s.act.tick.passed && !NeedsRemedy(s, o) && !NeedsOperator(s, o)
    ensures o in s.after.db.objectives
    ensures
      var a, b := s.before.db.objectives[o], s.after.db.objectives[o];
      && b.policy.(failStreak := 0, passStreak := 0) == a.policy.(failStreak := 0, passStreak := 0)
      && b.cadence == Read(a.cadence)
      && (!DeferredStill(a.policy, s.now) ==> b.nextRun == MaxReal(a.nextRun, 0.0))
      && (DeferredStill(a.policy, s.now) && a.policy.deferredUntil.value <= s.now + SECONDS_PER_YEAR ==>
            b.nextRun == MaxReal(MaxReal(a.nextRun, 0.0), a.policy.deferredUntil.value))
  {
    RemediatesExactly(s, o);
    EscalatesExactly(s, o);
    AutoApprovedExactly(s, o);
  }

  /** The pass that ends a remediation. */
  ghost predicate EndsRemedy(s: Step, o: Id)
    requires Verifies(s, o)
  {
    var a := s.before.db.objectives[o];
    && s.act.tick.passed && !NeedsOperator(s, o) && InRemediation(a.policy)
    && MinInt(a.policy.passStreak, 1000000) + 1 >= a.constraints.RecoveryPasses()
  }

  lemma ResolvesExactly(s: Step, o: Id)
    requires Verifies(s, o) && s.now >= 0.0
    ensures VerifyOutcome(s, o).resolved <==> EndsRemedy(s, o)
  {
    EscalatesExactly(s, o);
  }

  /** It closes the escalation, drops the remediation's hold and restores the remembered cadence, at
      which the objective is due next, if not earlier. */
  lemma RecoveryOutcome(s: Step, o: Id)
    requires Next(s) && Verifies(s, o) && s.now >= 0.0 && EndsRemedy(s, o)
    ensures o in s.after.db.objectives
    ensures
      var a, b := s.before.db.objectives[o], s.after.db.objectives[o];
      && b.policy.remediation.Recovered? && b.policy.escalation.Resolved?
      && (a.policy.holdReason.AutoRemediationWindow? ==> b.policy.holdUntil.None? && b.policy.holdReason.NoReason?)
      && (!a.policy.holdReason.AutoRemediationWindow? ==>
            b.policy.holdUntil == a.policy.holdUntil && b.policy.holdReason == a.policy.holdReason)
      && b.cadence == Read(if a.policy.cadenceBefore.Some? then a.policy.cadenceBefore.value else a.cadence)
      && b.nextRun == (if b.cadence > 0.0 then MinReal(MaxReal(a.nextRun, 0.0), s.now + b.cadence)
                       else MaxReal(a.nextRun, 0.0))
  {
    ResolvesExactly(s, o);
    EscalatesExactly(s, o);
    AutoApprovedExactly(s, o);
  }

  /** Any other pass: a remediation goes on recovering, without its hold and deferral; outside one only
      an open escalation may close. */
  lemma PassOutcome(s: Step, o: Id)
    requires Next(s) && Verifies(s, o) && s.now >= 0.0
    requires s.act.tick.passed && !NeedsOperator(s, o) && !EndsRemedy(s, o)
    ensures o in s.after.db.objectives
    ensures
      var a, b := s.before.db.objectives[o], s.after.db.objectives[o];
      var kept := if InRemediation(a.policy) && a.policy.escalation.Deferred? then Resolved else a.policy.escalation;
      && (InRemediation(a.policy) ==> b.policy.remediation.Recovering?)
      && (!InRemediation(a.policy) ==> b.policy.remediation == a.policy.remediation)
      && b.policy.escalation == (if kept.Open? && a.constraints.autoCloseOnPass then Resolved else kept)
      && (InRemediation(a.policy) && a.policy.holdReason.AutoRemediationWindow? ==>
            b.policy.holdUntil.None? && b.policy.holdReason.NoReason?)
      && (!InRemediation(a.policy) || !a.policy.holdReason.AutoRemediationWindow? ==>
            b.policy.holdUntil == a.policy.holdUntil && b.policy.holdReason == a.policy.holdReason)
      && b.policy.cadenceBefore == a.policy.cadenceBefore && b.policy.deferredUntil == a.policy.deferredUntil
      && b.policy.escalationEvent == a.policy.escalationEvent
      && b.cadence == Read(a.cadence)
      && (InRemediation(a.policy) || !DeferredStill(a.policy, s.now) ==> b.nextRun == MaxReal(a.nextRun, 0.0))
      && (!InRemediation(a.policy) && DeferredStill(a.policy, s.now)
          && a.policy.deferredUntil.value <= s.now + SECONDS_PER_YEAR ==>
            b.nextRun == MaxReal(MaxReal(a.nextRun, 0.0), a.policy.deferredUntil.value))
  {
    ResolvesExactly(s, o);
    EscalatesExactly(s, o);
    AutoApprovedExactly(s, o);
  }

  /** What no verification touches. */
  lemma VerificationKeeps(s: Step, o: Id)
    requires Next(s) && Verifies(s, o)
    ensures o in s.after.db.objectives
    ensures
      var a, b := s.before.db.objectives[o], s.after.db.objectives[o];
      && b.niche == a.niche && b.priority == a.priority && b.lastEvent == a.lastEvent
      && b.constraints == a.constraints && b.createdAt == a.createdAt && b.tunedAt == a.tunedAt
  {
  }

  // ----- the intake

  /** The autotuner is switched on, its interval is over, and it had an answer. */
  predicate Tunes(a: Objective, job: Job, now: real) {
    && a.constraints.autotuneEnabled && job.tuned.Some?
    && (a.constraints.AutotuneInterval() <= 0.0
        || now - MaxReal(0.0, a.tunedAt.GetOr(0.0)) >= a.constraints.AutotuneInterval())
  }

  /** The row the intake decides on. */
  function Tuned(a: Objective, job: Job, now: real): Objective {
    if Tunes(a, job, now) then a.(constraints := job.tuned.value, tunedAt := Some(now)) else a
  }

  /** The last event, if it is stored. */
  predicate LastIs(db: Db, a: Objective, statuses: set<EventStatus>) {
    a.lastEvent.Some? && a.lastEvent.value in db.events && db.events[a.lastEvent.value].status in statuses
  }

  predicate HeldStill(p: Policy, now: real) {
    p.escalation.Deferred? && p.holdUntil.Some? && p.holdUntil.value > now
  }

  predicate PausesForDeadline(a: Objective, now: real) {
    && a.constraints.pauseOnDeadlineMiss && Deadline(a).Some? && Deadline(a).value <= now
  }

  /** Why the intake passes an objective over, in the order it asks. */
  datatype Turn = StillLive | StillHeld | AwaitsOperator | OneShotOver | DeadlineOver | Goes

  ghost function TurnOf(db: Db, job: Job, now: real): Turn
    requires job.objective in db.objectives
  {
    var a := db.objectives[job.objective];
    if LastIs(db, a, {Pending, Processing, WaitingForInput}) then StillLive
    else if HeldStill(a.policy, now) then StillHeld
    else if a.policy.escalation.Open? then AwaitsOperator
    else if a.cadence <= 0.0 && LastIs(db, a, {EventStatus.Done, EventStatus.Failed}) then OneShotOver
    else if PausesForDeadline(Tuned(a, job, now), now) then DeadlineOver
    else Goes
  }

  lemma TurnIsDecision(db: Db, job: Job, now: real)
    requires job.objective in db.objectives && now >= 0.0
    ensures
      match TurnOf(db, job, now)
      case StillLive => JobDecision(db, job, now).InFlight?
      case StillHeld => JobDecision(db, job, now).HeldDeferred?
      case AwaitsOperator => JobDecision(db, job, now).HeldOpen?
      case OneShotOver => JobDecision(db, job, now).CompletedOneShot?
      case DeadlineOver => JobDecision(db, job, now).PausedOnDeadline?
      case Goes => JobDecision(db, job, now).Dispatched?
    ensures !TurnOf(db, job, now).StillLive? ==>
      JobRow(db, job, now) == Tuned(db.objectives[job.objective], job, now)
    ensures TurnOf(db, job, now).StillLive? ==> JobRow(db, job, now) == db.objectives[job.objective]
  {
    TunedIsTuned(db.objectives[job.objective], job, now);
    HeldIsHold(db.objectives[job.objective].policy, now);
  }

  lemma TunedIsTuned(a: Objective, job: Job, now: real)
    requires now >= 0.0
    ensures TunedRow(a, job.tuned, now) == Tuned(a, job, now)
  {
  }

  lemma HeldIsHold(p: Policy, now: real)
    requires now >= 0.0
    ensures HeldStill(p, now) <==> p.escalation.Deferred? && Hold(p, now) > now
  {
  }

  /** The row a skipped objective is left with. */
  ghost predicate Skipped(turn: Turn, t: Objective, b: Objective, now: real) {
    match turn
    case StillLive => true
    case StillHeld =>
      && b.status == t.status && b.policy.escalation.Deferred? && b.policy.holdUntil == Some(b.nextRun)
      && !b.policy.holdReason.NoReason?
      && (t.policy.holdUntil.Some? && t.policy.holdUntil.value <= now + SECONDS_PER_YEAR ==>
            b.nextRun == MaxReal(t.nextRun, t.policy.holdUntil.value))
    case AwaitsOperator =>
      && b.status == t.status && b.policy.escalation.Open? && b.policy.holdUntil == Some(b.nextRun)
      && b.policy.holdReason.EscalationIsOpen?
      && b.nextRun == MaxReal(t.nextRun, now + t.constraints.ApprovalCooldown())
    case OneShotOver =>
      && b.status.Completed? && b.nextRun == t.nextRun
      && b.policy.escalation == if t.policy.escalation.Deferred? then Resolved else t.policy.escalation
    case DeadlineOver => b == t.(status := Paused)
    case Goes => false
  }

  /** An objective that does not go is passed over without an event: one with a live event untouched,
      a held one until its hold ends, one that awaits the operator for the cooldown, a one-shot that is
      over for good, one past its deadline until someone resumes it. */
  lemma SkipOutcome(s: Step)
    requires Next(s) && s.act.Ingest? && s.now >= 0.0
    requires !TurnOf(s.before.db, s.act.job, s.now).Goes?
    ensures
      var o, turn := s.act.job.objective, TurnOf(s.before.db, s.act.job, s.now);
      && OnlyTouches(s.before.db, s.after.db, None, Some(o))
      && (turn.StillLive? ==> s.after.db == s.before.db)
      && o in s.before.db.objectives && o in s.after.db.objectives
      && (!turn.StillLive? ==>
            var t, b := Tuned(s.before.db.objectives[o], s.act.job, s.now), s.after.db.objectives[o];
            Skipped(turn, t, b, s.now) && b.lastEvent == t.lastEvent && b.cadence == t.cadence
            && b.constraints == t.constraints && b.tunedAt == t.tunedAt)
  {
    TurnIsDecision(s.before.db, s.act.job, s.now);
    SkipShape(s.before.db, s.act.job, s.act.niche, s.now);
  }

  lemma SkipShape(db: Db, job: Job, niche: string, now: real)
    requires job.objective in db.objectives && !JobDecision(db, job, now).Dispatched?
    ensures AfterIntake(db, job, niche, now)
         == db.(objectives := db.objectives[
              job.objective := IntakeRow(JobRow(db, job, now), JobDecision(db, job, now), job.event, now)])
  {
  }

  /** An event as a dispatch stores it: pending now, with the objective as context and parent, its
      effective priority, three attempts, and the objective's settings on automatic approval. */
  predicate DispatchedEvent(e: Event, row: Objective, o: Id, niche: string, lowRisk: bool, now: real) {
    && e.niche == niche && e.metaObjective == Some(o) && e.parent == Some(o) && e.deps == []
    && e.status.Pending? && e.attempts == 0 && e.maxAttempts == 3
    && e.priority == EffectivePriority(row, now)
    && e.availableAt == now && e.createdAt == now
    && e.autoCount == 0 && e.lowRisk == lowRisk
    && e.autoMax == row.constraints.autoApproveMax && e.autoAllowed == row.constraints.autoApproveStatusWaiting
  }

  /** The row a dispatch leaves: a recurring objective is due again exactly one cadence later, the event
      is its last one, and the hold is gone. */
  predicate DispatchedFrom(b: Objective, t: Objective, event: Id, now: real) {
    && b.lastEvent == Some(event)
    && b.nextRun == (if t.cadence > 0.0 then now + t.cadence else now)
    && b.policy == t.policy.(holdUntil := None, holdReason := NoReason)
    && b.status == t.status && b.cadence == t.cadence && b.priority == t.priority
    && b.constraints == t.constraints && b.tunedAt == t.tunedAt
  }

  lemma GoOutcome(s: Step)
    requires Next(s) && s.act.Ingest? && s.now >= 0.0
    requires TurnOf(s.before.db, s.act.job, s.now).Goes?
    ensures
      var o, id := s.act.job.objective, s.act.job.event;
      && OnlyTouches(s.before.db, s.after.db, Some(id), Some(o)) && IngestDispatches(s, o)
      && o in s.before.db.objectives && o in s.after.db.objectives && id in s.after.db.events &&
      var t := Tuned(s.before.db.objectives[o], s.act.job, s.now);
      && DispatchedEvent(s.after.db.events[id], t, o, s.act.niche, s.act.job.lowRisk, s.now)
      && DispatchedFrom(s.after.db.objectives[o], t, id, s.now)
  {
    TurnIsDecision(s.before.db, s.act.job, s.now);
    GoShape(s.before.db, s.act.job, s.act.niche, s.now);
    assert s.act.job.event !in s.before.db.events;
  }

  lemma GoShape(db: Db, job: Job, niche: string, now: real)
    requires job.objective in db.objectives && JobDecision(db, job, now).Dispatched?
    ensures
      var row, after := JobRow(db, job, now), AfterIntake(db, job, niche, now);
      && after.events == db.events[job.event :=
           EnqueuedEvent(DispatchRequest(row, job.objective, niche, job.lowRisk, now), |db.events|, now)]
      && after.objectives == db.objectives[job.objective := DispatchedRow(row, job.event, now)]
  {
  }

  /** Dispatching by hand: only the niche and the status count, a paused objective may be resumed first,
      and the rest is as in the intake. */
  lemma ManualDispatchOutcome(s: Step)
    requires Next(s) && s.act.DispatchNow?
    ensures
      var o, id := s.act.objective, s.act.event;
      && OnlyTouches(s.before.db, s.after.db, Some(id), Some(o))
      && o in s.before.db.objectives && o in s.after.db.objectives &&
      var a := s.before.db.objectives[o];
      var resumes := s.act.resume && a.status.Paused?;
      (id in s.after.db.events <==> a.niche == s.act.niche && (a.status.Active? || resumes))
  {
    assert s.act.event !in s.before.db.events;
  }

  lemma ManualDispatchRow(s: Step)
    requires Next(s) && s.act.DispatchNow? && s.act.event in s.after.db.events
    ensures
      var o, id := s.act.objective, s.act.event;
      && o in s.before.db.objectives && o in s.after.db.objectives &&
      var a, b := s.before.db.objectives[o], s.after.db.objectives[o];
      && b.status.Active? && b.lastEvent == Some(id) && b.cadence == a.cadence
      && b.nextRun == (if a.cadence > 0.0 then s.now + a.cadence else s.now)
      && b.policy.holdUntil.None? && b.policy.holdReason.NoReason?
      && b.policy.escalation == (if a.status.Paused? && a.policy.escalation.Open? then Resolved else a.policy.escalation)
      && s.after.db.events[id].parent == Some(o) && s.after.db.events[id].metaObjective == Some(o)
  {
    assert s.act.event !in s.before.db.events;
  }
}
