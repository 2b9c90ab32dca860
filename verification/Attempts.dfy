/** How often an event can be claimed. */
module Attempts {
  import opened Common
  import opened RowQuery
  import opened Schema
  import opened EventQueue
  import opened Scheduler
  import opened Machine
  import opened LiveEvents
  import opened Dependencies

  datatype Kind = Claims | CrashRequeues | Approvals | AutoApprovals

  /** The step is one of these happenings to this event. */
  ghost predicate Happens(s: Step, id: Id, kind: Kind)
    requires Next(s)
  {
    var db := s.before.db;
    match kind
    case Claims => s.act.Claim? && PickOf(db, s.act.niche, s.act.rows) == Some(id)
    case CrashRequeues =>
      s.act.Requeue? && id in db.events && Stale(db.events[id], s.act.niche, s.act.staleAfter, s.now)
    case Approvals =>
      s.act.Resolve? && s.act.approved && s.act.event == id && id in db.events && db.events[id].status.WaitingForInput?
    case AutoApprovals =>
      s.act.Complete? && s.act.event == id && AutoApproved(db, id, s.act.tick, s.act.trend, s.now)
  }

  ghost function Count(r: Run, id: Id, kind: Kind): nat
    requires forall s <- r :: Next(s)
  {
    if r == [] then 0
    else Count(r[..|r| - 1], id, kind) + (if Happens(r[|r| - 1], id, kind) then 1 else 0)
  }

  /** The four counts of one event so far. */
  datatype Tally = Tally(claims: nat, requeues: nat, approvals: nat, autos: nat)

  ghost function TallyOf(r: Run, id: Id): Tally
    requires forall s <- r :: Next(s)
  {
    Tally(Count(r, id, Claims), Count(r, id, CrashRequeues), Count(r, id, Approvals), Count(r, id, AutoApprovals))
  }

  ghost function Bump(t: Tally, s: Step, id: Id): Tally
    requires Next(s)
  {
    Tally(t.claims + (if Happens(s, id, Claims) then 1 else 0),
          t.requeues + (if Happens(s, id, CrashRequeues) then 1 else 0),
          t.approvals + (if Happens(s, id, Approvals) then 1 else 0),
          t.autos + (if Happens(s, id, AutoApprovals) then 1 else 0))
  }

  function Cap(e: Event): nat {
    if AutoCount(e) <= 20 then AutoCount(e) else 20
  }

  /** The books of one event: its attempts are its claims, the retry budget plus every return to
      the queue bounds them, and 20 automatic approvals fit between two operator decisions. */
  ghost predicate Books(db: Db, id: Id, t: Tally) {
    if id !in db.events then t == Tally(0, 0, 0, 0)
    else
      var e := db.events[id];
      && 1 <= e.maxAttempts <= 10
      && e.attempts == t.claims
      && e.attempts <= e.maxAttempts + t.requeues + t.approvals + t.autos
      && (e.status.Pending? ==> e.attempts < e.maxAttempts + t.requeues + t.approvals + t.autos)
      && t.autos <= 20 * t.approvals + (if e.status.Failed? then 20 else Cap(e))
  }

  lemma BooksStep(s: Step, id: Id, t: Tally)
    requires Next(s) && ClaimHeld(s.before) && Books(s.before.db, id, t)
    ensures Books(s.after.db, id, Bump(t, s, id))
  {
    match s.act
    case Enqueue(x, q) =>
    case Ingest(niche, job) =>
      IntakeOnlyAdds(s.before.db, job, niche, s.now);
      BooksIntake(s, id, t);
    case Claim(niche, rows) => BooksClaim(s, id, t);
    case Complete(x, tick, ids, rows) => BooksComplete(s, id, t);
    case Fail(x, c, retryable) => BooksFail(s, id, t);
    case Requeue(niche, staleAfter) => BooksRequeue(s, id, t);
    case Resolve(x, approved) => BooksResolve(s, id, t);
    case DispatchNow(x, niche, event, resume, lowRisk) =>
      DispatchOnlyAdds(s.before.db, x, event, niche, resume, lowRisk, s.now);
      BooksIntake(s, id, t);
    case _ =>
  }

  /** A new event, or none, and the old ones untouched. */
  ghost predicate OnlyAdds(a: map<Id, Event>, b: map<Id, Event>) {
    && (forall k <- a :: k in b && b[k] == a[k])
    && (forall k <- b :: k !in a ==> b[k].status.Pending? && b[k].attempts == 0 && 1 <= b[k].maxAttempts <= 10)
  }

  lemma IntakeOnlyAdds(db: Db, job: Job, niche: string, now: real)
    requires job.objective in db.objectives && job.event !in db.events
    ensures OnlyAdds(db.events, AfterIntake(db, job, niche, now).events)
  {
  }

  lemma DispatchOnlyAdds(db: Db, o: Id, event: Id, niche: string, resume: bool, lowRisk: bool, now: real)
    requires o in db.objectives && event !in db.events
    ensures OnlyAdds(db.events, AfterManualDispatch(db, o, event, niche, resume, lowRisk, now).events)
  {
  }

  lemma BooksIntake(s: Step, id: Id, t: Tally)
    requires Next(s) && (s.act.Ingest? || s.act.DispatchNow?) && Books(s.before.db, id, t)
    requires OnlyAdds(s.before.db.events, s.after.db.events)
    ensures Books(s.after.db, id, Bump(t, s, id))
  {
    assert Bump(t, s, id) == t;
  }

  lemma BooksClaim(s: Step, id: Id, t: Tally)
    requires Next(s) && s.act.Claim? && Books(s.before.db, id, t)
    ensures Books(s.after.db, id, Bump(t, s, id))
  {
    var pick := PickOf(s.before.db, s.act.niche, s.act.rows);
    if pick.Some? {
      assert pick.value in ClaimKeys(s.before.db, s.act.niche, s.now);
    }
  }

  lemma BooksComplete(s: Step, id: Id, t: Tally)
    requires Next(s) && s.act.Complete? && ClaimHeld(s.before) && Books(s.before.db, id, t)
    ensures Books(s.after.db, id, Bump(t, s, id))
  {
    if s.act.event == id {
      assert s.after.db.events[id] == CompletedEvent(s.before.db, id, s.act.tick, s.act.trend, s.now);
    }
  }

  lemma BooksFail(s: Step, id: Id, t: Tally)
    requires Next(s) && s.act.Fail? && ClaimHeld(s.before) && Books(s.before.db, id, t)
    ensures Books(s.after.db, id, Bump(t, s, id))
  {
  }

  lemma BooksRequeue(s: Step, id: Id, t: Tally)
    requires Next(s) && s.act.Requeue? && Books(s.before.db, id, t)
    ensures Books(s.after.db, id, Bump(t, s, id))
  {
  }

  lemma BooksResolve(s: Step, id: Id, t: Tally)
    requires Next(s) && s.act.Resolve? && Books(s.before.db, id, t)
    ensures Books(s.after.db, id, Bump(t, s, id))
  {
  }

  lemma {:induction false} BooksAlong(r: Run, id: Id)
    requires IsRun(r) && r != [] && Init(r[0].before)
    ensures ClaimHeld(r[|r| - 1].after)
    ensures Books(r[|r| - 1].after.db, id, TallyOf(r, id))
  {
    RunPrefix(r);
    var s, p := r[|r| - 1], r[..|r| - 1];
    if |r| == 1 {
      assert TallyOf(p, id) == Tally(0, 0, 0, 0);
    } else {
      BooksAlong(p, id);
      assert p[|p| - 1].after == s.before;
    }
    ClaimHeldStep(s);
    BooksStep(s, id, TallyOf(p, id));
    assert TallyOf(r, id) == Bump(TallyOf(p, id), s, id);
  }

  /** In every run an event is claimed at most its retry budget plus one time for each crash
      requeue, operator approval and automatic approval. */
  lemma ClaimsAreBounded(r: Run, id: Id)
    requires IsRun(r) && r != [] && Init(r[0].before)
    requires id in r[|r| - 1].after.db.events
    ensures r[|r| - 1].after.db.events[id].attempts == Count(r, id, Claims)
    ensures Count(r, id, Claims) <=
              r[|r| - 1].after.db.events[id].maxAttempts
              + Count(r, id, CrashRequeues) + Count(r, id, Approvals) + Count(r, id, AutoApprovals)
    ensures Count(r, id, AutoApprovals) <= 20 * (Count(r, id, Approvals) + 1)
    ensures Count(r, id, Claims) <= 30 + Count(r, id, CrashRequeues) + 21 * Count(r, id, Approvals)
  {
    BooksAlong(r, id);
  }

  // ----- automatic approvals in one stretch

  /** The automatic approvals counted since the last operator approval are still on the row. */
  ghost predicate AutosOnRow(db: Db, id: Id, n: nat) {
    if id !in db.events then n == 0
    else n <= if db.events[id].status.Failed? then 20 else Cap(db.events[id])
  }

  lemma AutosComplete(db: Db, id: Id, tick: Tick, rows: seq<Reflection>, now: real, n: nat)
    requires id in db.events && db.events[id].status.Processing? && AutosOnRow(db, id, n)
    ensures AutosOnRow(AfterComplete(db, id, tick, rows, now), id,
                       n + (if AutoApproved(db, id, tick, rows, now) then 1 else 0))
  {
    assert AfterComplete(db, id, tick, rows, now).events[id] == CompletedEvent(db, id, tick, rows, now);
  }

  lemma AutosResolve(db: Db, x: Id, approved: bool, now: real, id: Id, n: nat)
    requires AutosOnRow(db, id, n)
    requires !(approved && x == id && id in db.events && db.events[id].status.WaitingForInput?)
    ensures AutosOnRow(AfterResolve(db, x, approved, now), id, n)
  {
  }

  lemma AutosClaim(db: Db, pick: Option<Id>, now: real, id: Id, n: nat)
    requires AutosOnRow(db, id, n)
    requires pick.Some? ==> pick.value in db.events && db.events[pick.value].status.Pending?
    ensures AutosOnRow(AfterClaim(db, pick, now), id, n)
  {
  }

  lemma AutosRequeue(db: Db, niche: string, staleAfter: real, now: real, id: Id, n: nat)
    requires AutosOnRow(db, id, n)
    ensures AutosOnRow(AfterRequeue(db, niche, staleAfter, now), id, n)
  {
  }

  lemma AutosStep(s: Step, id: Id, n: nat)
    requires Next(s) && ClaimHeld(s.before) && AutosOnRow(s.before.db, id, n) && !Happens(s, id, Approvals)
    ensures AutosOnRow(s.after.db, id, n + (if Happens(s, id, AutoApprovals) then 1 else 0))
  {
    var db := s.before.db;
    match s.act
    case Ingest(niche, job) => IntakeOnlyAdds(db, job, niche, s.now);
    case DispatchNow(x, niche, event, resume, lowRisk) =>
      DispatchOnlyAdds(db, x, event, niche, resume, lowRisk, s.now);
    case Complete(x, tick, ids, rows) =>
      if x == id {
        AutosComplete(db, id, tick, rows, s.now, n);
      } else if id in db.events {
        CompleteLeaves(db, x, tick, rows, s.now, id);
      }
    case Resolve(x, approved) => AutosResolve(db, x, approved, s.now, id, n);
    case Claim(niche, rows) =>
      PickWasPending(db, niche, s.now, rows);
      AutosClaim(db, PickOf(db, niche, rows), s.now, id, n);
    case Requeue(niche, staleAfter) => AutosRequeue(db, niche, staleAfter, s.now, id, n);
    case _ =>
  }

  lemma HeldAt(r: Run, k: nat)
    requires IsRun(r) && k < |r| && Init(r[0].before)
    ensures ClaimHeld(r[k].before) && Next(r[k])
  {
    OrderedAlong(r, k);
    assert r[k] in r;
  }

  lemma CountSnoc(p: Run, s: Step, id: Id)
    requires Next(s) && forall x <- p :: Next(x)
    ensures Count(p + [s], id, AutoApprovals)
         == Count(p, id, AutoApprovals) + (if Happens(s, id, AutoApprovals) then 1 else 0)
  {
    assert (p + [s])[..|p|] == p;
  }

  lemma CountGrows(r: Run, id: Id, i: nat, k: nat)
    requires i < k <= |r| && forall m :: i <= m < k ==> Next(r[m])
    ensures Count(r[i..k], id, AutoApprovals)
         == Count(r[i..k - 1], id, AutoApprovals) + (if Happens(r[k - 1], id, AutoApprovals) then 1 else 0)
    ensures i == k - 1 ==> Count(r[i..k - 1], id, AutoApprovals) == 0
  {
    var p := r[i..k - 1];
    assert r[i..k] == p + [r[k - 1]];
    assert forall s <- p :: Next(s);
    CountSnoc(p, r[k - 1], id);
  }

  lemma {:induction false} AutosAlong(r: Run, id: Id, i: nat, k: nat)
    requires IsRun(r) && i < k <= |r| && Init(r[0].before)
    requires forall m :: i <= m < k ==> Next(r[m]) && !Happens(r[m], id, Approvals)
    ensures AutosOnRow(r[k - 1].after.db, id, Count(r[i..k], id, AutoApprovals))
  {
    var s := r[k - 1];
    HeldAt(r, k - 1);
    CountGrows(r, id, i, k);
    if i < k - 1 {
      AutosAlong(r, id, i, k - 1);
      assert r[k - 2].after == s.before;
    }
    AutosStep(s, id, Count(r[i..k - 1], id, AutoApprovals));
  }

  /** In any stretch of any run in which no operator approves it, an event is approved automatically
      at most 20 times. */
  lemma AutosPerStretch(r: Run, id: Id, i: nat, k: nat)
    requires IsRun(r) && i <= k <= |r| && (r != [] ==> Init(r[0].before))
    requires forall m :: i <= m < k ==> Next(r[m]) && !Happens(r[m], id, Approvals)
    ensures Count(r[i..k], id, AutoApprovals) <= 20
  {
    if i < k {
      AutosAlong(r, id, i, k);
    }
  }

  // ----- the whole queue

  ghost function TotalAttempts(events: map<Id, Event>): nat
    decreases |events|
  {
    if events == map[] then 0
    else
      var id :| id in events;
      events[id].attempts + TotalAttempts(events - {id})
  }

  /** Any key can be taken out first. */
  lemma {:induction false} TakeOut(events: map<Id, Event>, id: Id)
    requires id in events
    ensures TotalAttempts(events) == events[id].attempts + TotalAttempts(events - {id})
    decreases |events|
  {
    var k :| k in events && TotalAttempts(events) == events[k].attempts + TotalAttempts(events - {k});
    if k != id {
      TakeOut(events - {k}, id);
      TakeOut(events - {id}, k);
      assert events - {k} - {id} == events - {id} - {k};
    }
  }

  lemma {:induction false} AttemptsBounded(events: map<Id, Event>)
    requires forall id <- events :: events[id].attempts <= 30
    ensures TotalAttempts(events) <= 30 * |events|
    decreases |events|
  {
    if events != map[] {
      var id :| id in events;
      TakeOut(events, id);
      AttemptsBounded(events - {id});
    }
  }

  ghost function TotalClaims(r: Run): nat
    requires forall s <- r :: Next(s)
  {
    if r == [] then 0
    else
      TotalClaims(r[..|r| - 1]) + (if ClaimsSome(r[|r| - 1]) then 1 else 0)
  }

  ghost predicate ClaimsSome(s: Step)
    requires Next(s)
  {
    s.act.Claim? && PickOf(s.before.db, s.act.niche, s.act.rows).Some?
  }

  /** Same attempts everywhere, new events unclaimed: the total stays. */
  lemma {:induction false} SameTotal(a: map<Id, Event>, b: map<Id, Event>)
    requires a.Keys <= b.Keys
    requires forall id <- b :: b[id].attempts == if id in a then a[id].attempts else 0
    ensures TotalAttempts(a) == TotalAttempts(b)
    decreases |b|
  {
    if b != map[] {
      var id :| id in b;
      TakeOut(b, id);
      if id in a {
        TakeOut(a, id);
        SameTotal(a - {id}, b - {id});
      } else {
        SameTotal(a, b - {id});
      }
    }
  }

  lemma CompleteAttempts(db: Db, id: Id, tick: Tick, rows: seq<Reflection>, now: real)
    requires id in db.events
    ensures
      var events := AfterComplete(db, id, tick, rows, now).events;
      events.Keys == db.events.Keys && forall k <- events :: events[k].attempts == db.events[k].attempts
  {
  }

  lemma AttemptsMove(s: Step, id: Id)
    requires Next(s) && ClaimHeld(s.before) && id in s.after.db.events
    ensures s.after.db.events[id].attempts ==
      (if id in s.before.db.events then s.before.db.events[id].attempts else 0)
      + (if Happens(s, id, Claims) then 1 else 0)
  {
    match s.act
    case Ingest(niche, job) => IntakeOnlyAdds(s.before.db, job, niche, s.now);
    case DispatchNow(x, niche, event, resume, lowRisk) =>
      DispatchOnlyAdds(s.before.db, x, event, niche, resume, lowRisk, s.now);
    case Complete(x, tick, ids, rows) => CompleteAttempts(s.before.db, x, tick, rows, s.now);
    case _ =>
  }

  lemma TotalStep(s: Step)
    requires Next(s) && ClaimHeld(s.before)
    ensures TotalAttempts(s.after.db.events) == TotalAttempts(s.before.db.events)
      + (if ClaimsSome(s) then 1 else 0)
  {
    var a, b := s.before.db.events, s.after.db.events;
    forall id | id in b
      ensures b[id].attempts == (if id in a then a[id].attempts else 0) + (if Happens(s, id, Claims) then 1 else 0)
    {
      AttemptsMove(s, id);
    }
    EventsStay(s);
    if ClaimsSome(s) {
      var id := PickOf(s.before.db, s.act.niche, s.act.rows).value;
      TakeOut(a, id);
      TakeOut(b, id);
      SameTotal(a - {id}, b - {id});
    } else {
      SameTotal(a, b);
    }
  }

  lemma EventsStay(s: Step)
    requires Next(s) && ClaimHeld(s.before)
    ensures s.before.db.events.Keys <= s.after.db.events.Keys
  {
  }

  lemma {:induction false} TotalAlong(r: Run)
    requires IsRun(r) && r != [] && Init(r[0].before)
    ensures ClaimHeld(r[|r| - 1].after)
    ensures TotalAttempts(r[|r| - 1].after.db.events) == TotalClaims(r)
  {
    RunPrefix(r);
    var s, p := r[|r| - 1], r[..|r| - 1];
    if |r| == 1 {
      assert TotalClaims(p) == 0;
    } else {
      TotalAlong(p);
      assert p[|p| - 1].after == s.before;
    }
    ClaimHeldStep(s);
    TotalStep(s);
  }

  lemma {:induction false} NoneHappened(r: Run, id: Id, kind: Kind)
    requires forall s <- r :: Next(s) && !Happens(s, id, kind)
    ensures Count(r, id, kind) == 0
  {
    if r != [] {
      assert r[|r| - 1] in r;
      NoneHappened(r[..|r| - 1], id, kind);
    }
  }

  /** A failure is retried exactly when its class allows it and attempts are left; the event then
      waits a positive time of at most five minutes, and can be claimed exactly when that is over. */
  lemma RetryWaits(e: Event, c: FailureClass, retryable: bool, now: real)
    requires e.status.Processing?
    ensures
      var f := FailedEvent(e, c, retryable, now);
      && (f.status.Pending? <==>
            retryable && !c.Auth? && !c.Validation?
            && e.attempts < e.maxAttempts && (c.Unknown? ==> e.attempts < 2))
      && (!f.status.Pending? ==> f.status.Failed?)
      && (f.status.Pending? ==>
            && now < f.availableAt <= now + 300.0
            && forall t :: Eligible(f, e.niche, t) <==> t >= f.availableAt)
  {
  }

  /** The event a step fails, as it then lies in the queue. */
  ghost predicate Retries(s: Step, id: Id) {
    && s.act.Fail? && s.act.event == id
    && id in s.after.db.events && s.after.db.events[id].status.Pending?
  }

  lemma DelayGranted(s: Step, id: Id)
    requires Next(s) && Retries(s, id)
    ensures s.now < s.after.db.events[id].availableAt <= s.now + 300.0
  {
  }

  /** Before its time has come a pending event is left as it is. */
  lemma NotYetClaimed(s: Step, id: Id)
    requires Next(s) && ClaimHeld(s.before) && id in s.before.db.events
    requires s.before.db.events[id].status.Pending? && s.now < s.before.db.events[id].availableAt
    ensures id in s.after.db.events && s.after.db.events[id] == s.before.db.events[id]
  {
    if s.act.Claim? {
      PickWasPending(s.before.db, s.act.niche, s.now, s.act.rows);
    }
    PendingStays(s, id);
  }

  lemma ClockForward(r: Run, k: nat)
    requires IsRun(r) && 0 < k < |r|
    ensures r[k - 1].after == r[k].before && r[k - 1].now <= r[k].now
  {
    assert r[k - 1] in r && r[k] in r;
  }

  /** Over any run a retried event stays as the failure left it, and unclaimed, until its delay has
      passed; the delay is positive and at most five minutes. */
  lemma {:induction false} RetriedIsLeftAlone(r: Run, id: Id, i: nat, k: nat)
    requires IsRun(r) && i <= k < |r| && Init(r[0].before)
    requires Retries(r[i], id)
    requires r[k].now < r[i].after.db.events[id].availableAt
    ensures r[i].now < r[i].after.db.events[id].availableAt <= r[i].now + 300.0
    ensures id in r[k].after.db.events && r[k].after.db.events[id] == r[i].after.db.events[id]
  {
    HeldAt(r, k);
    if i < k {
      ClockForward(r, k);
      RetriedIsLeftAlone(r, id, i, k - 1);
      NotYetClaimed(r[k], id);
    } else {
      DelayGranted(r[i], id);
    }
  }

  /** Without crashes and operator approvals the daemon does a bounded amount of work: over a whole
      run it claims at most 30 times the number of events ever enqueued. */
  lemma WorkIsBounded(r: Run)
    requires IsRun(r) && r != [] && Init(r[0].before)
    requires forall s <- r, id <- s.before.db.events ::
               !Happens(s, id, CrashRequeues) && !Happens(s, id, Approvals)
    ensures TotalClaims(r) <= 30 * |r[|r| - 1].after.db.events|
  {
    var events := r[|r| - 1].after.db.events;
    TotalAlong(r);
    forall id | id in events ensures events[id].attempts <= 30 {
      ClaimsAreBounded(r, id);
      NoneHappened(r, id, CrashRequeues);
      NoneHappened(r, id, Approvals);
    }
    AttemptsBounded(events);
  }
}
