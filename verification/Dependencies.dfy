/** An event starts only after its dependencies are done; and a queue with nothing in the way moves. */
module Dependencies {
  import opened Common
  import opened RowQuery
  import opened Schema
  import opened EventQueue
  import opened Scheduler
  import opened Machine
  import opened LiveEvents

  /** Dependencies of the event point to earlier rows only, and if it has ever been claimed those
      in its niche are finished. */
  ghost predicate OrderedAt(db: Db, id: Id)
    requires id in db.events
  {
    var e := db.events[id];
    && e.serial < |db.events|
    && (forall d <- e.deps :: d in db.events ==> db.events[d].serial < e.serial)
    && (!e.status.Pending? ==> e.attempts > 0)
    && (e.attempts > 0 ==> Ready(db, e.niche, e.deps))
  }

  ghost predicate Ordered(db: Db) {
    forall id <- db.events :: OrderedAt(db, id)
  }

  /** What a step may do to a stored event: nothing to what identifies it, nothing to a finished
      one's status, and an attempt only when its dependencies are done. */
  ghost predicate Kept(a: Db, b: Db, id: Id)
    requires id in a.events && id in b.events
  {
    var e, f := a.events[id], b.events[id];
    && f.niche == e.niche && f.serial == e.serial && f.deps == e.deps
    && f.attempts >= e.attempts
    && (e.status.Done? || e.status.Failed? ==> f.status == e.status)
    && (f.attempts > e.attempts ==> Ready(a, e.niche, e.deps))
    && (!f.status.Pending? ==> !e.status.Pending? || f.attempts > 0)
  }

  ghost predicate Evolves(a: Db, b: Db) {
    a.events.Keys <= b.events.Keys && forall id <- a.events :: Kept(a, b, id)
  }

  /** A new row is pending, unclaimed, last in order, and mentioned by nothing stored. */
  ghost predicate New(a: Db, b: Db, id: Id)
    requires id in b.events
  {
    && b.events.Keys == a.events.Keys + {id} && id !in a.events
    && b.events[id].serial == |a.events|
    && b.events[id].status.Pending? && b.events[id].attempts == 0
    && id !in b.events[id].deps
    && forall k <- a.events :: id !in a.events[k].deps
  }

  ghost predicate Adds(a: Db, b: Db) {
    forall id <- b.events :: id in a.events || New(a, b, id)
  }

  /** One row rewritten as a step may, all others untouched. */
  lemma UpdateEvolves(a: Db, b: Db, id: Id)
    requires id in a.events && id in b.events && b.events == a.events[id := b.events[id]] && Kept(a, b, id)
    ensures Evolves(a, b) && Adds(a, b)
  {
    forall k | k in a.events ensures Kept(a, b, k) {
      if k != id {
        KeptSame(a, b, k);
      }
    }
  }

  lemma KeptSame(a: Db, b: Db, k: Id)
    requires k in a.events && k in b.events && b.events[k] == a.events[k]
    ensures Kept(a, b, k)
  {
  }

  lemma SameEvolves(a: Db, b: Db)
    requires b.events == a.events
    ensures Evolves(a, b) && Adds(a, b)
  {
    forall k | k in a.events ensures Kept(a, b, k) {
      KeptSame(a, b, k);
    }
  }

  lemma AppendEvolves(a: Db, b: Db, id: Id)
    requires id !in a.events && id in b.events && b.events == a.events[id := b.events[id]]
    requires New(a, b, id)
    ensures Evolves(a, b) && Adds(a, b)
  {
    forall k | k in a.events ensures Kept(a, b, k) {
      KeptSame(a, b, k);
    }
  }

  lemma ClaimEvolves(db: Db, niche: string, now: real, rows: seq<Id>)
    requires FirstRows(ClaimKeys(db, niche, now), CLAIM_WINDOW, rows)
    ensures forall id <- rows :: id in db.events
    ensures Evolves(db, AfterClaim(db, FirstReady(db, niche, rows), now))
    ensures Adds(db, AfterClaim(db, FirstReady(db, niche, rows), now))
  {
    PickWasPending(db, niche, now, rows);
    var pick := FirstReady(db, niche, rows);
    if pick.Some? {
      UpdateEvolves(db, AfterClaim(db, pick, now), pick.value);
    } else {
      SameEvolves(db, db);
    }
  }

  lemma CompleteEvolves(db: Db, id: Id, tick: Tick, rows: seq<Reflection>, now: real)
    requires id in db.events && db.events[id].status.Processing?
    ensures Evolves(db, AfterComplete(db, id, tick, rows, now)) && Adds(db, AfterComplete(db, id, tick, rows, now))
  {
    var after := AfterComplete(db, id, tick, rows, now);
    assert after.events == db.events[id := CompletedEvent(db, id, tick, rows, now)];
    CompletedKept(db, id, tick, rows, now);
    UpdateEvolves(db, after, id);
  }

  lemma CompletedKept(db: Db, id: Id, tick: Tick, rows: seq<Reflection>, now: real)
    requires id in db.events && db.events[id].status.Processing?
    ensures id in AfterComplete(db, id, tick, rows, now).events
    ensures Kept(db, AfterComplete(db, id, tick, rows, now), id)
  {
  }

  lemma EnqueueEvolves(db: Db, id: Id, q: Request, now: real)
    requires Fresh(db, id) && id !in q.deps
    ensures New(db, AfterEnqueue(db, id, q, now), id)
    ensures Evolves(db, AfterEnqueue(db, id, q, now)) && Adds(db, AfterEnqueue(db, id, q, now))
  {
    AppendEvolves(db, AfterEnqueue(db, id, q, now), id);
  }

  /** Only the events of a state matter here. */
  lemma EvolvesByEvents(a: Db, b: Db, c: Db)
    requires Evolves(a, b) && Adds(a, b) && c.events == b.events
    ensures Evolves(a, c) && Adds(a, c)
  {
    forall k | k in a.events ensures Kept(a, c, k) {
      assert Kept(a, b, k);
    }
    forall k | k in c.events && k !in a.events ensures New(a, c, k) {
      assert New(a, b, k);
    }
  }

  lemma IntakeEvolves(db: Db, job: Job, niche: string, now: real)
    requires job.objective in db.objectives && Fresh(db, job.event)
    ensures Evolves(db, AfterIntake(db, job, niche, now)) && Adds(db, AfterIntake(db, job, niche, now))
  {
    var after := AfterIntake(db, job, niche, now);
    if JobDecision(db, job, now).Dispatched? {
      var q := DispatchRequest(JobRow(db, job, now), job.objective, niche, job.lowRisk, now);
      EnqueueEvolves(db, job.event, q, now);
      EvolvesByEvents(db, AfterEnqueue(db, job.event, q, now), after);
    } else {
      SameEvolves(db, after);
    }
  }

  lemma DispatchEvolves(db: Db, o: Id, event: Id, niche: string, resume: bool, lowRisk: bool, now: real)
    requires o in db.objectives && Fresh(db, event)
    ensures
      var after := AfterManualDispatch(db, o, event, niche, resume, lowRisk, now);
      Evolves(db, after) && Adds(db, after)
  {
    var after := AfterManualDispatch(db, o, event, niche, resume, lowRisk, now);
    var row := ResumedRow(db.objectives[o], resume, now);
    if row.niche != niche || !row.status.Active? {
      SameEvolves(db, after);
    } else {
      var q := DispatchRequest(row, o, niche, lowRisk, now);
      EnqueueEvolves(db, event, q, now);
      EvolvesByEvents(db, AfterEnqueue(db, event, q, now), after);
    }
  }

  lemma FailEvolves(db: Db, id: Id, c: FailureClass, retryable: bool, now: real)
    requires id in db.events && db.events[id].status.Processing?
    ensures Evolves(db, AfterFail(db, id, c, retryable, now)) && Adds(db, AfterFail(db, id, c, retryable, now))
  {
    UpdateEvolves(db, AfterFail(db, id, c, retryable, now), id);
  }

  lemma RequeueEvolves(db: Db, niche: string, staleAfter: real, now: real)
    ensures Evolves(db, AfterRequeue(db, niche, staleAfter, now)) && Adds(db, AfterRequeue(db, niche, staleAfter, now))
  {
    var after := AfterRequeue(db, niche, staleAfter, now);
    assert after.events.Keys == db.events.Keys;
    forall k | k in db.events ensures Kept(db, after, k) {
    }
  }

  lemma ResolveEvolves(db: Db, id: Id, approved: bool, now: real)
    ensures Evolves(db, AfterResolve(db, id, approved, now)) && Adds(db, AfterResolve(db, id, approved, now))
  {
    var after := AfterResolve(db, id, approved, now);
    if id in db.events && db.events[id].status.WaitingForInput? {
      UpdateEvolves(db, after, id);
    } else {
      SameEvolves(db, after);
    }
  }

  /** Every step keeps what is stored and adds at most a row that nothing mentions. */
  lemma StepEvolves(s: Step)
    requires Next(s) && ClaimHeld(s.before)
    ensures Evolves(s.before.db, s.after.db) && Adds(s.before.db, s.after.db)
  {
    var db := s.before.db;
    match s.act
    case Enqueue(id, q) => EnqueueEvolves(db, id, q, s.now);
    case Ingest(niche, job) => IntakeEvolves(db, job, niche, s.now);
    case Claim(niche, rows) => ClaimEvolves(db, niche, s.now, rows);
    case Complete(id, tick, ids, rows) => CompleteEvolves(db, id, tick, rows, s.now);
    case Fail(id, c, retryable) => FailEvolves(db, id, c, retryable, s.now);
    case Requeue(niche, staleAfter) => RequeueEvolves(db, niche, staleAfter, s.now);
    case Resolve(id, approved) => ResolveEvolves(db, id, approved, s.now);
    case DispatchNow(x, niche, event, resume, lowRisk) => DispatchEvolves(db, x, event, niche, resume, lowRisk, s.now);
    case _ => SameEvolves(db, s.after.db);
  }

  lemma OrderedAtStep(a: Db, b: Db, id: Id)
    requires Ordered(a) && Evolves(a, b) && Adds(a, b) && id in b.events
    ensures OrderedAt(b, id)
  {
    assert |a.events| <= |b.events| by { Grows(a, b); }
    if id in a.events {
      assert OrderedAt(a, id) && Kept(a, b, id);
      forall d | d in b.events[id].deps && d in b.events
        ensures b.events[d].serial < b.events[id].serial
        ensures b.events[id].attempts > 0 && b.events[d].niche == b.events[id].niche ==> b.events[d].status.Done?
      {
        assert d in a.events || New(a, b, d);
        assert Kept(a, b, d);
      }
    } else {
      assert New(a, b, id);
      assert |b.events.Keys| == |a.events.Keys| + 1;
      forall d | d in b.events[id].deps && d in b.events ensures b.events[d].serial < b.events[id].serial {
        assert Kept(a, b, d) && OrderedAt(a, d);
      }
    }
  }

  lemma Grows(a: Db, b: Db)
    requires Evolves(a, b)
    ensures |a.events| <= |b.events|
  {
    var rest := b.events.Keys - a.events.Keys;
    assert b.events.Keys == a.events.Keys + rest;
  }

  /** In every reachable state claimed events have only finished dependencies, and every step keeps
      finished events finished. */
  lemma {:induction false} OrderedAlong(r: Run, k: nat)
    requires IsRun(r) && k < |r| && Init(r[0].before)
    ensures ClaimHeld(r[k].before) && Ordered(r[k].before.db)
    ensures ClaimHeld(r[k].after) && Ordered(r[k].after.db)
    ensures Evolves(r[k].before.db, r[k].after.db)
  {
    assert r[k] in r;
    if k > 0 {
      OrderedAlong(r, k - 1);
      assert r[k - 1].after == r[k].before;
    }
    ClaimHeldStep(r[k]);
    StepEvolves(r[k]);
    forall id | id in r[k].after.db.events ensures OrderedAt(r[k].after.db, id) {
      OrderedAtStep(r[k].before.db, r[k].after.db, id);
    }
  }

  /** Stored events stay, with the same niche and dependencies, and finished ones stay finished. */
  lemma {:induction false} EvolvesAlong(r: Run, i: nat, k: nat, id: Id)
    requires IsRun(r) && i <= k < |r| && Init(r[0].before)
    requires id in r[i].after.db.events
    ensures id in r[k].after.db.events
    ensures
      var e, f := r[i].after.db.events[id], r[k].after.db.events[id];
      && f.niche == e.niche && f.deps == e.deps
      && f.attempts >= e.attempts
      && (e.status.Done? || e.status.Failed? ==> f.status == e.status)
  {
    if i < k {
      EvolvesAlong(r, i, k - 1, id);
      OrderedAlong(r, k);
      assert r[k - 1].after == r[k].before;
      assert Kept(r[k].before.db, r[k].after.db, id);
    }
  }

  // ----- chains

  /** A plan as `enqueue --plan` stores it: each step depends on the one before. */
  ghost predicate Chain(db: Db, ids: seq<Id>) {
    && (forall id <- ids :: id in db.events)
    && (forall i :: 0 < i < |ids| ==>
          db.events[ids[i]].deps == [ids[i - 1]] && db.events[ids[i]].niche == db.events[ids[i - 1]].niche)
  }

  /** The steps of a plan enqueued one after the other. */
  function AfterPlan(db: Db, ids: seq<Id>, q: Request, now: real): Db {
    if ids == [] then db
    else
      var n := |ids| - 1;
      AfterEnqueue(
        AfterPlan(db, ids[..n], q, now), ids[n],
        q.(parent := if n == 0 then None else Some(ids[0]), deps := if n == 0 then [] else [ids[n - 1]]),
        now)
  }

  lemma PlanOne(db: Db, ids: seq<Id>, i: nat, q: Request, now: real)
    requires i < |ids|
    ensures AfterPlan(db, ids[..i + 1], q, now) ==
      AfterEnqueue(
        AfterPlan(db, ids[..i], q, now), ids[i],
        q.(parent := if i == 0 then None else Some(ids[0]), deps := if i == 0 then [] else [ids[i - 1]]),
        now)
  {
    var p := ids[..i + 1];
    assert p[..i] == ids[..i] && p[i] == ids[i] && (i > 0 ==> p[i - 1] == ids[i - 1] && p[0] == ids[0]);
  }

  lemma {:induction false} PlanRow(db: Db, ids: seq<Id>, q: Request, now: real, j: nat)
    requires Distinct(ids) && j < |ids|
    ensures
      var events := AfterPlan(db, ids, q, now).events;
      && ids[j] in events
      && events[ids[j]].niche == q.niche
      && events[ids[j]].deps == (if j == 0 then [] else [ids[j - 1]])
      && events[ids[j]].parent == (if j == 0 then None else Some(ids[0]))
      && events[ids[j]].status.Pending? && events[ids[j]].attempts == 0
  {
    var n := |ids| - 1;
    if j < n {
      PlanRow(db, ids[..n], q, now, j);
      assert ids[..n][j] == ids[j] != ids[n];
    }
  }

  lemma {:induction false} PlanKeeps(db: Db, ids: seq<Id>, q: Request, now: real, id: Id)
    requires id in db.events && id !in ids
    ensures
      var events := AfterPlan(db, ids, q, now).events;
      id in events && events[id] == db.events[id]
  {
    if ids != [] {
      var n := |ids| - 1;
      assert ids[n] in ids;
      PlanKeeps(db, ids[..n], q, now, id);
    }
  }

  /** A stored plan is a chain under its first step, none of it has started, and storing it touches
      nothing else. */
  lemma PlanIsChain(db: Db, ids: seq<Id>, q: Request, now: real)
    requires Distinct(ids) && forall id <- ids :: id !in db.events
    ensures Chain(AfterPlan(db, ids, q, now), ids)
    ensures forall id <- ids :: AfterPlan(db, ids, q, now).events[id].attempts == 0
    ensures forall j :: 0 <= j < |ids| ==>
      AfterPlan(db, ids, q, now).events[ids[j]].parent == if j == 0 then None else Some(ids[0])
    ensures forall id <- db.events ::
      id in AfterPlan(db, ids, q, now).events && AfterPlan(db, ids, q, now).events[id] == db.events[id]
  {
    var b := AfterPlan(db, ids, q, now);
    forall j | 0 <= j < |ids|
      ensures ids[j] in b.events && b.events[ids[j]].attempts == 0 && b.events[ids[j]].niche == q.niche
      ensures j > 0 ==> b.events[ids[j]].deps == [ids[j - 1]]
      ensures b.events[ids[j]].parent == if j == 0 then None else Some(ids[0])
    {
      PlanRow(db, ids, q, now, j);
    }
    forall id | id in db.events ensures id in b.events && b.events[id] == db.events[id] {
      PlanKeeps(db, ids, q, now, id);
    }
  }

  lemma {:induction false} ChainInOrder(db: Db, ids: seq<Id>, i: nat, j: nat)
    requires Ordered(db) && Chain(db, ids) && i < j < |ids|
    requires db.events[ids[j]].attempts > 0
    ensures db.events[ids[i]].status.Done?
  {
    assert ids[j] in ids && ids[j - 1] in ids && ids[i] in ids;
    assert OrderedAt(db, ids[j]);
    assert ids[j - 1] in db.events[ids[j]].deps;
    assert db.events[ids[j - 1]].status.Done?;
    assert OrderedAt(db, ids[j - 1]);
    if i < j - 1 {
      ChainInOrder(db, ids, i, j - 1);
    }
  }

  /** Over the rest of any run, a step of a plan has started only if every earlier step is done,
      and once a step has failed no later step ever starts. */
  lemma PlanRunsInOrder(r: Run, k: nat, m: nat, ids: seq<Id>, i: nat, j: nat)
    requires IsRun(r) && k <= m < |r| && Init(r[0].before)
    requires Chain(r[k].after.db, ids) && i < j < |ids|
    ensures ids[i] in r[k].after.db.events && ids[i] in r[m].after.db.events && ids[j] in r[m].after.db.events
    ensures r[m].after.db.events[ids[j]].attempts > 0 ==> r[m].after.db.events[ids[i]].status.Done?
    ensures r[k].after.db.events[ids[i]].status.Failed? ==> r[m].after.db.events[ids[j]].attempts == 0
  {
    var a, b := r[k].after.db, r[m].after.db;
    assert ids[i] in ids && ids[j] in ids;
    OrderedAlong(r, m);
    forall id | id in ids
      ensures id in b.events && b.events[id].deps == a.events[id].deps && b.events[id].niche == a.events[id].niche
    {
      EvolvesAlong(r, k, m, id);
    }
    assert Chain(b, ids) by {
      forall x | 0 < x < |ids|
        ensures b.events[ids[x]].deps == [ids[x - 1]] && b.events[ids[x]].niche == b.events[ids[x - 1]].niche
      {
        assert ids[x] in ids && ids[x - 1] in ids;
      }
    }
    EvolvesAlong(r, k, m, ids[i]);
    if b.events[ids[j]].attempts > 0 {
      ChainInOrder(b, ids, i, j);
    }
  }

  /** The steps of a plan enqueued one by one in the course of a run, whatever happens in between: step
      `i` at position `at[i]`, each depending on the one before. */
  ghost predicate PlanEnqueued(r: Run, ids: seq<Id>, at: seq<nat>, niche: string) {
    && |at| == |ids|
    && (forall i :: 0 <= i < |ids| ==> at[i] < |r| && EnqueuesStep(r[at[i]], ids, i, niche))
    && (forall i, j :: 0 <= i < j < |ids| ==> at[i] < at[j])
  }

  ghost predicate EnqueuesStep(s: Step, ids: seq<Id>, i: nat, niche: string)
    requires i < |ids|
  {
    && s.act.Enqueue? && s.act.event == ids[i]
    && s.act.request.niche == niche
    && s.act.request.deps == if i == 0 then [] else [ids[i - 1]]
  }

  lemma StepIsStored(r: Run, ids: seq<Id>, at: seq<nat>, niche: string, i: nat, m: nat)
    requires IsRun(r) && m < |r| && Init(r[0].before) && PlanEnqueued(r, ids, at, niche)
    requires i < |ids| && at[i] <= m
    ensures ids[i] in r[m].after.db.events
    ensures
      var e := r[m].after.db.events[ids[i]];
      e.niche == niche && e.deps == if i == 0 then [] else [ids[i - 1]]
  {
    assert EnqueuesStep(r[at[i]], ids, i, niche) && r[at[i]] in r;
    EvolvesAlong(r, at[i], m, ids[i]);
  }

  /** As far as it is enqueued, the plan is stored as a chain from then on. */
  lemma PlanIsChainInRuns(r: Run, ids: seq<Id>, at: seq<nat>, niche: string, n: nat, m: nat)
    requires IsRun(r) && m < |r| && Init(r[0].before) && PlanEnqueued(r, ids, at, niche)
    requires n <= |ids| && (n > 0 ==> at[n - 1] <= m)
    ensures Chain(r[m].after.db, ids[..n])
  {
    forall i | 0 <= i < n
      ensures ids[i] in r[m].after.db.events && r[m].after.db.events[ids[i]].niche == niche
      ensures i > 0 ==> r[m].after.db.events[ids[i]].deps == [ids[i - 1]]
    {
      assert i < n - 1 ==> at[i] < at[n - 1];
      StepIsStored(r, ids, at, niche, i, m);
    }
  }

  /** In any run a step of a plan that has started finds all earlier steps done, and none starts after
      an earlier one has failed, even if that happened before the step was enqueued. */
  lemma EnqueuedPlanRunsInOrder(r: Run, ids: seq<Id>, at: seq<nat>, niche: string, i: nat, j: nat, k: nat, m: nat)
    requires IsRun(r) && k <= m < |r| && Init(r[0].before) && PlanEnqueued(r, ids, at, niche)
    requires i < j < |ids| && at[i] <= k && at[j] <= m
    ensures ids[i] in r[k].after.db.events && ids[i] in r[m].after.db.events && ids[j] in r[m].after.db.events
    ensures r[m].after.db.events[ids[j]].attempts > 0 ==> r[m].after.db.events[ids[i]].status.Done?
    ensures r[k].after.db.events[ids[i]].status.Failed? ==> r[m].after.db.events[ids[j]].attempts == 0
  {
    StepIsStored(r, ids, at, niche, i, k);
    EvolvesAlong(r, k, m, ids[i]);
    PlanIsChainInRuns(r, ids, at, niche, j + 1, m);
    PlanRunsInOrder(r, m, m, ids[..j + 1], i, j);
  }

  // ----- what nothing but its own claim touches

  lemma IntakeLeaves(db: Db, job: Job, niche: string, now: real, k: Id)
    requires job.objective in db.objectives && k in db.events && job.event !in db.events
    ensures
      var events := AfterIntake(db, job, niche, now).events;
      k in events && events[k] == db.events[k]
  {
  }

  lemma CompleteLeaves(db: Db, id: Id, tick: Tick, rows: seq<Reflection>, now: real, k: Id)
    requires id in db.events && k in db.events && k != id
    ensures
      var events := AfterComplete(db, id, tick, rows, now).events;
      k in events && events[k] == db.events[k]
  {
  }

  /** A pending row is touched by nothing but its own claim. */
  lemma PendingStays(s: Step, k: Id)
    requires Next(s) && ClaimHeld(s.before)
    requires k in s.before.db.events && s.before.db.events[k].status.Pending?
    requires s.act.Claim? ==> PickOf(s.before.db, s.act.niche, s.act.rows) != Some(k)
    ensures k in s.after.db.events && s.after.db.events[k] == s.before.db.events[k]
  {
    var db := s.before.db;
    match s.act
    case Ingest(niche, job) => IntakeLeaves(db, job, niche, s.now, k);
    case Complete(id, tick, ids, rows) => CompleteLeaves(db, id, tick, rows, s.now, k);
    case Resolve(id, approved) => ResolveLeaves(db, id, approved, s.now, k);
    case DispatchNow(x, niche, event, resume, lowRisk) =>
      DispatchLeaves(db, x, event, niche, resume, lowRisk, s.now, k);
    case _ =>
  }
}
