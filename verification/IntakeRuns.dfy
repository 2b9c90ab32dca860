/** A whole intake call as a run of the state machine. */
module IntakeRuns {
  import opened Common
  import opened RowQuery
  import opened Schema
  import opened Scheduler
  import opened Machine

  /** The candidates of the intake query. */
  function DueKeys(db: Db, niche: string, now: real): map<Id, Key> {
    map o | o in db.objectives && Due(db.objectives[o], niche, now) ::
      Key(db.objectives[o].priority as real, db.objectives[o].nextRun, db.objectives[o].createdAt)
  }

  /** The order the intake serves them in. */
  function RankKeys(db: Db, due: seq<Id>, now: real): map<Id, Key> {
    map o | o in due && o in db.objectives ::
      Key(EffectivePriority(db.objectives[o], now) as real, db.objectives[o].nextRun, db.objectives[o].createdAt)
  }

  /** More urgent, or equally urgent and due earlier, or that and created earlier, or all the same. */
  predicate ServedBefore(a: Objective, b: Objective, now: real) {
    var p, q := EffectivePriority(a, now), EffectivePriority(b, now);
    p < q || (p == q && (a.nextRun < b.nextRun || (a.nextRun == b.nextRun && a.createdAt <= b.createdAt)))
  }

  /** The order of the stored priorities, in which the due objectives are read. */
  predicate ReadBefore(a: Objective, b: Objective) {
    || a.priority < b.priority
    || (a.priority == b.priority
        && (a.nextRun < b.nextRun || (a.nextRun == b.nextRun && a.createdAt <= b.createdAt)))
  }

  /** `due` are at most 64 active objectives of the niche whose time has come, and any other such one
      is read after all of them. */
  ghost predicate ReadsDue(db: Db, niche: string, now: real, due: seq<Id>) {
    && |due| <= 64 && Distinct(due)
    && (forall x <- due :: x in db.objectives && db.objectives[x].niche == niche
          && db.objectives[x].status.Active? && db.objectives[x].nextRun <= now)
    && forall y <- db.objectives ::
         (db.objectives[y].niche == niche && db.objectives[y].status.Active? && db.objectives[y].nextRun <= now
          && y !in due) ==>
           |due| == 64 && forall x <- due :: x in db.objectives && ReadBefore(db.objectives[x], db.objectives[y])
  }

  ghost predicate Taken(jobs: seq<Job>, x: Id) {
    exists job <- jobs :: job.objective == x
  }

  /** The jobs are served from the most urgent one down, and nothing read but not taken is served before
      one that is taken. */
  ghost predicate ServesInOrder(db: Db, now: real, due: seq<Id>, jobs: seq<Job>) {
    && (forall job <- jobs :: job.objective in due && job.objective in db.objectives)
    && (forall i, j :: 0 <= i < j < |jobs| ==>
          ServedBefore(db.objectives[jobs[i].objective], db.objectives[jobs[j].objective], now))
    && forall job <- jobs, x <- due ::
         x in db.objectives && !Taken(jobs, x) ==>
           ServedBefore(db.objectives[job.objective], db.objectives[x], now)
  }

  lemma DueIsRead(db: Db, niche: string, now: real, due: seq<Id>)
    requires FirstRows(DueKeys(db, niche, now), DUE_WINDOW, due)
    ensures ReadsDue(db, niche, now, due)
  {
    var keys := DueKeys(db, niche, now);
    forall x, y | x in due && y in keys && y !in due ensures ReadBefore(db.objectives[x], db.objectives[y]) {
      assert x in keys && KeyLeq(keys[x], keys[y]);
    }
  }

  lemma RankedInOrder(db: Db, now: real, due: seq<Id>, ranked: seq<Id>, i: nat, j: nat)
    requires FirstRows(RankKeys(db, due, now), DUE_WINDOW, ranked) && i < j < |ranked|
    ensures ranked[i] in due && ranked[j] in due && ranked[i] in db.objectives && ranked[j] in db.objectives
    ensures ServedBefore(db.objectives[ranked[i]], db.objectives[ranked[j]], now)
  {
    var keys := RankKeys(db, due, now);
    assert ranked[i] in ranked && ranked[j] in ranked;
    assert KeyLeq(keys[ranked[i]], keys[ranked[j]]);
  }

  lemma AllRanked(db: Db, now: real, due: seq<Id>, ranked: seq<Id>)
    requires FirstRows(RankKeys(db, due, now), DUE_WINDOW, ranked) && |due| <= DUE_WINDOW && Distinct(due)
    ensures forall x <- due :: x in db.objectives ==> x in ranked
    ensures forall x <- ranked :: x in due && x in db.objectives
  {
    var keys := RankKeys(db, due, now);
    DistinctCard(due);
    assert keys.Keys <= Members(due);
    SubsetCard(keys.Keys, Members(due));
    AllRows(keys, DUE_WINDOW, ranked);
    forall x | x in due && x in db.objectives ensures x in ranked {
      assert x in keys;
    }
  }

  /** The jobs taken in rank order are those the urgency asks for. */
  lemma ServesByUrgency(db: Db, niche: string, now: real, due: seq<Id>, ranked: seq<Id>, supply: map<Id, Job>,
                        jobs: seq<Job>)
    requires FirstRows(DueKeys(db, niche, now), DUE_WINDOW, due)
    requires FirstRows(RankKeys(db, due, now), DUE_WINDOW, ranked)
    requires JobsFor(ranked, supply, jobs)
    ensures ReadsDue(db, niche, now, due) && ServesInOrder(db, now, due, jobs)
  {
    DueIsRead(db, niche, now, due);
    AllRanked(db, now, due, ranked);
    forall job | job in jobs ensures job.objective in due && job.objective in db.objectives {
      var i :| 0 <= i < |jobs| && jobs[i] == job;
      assert ranked[i] in ranked;
    }
    forall i, j | 0 <= i < j < |jobs|
      ensures ServedBefore(db.objectives[jobs[i].objective], db.objectives[jobs[j].objective], now)
    {
      RankedInOrder(db, now, due, ranked, i, j);
    }
    forall job, x | job in jobs && x in due && x in db.objectives && !Taken(jobs, x)
      ensures ServedBefore(db.objectives[job.objective], db.objectives[x], now)
    {
      UntakenIsLater(db, now, due, ranked, supply, jobs, job, x);
    }
  }

  lemma AllTaken(jobs: seq<Job>)
    ensures forall j :: 0 <= j < |jobs| ==> Taken(jobs, jobs[j].objective)
  {
    forall j | 0 <= j < |jobs| ensures Taken(jobs, jobs[j].objective) {
      assert jobs[j] in jobs;
    }
  }

  lemma UntakenIsLater(db: Db, now: real, due: seq<Id>, ranked: seq<Id>, supply: map<Id, Job>, jobs: seq<Job>,
                       job: Job, x: Id)
    requires FirstRows(RankKeys(db, due, now), DUE_WINDOW, ranked) && JobsFor(ranked, supply, jobs)
    requires job in jobs && job.objective in db.objectives && x in ranked && x in db.objectives && !Taken(jobs, x)
    ensures ServedBefore(db.objectives[job.objective], db.objectives[x], now)
  {
    var i :| 0 <= i < |jobs| && jobs[i] == job;
    var j :| 0 <= j < |ranked| && ranked[j] == x;
    AllTaken(jobs);
    RankedInOrder(db, now, due, ranked, i, j);
  }

  function DispatchLimit(maxDispatch: int): (n: nat)
    ensures 1 <= n <= 20
  {
    MaxInt(1, MinInt(maxDispatch, 20))
  }

  /** One new uuid, autotuner answer and risk class for every stored objective. */
  ghost predicate Supplies(db: Db, supply: map<Id, Job>) {
    && (forall o <- db.objectives ::
          o in supply && supply[o].objective == o && Fresh(db, supply[o].event))
    && (forall o <- db.objectives, x <- db.objectives :: o != x ==> supply[o].event != supply[x].event)
  }

  /** The jobs taken are those of the first ranked objectives. */
  ghost predicate JobsFor(ranked: seq<Id>, supply: map<Id, Job>, jobs: seq<Job>) {
    && |jobs| <= |ranked|
    && forall i :: 0 <= i < |jobs| ==>
         ranked[i] in supply && jobs[i] == supply[ranked[i]] && jobs[i].objective == ranked[i]
  }

  lemma JobsGrow(ranked: seq<Id>, supply: map<Id, Job>, jobs: seq<Job>)
    requires JobsFor(ranked, supply, jobs) && |jobs| < |ranked|
    requires ranked[|jobs|] in supply && supply[ranked[|jobs|]].objective == ranked[|jobs|]
    ensures JobsFor(ranked, supply, jobs + [supply[ranked[|jobs|]]])
    ensures (jobs + [supply[ranked[|jobs|]]])[..|jobs|] == jobs
  {
  }

  /** Due objectives taken one after the other. */
  ghost function IntakeAll(db: Db, jobs: seq<Job>, niche: string, now: real): Db {
    if jobs == [] then db
    else
      var rest := IntakeAll(db, jobs[..|jobs| - 1], niche, now);
      var job := jobs[|jobs| - 1];
      if job.objective in rest.objectives then AfterIntake(rest, job, niche, now) else rest
  }

  lemma IntakeAllGrows(start: Db, jobs: seq<Job>, job: Job, niche: string, now: real)
    requires job.objective in IntakeAll(start, jobs, niche, now).objectives
    ensures IntakeAll(start, jobs + [job], niche, now)
         == AfterIntake(IntakeAll(start, jobs, niche, now), job, niche, now)
  {
    assert (jobs + [job])[..|jobs|] == jobs;
  }

  /** An intake touches its objective's row and adds its event, if it dispatches. */
  lemma IntakeFrame(db: Db, job: Job, niche: string, now: real)
    requires job.objective in db.objectives
    ensures
      var after := AfterIntake(db, job, niche, now);
      && after.objectives.Keys == db.objectives.Keys
      && (forall x <- db.objectives :: x != job.objective ==> after.objectives[x] == db.objectives[x])
      && after.events.Keys == db.events.Keys + (if JobDecision(db, job, now).Dispatched? then {job.event} else {})
  {
  }

  /** `b` is `a` with one objective row rewritten and perhaps an event added for it. */
  ghost predicate Shape(a: Db, b: Db, o: Id, event: Id) {
    && o in a.objectives && o in b.objectives
    && b.reflections == a.reflections
    && b.objectives == a.objectives[o := b.objectives[o]]
    && (b.objectives[o].lastEvent == a.objectives[o].lastEvent || b.objectives[o].lastEvent == Some(event))
    && (b.events == a.events
        || (event in b.events && b.events == a.events[event := b.events[event]]
            && b.events[event].deps == []
            && b.events[event].metaObjective == Some(o) && b.events[event].parent == Some(o)))
  }

  lemma IntakeShape(db: Db, job: Job, niche: string, now: real)
    requires job.objective in db.objectives
    ensures Shape(db, AfterIntake(db, job, niche, now), job.objective, job.event)
  {
  }

  lemma FreshKept(a: Db, b: Db, o: Id, event: Id, id: Id)
    requires Shape(a, b, o, event) && Fresh(a, id) && id != event
    ensures Fresh(b, id)
  {
  }

  /** What the remaining objectives still look like after the first jobs. */
  ghost predicate Remaining(start: Db, db: Db, order: seq<Id>, supply: map<Id, Job>, from: nat) {
    && db.objectives.Keys == start.objectives.Keys
    && forall i :: from <= i < |order| ==>
         && order[i] in db.objectives && order[i] in supply
         && db.objectives[order[i]] == start.objectives[order[i]]
         && Fresh(db, supply[order[i]].event)
  }

  lemma RemainingNext(start: Db, db: Db, order: seq<Id>, supply: map<Id, Job>, k: nat, niche: string, now: real)
    requires Remaining(start, db, order, supply, k) && k < |order| && Distinct(order)
    requires supply[order[k]].objective == order[k]
    requires forall i :: k < i < |order| ==> supply[order[i]].event != supply[order[k]].event
    ensures Remaining(start, AfterIntake(db, supply[order[k]], niche, now), order, supply, k + 1)
  {
    var job := supply[order[k]];
    IntakeFrame(db, job, niche, now);
    forall i | k + 1 <= i < |order| ensures Fresh(AfterIntake(db, job, niche, now), supply[order[i]].event) {
      IntakeShape(db, job, niche, now);
      FreshKept(db, AfterIntake(db, job, niche, now), job.objective, job.event, supply[order[i]].event);
    }
  }

  /** Taking the due objectives in one call is a run of single intake steps, so everything proved
      of runs holds of the daemon's intake. */
  lemma {:induction false} IntakeIsARun(w: World, order: seq<Id>, supply: map<Id, Job>, jobs: seq<Job>,
                                        niche: string, now: real) returns (r: Run)
    requires w.clock <= now && Supplies(w.db, supply)
    requires Distinct(order) && JobsFor(order, supply, jobs)
    requires forall o <- order :: o in w.db.objectives && Due(w.db.objectives[o], niche, now)
    ensures IsRun(r) && |r| == |jobs|
    ensures r != [] ==> r[0].before == w && r[|r| - 1].after == World(IntakeAll(w.db, jobs, niche, now), w.claimed, now)
    ensures forall s <- r :: s.act.Ingest? && s.now == now
    ensures Remaining(w.db, IntakeAll(w.db, jobs, niche, now), order, supply, |jobs|)
    decreases |jobs|
  {
    if jobs == [] {
      r := [];
      forall i | 0 <= i < |order| ensures order[i] in w.db.objectives && order[i] in supply {
        assert order[i] in order;
      }
    } else {
      var k := |jobs| - 1;
      var p := IntakeIsARun(w, order, supply, jobs[..k], niche, now);
      JobFits(w, order, supply, jobs, niche, now);
      r := AddJob(w, p, WorldBefore(w, jobs, k, niche, now), jobs[k], niche, now);
    }
  }

  /** The world before job `k` of an intake call. */
  ghost function WorldBefore(w: World, jobs: seq<Job>, k: nat, niche: string, now: real): World
    requires k <= |jobs|
  {
    if k == 0 then w else World(IntakeAll(w.db, jobs[..k], niche, now), w.claimed, now)
  }

  /** One more intake step at the end of a run of them. */
  lemma AddJob(w: World, p: Run, before: World, job: Job, niche: string, now: real) returns (r: Run)
    requires IsRun(p) && (forall s <- p :: s.act.Ingest? && s.now == now)
    requires if p == [] then before == w else p[0].before == w && p[|p| - 1].after == before
    requires before.clock <= now
    requires job.objective in before.db.objectives && Due(before.db.objectives[job.objective], niche, now)
    requires Fresh(before.db, job.event)
    ensures IsRun(r) && |r| == |p| + 1 && r[0].before == w
    ensures r[|r| - 1].after == World(AfterIntake(before.db, job, niche, now), before.claimed, now)
    ensures forall s <- r :: s.act.Ingest? && s.now == now
  {
    var s := IntakeStep(before, job, niche, now);
    r := Snoc(p, s);
  }

  /** The next job meets an untouched, due row and brings a fresh uuid. */
  lemma JobFits(w: World, order: seq<Id>, supply: map<Id, Job>, jobs: seq<Job>, niche: string, now: real)
    requires w.clock <= now && Supplies(w.db, supply) && jobs != []
    requires Distinct(order) && JobsFor(order, supply, jobs)
    requires forall o <- order :: o in w.db.objectives && Due(w.db.objectives[o], niche, now)
    requires Remaining(w.db, IntakeAll(w.db, jobs[..|jobs| - 1], niche, now), order, supply, |jobs| - 1)
    ensures
      var k := |jobs| - 1;
      var before := WorldBefore(w, jobs, k, niche, now);
      && before.claimed == w.claimed && before.clock <= now
      && jobs[k].objective in before.db.objectives && Due(before.db.objectives[jobs[k].objective], niche, now)
      && Fresh(before.db, jobs[k].event)
      && IntakeAll(w.db, jobs, niche, now) == AfterIntake(before.db, jobs[k], niche, now)
    ensures Remaining(w.db, IntakeAll(w.db, jobs, niche, now), order, supply, |jobs|)
  {
    var k := |jobs| - 1;
    var db := IntakeAll(w.db, jobs[..k], niche, now);
    assert order[k] in order && jobs[k] == supply[order[k]];
    assert k == 0 ==> db == w.db;
    forall i | k < i < |order| ensures supply[order[i]].event != supply[order[k]].event {
      assert order[i] in order;
    }
    RemainingNext(w.db, db, order, supply, k, niche, now);
  }

  lemma IntakeStep(before: World, job: Job, niche: string, now: real) returns (s: Step)
    requires before.clock <= now
    requires job.objective in before.db.objectives && Due(before.db.objectives[job.objective], niche, now)
    requires Fresh(before.db, job.event)
    ensures Next(s) && s.before == before && s.act.Ingest? && s.now == now
    ensures s.after == World(AfterIntake(before.db, job, niche, now), before.claimed, now)
  {
    s := Step(before, Ingest(niche, job), now, World(AfterIntake(before.db, job, niche, now), before.claimed, now));
    StepFollows(s, before.db, job, niche);
  }

  lemma Snoc(p: Run, s: Step) returns (r: Run)
    requires IsRun(p) && Next(s) && (p != [] ==> p[|p| - 1].after == s.before)
    ensures r == p + [s] && IsRun(r)
  {
    r := p + [s];
    forall i | 0 <= i < |r| - 1 ensures r[i].after == r[i + 1].before {
      if i < |p| - 1 {
        assert p[i].after == p[i + 1].before;
      }
    }
  }

  lemma StepFollows(s: Step, db: Db, job: Job, niche: string)
    requires s.before.db == db && s.before.clock <= s.now
    requires s.act == Ingest(niche, job) && s.after == World(s.after.db, s.before.claimed, s.now)
    requires job.objective in db.objectives && Due(db.objectives[job.objective], niche, s.now)
    requires Fresh(db, job.event)
    requires s.after.db == AfterIntake(db, job, niche, s.now)
    ensures Next(s)
  {
  }
}
