/** What each queue transaction does to the database, as functions of the rows. */
module EventQueue {
  import opened Common
  import opened RowQuery
  import opened Schema
  import opened VerificationPolicy

  const CLAIM_WINDOW: nat := 50

  // ----- enqueue

  /** An enqueue call after its text checks. `derived` is the priority computed from the text
      (1 to 1000), used when the caller gives none. */
  datatype Request = Request(
    niche: string,
    metaObjective: Option<Id>,
    parent: Option<Id>,
    deps: seq<Id>,
    priority: Option<int>,
    derived: int,
    maxAttempts: int,
    autoCount: int,
    autoMax: Option<int>,
    autoAllowed: Option<bool>,
    lowRisk: bool)
  {
    function Context(): Option<Id> {
      if metaObjective.Some? then metaObjective else parent
    }
  }

  function EnqueuedEvent(q: Request, serial: nat, now: real): (e: Event)
    ensures e.status.Pending? && e.attempts == 0 && 1 <= e.maxAttempts <= 10
    ensures ContextOf(e) == q.Context()
  {
    var asked := if q.priority.None? || q.priority.value <= 0 then q.derived else q.priority.value;
    Event(q.niche, serial, q.metaObjective, q.parent, q.deps,
          Pending, 0, IntOrDefault(Some(q.maxAttempts), 3, 1, 10), MinInt(asked, 1000),
          now, now, None, q.autoCount, q.autoMax, q.autoAllowed, q.lowRisk)
  }

  function AfterEnqueue(db: Db, id: Id, q: Request, now: real): Db {
    db.(events := db.events[id := EnqueuedEvent(q, |db.events|, now)])
  }

  // ----- claim

  predicate Eligible(e: Event, niche: string, now: real) {
    e.niche == niche && e.status.Pending? && e.availableAt <= now
  }

  function ClaimKeys(db: Db, niche: string, now: real): map<Id, Key> {
    map id | id in db.events && Eligible(db.events[id], niche, now) ::
      Key(db.events[id].priority as real, db.events[id].createdAt, 0.0)
  }

  /** No dependency that exists in the niche is unfinished; one that names nothing is no obstacle. */
  predicate Ready(db: Db, niche: string, deps: seq<Id>) {
    forall d <- deps :: d in db.events && db.events[d].niche == niche ==> db.events[d].status.Done?
  }

  /** The first ready row of the answer. */
  function FirstReady(db: Db, niche: string, rows: seq<Id>): (r: Option<Id>)
    requires forall id <- rows :: id in db.events
    ensures r.Some? ==> r.value in rows && Ready(db, niche, db.events[r.value].deps)
    ensures r.None? <==> forall id <- rows :: !Ready(db, niche, db.events[id].deps)
  {
    if rows == [] then None
    else if Ready(db, niche, db.events[rows[0]].deps) then Some(rows[0])
    else FirstReady(db, niche, rows[1..])
  }

  /** Every row before the pick is not ready. */
  lemma {:induction false} FirstReadyAt(db: Db, niche: string, rows: seq<Id>) returns (i: nat)
    requires forall id <- rows :: id in db.events
    requires FirstReady(db, niche, rows).Some?
    ensures i < |rows| && FirstReady(db, niche, rows) == Some(rows[i])
    ensures forall j :: 0 <= j < i ==> !Ready(db, niche, db.events[rows[j]].deps)
  {
    if Ready(db, niche, db.events[rows[0]].deps) {
      i := 0;
    } else {
      var k := FirstReadyAt(db, niche, rows[1..]);
      i := k + 1;
    }
  }

  /** Claim takes a ready event that is least by priority and then by age among the ready ones in
      the window, and takes none only if none there is ready. */
  lemma ClaimTakesLeast(db: Db, niche: string, now: real, rows: seq<Id>, other: Id)
    requires FirstRows(ClaimKeys(db, niche, now), CLAIM_WINDOW, rows)
    requires other in rows && other in db.events && Ready(db, niche, db.events[other].deps)
    ensures forall id <- rows :: id in db.events
    ensures
      var pick := FirstReady(db, niche, rows);
      && pick.Some? && pick.value in db.events
      && Eligible(db.events[pick.value], niche, now) && Ready(db, niche, db.events[pick.value].deps)
      && (db.events[pick.value].priority < db.events[other].priority
          || (db.events[pick.value].priority == db.events[other].priority
              && db.events[pick.value].createdAt <= db.events[other].createdAt))
  {
    var keys := ClaimKeys(db, niche, now);
    var i := FirstReadyAt(db, niche, rows);
    var j :| 0 <= j < |rows| && rows[j] == other;
    assert rows[i] in rows && KeyLeq(keys[rows[i]], keys[other]);
  }

  function ClaimedEvent(e: Event, now: real): Event {
    e.(status := Processing, attempts := e.attempts + 1, startedAt := Some(now))
  }

  function AfterClaim(db: Db, pick: Option<Id>, now: real): Db
    requires pick.Some? ==> pick.value in db.events
  {
    if pick.None? then db
    else db.(events := db.events[pick.value := ClaimedEvent(db.events[pick.value], now)])
  }

  // ----- fail

  datatype FailureClass = Auth | RateLimit | Transient | Validation | Unknown

  function Pow2(n: nat): (r: nat)
    ensures r >= 1
    ensures n >= 1 ==> r >= 2
  {
    if n == 0 then 1 else 2 * Pow2(n - 1)
  }

  /** The delay before the next attempt, or none when the event is given up. */
  function RetryDelay(attempts: nat, maxAttempts: nat, c: FailureClass, retryable: bool): (d: Option<real>)
    ensures d.Some? ==> 0.0 < d.value <= 300.0
    ensures d.Some? ==> attempts < maxAttempts
  {
    if !retryable || c.Auth? || c.Validation? then None
    else if c.RateLimit? then
      if attempts < maxAttempts
      then Some(MinReal(300.0, (10 * Pow2(MaxInt(0, attempts - 1))) as real)) else None
    else if c.Transient? then
      if attempts < maxAttempts
      then Some(MinReal(120.0, Pow2(attempts) as real)) else None
    else
      if attempts < MinInt(maxAttempts, 2)
      then Some((3 * MaxInt(1, attempts)) as real) else None
  }

  function FailedEvent(e: Event, c: FailureClass, retryable: bool, now: real): Event {
    match RetryDelay(e.attempts, e.maxAttempts, c, retryable)
    case Some(delay) => e.(status := Pending, availableAt := now + delay)
    case None => e.(status := Failed)
  }

  function AfterFail(db: Db, id: Id, c: FailureClass, retryable: bool, now: real): Db
    requires id in db.events
  {
    db.(events := db.events[id := FailedEvent(db.events[id], c, retryable, now)])
  }

  /** A failure looks at no status: called for an event that is already done it puts it back into the
      queue or marks it failed, exactly as if it had still been processed. */
  lemma FailLooksAtNoStatus(e: Event, c: FailureClass, retryable: bool, now: real)
    requires e.status.Done?
    ensures
      var f := FailedEvent(e, c, retryable, now);
      && f == FailedEvent(e.(status := Processing), c, retryable, now)
      && !f.status.Done?
      && (f.status.Failed? <==> RetryDelay(e.attempts, e.maxAttempts, c, retryable).None?)
  {
  }

  // ----- requeue after a restart

  predicate Stale(e: Event, niche: string, staleAfter: real, now: real) {
    && e.niche == niche && e.status.Processing?
    && (staleAfter <= 0.0 || (e.startedAt.Some? && e.startedAt.value < now - staleAfter))
  }

  function AfterRequeue(db: Db, niche: string, staleAfter: real, now: real): Db {
    db.(events :=
      map id <- db.events ::
        if Stale(db.events[id], niche, staleAfter, now)
        then db.events[id].(status := Pending, startedAt := None)
        else db.events[id])
  }

  // ----- complete

  function AutoLimit(e: Event, c: Option<Constraints>): (n: int)
    ensures 0 <= n <= 20
  {
    var raw := if e.autoMax.Some? then e.autoMax
               else if c.Some? then c.value.autoApproveMax else None;
    IntOrDefault(raw, 1, 0, 20)
  }

  function AutoCount(e: Event): (n: nat)
    ensures n <= 1000
  {
    IntOrDefault(Some(e.autoCount), 0, 0, 1000)
  }

  function AutoAllowed(e: Event, c: Option<Constraints>): bool {
    var raw := if e.autoAllowed.Some? then e.autoAllowed
               else if c.Some? then c.value.autoApproveStatusWaiting else None;
    raw.GetOr(true)
  }

  /** An escalated event goes back to the queue without an operator. */
  predicate AutoApproves(e: Event, c: Option<Constraints>) {
    AutoLimit(e, c) > 0 && AutoCount(e) < AutoLimit(e, c) && AutoAllowed(e, c) && e.lowRisk
  }

  function AutoApprovedObjective(o: Objective): Objective {
    o.(status := Active,
       policy := o.policy.(escalation := Resolved, holdUntil := None, holdReason := NoReason))
  }

  function AutoApprovedEvent(e: Event, now: real): Event {
    e.(status := Pending, availableAt := now, startedAt := None, autoCount := AutoCount(e) + 1)
  }

  /** The verification run for a completed event whose objective is stored. */
  function OutcomeOf(o: Objective, id: Id, tick: Tick, rows: seq<Reflection>, now: real): Outcome {
    Verify(o, id, tick.passed, tick.finalStatus, TrendOf(rows), now)
  }

  /** The stored objective an event is verified against, if any. */
  function VerifiedObjective(db: Db, id: Id): (r: Option<Id>)
    requires id in db.events
    ensures r.Some? ==> r == ContextOf(db.events[id]) && r.value in db.objectives
  {
    var context := ContextOf(db.events[id]);
    if context.Some? && context.value in db.objectives then context else None
  }

  predicate AutoApproved(db: Db, id: Id, tick: Tick, rows: seq<Reflection>, now: real)
    requires id in db.events
  {
    var target := VerifiedObjective(db, id);
    && target.Some?
    && OutcomeOf(db.objectives[target.value], id, tick, rows, now).Escalated()
    && AutoApproves(db.events[id], Some(db.objectives[target.value].constraints))
  }

  function CompletedEvent(db: Db, id: Id, tick: Tick, rows: seq<Reflection>, now: real): Event
    requires id in db.events
  {
    var e := db.events[id];
    var target := VerifiedObjective(db, id);
    if AutoApproved(db, id, tick, rows, now) then AutoApprovedEvent(e, now)
    else if tick.finalStatus.FinalWaitingForInput?
            || (target.Some? && OutcomeOf(db.objectives[target.value], id, tick, rows, now).Escalated())
    then e.(status := WaitingForInput)
    else e.(status := Done)
  }

  function CompletedObjective(db: Db, o: Id, id: Id, tick: Tick, rows: seq<Reflection>, now: real): Objective
    requires o in db.objectives && id in db.events
  {
    var verified := OutcomeOf(db.objectives[o], id, tick, rows, now).objective;
    if AutoApproved(db, id, tick, rows, now) then AutoApprovedObjective(verified) else verified
  }

  /** The reflection of an event keeps its first creation time when it is overwritten. */
  function CompletedReflection(db: Db, id: Id, context: Id, tick: Tick, now: real): Reflection {
    Reflection(context, tick.passed, tick.confidence,
               if id in db.reflections then db.reflections[id].createdAt else now)
  }

  function AfterComplete(db: Db, id: Id, tick: Tick, rows: seq<Reflection>, now: real): Db
    requires id in db.events
  {
    var context := ContextOf(db.events[id]);
    var target := VerifiedObjective(db, id);
    Db(db.events[id := CompletedEvent(db, id, tick, rows, now)],
       if target.None? then db.objectives
       else db.objectives[target.value := CompletedObjective(db, target.value, id, tick, rows, now)],
       if context.None? then db.reflections
       else db.reflections[id := CompletedReflection(db, id, context.value, tick, now)])
  }

  /** The candidates of the trend query: newest reflections of the objective first. */
  function TrendKeys(db: Db, o: Id): map<Id, Key> {
    map id | id in db.reflections && db.reflections[id].objective == o ::
      Key(-db.reflections[id].createdAt, 0.0, 0.0)
  }

  function ReflectionsAt(db: Db, ids: seq<Id>): (rows: seq<Reflection>)
    requires forall id <- ids :: id in db.reflections
    ensures |rows| == |ids|
    ensures forall i :: 0 <= i < |ids| ==> rows[i] == db.reflections[ids[i]]
  {
    seq(|ids|, i requires 0 <= i < |ids| => db.reflections[ids[i]])
  }

  /** `rows` is what the trend query may return when `id` completes. */
  ghost predicate TrendAnswer(db: Db, id: Id, ids: seq<Id>, rows: seq<Reflection>)
    requires id in db.events
  {
    var target := VerifiedObjective(db, id);
    if target.None? then rows == []
    else
      && FirstRows(TrendKeys(db, target.value), db.objectives[target.value].constraints.ReflectionWindow(), ids)
      && rows == ReflectionsAt(db, ids)
  }

  // ----- operator approval and rejection

  function ApprovedEvent(e: Event, now: real): Event {
    e.(status := Pending, availableAt := now, startedAt := None, autoCount := 0)
  }

  function AfterApprove(db: Db, id: Id, now: real): Db
    requires id in db.events
  {
    var e := db.events[id];
    var o := e.metaObjective;
    Db(db.events[id := ApprovedEvent(e, now)],
       if o.Some? && o.value in db.objectives
       then db.objectives[o.value := db.objectives[o.value].(
              status := Active,
              policy := db.objectives[o.value].policy.(escalation := Resolved))]
       else db.objectives,
       db.reflections)
  }

  function AfterReject(db: Db, id: Id): Db
    requires id in db.events
  {
    var e := db.events[id];
    var o := e.metaObjective;
    Db(db.events[id := e.(status := Failed, autoCount := 0)],
       if o.Some? && o.value in db.objectives
       then db.objectives[o.value := db.objectives[o.value].(
              status := Paused,
              policy := db.objectives[o.value].policy.(escalation := Open))]
       else db.objectives,
       db.reflections)
  }

  /** Only an event waiting for input can be resolved. */
  function AfterResolve(db: Db, id: Id, approved: bool, now: real): Db {
    if id !in db.events || !db.events[id].status.WaitingForInput? then db
    else if approved then AfterApprove(db, id, now)
    else AfterReject(db, id)
  }
}
