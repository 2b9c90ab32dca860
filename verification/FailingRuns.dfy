/** Runs from an empty database that show where a property ends. */
module FailingRuns {
  import opened Common
  import opened RowQuery
  import opened Schema
  import opened VerificationPolicy
  import opened EventQueue
  import opened Scheduler
  import opened Machine
  import opened Escalations
  import opened OneShot
  import opened Starvation

  // ----- building runs

  ghost function Do(w: World, a: Action, now: real): Step
    requires Enabled(w, a, now)
  {
    Step(w, a, now, World(AppliedDb(w, a, now), AppliedClaim(w, a, now), now))
  }

  /** A run from an empty database that ends in `w`. */
  ghost predicate Reaches(r: Run, w: World) {
    IsRun(r) && (r != [] ==> Init(r[0].before)) && (if r == [] then Init(w) else r[|r| - 1].after == w)
  }

  lemma Extend(r: Run, w: World, a: Action, t: real) returns (q: Run)
    requires Reaches(r, w) && w.clock <= t && Enabled(w, a, t)
    ensures q == r + [Do(w, a, t)] && Reaches(q, Do(w, a, t).after)
  {
    q := r + [Do(w, a, t)];
    forall i | 0 <= i < |q| - 1 ensures q[i].after == q[i + 1].before {
      if i < |r| - 1 {
        assert r[i].after == r[i + 1].before;
      }
    }
  }

  /** The run `q` is `r` with one more step. */
  ghost predicate Longer(q: Run, r: Run, w: World, a: Action, t: real) {
    |q| == |r| + 1 && q[..|r|] == r && q[|r|].before == w && q[|r|].act == a && q[|r|].now == t
  }

  const START: World := World(EMPTY_DB, None, 0.0)

  /** The settings of an objective created without constraints. */
  const SETTINGS: Constraints :=
    Constraints(None, true, true, true, true, None, true, None, None, None, None, None, None, None, None, None, None,
                false, None, None, None, false, None, None, None, None, None)

  const CALM: Policy := Policy(0, NoEscalation, None, None, None, NoReason, NoRemediation, 0, None)

  /** The only objective, "o", is the verified one, and nothing is going on but perhaps `live`. */
  ghost predicate Tidy(w: World, live: set<Id>) {
    && w.db.objectives.Keys == {"o"}
    && live <= w.db.events.Keys
    && forall id <- w.db.events :: id !in live ==> w.db.events[id].status.Done?
  }

  function Row(w: World): Objective
    requires "o" in w.db.objectives
  {
    w.db.objectives["o"]
  }

  /** The objective is about to be dispatched. */
  predicate Servable(row: Objective, t: real) {
    && Due(row, "n", t)
    && !row.policy.escalation.Open?
    && !(row.policy.escalation.Deferred? && Hold(row.policy, t) > t)
    && (row.cadence > 0.0 || row.lastEvent.None?)
    && Deadline(row).None?
  }

  function Dispatching(e: Id): Action {
    Ingest("n", Job("o", e, None, false))
  }

  function DispatchedWorld(w: World, e: Id, t: real): World
    requires "o" in w.db.objectives
  {
    var event := EnqueuedEvent(DispatchRequest(Row(w), "o", "n", false, t), |w.db.events|, t);
    World(Db(w.db.events[e := event], w.db.objectives["o" := DispatchedRow(Row(w), e, t)], w.db.reflections), None, t)
  }

  lemma IntakeDispatches(db: Db, e: Id, t: real)
    requires "o" in db.objectives && Servable(db.objectives["o"], t)
    requires forall id <- db.events :: db.events[id].status.Done?
    ensures
      var row := db.objectives["o"];
      AfterIntake(db, Job("o", e, None, false), "n", t) ==
        Db(db.events[e := EnqueuedEvent(DispatchRequest(row, "o", "n", false, t), |db.events|, t)],
           db.objectives["o" := DispatchedRow(row, e, t)], db.reflections)
  {
    var row := db.objectives["o"];
    assert JobRow(db, Job("o", e, None, false), t) == row;
    assert Decide(row, LastStatus(db, row), t).Dispatched?;
  }

  lemma DispatchApplies(w: World, e: Id, t: real)
    requires Tidy(w, {}) && w.claimed.None? && w.clock <= t && Servable(Row(w), t)
    requires Fresh(w.db, e) && e != "o"
    ensures Enabled(w, Dispatching(e), t) && Do(w, Dispatching(e), t).after == DispatchedWorld(w, e, t)
  {
    IntakeDispatches(w.db, e, t);
  }

  lemma Dispatches(r: Run, w: World, e: Id, t: real) returns (q: Run)
    requires Reaches(r, w) && Tidy(w, {}) && w.claimed.None? && w.clock <= t && Servable(Row(w), t)
    requires Fresh(w.db, e) && e != "o"
    ensures Reaches(q, DispatchedWorld(w, e, t)) && Longer(q, r, w, Dispatching(e), t)
    ensures IngestDispatches(q[|r|], "o")
  {
    DispatchApplies(w, e, t);
    q := Extend(r, w, Dispatching(e), t);
    assert e in q[|r|].after.db.events.Keys && e !in q[|r|].before.db.events.Keys;
  }

  function ClaimedWorld(w: World, e: Id, t: real): World
    requires e in w.db.events
  {
    World(w.db.(events := w.db.events[e := ClaimedEvent(w.db.events[e], t)]), Some(e), t)
  }

  lemma ClaimApplies(w: World, e: Id, t: real)
    requires w.claimed.None? && e in w.db.events && Eligible(w.db.events[e], "n", t) && w.db.events[e].deps == []
    requires forall id <- w.db.events :: id != e ==> !w.db.events[id].status.Pending?
    ensures Enabled(w, Claim("n", [e]), t) && Do(w, Claim("n", [e]), t).after == ClaimedWorld(w, e, t)
  {
    assert ClaimKeys(w.db, "n", t).Keys == {e};
    assert FirstReady(w.db, "n", [e]) == Some(e);
  }

  /** The only pending event is claimed. */
  lemma Claims(r: Run, w: World, e: Id, t: real) returns (q: Run)
    requires Reaches(r, w) && w.claimed.None? && w.clock <= t
    requires e in w.db.events && Eligible(w.db.events[e], "n", t) && w.db.events[e].deps == []
    requires forall id <- w.db.events :: id != e ==> !w.db.events[id].status.Pending?
    ensures Reaches(q, ClaimedWorld(w, e, t)) && Longer(q, r, w, Claim("n", [e]), t)
  {
    ClaimApplies(w, e, t);
    q := Extend(r, w, Claim("n", [e]), t);
  }

  lemma Completes(r: Run, w: World, e: Id, tick: Tick, ids: seq<Id>, rows: seq<Reflection>, t: real) returns (q: Run)
    requires Reaches(r, w) && w.clock <= t
    requires w.claimed == Some(e) && e in w.db.events && TrendAnswer(w.db, e, ids, rows)
    ensures Reaches(q, World(AfterComplete(w.db, e, tick, rows, t), None, t))
    ensures Longer(q, r, w, Complete(e, tick, ids, rows), t)
  {
    q := Extend(r, w, Complete(e, tick, ids, rows), t);
  }

  function Creating(cadence: real, c: Constraints, p: Policy): Action {
    Create("o", "n", 70, cadence, None, c, p)
  }

  function NewRow(cadence: real, c: Constraints, p: Policy): Objective {
    CreatedObjective("n", 70, cadence, None, c, p, 0.0)
  }

  function NewWorld(cadence: real, c: Constraints, p: Policy): World {
    World(Db(map[], map["o" := NewRow(cadence, c, p)], map[]), None, 0.0)
  }

  lemma Creates(cadence: real, c: Constraints, p: Policy) returns (q: Run)
    requires cadence >= 0.0
    ensures Reaches(q, NewWorld(cadence, c, p)) && Longer(q, [], START, Creating(cadence, c, p), 0.0)
    ensures Tidy(NewWorld(cadence, c, p), {})
    ensures forall e :: e != "o" ==> Fresh(NewWorld(cadence, c, p).db, e)
  {
    q := Extend([], START, Creating(cadence, c, p), 0.0);
  }

  // ----- one dispatched event, worked off in one go

  ghost function Verified(w: World, e: Id, tick: Tick, ids: seq<Id>, t: real): Outcome
    requires "o" in w.db.objectives && forall id <- ids :: id in w.db.reflections
  {
    OutcomeOf(DispatchedRow(Row(w), e, t), e, tick, ReflectionsAt(w.db, ids), t)
  }

  function DoneEvent(row: Objective, serial: nat, t: real): Event {
    ClaimedEvent(EnqueuedEvent(DispatchRequest(row, "o", "n", false, t), serial, t), t).(status := Done)
  }

  ghost function AfterRound(w: World, e: Id, tick: Tick, ids: seq<Id>, t: real): World
    requires "o" in w.db.objectives && forall id <- ids :: id in w.db.reflections
  {
    World(Db(w.db.events[e := DoneEvent(Row(w), |w.db.events|, t)],
             w.db.objectives["o" := Verified(w, e, tick, ids, t).objective],
             w.db.reflections[e := Reflection("o", tick.passed, tick.confidence, t)]),
          None, t)
  }

  /** A tick of the objective that is verified without escalating. */
  ghost predicate Workable(w: World, e: Id, tick: Tick, ids: seq<Id>, t: real) {
    && Tidy(w, {}) && w.claimed.None? && w.clock <= t && Servable(Row(w), t)
    && Fresh(w.db, e) && e != "o"
    && tick.finalStatus.Finished?
    && FirstRows(TrendKeys(w.db, "o"), Row(w).constraints.ReflectionWindow(), ids)
    && !Verified(w, e, tick, ids, t).Escalated()
  }

  /** The world in which the dispatched event is being worked on. */
  function WorkingWorld(w: World, e: Id, t: real): World
    requires "o" in w.db.objectives
  {
    ClaimedWorld(DispatchedWorld(w, e, t), e, t)
  }

  lemma TrendStays(w: World, e: Id, tick: Tick, ids: seq<Id>, t: real)
    requires Workable(w, e, tick, ids, t)
    ensures TrendAnswer(WorkingWorld(w, e, t).db, e, ids, ReflectionsAt(w.db, ids))
  {
    assert TrendKeys(WorkingWorld(w, e, t).db, "o") == TrendKeys(w.db, "o");
  }

  /** A completion that does not escalate. */
  lemma CompletesDone(db: Db, e: Id, tick: Tick, rows: seq<Reflection>, t: real)
    requires e in db.events && ContextOf(db.events[e]) == Some("o") && "o" in db.objectives && e !in db.reflections
    requires tick.finalStatus.Finished? && !OutcomeOf(db.objectives["o"], e, tick, rows, t).Escalated()
    ensures AfterComplete(db, e, tick, rows, t) ==
      Db(db.events[e := db.events[e].(status := Done)],
         db.objectives["o" := OutcomeOf(db.objectives["o"], e, tick, rows, t).objective],
         db.reflections[e := Reflection("o", tick.passed, tick.confidence, t)])
  {
    assert VerifiedObjective(db, e) == Some("o");
  }

  lemma Settles(w: World, e: Id, tick: Tick, ids: seq<Id>, t: real)
    requires "o" in w.db.objectives && e !in w.db.reflections && (forall id <- ids :: id in w.db.reflections)
    requires tick.finalStatus.Finished? && !Verified(w, e, tick, ids, t).Escalated()
    ensures AfterComplete(WorkingWorld(w, e, t).db, e, tick, ReflectionsAt(w.db, ids), t)
         == AfterRound(w, e, tick, ids, t).db
  {
    var v := WorkingWorld(w, e, t).db;
    CompletesDone(v, e, tick, ReflectionsAt(w.db, ids), t);
    SetTwice(w.db.events, e, DispatchedWorld(w, e, t).db.events[e], v.events[e],
             DoneEvent(Row(w), |w.db.events|, t));
    SetTwiceRow(w.db.objectives, "o", v.objectives["o"], Verified(w, e, tick, ids, t).objective);
  }

  lemma SetTwice(m: map<Id, Event>, e: Id, a: Event, b: Event, c: Event)
    ensures m[e := a][e := b][e := c] == m[e := c]
  {
  }

  lemma SetTwiceRow(m: map<Id, Objective>, o: Id, a: Objective, b: Objective)
    ensures m[o := a][o := b] == m[o := b]
  {
  }

  lemma StillTidy(w: World, e: Id, tick: Tick, ids: seq<Id>, t: real)
    requires Tidy(w, {}) && forall id <- ids :: id in w.db.reflections
    ensures Tidy(AfterRound(w, e, tick, ids, t), {})
  {
  }

  lemma StillPrefix(r: Run, q1: Run, q2: Run, q3: Run)
    requires |r| <= |q1| <= |q2| <= |q3|
    requires q1[..|r|] == r && q2[..|q1|] == q1 && q3[..|q2|] == q2
    ensures q3[..|r|] == r && q3[..|q1|] == q1
  {
  }

  /** From step `from` on only the daemon acts. */
  ghost predicate DaemonOnly(r: Run, from: nat) {
    forall i :: from <= i < |r| ==> r[i].act.Ingest? || r[i].act.Claim? || r[i].act.Complete?
  }

  lemma StillDaemonOnly(q: Run, r: Run, w: World, a: Action, t: real, from: nat)
    requires Longer(q, r, w, a, t) && DaemonOnly(r, from) && (a.Ingest? || a.Claim? || a.Complete?)
    ensures DaemonOnly(q, from)
  {
    forall i | from <= i < |q| ensures q[i].act.Ingest? || q[i].act.Claim? || q[i].act.Complete? {
      if i < |r| {
        assert q[i] == q[..|r|][i];
      }
    }
  }

  /** The objective is dispatched, claimed and completed. */
  lemma Round(r: Run, w: World, e: Id, tick: Tick, ids: seq<Id>, t: real) returns (q: Run)
    requires Reaches(r, w) && Workable(w, e, tick, ids, t) && |r| >= 1 && DaemonOnly(r, 1)
    ensures |q| == |r| + 3 && q[..|r|] == r && IngestDispatches(q[|r|], "o")
    ensures q[|r| + 2].act == Complete(e, tick, ids, ReflectionsAt(w.db, ids)) && q[|r| + 2].now == t
    ensures q[|r| + 2].before == WorkingWorld(w, e, t) && DaemonOnly(q, 1)
    ensures Reaches(q, AfterRound(w, e, tick, ids, t)) && Tidy(AfterRound(w, e, tick, ids, t), {})
  {
    var q1 := Dispatches(r, w, e, t);
    var q2 := Claims(q1, DispatchedWorld(w, e, t), e, t);
    TrendStays(w, e, tick, ids, t);
    q := Completes(q2, WorkingWorld(w, e, t), e, tick, ids, ReflectionsAt(w.db, ids), t);
    Settles(w, e, tick, ids, t);
    StillTidy(w, e, tick, ids, t);
    StillPrefix(r, q1, q2, q);
    StillDaemonOnly(q1, r, w, Dispatching(e), t, 1);
    StillDaemonOnly(q2, q1, DispatchedWorld(w, e, t), Claim("n", [e]), t, 1);
    StillDaemonOnly(q, q2, WorkingWorld(w, e, t), Complete(e, tick, ids, ReflectionsAt(w.db, ids)), t, 1);
  }

  lemma FreshAfterRound(w: World, e: Id, tick: Tick, ids: seq<Id>, t: real, x: Id)
    requires Workable(w, e, tick, ids, t) && Fresh(w.db, x) && x != e && x != "o"
    ensures Fresh(AfterRound(w, e, tick, ids, t).db, x)
  {
  }

  /** Different letters. */
  lemma Names()
    ensures "a" != "b" && "a" != "c" && "a" != "d" && "b" != "c" && "b" != "d" && "c" != "d"
    ensures "a" != "o" && "b" != "o" && "c" != "o" && "d" != "o"
  {
    assert "a"[0] == 'a' && "b"[0] == 'b' && "c"[0] == 'c' && "d"[0] == 'd' && "o"[0] == 'o';
  }

  /** Nothing is reflected on yet when the first event completes. */
  lemma FirstRound(cadence: real, c: Constraints, p: Policy, e: Id, tick: Tick)
    requires cadence >= 0.0 && e != "o" && Servable(NewRow(cadence, c, p), 0.0) && tick.finalStatus.Finished?
    requires !OutcomeOf(DispatchedRow(NewRow(cadence, c, p), e, 0.0), e, tick, [], 0.0).Escalated()
    ensures Workable(NewWorld(cadence, c, p), e, tick, [], 0.0)
    ensures Verified(NewWorld(cadence, c, p), e, tick, [], 0.0)
         == OutcomeOf(DispatchedRow(NewRow(cadence, c, p), e, 0.0), e, tick, [], 0.0)
  {
    assert ReflectionsAt(NewWorld(cadence, c, p).db, []) == [];
    assert TrendKeys(NewWorld(cadence, c, p).db, "o") == map[];
  }

  // ----- a one-shot that is dispatched twice

  const ONE_PASS: Constraints := SETTINGS.(recoveryPasses := Some(1))

  lemma RecoveredRow(p: Policy)
    requires !RemembersNone(p) && Servable(NewRow(0.0, ONE_PASS, p), 0.0)
    ensures
      var out := OutcomeOf(DispatchedRow(NewRow(0.0, ONE_PASS, p), "a", 0.0), "a", PASS, [], 0.0);
      && !out.Escalated() && Servable(out.objective, 0.0)
      && out.objective.cadence == MinReal(p.cadenceBefore.value, 86400.0)
  {
  }

  lemma RecoveredWorld(p: Policy)
    requires !RemembersNone(p) && Servable(NewRow(0.0, ONE_PASS, p), 0.0)
    ensures Workable(NewWorld(0.0, ONE_PASS, p), "a", PASS, [], 0.0)
    ensures
      var w := AfterRound(NewWorld(0.0, ONE_PASS, p), "a", PASS, [], 0.0);
      Servable(Row(w), 0.0) && Fresh(w.db, "b") && w.claimed.None? && w.clock == 0.0
  {
    Names();
    RecoveredRow(p);
    FirstRound(0.0, ONE_PASS, p, "a", PASS);
    FreshAfterRound(NewWorld(0.0, ONE_PASS, p), "a", PASS, [], 0.0, "b");
  }

  /** A one-shot created in the middle of a remediation that remembers a cadence, neither escalated
      nor held, is dispatched twice once a pass ends the remediation. */
  lemma RememberedCadenceRearms(p: Policy) returns (r: Run)
    requires !RemembersNone(p) && Servable(NewRow(0.0, ONE_PASS, p), 0.0)
    ensures IsRun(r) && |r| == 5 && Init(r[0].before)
    ensures r[0].act == Creating(0.0, ONE_PASS, p) && DaemonOnly(r, 1)
    ensures IngestDispatches(r[1], "o") && IngestDispatches(r[4], "o")
  {
    Names();
    RecoveredWorld(p);
    var w := NewWorld(0.0, ONE_PASS, p);
    var r1 := Creates(0.0, ONE_PASS, p);
    var r4 := Round(r1, w, "a", PASS, [], 0.0);
    r := Dispatches(r4, AfterRound(w, "a", PASS, [], 0.0), "b", 0.0);
    StillPrefix([], r1, r4, r);
    StillDaemonOnly(r, r4, AfterRound(w, "a", PASS, [], 0.0), Dispatching("b"), 0.0, 1);
  }

  // ----- a deferral that outlives its window

  const TWO_REFLECTIONS: Constraints := SETTINGS.(minReflections := Some(2))

  function Miss(confidence: real): Tick {
    Tick(Finished, false, confidence)
  }

  /** The objective of cadence 60 after its first `k` events have all missed. */
  function Missed(k: nat, last: Option<Id>): Objective {
    NewRow(60.0, TWO_REFLECTIONS, CALM).(nextRun := 60.0 * k as real, lastEvent := last,
                                         policy := CALM.(failStreak := k))
  }

  ghost predicate Stage(w: World, row: Objective, reflections: map<Id, Reflection>) {
    Tidy(w, {}) && w.claimed.None? && w.clock <= row.nextRun && Row(w) == row && w.db.reflections == reflections
  }

  lemma MissesOnce(k: nat, last: Option<Id>, e: Id, confidence: real, rows: seq<Reflection>)
    requires k <= 1 && |rows| <= 1
    ensures
      var t := 60.0 * k as real;
      var out := OutcomeOf(DispatchedRow(Missed(k, last), e, t), e, Miss(confidence), rows, t);
      !out.Escalated() && out.objective == Missed(k + 1, Some(e))
  {
  }

  const FIRST: Reflection := Reflection("o", false, 0.9, 0.0)
  const SECOND: Reflection := Reflection("o", false, 0.1, 60.0)

  /** The remediated objective: slowed down to 90 seconds and deferred by ten minutes. */
  const DEFERRED: Objective :=
    Missed(3, Some("c")).(cadence := 90.0, nextRun := 720.0,
                          policy := CALM.(failStreak := 3, escalation := Deferred, deferredUntil := Some(720.0),
                                          holdUntil := Some(720.0), holdReason := AutoRemediationWindow,
                                          remediation := RemediationActive, cadenceBefore := Some(60.0)))

  lemma MissesThird()
    ensures
      var out := OutcomeOf(DispatchedRow(Missed(2, Some("b")), "c", 120.0), "c", Miss(0.1), [SECOND, FIRST], 120.0);
      out.remediated && !out.Escalated() && out.objective == DEFERRED
  {
    assert [SECOND, FIRST][..1] == [SECOND] && [SECOND][..0] == [];
    assert PassCount([SECOND, FIRST]) == 0;
  }

  lemma StageOne()
    ensures
      var w := NewWorld(60.0, TWO_REFLECTIONS, CALM);
      Workable(w, "a", Miss(0.9), [], 0.0)
      && Stage(AfterRound(w, "a", Miss(0.9), [], 0.0), Missed(1, Some("a")), map["a" := FIRST])
  {
    Names();
    MissesOnce(0, None, "a", 0.9, []);
    FirstRound(60.0, TWO_REFLECTIONS, CALM, "a", Miss(0.9));
    StillTidy(NewWorld(60.0, TWO_REFLECTIONS, CALM), "a", Miss(0.9), [], 0.0);
  }

  lemma SecondWorkable(w: World)
    requires Stage(w, Missed(1, Some("a")), map["a" := FIRST]) && Fresh(w.db, "b")
    ensures Workable(w, "b", Miss(0.1), ["a"], 60.0)
    ensures Verified(w, "b", Miss(0.1), ["a"], 60.0).objective == Missed(2, Some("b"))
  {
    Names();
    assert TrendKeys(w.db, "o").Keys == {"a"};
    assert ReflectionsAt(w.db, ["a"]) == [FIRST];
    MissesOnce(1, Some("a"), "b", 0.1, [FIRST]);
  }

  lemma StageTwo(w: World)
    requires Stage(w, Missed(1, Some("a")), map["a" := FIRST]) && Fresh(w.db, "b")
    ensures Workable(w, "b", Miss(0.1), ["a"], 60.0)
    ensures Stage(AfterRound(w, "b", Miss(0.1), ["a"], 60.0), Missed(2, Some("b")), map["a" := FIRST, "b" := SECOND])
  {
    SecondWorkable(w);
    StillTidy(w, "b", Miss(0.1), ["a"], 60.0);
  }

  lemma StageThree(w: World)
    requires Stage(w, Missed(2, Some("b")), map["a" := FIRST, "b" := SECOND]) && Fresh(w.db, "c")
    ensures Workable(w, "c", Miss(0.1), ["b", "a"], 120.0)
    ensures Verified(w, "c", Miss(0.1), ["b", "a"], 120.0).remediated
    ensures AfterRound(w, "c", Miss(0.1), ["b", "a"], 120.0).db.objectives["o"] == DEFERRED
  {
    Names();
    assert TrendKeys(w.db, "o").Keys == {"a", "b"};
    assert ReflectionsAt(w.db, ["b", "a"]) == [SECOND, FIRST];
    MissesThird();
  }

  lemma FirstMiss() returns (r: Run, w: World)
    ensures Reaches(r, w) && |r| == 4 && r[0].act.Create? && DaemonOnly(r, 1)
    ensures Stage(w, Missed(1, Some("a")), map["a" := FIRST])
    ensures Fresh(w.db, "b") && Fresh(w.db, "c") && Fresh(w.db, "d")
  {
    Names();
    var v := NewWorld(60.0, TWO_REFLECTIONS, CALM);
    var r1 := Creates(60.0, TWO_REFLECTIONS, CALM);
    StageOne();
    r := Round(r1, v, "a", Miss(0.9), [], 0.0);
    w := AfterRound(v, "a", Miss(0.9), [], 0.0);
    FreshAfterRound(v, "a", Miss(0.9), [], 0.0, "b");
    FreshAfterRound(v, "a", Miss(0.9), [], 0.0, "c");
    FreshAfterRound(v, "a", Miss(0.9), [], 0.0, "d");
    assert r[0] == r[..1][0];
  }

  lemma SecondMiss(r: Run, w: World) returns (q: Run, v: World)
    requires Reaches(r, w) && |r| == 4 && DaemonOnly(r, 1)
    requires Stage(w, Missed(1, Some("a")), map["a" := FIRST])
    requires Fresh(w.db, "b") && Fresh(w.db, "c") && Fresh(w.db, "d")
    ensures Reaches(q, v) && |q| == 7 && q[..4] == r && DaemonOnly(q, 1)
    ensures Stage(v, Missed(2, Some("b")), map["a" := FIRST, "b" := SECOND])
    ensures Fresh(v.db, "c") && Fresh(v.db, "d")
  {
    Names();
    StageTwo(w);
    q := Round(r, w, "b", Miss(0.1), ["a"], 60.0);
    v := AfterRound(w, "b", Miss(0.1), ["a"], 60.0);
    FreshAfterRound(w, "b", Miss(0.1), ["a"], 60.0, "c");
    FreshAfterRound(w, "b", Miss(0.1), ["a"], 60.0, "d");
  }

  lemma WorkingRemediates(w: World, s: Step, e: Id, tick: Tick, ids: seq<Id>, t: real)
    requires Workable(w, e, tick, ids, t) && Verified(w, e, tick, ids, t).remediated
    requires s.act == Complete(e, tick, ids, ReflectionsAt(w.db, ids)) && s.now == t
    requires s.before == WorkingWorld(w, e, t)
    ensures Remediates(s, "o")
  {
  }

  lemma ThirdMiss() returns (r: Run, w: World)
    ensures Reaches(r, w) && |r| == 10 && r[0].act.Create? && DaemonOnly(r, 1)
    ensures Remediates(r[9], "o") && r[9].now == 120.0
    ensures Tidy(w, {}) && w.claimed.None? && w.clock == 120.0 && Row(w) == DEFERRED && Fresh(w.db, "d")
  {
    Names();
    var r4, v1 := FirstMiss();
    var r7, v := SecondMiss(r4, v1);
    StageThree(v);
    r := Round(r7, v, "c", Miss(0.1), ["b", "a"], 120.0);
    w := AfterRound(v, "c", Miss(0.1), ["b", "a"], 120.0);
    FreshAfterRound(v, "c", Miss(0.1), ["b", "a"], 120.0, "d");
    WorkingRemediates(v, r[9], "c", Miss(0.1), ["b", "a"], 120.0);
    assert r[0] == r[..7][0] && r7[0] == r7[..4][0];
  }

  /** The daemon alone gets there: after three misses a remediation defers the objective for ten
      minutes; when they are over the intake dispatches it, and the row is still deferred. */
  lemma DeferralOutlivesDispatch() returns (r: Run)
    ensures IsRun(r) && |r| == 11 && Init(r[0].before) && r[0].act.Create? && DaemonOnly(r, 1)
    ensures Remediates(r[9], "o") && IngestDispatches(r[10], "o")
    ensures "o" in r[10].before.db.objectives && "o" in r[10].after.db.objectives
    ensures r[10].before.db.objectives["o"].policy.escalation.Deferred?
    ensures Hold(r[10].before.db.objectives["o"].policy, r[10].now) <= r[10].now
    ensures r[10].after.db.objectives["o"].policy.escalation.Deferred?
  {
    var r10, w := ThirdMiss();
    Names();
    r := Dispatches(r10, w, "d", 720.0);
    StillDaemonOnly(r, r10, w, Dispatching("d"), 720.0, 1);
    assert r[9] == r[..10][9] && r[0] == r[..10][0];
  }

  // ----- an escalation left open with nothing waiting

  /** An event of the objective that names it as its parent only. */
  const CHILD: Request := Request("n", None, Some("o"), [], Some(50), 50, 3, 0, None, None, false)

  function ChildEvent(): Event {
    EnqueuedEvent(CHILD, 0, 0.0)
  }

  const WAITS: Tick := Tick(FinalWaitingForInput, true, 1.0)

  lemma Enqueues(r: Run, w: World, id: Id, q: Request) returns (p: Run)
    requires Reaches(r, w) && w.clock == 0.0 && Enabled(w, Enqueue(id, q), 0.0)
    ensures Reaches(p, World(AfterEnqueue(w.db, id, q, 0.0), w.claimed, 0.0))
    ensures Longer(p, r, w, Enqueue(id, q), 0.0)
  {
    p := Extend(r, w, Enqueue(id, q), 0.0);
  }

  lemma Approves(r: Run, w: World, id: Id) returns (p: Run)
    requires Reaches(r, w) && w.clock == 0.0 && id in w.db.events && w.db.events[id].status.WaitingForInput?
    ensures Reaches(p, World(AfterApprove(w.db, id, 0.0), w.claimed, 0.0))
    ensures Longer(p, r, w, Resolve(id, true), 0.0)
  {
    p := Extend(r, w, Resolve(id, true), 0.0);
  }

  /** The database while the child is worked on. */
  function ChildDb(): Db {
    Db(map["a" := ClaimedEvent(ChildEvent(), 0.0)], map["o" := NewRow(60.0, SETTINGS, CALM)], map[])
  }

  lemma ChildEscalates()
    ensures TrendAnswer(ChildDb(), "a", [], [])
    ensures OutcomeOf(ChildDb().objectives["o"], "a", WAITS, [], 0.0).Escalated()
    ensures
      var db := AfterComplete(ChildDb(), "a", WAITS, [], 0.0);
      && Belongs(db, "a", "o") && db.events["a"].status.WaitingForInput? && db.events["a"].metaObjective.None?
      && EscalationOpen(db, "o") && db.objectives["o"].policy.escalationEvent == Some("a")
  {
    assert TrendKeys(ChildDb(), "o") == map[];
    assert VerifiedObjective(ChildDb(), "a") == Some("o");
  }

  lemma ChildWaits() returns (r: Run, w: World)
    ensures Reaches(r, w) && |r| == 4 && w.clock == 0.0 && w.db == AfterComplete(ChildDb(), "a", WAITS, [], 0.0)
    ensures r[1].act == Enqueue("a", CHILD)
    ensures r[3].act == Complete("a", WAITS, [], []) && r[3].now == 0.0 && r[3].before.db == ChildDb()
  {
    Names();
    var w1 := NewWorld(60.0, SETTINGS, CALM);
    var r1 := Creates(60.0, SETTINGS, CALM);
    var r2 := Enqueues(r1, w1, "a", CHILD);
    var w2 := World(AfterEnqueue(w1.db, "a", CHILD, 0.0), None, 0.0);
    assert w2.db.events == map["a" := ChildEvent()];
    var r3 := Claims(r2, w2, "a", 0.0);
    assert ClaimedWorld(w2, "a", 0.0).db == ChildDb();
    ChildEscalates();
    r := Completes(r3, ClaimedWorld(w2, "a", 0.0), "a", WAITS, [], [], 0.0);
    w := World(AfterComplete(ChildDb(), "a", WAITS, [], 0.0), None, 0.0);
    assert r[1] == r[..3][1] && r3[1] == r3[..2][1];
  }

  /** An event enqueued with the objective as its parent alone escalates, is approved, and leaves the
      escalation open: nothing waits, and no operator opened it. */
  lemma ApprovalLeavesOpen() returns (r: Run)
    ensures IsRun(r) && |r| == 5 && Init(r[0].before)
    ensures LinksByParentOnly(r[1], "o") && r[4].act == Resolve("a", true)
    ensures EscalationOpen(r[4].before.db, "o") && EscalationOpen(r[4].after.db, "o")
    ensures !EventWaits(r[4].after.db, "o") && !OpenByHand(r, "o")
  {
    ChildEscalates();
    var r4, w := ChildWaits();
    ApprovalClosesExactly(w.db, "o", "a", 0.0);
    r := Approves(r4, w, "a");
    assert r[1] == r[..4][1] && r[3] == r[..4][3];
    OpenedByTick(r4, r);
  }

  lemma OpenedByTick(r: Run, q: Run)
    requires |r| == 4 && |q| == 5 && q[..4] == r && q[4].act.Resolve? && q[4].act.approved
    requires r[3].act.Complete? && Verifies(r[3], "o") && VerifyOutcome(r[3], "o").Escalated()
    ensures !OpenByHand(q, "o")
  {
    assert !OpenByHand(r, "o");
  }

  // ----- fifty events in front of a ready one

  function BlockedId(i: nat): Id {
    seq(i + 1, _ => 'b')
  }

  function BlockedIds(n: nat): set<Id> {
    set i | 0 <= i < n :: BlockedId(i)
  }

  lemma {:induction false} BlockedCard(n: nat)
    ensures |BlockedIds(n)| == n
  {
    if n > 0 {
      BlockedCard(n - 1);
      assert BlockedIds(n) == BlockedIds(n - 1) + {BlockedId(n - 1)};
      assert forall i: nat :: i < n - 1 ==> |BlockedId(i)| == i + 1;
      assert BlockedId(n - 1) !in BlockedIds(n - 1);
    }
  }

  lemma BlockedNames(n: nat)
    ensures "x" !in BlockedIds(n) && "r" !in BlockedIds(n) && BlockedId(n) !in BlockedIds(n)
    ensures BlockedId(n) != "x" && "r" != "x" && BlockedId(n) != "r"
    ensures BlockedIds(n + 1) == BlockedIds(n) + {BlockedId(n)}
  {
    forall i | 0 <= i < n ensures BlockedId(i) != BlockedId(n) && BlockedId(i)[0] == 'b' {
      assert |BlockedId(i)| == i + 1;
    }
    assert BlockedId(n)[0] == 'b' && "x"[0] == 'x' && "r"[0] == 'r';
  }

  function Asked(priority: int, deps: seq<Id>): Request {
    Request("n", None, None, deps, Some(priority), 50, 3, 0, None, None, false)
  }

  predicate WaitsForX(e: Event) {
    && e.niche == "n" && e.status.Pending? && e.availableAt == 0.0 && e.createdAt == 0.0 && e.priority == 1
    && e.deps == ["x"] && e.metaObjective.None? && e.parent.None?
  }

  /** The event "x", failed or pending behind the others, and the first `n` that wait for it. */
  ghost predicate Queue(w: World, n: nat, failed: bool) {
    && w.claimed.None? && w.clock == 0.0
    && w.db.objectives == map[] && w.db.reflections == map[]
    && w.db.events.Keys == BlockedIds(n) + {"x"}
    && First(w.db.events["x"], failed)
    && forall b <- BlockedIds(n) :: WaitsForX(w.db.events[b])
  }

  predicate First(x: Event, failed: bool) {
    && x.niche == "n" && x.deps == [] && x.metaObjective.None? && x.parent.None?
    && (if failed then x.status.Failed?
        else x.status.Pending? && x.priority == 2 && x.availableAt == 0.0 && x.createdAt == 0.0)
  }

  /** An event that fails at once. */
  lemma FailsFirst() returns (r: Run, w: World)
    ensures Reaches(r, w) && |r| == 3 && Queue(w, 0, true)
  {
    var r1 := Enqueues([], START, "x", Asked(1, []));
    var w1 := World(AfterEnqueue(EMPTY_DB, "x", Asked(1, []), 0.0), None, 0.0);
    var r2 := Claims(r1, w1, "x", 0.0);
    var w2 := ClaimedWorld(w1, "x", 0.0);
    r := Extend(r2, w2, Fail("x", Auth, true), 0.0);
    w := Do(w2, Fail("x", Auth, true), 0.0).after;
    assert BlockedIds(0) == {};
  }

  /** An event of less priority than those that will wait for it. */
  lemma WaitsFirst() returns (r: Run, w: World)
    ensures Reaches(r, w) && |r| == 1 && Queue(w, 0, false)
  {
    r := Enqueues([], START, "x", Asked(2, []));
    w := World(AfterEnqueue(EMPTY_DB, "x", Asked(2, []), 0.0), None, 0.0);
    assert BlockedIds(0) == {};
  }

  lemma FreshBehind(w: World, n: nat, failed: bool, id: Id)
    requires Queue(w, n, failed) && id !in BlockedIds(n) && id != "x"
    ensures Fresh(w.db, id)
  {
    forall k | k in w.db.events
      ensures id !in w.db.events[k].deps
      ensures w.db.events[k].metaObjective != Some(id) && w.db.events[k].parent != Some(id)
    {
      assert k == "x" || k in BlockedIds(n);
    }
  }

  lemma QueueGrowsBy(w: World, n: nat, failed: bool, e: Event)
    requires Queue(w, n, failed) && WaitsForX(e)
    ensures Queue(World(w.db.(events := w.db.events[BlockedId(n) := e]), None, 0.0), n + 1, failed)
  {
    BlockedNames(n);
  }

  lemma QueueGrows(w: World, n: nat, failed: bool)
    requires Queue(w, n, failed)
    ensures Queue(World(AfterEnqueue(w.db, BlockedId(n), Asked(1, ["x"]), 0.0), None, 0.0), n + 1, failed)
  {
    BlockedNames(n);
    var e := EnqueuedEvent(Asked(1, ["x"]), |w.db.events|, 0.0);
    assert WaitsForX(e);
    QueueGrowsBy(w, n, failed, e);
  }

  lemma {:induction false} QueueFills(n: nat, failed: bool) returns (r: Run, w: World)
    ensures Reaches(r, w) && |r| == n + (if failed then 3 else 1) && Queue(w, n, failed)
  {
    if n == 0 {
      if failed {
        r, w := FailsFirst();
      } else {
        r, w := WaitsFirst();
      }
    } else {
      var p, v := QueueFills(n - 1, failed);
      BlockedNames(n - 1);
      FreshBehind(v, n - 1, failed, BlockedId(n - 1));
      QueueGrows(v, n - 1, failed);
      r := Enqueues(p, v, BlockedId(n - 1), Asked(1, ["x"]));
      w := World(AfterEnqueue(v.db, BlockedId(n - 1), Asked(1, ["x"]), 0.0), None, 0.0);
    }
  }

  /** With the ready event behind them. */
  ghost function QueueDb(w: World): Db {
    AfterEnqueue(w.db, "r", Asked(2, []), 0.0)
  }

  lemma BlockedInFront(w: World, n: nat, b: Id)
    requires Queue(w, n, true) && b in BlockedIds(n)
    ensures
      var db := QueueDb(w);
      && b in db.events && "r" in db.events && Eligible(db.events[b], "n", 0.0)
      && Comes(db.events[b], db.events["r"]) && StuckDep(db, b, BlockedIds(n) + {"r"})
  {
    BlockedNames(n);
    assert WaitsForX(w.db.events[b]) && QueueDb(w).events[b] == w.db.events[b];
    assert "x" in w.db.events[b].deps;
  }

  /** Fifty candidates before an event, each waiting for a failed one, for another of them or for it. */
  lemma FrontJams(w: World, front: set<Id>, x: Id)
    requires w.claimed.None? && |front| >= CLAIM_WINDOW && StillPending(w.db, x) && w.db.events[x].niche == "n"
    requires forall b <- front ::
      && b in w.db.events && Eligible(w.db.events[b], "n", w.clock)
      && Comes(w.db.events[b], w.db.events[x]) && StuckDep(w.db, b, front + {x})
    ensures forall id <- front + {x} :: StillPending(w.db, id) && NeverStarts(w, id)
  {
    assert Jammed(w.db, "n", w.clock, front + {x}, front);
    forall id | id in front + {x} ensures NeverStarts(w, id) {
      JamNeverStarts(w, "n", id);
    }
  }

  lemma LastIsReady(w: World, n: nat)
    requires Queue(w, n, true)
    ensures ReadyCandidate(QueueDb(w), "n", 0.0, "r")
  {
  }

  lemma QueueIsReached(n: nat) returns (r: Run, w: World, v: World)
    ensures Reaches(r, w) && |r| == n + 4
    ensures Queue(v, n, true) && w == World(QueueDb(v), None, 0.0)
  {
    var p;
    p, v := QueueFills(n, true);
    BlockedNames(n);
    FreshBehind(v, n, true, "r");
    r := Enqueues(p, v, "r", Asked(2, []));
    w := World(QueueDb(v), None, 0.0);
  }

  /** A run that ends with a claimable event without dependencies behind fifty or more that wait for a
      failed one: it never starts. */
  lemma StarvationIsReached(n: nat) returns (r: Run, w: World)
    requires n >= CLAIM_WINDOW
    ensures Reaches(r, w) && |r| == n + 4
    ensures ReadyCandidate(w.db, "n", w.clock, "r") && NeverStarts(w, "r")
  {
    var v;
    r, w, v := QueueIsReached(n);
    LastIsReady(v, n);
    LastIsStarved(w, v, n);
  }

  lemma LastIsStarved(w: World, v: World, n: nat)
    requires Queue(v, n, true) && n >= CLAIM_WINDOW && w == World(QueueDb(v), None, 0.0)
    ensures NeverStarts(w, "r")
  {
    BlockedCard(n);
    LastIsReady(v, n);
    forall b | b in BlockedIds(n)
      ensures b in w.db.events && Eligible(w.db.events[b], "n", 0.0)
      ensures Comes(w.db.events[b], w.db.events["r"]) && StuckDep(w.db, b, BlockedIds(n) + {"r"})
    {
      BlockedInFront(v, n, b);
    }
    FrontJams(w, BlockedIds(n), "r");
  }

  lemma FirstIsStarved(w: World, n: nat)
    requires Queue(w, n, false) && n >= CLAIM_WINDOW
    ensures forall id <- w.db.events :: StillPending(w.db, id) && NeverStarts(w, id)
    ensures ReadyCandidate(w.db, "n", 0.0, "x")
  {
    BlockedCard(n);
    forall b | b in BlockedIds(n)
      ensures b in w.db.events && Eligible(w.db.events[b], "n", 0.0)
      ensures Comes(w.db.events[b], w.db.events["x"]) && StuckDep(w.db, b, BlockedIds(n) + {"x"})
    {
      assert WaitsForX(w.db.events[b]) && "x" in w.db.events[b].deps;
    }
    FrontJams(w, BlockedIds(n), "x");
  }

  /** Nothing has to fail: fifty events that wait for one of less priority keep it, and with it
      themselves, from ever starting. */
  lemma StarvationWithoutFailure(n: nat) returns (r: Run, w: World)
    requires n >= CLAIM_WINDOW
    ensures Reaches(r, w) && |r| == n + 1 && w.db.events.Keys == BlockedIds(n) + {"x"}
    ensures forall id <- w.db.events :: StillPending(w.db, id) && NeverStarts(w, id)
    ensures ReadyCandidate(w.db, "n", w.clock, "x")
  {
    r, w := QueueFills(n, false);
    FirstIsStarved(w, n);
  }
}
