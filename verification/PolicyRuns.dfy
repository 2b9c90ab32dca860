/** Fail streaks, escalations and the remediation round trip over whole runs. */
module PolicyRuns {
  import opened Common
  import opened RowQuery
  import opened Schema
  import opened VerificationPolicy
  import opened Scheduler
  import opened Machine

  datatype Verdict = Verdict(passed: bool, waiting: bool) {
    predicate Clean() { passed && !waiting }
  }

  /** The verdicts of the objective's completed events, in order. */
  ghost function Verdicts(r: Run, o: Id): seq<Verdict> {
    if r == [] then []
    else
      Verdicts(r[..|r| - 1], o) + NewVerdict(r[|r| - 1], o)
  }

  ghost function NewVerdict(s: Step, o: Id): seq<Verdict> {
    if Verifies(s, o) then [Verdict(s.act.tick.passed, Waiting(s.act.tick.finalStatus))] else []
  }

  function TrailingFailures(v: seq<Verdict>): nat {
    if v == [] || v[|v| - 1].passed then 0 else 1 + TrailingFailures(v[..|v| - 1])
  }

  function TrailingClean(v: seq<Verdict>): (n: nat)
    ensures n <= |v|
    ensures forall i :: |v| - n <= i < |v| ==> v[i].Clean()
  {
    if v == [] || !v[|v| - 1].Clean() then 0 else 1 + TrailingClean(v[..|v| - 1])
  }

  lemma {:induction false} TrailingCleanAtLeast(v: seq<Verdict>, n: nat)
    requires n <= |v| && forall i :: |v| - n <= i < |v| ==> v[i].Clean()
    ensures TrailingClean(v) >= n
  {
    if n > 0 {
      TrailingCleanAtLeast(v[..|v| - 1], n - 1);
    }
  }

  /** What only a verification or a policy written by an operator can change. */
  predicate SameTracked(a: Objective, b: Objective) {
    && a.policy.failStreak == b.policy.failStreak
    && a.policy.remediation == b.policy.remediation
    && a.policy.passStreak == b.policy.passStreak
    && a.policy.cadenceBefore == b.policy.cadenceBefore
  }

  /** An operator replaces the objective's whole policy. Pausing, resuming and changes of priority,
      next run, constraints or cadence leave the tracked part of it alone. */
  ghost predicate RewritesPolicy(s: Step, o: Id) {
    s.act.Change? && s.act.objective == o && s.act.update.policy.Some?
  }

  ghost predicate SetsCadence(s: Step, o: Id) {
    s.act.Change? && s.act.objective == o && s.act.update.cadence.Some?
  }

  lemma CompleteTracks(s: Step, o: Id)
    requires Next(s) && s.act.Complete? && o in s.before.db.objectives
    ensures o in s.after.db.objectives
    ensures !Verifies(s, o) ==> s.after.db.objectives[o] == s.before.db.objectives[o]
    ensures Verifies(s, o) ==>
      && SameTracked(s.after.db.objectives[o], VerifyOutcome(s, o).objective)
      && s.after.db.objectives[o].cadence == VerifyOutcome(s, o).objective.cadence
  {
  }

  lemma IntakeTracks(db: Db, job: Job, niche: string, now: real, o: Id)
    requires job.objective in db.objectives && o in db.objectives
    ensures
      var after := AfterIntake(db, job, niche, now);
      && o in after.objectives && SameTracked(after.objectives[o], db.objectives[o])
      && after.objectives[o].cadence == db.objectives[o].cadence
  {
  }

  lemma DispatchTracks(db: Db, x: Id, event: Id, niche: string, resume: bool, lowRisk: bool, now: real, o: Id)
    requires x in db.objectives && o in db.objectives
    ensures
      var after := AfterManualDispatch(db, x, event, niche, resume, lowRisk, now);
      && o in after.objectives && SameTracked(after.objectives[o], db.objectives[o])
      && after.objectives[o].cadence == db.objectives[o].cadence
  {
  }

  lemma StepTracks(s: Step, o: Id)
    requires Next(s) && o in s.before.db.objectives && !RewritesPolicy(s, o)
    ensures o in s.after.db.objectives
    ensures
      var was := if Verifies(s, o) then VerifyOutcome(s, o).objective else s.before.db.objectives[o];
      && SameTracked(s.after.db.objectives[o], was)
      && (!SetsCadence(s, o) ==> s.after.db.objectives[o].cadence == was.cadence)
  {
    match s.act
    case Ingest(niche, job) => IntakeTracks(s.before.db, job, niche, s.now, o);
    case Complete(id, tick, ids, rows) => CompleteTracks(s, o);
    case DispatchNow(x, niche, id, resume, lowRisk) =>
      DispatchTracks(s.before.db, x, id, niche, resume, lowRisk, s.now, o);
    case _ =>
  }

  // ----- the fail streak

  /** The run starts with the creation of the objective, and no operator writes its policy later. */
  ghost predicate CreatedRun(r: Run, o: Id) {
    && IsRun(r) && r != []
    && r[0].act.Create? && r[0].act.objective == o && r[0].act.policy.failStreak == 0
    && forall s <- r :: !RewritesPolicy(s, o)
  }

  lemma StepStreak(s: Step, o: Id)
    requires Next(s) && o in s.before.db.objectives && !RewritesPolicy(s, o)
    ensures o in s.after.db.objectives
    ensures s.after.db.objectives[o].policy.failStreak ==
      if !Verifies(s, o) then s.before.db.objectives[o].policy.failStreak
      else if s.act.tick.passed then 0
      else s.before.db.objectives[o].policy.failStreak + 1
  {
    StepTracks(s, o);
  }

  lemma StreakStep(s: Step, o: Id, v: seq<Verdict>)
    requires Next(s) && o in s.before.db.objectives && !RewritesPolicy(s, o)
    requires s.before.db.objectives[o].policy.failStreak == TrailingFailures(v)
    ensures o in s.after.db.objectives
    ensures s.after.db.objectives[o].policy.failStreak == TrailingFailures(v + NewVerdict(s, o))
  {
    StepStreak(s, o);
    if Verifies(s, o) {
      assert (v + NewVerdict(s, o))[..|v|] == v;
    } else {
      assert v + [] == v;
    }
  }

  /** The stored fail streak is the length of the trailing block of failed verifications. */
  lemma {:induction false} FailStreakIsTrailingFailures(r: Run, o: Id)
    requires CreatedRun(r, o)
    ensures o in r[|r| - 1].after.db.objectives
    ensures r[|r| - 1].after.db.objectives[o].policy.failStreak == TrailingFailures(Verdicts(r, o))
  {
    RunPrefix(r);
    var s, p := r[|r| - 1], r[..|r| - 1];
    assert s in r;
    if |r| > 1 {
      forall t | t in p ensures !RewritesPolicy(t, o) { assert t in r; }
      FailStreakIsTrailingFailures(p, o);
      StreakStep(s, o, Verdicts(p, o));
    }
  }

  /** A verification escalates for the fail streak exactly when the run so far ends in enough
      failures and nothing else takes precedence: waiting for input, a remediation, or a deferral
      that is still running. */
  lemma FailStreakEscalatesExactly(r: Run, o: Id)
    requires CreatedRun(r, o) && Verifies(r[|r| - 1], o)
    ensures
      var s := r[|r| - 1];
      var row := s.before.db.objectives[o];
      VerifyOutcome(s, o).reason.FailStreakEscalation? <==>
        && TrailingFailures(Verdicts(r, o)) >= row.constraints.MaxFailStreak()
        && row.constraints.escalateOnFailStreak
        && !(Waiting(s.act.tick.finalStatus) && row.constraints.escalateOnWaiting)
        && !WindowActive(row.policy, s.now)
        && !Remediates(s, o)
  {
    RunPrefix(r);
    FailStreakIsTrailingFailures(r, o);
    var s := r[|r| - 1];
    StepTracks(s, o);
  }

  /** While a deferral is running no verification opens an escalation. */
  lemma NoEscalationWhileDeferred(s: Step, o: Id)
    requires Next(s) && Verifies(s, o)
    requires WindowActive(s.before.db.objectives[o].policy, s.now)
    ensures !VerifyOutcome(s, o).Escalated()
    ensures o in s.after.db.objectives && !s.after.db.objectives[o].policy.escalation.Open?
  {
  }

  // ----- the remediation round trip

  /** Scaling by a factor of at least one, with a floor. */
  function Scaled(floor: real, c: real, f: real): (r: real)
    requires c >= 0.0 && f >= 1.0
    ensures r >= c && r >= floor
    ensures c >= floor ==> r == c * f
  {
    assert c * (f - 1.0) >= 0.0;
    MaxReal(floor, c * f)
  }

  lemma SlowedValue(o: Objective)
    ensures 1.0 <= o.constraints.MinCadence() <= 86400.0 && o.constraints.Slowdown() >= 1.0
    ensures SlowedCadence(o) ==
      Scaled(o.constraints.MinCadence(),
             if CurrentCadence(o) > 0.0 then CurrentCadence(o) else o.constraints.BaseCadence(),
             o.constraints.Slowdown())
  {
  }

  /** Remediation never shortens the cadence it reads. */
  lemma SlowedNotShortened(o: Objective)
    ensures SlowedCadence(o) >= CurrentCadence(o)
  {
    SlowedValue(o);
  }

  /** Nor the stored one, unless that is more than the slowdown of a whole day: cadences are read
      clamped to a day. */
  lemma StoredCadenceShortenedExactly(o: Objective)
    requires o.cadence >= 0.0
    ensures SlowedCadence(o) >= o.cadence <==> o.cadence <= Scaled(0.0, 86400.0, o.constraints.Slowdown())
  {
    SlowedValue(o);
    SlowedNotShortened(o);
  }

  /** The state of an objective between its remediation at cadence `c` and its recovery, after `k`
      clean passes in a row out of at most `n`. */
  ghost predicate Recovery(o: Objective, c: real, k: nat, n: nat) {
    || (o.policy.remediation.Recovered? && o.cadence == c)
    || (InRemediation(o.policy) && o.policy.cadenceBefore == Some(c) && o.policy.passStreak >= k && k < n)
  }

  lemma VerifyRecovery(o: Objective, id: Id, passed: bool, final: FinalStatus, trend: Trend, now: real,
                       c: real, k: nat, n: nat)
    requires Recovery(o, c, k, n) && 0.0 <= c <= 86400.0 && o.constraints.RecoveryPasses() <= n <= 1000000
    requires !RemediationDue(o, passed, trend)
    ensures
      var k' := if passed && !Waiting(final) then k + 1 else 0;
      Recovery(Verify(o, id, passed, final, trend, now).objective, c, k', n)
  {
    if o.policy.remediation.Recovered? && o.cadence == c {
      assert CurrentCadence(o) == c;
    }
  }

  /** An operator writes the policy, or the cadence of an objective that has recovered. A cadence set
      in mid-recovery does not matter: recovery overwrites it. */
  ghost predicate Edits(s: Step, o: Id) {
    || RewritesPolicy(s, o)
    || (SetsCadence(s, o) && o in s.before.db.objectives && s.before.db.objectives[o].policy.remediation.Recovered?)
  }

  /** From the first step on: a remediation, then no other one and no such edit, and never more than
      `n` passes asked for. */
  ghost predicate RemediatedRun(r: Run, o: Id, n: nat) {
    && IsRun(r) && r != []
    && Remediates(r[0], o)
    && (forall i :: 0 < i < |r| ==> !Remediates(r[i], o) && !Edits(r[i], o))
    && (forall s <- r :: Verifies(s, o) ==> s.before.db.objectives[o].constraints.RecoveryPasses() <= n)
    && n <= 10
  }

  lemma RecoveryStarts(s: Step, o: Id, n: nat)
    requires Next(s) && Remediates(s, o) && s.before.db.objectives[o].constraints.RecoveryPasses() <= n
    ensures o in s.after.db.objectives
    ensures Recovery(s.after.db.objectives[o], CurrentCadence(s.before.db.objectives[o]), 0, n)
  {
    CompleteTracks(s, o);
  }

  lemma RecoveryStep(s: Step, o: Id, c: real, k: nat, n: nat)
    requires Next(s) && o in s.before.db.objectives && !Edits(s, o) && !Remediates(s, o)
    requires 0.0 <= c <= 86400.0 && n <= 10
    requires Verifies(s, o) ==> s.before.db.objectives[o].constraints.RecoveryPasses() <= n
    requires Recovery(s.before.db.objectives[o], c, k, n)
    ensures o in s.after.db.objectives
    ensures
      var k' := if !Verifies(s, o) then k
                else if s.act.tick.passed && !Waiting(s.act.tick.finalStatus) then k + 1 else 0;
      Recovery(s.after.db.objectives[o], c, k', n)
  {
    StepTracks(s, o);
    if Verifies(s, o) {
      VerifyRecovery(s.before.db.objectives[o], s.act.event, s.act.tick.passed, s.act.tick.finalStatus,
                     TrendOf(s.act.trend), s.now, c, k, n);
    }
  }

  /** The clean passes since the remediation, after step `k`. */
  ghost function CleanSince(r: Run, o: Id, k: nat): nat
    requires k < |r|
  {
    TrailingClean(Verdicts(r[1..k + 1], o))
  }

  lemma CleanSinceStep(r: Run, o: Id, k: nat)
    requires 0 < k < |r|
    ensures CleanSince(r, o, k) ==
      if !Verifies(r[k], o) then CleanSince(r, o, k - 1)
      else if r[k].act.tick.passed && !Waiting(r[k].act.tick.finalStatus) then CleanSince(r, o, k - 1) + 1
      else 0
  {
    var t := r[1..k + 1];
    assert t[|t| - 1] == r[k] && t[..|t| - 1] == r[1..k];
    VerdictsGrow(t, o);
  }

  lemma {:induction false} RecoveryAlong(r: Run, o: Id, n: nat, k: nat)
    requires RemediatedRun(r, o, n) && k < |r|
    ensures o in r[k].after.db.objectives
    ensures Recovery(r[k].after.db.objectives[o], CurrentCadence(r[0].before.db.objectives[o]), CleanSince(r, o, k), n)
  {
    assert r[k] in r;
    if k == 0 {
      RecoveryStarts(r[0], o, n);
      assert r[1..1] == [];
    } else {
      RecoveryAlong(r, o, n, k - 1);
      assert r[k - 1].after == r[k].before;
      CleanSinceStep(r, o, k);
      RecoveryStep(r[k], o, CurrentCadence(r[0].before.db.objectives[o]), CleanSince(r, o, k - 1), n);
    }
  }

  lemma VerdictsGrow(r: Run, o: Id)
    requires r != []
    ensures
      var s, v := r[|r| - 1], Verdicts(r[..|r| - 1], o);
      if Verifies(s, o) then
        TrailingClean(Verdicts(r, o))
          == if s.act.tick.passed && !Waiting(s.act.tick.finalStatus) then TrailingClean(v) + 1 else 0
      else Verdicts(r, o) == v
  {
    var s, v := r[|r| - 1], Verdicts(r[..|r| - 1], o);
    if Verifies(s, o) {
      var next := Verdict(s.act.tick.passed, Waiting(s.act.tick.finalStatus));
      assert Verdicts(r, o) == v + [next];
      assert (v + [next])[..|v|] == v;
    }
  }

  lemma CleanAtEnd(r: Run, o: Id, n: nat)
    requires r != []
    requires
      var v := Verdicts(r[1..], o);
      n <= |v| && forall i :: |v| - n <= i < |v| ==> v[i].Clean()
    ensures CleanSince(r, o, |r| - 1) >= n
  {
    assert r[1..|r|] == r[1..];
    TrailingCleanAtLeast(Verdicts(r[1..], o), n);
  }

  /** However many failures come in between, `n` clean passes in a row end the remediation and
      bring the cadence back. The value restored is the cadence clamped to a day, so it is exactly
      the old cadence if and only if that was at most a day. */
  lemma RemediationRoundTrip(r: Run, o: Id, n: nat)
    requires RemediatedRun(r, o, n)
    requires r[0].before.db.objectives[o].cadence >= 0.0
    requires
      var v := Verdicts(r[1..], o);
      n <= |v| && forall i :: |v| - n <= i < |v| ==> v[i].Clean()
    ensures o in r[|r| - 1].after.db.objectives
    ensures r[|r| - 1].after.db.objectives[o].policy.remediation.Recovered?
    ensures r[|r| - 1].after.db.objectives[o].cadence == CurrentCadence(r[0].before.db.objectives[o])
    ensures r[|r| - 1].after.db.objectives[o].cadence == r[0].before.db.objectives[o].cadence
        <==> r[0].before.db.objectives[o].cadence <= 86400.0
  {
    CleanAtEnd(r, o, n);
    RecoveryAlong(r, o, n, |r| - 1);
  }

  // ----- cadences above a day

  /** The step leaves the objective with a cadence above a day: an operator asked for it, or a
      remediation slowed down that far. */
  ghost predicate SetsLongCadence(s: Step, o: Id) {
    || (s.act.Create? && s.act.objective == o && s.act.cadence > 86400.0)
    || (SetsCadence(s, o) && s.act.update.cadence.value > 86400.0)
    || (Remediates(s, o) && SlowedCadence(s.before.db.objectives[o]) > 86400.0)
  }

  lemma VerifyShortens(o: Objective, id: Id, passed: bool, final: FinalStatus, trend: Trend, now: real)
    requires !RemediationDue(o, passed, trend)
    ensures Verify(o, id, passed, final, trend, now).objective.cadence <= 86400.0
  {
  }

  lemma LongCadenceStep(s: Step, o: Id)
    requires Next(s) && o in s.after.db.objectives && s.after.db.objectives[o].cadence > 86400.0
    ensures SetsLongCadence(s, o)
         || (!Verifies(s, o) && o in s.before.db.objectives && s.before.db.objectives[o].cadence > 86400.0)
  {
    if o in s.before.db.objectives && !SetsCadence(s, o) {
      CadenceTracks(s, o);
      if Verifies(s, o) && !Remediates(s, o) {
        VerifyShortens(s.before.db.objectives[o], s.act.event, s.act.tick.passed, s.act.tick.finalStatus,
                       TrendOf(s.act.trend), s.now);
      }
    }
  }

  lemma CadenceTracks(s: Step, o: Id)
    requires Next(s) && o in s.before.db.objectives && !SetsCadence(s, o)
    ensures o in s.after.db.objectives
    ensures s.after.db.objectives[o].cadence ==
      (if Verifies(s, o) then VerifyOutcome(s, o).objective else s.before.db.objectives[o]).cadence
  {
    if !RewritesPolicy(s, o) {
      StepTracks(s, o);
    }
  }

  /** A cadence above a day lasts until the next verification only: in any run an objective that has
      one got it from an operator or a remediation, with no verification since. */
  lemma {:induction false} LongCadenceIsRecent(r: Run, o: Id, k: nat) returns (j: nat)
    requires IsRun(r) && k < |r| && Init(r[0].before)
    requires o in r[k].after.db.objectives && r[k].after.db.objectives[o].cadence > 86400.0
    ensures j <= k && SetsLongCadence(r[j], o)
    ensures forall m :: j < m <= k ==> !Verifies(r[m], o)
  {
    assert r[k] in r;
    LongCadenceStep(r[k], o);
    if SetsLongCadence(r[k], o) {
      j := k;
    } else if k > 0 {
      assert r[k - 1].after == r[k].before;
      j := LongCadenceIsRecent(r, o, k - 1);
    }
  }
}
