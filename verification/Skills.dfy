/** Skill candidates: running counts, a running mean, promotion, demotion and decay. */
module Skills {
  import opened Common
  import opened RowQuery

  datatype Skill = Skill(success: nat, fail: nat, total: nat, avg: real, promoted: bool, updatedAt: real)

  /** One outcome; the confidence is already clamped to [0, 1]. */
  datatype Observation = Observation(passed: bool, confidence: real) {
    predicate Valid() { 0.0 <= confidence <= 1.0 }
  }

  function Rate(success: nat, total: nat): real {
    if total > 0 then success as real / total as real else 0.0
  }

  predicate ShouldPromote(total: nat, success: nat, fail: nat, avg: real) {
    && total >= 3
    && Rate(success, total) >= 0.67
    && avg >= 0.6
    && fail <= MaxInt(1, total / 3)
  }

  function NewSkill(o: Observation, now: real): Skill {
    var success := if o.passed then 1 else 0;
    Skill(success, 1 - success, 1, o.confidence, ShouldPromote(1, success, 1 - success, o.confidence), now)
  }

  /** The counts and mean after one more outcome, before the promotion rule. */
  function Counted(s: Skill, o: Observation): Skill {
    var avgBefore := FloatOrDefault(Some(s.avg), 0.0, 0.0, 1.0);
    s.(total := s.total + 1,
       success := s.success + (if o.passed then 1 else 0),
       fail := s.fail + (if o.passed then 0 else 1),
       avg := (avgBefore * s.total as real + o.confidence) / (s.total + 1) as real)
  }

  predicate Regressed(s: Skill) {
    s.total >= 6 && (Rate(s.success, s.total) < 0.45 || s.avg < 0.40)
  }

  function Observed(s: Skill, o: Observation, now: real): Skill {
    var c := Counted(s, o);
    c.(promoted := !(s.promoted && Regressed(c)) && (s.promoted || ShouldPromote(c.total, c.success, c.fail, c.avg)),
       updatedAt := now)
  }

  /** The settings of a decay pass, as the daemon clamps them. */
  datatype DecayRule = DecayRule(maxAge: real, minSamples: int, minSuccess: real) {
    function Age(): real { MaxReal(60.0, maxAge) }
    function Samples(): int { IntOrDefault(Some(minSamples), 5, 1, 100000) }
    function Floor(): real { FloatOrDefault(Some(minSuccess), 0.55, 0.0, 1.0) }
  }

  predicate Decays(s: Skill, rule: DecayRule, now: real) {
    && s.promoted
    && (now - MaxReal(s.updatedAt, 0.0) >= rule.Age()
        || (s.total >= rule.Samples()
            && (Rate(s.success, s.total) < rule.Floor() || FloatOrDefault(Some(s.avg), 0.0, 0.0, 1.0) < 0.45)))
  }

  function Decayed(s: Skill, rule: DecayRule, now: real): Skill {
    if Decays(s, rule, now) then s.(promoted := false, updatedAt := now) else s
  }

  // ----- the table

  const DECAY_WINDOW: nat := 500

  /** The rows a decay pass looks at: oldest first. */
  function DecayKeys(skills: map<Id, Skill>, promotedOnly: bool): map<Id, Key> {
    map id | id in skills && (promotedOnly ==> skills[id].promoted) :: Key(skills[id].updatedAt, 0.0, 0.0)
  }

  class SkillTable {
    var skills: map<Id, Skill>

    constructor ()
      ensures skills == map[]
    {
      skills := map[];
    }

    /** Records an outcome under a signature. */
    method Upsert(signature: Id, o: Observation, now: real)
      modifies this
      ensures skills == old(skills)[signature :=
        if signature in old(skills) then Observed(old(skills)[signature], o, now) else NewSkill(o, now)]
    {
      if signature !in skills {
        var success, fail := 0, 1;
        if o.passed {
          success, fail := 1, 0;
        }
        var promoted := ShouldPromote(1, success, fail, o.confidence);
        skills := skills[signature := Skill(success, fail, 1, o.confidence, promoted, now)];
      } else {
        var row := UpdatedRow(skills[signature], o, now);
        skills := skills[signature := row];
      }
    }

    /** The row of a skill seen before, with its counters, mean and promotion brought up to date. */
    method UpdatedRow(row: Skill, o: Observation, now: real) returns (r: Skill)
      ensures r == Observed(row, o, now)
    {
      var avgBefore := FloatOrDefault(Some(row.avg), 0.0, 0.0, 1.0);
      var total := row.total + 1;
      var success, fail := row.success, row.fail;
      if o.passed {
        success := success + 1;
      } else {
        fail := fail + 1;
      }
      var avg := (avgBefore * row.total as real + o.confidence) / MaxInt(1, total) as real;
      var promote := ShouldPromote(total, success, fail, avg);
      var demote := row.promoted && total >= 6 && (Rate(success, total) < 0.45 || avg < 0.40);
      var promoted := row.promoted || promote;
      if demote {
        promoted := false;
      }
      r := Skill(success, fail, total, avg, promoted, now);
    }

    /** One row of a decay pass. */
    method DecayOne(id: Id, rule: DecayRule, now: real) returns (demoted: bool)
      requires id in skills
      modifies this
      ensures skills == old(skills)[id := Decayed(old(skills)[id], rule, now)]
      ensures demoted == Decays(old(skills)[id], rule, now)
    {
      var row := skills[id];
      var stale := now - MaxReal(row.updatedAt, 0.0) >= rule.Age();
      var weak := row.total >= rule.Samples()
        && (Rate(row.success, row.total) < rule.Floor() || FloatOrDefault(Some(row.avg), 0.0, 0.0, 1.0) < 0.45);
      demoted := row.promoted && (stale || weak);
      if demoted {
        skills := skills[id := row.(promoted := false, updatedAt := now)];
      }
    }

    /** Demotes stale or weak skills among the oldest rows. */
    method Decay(rule: DecayRule, promotedOnly: bool, now: real) returns (demoted: seq<Id>, ghost rows: seq<Id>)
      modifies this
      ensures FirstRows(DecayKeys(old(skills), promotedOnly), DECAY_WINDOW, rows)
      ensures skills.Keys == old(skills).Keys
      ensures forall id <- old(skills) ::
        skills[id] == if id in rows then Decayed(old(skills)[id], rule, now) else old(skills)[id]
      ensures forall id <- old(skills) :: id in demoted <==> id in rows && Decays(old(skills)[id], rule, now)
    {
      var picked := Select(DecayKeys(skills, promotedOnly), DECAY_WINDOW);
      rows, demoted := picked, [];
      for i := 0 to |picked|
        invariant skills.Keys == old(skills).Keys
        invariant forall id <- old(skills) ::
          skills[id] == if id in picked[..i] then Decayed(old(skills)[id], rule, now) else old(skills)[id]
        invariant forall id <- old(skills) :: id in demoted <==> id in picked[..i] && Decays(old(skills)[id], rule, now)
      {
        assert picked[i] in picked && picked[i] !in picked[..i];
        assert picked[..i + 1] == picked[..i] + [picked[i]];
        var weak := DecayOne(picked[i], rule, now);
        if weak {
          demoted := demoted + [picked[i]];
        }
      }
      assert picked[..|picked|] == picked;
    }
  }

  // ----- histories of one skill

  /** What happens to a stored skill: an outcome, or a decay pass that looks at it. */
  datatype Happening = Outcome(o: Observation, now: real) | DecayPass(rule: DecayRule, now: real)

  function After(s: Skill, h: Happening): Skill {
    match h
    case Outcome(o, now) => Observed(s, o, now)
    case DecayPass(rule, now) => Decayed(s, rule, now)
  }

  function AfterAll(s: Skill, hs: seq<Happening>): Skill {
    if hs == [] then s else After(AfterAll(s, hs[..|hs| - 1]), hs[|hs| - 1])
  }

  predicate ValidHappening(h: Happening) {
    h.Outcome? ==> h.o.Valid()
  }

  function Outcomes(hs: seq<Happening>): (n: nat)
    ensures n <= |hs|
  {
    if hs == [] then 0 else Outcomes(hs[..|hs| - 1]) + (if hs[|hs| - 1].Outcome? then 1 else 0)
  }

  function Passes(hs: seq<Happening>): (n: nat)
    ensures n <= Outcomes(hs)
  {
    if hs == [] then 0
    else Passes(hs[..|hs| - 1]) + (if hs[|hs| - 1].Outcome? && hs[|hs| - 1].o.passed then 1 else 0)
  }

  function ConfidenceSum(hs: seq<Happening>): real {
    if hs == [] then 0.0
    else ConfidenceSum(hs[..|hs| - 1]) + (if hs[|hs| - 1].Outcome? then hs[|hs| - 1].o.confidence else 0.0)
  }

  /** The sum of the observed confidences that the mean stands for. */
  function Sum(s: Skill): real {
    s.avg * s.total as real
  }

  predicate Sound(s: Skill) {
    && s.total > 0
    && s.success + s.fail == s.total
    && 0.0 <= s.avg <= 1.0
  }

  lemma ProductMonotone(a: real, b: real, c: real)
    requires a <= b && c >= 0.0
    ensures a * c <= b * c
  {
    assert (b - a) * c >= 0.0;
  }

  lemma ProductStrict(a: real, b: real, c: real)
    requires a < b && c > 0.0
    ensures a * c < b * c
  {
    assert (b - a) * c > 0.0;
  }

  /** A product with a positive factor orders as the other factor does. */
  lemma ProductOrders(a: real, b: real, c: real)
    requires c > 0.0
    ensures a <= b <==> a * c <= b * c
  {
    if a <= b {
      ProductMonotone(a, b, c);
    } else {
      ProductStrict(b, a, c);
    }
  }

  lemma MeanStep(avg: real, n: nat, c: real)
    requires 0.0 <= avg <= 1.0 && 0.0 <= c <= 1.0
    ensures
      var next := (avg * n as real + c) / (n + 1) as real;
      next * (n + 1) as real == avg * n as real + c && 0.0 <= next <= 1.0
  {
    var d := (n + 1) as real;
    var top := avg * n as real + c;
    ProductMonotone(0.0, avg, n as real);
    ProductMonotone(avg, 1.0, n as real);
    assert 0.0 <= top <= d;
    var q := top / d;
    assert q * d == top;
    ProductOrders(0.0, q, d);
    ProductOrders(q, 1.0, d);
  }

  lemma ObservedCounts(s: Skill, o: Observation, now: real)
    requires Sound(s) && o.Valid()
    ensures
      var t := Observed(s, o, now);
      && Sound(t) && t.total == s.total + 1
      && t.success == s.success + (if o.passed then 1 else 0)
      && Sum(t) == Sum(s) + o.confidence
  {
    CountedMean(s, o);
  }

  lemma CountedMean(s: Skill, o: Observation)
    requires Sound(s) && o.Valid()
    ensures
      var c := Counted(s, o);
      && 0.0 <= c.avg <= 1.0
      && Sum(c) == Sum(s) + o.confidence
  {
    MeanStep(s.avg, s.total, o.confidence);
    CountedValue(s, o);
    var next := (s.avg * s.total as real + o.confidence) / (s.total + 1) as real;
    SameProduct(Counted(s, o).avg, next, Counted(s, o).total, s.total + 1);
  }

  lemma SameProduct(a: real, b: real, m: nat, n: nat)
    requires a == b && m == n
    ensures a * m as real == b * n as real
  {
  }

  lemma CountedValue(s: Skill, o: Observation)
    requires 0.0 <= s.avg <= 1.0
    ensures Counted(s, o).avg == (s.avg * s.total as real + o.confidence) / (s.total + 1) as real
    ensures Counted(s, o).total == s.total + 1
  {
  }

  lemma AfterCounts(s: Skill, h: Happening)
    requires Sound(s) && ValidHappening(h)
    ensures
      var t := After(s, h);
      && Sound(t)
      && t.total == s.total + (if h.Outcome? then 1 else 0)
      && t.success == s.success + (if h.Outcome? && h.o.passed then 1 else 0)
      && Sum(t) == Sum(s) + (if h.Outcome? then h.o.confidence else 0.0)
  {
    match h
    case Outcome(o, now) => ObservedCounts(s, o, now);
    case DecayPass(rule, now) =>
  }

  /** The stored counters are those of the history: successes and failures add up to the total,
      and the mean times the total is the sum of all confidences ever observed. */
  lemma {:induction false} CountersAreTheHistory(first: Observation, now: real, hs: seq<Happening>)
    requires first.Valid() && forall h <- hs :: ValidHappening(h)
    ensures
      var s := AfterAll(NewSkill(first, now), hs);
      && Sound(s)
      && s.total == 1 + Outcomes(hs)
      && s.success == (if first.passed then 1 else 0) + Passes(hs)
      && Sum(s) == first.confidence + ConfidenceSum(hs)
  {
    if hs != [] {
      var p, h := hs[..|hs| - 1], hs[|hs| - 1];
      assert h in hs;
      CountersAreTheHistory(first, now, p);
      AfterCounts(AfterAll(NewSkill(first, now), p), h);
    }
  }

  // ----- what promotion guarantees

  /** Thresholds without division. */
  predicate Good(s: Skill) {
    s.promoted ==>
      && s.total >= 3 && s.success >= 3 && Sum(s) >= 1.8
      && (s.total >= 6 ==> s.success as real >= 0.45 * s.total as real && s.avg >= 0.40)
  }

  lemma RateTimes(success: nat, total: nat)
    requires total > 0
    ensures Rate(success, total) * total as real == success as real
  {
  }

  lemma RateAtLeast(success: nat, total: nat, x: real)
    requires total > 0
    ensures Rate(success, total) >= x <==> success as real >= x * total as real
  {
    RateTimes(success, total);
    ProductOrders(x, Rate(success, total), total as real);
  }

  lemma PromotableIsGood(s: Skill)
    requires Sound(s) && ShouldPromote(s.total, s.success, s.fail, s.avg)
    ensures s.total >= 3 && s.success >= 3 && Sum(s) >= 1.8 && !Regressed(s)
    ensures s.success as real >= 0.45 * s.total as real && s.avg >= 0.40
  {
    RateAtLeast(s.success, s.total, 0.67);
    RateAtLeast(s.success, s.total, 0.45);
    ProductMonotone(0.6, s.avg, s.total as real);
  }

  lemma GoodStep(s: Skill, h: Happening)
    requires Sound(s) && Good(s) && ValidHappening(h)
    ensures Sound(After(s, h)) && Good(After(s, h))
  {
    match h
    case DecayPass(rule, now) =>
    case Outcome(o, now) =>
      ObservedCounts(s, o, now);
      var t := Observed(s, o, now);
      if ShouldPromote(t.total, t.success, t.fail, t.avg) {
        PromotableIsGood(t);
      } else if t.promoted {
        RateAtLeast(t.success, t.total, 0.45);
      }
  }

  lemma {:induction false} GoodAlong(first: Observation, now: real, hs: seq<Happening>)
    requires first.Valid() && forall h <- hs :: ValidHappening(h)
    ensures Sound(AfterAll(NewSkill(first, now), hs)) && Good(AfterAll(NewSkill(first, now), hs))
  {
    if hs != [] {
      var p := hs[..|hs| - 1];
      assert hs[|hs| - 1] in hs;
      GoodAlong(first, now, p);
      GoodStep(AfterAll(NewSkill(first, now), p), hs[|hs| - 1]);
    }
  }

  /** After any history a promoted skill has at least three outcomes, succeeds at least 45% of the
      time and has a mean confidence of at least 0.36, of at least 0.40 from the sixth outcome on. */
  lemma PromotedIsGood(first: Observation, now: real, hs: seq<Happening>)
    requires first.Valid() && forall h <- hs :: ValidHappening(h)
    requires AfterAll(NewSkill(first, now), hs).promoted
    ensures
      var s := AfterAll(NewSkill(first, now), hs);
      && s.total >= 3
      && Rate(s.success, s.total) >= 0.45
      && s.avg >= 0.36
      && (s.total >= 6 ==> s.avg >= 0.40)
  {
    GoodAlong(first, now, hs);
    GoodMeans(AfterAll(NewSkill(first, now), hs));
  }

  lemma GoodMeans(s: Skill)
    requires Sound(s) && Good(s) && s.promoted
    ensures s.total >= 3 && Rate(s.success, s.total) >= 0.45 && s.avg >= 0.36
    ensures s.total >= 6 ==> s.avg >= 0.40
  {
    RateAtLeast(s.success, s.total, 0.45);
    if s.total <= 5 {
      MeanOfFive(s.avg, s.total as real);
    }
  }

  lemma MeanOfFive(avg: real, n: real)
    requires 0.0 < n <= 5.0 && avg * n >= 1.8
    ensures avg >= 0.36
  {
    ProductOrders(0.36, avg, n);
  }

  // ----- hysteresis

  /** Far from promotion: after `k` further outcomes since a regression at `n`, neither the
      successes nor the confidences can have caught up. */
  predicate Behind(s: Skill, n: nat, k: nat) {
    && s.total == n + k && n >= 6
    && (s.success as real < 0.45 * n as real + k as real || Sum(s) < 0.40 * n as real + k as real)
  }

  lemma BehindNotPromotable(s: Skill, n: nat, k: nat)
    requires Sound(s) && Behind(s, n, k) && 2 * k <= n
    ensures !ShouldPromote(s.total, s.success, s.fail, s.avg)
  {
    var m, a, b := s.total as real, n as real, k as real;
    assert m == a + b && 2.0 * b <= a && a >= 6.0;
    if s.success as real < 0.45 * a + b {
      assert s.success as real < 0.67 * m;
      RateAtLeast(s.success, s.total, 0.67);
    } else {
      MeanBelow(s.avg, m, a, b);
    }
  }

  lemma MeanBelow(avg: real, m: real, a: real, b: real)
    requires m == a + b && 0.0 <= 2.0 * b <= a && a >= 6.0
    requires avg * m < 0.40 * a + b
    ensures avg < 0.6
  {
    assert 0.40 * a + b <= 0.6 * m;
    ProductOrders(0.6, avg, m);
  }

  lemma RegressedIsBehind(s: Skill)
    requires Sound(s) && Regressed(s)
    ensures Behind(s, s.total, 0)
  {
    RateAtLeast(s.success, s.total, 0.45);
    ProductOrders(0.40, s.avg, s.total as real);
  }

  lemma BehindStep(s: Skill, n: nat, k: nat, h: Happening)
    requires Sound(s) && Behind(s, n, k) && !s.promoted && ValidHappening(h)
    requires 2 * (k + (if h.Outcome? then 1 else 0)) <= n
    ensures Sound(After(s, h)) && !After(s, h).promoted
    ensures Behind(After(s, h), n, k + (if h.Outcome? then 1 else 0))
  {
    match h
    case DecayPass(rule, now) =>
    case Outcome(o, now) =>
      ObservedCounts(s, o, now);
      BehindNotPromotable(Observed(s, o, now), n, k + 1);
  }

  /** A skill demoted for a performance regression after `n` outcomes stays demoted until more than
      `n / 2` further outcomes have come in, whatever they are and however decay passes fall. */
  lemma {:induction false} DemotedStaysDown(s: Skill, hs: seq<Happening>)
    requires Sound(s) && Regressed(s) && !s.promoted
    requires forall h <- hs :: ValidHappening(h)
    requires 2 * Outcomes(hs) <= s.total
    ensures !AfterAll(s, hs).promoted && Sound(AfterAll(s, hs))
    ensures Behind(AfterAll(s, hs), s.total, Outcomes(hs))
  {
    if hs == [] {
      RegressedIsBehind(s);
    } else {
      var p := hs[..|hs| - 1];
      assert hs[|hs| - 1] in hs;
      DemotedStaysDown(s, p);
      BehindStep(AfterAll(s, p), s.total, Outcomes(p), hs[|hs| - 1]);
    }
  }

  function Seen(passed: bool, confidence: real, now: real): Happening {
    Outcome(Observation(passed, confidence), now)
  }

  /** After a first pass at 0.6: two more like it and three misses. */
  function RiseAndFall(now: real): seq<Happening> {
    [Seen(true, 0.6, now), Seen(true, 0.6, now)]
    + [Seen(false, 0.16, now)] + [Seen(false, 0.16, now)] + [Seen(false, 0.16, now)]
  }

  /** Four perfect outcomes. */
  function FourPasses(now: real): seq<Happening> {
    [Seen(true, 1.0, now)] + [Seen(true, 1.0, now)] + [Seen(true, 1.0, now)] + [Seen(true, 1.0, now)]
  }

  lemma AfterSnoc(s: Skill, hs: seq<Happening>, h: Happening)
    ensures AfterAll(s, hs + [h]) == After(AfterAll(s, hs), h)
    ensures Outcomes(hs + [h]) == Outcomes(hs) + (if h.Outcome? then 1 else 0)
  {
    assert (hs + [h])[..|hs|] == hs;
  }

  lemma AfterThree(s: Skill, hs: seq<Happening>, h: Happening)
    requires h.Outcome?
    ensures AfterAll(s, hs + [h] + [h] + [h]) == After(After(After(AfterAll(s, hs), h), h), h)
    ensures Outcomes(hs + [h] + [h] + [h]) == Outcomes(hs) + 3
  {
    AfterSnoc(s, hs, h);
    AfterSnoc(s, hs + [h], h);
    AfterSnoc(s, hs + [h] + [h], h);
  }

  lemma QuotientIs(q: real, top: real, d: real)
    requires d > 0.0 && q * d == top
    ensures top / d == q
  {
    var x := top / d;
    assert x * d == top;
    ProductOrders(x, q, d);
    ProductOrders(q, x, d);
  }

  /** The mean after one more outcome, in numbers. */
  lemma NextMean(s: Skill, passed: bool, confidence: real, avg: real)
    requires Sound(s) && 0.0 <= confidence <= 1.0
    requires avg * (s.total + 1) as real == Sum(s) + confidence
    ensures Counted(s, Observation(passed, confidence)).avg == avg
    ensures Sound(Counted(s, Observation(passed, confidence)))
  {
    var o := Observation(passed, confidence);
    CountedMean(s, o);
    CountedValue(s, o);
    QuotientIs(avg, s.avg * s.total as real + confidence, (s.total + 1) as real);
  }

  /** A miss at 0.16 of a promoted skill with three passes; the third such miss demotes it. */
  lemma MissedAgain(fail: nat, avg: real, next: real, now: real)
    requires fail <= 2 && 0.0 <= avg <= 1.0 && next < 0.6
    requires next * (fail + 4) as real == avg * (fail + 3) as real + 0.16
    requires fail == 2 ==> next < 0.40
    ensures After(Skill(3, fail, fail + 3, avg, true, now), Seen(false, 0.16, now))
         == Skill(3, fail + 1, fail + 4, next, fail < 2, now)
  {
    var s := Skill(3, fail, fail + 3, avg, true, now);
    SameProduct(next, next, s.total + 1, fail + 4);
    SameProduct(s.avg, avg, s.total, fail + 3);
    assert Sum(s) == avg * (fail + 3) as real;
    NextMean(s, false, 0.16, next);
  }

  lemma Risen(now: real)
    ensures
      var first := NewSkill(Observation(true, 0.6), now);
      AfterAll(first, RiseAndFall(now)[..2]) == Skill(3, 0, 3, 0.6, true, now)
  {
    var first := NewSkill(Observation(true, 0.6), now);
    var h := Seen(true, 0.6, now);
    assert RiseAndFall(now)[..2] == [] + [h] + [h];
    AfterSnoc(first, [], h);
    AfterSnoc(first, [] + [h], h);
    NextMean(first, true, 0.6, 0.6);
    NextMean(Skill(2, 0, 2, 0.6, false, now), true, 0.6, 0.6);
    assert AfterAll(first, [h]) == Skill(2, 0, 2, 0.6, false, now);
  }

  lemma ThreeMisses(now: real)
    ensures
      var h := Seen(false, 0.16, now);
      After(After(After(Skill(3, 0, 3, 0.6, true, now), h), h), h) == Skill(3, 3, 6, 0.38, false, now)
  {
    MissedAgain(0, 0.6, 0.49, now);
    MissedAgain(1, 0.49, 0.424, now);
    MissedAgain(2, 0.424, 0.38, now);
  }

  lemma Fallen(now: real)
    ensures
      var first := NewSkill(Observation(true, 0.6), now);
      AfterAll(first, RiseAndFall(now)) == Skill(3, 3, 6, 0.38, false, now)
  {
    var first := NewSkill(Observation(true, 0.6), now);
    var h, up := Seen(false, 0.16, now), RiseAndFall(now)[..2];
    Risen(now);
    assert RiseAndFall(now) == up + [h] + [h] + [h];
    AfterThree(first, up, h);
    ThreeMisses(now);
  }

  lemma Back(now: real)
    ensures AfterAll(Skill(3, 3, 6, 0.38, false, now), FourPasses(now)).promoted
    ensures Outcomes(FourPasses(now)) == 4
  {
    var s, h := Skill(3, 3, 6, 0.38, false, now), Seen(true, 1.0, now);
    AfterSnoc(s, [], h);
    AfterThree(s, [h], h);
    assert [] + [h] == [h];
    RisenAgain(now);
  }

  lemma RisenAgain(now: real)
    ensures
      var h := Seen(true, 1.0, now);
      After(After(After(After(Skill(3, 3, 6, 0.38, false, now), h), h), h), h).promoted
  {
    var s, h := Skill(3, 3, 6, 0.38, false, now), Seen(true, 1.0, now);
    ObservedCounts(s, h.o, now);
    var s1 := After(s, h);
    ObservedCounts(s1, h.o, now);
    var s2 := After(s1, h);
    ObservedCounts(s2, h.o, now);
    var s3 := After(s2, h);
    ObservedCounts(s3, h.o, now);
    var s4 := After(s3, h);
    assert s4.total == 10 && s4.success == 7 && s4.fail == 3;
    assert s4.avg * 10.0 == 6.28;
    RateAtLeast(7, 10, 0.67);
  }

  /** The bound cannot be raised: a history in which a skill is promoted by its third outcome, demoted
      for regression by its sixth, and promoted again four outcomes later. */
  lemma HysteresisIsTight(now: real)
    ensures
      var first := NewSkill(Observation(true, 0.6), now);
      var s := AfterAll(first, RiseAndFall(now));
      && (forall h <- RiseAndFall(now) + FourPasses(now) :: ValidHappening(h))
      && AfterAll(first, RiseAndFall(now)[..2]).promoted
      && AfterAll(first, RiseAndFall(now)[..4]).promoted
      && s.total == 6 && Regressed(s) && !s.promoted
      && Outcomes(FourPasses(now)) == s.total / 2 + 1
      && AfterAll(s, FourPasses(now)).promoted
  {
    Risen(now);
    Fallen(now);
    Back(now);
    var first := NewSkill(Observation(true, 0.6), now);
    var r, h := RiseAndFall(now), Seen(false, 0.16, now);
    assert r[..4] == r[..2] + [h] + [h];
    AfterSnoc(first, r[..2], h);
    AfterSnoc(first, r[..2] + [h], h);
  }

  // ----- promotion and decay in numbers

  /** A first outcome is counted, never promotes, and is as recent as it is. */
  lemma FirstOutcome(o: Observation, now: real)
    ensures NewSkill(o, now)
         == Skill(if o.passed then 1 else 0, if o.passed then 0 else 1, 1, o.confidence, false, now)
  {
  }

  /** A new outcome promotes a skill with at least three outcomes, two thirds of them passes, a mean
      confidence of 0.6 and no more failures than one or a third; and it demotes one that from the sixth
      outcome on passes less than 45% of the time or is less than 0.40 confident. */
  lemma PromotionExactly(s: Skill, o: Observation, now: real)
    requires Sound(s) && o.Valid()
    ensures
      var t := Observed(s, o, now);
      && t.updatedAt == now
      && (!s.promoted ==>
            (t.promoted <==>
               && t.total >= 3 && t.success as real >= 0.67 * t.total as real && t.avg >= 0.6
               && (t.fail <= 1 || 3 * t.fail <= t.total)))
      && (s.promoted ==>
            (t.promoted <==> t.total < 6 || (t.success as real >= 0.45 * t.total as real && t.avg >= 0.40)))
  {
    ObservedCounts(s, o, now);
    var t := Observed(s, o, now);
    RateAtLeast(t.success, t.total, 0.67);
    RateAtLeast(t.success, t.total, 0.45);
    if !s.promoted && t.total >= 3 && t.success as real >= 0.67 * t.total as real && t.avg >= 0.6 {
      PromotableIsNotRegressed(t);
    }
  }

  lemma PromotableIsNotRegressed(t: Skill)
    requires t.total >= 3 && t.success as real >= 0.67 * t.total as real && t.avg >= 0.6
    ensures !Regressed(t)
  {
    RateAtLeast(t.success, t.total, 0.45);
    ProductMonotone(0.45, 0.67, t.total as real);
  }

  /** The cap on failures never decides: whoever passes 67% of the time stays below it. */
  lemma FailureCapNeverDecides(s: Skill)
    requires Sound(s) && Rate(s.success, s.total) >= 0.67
    ensures s.fail <= MaxInt(1, s.total / 3)
  {
    RateAtLeast(s.success, s.total, 0.67);
    assert 3.0 * s.fail as real <= s.total as real;
  }

  /** A decay pass demotes a promoted skill that nobody has used for the maximal age, at least a minute,
      and one with enough outcomes whose rate is below the floor or whose mean confidence is below 0.45;
      it keeps every other one, and touches nothing but the promotion. */
  lemma DecayExactly(s: Skill, rule: DecayRule, now: real)
    requires Sound(s) && s.updatedAt >= 0.0
    ensures
      var t := Decayed(s, rule, now);
      && (t.promoted <==>
            && s.promoted
            && now - s.updatedAt < MaxReal(60.0, rule.maxAge)
            && (s.total < rule.Samples()
                || (s.success as real >= rule.Floor() * s.total as real && s.avg >= 0.45)))
      && t == s.(promoted := t.promoted, updatedAt := if s.promoted && !t.promoted then now else s.updatedAt)
  {
    RateAtLeast(s.success, s.total, rule.Floor());
  }

  /** The rows a pass looks at are the 500 least recently used. */
  lemma DecayLooksAtOldest(skills: map<Id, Skill>, promotedOnly: bool, rows: seq<Id>)
    requires FirstRows(DecayKeys(skills, promotedOnly), DECAY_WINDOW, rows)
    ensures |rows| <= 500 && forall r <- rows :: r in skills && (promotedOnly ==> skills[r].promoted)
    ensures forall id <- skills :: (promotedOnly ==> skills[id].promoted) && id !in rows ==>
              |rows| == 500 && forall r <- rows :: skills[r].updatedAt <= skills[id].updatedAt
  {
    var keys := DecayKeys(skills, promotedOnly);
    forall id, r | id in keys && id !in rows && r in rows ensures skills[r].updatedAt <= skills[id].updatedAt {
      assert r in keys && KeyLeq(keys[r], keys[id]);
    }
  }
}
