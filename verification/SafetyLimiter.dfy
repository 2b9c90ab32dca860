/** The action gate: an emergency stop and a sliding-window limit per niche and action type. */
module SafetyLimiter {

  datatype Limit = Limit(max: int, window: real)

  /** The limit of an action type without one of its own: 100 in an hour. */
  const DEFAULT_LIMIT: Limit := Limit(100, 3600.0)

  datatype LogRow = LogRow(niche: string, action: string, approved: bool, time: real)

  datatype Ticket = Ticket(niche: string, action: string, time: real)

  datatype Verdict = Approved | EmergencyStopped | RateLimited

  function LimitOf(limits: map<string, Limit>, action: string): Limit {
    if action in limits then limits[action] else DEFAULT_LIMIT
  }

  predicate Counts(row: LogRow, niche: string, action: string) {
    row.niche == niche && row.action == action && row.approved
  }

  /** Approved actions of the niche and type logged after the cutoff. */
  function CountAfter(log: seq<LogRow>, niche: string, action: string, cutoff: real): (n: nat)
    ensures n <= |log|
  {
    if log == [] then 0
    else
      var row := log[|log| - 1];
      CountAfter(log[..|log| - 1], niche, action, cutoff)
      + (if Counts(row, niche, action) && row.time > cutoff then 1 else 0)
  }

  class SafetyGuard {
    var log: seq<LogRow>
    var tickets: seq<Ticket>
    var stopped: bool
    const limits: map<string, Limit>

    constructor (limits: map<string, Limit>)
      ensures log == [] && tickets == [] && !stopped && this.limits == limits
    {
      log, tickets, stopped := [], [], false;
      this.limits := limits;
    }

    /** The rate query. */
    method CheckRateLimit(niche: string, action: string, now: real) returns (allowed: bool)
      ensures allowed <==>
        CountAfter(log, niche, action, now - LimitOf(limits, action).window) < LimitOf(limits, action).max
    {
      var limit := LimitOf(limits, action);
      var cutoff := now - limit.window;
      var count := 0;
      for i := 0 to |log|
        invariant count == CountAfter(log[..i], niche, action, cutoff)
      {
        assert log[..i + 1][..i] == log[..i];
        if log[i].niche == niche && log[i].action == action && log[i].approved && log[i].time > cutoff {
          count := count + 1;
        }
      }
      assert log[..|log|] == log;
      allowed := count < limit.max;
    }

    /** `checked` is the clock when the rate is queried and `logged` when the row is written. */
    method CheckAction(niche: string, action: string, checked: real, logged: real) returns (v: Verdict)
      modifies this`log, this`tickets
      ensures v == VerdictFor(Gate(old(log), old(stopped), limits), niche, action, checked)
      ensures Gate(log, stopped, limits)
        == AfterCheck(Gate(old(log), old(stopped), limits), niche, action, checked, logged)
      ensures tickets == old(tickets) + (if v.RateLimited? then [Ticket(niche, action, checked)] else [])
    {
      if stopped {
        return EmergencyStopped;
      }
      var allowed := CheckRateLimit(niche, action, checked);
      if !allowed {
        tickets := tickets + [Ticket(niche, action, checked)];
        return RateLimited;
      }
      log := log + [LogRow(niche, action, true, logged)];
      return Approved;
    }

    method ActivateEmergencyStop()
      modifies this`stopped
      ensures stopped
    {
      stopped := true;
    }

    method DeactivateEmergencyStop()
      modifies this`stopped
      ensures !stopped
    {
      stopped := false;
    }
  }

  // ----- the gate as a state machine

  datatype Gate = Gate(log: seq<LogRow>, stopped: bool, limits: map<string, Limit>)

  function VerdictFor(g: Gate, niche: string, action: string, checked: real): Verdict {
    var limit := LimitOf(g.limits, action);
    if g.stopped then EmergencyStopped
    else if CountAfter(g.log, niche, action, checked - limit.window) >= limit.max then RateLimited
    else Approved
  }

  function AfterCheck(g: Gate, niche: string, action: string, checked: real, logged: real): Gate {
    if VerdictFor(g, niche, action, checked).Approved?
    then g.(log := g.log + [LogRow(niche, action, true, logged)])
    else g
  }

  datatype Event =
    | Check(niche: string, action: string, checked: real, logged: real)
    | Activate
    | Deactivate

  function After(g: Gate, e: Event): Gate {
    match e
    case Check(niche, action, checked, logged) => AfterCheck(g, niche, action, checked, logged)
    case Activate => g.(stopped := true)
    case Deactivate => g.(stopped := false)
  }

  function AfterAll(g: Gate, es: seq<Event>): Gate {
    if es == [] then g else After(AfterAll(g, es[..|es| - 1]), es[|es| - 1])
  }

  /** Each check writes its row no earlier than it reads the clock for the query. Nothing is asked
      of the clock between checks. */
  ghost predicate ClockOrder(es: seq<Event>) {
    forall e <- es :: e.Check? ==> e.checked <= e.logged
  }

  /** Approved actions inside the window that starts at `from` (included) and is `w` long (its end
      excluded). */
  function InWindow(log: seq<LogRow>, niche: string, action: string, from: real, w: real): (n: nat)
    ensures n <= |log|
  {
    if log == [] then 0
    else
      var row := log[|log| - 1];
      InWindow(log[..|log| - 1], niche, action, from, w)
      + (if Counts(row, niche, action) && from <= row.time < from + w then 1 else 0)
  }

  /** A window that ends by `cutoff + w` holds no more than the rows after the cutoff. */
  lemma {:induction false} WindowInsideCount(log: seq<LogRow>, niche: string, action: string, from: real, w: real,
                                             cutoff: real)
    requires from > cutoff
    ensures InWindow(log, niche, action, from, w) <= CountAfter(log, niche, action, cutoff)
  {
    if log != [] {
      WindowInsideCount(log[..|log| - 1], niche, action, from, w, cutoff);
    }
  }

  /** Whatever sequence of checks, stops and releases, no window of the limit's length, placed
      anywhere in time, ever holds more approved actions of one niche and type than the maximum. */
  lemma {:induction false} NoWindowOverflows(limits: map<string, Limit>, es: seq<Event>, niche: string, action: string,
                                             from: real)
    requires ClockOrder(es)
    ensures AfterAll(Gate([], false, limits), es).limits == limits
    ensures WithinLimit(AfterAll(Gate([], false, limits), es), niche, action, from)
  {
    if es != [] {
      var p, e := es[..|es| - 1], es[|es| - 1];
      assert e in es && forall x <- p :: x in es;
      NoWindowOverflows(limits, p, niche, action, from);
      StepWithinLimit(AfterAll(Gate([], false, limits), p), e, niche, action, from);
    }
  }

  predicate WithinLimit(g: Gate, niche: string, action: string, from: real) {
    var limit := LimitOf(g.limits, action);
    InWindow(g.log, niche, action, from, limit.window) <= if limit.max < 0 then 0 else limit.max
  }

  lemma StepWithinLimit(g: Gate, e: Event, niche: string, action: string, from: real)
    requires WithinLimit(g, niche, action, from) && (e.Check? ==> e.checked <= e.logged)
    ensures WithinLimit(After(g, e), niche, action, from) && After(g, e).limits == g.limits
  {
    if e.Check? && VerdictFor(g, e.niche, e.action, e.checked).Approved? {
      var limit := LimitOf(g.limits, action);
      var row := LogRow(e.niche, e.action, true, e.logged);
      assert (g.log + [row])[..|g.log|] == g.log;
      if e.niche == niche && e.action == action && e.logged < from + limit.window {
        WindowInsideCount(g.log, niche, action, from, limit.window, e.checked - limit.window);
      }
    }
  }

  // ----- closed windows

  /** Approved actions at one instant. */
  function AtInstant(log: seq<LogRow>, niche: string, action: string, at: real): (n: nat)
    ensures n > 0 <==> exists row <- log :: Counts(row, niche, action) && row.time == at
  {
    if log == [] then 0
    else
      var row := log[|log| - 1];
      assert forall x <- log :: x == row || x in log[..|log| - 1];
      AtInstant(log[..|log| - 1], niche, action, at)
      + (if Counts(row, niche, action) && row.time == at then 1 else 0)
  }

  /** Approved actions in a window with both its ends. */
  function InClosedWindow(log: seq<LogRow>, niche: string, action: string, from: real, w: real): (n: nat)
  {
    if log == [] then 0
    else
      var row := log[|log| - 1];
      InClosedWindow(log[..|log| - 1], niche, action, from, w)
      + (if Counts(row, niche, action) && from <= row.time <= from + w then 1 else 0)
  }

  lemma {:induction false} ClosedIsOpenAndEnd(log: seq<LogRow>, niche: string, action: string, from: real, w: real)
    requires w > 0.0
    ensures InClosedWindow(log, niche, action, from, w)
         == InWindow(log, niche, action, from, w) + AtInstant(log, niche, action, from + w)
    ensures AtInstant(log, niche, action, from + w) <= InWindow(log, niche, action, from + w, w)
  {
    if log != [] {
      ClosedIsOpenAndEnd(log[..|log| - 1], niche, action, from, w);
    }
  }

  /** A window that holds both its ends can overflow, but never beyond twice the maximum, and only with
      an approved action exactly at its end. */
  lemma ClosedWindowHoldsTwice(limits: map<string, Limit>, es: seq<Event>, niche: string, action: string, from: real)
    requires ClockOrder(es)
    requires LimitOf(limits, action).window > 0.0 && LimitOf(limits, action).max >= 0
    ensures
      var log, limit := AfterAll(Gate([], false, limits), es).log, LimitOf(limits, action);
      var n := InClosedWindow(log, niche, action, from, limit.window);
      && n <= 2 * limit.max
      && (n > limit.max ==>
            exists row <- log :: Counts(row, niche, action) && row.time == from + limit.window)
  {
    var g, w := AfterAll(Gate([], false, limits), es), LimitOf(limits, action).window;
    NoWindowOverflows(limits, es, niche, action, from);
    NoWindowOverflows(limits, es, niche, action, from + w);
    ClosedIsOpenAndEnd(g.log, niche, action, from, w);
  }

  function Burst(k: nat, t: real): seq<Event> {
    seq(k, _ => Check("n", "DELETE", t, t))
  }

  function BurstRows(k: nat, t: real): seq<LogRow> {
    seq(k, _ => LogRow("n", "DELETE", true, t))
  }

  function Only(limit: Limit): map<string, Limit> {
    map["DELETE" := limit]
  }

  lemma {:induction false} AllOld(log: seq<LogRow>, cutoff: real)
    requires forall row <- log :: row.time <= cutoff
    ensures CountAfter(log, "n", "DELETE", cutoff) == 0
  {
    if log != [] {
      assert log[|log| - 1] in log;
      AllOld(log[..|log| - 1], cutoff);
    }
  }

  lemma {:induction false} CountBurst(log: seq<LogRow>, k: nat, t: real, cutoff: real)
    requires cutoff < t
    ensures CountAfter(log + BurstRows(k, t), "n", "DELETE", cutoff) == CountAfter(log, "n", "DELETE", cutoff) + k
  {
    if k == 0 {
      assert log + BurstRows(k, t) == log;
    } else {
      var rows := log + BurstRows(k, t);
      assert rows[..|rows| - 1] == log + BurstRows(k - 1, t);
      CountBurst(log, k - 1, t, cutoff);
    }
  }

  lemma OneMoreApproved(g: Gate, limit: Limit, k: nat, t: real)
    requires !g.stopped && g.limits == Only(limit) && limit.window > 0.0 && k < limit.max
    requires forall row <- g.log :: row.time <= t - limit.window
    ensures AfterCheck(g.(log := g.log + BurstRows(k, t)), "n", "DELETE", t, t)
         == g.(log := g.log + BurstRows(k + 1, t))
  {
    AllOld(g.log, t - limit.window);
    CountBurst(g.log, k, t, t - limit.window);
    assert g.log + BurstRows(k, t) + [LogRow("n", "DELETE", true, t)] == g.log + BurstRows(k + 1, t);
  }

  lemma {:induction false} AfterBurst(g: Gate, limit: Limit, k: nat, t: real)
    requires !g.stopped && g.limits == Only(limit) && limit.window > 0.0 && k <= limit.max
    requires forall row <- g.log :: row.time <= t - limit.window
    ensures AfterAll(g, Burst(k, t)) == g.(log := g.log + BurstRows(k, t))
  {
    if k == 0 {
      assert g.log + BurstRows(0, t) == g.log;
    } else {
      assert Burst(k, t)[..k - 1] == Burst(k - 1, t);
      AfterBurst(g, limit, k - 1, t);
      OneMoreApproved(g, limit, k - 1, t);
    }
  }

  lemma {:induction false} AfterBoth(g: Gate, a: seq<Event>, b: seq<Event>)
    ensures AfterAll(g, a + b) == AfterAll(AfterAll(g, a), b)
  {
    if b == [] {
      assert a + b == a;
    } else {
      var p := b[..|b| - 1];
      assert (a + b)[..|a + b| - 1] == a + p;
      AfterBoth(g, a, p);
    }
  }

  lemma {:induction false} ClosedBursts(log: seq<LogRow>, k: nat, t: real, from: real, w: real)
    requires from <= t <= from + w
    ensures InClosedWindow(log + BurstRows(k, t), "n", "DELETE", from, w) == InClosedWindow(log, "n", "DELETE", from, w) + k
  {
    if k == 0 {
      assert log + BurstRows(k, t) == log;
    } else {
      var rows := log + BurstRows(k, t);
      assert rows[..|rows| - 1] == log + BurstRows(k - 1, t);
      ClosedBursts(log, k - 1, t, from, w);
    }
  }

  /** Twice the maximum is reached, whatever the limit: the maximum at both ends of a window. */
  lemma ClosedWindowReachesTwice(limit: Limit)
    requires limit.max >= 0 && limit.window > 0.0
    ensures
      var es := Burst(limit.max, 0.0) + Burst(limit.max, limit.window);
      && ClockOrder(es)
      && InClosedWindow(AfterAll(Gate([], false, Only(limit)), es).log, "n", "DELETE", 0.0, limit.window)
         == 2 * limit.max
  {
    var m, w := limit.max, limit.window;
    var g := Gate([], false, Only(limit));
    AfterBurst(g, limit, m, 0.0);
    AfterBurst(g.(log := [] + BurstRows(m, 0.0)), limit, m, w);
    AfterBoth(g, Burst(m, 0.0), Burst(m, w));
    ClosedBursts([], m, 0.0, 0.0, w);
    ClosedBursts([] + BurstRows(m, 0.0), m, w, 0.0, w);
  }

  /** No action is approved from the activation of the emergency stop until its release. */
  lemma {:induction false} NothingApprovedWhileStopped(g: Gate, es: seq<Event>)
    requires g.stopped && forall e <- es :: !e.Deactivate?
    ensures AfterAll(g, es) == g
  {
    if es != [] {
      var p := es[..|es| - 1];
      assert es[|es| - 1] in es;
      forall e | e in p ensures !e.Deactivate? { assert e in es; }
      NothingApprovedWhileStopped(g, p);
    }
  }

  // ----- one check

  ghost function Recent(log: seq<LogRow>, niche: string, action: string, cutoff: real): set<nat> {
    set i: nat | i < |log| && log[i].approved && log[i].niche == niche && log[i].action == action && log[i].time > cutoff
  }

  lemma RecentSnoc(log: seq<LogRow>, niche: string, action: string, cutoff: real)
    requires log != []
    ensures
      var n := |log| - 1;
      && n !in Recent(log[..n], niche, action, cutoff)
      && Recent(log, niche, action, cutoff)
           == Recent(log[..n], niche, action, cutoff)
              + (if Counts(log[n], niche, action) && log[n].time > cutoff then {n} else {})
  {
  }

  lemma {:induction false} CountIsRecent(log: seq<LogRow>, niche: string, action: string, cutoff: real)
    ensures |Recent(log, niche, action, cutoff)| == CountAfter(log, niche, action, cutoff)
  {
    if log != [] {
      var n := |log| - 1;
      CountIsRecent(log[..n], niche, action, cutoff);
      RecentSnoc(log, niche, action, cutoff);
    }
  }

  /** A check is refused under the stop, or else when the approved actions of the niche and type inside
      the window have reached the maximum, 100 in an hour for a type without a limit of its own; otherwise
      it is approved and logged with the time of logging. Nothing else changes. */
  lemma CheckExactly(g: Gate, niche: string, action: string, checked: real, logged: real)
    ensures
      var limit := if action in g.limits then g.limits[action] else Limit(100, 3600.0);
      var full := |Recent(g.log, niche, action, checked - limit.window)| >= limit.max;
      var v := VerdictFor(g, niche, action, checked);
      && (v.EmergencyStopped? <==> g.stopped)
      && (v.RateLimited? <==> !g.stopped && full)
      && (v.Approved? <==> !g.stopped && !full)
      && AfterCheck(g, niche, action, checked, logged)
           == (if v.Approved? then g.(log := g.log + [LogRow(niche, action, true, logged)]) else g)
  {
    var limit := if action in g.limits then g.limits[action] else Limit(100, 3600.0);
    CountIsRecent(g.log, niche, action, checked - limit.window);
  }
}
