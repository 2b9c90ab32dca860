/** When claim finds an event, when it overlooks one, and which events are starved for ever. */
module Starvation {
  import opened Common
  import opened RowQuery
  import opened Schema
  import opened EventQueue
  import opened Machine
  import opened LiveEvents
  import opened Dependencies

  // ----- hopeless events

  /** A dependency in the niche has failed, or is pending and itself hopeless within `n` steps. */
  ghost predicate Hopeless(db: Db, b: Id, n: nat)
    decreases n
  {
    && b in db.events
    && exists d <- db.events[b].deps ::
         && d in db.events && db.events[d].niche == db.events[b].niche
         && (db.events[d].status.Failed?
             || (n > 0 && db.events[d].status.Pending? && Hopeless(db, d, n - 1)))
  }

  /** A chain of dependencies leads to a failed event. */
  ghost predicate Doomed(db: Db, b: Id) {
    exists n: nat :: Hopeless(db, b, n)
  }

  lemma DoomedByFailure(db: Db, b: Id, d: Id)
    requires b in db.events && d in db.events[b].deps && d in db.events
    requires db.events[d].niche == db.events[b].niche && db.events[d].status.Failed?
    ensures Doomed(db, b)
  {
    assert Hopeless(db, b, 0);
  }

  lemma DoomedByDoomed(db: Db, b: Id, d: Id)
    requires b in db.events && d in db.events[b].deps && d in db.events
    requires db.events[d].niche == db.events[b].niche && db.events[d].status.Pending? && Doomed(db, d)
    ensures Doomed(db, b)
  {
    var n: nat :| Hopeless(db, d, n);
    assert Hopeless(db, b, n + 1);
  }

  lemma DoomedNotReady(db: Db, b: Id)
    requires b in db.events && Doomed(db, b)
    ensures !Ready(db, db.events[b].niche, db.events[b].deps)
  {
  }

  /** Once a step of a plan has failed all later ones are doomed. */
  lemma {:induction false} FailedChainIsDoomed(db: Db, ids: seq<Id>, i: nat, j: nat)
    requires Ordered(db) && Chain(db, ids) && i < j < |ids|
    requires ids[i] in db.events && db.events[ids[i]].status.Failed?
    ensures ids[j] in db.events && db.events[ids[j]].status.Pending? && Doomed(db, ids[j])
  {
    assert ids[i] in ids && ids[j] in ids && ids[j - 1] in ids;
    if db.events[ids[j]].attempts > 0 {
      ChainInOrder(db, ids, i, j);
      assert false;
    }
    assert OrderedAt(db, ids[j]);
    assert ids[j - 1] in db.events[ids[j]].deps;
    if i == j - 1 {
      DoomedByFailure(db, ids[j], ids[i]);
    } else {
      FailedChainIsDoomed(db, ids, i, j - 1);
      DoomedByDoomed(db, ids[j], ids[j - 1]);
    }
  }

  // ----- progress

  /** Nothing of the niche is processing, waiting for input or backing off. */
  ghost predicate AtRest(db: Db, niche: string, now: real) {
    forall k <- db.events :: db.events[k].niche == niche ==>
      db.events[k].status.Done? || db.events[k].status.Failed? || Eligible(db.events[k], niche, now)
  }

  /** An earliest row. */
  lemma {:induction false} Earliest(db: Db, todo: set<Id>) returns (first: Id)
    requires todo != {} && todo <= db.events.Keys
    ensures first in todo && forall id <- todo :: db.events[first].serial <= db.events[id].serial
    decreases |todo|
  {
    var x :| x in todo;
    if todo == {x} {
      first := x;
    } else {
      var y := Earliest(db, todo - {x});
      first := if db.events[x].serial <= db.events[y].serial then x else y;
    }
  }

  /** An earliest candidate that is not doomed is ready. */
  lemma EarliestIsReady(db: Db, niche: string, now: real, first: Id)
    requires Ordered(db) && AtRest(db, niche, now)
    requires first in db.events && Eligible(db.events[first], niche, now) && !Doomed(db, first)
    requires forall k <- db.events :: Eligible(db.events[k], niche, now) && !Doomed(db, k) ==>
               db.events[first].serial <= db.events[k].serial
    ensures Ready(db, niche, db.events[first].deps)
  {
    assert OrderedAt(db, first);
    forall d | d in db.events[first].deps && d in db.events && db.events[d].niche == niche
      ensures db.events[d].status.Done?
    {
      if db.events[d].status.Failed? {
        DoomedByFailure(db, first, d);
      } else if Eligible(db.events[d], niche, now) {
        if Doomed(db, d) {
          DoomedByDoomed(db, first, d);
        }
      }
    }
  }

  lemma PickIsNotDoomed(db: Db, niche: string, now: real, rows: seq<Id>)
    requires FirstRows(ClaimKeys(db, niche, now), CLAIM_WINDOW, rows)
    ensures forall k <- rows :: k in db.events
    ensures
      var pick := FirstReady(db, niche, rows);
      pick.Some? ==> pick.value in ClaimKeys(db, niche, now) && !Doomed(db, pick.value)
  {
    PickWasPending(db, niche, now, rows);
    var pick := FirstReady(db, niche, rows);
    if pick.Some? && Doomed(db, pick.value) {
      DoomedNotReady(db, pick.value);
    }
  }

  lemma HopefulIsReady(db: Db, niche: string, now: real, k: Id) returns (first: Id)
    requires Ordered(db) && AtRest(db, niche, now)
    requires k in ClaimKeys(db, niche, now) && !Doomed(db, k)
    ensures first in ClaimKeys(db, niche, now) && Ready(db, niche, db.events[first].deps)
  {
    var hopeful := set x | x in ClaimKeys(db, niche, now) && !Doomed(db, x);
    assert k in hopeful;
    first := Earliest(db, hopeful);
    assert first in hopeful;
    EarliestIsReady(db, niche, now, first);
  }

  /** With at most 50 candidates and nothing processing, waiting or backing off in the niche, claim
      returns an event if and only if some candidate is not doomed. */
  lemma ClaimMakesProgress(db: Db, niche: string, now: real, rows: seq<Id>)
    requires Ordered(db) && FirstRows(ClaimKeys(db, niche, now), CLAIM_WINDOW, rows)
    requires |ClaimKeys(db, niche, now)| <= CLAIM_WINDOW && AtRest(db, niche, now)
    ensures forall k <- rows :: k in db.events
    ensures FirstReady(db, niche, rows).Some? <==> exists k <- ClaimKeys(db, niche, now) :: !Doomed(db, k)
  {
    PickIsNotDoomed(db, niche, now, rows);
    if k :| k in ClaimKeys(db, niche, now) && !Doomed(db, k) {
      var first := HopefulIsReady(db, niche, now, k);
      AllRows(ClaimKeys(db, niche, now), CLAIM_WINDOW, rows);
      assert first in rows;
    }
  }

  // ----- what a full window overlooks

  predicate Comes(a: Event, b: Event) {
    a.priority < b.priority || (a.priority == b.priority && a.createdAt < b.createdAt)
  }

  lemma KeysCompare(db: Db, niche: string, now: real, a: Id, b: Id)
    requires a in ClaimKeys(db, niche, now) && b in ClaimKeys(db, niche, now)
    ensures KeyLeq(ClaimKeys(db, niche, now)[a], ClaimKeys(db, niche, now)[b])
        <==> !Comes(db.events[b], db.events[a])
  {
  }

  ghost predicate ReadyCandidate(db: Db, niche: string, now: real, c: Id) {
    c in db.events && Eligible(db.events[c], niche, now) && Ready(db, niche, db.events[c].deps)
  }

  ghost predicate UnreadyCandidate(db: Db, niche: string, now: real, b: Id) {
    b in db.events && Eligible(db.events[b], niche, now) && !Ready(db, niche, db.events[b].deps)
  }

  /** This answer to the claim query holds nothing that is ready. */
  ghost predicate Misses(db: Db, niche: string, rows: seq<Id>) {
    (forall id <- rows :: id in db.events) && FirstReady(db, niche, rows).None?
  }

  /** The window is full of unready candidates, each strictly before every ready one. */
  ghost predicate FillsInFront(db: Db, niche: string, now: real, b: set<Id>) {
    && |b| >= CLAIM_WINDOW
    && (forall u <- b :: UnreadyCandidate(db, niche, now, u))
    && forall u <- b, c <- db.events :: ReadyCandidate(db, niche, now, c) ==> Comes(db.events[u], db.events[c])
  }

  /** The same with ties. */
  ghost predicate FillsAlongside(db: Db, niche: string, now: real, b: set<Id>) {
    && |b| >= CLAIM_WINDOW
    && (forall u <- b :: UnreadyCandidate(db, niche, now, u))
    && forall u <- b, c <- db.events :: ReadyCandidate(db, niche, now, c) ==> !Comes(db.events[c], db.events[u])
  }

  lemma FrontIsBefore(db: Db, niche: string, now: real, b: set<Id>, c: Id)
    requires FillsInFront(db, niche, now, b) && ReadyCandidate(db, niche, now, c)
    ensures b <= Before(ClaimKeys(db, niche, now), c)
  {
    var keys := ClaimKeys(db, niche, now);
    forall u | u in b ensures u in Before(keys, c) {
      KeysCompare(db, niche, now, c, u);
    }
  }

  /** A candidate behind a full window is in no answer. */
  lemma BehindIsOutside(keys: map<Id, Key>, limit: nat, rows: seq<Id>, c: Id)
    requires FirstRows(keys, limit, rows) && c in keys && |Before(keys, c)| >= limit
    ensures c !in rows
  {
    if c in rows {
      assert forall u <- Before(keys, c) :: u in rows && u != c;
      DistinctCard(rows);
      SubsetCard(Before(keys, c), Members(rows) - {c});
      assert false;
    }
  }

  lemma MissesBehindFront(db: Db, niche: string, now: real, b: set<Id>, rows: seq<Id>)
    requires FillsInFront(db, niche, now, b) && FirstRows(ClaimKeys(db, niche, now), CLAIM_WINDOW, rows)
    ensures Misses(db, niche, rows)
  {
    PickWasPending(db, niche, now, rows);
    forall c | c in rows ensures !Ready(db, niche, db.events[c].deps) {
      if Ready(db, niche, db.events[c].deps) {
        FrontIsBefore(db, niche, now, b, c);
        SubsetCard(b, Before(ClaimKeys(db, niche, now), c));
        BehindIsOutside(ClaimKeys(db, niche, now), CLAIM_WINDOW, rows, c);
      }
    }
  }

  lemma LeastReady(db: Db, niche: string, now: real, c: Id) returns (least: Id)
    requires ReadyCandidate(db, niche, now, c)
    ensures ReadyCandidate(db, niche, now, least)
    ensures forall x <- db.events :: ReadyCandidate(db, niche, now, x) ==> !Comes(db.events[x], db.events[least])
  {
    var keys := ClaimKeys(db, niche, now);
    var ready := set x | x in keys && ReadyCandidate(db, niche, now, x);
    assert c in ready;
    least := LeastOf(keys, ready);
    forall x | x in db.events && ReadyCandidate(db, niche, now, x) ensures !Comes(db.events[x], db.events[least]) {
      assert x in ready;
      KeysCompare(db, niche, now, least, x);
    }
  }

  /** All that comes before a least ready candidate is unready, and before every ready one. */
  lemma BeforeLeastReady(db: Db, niche: string, now: real, least: Id)
    requires ReadyCandidate(db, niche, now, least)
    requires forall x <- db.events :: ReadyCandidate(db, niche, now, x) ==> !Comes(db.events[x], db.events[least])
    requires |Before(ClaimKeys(db, niche, now), least)| >= CLAIM_WINDOW
    ensures FillsInFront(db, niche, now, Before(ClaimKeys(db, niche, now), least))
  {
    var keys := ClaimKeys(db, niche, now);
    forall u | u in Before(keys, least)
      ensures UnreadyCandidate(db, niche, now, u) && Comes(db.events[u], db.events[least])
    {
      KeysCompare(db, niche, now, least, u);
    }
  }

  /** Claim returns nothing whatever the order of ties, although something is ready, exactly when at
      least 50 unready candidates come strictly before every ready one. */
  lemma MustMissExactly(db: Db, niche: string, now: real, c: Id)
    requires ReadyCandidate(db, niche, now, c)
    ensures
      (forall rows :: FirstRows(ClaimKeys(db, niche, now), CLAIM_WINDOW, rows) ==> Misses(db, niche, rows))
        <==> exists b :: FillsInFront(db, niche, now, b)
  {
    var keys := ClaimKeys(db, niche, now);
    if b :| FillsInFront(db, niche, now, b) {
      forall rows | FirstRows(keys, CLAIM_WINDOW, rows) ensures Misses(db, niche, rows) {
        MissesBehindFront(db, niche, now, b, rows);
      }
    }
    if forall rows :: FirstRows(keys, CLAIM_WINDOW, rows) ==> Misses(db, niche, rows) {
      var least := LeastReady(db, niche, now, c);
      if |Before(keys, least)| < CLAIM_WINDOW {
        var rows := AnswerWith(keys, CLAIM_WINDOW, least);
      }
      BeforeLeastReady(db, niche, now, least);
    }
  }

  /** Claim can return nothing although something is ready exactly when at least 50 unready
      candidates come before or together with every ready one. */
  lemma MayMissExactly(db: Db, niche: string, now: real, c: Id)
    requires ReadyCandidate(db, niche, now, c)
    ensures
      (exists rows :: FirstRows(ClaimKeys(db, niche, now), CLAIM_WINDOW, rows) && Misses(db, niche, rows))
        <==> exists b :: FillsAlongside(db, niche, now, b)
  {
    var keys := ClaimKeys(db, niche, now);
    if b :| FillsAlongside(db, niche, now, b) {
      var rows := MissingAnswer(db, niche, now, b);
    }
    if rows :| FirstRows(keys, CLAIM_WINDOW, rows) && Misses(db, niche, rows) {
      MissedWindow(db, niche, now, rows, c);
      assert FillsAlongside(db, niche, now, Members(rows));
    }
  }

  lemma MissingAnswer(db: Db, niche: string, now: real, b: set<Id>) returns (rows: seq<Id>)
    requires FillsAlongside(db, niche, now, b)
    ensures FirstRows(ClaimKeys(db, niche, now), CLAIM_WINDOW, rows) && Misses(db, niche, rows)
  {
    var keys := ClaimKeys(db, niche, now);
    var unready := set u | u in keys && UnreadyCandidate(db, niche, now, u);
    forall u, k | u in b && k in keys && k !in unready ensures KeyLeq(keys[u], keys[k]) {
      assert ReadyCandidate(db, niche, now, k);
      KeysCompare(db, niche, now, u, k);
    }
    assert b <= unready;
    rows := AnswerWithin(keys, CLAIM_WINDOW, unready, b);
  }

  /** An answer that misses a ready candidate holds 50 unready ones before or together with it. */
  lemma MissedWindow(db: Db, niche: string, now: real, rows: seq<Id>, c: Id)
    requires FirstRows(ClaimKeys(db, niche, now), CLAIM_WINDOW, rows) && Misses(db, niche, rows)
    requires ReadyCandidate(db, niche, now, c)
    ensures |rows| == CLAIM_WINDOW && FillsAlongside(db, niche, now, Members(rows))
  {
    var keys := ClaimKeys(db, niche, now);
    assert c in keys && c !in rows;
    DistinctCard(rows);
    forall u | u in rows ensures UnreadyCandidate(db, niche, now, u) {
      assert u in keys;
    }
    forall u, x | u in rows && x in db.events && ReadyCandidate(db, niche, now, x)
      ensures !Comes(db.events[x], db.events[u])
    {
      assert x in keys && x !in rows && u in keys;
      KeysCompare(db, niche, now, u, x);
    }
  }

  // ----- jams

  /** The event has a dependency in the niche that has failed or is stuck itself. */
  ghost predicate StuckDep(db: Db, x: Id, stuck: set<Id>)
    requires x in db.events
  {
    exists d <- db.events[x].deps ::
      d in db.events && db.events[d].niche == db.events[x].niche && (db.events[d].status.Failed? || d in stuck)
  }

  /** At least 50 candidates before the event fill the window. */
  ghost predicate ShutOut(db: Db, x: Id, front: set<Id>)
    requires x in db.events && forall b <- front :: b in db.events
  {
    |front| >= CLAIM_WINDOW && forall b <- front :: Comes(db.events[b], db.events[x])
  }

  /** Pending events of the niche that keep one another from being claimed: each waits for a failed or
      stuck event, or is shut out by stuck candidates that wait for one. */
  ghost predicate Jammed(db: Db, niche: string, now: real, stuck: set<Id>, front: set<Id>) {
    && front <= stuck
    && (forall x <- stuck :: x in db.events && db.events[x].niche == niche && db.events[x].status.Pending?)
    && (forall b <- front :: Eligible(db.events[b], niche, now) && StuckDep(db, b, stuck))
    && (forall x <- stuck :: StuckDep(db, x, stuck) || ShutOut(db, x, front))
  }

  lemma StuckIsNotReady(db: Db, niche: string, now: real, stuck: set<Id>, front: set<Id>, x: Id)
    requires Jammed(db, niche, now, stuck, front) && x in stuck && StuckDep(db, x, stuck)
    ensures !Ready(db, niche, db.events[x].deps)
  {
  }

  lemma ShutOutIsOutside(db: Db, niche: string, now: real, stuck: set<Id>, front: set<Id>, rows: seq<Id>, x: Id)
    requires Jammed(db, niche, now, stuck, front) && x in stuck && ShutOut(db, x, front)
    requires FirstRows(ClaimKeys(db, niche, now), CLAIM_WINDOW, rows)
    ensures x !in rows
  {
    var keys := ClaimKeys(db, niche, now);
    if x in keys {
      forall b | b in front ensures b in Before(keys, x) {
        KeysCompare(db, niche, now, x, b);
      }
      SubsetCard(front, Before(keys, x));
      BehindIsOutside(keys, CLAIM_WINDOW, rows, x);
    }
  }

  lemma JamIsNotPicked(s: Step, niche: string, stuck: set<Id>, front: set<Id>, x: Id)
    requires Next(s) && s.act.Claim? && Jammed(s.before.db, niche, s.now, stuck, front) && x in stuck
    ensures PickOf(s.before.db, s.act.niche, s.act.rows) != Some(x)
  {
    var db := s.before.db;
    PickWasPending(db, s.act.niche, s.now, s.act.rows);
    if x in s.act.rows {
      if StuckDep(db, x, stuck) {
        StuckIsNotReady(db, niche, s.now, stuck, front, x);
      } else {
        ShutOutIsOutside(db, niche, s.now, stuck, front, s.act.rows, x);
      }
    }
  }

  /** The jam depends on its own rows and the failed ones only. */
  lemma JamKept(a: Db, b: Db, niche: string, t: real, now: real, stuck: set<Id>, front: set<Id>)
    requires Jammed(a, niche, t, stuck, front) && t <= now
    requires forall x <- stuck :: x in b.events && b.events[x] == a.events[x]
    requires forall d <- a.events :: a.events[d].status.Failed? ==>
               d in b.events && b.events[d].status.Failed? && b.events[d].niche == a.events[d].niche
    ensures Jammed(b, niche, now, stuck, front)
  {
    forall x | x in stuck && StuckDep(a, x, stuck) ensures StuckDep(b, x, stuck) {
      var d :| d in a.events[x].deps && d in a.events && a.events[d].niche == a.events[x].niche
        && (a.events[d].status.Failed? || d in stuck);
      assert d in b.events[x].deps && d in b.events && b.events[d].niche == b.events[x].niche;
    }
  }

  lemma JamStep(s: Step, niche: string, stuck: set<Id>, front: set<Id>)
    requires Next(s) && ClaimHeld(s.before) && Jammed(s.before.db, niche, s.now, stuck, front)
    ensures Jammed(s.after.db, niche, s.now, stuck, front)
    ensures forall x <- stuck :: s.after.db.events[x] == s.before.db.events[x]
  {
    forall x | x in stuck ensures x in s.after.db.events && s.after.db.events[x] == s.before.db.events[x] {
      if s.act.Claim? {
        JamIsNotPicked(s, niche, stuck, front, x);
      }
      PendingStays(s, x);
    }
    StepEvolves(s);
    forall d | d in s.before.db.events && s.before.db.events[d].status.Failed?
      ensures d in s.after.db.events && s.after.db.events[d].status.Failed?
      ensures s.after.db.events[d].niche == s.before.db.events[d].niche
    {
      assert Kept(s.before.db, s.after.db, d);
    }
    JamKept(s.before.db, s.after.db, niche, s.now, s.now, stuck, front);
  }

  /** A jam never dissolves: whatever daemon and operators do, its events stay as they are. */
  lemma {:induction false} StarvesForever(r: Run, k: nat, niche: string, stuck: set<Id>, front: set<Id>)
    requires IsRun(r) && k < |r| && ClaimHeld(r[0].before)
    requires Jammed(r[0].before.db, niche, r[0].before.clock, stuck, front)
    ensures ClaimHeld(r[k].after) && Jammed(r[k].after.db, niche, r[k].now, stuck, front)
    ensures forall x <- stuck :: r[k].after.db.events[x] == r[0].before.db.events[x]
  {
    assert r[k] in r;
    if k > 0 {
      StarvesForever(r, k - 1, niche, stuck, front);
      assert r[k - 1].after == r[k].before && r[k - 1] in r;
      JamKept(r[k].before.db, r[k].before.db, niche, r[k - 1].now, r[k].now, stuck, front);
    } else {
      JamKept(r[0].before.db, r[0].before.db, niche, r[0].before.clock, r[0].now, stuck, front);
    }
    ClaimHeldStep(r[k]);
    JamStep(r[k], niche, stuck, front);
  }

  /** The pending events of the niche that wait for a failure. */
  ghost function DoomedRows(db: Db, niche: string): set<Id> {
    set x | x in db.events && db.events[x].niche == niche && db.events[x].status.Pending? && Doomed(db, x)
  }

  lemma DoomedIsStuck(db: Db, niche: string, x: Id)
    requires x in DoomedRows(db, niche)
    ensures StuckDep(db, x, DoomedRows(db, niche))
  {
    var n: nat :| Hopeless(db, x, n);
    var d :| d in db.events[x].deps && d in db.events && db.events[d].niche == db.events[x].niche
      && (db.events[d].status.Failed? || (n > 0 && db.events[d].status.Pending? && Hopeless(db, d, n - 1)));
  }

  /** Doomed events are a jam, and fifty of them that could be claimed shut out everything behind. */
  lemma DoomedJam(db: Db, niche: string, now: real, front: set<Id>, behind: set<Id>)
    requires front <= DoomedRows(db, niche)
    requires forall b <- front :: b in db.events && Eligible(db.events[b], niche, now)
    requires behind != {} ==> |front| >= CLAIM_WINDOW
    requires forall x <- behind :: x in db.events && db.events[x].niche == niche && db.events[x].status.Pending?
    requires forall b <- front, x <- behind :: Comes(db.events[b], db.events[x])
    ensures Jammed(db, niche, now, DoomedRows(db, niche) + behind, front)
  {
    var stuck := DoomedRows(db, niche) + behind;
    forall x | x in DoomedRows(db, niche) ensures StuckDep(db, x, stuck) {
      DoomedIsStuck(db, niche, x);
    }
  }

  // ----- every starved event is in a jam

  ghost predicate InJam(db: Db, niche: string, now: real, id: Id) {
    exists stuck, front :: Jammed(db, niche, now, stuck, front) && id in stuck
  }

  /** The event is pending at the end of every run that goes on from here. */
  ghost predicate NeverStarts(w: World, id: Id) {
    forall r: Run :: IsRun(r) && r != [] && r[0].before == w ==> StillPending(r[|r| - 1].after.db, id)
  }

  ghost predicate StillPending(db: Db, id: Id) {
    id in db.events && db.events[id].status.Pending?
  }

  lemma JamNeverStarts(w: World, niche: string, id: Id)
    requires ClaimHeld(w) && InJam(w.db, niche, w.clock, id)
    ensures NeverStarts(w, id)
  {
    var stuck, front :| Jammed(w.db, niche, w.clock, stuck, front) && id in stuck;
    forall r: Run | IsRun(r) && r != [] && r[0].before == w ensures StillPending(r[|r| - 1].after.db, id) {
      StarvesForever(r, |r| - 1, niche, stuck, front);
    }
  }

  /** Where nothing is ready, all candidates wait for a failure or for one another. */
  lemma NothingReadyJams(db: Db, niche: string, now: real)
    requires AtRest(db, niche, now) && forall c <- db.events :: !ReadyCandidate(db, niche, now, c)
    ensures Jammed(db, niche, now, ClaimKeys(db, niche, now).Keys, {})
  {
    var stuck := ClaimKeys(db, niche, now).Keys;
    forall x | x in stuck ensures StuckDep(db, x, stuck) {
      UnreadyIsStuck(db, niche, now, x);
    }
  }

  lemma UnreadyIsStuck(db: Db, niche: string, now: real, x: Id)
    requires AtRest(db, niche, now) && UnreadyCandidate(db, niche, now, x)
    ensures StuckDep(db, x, ClaimKeys(db, niche, now).Keys)
  {
    var d :| d in db.events[x].deps && d in db.events && db.events[d].niche == niche && !db.events[d].status.Done?;
    assert db.events[d].status.Failed? || d in ClaimKeys(db, niche, now);
  }

  /** Where claim must miss, all candidates are one jam. */
  lemma FullFrontJams(db: Db, niche: string, now: real, front: set<Id>)
    requires AtRest(db, niche, now) && FillsInFront(db, niche, now, front)
    ensures Jammed(db, niche, now, ClaimKeys(db, niche, now).Keys, front)
  {
    var stuck := ClaimKeys(db, niche, now).Keys;
    assert forall b <- front :: b in db.events && UnreadyCandidate(db, niche, now, b);
    forall x | x in stuck ensures StuckDep(db, x, stuck) || ShutOut(db, x, front) {
      if UnreadyCandidate(db, niche, now, x) {
        UnreadyIsStuck(db, niche, now, x);
      } else {
        assert ReadyCandidate(db, niche, now, x);
      }
    }
    forall b | b in front
      ensures b in db.events && Eligible(db.events[b], niche, now) && StuckDep(db, b, stuck)
    {
      UnreadyIsStuck(db, niche, now, b);
    }
  }

  /** At rest, either all candidates are jammed or some answer lets claim take one. */
  lemma JamOrPick(db: Db, niche: string, now: real) returns (rows: seq<Id>)
    requires AtRest(db, niche, now)
    ensures FirstRows(ClaimKeys(db, niche, now), CLAIM_WINDOW, rows) && forall id <- rows :: id in db.events
    ensures FirstReady(db, niche, rows).Some?
         || exists front :: Jammed(db, niche, now, ClaimKeys(db, niche, now).Keys, front)
  {
    var keys := ClaimKeys(db, niche, now);
    rows := AnAnswer(keys, CLAIM_WINDOW);
    PickWasPending(db, niche, now, rows);
    if c :| c in db.events && ReadyCandidate(db, niche, now, c) {
      MustMissExactly(db, niche, now, c);
      if front :| FillsInFront(db, niche, now, front) {
        FullFrontJams(db, niche, now, front);
      } else {
        rows :| FirstRows(keys, CLAIM_WINDOW, rows) && !Misses(db, niche, rows);
        PickWasPending(db, niche, now, rows);
      }
    } else {
      NothingReadyJams(db, niche, now);
    }
  }

  // ----- working off what can be worked off

  const PASS: Tick := Tick(Finished, true, 1.0)

  /** A passing tick completes the event without an escalation. */
  lemma PassIsDone(db: Db, p: Id, rows: seq<Reflection>, now: real)
    requires p in db.events
    ensures AfterComplete(db, p, PASS, rows, now).events == db.events[p := db.events[p].(status := Done)]
  {
    var target := VerifiedObjective(db, p);
    if target.Some? {
      PassDoesNotEscalate(db.objectives[target.value], p, rows, now);
    }
  }

  lemma PassDoesNotEscalate(o: Objective, p: Id, rows: seq<Reflection>, now: real)
    ensures !OutcomeOf(o, p, PASS, rows, now).Escalated()
  {
  }

  lemma TrendIsAnswered(db: Db, p: Id) returns (ids: seq<Id>, rows: seq<Reflection>)
    requires p in db.events
    ensures TrendAnswer(db, p, ids, rows)
  {
    ids, rows := [], [];
    var target := VerifiedObjective(db, p);
    if target.Some? {
      ids := AnAnswer(TrendKeys(db, target.value), db.objectives[target.value].constraints.ReflectionWindow());
      rows := ReflectionsAt(db, ids);
    }
  }

  lemma ClaimEnabled(w: World, niche: string, rows: seq<Id>)
    requires w.claimed.None? && FirstRows(ClaimKeys(w.db, niche, w.clock), CLAIM_WINDOW, rows)
    ensures Enabled(w, Claim(niche, rows), w.clock)
    ensures
      var pick := PickOf(w.db, niche, rows);
      && (pick.Some? ==> pick.value in w.db.events)
      && AppliedDb(w, Claim(niche, rows), w.clock) == AfterClaim(w.db, pick, w.clock)
      && AppliedClaim(w, Claim(niche, rows), w.clock) == pick
  {
    PickWasPending(w.db, niche, w.clock, rows);
  }

  lemma Claimed(w: World, niche: string, rows: seq<Id>) returns (s: Step, p: Id)
    requires w.claimed.None? && FirstRows(ClaimKeys(w.db, niche, w.clock), CLAIM_WINDOW, rows)
    requires forall id <- rows :: id in w.db.events
    requires FirstReady(w.db, niche, rows).Some?
    ensures p in ClaimKeys(w.db, niche, w.clock) && Next(s) && s.before == w && s.act.Claim?
    ensures s.after == World(w.db.(events := w.db.events[p := ClaimedEvent(w.db.events[p], w.clock)]), Some(p), w.clock)
  {
    ClaimEnabled(w, niche, rows);
    PickIsNotDoomed(w.db, niche, w.clock, rows);
    p := FirstReady(w.db, niche, rows).value;
    var a := Claim(niche, rows);
    s := Step(w, a, w.clock, World(AppliedDb(w, a, w.clock), AppliedClaim(w, a, w.clock), w.clock));
  }

  lemma Passed(w: World, p: Id) returns (s: Step)
    requires w.claimed == Some(p) && p in w.db.events
    ensures Next(s) && s.before == w && s.act.Complete? && s.after.claimed.None? && s.after.clock == w.clock
    ensures s.after.db.events == w.db.events[p := w.db.events[p].(status := Done)]
  {
    var ids, rows := TrendIsAnswered(w.db, p);
    var a := Complete(p, PASS, ids, rows);
    s := Step(w, a, w.clock, World(AppliedDb(w, a, w.clock), AppliedClaim(w, a, w.clock), w.clock));
    PassIsDone(w.db, p, rows, w.clock);
  }

  function Finish(e: Event, now: real): Event {
    ClaimedEvent(e, now).(status := Done)
  }

  lemma FinishInTwo(m: map<Id, Event>, p: Id, now: real)
    requires p in m
    ensures
      var e := ClaimedEvent(m[p], now);
      m[p := e][p := e.(status := Done)] == m[p := Finish(m[p], now)]
  {
  }

  lemma Pair(s: Step, t: Step) returns (r: Run)
    requires Next(s) && Next(t) && t.before == s.after
    ensures IsRun(r) && |r| == 2 && r[0] == s && r[1] == t && forall x <- r :: x == s || x == t
  {
    r := [s, t];
  }

  /** Claim and complete one event. */
  lemma WorkOff(w: World, niche: string, rows: seq<Id>) returns (r: Run, p: Id)
    requires w.claimed.None? && FirstRows(ClaimKeys(w.db, niche, w.clock), CLAIM_WINDOW, rows)
    requires forall id <- rows :: id in w.db.events
    requires FirstReady(w.db, niche, rows).Some?
    ensures WorksOff(r, w, niche, p)
  {
    var s;
    s, p := Claimed(w, niche, rows);
    FinishInTwo(w.db.events, p, w.clock);
    var t := Passed(s.after, p);
    r := Pair(s, t);
  }

  lemma JamBack(a: Db, b: Db, niche: string, now: real, p: Id, id: Id)
    requires p in a.events && b.events == a.events[p := Finish(a.events[p], now)]
    requires InJam(b, niche, now, id)
    ensures InJam(a, niche, now, id)
  {
    var stuck, front :| Jammed(b, niche, now, stuck, front) && id in stuck;
    forall x | x in stuck ensures x in a.events && a.events[x] == b.events[x] && x != p {
    }
    forall x | x in stuck && StuckDep(b, x, stuck) ensures StuckDep(a, x, stuck) {
      var d :| d in b.events[x].deps && d in b.events && b.events[d].niche == b.events[x].niche
        && (b.events[d].status.Failed? || d in stuck);
      assert d != p;
    }
    assert Jammed(a, niche, now, stuck, front);
  }

  lemma RestAfter(a: Db, b: Db, niche: string, now: real, p: Id)
    requires AtRest(a, niche, now) && p in ClaimKeys(a, niche, now)
    requires b.events == a.events[p := Finish(a.events[p], now)]
    ensures AtRest(b, niche, now) && |ClaimKeys(b, niche, now)| < |ClaimKeys(a, niche, now)|
  {
    assert ClaimKeys(b, niche, now).Keys == ClaimKeys(a, niche, now).Keys - {p};
  }

  lemma RunConcat(p: Run, q: Run)
    requires IsRun(p) && IsRun(q) && p != [] && q != [] && q[0].before == p[|p| - 1].after
    ensures IsRun(p + q)
  {
    var r := p + q;
    forall i | 0 <= i < |r| - 1 ensures r[i].after == r[i + 1].before {
      if i < |p| - 1 {
        assert p[i].after == p[i + 1].before;
      } else if i >= |p| {
        assert q[i - |p|].after == q[i - |p| + 1].before;
      }
    }
  }

  /** The daemon alone goes on from `w` until the event is done. */
  ghost predicate Finishes(r: Run, w: World, id: Id) {
    && IsRun(r) && r != [] && r[0].before == w
    && (forall s <- r :: s.act.Claim? || s.act.Complete?)
    && id in r[|r| - 1].after.db.events && r[|r| - 1].after.db.events[id].status.Done?
  }

  lemma FinishesLater(p: Run, q: Run, w: World, v: World, id: Id) returns (r: Run)
    requires IsRun(p) && p != [] && p[0].before == w && p[|p| - 1].after == v && Finishes(q, v, id)
    requires forall s <- p :: s.act.Claim? || s.act.Complete?
    ensures Finishes(r, w, id)
  {
    RunConcat(p, q);
    r := p + q;
    assert r[|r| - 1] == q[|q| - 1] && r[0] == p[0];
  }

  /** The candidates are jammed, or the daemon can work one of them off. */
  lemma OneRound(w: World, niche: string, id: Id) returns (r: Run, p: Id)
    requires w.claimed.None? && AtRest(w.db, niche, w.clock) && id in ClaimKeys(w.db, niche, w.clock)
    ensures InJam(w.db, niche, w.clock, id) || WorksOff(r, w, niche, p)
  {
    r, p := [], id;
    var rows := JamOrPick(w.db, niche, w.clock);
    if FirstReady(w.db, niche, rows).Some? {
      r, p := WorkOff(w, niche, rows);
    }
  }

  ghost predicate WorksOff(r: Run, w: World, niche: string, p: Id) {
    && IsRun(r) && |r| == 2 && r[0].before == w && r[1].after.claimed.None? && r[1].after.clock == w.clock
    && (forall s <- r :: s.act.Claim? || s.act.Complete?)
    && p in ClaimKeys(w.db, niche, w.clock)
    && r[1].after.db.events == w.db.events[p := Finish(w.db.events[p], w.clock)]
  }

  /** The event is in a jam, or the daemon alone can go on until it is done. */
  lemma {:induction false} FinishOrJam(w: World, niche: string, id: Id) returns (r: Run)
    requires w.claimed.None? && AtRest(w.db, niche, w.clock) && id in ClaimKeys(w.db, niche, w.clock)
    ensures InJam(w.db, niche, w.clock, id) || Finishes(r, w, id)
    decreases |ClaimKeys(w.db, niche, w.clock)|
  {
    var p;
    r, p := OneRound(w, niche, id);
    if !InJam(w.db, niche, w.clock, id) && p != id {
      var v := r[1].after;
      RestAfter(w.db, v.db, niche, w.clock, p);
      var q := FinishOrJam(v, niche, id);
      if InJam(v.db, niche, w.clock, id) {
        JamBack(w.db, v.db, niche, w.clock, p, id);
      } else {
        r := FinishesLater(r, q, w, v, id);
      }
    }
  }

  /** With nothing processing, waiting or backing off, a candidate is starved for ever, in every run
      that goes on from here, if and only if it is in a jam; if it is in none the daemon alone can get it
      done. */
  lemma StarvedExactly(w: World, niche: string, id: Id)
    requires w.claimed.None? && AtRest(w.db, niche, w.clock) && id in ClaimKeys(w.db, niche, w.clock)
    ensures NeverStarts(w, id) <==> InJam(w.db, niche, w.clock, id)
    ensures NeverStarts(w, id) <==> !exists r: Run :: Finishes(r, w, id)
  {
    if InJam(w.db, niche, w.clock, id) {
      JamNeverStarts(w, niche, id);
    } else {
      var r := FinishOrJam(w, niche, id);
      assert !StillPending(r[|r| - 1].after.db, id);
    }
  }
}
