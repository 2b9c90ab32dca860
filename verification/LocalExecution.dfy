/** Pause and resume of a local execution pack at operation boundaries. */
module LocalExecution {
  import opened Common

  /** What running one operation did: the new world, and whether it raised. */
  datatype Effect<World> = Effect(world: World, failed: bool)

  type Tool<!Op, !World> = (Op, World) -> Effect<World>

  /** One row of `steps`. */
  datatype StepRow = StepRow(index: nat, failed: bool)

  /** How a segment ends: all operations visited, paused with the checkpoint's index, or stopped
      by the first failure when failures are not tolerated. */
  datatype Ending = Finished | Paused(nextOperation: nat) | Stopped(failedOperation: nat)

  datatype Segment<World> = Segment(world: World, steps: seq<StepRow>, ending: Ending)

  datatype Checkpoint = Checkpoint(nextOperationIndex: Option<int>)

  /** The saved index, clamped to the operations; a missing one counts as 0. */
  function ResumeIndex(c: Checkpoint, total: nat): (i: nat)
    ensures i <= total
    ensures c.nextOperationIndex.Some? && 0 <= c.nextOperationIndex.value <= total ==> i == c.nextOperationIndex.value
  {
    MaxInt(0, MinInt(c.nextOperationIndex.GetOr(0), total))
  }

  /** The checkpoint used: the newest non-empty one among run, result and metadata, or a fresh one. */
  function ResumeCheckpoint(run: Option<Checkpoint>, result: Option<Checkpoint>, metadata: Option<Checkpoint>)
    : Checkpoint
  {
    if run.Some? then run.value
    else if result.Some? then result.value
    else if metadata.Some? then metadata.value
    else Checkpoint(Some(0))
  }

  /** A run goes on at the index its own checkpoint saved, or else its result's, or else its metadata's;
      without any it starts over. */
  lemma ResumesFromNewest(run: Option<Checkpoint>, result: Option<Checkpoint>, metadata: Option<Checkpoint>, n: nat,
                          total: nat)
    requires n <= total
    requires run == Some(Checkpoint(Some(n)))
          || (run.None? && result == Some(Checkpoint(Some(n))))
          || (run.None? && result.None? && metadata == Some(Checkpoint(Some(n))))
          || (run.None? && result.None? && metadata.None? && n == 0)
    ensures ResumeIndex(ResumeCheckpoint(run, result, metadata), total) == n
  {
  }

  /** The operations from `i` on, run without interruption. */
  function Uninterrupted<Op, World>(tool: Tool<Op, World>, ops: seq<Op>, continueOnError: bool, i: nat, w: World)
    : Segment<World>
    requires i <= |ops|
    decreases |ops| - i
  {
    if i == |ops| then Segment(w, [], Finished)
    else
      var e := tool(ops[i], w);
      if e.failed && !continueOnError then Segment(e.world, [StepRow(i, true)], Stopped(i))
      else
        var rest := Uninterrupted(tool, ops, continueOnError, i + 1, e.world);
        rest.(steps := [StepRow(i, e.failed)] + rest.steps)
  }

  /** The same when a pause is requested before each operation in `pauses`. */
  function UntilPause<Op, World>(tool: Tool<Op, World>, ops: seq<Op>, continueOnError: bool, pauses: set<nat>,
                                 i: nat, w: World): Segment<World>
    requires i <= |ops|
    decreases |ops| - i
  {
    if i == |ops| then Segment(w, [], Finished)
    else if i in pauses then Segment(w, [], Paused(i))
    else
      var e := tool(ops[i], w);
      if e.failed && !continueOnError then Segment(e.world, [StepRow(i, true)], Stopped(i))
      else
        var rest := UntilPause(tool, ops, continueOnError, pauses, i + 1, e.world);
        rest.(steps := [StepRow(i, e.failed)] + rest.steps)
  }

  /** The visited operations that did, or did not, fail, in order. */
  function Visited(steps: seq<StepRow>, failed: bool): (v: seq<nat>)
    ensures |v| <= |steps|
  {
    if steps == [] then []
    else
      var last := steps[|steps| - 1];
      Visited(steps[..|steps| - 1], failed) + (if last.failed == failed then [last.index] else [])
  }

  lemma VisitedOne(steps: seq<StepRow>, row: StepRow, failed: bool)
    ensures Visited(steps + [row], failed)
         == Visited(steps, failed) + (if row.failed == failed then [row.index] else [])
  {
    assert (steps + [row])[..|steps|] == steps;
  }

  /** Every visited operation is an action or an error. */
  lemma {:induction false} ActionsAndErrors(steps: seq<StepRow>)
    ensures |Visited(steps, false)| + |Visited(steps, true)| == |steps|
  {
    if steps != [] {
      ActionsAndErrors(steps[..|steps| - 1]);
    }
  }

  function Joined<World>(steps: seq<StepRow>, s: Segment<World>): Segment<World> {
    s.(steps := steps + s.steps)
  }

  /** One turn of the loop, seen from the rows collected so far. */
  lemma Turn<Op, World>(tool: Tool<Op, World>, ops: seq<Op>, continueOnError: bool, pauses: set<nat>, i: nat, w: World,
                        steps: seq<StepRow>)
    requires i < |ops|
    ensures
      var e := tool(ops[i], w);
      Joined(steps, UntilPause(tool, ops, continueOnError, pauses, i, w))
        == if i in pauses then Segment(w, steps, Paused(i))
           else if e.failed && !continueOnError then Segment(e.world, steps + [StepRow(i, true)], Stopped(i))
           else Joined(steps + [StepRow(i, e.failed)], UntilPause(tool, ops, continueOnError, pauses, i + 1, e.world))
  {
    var e := tool(ops[i], w);
    var rest := UntilPause(tool, ops, continueOnError, pauses, i + 1, e.world);
    assert steps + ([StepRow(i, e.failed)] + rest.steps) == (steps + [StepRow(i, e.failed)]) + rest.steps;
    assert steps + [] == steps;
  }

  /** The operation loop of one segment: `actions` and `errors` are the lists it reports. */
  method RunSegment<Op, World>(tool: Tool<Op, World>, ops: seq<Op>, continueOnError: bool, pauses: set<nat>,
                               checkpoint: Checkpoint, world: World)
    returns (s: Segment<World>, actions: seq<nat>, errors: seq<nat>)
    ensures s == UntilPause(tool, ops, continueOnError, pauses, ResumeIndex(checkpoint, |ops|), world)
    ensures actions == Visited(s.steps, false) && errors == Visited(s.steps, true)
    ensures |actions| + |errors| == |s.steps|
  {
    var start := ResumeIndex(checkpoint, |ops|);
    ghost var goal := UntilPause(tool, ops, continueOnError, pauses, start, world);
    var w := world;
    var steps: seq<StepRow> := [];
    actions, errors := [], [];
    var index := start;
    assert [] + goal.steps == goal.steps;
    while index < |ops|
      invariant start <= index <= |ops|
      invariant Joined(steps, UntilPause(tool, ops, continueOnError, pauses, index, w)) == goal
      invariant actions == Visited(steps, false) && errors == Visited(steps, true)
    {
      Turn(tool, ops, continueOnError, pauses, index, w, steps);
      if index in pauses {
        ActionsAndErrors(steps);
        return Segment(w, steps, Paused(index)), actions, errors;
      }
      var e := tool(ops[index], w);
      w := e.world;
      VisitedOne(steps, StepRow(index, e.failed), false);
      VisitedOne(steps, StepRow(index, e.failed), true);
      steps := steps + [StepRow(index, e.failed)];
      if !e.failed {
        actions := actions + [index];
      } else {
        errors := errors + [index];
        if !continueOnError {
          ActionsAndErrors(steps);
          return Segment(w, steps, Stopped(index)), actions, errors;
        }
      }
      index := index + 1;
    }
    assert steps + [] == steps;
    ActionsAndErrors(steps);
    s := Segment(w, steps, Finished);
  }

  // ----- one segment

  /** The index behind the last operation visited. */
  function NextIndex(e: Ending, total: nat): nat {
    match e
    case Finished => total
    case Paused(next) => next
    case Stopped(failed) => failed + 1
  }

  /** A segment visits consecutive operations from its start, each once; if it finishes it visits
      all of them, and if it pauses it visits exactly those before the index it saves. */
  lemma {:induction false} SegmentVisits<Op, World>(tool: Tool<Op, World>, ops: seq<Op>, continueOnError: bool,
                                                    pauses: set<nat>, i: nat, w: World)
    requires i <= |ops|
    ensures
      var s := UntilPause(tool, ops, continueOnError, pauses, i, w);
      && (forall k :: 0 <= k < |s.steps| ==> s.steps[k].index == i + k)
      && i + |s.steps| == NextIndex(s.ending, |ops|)
      && (s.ending.Paused? ==> i <= s.ending.nextOperation < |ops| && s.ending.nextOperation in pauses)
      && (s.ending.Stopped? ==> s.ending.failedOperation < |ops|)
    decreases |ops| - i
  {
    if i < |ops| && i !in pauses {
      var e := tool(ops[i], w);
      SegmentVisits(tool, ops, continueOnError, pauses, i + 1, e.world);
    }
  }

  /** Where a segment pauses, the uninterrupted run has the same world and the same rows behind it,
      and goes on from there. */
  lemma {:induction false} PauseSplits<Op, World>(tool: Tool<Op, World>, ops: seq<Op>, continueOnError: bool,
                                                  pauses: set<nat>, i: nat, w: World)
    requires i <= |ops|
    ensures
      var s := UntilPause(tool, ops, continueOnError, pauses, i, w);
      var whole := Uninterrupted(tool, ops, continueOnError, i, w);
      if s.ending.Paused? then
        s.ending.nextOperation <= |ops|
        && whole == Joined(s.steps, Uninterrupted(tool, ops, continueOnError, s.ending.nextOperation, s.world))
      else whole == s
    decreases |ops| - i
  {
    if i < |ops| {
      if i in pauses {
        JoinedNothing(Uninterrupted(tool, ops, continueOnError, i, w));
      } else {
        var e := tool(ops[i], w);
        if !e.failed || continueOnError {
          PauseSplits(tool, ops, continueOnError, pauses, i + 1, e.world);
          var rest := UntilPause(tool, ops, continueOnError, pauses, i + 1, e.world);
          if rest.ending.Paused? {
            JoinedTwice([StepRow(i, e.failed)], rest.steps,
                        Uninterrupted(tool, ops, continueOnError, rest.ending.nextOperation, rest.world));
          }
        }
      }
    }
  }

  lemma JoinedNothing<World>(s: Segment<World>)
    ensures Joined([], s) == s
  {
    assert [] + s.steps == s.steps;
  }

  lemma JoinedTwice<World>(a: seq<StepRow>, b: seq<StepRow>, s: Segment<World>)
    ensures Joined(a, Joined(b, s)) == Joined(a + b, s)
  {
    assert a + (b + s.steps) == (a + b) + s.steps;
  }

  // ----- a run of several segments

  /** The run resumed after each pause from the index the pause saved; nobody changes the world in
      between. `requests[k]` are the pauses asked for during segment `k`; the last segment listed
      may still be paused. All rows are collected. */
  function Resumed<Op, World>(tool: Tool<Op, World>, ops: seq<Op>, continueOnError: bool, requests: seq<set<nat>>,
                              c: Checkpoint, w: World): Segment<World>
    requires requests != []
    decreases |requests|
  {
    var s := UntilPause(tool, ops, continueOnError, requests[0], ResumeIndex(c, |ops|), w);
    if s.ending.Paused? && |requests| > 1 then
      Joined(s.steps,
             Resumed(tool, ops, continueOnError, requests[1..], Checkpoint(Some(s.ending.nextOperation)), s.world))
    else s
  }

  lemma {:induction false} ResumedIsUninterrupted<Op, World>(tool: Tool<Op, World>, ops: seq<Op>, continueOnError: bool,
                                                             requests: seq<set<nat>>, c: Checkpoint, w: World)
    requires requests != []
    requires !Resumed(tool, ops, continueOnError, requests, c, w).ending.Paused?
    ensures Resumed(tool, ops, continueOnError, requests, c, w)
         == Uninterrupted(tool, ops, continueOnError, ResumeIndex(c, |ops|), w)
    decreases |requests|
  {
    var i := ResumeIndex(c, |ops|);
    PauseSplits(tool, ops, continueOnError, requests[0], i, w);
    SegmentVisits(tool, ops, continueOnError, requests[0], i, w);
    var s := UntilPause(tool, ops, continueOnError, requests[0], i, w);
    if s.ending.Paused? {
      ResumedIsUninterrupted(tool, ops, continueOnError, requests[1..],
                             Checkpoint(Some(s.ending.nextOperation)), s.world);
    }
  }

  lemma NoPauses<Op, World>(tool: Tool<Op, World>, ops: seq<Op>, continueOnError: bool, i: nat, w: World)
    requires i <= |ops|
    ensures UntilPause(tool, ops, continueOnError, {}, i, w) == Uninterrupted(tool, ops, continueOnError, i, w)
  {
    PauseSplits(tool, ops, continueOnError, {}, i, w);
    SegmentVisits(tool, ops, continueOnError, {}, i, w);
  }

  /** Pausing and resuming changes nothing. However often and wherever a run is paused, once it is
      no longer paused it ends in the world and with the rows of the run that was never paused: if
      that one finishes, every operation was visited exactly once and in order; if it stops at a
      failure, so does the other, at the same operation. */
  lemma PauseResumePreservesMeaning<Op, World>(tool: Tool<Op, World>, ops: seq<Op>, continueOnError: bool,
                                               requests: seq<set<nat>>, w: World)
    requires requests != []
    requires !Resumed(tool, ops, continueOnError, requests, ResumeCheckpoint(None, None, None), w).ending.Paused?
    ensures
      var run := Resumed(tool, ops, continueOnError, requests, ResumeCheckpoint(None, None, None), w);
      && run == Uninterrupted(tool, ops, continueOnError, 0, w)
      && (forall k :: 0 <= k < |run.steps| ==> run.steps[k].index == k)
      && (run.ending.Finished? ==> |run.steps| == |ops|)
      && (run.ending.Stopped? ==> !continueOnError && |run.steps| == run.ending.failedOperation + 1)
  {
    ResumedIsUninterrupted(tool, ops, continueOnError, requests, ResumeCheckpoint(None, None, None), w);
    NoPauses(tool, ops, continueOnError, 0, w);
    SegmentVisits(tool, ops, continueOnError, {}, 0, w);
    StopsOnlyIfAsked(tool, ops, continueOnError, 0, w);
  }

  lemma {:induction false} StopsOnlyIfAsked<Op, World>(tool: Tool<Op, World>, ops: seq<Op>, continueOnError: bool,
                                                       i: nat, w: World)
    requires i <= |ops|
    ensures Uninterrupted(tool, ops, continueOnError, i, w).ending.Stopped? ==> !continueOnError
    ensures !Uninterrupted(tool, ops, continueOnError, i, w).ending.Paused?
    decreases |ops| - i
  {
    if i < |ops| {
      StopsOnlyIfAsked(tool, ops, continueOnError, i + 1, tool(ops[i], w).world);
    }
  }

  /** A run whose last segment is asked for no pause is over, however it was paused before. */
  lemma {:induction false} ResumedEnds<Op, World>(tool: Tool<Op, World>, ops: seq<Op>, continueOnError: bool,
                                                  requests: seq<set<nat>>, c: Checkpoint, w: World)
    requires requests != [] && requests[|requests| - 1] == {}
    ensures !Resumed(tool, ops, continueOnError, requests, c, w).ending.Paused?
    decreases |requests|
  {
    var i := ResumeIndex(c, |ops|);
    SegmentVisits(tool, ops, continueOnError, requests[0], i, w);
    if |requests| > 1 {
      var s := UntilPause(tool, ops, continueOnError, requests[0], i, w);
      if s.ending.Paused? {
        ResumedEnds(tool, ops, continueOnError, requests[1..], Checkpoint(Some(s.ending.nextOperation)), s.world);
      }
    }
  }

  // ----- what the operations do

  /** The world before operation `k` when all operations before it have been run. */
  function WorldAt<Op, World>(tool: Tool<Op, World>, ops: seq<Op>, k: nat, w: World): World
    requires k <= |ops|
  {
    if k == 0 then w else tool(ops[k - 1], WorldAt(tool, ops, k - 1, w)).world
  }

  /** Whether operation `k` fails on that world. */
  predicate FailsAt<Op, World>(tool: Tool<Op, World>, ops: seq<Op>, k: nat, w: World)
    requires k < |ops|
  {
    tool(ops[k], WorldAt(tool, ops, k, w)).failed
  }

  /** The rows of operations `from` on say what happened. */
  ghost predicate RowsTell<Op, World>(tool: Tool<Op, World>, ops: seq<Op>, from: nat, steps: seq<StepRow>, w: World) {
    && from + |steps| <= |ops|
    && forall row <- steps :: row.index < |ops| && row.failed == FailsAt(tool, ops, row.index, w)
  }

  /** The segment is what came of running operations `from` on: it stops at the first failure unless
      failures are tolerated, and otherwise runs to the end. */
  ghost predicate Tells<Op, World>(tool: Tool<Op, World>, ops: seq<Op>, continueOnError: bool, from: nat,
                                   s: Segment<World>, w: World) {
    && RowsTell(tool, ops, from, s.steps, w)
    && s.world == WorldAt(tool, ops, from + |s.steps|, w)
    && (forall k :: 0 <= k < |s.steps| - 1 ==> !s.steps[k].failed || continueOnError)
    && (s.ending.Stopped? <==> s.steps != [] && s.steps[|s.steps| - 1].failed && !continueOnError)
    && (!s.ending.Stopped? ==> from + |s.steps| == |ops|)
  }

  lemma {:induction false} UninterruptedTells<Op, World>(tool: Tool<Op, World>, ops: seq<Op>, continueOnError: bool,
                                                         i: nat, w: World)
    requires i <= |ops|
    ensures Tells(tool, ops, continueOnError, i,
                  Uninterrupted(tool, ops, continueOnError, i, WorldAt(tool, ops, i, w)), w)
    decreases |ops| - i
  {
    if i < |ops| {
      UninterruptedTells(tool, ops, continueOnError, i + 1, w);
    }
  }

  /** Every operation of an uninterrupted run is run on the world its predecessors left, and its row says
      whether it failed. The run stops at the first failure unless failures are tolerated, and ends in the
      world of the last operation it ran. */
  lemma RowsAreTheCalls<Op, World>(tool: Tool<Op, World>, ops: seq<Op>, continueOnError: bool, w: World)
    ensures Tells(tool, ops, continueOnError, 0, Uninterrupted(tool, ops, continueOnError, 0, w), w)
  {
    UninterruptedTells(tool, ops, continueOnError, 0, w);
  }
}
