/** The stuck analysis of the autonomous control loop, against a planner that may do anything. */
module StuckLoop {

  const MAX_STEPS: nat := 20
  const MIN_STAGNANT_SCREENSHOTS: nat := 3
  const VISUAL_STALL_STOP_SCREENSHOTS: nat := 6
  const MAX_VISUAL_STALL_RECOVERY_ATTEMPTS: nat := 1
  const MAX_LOADING_RECOVERY_ATTEMPTS: nat := 2
  const MIN_REPEATED_ACTION_STREAK: nat := 2
  const STOP_REPEATED_ACTION_STREAK: nat := 4
  const MIN_TARGET_ACQUISITION_FAILURES: nat := 2
  const STOP_TARGET_ACQUISITION_FAILURES: nat := 4

  datatype Signal = LoadingNoResponse | RepeatedAction | VisualStall

  datatype Strategy = NoStrategy | WaitAndRecheck(signal: Signal)

  datatype ActionKind = Wait | LaunchApp | Click | Type | OtherAction

  /** One history entry, as far as the streaks look at it. `params` stands for the normalized
      parameters; `focusError` says that the error text names a missed target. */
  datatype Entry = Entry(
    signature: string,
    action: ActionKind,
    params: string,
    success: bool,
    focusError: bool,
    strategy: Strategy)

  predicate TargetFailure(e: Entry) {
    !e.success && (e.action.Click? || e.action.Type?) && e.focusError
  }

  predicate LoadingRelated(e: Entry) {
    || e.strategy == WaitAndRecheck(LoadingNoResponse)
    || e.strategy == WaitAndRecheck(VisualStall)
    || e.action.Wait? || e.action.LaunchApp?
  }

  predicate SameAction(a: Entry, b: Entry) {
    a.action == b.action && a.params == b.params
  }

  function Last(h: seq<Entry>): Entry
    requires h != []
  {
    h[|h| - 1]
  }

  function Init(h: seq<Entry>): seq<Entry>
    requires h != []
  {
    h[..|h| - 1]
  }

  // ----- the streaks, read from the end of the history

  function Unchanged(h: seq<Entry>, sig: string): nat {
    if h == [] || Last(h).signature != sig then 0 else 1 + Unchanged(Init(h), sig)
  }

  function Attempts(h: seq<Entry>, signal: Signal): nat {
    if h == [] || Last(h).strategy != WaitAndRecheck(signal) then 0 else 1 + Attempts(Init(h), signal)
  }

  function Misses(h: seq<Entry>): nat {
    if h == [] || !TargetFailure(Last(h)) then 0 else 1 + Misses(Init(h))
  }

  function Loading(h: seq<Entry>, sig: string): nat {
    if h == [] || Last(h).signature != sig || !LoadingRelated(Last(h)) then 0 else 1 + Loading(Init(h), sig)
  }

  /** Planner actions equal to `like` at the end of the history. */
  function Alike(h: seq<Entry>, sig: string, like: Entry): nat {
    if h == [] || !Last(h).strategy.NoStrategy? || Last(h).signature != sig || !SameAction(Last(h), like) then 0
    else 1 + Alike(Init(h), sig, like)
  }

  /** Recoveries at the very end are skipped; the first one behind a planner action ends the count. */
  function Repeats(h: seq<Entry>, sig: string): nat {
    if h == [] then 0
    else if !Last(h).strategy.NoStrategy? then Repeats(Init(h), sig)
    else Alike(h, sig, Last(h))
  }

  method ConsecutiveIdenticalScreenshots(h: seq<Entry>, sig: string) returns (count: nat)
    requires sig != ""
    ensures count == 1 + Unchanged(h, sig)
  {
    count := 1;
    var i := |h|;
    assert h[..|h|] == h;
    while i > 0 && h[i - 1].signature == sig
      invariant 0 <= i <= |h|
      invariant count + Unchanged(h[..i], sig) == 1 + Unchanged(h, sig)
    {
      assert h[..i][..i - 1] == h[..i - 1];
      count := count + 1;
      i := i - 1;
    }
  }

  method ConsecutiveRecoveryAttempts(h: seq<Entry>, signal: Signal) returns (count: nat)
    ensures count == Attempts(h, signal)
  {
    count := 0;
    var i := |h|;
    assert h[..|h|] == h;
    while i > 0 && h[i - 1].strategy == WaitAndRecheck(signal)
      invariant 0 <= i <= |h|
      invariant count + Attempts(h[..i], signal) == Attempts(h, signal)
    {
      assert h[..i][..i - 1] == h[..i - 1];
      count := count + 1;
      i := i - 1;
    }
  }

  method ConsecutiveTargetFailures(h: seq<Entry>) returns (count: nat)
    ensures count == Misses(h)
  {
    count := 0;
    var i := |h|;
    assert h[..|h|] == h;
    while i > 0 && TargetFailure(h[i - 1])
      invariant 0 <= i <= |h|
      invariant count + Misses(h[..i]) == Misses(h)
    {
      assert h[..i][..i - 1] == h[..i - 1];
      count := count + 1;
      i := i - 1;
    }
  }

  method RepeatedActionStreak(h: seq<Entry>, sig: string) returns (streak: nat)
    ensures streak == Repeats(h, sig)
  {
    streak := 0;
    var like := LastEntry(sig);
    var i := |h|;
    assert h[..|h|] == h;
    while i > 0
      invariant 0 <= i <= |h|
      invariant streak == 0 ==> Repeats(h[..i], sig) == Repeats(h, sig)
      invariant streak > 0 ==> streak + Alike(h[..i], sig, like) == Repeats(h, sig)
    {
      var item := h[i - 1];
      assert h[..i][..i - 1] == h[..i - 1];
      if !item.strategy.NoStrategy? {
        if streak > 0 {
          return;
        }
      } else {
        if item.signature != sig {
          return;
        }
        if streak == 0 {
          like := item;
        }
        if !SameAction(item, like) {
          return;
        }
        streak := streak + 1;
      }
      i := i - 1;
    }
  }

  method LoadingStreak(h: seq<Entry>, sig: string) returns (streak: nat)
    ensures streak == Loading(h, sig)
  {
    streak := 0;
    var i := |h|;
    assert h[..|h|] == h;
    while i > 0 && h[i - 1].signature == sig && LoadingRelated(h[i - 1])
      invariant 0 <= i <= |h|
      invariant streak + Loading(h[..i], sig) == Loading(h, sig)
    {
      assert h[..i][..i - 1] == h[..i - 1];
      streak := streak + 1;
      i := i - 1;
    }
  }

  // ----- the decision

  datatype StopStatus = StuckTargetAcquisition | StuckLoadingTimeout | StuckRepeatedAction | StuckVisualStall

  /** Nothing seen, advice for the planner, a recovery of the loop's own, or the end. */
  datatype Analysis = Inactive | Guidance | Recover(signal: Signal) | Stop(status: StopStatus)

  /** Ready is a readiness state of `ready` or `input_ready`. */
  datatype Screen = Screen(signature: string, ready: bool)

  function Analyze(h: seq<Entry>, s: Screen): Analysis {
    if s.signature == "" then Inactive
    else if Misses(h) >= MIN_TARGET_ACQUISITION_FAILURES then
      if Misses(h) >= STOP_TARGET_ACQUISITION_FAILURES then Stop(StuckTargetAcquisition) else Guidance
    else if 1 + Unchanged(h, s.signature) < MIN_STAGNANT_SCREENSHOTS then Inactive
    else if Loading(h, s.signature) >= 2 then
      if s.ready then Guidance
      else if Attempts(h, LoadingNoResponse) < MAX_LOADING_RECOVERY_ATTEMPTS then Recover(LoadingNoResponse)
      else Stop(StuckLoadingTimeout)
    else if Repeats(h, s.signature) >= MIN_REPEATED_ACTION_STREAK then
      if Attempts(h, RepeatedAction) < 1 then Recover(RepeatedAction)
      else if Repeats(h, s.signature) >= STOP_REPEATED_ACTION_STREAK then Stop(StuckRepeatedAction)
      else Guidance
    else if Attempts(h, VisualStall) < MAX_VISUAL_STALL_RECOVERY_ATTEMPTS then Recover(VisualStall)
    else if 1 + Unchanged(h, s.signature) >= VISUAL_STALL_STOP_SCREENSHOTS then Stop(StuckVisualStall)
    else Guidance
  }

  method AnalyzeStuckState(h: seq<Entry>, s: Screen) returns (a: Analysis)
    ensures a == Analyze(h, s)
  {
    if s.signature == "" {
      return Inactive;
    }
    var stagnant := ConsecutiveIdenticalScreenshots(h, s.signature);
    var repeated := RepeatedActionStreak(h, s.signature);
    var misses := ConsecutiveTargetFailures(h);
    var loading := LoadingStreak(h, s.signature);
    if misses >= MIN_TARGET_ACQUISITION_FAILURES {
      if misses >= STOP_TARGET_ACQUISITION_FAILURES {
        return Stop(StuckTargetAcquisition);
      }
      return Guidance;
    }
    if stagnant >= MIN_STAGNANT_SCREENSHOTS && loading >= 2 {
      var attempts := ConsecutiveRecoveryAttempts(h, LoadingNoResponse);
      if s.ready {
        return Guidance;
      }
      if attempts < MAX_LOADING_RECOVERY_ATTEMPTS {
        return Recover(LoadingNoResponse);
      }
      return Stop(StuckLoadingTimeout);
    }
    if stagnant >= MIN_STAGNANT_SCREENSHOTS && repeated >= MIN_REPEATED_ACTION_STREAK {
      var attempts := ConsecutiveRecoveryAttempts(h, RepeatedAction);
      if attempts < 1 {
        return Recover(RepeatedAction);
      }
      if repeated >= STOP_REPEATED_ACTION_STREAK {
        return Stop(StuckRepeatedAction);
      }
      return Guidance;
    }
    if stagnant >= MIN_STAGNANT_SCREENSHOTS {
      var attempts := ConsecutiveRecoveryAttempts(h, VisualStall);
      if attempts < MAX_VISUAL_STALL_RECOVERY_ATTEMPTS {
        return Recover(VisualStall);
      }
      if stagnant >= VISUAL_STALL_STOP_SCREENSHOTS {
        return Stop(StuckVisualStall);
      }
      return Guidance;
    }
    return Inactive;
  }

  // ----- the loop

  /** What the loop appends for a recovery of its own: it waits, and waiting succeeds. */
  function RecoveryEntry(signal: Signal, sig: string): Entry {
    Entry(sig, Wait, if signal.VisualStall? then "0.8" else "1.5", true, false, WaitAndRecheck(signal))
  }

  /** What an executed planner action leaves behind. */
  datatype Choice = Choice(action: ActionKind, params: string, success: bool, focusError: bool)

  function ChoiceEntry(c: Choice, sig: string): Entry {
    Entry(sig, c.action, c.params, c.success, c.focusError, NoStrategy)
  }

  datatype Ending = Done | PolicyBlocked | ApprovalRequired

  /** The planner's answer: an executed action that may end the loop, or a gate that does. */
  datatype Plan = Execute(choice: Choice) | ExecuteDone(choice: Choice) | Gated(ending: Ending)

  datatype FinalStatus = MaxStepsReached | Stuck(status: StopStatus) | Ended(ending: Ending)

  /** One turn's inputs: the screen it finds and what the planner would answer. */
  datatype Turn = Turn(screen: Screen, plan: Plan)

  datatype Result = Result(history: seq<Entry>, status: FinalStatus, decisions: nat)

  /** The entry of a stop or of a gate, which nothing reads any more. */
  function LastEntry(sig: string): Entry {
    Entry(sig, OtherAction, "", false, false, NoStrategy)
  }

  function Loop(h: seq<Entry>, turns: seq<Turn>): Result
    decreases |turns|
  {
    if turns == [] then Result(h, MaxStepsReached, 0)
    else
      var sig := turns[0].screen.signature;
      match Analyze(h, turns[0].screen)
      case Stop(status) => Result(h + [LastEntry(sig)], Stuck(status), 1)
      case Recover(signal) =>
        var rest := Loop(h + [RecoveryEntry(signal, sig)], turns[1..]);
        rest.(decisions := rest.decisions + 1)
      case _ =>
        match turns[0].plan
        case Gated(ending) => Result(h + [LastEntry(sig)], Ended(ending), 1)
        case ExecuteDone(c) => Result(h + [ChoiceEntry(c, sig)], Ended(Done), 1)
        case Execute(c) =>
          var rest := Loop(h + [ChoiceEntry(c, sig)], turns[1..]);
          rest.(decisions := rest.decisions + 1)
  }

  /** The decision loop: at most `maxSteps` turns, capped at 20. */
  method RunLoop(turns: seq<Turn>, maxSteps: int) returns (r: Result)
    requires |turns| >= StepLimit(maxSteps)
    ensures r == Loop([], turns[..StepLimit(maxSteps)])
    ensures r.decisions <= MAX_STEPS
  {
    var history: seq<Entry> := [];
    var limit := StepLimit(maxSteps);
    var steps := turns[..limit];
    ghost var goal := Loop([], steps);
    var i := 0;
    while i < limit
      invariant 0 <= i <= limit
      invariant goal == Loop(history, steps[i..]).(decisions := i + Loop(history, steps[i..]).decisions)
    {
      var screen := steps[i].screen;
      assert steps[i..][0] == steps[i] && steps[i..][1..] == steps[i + 1..];
      var stuck := AnalyzeStuckState(history, screen);
      if stuck.Stop? {
        return Result(history + [LastEntry(screen.signature)], Stuck(stuck.status), i + 1);
      }
      if stuck.Recover? {
        history := history + [RecoveryEntry(stuck.signal, screen.signature)];
      } else {
        match steps[i].plan {
          case Gated(ending) =>
            return Result(history + [LastEntry(screen.signature)], Ended(ending), i + 1);
          case ExecuteDone(c) =>
            return Result(history + [ChoiceEntry(c, screen.signature)], Ended(Done), i + 1);
          case Execute(c) =>
            history := history + [ChoiceEntry(c, screen.signature)];
        }
      }
      i := i + 1;
    }
    r := Result(history, MaxStepsReached, limit);
  }

  function StepLimit(maxSteps: int): (n: nat)
    ensures 1 <= n <= MAX_STEPS
    ensures 1 <= maxSteps <= 20 ==> n == maxSteps
    ensures maxSteps > 20 ==> n == 20
  {
    var capped := if maxSteps < MAX_STEPS then maxSteps else MAX_STEPS;
    if capped < 1 then 1 else capped
  }

  // ----- a frozen screen

  /** Recoveries in the history are the loop's own waits. */
  predicate Genuine(h: seq<Entry>) {
    forall e <- h :: !e.strategy.NoStrategy? ==> e.action.Wait? && e.success
  }

  /** Decisions left until the loop stops, at most, once five entries show the current screen. */
  function Fuel(h: seq<Entry>, sig: string): (n: nat)
    ensures 1 <= n <= 7
  {
    var misses, loading, repeats := Misses(h), Loading(h, sig), Repeats(h, sig);
    if misses >= 4 then 1
    else if misses == 3 then 6
    else if misses == 2 then 7
    else if loading >= 2 then
      if Attempts(h, LoadingNoResponse) >= 2 then 1 else 3 - Attempts(h, LoadingNoResponse)
    else if repeats >= 2 then
      if Attempts(h, RepeatedAction) >= 1 then (if repeats >= 4 then 1 else 4)
      else if loading == 1 then 4
      else if repeats >= 4 then 2
      else 5
    else if Attempts(h, VisualStall) >= 1 then 1
    else if loading == 1 then 4
    else 2
  }

  /** How the streaks move when an entry for the current screen is appended. */
  lemma Appended(h: seq<Entry>, e: Entry, sig: string)
    requires e.signature == sig
    ensures
      var g := h + [e];
      && Unchanged(g, sig) == 1 + Unchanged(h, sig)
      && Misses(g) == (if TargetFailure(e) then 1 + Misses(h) else 0)
      && Loading(g, sig) == (if LoadingRelated(e) then 1 + Loading(h, sig) else 0)
      && (forall s :: Attempts(g, s) == if e.strategy == WaitAndRecheck(s) then 1 + Attempts(h, s) else 0)
      && Repeats(g, sig) == (if e.strategy.NoStrategy? then 1 + Alike(h, sig, e) else Repeats(h, sig))
  {
    assert (h + [e])[..|h|] == h;
  }

  lemma {:induction false} AlikeAtMostRepeats(h: seq<Entry>, sig: string, e: Entry)
    ensures Alike(h, sig, e) == 0 || (Alike(h, sig, e) == Repeats(h, sig) && Last(h).strategy.NoStrategy?)
  {
    if h != [] && SameAction(Last(h), e) {
      AlikeSame(h, sig, e, Last(h));
    }
  }

  lemma {:induction false} AlikeSame(h: seq<Entry>, sig: string, a: Entry, b: Entry)
    requires SameAction(a, b)
    ensures Alike(h, sig, a) == Alike(h, sig, b)
  {
    if h != [] {
      AlikeSame(Init(h), sig, a, b);
    }
  }

  lemma RecoverySpendsFuel(h: seq<Entry>, signal: Signal, screen: Screen)
    requires Genuine(h) && screen.signature != "" && !screen.ready
    requires Unchanged(h, screen.signature) >= 5
    requires Analyze(h, screen) == Recover(signal)
    ensures
      var g := h + [RecoveryEntry(signal, screen.signature)];
      Genuine(g) && Unchanged(g, screen.signature) >= 5 && Fuel(g, screen.signature) < Fuel(h, screen.signature)
  {
    Appended(h, RecoveryEntry(signal, screen.signature), screen.signature);
  }

  lemma PlanSpendsFuel(h: seq<Entry>, c: Choice, screen: Screen)
    requires Genuine(h) && screen.signature != "" && !screen.ready
    requires Unchanged(h, screen.signature) >= 5
    requires Analyze(h, screen).Inactive? || Analyze(h, screen).Guidance?
    ensures
      var g := h + [ChoiceEntry(c, screen.signature)];
      Genuine(g) && Unchanged(g, screen.signature) >= 5 && Fuel(g, screen.signature) < Fuel(h, screen.signature)
  {
    var e := ChoiceEntry(c, screen.signature);
    Appended(h, e, screen.signature);
    AlikeAtMostRepeats(h, screen.signature, e);
    LastEntryFacts(h, screen.signature);
  }

  /** What the last entry alone tells about the streaks. */
  lemma LastEntryFacts(h: seq<Entry>, sig: string)
    requires Genuine(h) && h != [] && Last(h).signature == sig
    ensures TargetFailure(Last(h)) ==> Loading(h, sig) == 0
    ensures Misses(h) > 0 ==> TargetFailure(Last(h))
    ensures Misses(h) > 0 ==> Attempts(h, RepeatedAction) == 0
    ensures Attempts(h, RepeatedAction) > 0 ==> Loading(h, sig) > 0 && !Last(h).strategy.NoStrategy?
  {
    assert Last(h) in h;
  }

  predicate Frozen(turns: seq<Turn>, sig: string) {
    forall t <- turns :: t.screen.signature == sig && !t.screen.ready
  }

  /** Once the last five entries show a screen that never changes and is never ready, the loop
      makes at most seven more decisions, whatever the planner does; with seven turns left it does
      not run out of steps. */
  lemma {:induction false} FrozenScreenStops(h: seq<Entry>, turns: seq<Turn>, sig: string)
    requires Genuine(h) && sig != "" && Unchanged(h, sig) >= 5 && Frozen(turns, sig)
    ensures Loop(h, turns).decisions <= Fuel(h, sig) <= 7
    ensures |turns| >= Fuel(h, sig) ==> !Loop(h, turns).status.MaxStepsReached?
    decreases |turns|
  {
    if turns != [] {
      assert turns[0] in turns;
      assert Frozen(turns[1..], sig);
      match Analyze(h, turns[0].screen)
      case Stop(status) =>
      case Recover(signal) =>
        RecoverySpendsFuel(h, signal, turns[0].screen);
        FrozenScreenStops(h + [RecoveryEntry(signal, sig)], turns[1..], sig);
      case _ =>
        match turns[0].plan
        case Execute(c) =>
          PlanSpendsFuel(h, c, turns[0].screen);
          FrozenScreenStops(h + [ChoiceEntry(c, sig)], turns[1..], sig);
        case _ =>
    }
  }

  lemma {:induction false} FrozenFromStart(h: seq<Entry>, turns: seq<Turn>, sig: string)
    requires Genuine(h) && sig != "" && Unchanged(h, sig) == |h| <= 5 && Frozen(turns, sig)
    ensures Loop(h, turns).decisions <= 12 - |h|
    ensures |turns| >= 12 - |h| ==> !Loop(h, turns).status.MaxStepsReached?
    decreases |turns|
  {
    if |h| == 5 {
      FrozenScreenStops(h, turns, sig);
    } else if turns != [] {
      assert turns[0] in turns;
      assert Frozen(turns[1..], sig);
      match Analyze(h, turns[0].screen)
      case Stop(status) =>
      case Recover(signal) =>
        Appended(h, RecoveryEntry(signal, sig), sig);
        FrozenFromStart(h + [RecoveryEntry(signal, sig)], turns[1..], sig);
      case _ =>
        match turns[0].plan
        case Execute(c) =>
          Appended(h, ChoiceEntry(c, sig), sig);
          FrozenFromStart(h + [ChoiceEntry(c, sig)], turns[1..], sig);
        case _ =>
    }
  }

  /** A loop that starts on a frozen screen with its default step limit never uses it up. */
  lemma FrozenRunNeverExhaustsSteps(turns: seq<Turn>, sig: string)
    requires sig != "" && |turns| == StepLimit(MAX_STEPS) && Frozen(turns, sig)
    ensures !Loop([], turns).status.MaxStepsReached?
    ensures Loop([], turns).decisions <= 12
  {
    FrozenFromStart([], turns, sig);
  }

  // ----- what the bound rests on

  /** A history of waits on one screen. */
  function Waits(n: nat, sig: string): seq<Entry> {
    seq(n, _ => Entry(sig, Wait, "", true, false, NoStrategy))
  }

  lemma {:induction false} WaitsLoad(n: nat, sig: string)
    ensures Loading(Waits(n, sig), sig) == n && Misses(Waits(n, sig)) == 0 && Unchanged(Waits(n, sig), sig) == n
  {
    if n > 0 {
      WaitsLoad(n - 1, sig);
      assert Init(Waits(n, sig)) == Waits(n - 1, sig);
    }
  }

  lemma {:induction false} ReadyWaitsGoOn(n: nat, turns: seq<Turn>, sig: string)
    requires sig != ""
    requires forall t <- turns ::
      t.screen == Screen(sig, true) && t.plan == Execute(Choice(Wait, "", true, false))
    ensures Loop(Waits(n, sig), turns).status.MaxStepsReached?
    ensures Loop(Waits(n, sig), turns).decisions == |turns|
    decreases |turns|
  {
    if turns != [] {
      assert turns[0] in turns;
      WaitsLoad(n, sig);
      assert Waits(n, sig) + [ChoiceEntry(Choice(Wait, "", true, false), sig)] == Waits(n + 1, sig);
      ReadyWaitsGoOn(n + 1, turns[1..], sig);
    }
  }

  /** A screen that counts as ready never stops a planner that goes on waiting, from the first turn on:
      all the turns are used up. */
  lemma ReadyScreenNeverStops(turns: seq<Turn>, sig: string)
    requires sig != ""
    requires forall t <- turns ::
      t.screen == Screen(sig, true) && t.plan == Execute(Choice(Wait, "", true, false))
    ensures Loop([], turns).status.MaxStepsReached? && Loop([], turns).decisions == |turns|
  {
    assert Waits(0, sig) == [];
    ReadyWaitsGoOn(0, turns, sig);
  }

  /** Without a signature the loop sees nothing and never stops by itself. */
  lemma {:induction false} NoSignatureNeverStops(h: seq<Entry>, turns: seq<Turn>)
    requires forall t <- turns :: t.screen.signature == "" && t.plan.Execute?
    ensures Loop(h, turns).status.MaxStepsReached?
    ensures Loop(h, turns).decisions == |turns|
    decreases |turns|
  {
    if turns != [] {
      assert turns[0] in turns;
      NoSignatureNeverStops(h + [ChoiceEntry(turns[0].plan.choice, "")], turns[1..]);
    }
  }

  // ----- seven decisions are possible

  function Press(params: string, hit: bool): Choice {
    Choice(Click, params, hit, !hit)
  }

  /** Three clicks on one spot, then two missed clicks. */
  function FiveClicks(sig: string): seq<Entry> {
    [ChoiceEntry(Press("a", true), sig), ChoiceEntry(Press("a", true), sig), ChoiceEntry(Press("a", true), sig)]
    + [ChoiceEntry(Press("a", false), sig)] + [ChoiceEntry(Press("a", false), sig)]
  }

  function Stubborn(sig: string): seq<Turn> {
    var s := Screen(sig, false);
    [Turn(s, Execute(Press("b", false))), Turn(s, Execute(Press("b", true))), Turn(s, Gated(Done)),
     Turn(s, Execute(Choice(Wait, "", true, false))), Turn(s, Gated(Done)), Turn(s, Gated(Done)), Turn(s, Gated(Done))]
  }

  lemma FiveClicksStreaks(sig: string)
    ensures
      var h := FiveClicks(sig);
      Unchanged(h, sig) == 5 && Misses(h) == 2 && Loading(h, sig) == 0 && Attempts(h, LoadingNoResponse) == 0
      && Attempts(h, RepeatedAction) == 0 && Attempts(h, VisualStall) == 0
  {
    var a, f := ChoiceEntry(Press("a", true), sig), ChoiceEntry(Press("a", false), sig);
    Appended([], a, sig);
    Appended([a], a, sig);
    assert [a] + [a] == [a, a] && [a, a] + [a] == [a, a, a] && [] + [a] == [a];
    Appended([a, a], a, sig);
    Appended([a, a, a], f, sig);
    Appended([a, a, a] + [f], f, sig);
  }

  /** A planner that has just been told to try another action waits, and goes on being shown the same
      screen. */
  function Waiting(sig: string): seq<Turn> {
    var s := Screen(sig, false);
    [Turn(s, Execute(Choice(Wait, "", true, false))), Turn(s, Gated(Done)), Turn(s, Gated(Done)), Turn(s, Gated(Done))]
  }

  /** Two rechecks later it is stopped. */
  lemma WaitingTakesFour(h: seq<Entry>, sig: string)
    requires sig != "" && h != [] && Last(h) == RecoveryEntry(RepeatedAction, sig)
    requires Unchanged(h, sig) >= 5 && Misses(h) == 0 && Loading(h, sig) == 1 && Attempts(h, LoadingNoResponse) == 0
    requires Analyze(h, Screen(sig, false)).Guidance?
    ensures Loop(h, Waiting(sig)).decisions == 4
    ensures Loop(h, Waiting(sig)).status == Stuck(StuckLoadingTimeout)
  {
    var t, screen := Waiting(sig), Screen(sig, false);
    var wait, recheck := ChoiceEntry(Choice(Wait, "", true, false), sig), RecoveryEntry(LoadingNoResponse, sig);
    var h1 := h + [wait];
    var h2 := h1 + [recheck];
    var h3 := h2 + [recheck];
    Appended(h, wait, sig);
    Appended(h1, recheck, sig);
    Appended(h2, recheck, sig);
    assert Analyze(h1, screen) == Recover(LoadingNoResponse);
    assert Analyze(h2, screen) == Recover(LoadingNoResponse);
    assert Analyze(h3, screen) == Stop(StuckLoadingTimeout);
    assert t[2..][1..] == t[3..] && t[1..][1..] == t[2..];
    assert Loop(h3, t[3..]).decisions == 1;
    assert Loop(h2, t[2..]).decisions == 2;
    assert Loop(h1, t[1..]).decisions == 3;
  }

  /** The bound is reached: a planner that misses, hits the same spot and then waits is stopped
      only by the seventh decision. */
  lemma SevenIsReached(sig: string)
    requires sig != ""
    ensures Unchanged(FiveClicks(sig), sig) == 5 && Frozen(Stubborn(sig), sig)
    ensures Loop(FiveClicks(sig), Stubborn(sig)).decisions == 7
    ensures Loop(FiveClicks(sig), Stubborn(sig)).status == Stuck(StuckLoadingTimeout)
  {
    var t, screen := Stubborn(sig), Screen(sig, false);
    var miss, hit := ChoiceEntry(Press("b", false), sig), ChoiceEntry(Press("b", true), sig);
    var again := RecoveryEntry(RepeatedAction, sig);
    FiveClicksStreaks(sig);
    var h0 := FiveClicks(sig);
    var h1 := h0 + [miss];
    var h2 := h1 + [hit];
    var h3 := h2 + [again];
    Appended(h0, miss, sig);
    Appended(h1, hit, sig);
    assert Init(h1) == h0 && Last(h1) == miss;
    assert Last(h0).params == "a" && "a"[0] != "b"[0];
    assert Alike(h0, sig, hit) == 0;
    assert Alike(h1, sig, hit) == 1;
    Appended(h2, again, sig);
    assert Analyze(h0, screen).Guidance?;
    assert Analyze(h1, screen).Guidance?;
    assert Analyze(h2, screen) == Recover(RepeatedAction);
    assert t[2..][1..] == Waiting(sig) && t[1..][1..] == t[2..];
    WaitingTakesFour(h3, sig);
    assert Loop(h2, t[2..]).decisions == 5;
    assert Loop(h1, t[1..]).decisions == 6;
  }

  // ----- what each decision rests on

  /** The last `k` entries are all of this kind. */
  ghost predicate LastAre(h: seq<Entry>, k: nat, kind: Entry -> bool) {
    k <= |h| && forall i :: |h| - k <= i < |h| ==> kind(h[i])
  }

  function On(sig: string): Entry -> bool {
    (e: Entry) => e.signature == sig
  }

  function LoadingOn(sig: string): Entry -> bool {
    (e: Entry) => e.signature == sig && LoadingRelated(e)
  }

  function RecheckOf(signal: Signal): Entry -> bool {
    (e: Entry) => e.strategy == WaitAndRecheck(signal)
  }

  /** A planner's action like this one, on this screen. */
  function LikeOn(sig: string, like: Entry): Entry -> bool {
    (e: Entry) => e.strategy.NoStrategy? && e.signature == sig && SameAction(e, like)
  }

  lemma LastAreInit(h: seq<Entry>, k: nat, kind: Entry -> bool)
    requires h != []
    ensures LastAre(h, k + 1, kind) <==> kind(Last(h)) && LastAre(Init(h), k, kind)
  {
    if kind(Last(h)) && LastAre(Init(h), k, kind) {
      forall i | |h| - k - 1 <= i < |h| ensures kind(h[i]) {
        assert i < |h| - 1 ==> h[i] == Init(h)[i];
      }
    }
    if LastAre(h, k + 1, kind) {
      assert kind(h[|h| - 1]);
      forall i | |Init(h)| - k <= i < |Init(h)| ensures kind(Init(h)[i]) {
        assert Init(h)[i] == h[i];
      }
    }
  }

  /** Each streak counts the entries of its kind at the end of the history. */
  lemma {:induction false} MissesMeans(h: seq<Entry>, k: nat)
    ensures Misses(h) >= k <==> LastAre(h, k, TargetFailure)
  {
    if k > 0 && h != [] {
      LastAreInit(h, k - 1, TargetFailure);
      MissesMeans(Init(h), k - 1);
    }
  }

  lemma {:induction false} UnchangedMeans(h: seq<Entry>, sig: string, k: nat)
    ensures Unchanged(h, sig) >= k <==> LastAre(h, k, On(sig))
  {
    if k > 0 && h != [] {
      LastAreInit(h, k - 1, On(sig));
      UnchangedMeans(Init(h), sig, k - 1);
    }
  }

  lemma {:induction false} LoadingMeans(h: seq<Entry>, sig: string, k: nat)
    ensures Loading(h, sig) >= k <==> LastAre(h, k, LoadingOn(sig))
  {
    if k > 0 && h != [] {
      LastAreInit(h, k - 1, LoadingOn(sig));
      LoadingMeans(Init(h), sig, k - 1);
    }
  }

  lemma {:induction false} AttemptsMeans(h: seq<Entry>, signal: Signal, k: nat)
    ensures Attempts(h, signal) >= k <==> LastAre(h, k, RecheckOf(signal))
  {
    if k > 0 && h != [] {
      LastAreInit(h, k - 1, RecheckOf(signal));
      AttemptsMeans(Init(h), signal, k - 1);
    }
  }

  /** The repeated planner actions are counted behind the recoveries at the very end. */
  lemma {:induction false} RepeatsMeans(h: seq<Entry>, rest: seq<Entry>, sig: string, like: Entry, k: nat)
    requires like.strategy.NoStrategy? && forall e <- rest :: !e.strategy.NoStrategy?
    requires h != [] && Last(h) == like
    ensures Repeats(h + rest, sig) >= k <==>
      LastAre(h, k, LikeOn(sig, like))
  {
    if rest == [] {
      assert h + rest == h;
      AlikeMeans(h, sig, like, k);
    } else {
      var n := |rest| - 1;
      assert rest[n] in rest && forall e <- rest[..n] :: e in rest;
      assert Init(h + rest) == h + rest[..n] && Last(h + rest) == rest[n];
      RepeatsMeans(h, rest[..n], sig, like, k);
    }
  }

  lemma {:induction false} AlikeMeans(h: seq<Entry>, sig: string, like: Entry, k: nat)
    ensures Alike(h, sig, like) >= k <==>
      LastAre(h, k, LikeOn(sig, like))
  {
    if k > 0 && h != [] {
      LastAreInit(h, k - 1, LikeOn(sig, like));
      AlikeMeans(Init(h), sig, like, k - 1);
    }
  }

  ghost predicate MissesTwice(h: seq<Entry>) {
    LastAre(h, 2, TargetFailure)
  }

  ghost predicate LoadsTwice(h: seq<Entry>, sig: string) {
    LastAre(h, 2, LoadingOn(sig))
  }

  ghost predicate Shows(h: seq<Entry>, sig: string, k: nat) {
    LastAre(h, k, On(sig))
  }

  ghost predicate Rechecked(h: seq<Entry>, signal: Signal, k: nat) {
    LastAre(h, k, RecheckOf(signal))
  }

  lemma StreaksMean(h: seq<Entry>, sig: string)
    ensures MissesTwice(h) <==> Misses(h) >= 2
    ensures LoadsTwice(h, sig) <==> Loading(h, sig) >= 2
    ensures forall k: nat :: Shows(h, sig, k) <==> Unchanged(h, sig) >= k
    ensures forall x, k: nat :: Rechecked(h, x, k) <==> Attempts(h, x) >= k
  {
    MissesMeans(h, 2);
    LoadingMeans(h, sig, 2);
    forall k: nat ensures Shows(h, sig, k) <==> Unchanged(h, sig) >= k {
      UnchangedMeans(h, sig, k);
    }
    forall x, k: nat ensures Rechecked(h, x, k) <==> Attempts(h, x) >= k {
      AttemptsMeans(h, x, k);
    }
  }

  /** Four missed targets in a row stop the loop, on whatever screens. */
  lemma StopsForTargetsExactly(h: seq<Entry>, s: Screen)
    ensures Analyze(h, s) == Stop(StuckTargetAcquisition)
        <==> s.signature != "" && LastAre(h, 4, TargetFailure)
  {
    MissesMeans(h, 4);
  }

  /** Two loading entries and two rechecks of them on a screen that is not ready. */
  lemma StopsForLoadingExactly(h: seq<Entry>, s: Screen)
    ensures Analyze(h, s) == Stop(StuckLoadingTimeout)
        <==> s.signature != "" && !MissesTwice(h) && LoadsTwice(h, s.signature) && Shows(h, s.signature, 2)
             && !s.ready && Rechecked(h, LoadingNoResponse, 2)
  {
    StreaksMean(h, s.signature);
  }

  /** Four equal actions on a screen that does not change, and a recovery that came to nothing. */
  lemma StopsForRepeatsExactly(h: seq<Entry>, s: Screen)
    ensures Analyze(h, s) == Stop(StuckRepeatedAction)
        <==> s.signature != "" && !MissesTwice(h) && Shows(h, s.signature, 2) && !LoadsTwice(h, s.signature)
             && Repeats(h, s.signature) >= 4 && Rechecked(h, RepeatedAction, 1)
  {
    StreaksMean(h, s.signature);
  }

  /** Five entries on the screen without any of these patterns, the last a recheck that came to nothing. */
  lemma StopsForStallExactly(h: seq<Entry>, s: Screen)
    ensures Analyze(h, s) == Stop(StuckVisualStall)
        <==> s.signature != "" && !MissesTwice(h) && Shows(h, s.signature, 5) && !LoadsTwice(h, s.signature)
             && Repeats(h, s.signature) < 2 && Rechecked(h, VisualStall, 1)
  {
    StreaksMean(h, s.signature);
  }

  /** The loop recovers by itself where it does not stop: for loading at most twice, for repeated actions
      and for a stall once. */
  lemma RecoversExactly(h: seq<Entry>, s: Screen)
    ensures
      var sig := s.signature;
      var stagnant := sig != "" && !MissesTwice(h) && Shows(h, sig, 2);
      && (Analyze(h, s) == Recover(LoadingNoResponse) <==>
            stagnant && LoadsTwice(h, sig) && !s.ready && !Rechecked(h, LoadingNoResponse, 2))
      && (Analyze(h, s) == Recover(RepeatedAction) <==>
            stagnant && !LoadsTwice(h, sig) && Repeats(h, sig) >= 2 && !Rechecked(h, RepeatedAction, 1))
      && (Analyze(h, s) == Recover(VisualStall) <==>
            stagnant && !LoadsTwice(h, sig) && Repeats(h, sig) < 2 && !Rechecked(h, VisualStall, 1))
  {
    StreaksMean(h, s.signature);
  }

  /** A screen that has just changed is never taken for stuck: only four missed targets in a row stop the
      loop there, and without two of them nothing is even remarked on. */
  lemma ChangedScreenIsNotStuck(h: seq<Entry>, s: Screen)
    requires s.signature != "" && !Shows(h, s.signature, 2)
    ensures !Analyze(h, s).Recover?
    ensures Analyze(h, s).Stop? <==> LastAre(h, 4, TargetFailure)
    ensures Analyze(h, s).Inactive? <==> !MissesTwice(h)
  {
    StreaksMean(h, s.signature);
    MissesMeans(h, 4);
  }

  // ----- a run told turn by turn

  /** The entry is what this turn leaves when the loop goes on. */
  predicate EntryOf(g: seq<Entry>, t: Turn, e: Entry) {
    match Analyze(g, t.screen)
    case Stop(_) => false
    case Recover(signal) =>
      e == Entry(t.screen.signature, Wait, if signal.VisualStall? then "0.8" else "1.5", true, false,
                 WaitAndRecheck(signal))
    case _ =>
      t.plan.Execute? && e == Entry(t.screen.signature, t.plan.choice.action, t.plan.choice.params,
                                    t.plan.choice.success, t.plan.choice.focusError, NoStrategy)
  }

  /** The status is why the loop ended on this turn. */
  predicate EndsOn(g: seq<Entry>, t: Turn, status: FinalStatus) {
    match Analyze(g, t.screen)
    case Stop(s) => status == Stuck(s)
    case Recover(_) => false
    case _ =>
      match t.plan
      case Gated(ending) => status == Ended(ending)
      case ExecuteDone(_) => status == Ended(Done)
      case Execute(_) => false
  }

  /** Every decision but the last appended its entry and went on; the last ended the loop, or the turns
      were used up. */
  ghost predicate Replays(h: seq<Entry>, turns: seq<Turn>, r: Result) {
    var n := if r.status.MaxStepsReached? then r.decisions else r.decisions - 1;
    && 0 <= n <= r.decisions <= |turns|
    && |r.history| == |h| + r.decisions && h <= r.history
    && (forall k :: 0 <= k < n ==> EntryOf(r.history[..|h| + k], turns[k], r.history[|h| + k]))
    && (r.status.MaxStepsReached? ==> r.decisions == |turns|)
    && (!r.status.MaxStepsReached? ==> EndsOn(r.history[..|h| + n], turns[n], r.status))
  }

  lemma {:induction false} LoopReplays(h: seq<Entry>, turns: seq<Turn>)
    ensures Replays(h, turns, Loop(h, turns))
    decreases |turns|, 1
  {
    if turns != [] {
      var t := turns[0];
      match Analyze(h, t.screen)
      case Stop(status) => ReplaysEnd(h, turns, LastEntry(t.screen.signature), Stuck(status));
      case Recover(signal) => ReplaysOn(h, turns, RecoveryEntry(signal, t.screen.signature));
      case _ =>
        match t.plan
        case Gated(ending) => ReplaysEnd(h, turns, LastEntry(t.screen.signature), Ended(ending));
        case ExecuteDone(c) => ReplaysEnd(h, turns, ChoiceEntry(c, t.screen.signature), Ended(Done));
        case Execute(c) => ReplaysOn(h, turns, ChoiceEntry(c, t.screen.signature));
    }
  }

  lemma ReplaysEnd(h: seq<Entry>, turns: seq<Turn>, e: Entry, status: FinalStatus)
    requires turns != [] && EndsOn(h, turns[0], status)
    ensures Replays(h, turns, Result(h + [e], status, 1))
  {
    assert (h + [e])[..|h|] == h;
  }

  lemma {:induction false} ReplaysOn(h: seq<Entry>, turns: seq<Turn>, e: Entry)
    requires turns != [] && EntryOf(h, turns[0], e)
    ensures
      var rest := Loop(h + [e], turns[1..]);
      Replays(h, turns, rest.(decisions := rest.decisions + 1))
    decreases |turns|, 0
  {
    LoopReplays(h + [e], turns[1..]);
    ReplaysShifted(h, turns, e, Loop(h + [e], turns[1..]));
  }

  lemma ReplaysShifted(h: seq<Entry>, turns: seq<Turn>, e: Entry, rest: Result)
    requires turns != [] && EntryOf(h, turns[0], e) && Replays(h + [e], turns[1..], rest)
    ensures Replays(h, turns, rest.(decisions := rest.decisions + 1))
  {
    var r := rest.(decisions := rest.decisions + 1);
    StartsAlike(h, e, rest.history);
    var n := if r.status.MaxStepsReached? then r.decisions else r.decisions - 1;
    forall k | 0 <= k < n ensures EntryOf(r.history[..|h| + k], turns[k], r.history[|h| + k]) {
      if k > 0 {
        EntryShifted(h, turns, e, rest, k - 1);
      }
    }
    if !r.status.MaxStepsReached? {
      EndShifted(h, turns, e, rest);
    }
  }

  lemma StartsAlike(h: seq<Entry>, e: Entry, g: seq<Entry>)
    requires h + [e] <= g
    ensures h <= g && g[..|h|] == h && g[|h|] == e
  {
    assert g[|h|] == (h + [e])[|h|];
    assert h == (h + [e])[..|h|];
  }

  lemma EndShifted(h: seq<Entry>, turns: seq<Turn>, e: Entry, rest: Result)
    requires turns != [] && Replays(h + [e], turns[1..], rest) && !rest.status.MaxStepsReached?
    ensures 0 < rest.decisions < |turns| && |h| + rest.decisions <= |rest.history|
    ensures EndsOn(rest.history[..|h| + rest.decisions], turns[rest.decisions], rest.status)
  {
    assert |h + [e]| + (rest.decisions - 1) == |h| + rest.decisions;
    assert turns[1..][rest.decisions - 1] == turns[rest.decisions];
  }

  lemma EntryShifted(h: seq<Entry>, turns: seq<Turn>, e: Entry, rest: Result, k: nat)
    requires turns != [] && Replays(h + [e], turns[1..], rest)
    requires k < if rest.status.MaxStepsReached? then rest.decisions else rest.decisions - 1
    ensures EntryOf(rest.history[..|h| + (k + 1)], turns[k + 1], rest.history[|h| + (k + 1)])
  {
    assert |h + [e]| + k == |h| + (k + 1) && turns[1..][k] == turns[k + 1];
  }
}
