/** How a launch gets to host.start: the answers it got on its way, in their order. */
module LaunchPath {
  import opened Common
  import opened ProcessRegistry
  import opened LaunchFence

  /** A statement that takes launch l from one stage to another. */
  predicate TakesOn(w: World, step: Step, l: nat) {
    && step.Advance? && step.launch == l && l < |w.launches|
    && Statement(w, l, step.environment).launches[l].stage != w.launches[l].stage
  }

  /** The stages launch l has left, each with what the statement that left it met. */
  ghost function Path(steps: seq<Step>, l: nat): seq<(Stage, Environment)> {
    if steps == [] then []
    else
      var before, step := steps[..|steps| - 1], steps[|steps| - 1];
      Path(before, l) + if TakesOn(Run(before), step, l) then [(Run(before).launches[l].stage, step.environment)] else []
  }

  const CHAIN := [Preparing, Activating, Activated, Reserving, HoldsReservation, Consuming, HasPermit, Marking, Marked]

  /** What it takes to go on: a callee that answers ok, a deadline that has not passed, a statement carried out. */
  predicate Passes(stage: Stage, e: Environment) {
    match stage
    case Preparing => !e.throws && e.ok
    case Activating => !e.throws && e.ok
    case Activated => !e.expired
    case HoldsReservation => !e.expired
    case Consuming => !e.throws && e.ok
    case HasPermit => !e.expired
    case Marking => e.stored
    case _ => true
  }

  ghost predicate Passed(path: seq<(Stage, Environment)>, n: nat) {
    && n <= |CHAIN| && n <= |path|
    && forall i :: 0 <= i < n ==> path[i].0 == CHAIN[i] && Passes(path[i].0, path[i].1)
  }

  function Position(stage: Stage): Option<nat> {
    match stage
    case Preparing => Some(0)
    case Activating => Some(1)
    case Activated => Some(2)
    case Reserving => Some(3)
    case HoldsReservation => Some(4)
    case Consuming => Some(5)
    case HasPermit => Some(6)
    case Marking => Some(7)
    case Marked => Some(8)
    case AwaitingHost => Some(9)
    case _ => None
  }

  /** On the way to host.start everything before was passed, and so it was for a launch that called it. */
  ghost predicate OnPath(w: World, l: nat, path: seq<(Stage, Environment)>) {
    && (l >= |w.launches| ==> path == [])
    && (l < |w.launches| && Position(w.launches[l].stage).Some? ==>
          |path| == Position(w.launches[l].stage).value && Passed(path, |path|))
    && (l in w.starts ==> Passed(path, 9))
  }

  lemma {:induction false} PassedMore(path: seq<(Stage, Environment)>, n: nat, stage: Stage, e: Environment)
    requires Passed(path, n)
    ensures Passed(path + [(stage, e)], n)
    ensures n == |path| < |CHAIN| && stage == CHAIN[n] && Passes(stage, e) ==> Passed(path + [(stage, e)], n + 1)
  {
  }

  /** A statement goes one stage further only where its stage is passed. */
  lemma {:induction false} GoesOnIff(w: World, l: nat, e: Environment)
    requires l < |w.launches|
    ensures var stage, next := w.launches[l].stage, Statement(w, l, e).launches[l].stage;
            && (Position(next).Some? && next != stage ==> Position(stage) == Some(Position(next).value - 1) && Passes(stage, e))
            && (stage == Marked ==> next == AwaitingHost)
  {
    hide Statement, Position, Passes;
    OthersStay(w, l, e);
    StageAfter(w, l, e);
    PositionsFollow(w.launches[l].stage, Statement(w, l, e).launches[l].stage, e);
  }

  /** Where a statement may lead: on, or off the way. */
  predicate LeadsTo(stage: Stage, next: Stage, e: Environment) {
    || next == stage || next.Revoking? || next.Returned? || next.Dead? || next.Recording? || next.Cancelling?
    || (stage.Preparing? && next.Activating? && !e.throws && e.ok)
    || (stage.Activating? && next.Activated? && !e.throws && e.ok)
    || (stage.Activated? && next.Reserving? && !e.expired)
    || (stage.Reserving? && next.HoldsReservation?)
    || (stage.HoldsReservation? && next.Consuming? && !e.expired)
    || (stage.Consuming? && next.HasPermit? && !e.throws && e.ok)
    || (stage.HasPermit? && next.Marking? && !e.expired)
    || (stage.Marking? && next.Marked? && e.stored)
    || (stage.Marked? && next.AwaitingHost?)
  }

  lemma {:induction false} PositionsFollow(stage: Stage, next: Stage, e: Environment)
    requires LeadsTo(stage, next, e)
    ensures Position(next).Some? && next != stage ==> Position(stage) == Some(Position(next).value - 1) && Passes(stage, e)
  {
  }

  lemma {:induction false} StageAfter(w: World, l: nat, e: Environment)
    requires l < |w.launches|
    ensures |Statement(w, l, e).launches| == |w.launches| && LeadsTo(w.launches[l].stage, Statement(w, l, e).launches[l].stage, e)
    ensures w.launches[l].stage == Marked ==> Statement(w, l, e).launches[l].stage == AwaitingHost
  {
    hide Statement, LeadsTo;
    var p := Position(w.launches[l].stage);
    if p.Some? && p.value <= 4 {
      EarlyStage(w, l, e);
    } else if p.Some? && p.value <= 7 {
      MiddleStage(w, l, e);
    } else {
      LateStage(w, l, e);
    }
  }

  lemma {:induction false} EarlyStage(w: World, l: nat, e: Environment)
    requires l < |w.launches| && Position(w.launches[l].stage).Some? && Position(w.launches[l].stage).value <= 4
    ensures |Statement(w, l, e).launches| == |w.launches| && LeadsTo(w.launches[l].stage, Statement(w, l, e).launches[l].stage, e)
  {
    hide Reserve, RecordFailed, Release, Reply, Did, Failed, MarkStarting, RecordStarted;
  }

  lemma {:induction false} MiddleStage(w: World, l: nat, e: Environment)
    requires l < |w.launches| && Position(w.launches[l].stage).Some? && 5 <= Position(w.launches[l].stage).value <= 7
    ensures |Statement(w, l, e).launches| == |w.launches| && LeadsTo(w.launches[l].stage, Statement(w, l, e).launches[l].stage, e)
  {
    hide Reserve, MarkStarting, RecordStarted, RecordFailed, Release, Reply, Did;
  }

  lemma {:induction false} LateStage(w: World, l: nat, e: Environment)
    requires l < |w.launches| && !(Position(w.launches[l].stage).Some? && Position(w.launches[l].stage).value <= 7)
    ensures |Statement(w, l, e).launches| == |w.launches| && LeadsTo(w.launches[l].stage, Statement(w, l, e).launches[l].stage, e)
    ensures w.launches[l].stage == Marked ==> Statement(w, l, e).launches[l].stage == AwaitingHost
  {
    hide Reserve, MarkStarting, RecordStarted, RecordFailed, Release, Reply, Did;
  }

  lemma {:induction false} OthersStay(w: World, l: nat, e: Environment)
    requires l < |w.launches|
    ensures var next := Statement(w, l, e);
            && next.starts == (if w.launches[l].stage == Marked then w.starts + [l] else w.starts)
            && |next.launches| == |w.launches|
            && forall m :: 0 <= m < |w.launches| && m != l ==> next.launches[m] == w.launches[m]
  {
    hide Reserve, MarkStarting, RecordStarted, RecordFailed, Release, Reply, Did;
  }

  lemma {:induction false} ChainIs(stage: Stage)
    requires Position(stage).Some? && Position(stage).value < 9
    ensures CHAIN[Position(stage).value] == stage && |CHAIN| == 9
  {
  }

  lemma {:induction false} AdvanceStaysOnPath(w: World, l: nat, e: Environment, path: seq<(Stage, Environment)>)
    requires l < |w.launches| && OnPath(w, l, path)
    ensures OnPath(Statement(w, l, e), l, path + if TakesOn(w, Advance(l, e), l) then [(w.launches[l].stage, e)] else [])
  {
    hide Statement, Passes, Passed;
    GoesOnIff(w, l, e);
    OthersStay(w, l, e);
    var stage, next := w.launches[l].stage, Statement(w, l, e).launches[l].stage;
    if next == stage {
      assert path + [] == path;
    } else {
      var longer := path + [(stage, e)];
      if l in w.starts {
        PassedMore(path, 9, stage, e);
      }
      if Position(next).Some? {
        ChainIs(stage);
        PassedMore(path, |path|, stage, e);
      }
    }
  }

  lemma {:induction false} NextStaysOnPath(w: World, step: Step, l: nat, path: seq<(Stage, Environment)>)
    requires OnPath(w, l, path)
    ensures OnPath(Next(w, step), l, path + if TakesOn(w, step, l) then [(w.launches[l].stage, step.environment)] else [])
  {
    hide Statement, Passes, RecordExited;
    if step.Advance? && step.launch < |w.launches| {
      if step.launch == l {
        AdvanceStaysOnPath(w, l, step.environment, path);
      } else {
        OthersStay(w, step.launch, step.environment);
        assert path + [] == path;
      }
    } else {
      assert path + [] == path;
    }
  }

  lemma {:induction false} EveryLaunchIsOnPath(steps: seq<Step>, l: nat)
    ensures OnPath(Run(steps), l, Path(steps, l))
  {
    if steps != [] {
      hide OnPath, Next, TakesOn;
      EveryLaunchIsOnPath(steps[..|steps| - 1], l);
      NextStaysOnPath(Run(steps[..|steps| - 1]), steps[|steps| - 1], l, Path(steps[..|steps| - 1], l));
    } else {
      assert OnPath(Run(steps), l, []);
    }
  }

  /**
   * In every run a launch that called host.start had been prepared and its enforcement activated with the answer ok; it
   * reserved; its permit was consumed with the answer ok; its deadline had not passed at any of the three looks at the
   * clock; and its mark was carried out by the database: in this order, with nothing else between.
   */
  lemma {:induction false} StartsPassedEverything(steps: seq<Step>, k: nat)
    requires k < |Run(steps).starts|
    ensures Passed(Path(steps, Run(steps).starts[k]), 9)
  {
    hide Run, Path, Passed;
    EveryLaunchIsOnPath(steps, Run(steps).starts[k]);
    assert Run(steps).starts[k] in Run(steps).starts;
  }

  /** The stages at which a callee may throw. */
  predicate Asks(stage: Stage) {
    stage.Preparing? || stage.Activating? || stage.Consuming? || stage.AwaitingHost? || stage.Cancelling? || stage.Revoking?
  }

  /** A launch is abandoned exactly by a crash before it returned and by a callee that throws; then nothing else is done. */
  lemma {:induction false} AbandonedIff(w: World, step: Step, l: nat)
    requires l < |w.launches|
    ensures var x := w.launches[l];
            var throws := step.Advance? && step.launch == l && step.environment.throws && Asks(x.stage);
            && l < |Next(w, step).launches|
            && (Next(w, step).launches[l].stage == Dead <==> x.stage == Dead || (step.Crash? && !x.stage.Returned?) || throws)
            && (throws || step.Crash? ==> Next(w, step).rows == w.rows && Next(w, step).starts == w.starts)
            && (throws ==> Next(w, step).launches[l] == x.(stage := Dead))
  {
    hide Statement, RecordExited;
    if step.Advance? && step.launch < |w.launches| {
      OthersStay(w, step.launch, step.environment);
      if step.launch == l {
        ThrowsIff(w, l, step.environment);
      }
    }
  }

  lemma {:induction false} ThrowsIff(w: World, l: nat, e: Environment)
    requires l < |w.launches| && l < |Statement(w, l, e).launches|
    ensures var x, next := w.launches[l], Statement(w, l, e);
            && (next.launches[l].stage == Dead <==> x.stage == Dead || (e.throws && Asks(x.stage)))
            && (e.throws && Asks(x.stage) ==> next.rows == w.rows && next.starts == w.starts && next.launches[l] == x.(stage := Dead))
  {
    hide Reserve, MarkStarting, RecordStarted, RecordFailed, Release, Reply, Did;
  }
}
