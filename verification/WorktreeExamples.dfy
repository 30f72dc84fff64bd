/** A cleanup in full, which is recorded, and the same cleanup when the database refuses its last statement. */
module WorktreeExamples {
  import opened Common
  import opened WorktreeRegistry
  import opened WorktreeRemoval
  import opened WorktreeRuns

  const KEY := "key"
  const BRANCH: Branch := "work"
  const PATH: Path := "path"
  const IDENTITY := Identity("run", KEY, "project", "repository", "runner", "owner", "root", PATH, "base", "origin", "remote", "main")

  function TheCommit(): Commit {
    seq(40, _ => '1')
  }

  function TableRow(state: WorktreeState): Row {
    Row(IDENTITY, BRANCH, state, None, if state == Creating then None else Some(TheCommit()), None, None, None, 0, None, None)
  }

  function ReadyRow(): Row {
    TableRow(Ready)
  }

  /** One digest for all, and every commit an ancestor of every other. */
  function SomeFacts(): Facts {
    Facts(_ => "digest", (_, _) => true)
  }

  function Sight(): Observation {
    Observation(TheCommit(), BRANCH, true, true, 0, 0, 0, [], false, "PUBLISHED", Available(Some(TheCommit())), 0)
  }

  function Authority(): Result<Claims> {
    Ok(CommittedCleanup("runner", "run", KEY, TheCommit(), true, true))
  }

  /** Everything works; the head is read, or the branch. */
  function Fine(readsHead: bool): Environment {
    Environment(true, readsHead, Sight(), Authority(), true, true, None, false, "", "")
  }

  /** The database refuses. */
  function NotStored(): Environment {
    Fine(true).(stored := false)
  }

  lemma {:induction false} On(history: seq<Step>, step: Step) returns (longer: seq<Step>)
    ensures longer == history + [step] && Reached(SomeFacts(), longer) == Next(SomeFacts(), Reached(SomeFacts(), history), step)
  {
    longer := history + [step];
    assert longer[..|longer| - 1] == history;
  }

  /** The call after it has entered. */
  function Inside(stage: Stage): Task {
    New(WorktreeRuns.Cleanup, KEY, 0).(stage := stage, record := Some(ReadyRow()), claims := Authority())
  }

  /** The repository with the worktree, the call and its events. */
  ghost predicate At(w: World, x: Task) {
    && w.rows == [ReadyRow()] && w.calls == [x] && w.holder == Some(0)
    && w.refs == map[BRANCH := TheCommit()] && w.trees == map[PATH := BRANCH] && w.remotes == map[("remote", "main") := TheCommit()]
  }

  /** One statement that leaves the repository and the table alone. */
  lemma {:induction false} Does(h: seq<Step>, x: Task, readsHead: bool, y: Task) returns (longer: seq<Step>)
    requires At(Reached(SomeFacts(), h), x) && Active(x.stage) && x.record == Some(ReadyRow()) && Active(y.stage)
    requires var w := Reached(SomeFacts(), h); var f := Acts(SomeFacts(), w, 0, x, ReadyRow(), Fine(readsHead));
             f.task == y && f.rows == w.rows && f.refs == w.refs && f.trees == w.trees
    ensures At(Reached(SomeFacts(), longer), y)
  {
    hide Reached, Acts;
    longer := On(h, Advance(0, Fine(readsHead)));
  }

  lemma {:induction false} TheCommitIsOne()
    ensures IsCommit(TheCommit())
  {
  }

  /** The head and the branch of an observation. */
  lemma {:induction false} LooksTwice(h: seq<Step>, round: Round, x: Task) returns (longer: seq<Step>)
    requires At(Reached(SomeFacts(), h), x) && x.stage == Looking(round, false) && x.record == Some(ReadyRow()) && x.head == None
    ensures At(Reached(SomeFacts(), longer), x.(head := Some(TheCommit()), stage := Asking(round)))
  {
    hide Reached, IsCommit, TheCommit;
    TheCommitIsOne();
    var a := Does(h, x, true, x.(head := Some(TheCommit())));
    longer := Does(a, x.(head := Some(TheCommit())), false, x.(head := Some(TheCommit()), stage := Asking(round)));
  }

  /** An observation: the head, the branch, the remote. */
  lemma {:induction false} Observes(h: seq<Step>, round: Round, x: Task, stage: Stage) returns (longer: seq<Step>)
    requires At(Reached(SomeFacts(), h), x) && x.stage == Looking(round, false) && x.record == Some(ReadyRow()) && x.head == None
    requires Compare(SomeFacts(), x, ReadyRow(), round, Sight()) == GoOn(stage) && Active(stage)
    ensures At(Reached(SomeFacts(), longer), Filled(x, round, Sight()).(stage := stage))
  {
    hide Reached, Compare, IsCommit, TheCommit;
    var a := LooksTwice(h, round, x);
    CompareIsFree(x, round, Asking(round));
    longer := Does(a, x.(head := Some(TheCommit()), stage := Asking(round)), false, Filled(x, round, Sight()).(stage := stage));
  }

  lemma {:induction false} CompareIsFree(x: Task, round: Round, stage: Stage)
    ensures Compare(SomeFacts(), x.(stage := stage, head := None), ReadyRow(), round, Sight()) == Compare(SomeFacts(), x, ReadyRow(), round, Sight())
  {
  }

  /** The row, the worktree and the remote are there, and a cleanup has entered and been given its authority. */
  lemma {:induction false} Enters() returns (h: seq<Step>)
    ensures At(Reached(SomeFacts(), h), Inside(Looking(Initial, false)))
  {
    assert Reached(SomeFacts(), []) == World([], map[], map[], map[], None, [], []);
    hide Reached;
    var a := On([], OtherCall(ReserveCall(IDENTITY, BRANCH)));
    assert Reached(SomeFacts(), a).rows == [TableRow(Creating)];
    TheCommitIsOne();
    var b := On(a, OtherCall(MarkReadyCall(KEY, TheCommit())));
    assert Reached(SomeFacts(), b) == World([ReadyRow()], map[], map[], map[], None, [], []);
    h := EntersReady(b);
  }

  lemma {:induction false} EntersReady(b: seq<Step>) returns (h: seq<Step>)
    requires Reached(SomeFacts(), b) == World([ReadyRow()], map[], map[], map[], None, [], [])
    ensures At(Reached(SomeFacts(), h), Inside(Looking(Initial, false)))
  {
    hide Reached, TheCommit;
    var c := On(b, Others(map[BRANCH := TheCommit()], map[("remote", "main") := TheCommit()], map[PATH := BRANCH]));
    var d := On(c, Begin(WorktreeRuns.Cleanup, KEY));
    var e := On(d, Advance(0, Fine(true)));
    assert At(Reached(SomeFacts(), e), Inside(Claiming).(claims := Err("PENDING")));
    h := On(e, Advance(0, Fine(true)));
  }

  /** Observed, cleared, observed again, consumed, observed again, and cleared again. */
  lemma {:induction false} Decides() returns (h: seq<Step>)
    ensures At(Reached(SomeFacts(), h), Decided())
  {
    hide Reached, Sight;
    SightIsClean();
    var a := Enters();
    var x := Inside(Looking(Initial, false));
    var b := Observes(a, Initial, x, Merging(Initial));
    var y := x.(initial := Some(Sight()), stage := Looking(BeforeConsume, false));
    var c := Does(b, y.(stage := Merging(Initial)), true, y);
    var d := Observes(c, BeforeConsume, y, Consuming);
    var z := y.(beforeConsume := Some(Sight()), consumed := true, stage := Looking(BeforeRemoval, false));
    var e := Does(d, z.(consumed := false, stage := Consuming), true, z);
    var f := Observes(e, BeforeRemoval, z, Merging(BeforeRemoval));
    h := Does(f, Decided().(stage := Merging(BeforeRemoval)), true, Decided());
  }

  function Decided(): Task {
    Inside(RemovingTree).(initial := Some(Sight()), beforeConsume := Some(Sight()), beforeRemoval := Some(Sight()), consumed := true)
  }

  lemma {:induction false} SightIsClean()
    ensures CleanupClaims(ReadyRow(), Authority())
    ensures First(SomeFacts(), Authority().value, Sight(), Reachable(SomeFacts(), Sight())) == None
    ensures Last(SomeFacts(), Authority().value, Sight(), Reachable(SomeFacts(), Sight())) == None
    ensures Reachable(SomeFacts(), Sight()) && Sight().head == TheCommit()
  {
  }

  /** The call, at the end. */
  function Ended(stored: bool): Task {
    Decided().(stage := Returned(stored), treeGone := true, branchGone := true, stored := stored)
  }

  /** The worktree and then the branch are deleted, and the row is as it was. */
  lemma {:induction false} Removes() returns (h: seq<Step>)
    ensures var w := Reached(SomeFacts(), h);
            && w.refs == map[] && w.trees == map[] && w.rows == [ReadyRow()] && w.calls == [Decided().(stage := Recording, treeGone := true, branchGone := true)]
            && BranchDeleted(0, BRANCH, TheCommit()) in w.log
  {
    hide Reached, Sight, TheCommit, IsCommit;
    SightIsClean();
    var a := Decides();
    var b := On(a, Advance(0, Fine(true)));
    assert Reached(SomeFacts(), b).calls == [Decided().(stage := DeletingRef, treeGone := true)];
    assert Reached(SomeFacts(), b).refs == map[BRANCH := TheCommit()] && Reached(SomeFacts(), b).trees == map[];
    h := On(b, Advance(0, Fine(true)));
  }

  /** A concrete run in which cleanup deletes the branch and the row says so. */
  lemma {:induction false} CleanupSucceeds() returns (h: seq<Step>)
    ensures var w := Reached(SomeFacts(), h);
            && BranchDeleted(0, BRANCH, TheCommit()) in w.log && w.calls == [Ended(true)] && w.rows == [TableRow(Removed)]
  {
    hide Reached, Sight, TheCommit, IsCommit;
    SightIsClean();
    TheCommitIsOne();
    var a := Removes();
    h := On(a, Advance(0, Fine(true)));
  }

  /** The same run, but the database refuses the last statement: the branch is gone, and the row still says ready. */
  lemma {:induction false} RemovedWithoutRecord() returns (h: seq<Step>)
    ensures var w := Reached(SomeFacts(), h);
            && BranchDeleted(0, BRANCH, TheCommit()) in w.log && w.calls == [Ended(false)] && w.rows == [TableRow(Ready)]
  {
    hide Reached, Sight, TheCommit, IsCommit;
    var a := Removes();
    h := On(a, Advance(0, NotStored()));
  }
}
