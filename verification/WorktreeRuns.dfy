/**
 * Cleanup and discard on one repository as they run: any number of calls, one await at a time, while
 * other processes move refs, remotes and worktrees between any two of them, with crashes anywhere.
 */
module WorktreeRuns {
  import opened Common
  import opened WorktreeRegistry
  import opened WorktreeRemoval

  datatype Kind = Cleanup | Discard

  /** The three observations of a call; discard makes the last two. */
  datatype Round = Initial | BeforeConsume | BeforeRemoval

  /** Where a call stands. */
  datatype Stage =
    | Waiting
    | Claiming
    | Looking(round: Round, onBranch: bool)
    | Asking(round: Round)
    | Merging(round: Round)
    | Consuming
    | RemovingTree
    | DeletingRef
    | Recording
    | Restoring
    | Returned(ok: bool)
    | Dead

  /** A call: the row it read under the lock, and what its awaits have answered. */
  datatype Task = Task(
    kind: Kind,
    key: string,
    stage: Stage,
    at: nat,
    record: Option<Row>,
    claims: Result<Claims>,
    head: Option<Commit>,
    initial: Option<Observation>,
    beforeConsume: Option<Observation>,
    beforeRemoval: Option<Observation>,
    consumed: bool,
    treeGone: bool,
    branchGone: bool,
    stored: bool)

  type RemoteRef = (string, string)

  /** What calls did and saw, in order. An observation is complete when the remote has been asked. */
  datatype Event =
    | HeadRead(call: nat, path: Path, commit: Commit)
    | Seen(call: nat, ref: RemoteRef, observation: Observation)
    | Consumed(call: nat)
    | TreeDeleted(call: nat, path: Path)
    | BranchDeleted(call: nat, branch: Branch, commit: Commit)

  datatype World = World(
    rows: seq<Row>,
    refs: Refs,
    remotes: map<RemoteRef, Commit>,
    trees: map<Path, Branch>,
    holder: Option<nat>,
    calls: seq<Task>,
    log: seq<Event>)

  /**
   * What a statement meets: whether a command exits with zero, which of the two reads of an observation
   * answers, its other parts, the authority, the database, and the branch that a failed removal gave back.
   */
  datatype Environment = Environment(
    works: bool,
    readsHead: bool,
    view: Observation,
    claims: Result<Claims>,
    accepts: bool,
    stored: bool,
    restored: Option<Branch>,
    seenAgain: bool,
    id: string,
    summary: string)

  datatype Step =
    | Begin(kind: Kind, key: string)
    | Advance(task: nat, environment: Environment)
    | Others(refs: Refs, remotes: map<RemoteRef, Commit>, trees: map<Path, Branch>)
    | OtherCall(statement: Call)
    | Crash

  // ---- one statement

  datatype Effects = Effects(task: Task, events: seq<Event>, rows: seq<Row>, refs: Refs, trees: map<Path, Branch>)

  function Quiet(w: World, x: Task): Effects {
    Effects(x, [], w.rows, w.refs, w.trees)
  }

  function Goes(w: World, x: Task, stage: Stage): Effects {
    Quiet(w, x.(stage := stage))
  }

  /** retain: the row says what was observed and why it is kept. */
  function Retains(facts: Facts, rows: seq<Row>, key: string, o: Observation, reason: RetentionReason, e: Environment): (seq<Row>, bool) {
    var answer := Respond(rows, RetainCall(key, Observed(o.head, reason, DigestOf(facts, o), e.summary), e.id));
    if e.stored then (answer.0, answer.1.Ok?) else (rows, false)
  }

  /** The call ends with the work kept; discard reports a failure in any case. */
  function Keeps(facts: Facts, w: World, x: Task, o: Observation, reason: RetentionReason, e: Environment): Effects {
    var (rows, ok) := Retains(facts, w.rows, x.key, o, reason, e);
    Goes(w, x, Returned(x.kind == Cleanup && ok)).(rows := rows)
  }

  /** What cleanup has seen when an observation fails. */
  function SeenBefore(x: Task, round: Round): Option<Observation> {
    if x.kind == Discard then None
    else match round
      case Initial => None
      case BeforeConsume => x.initial
      case BeforeRemoval => x.beforeConsume
  }

  /** The worktree could not be observed. */
  function NotSeen(facts: Facts, w: World, x: Task, round: Round, e: Environment): Effects {
    match SeenBefore(x, round)
    case Some(o) => Keeps(facts, w, x, o, CleanupFailed, e)
    case None => Goes(w, x, Returned(false))
  }

  function First(facts: Facts, claims: Claims, o: Observation, reachable: bool): Option<RetentionReason>
    requires claims.CommittedCleanup?
  {
    MayRemove(RemovalFacts(claims.runTerminal, !claims.noActiveAttempt, claims.expectedHead, o, reachable))
  }

  function Last(facts: Facts, claims: Claims, o: Observation, reachable: bool): Option<RetentionReason>
    requires claims.CommittedCleanup?
  {
    MayRemove(RemovalFacts(true, false, claims.expectedHead, o, reachable))
  }

  function Filled(x: Task, round: Round, o: Observation): Task {
    match round
    case Initial => x.(head := None, initial := Some(o))
    case BeforeConsume => x.(head := None, beforeConsume := Some(o))
    case BeforeRemoval => x.(head := None, beforeRemoval := Some(o))
  }

  datatype Verdict = GoOn(stage: Stage) | KeepAs(reason: RetentionReason)

  /** What an observation is compared with. */
  function Compare(facts: Facts, x: Task, row: Row, round: Round, o: Observation): Verdict {
    match (x.kind, round)
    case (Cleanup, Initial) => if CleanupClaims(row, x.claims) then GoOn(Merging(Initial)) else KeepAs(AuthorityUnavailable)
    case (Cleanup, BeforeConsume) =>
      if x.initial.Some? && DigestOf(facts, o) == DigestOf(facts, x.initial.value) then GoOn(Consuming) else KeepAs(HeadChanged)
    case (Cleanup, BeforeRemoval) =>
      if x.beforeConsume.Some? && DigestOf(facts, o) == DigestOf(facts, x.beforeConsume.value) then GoOn(Merging(BeforeRemoval))
      else KeepAs(HeadChanged)
    case (Discard, _) =>
      if DiscardClaims(row, x.claims) && MatchesClaim(facts, Some(o), x.claims.value) then
        GoOn(if round == BeforeRemoval then RemovingTree else Consuming)
      else KeepAs(HeadChanged)
  }

  function Compares(facts: Facts, w: World, x: Task, row: Row, round: Round, o: Observation, e: Environment): Effects {
    match Compare(facts, x, row, round, o)
    case GoOn(stage) => Goes(w, Filled(x, round, o), stage)
    case KeepAs(reason) => Keeps(facts, w, Filled(x, round, o), o, reason, e)
  }

  /** A failed removal: the row follows the branch that was given back, and is retained as observed. */
  function Restored(facts: Facts, rows: seq<Row>, key: string, row: Row, e: Environment): (seq<Row>, bool) {
    if e.restored == None || !e.stored then (rows, false)
    else
      var branch := e.restored.value;
      var rebound := if branch == row.branchRef then (rows, Ok(row)) else Respond(rows, RebindCall(key, row.branchRef, branch));
      if rebound.1.Err? || !e.seenAgain then (rebound.0, false)
      else Retains(facts, rebound.0, key, e.view, CleanupFailed, e)
  }

  function RefOf(row: Row): RemoteRef {
    (row.identity.remoteIdentity, row.identity.remoteRef)
  }

  function RemoteSeen(w: World, row: Row, e: Environment): Remote {
    if !e.works then Unavailable
    else Available(if RefOf(row) in w.remotes then Some(w.remotes[RefOf(row)]) else None)
  }

  /** rev-parse of HEAD, or symbolic-ref: the two run at once, and either may answer first. */
  function Looks(facts: Facts, w: World, k: nat, x: Task, row: Row, round: Round, onBranch: bool, e: Environment): Effects {
    var path := row.identity.worktreePath;
    var here := if e.works && path in w.trees then Some(w.trees[path]) else None;
    if e.readsHead then
      if x.head.Some? then Quiet(w, x)
      else if here.Some? && here.value in w.refs && IsCommit(w.refs[here.value]) then
        var commit := w.refs[here.value];
        Goes(w, x.(head := Some(commit)), if onBranch then Asking(round) else Looking(round, false)).(events := [HeadRead(k, path, commit)])
      else NotSeen(facts, w, x, round, e)
    else if here == Some(row.branchRef) then Goes(w, x, if x.head.Some? then Asking(round) else Looking(round, true))
    else NotSeen(facts, w, x, round, e)
  }

  /** One statement of a call that holds the lock. */
  function Acts(facts: Facts, w: World, k: nat, x: Task, row: Row, e: Environment): Effects
    requires x.record == Some(row)
  {
    var path, branch := row.identity.worktreePath, row.branchRef;
    match x.stage
    case Claiming =>
      var y := x.(claims := e.claims);
      if x.kind == Cleanup then Goes(w, y, Looking(Initial, false))
      else if DiscardClaims(row, e.claims) then Goes(w, y, Looking(BeforeConsume, false))
      else Goes(w, y, Returned(false))
    case Looking(round, onBranch) => Looks(facts, w, k, x, row, round, onBranch, e)
    case Asking(round) =>
      if x.head == None then Quiet(w, x)
      else
        var o := e.view.(head := x.head.value, branch := branch, remote := RemoteSeen(w, row, e));
        Compares(facts, w, x.(head := None), row, round, o, e).(events := [Seen(k, RefOf(row), o)])
    case Merging(round) =>
      if !CleanupClaims(row, x.claims) then Quiet(w, x)
      else if round == Initial && x.initial.Some? then
        var reason := First(facts, x.claims.value, x.initial.value, e.works && Reachable(facts, x.initial.value));
        if reason == None then Goes(w, x, Looking(BeforeConsume, false)) else Keeps(facts, w, x, x.initial.value, reason.value, e)
      else if round == BeforeRemoval && x.beforeRemoval.Some? then
        var reason := Last(facts, x.claims.value, x.beforeRemoval.value, e.works && Reachable(facts, x.beforeRemoval.value));
        if reason == None then Goes(w, x, RemovingTree) else Keeps(facts, w, x, x.beforeRemoval.value, reason.value, e)
      else Quiet(w, x)
    case Consuming =>
      if e.accepts then Goes(w, x.(consumed := true), Looking(BeforeRemoval, false)).(events := [Consumed(k)])
      else if x.kind == Cleanup && x.beforeConsume.Some? then Keeps(facts, w, x, x.beforeConsume.value, AuthorityUnavailable, e)
      else Goes(w, x, Returned(false))
    case RemovingTree =>
      if e.works && path in w.trees then
        Goes(w, x.(treeGone := true), DeletingRef).(trees := w.trees - {path}, events := [TreeDeleted(k, path)])
      else Goes(w, x, Restoring)
    case DeletingRef =>
      if e.works && x.beforeRemoval.Some? && branch in w.refs && w.refs[branch] == x.beforeRemoval.value.head then
        Goes(w, x.(branchGone := true), Recording).(refs := w.refs - {branch}, events := [BranchDeleted(k, branch, w.refs[branch])])
      else Goes(w, x, Restoring)
    case Restoring =>
      var (rows, ok) := Restored(facts, w.rows, x.key, row, e);
      Goes(w, x, Returned(x.kind == Cleanup && ok)).(rows := rows)
    case Recording =>
      if x.beforeRemoval == None then Quiet(w, x)
      else
        var answer := Respond(w.rows, FinalCall(x, x.beforeRemoval.value.head));
        if e.stored then Goes(w, x.(stored := true), Returned(answer.1.Ok?)).(rows := answer.0)
        else Goes(w, x.(stored := false), Returned(false))
    case _ => Quiet(w, x)
  }

  function FinalCall(x: Task, head: Commit): Call {
    if x.kind == Cleanup then MarkRemovedCall(x.key, head) else MarkDiscardedCall(x.key, head)
  }

  predicate Active(stage: Stage) {
    !stage.Waiting? && !stage.Returned? && !stage.Dead?
  }

  /** A waiting call enters when the lock is free, and reads its row. */
  function Enters(w: World, k: nat, x: Task): World
    requires k < |w.calls|
  {
    if w.holder.Some? then w
    else match ByKey(w.rows, x.key)
      case None => w.(calls := w.calls[k := x.(stage := Returned(false))])
      case Some(i) => w.(holder := Some(k), calls := w.calls[k := x.(stage := Claiming, at := i, record := Some(w.rows[i]))])
  }

  function Statement(facts: Facts, w: World, k: nat, e: Environment): World
    requires k < |w.calls|
  {
    var x := w.calls[k];
    if x.stage == Waiting then Enters(w, k, x)
    else if Active(x.stage) && x.record.Some? then
      var f := Acts(facts, w, k, x, x.record.value, e);
      World(f.rows, f.refs, w.remotes, f.trees, if Active(f.task.stage) then w.holder else None, w.calls[k := f.task], w.log + f.events)
    else w
  }

  function New(kind: Kind, key: string, at: nat): Task {
    Task(kind, key, Waiting, at, None, Err("PENDING"), None, None, None, None, false, false, false, false)
  }

  function Killed(calls: seq<Task>): (r: seq<Task>)
    ensures |r| == |calls|
    ensures forall i :: 0 <= i < |r| ==> r[i] == if calls[i].stage.Returned? then calls[i] else calls[i].(stage := Dead)
  {
    if calls == [] then []
    else
      var last := calls[|calls| - 1];
      Killed(calls[..|calls| - 1]) + [if last.stage.Returned? then last else last.(stage := Dead)]
  }

  /** Every other statement about the row of a call is made under the same lock. */
  predicate Excluded(w: World, call: Call) {
    w.holder.Some? && w.holder.value < |w.calls| && KeyOf(call) == Some(w.calls[w.holder.value].key)
  }

  /** A handle was given out only once its row was ready. */
  function Handle(w: World, key: string): (r: Option<nat>)
    ensures r.Some? ==> r.value < |w.rows| && w.rows[r.value].identity.worktreeKey == key && w.rows[r.value].state != Creating
  {
    var found := ByKey(w.rows, key);
    if found.Some? && w.rows[found.value].state != Creating then found else None
  }

  function Next(facts: Facts, w: World, step: Step): World {
    match step
    case Begin(kind, key) => if Handle(w, key).Some? then w.(calls := w.calls + [New(kind, key, Handle(w, key).value)]) else w
    case Advance(k, e) => if k < |w.calls| then Statement(facts, w, k, e) else w
    case Others(refs, remotes, trees) => w.(refs := refs, remotes := remotes, trees := trees)
    case OtherCall(call) => if Excluded(w, call) then w else w.(rows := Respond(w.rows, call).0)
    case Crash => w.(holder := None, calls := Killed(w.calls))
  }

  function Reached(facts: Facts, steps: seq<Step>): World {
    if steps == [] then World([], map[], map[], map[], None, [], [])
    else Next(facts, Reached(facts, steps[..|steps| - 1]), steps[|steps| - 1])
  }

  // ---- what a call has done, in order

  function OfCall(log: seq<Event>, k: nat): seq<Event> {
    if log == [] then []
    else OfCall(log[..|log| - 1], k) + if log[|log| - 1].call == k then [log[|log| - 1]] else []
  }

  function Look(k: nat, row: Row, o: Observation): seq<Event> {
    [HeadRead(k, row.identity.worktreePath, o.head), Seen(k, RefOf(row), o)]
  }

  function MaybeLook(k: nat, row: Row, o: Option<Observation>): seq<Event> {
    if o.Some? then Look(k, row, o.value) else []
  }

  /** The events of a call, as its answers determine them. */
  function Trace(k: nat, x: Task): seq<Event> {
    match x.record
    case None => []
    case Some(row) =>
      MaybeLook(k, row, x.initial) + MaybeLook(k, row, x.beforeConsume)
      + (if x.consumed then [Consumed(k)] else [])
      + MaybeLook(k, row, x.beforeRemoval)
      + (if x.head.Some? then [HeadRead(k, row.identity.worktreePath, x.head.value)] else [])
      + (if x.treeGone then [TreeDeleted(k, row.identity.worktreePath)] else [])
      + (if x.branchGone && x.beforeRemoval.Some? then [BranchDeleted(k, row.branchRef, x.beforeRemoval.value.head)] else [])
  }

  /** The answers of a call as its decision reads them. */
  function AnswersOf(x: Task): Weather {
    Weather(x.claims, x.initial, x.beforeConsume, if x.consumed then Ok(()) else Err("PENDING"), x.beforeRemoval,
            RemovalWeather(n => map[], true, true, true, true), None, "", o => "")
  }

  // ---- invariant

  ghost predicate Blank(x: Task) {
    x == New(x.kind, x.key, x.at).(stage := x.stage, record := x.record, claims := x.claims, head := x.head)
  }

  /** Cleanup may go on after its first observation. */
  ghost predicate Cleared(facts: Facts, x: Task, row: Row) {
    && CleanupClaims(row, x.claims) && x.initial.Some?
    && First(facts, x.claims.value, x.initial.value, Reachable(facts, x.initial.value)) == None
  }

  /** The observation before consumption is as it must be. */
  ghost predicate Matched(facts: Facts, x: Task, row: Row) {
    && x.beforeConsume.Some?
    && if x.kind == Cleanup then Cleared(facts, x, row) && DigestOf(facts, x.beforeConsume.value) == DigestOf(facts, x.initial.value)
       else x.initial == None && DiscardClaims(row, x.claims) && MatchesClaim(facts, x.beforeConsume, x.claims.value)
  }

  /** What holds before an observation is made. */
  ghost predicate Until(facts: Facts, x: Task, row: Row, round: Round) {
    && x.beforeRemoval == None
    && match round
       case Initial => x.kind == Cleanup && Blank(x)
       case BeforeConsume =>
         && x.beforeConsume == None && !x.consumed
         && (if x.kind == Cleanup then Cleared(facts, x, row) else x.initial == None && DiscardClaims(row, x.claims))
       case BeforeRemoval => x.consumed && Matched(facts, x, row)
  }

  /** The decision is to remove. */
  ghost predicate Removable(facts: Facts, x: Task, row: Row) {
    && x.head == None && x.consumed && x.beforeRemoval.Some?
    && (x.kind == Discard ==> x.initial == None)
    && (if x.kind == Cleanup then DecideCleanup(facts, row, AnswersOf(x)) else DecideDiscard(facts, row, AnswersOf(x)))
       == RemoveAt(x.beforeRemoval.value)
  }

  ghost predicate StageOk(facts: Facts, x: Task, row: Row) {
    match x.stage
    case Claiming => Blank(x) && x.head == None
    case Looking(round, onBranch) => !x.treeGone && Until(facts, x, row, round) && !(x.head.Some? && onBranch)
    case Asking(round) => !x.treeGone && Until(facts, x, row, round) && x.head.Some?
    case Merging(round) =>
      && x.kind == Cleanup && CleanupClaims(row, x.claims) && x.head == None && !x.treeGone && x.initial.Some?
      && (match round
          case Initial => x.beforeConsume == None && !x.consumed && x.beforeRemoval == None
          case BeforeConsume => false
          case BeforeRemoval =>
            && x.consumed && Matched(facts, x, row) && x.beforeRemoval.Some?
            && DigestOf(facts, x.beforeRemoval.value) == DigestOf(facts, x.beforeConsume.value))
    case Consuming => x.head == None && !x.treeGone && !x.consumed && x.beforeRemoval == None && Matched(facts, x, row)
    case RemovingTree => Removable(facts, x, row) && !x.treeGone
    case DeletingRef => Removable(facts, x, row) && x.treeGone && !x.branchGone
    case Recording => Removable(facts, x, row) && x.branchGone
    case Restoring => Removable(facts, x, row) && !x.branchGone
    case Returned(ok) => x.branchGone ==> (ok <==> x.stored && (x.kind == Cleanup ==> InUse(row)))
    case _ => true
  }

  ghost predicate TaskOk(facts: Facts, x: Task) {
    && (x.record == None ==> Blank(x) && x.head == None && !Active(x.stage))
    && (x.stage == Waiting ==> x.record == None)
    && (x.branchGone ==> x.treeGone)
    && (x.head.Some? ==> IsCommit(x.head.value))
    && (x.beforeRemoval.Some? ==> IsCommit(x.beforeRemoval.value.head))
    && (x.record.Some? ==> StageOk(facts, x, x.record.value) && (x.treeGone ==> Removable(facts, x, x.record.value)))
  }

  /** The row says that the work is gone, and at which commit. */
  ghost predicate SaysGone(row: Row, x: Task) {
    && row.state == (if x.kind == Cleanup then Removed else Discarded)
    && x.beforeRemoval.Some? && row.currentHead == Some(x.beforeRemoval.value.head)
  }

  /** Under the lock the row is as it was read; after a removal that was recorded it says so for good. */
  ghost predicate RowHeld(rows: seq<Row>, x: Task) {
    && x.at < |rows| && rows[x.at].identity.worktreeKey == x.key && rows[x.at].state != Creating
    && (x.record.Some? ==>
          && rows[x.at].identity == x.record.value.identity && x.record.value.state != Creating
          && (Active(x.stage) ==> rows[x.at] == x.record.value)
          && (x.branchGone && x.stage == Returned(true) ==> SaysGone(rows[x.at], x)))
  }

  ghost predicate CallOk(facts: Facts, w: World, k: nat)
    requires k < |w.calls|
  {
    && OfCall(w.log, k) == Trace(k, w.calls[k])
    && TaskOk(facts, w.calls[k]) && RowHeld(w.rows, w.calls[k])
    && (Active(w.calls[k].stage) ==> w.holder == Some(k))
  }

  ghost predicate WorldOk(facts: Facts, w: World) {
    && TableOk(w.rows)
    && (w.holder.Some? ==> w.holder.value < |w.calls| && Active(w.calls[w.holder.value].stage))
    && (forall i :: 0 <= i < |w.log| ==> w.log[i].call < |w.calls|)
    && forall k :: 0 <= k < |w.calls| ==> CallOk(facts, w, k)
  }

  /** Rows only evolve. */
  ghost predicate Later(rows: seq<Row>, next: seq<Row>) {
    TableOk(next) && |rows| <= |next| && forall i :: 0 <= i < |rows| ==> Evolves(rows[i], next[i])
  }

  lemma {:induction false} LaterItself(rows: seq<Row>)
    requires TableOk(rows)
    ensures Later(rows, rows)
  {
    forall i | 0 <= i < |rows| ensures Evolves(rows[i], rows[i]) {
      EvolvesToItself(rows[i]);
    }
  }

  lemma {:induction false} LaterBy(rows: seq<Row>, call: Call)
    requires TableOk(rows)
    ensures Later(rows, Respond(rows, call).0)
  {
    hide Respond, TableOk, Evolves;
    RespondKeepsOk(rows, call);
    forall i | 0 <= i < |rows| ensures Evolves(rows[i], Respond(rows, call).0[i]) {
      StepEvolves(rows[i], call, Respond(rows, call).0[i]);
    }
  }

  lemma {:induction false} StepEvolves(row: Row, call: Call, next: Row)
    requires StepsTo(row, call, next)
    ensures Evolves(row, next)
  {
  }

  lemma {:induction false} LaterOn(a: seq<Row>, b: seq<Row>, c: seq<Row>)
    requires Later(a, b) && Later(b, c)
    ensures Later(a, c)
  {
    hide TableOk, Evolves;
    forall i | 0 <= i < |a| ensures Evolves(a[i], c[i]) {
      EvolvesOn(a[i], b[i], c[i]);
    }
  }

  // ---- one statement of a call

  lemma {:induction false} RetainsLater(facts: Facts, rows: seq<Row>, key: string, o: Observation, reason: RetentionReason, e: Environment)
    requires TableOk(rows)
    ensures Later(rows, Retains(facts, rows, key, o, reason, e).0)
  {
    hide Respond, DigestOf, TableOk, Later;
    LaterItself(rows);
    LaterBy(rows, RetainCall(key, Observed(o.head, reason, DigestOf(facts, o), e.summary), e.id));
  }

  lemma {:induction false} RestoredLater(facts: Facts, rows: seq<Row>, key: string, row: Row, e: Environment)
    requires TableOk(rows)
    ensures Later(rows, Restored(facts, rows, key, row, e).0)
  {
    hide Respond, Retains, TableOk, Later;
    LaterItself(rows);
    if e.restored.Some? {
      var call := RebindCall(key, row.branchRef, e.restored.value);
      LaterBy(rows, call);
      RetainsAfter(facts, rows, rows, key, e.view, CleanupFailed, e);
      RetainsAfter(facts, rows, Respond(rows, call).0, key, e.view, CleanupFailed, e);
    }
  }

  lemma {:induction false} RetainsAfter(facts: Facts, rows: seq<Row>, next: seq<Row>, key: string, o: Observation, reason: RetentionReason, e: Environment)
    requires Later(rows, next)
    ensures Later(rows, Retains(facts, next, key, o, reason, e).0)
  {
    hide Retains, Evolves;
    RetainsLater(facts, next, key, o, reason, e);
    LaterOn(rows, next, Retains(facts, next, key, o, reason, e).0);
  }

  lemma {:induction false} TableLater(rows: seq<Row>, next: seq<Row>)
    requires Later(rows, next)
    ensures TableOk(next)
  {
  }

  /** What every statement of a call does to the call, to the log and to the rows. */
  ghost predicate Moves(facts: Facts, w: World, k: nat, x: Task, f: Effects) {
    && TaskOk(facts, f.task) && f.task.record == x.record && f.task.key == x.key && f.task.kind == x.kind && f.task.at == x.at
    && f.task.stage != Waiting
    && Trace(k, f.task) == Trace(k, x) + f.events
    && |f.events| <= 1 && (f.events != [] ==> f.events[0].call == k)
    && Later(w.rows, f.rows) && (Active(f.task.stage) ==> f.rows == w.rows)
    && (f.task.branchGone && f.task.stage == Returned(true) ==> x.at < |f.rows| && SaysGone(f.rows[x.at], f.task))
  }

  /** Nor does the head read by an observation under way. */
  lemma {:induction false} UntilIsFree(facts: Facts, x: Task, row: Row, round: Round, stage: Stage, head: Option<Commit>)
    ensures Until(facts, x.(stage := stage, head := head), row, round) <==> Until(facts, x, row, round)
    ensures Matched(facts, x.(stage := stage, head := head), row) <==> Matched(facts, x, row)
  {
    hide DigestOf, MayRemove, Reachable, CleanupClaims, DiscardClaims;
  }

  /** A statement that answers, keeps what the call has done, and leaves the repository alone. */
  lemma {:induction false} Ends(facts: Facts, w: World, k: nat, x: Task, f: Effects)
    requires TaskOk(facts, x) && Active(x.stage) && !x.branchGone && f.events == []
    requires f.task == x.(stage := f.task.stage) && f.task.stage.Returned? && Later(w.rows, f.rows)
    ensures Moves(facts, w, k, x, f)
  {
    hide Later, Until, Matched, Removable, Cleared, Respond, DigestOf;
    StageIsFree(facts, k, x, f.task.stage);
  }

  /** Where a call stands does not matter to what it has done and been answered. */
  lemma {:induction false} StageIsFree(facts: Facts, k: nat, x: Task, stage: Stage)
    ensures Trace(k, x.(stage := stage)) == Trace(k, x)
    ensures x.record.Some? ==> (Removable(facts, x, x.record.value) <==> Removable(facts, x.(stage := stage), x.record.value))
  {
    hide DigestOf, MayRemove, DecideCleanup, DecideDiscard, MaybeLook;
    assert AnswersOf(x.(stage := stage)) == AnswersOf(x);
  }


  lemma {:induction false} KeepsEnds(facts: Facts, w: World, k: nat, x: Task, o: Observation, reason: RetentionReason, e: Environment)
    requires TaskOk(facts, x) && Active(x.stage) && !x.branchGone && TableOk(w.rows)
    ensures Moves(facts, w, k, x, Keeps(facts, w, x, o, reason, e))
  {
    hide Retains, Later, TableOk, TaskOk, Moves;
    RetainsLater(facts, w.rows, x.key, o, reason, e);
    Ends(facts, w, k, x, Keeps(facts, w, x, o, reason, e));
  }

  lemma {:induction false} EndsHere(facts: Facts, w: World, k: nat, x: Task)
    requires TaskOk(facts, x) && Active(x.stage) && !x.branchGone && TableOk(w.rows)
    ensures Moves(facts, w, k, x, Goes(w, x, Returned(false)))
  {
    hide Later, TableOk, TaskOk, Moves;
    LaterItself(w.rows);
    Ends(facts, w, k, x, Goes(w, x, Returned(false)));
  }

  lemma {:induction false} LooksMove(facts: Facts, w: World, k: nat, x: Task, row: Row, e: Environment)
    requires TaskOk(facts, x) && x.record == Some(row) && x.stage.Looking? && TableOk(w.rows)
    ensures Moves(facts, w, k, x, Acts(facts, w, k, x, row, e))
  {
    hide Later, TableOk, Keeps, IsCommit, RowOk, Evolves, Removable, Until, Trace, Goes, Moves;
    LaterItself(w.rows);
    if Acts(facts, w, k, x, row, e) != NotSeen(facts, w, x, x.stage.round, e) { LookMoves(facts, w, k, x, row, e); }
    EndsHere(facts, w, k, x);
    var seen := SeenBefore(x, x.stage.round);
    if seen.Some? {
      KeepsEnds(facts, w, k, x, seen.value, CleanupFailed, e);
    }
  }

  lemma {:induction false} LookKeepsTask(facts: Facts, x: Task, row: Row, round: Round, onBranch: bool, stage: Stage, head: Option<Commit>)
    requires TaskOk(facts, x) && x.record == Some(row) && x.stage == Looking(round, onBranch)
    requires head.Some? ==> IsCommit(head.value)
    requires (stage == Asking(round) && head.Some?) || (stage.Looking? && stage.round == round && !(head.Some? && stage.onBranch))
    ensures TaskOk(facts, x.(stage := stage, head := head)) && !x.treeGone && !x.branchGone
  {
    hide IsCommit, Removable, Until;
    UntilIsFree(facts, x, row, round, stage, head);
  }

  lemma {:induction false} LookTrace(k: nat, x: Task, row: Row, stage: Stage, head: Option<Commit>)
    requires x.record == Some(row) && !x.treeGone && !x.branchGone && (x.head == None || x.head == head)
    ensures Trace(k, x.(stage := stage, head := head))
            == Trace(k, x) + if x.head == head then [] else [HeadRead(k, row.identity.worktreePath, head.value)]
  {
  }

  lemma {:induction false} LookMoves(facts: Facts, w: World, k: nat, x: Task, row: Row, e: Environment)
    requires TaskOk(facts, x) && x.record == Some(row) && x.stage.Looking? && Later(w.rows, w.rows)
    requires Acts(facts, w, k, x, row, e) != NotSeen(facts, w, x, x.stage.round, e)
    ensures Moves(facts, w, k, x, Acts(facts, w, k, x, row, e))
  {
    hide Later, NotSeen, IsCommit, TaskOk, Trace;
    var y := Acts(facts, w, k, x, row, e).task;
    HeadIsCommit(facts, x);
    LookKeepsTask(facts, x, row, x.stage.round, x.stage.onBranch, y.stage, y.head);
    LookTrace(k, x, row, y.stage, y.head);
  }

  lemma {:induction false} HeadIsCommit(facts: Facts, x: Task)
    requires TaskOk(facts, x) && x.stage.Looking? && x.record.Some?
    ensures x.head.Some? ==> IsCommit(x.head.value) && !x.stage.onBranch
  {
    hide IsCommit, Removable, Until;
  }

  /** The completed observation stands after all that was done before. */
  lemma {:induction false} TraceSeen(k: nat, x: Task, row: Row, round: Round, o: Observation, stage: Stage)
    requires x.record == Some(row) && x.head == Some(o.head) && !x.treeGone && !x.branchGone && Open(x, round)
    ensures Trace(k, Filled(x, round, o).(stage := stage)) == Trace(k, x) + [Seen(k, RefOf(row), o)]
  {
  }

  /** Nothing is recorded of the observation or of what comes after it. */
  ghost predicate Open(x: Task, round: Round) {
    && x.beforeRemoval == None
    && (round != BeforeRemoval ==> x.beforeConsume == None && !x.consumed)
    && (round == Initial ==> x.initial == None)
  }

  lemma {:induction false} UntilIsOpen(facts: Facts, x: Task, row: Row, round: Round)
    requires Until(facts, x, row, round)
    ensures Open(x, round) && (round == Initial ==> x.kind == Cleanup)
  {
    hide DigestOf, MayRemove, Reachable, CleanupClaims, DiscardClaims;
  }

  lemma {:induction false} AskingMoves(facts: Facts, w: World, k: nat, x: Task, row: Row, e: Environment)
    requires TaskOk(facts, x) && x.record == Some(row) && x.stage.Asking? && x.head.Some? && TableOk(w.rows)
    ensures Moves(facts, w, k, x, Acts(facts, w, k, x, row, e))
  {
    hide Later, TableOk, IsCommit, RowOk, Evolves, Removable, Compares, Until, Trace, RemoteSeen, Open, StageOk;
    var round := x.stage.round;
    var o := e.view.(head := x.head.value, branch := row.branchRef, remote := RemoteSeen(w, row, e));
    AskingOk(facts, x, row);
    UntilIsFree(facts, x, row, round, x.stage, None);
    UntilIsOpen(facts, x, row, round);
    var f := Compares(facts, w, x.(head := None), row, round, o, e);
    ComparesTask(facts, w, x.(head := None), row, round, o, e);
    TraceSeen(k, x, row, round, o, f.task.stage);
  }

  lemma {:induction false} AskingOk(facts: Facts, x: Task, row: Row)
    requires TaskOk(facts, x) && x.record == Some(row) && x.stage.Asking?
    ensures Until(facts, x, row, x.stage.round) && !x.treeGone && !x.branchGone && x.head.Some? && IsCommit(x.head.value)
  {
    hide IsCommit, Until, Removable;
  }

  lemma {:induction false} ComparesTask(facts: Facts, w: World, x: Task, row: Row, round: Round, o: Observation, e: Environment)
    requires x.record == Some(row) && Until(facts, x, row, round) && !x.treeGone && !x.branchGone && x.head == None
    requires IsCommit(o.head) && TableOk(w.rows)
    ensures var f := Compares(facts, w, x, row, round, o, e);
            && f.task == Filled(x, round, o).(stage := f.task.stage)
            && Later(w.rows, f.rows) && (Active(f.task.stage) ==> f.rows == w.rows) && f.task.stage != Waiting
            && TaskOk(facts, f.task)
  {
    hide Later, TableOk, IsCommit, Retains, TaskOk, Until, Compare, Filled, Open;
    LaterItself(w.rows);
    UntilIsOpen(facts, x, row, round);
    var f := Compares(facts, w, x, row, round, o, e);
    match Compare(facts, x, row, round, o)
    case GoOn(stage) => FilledGoesOn(facts, x, row, round, o, stage);
    case KeepAs(reason) =>
      RetainsLater(facts, w.rows, Filled(x, round, o).key, o, reason, e);
      FilledReturned(facts, x, row, round, o, f.task.stage.ok);
  }

  lemma {:induction false} FilledReturned(facts: Facts, x: Task, row: Row, round: Round, o: Observation, ok: bool)
    requires x.record == Some(row) && !x.treeGone && !x.branchGone && x.head == None && Open(x, round) && IsCommit(o.head)
    ensures TaskOk(facts, Filled(x, round, o).(stage := Returned(ok)))
  {
    hide IsCommit, Removable;
  }

  lemma {:induction false} FilledGoesOn(facts: Facts, x: Task, row: Row, round: Round, o: Observation, stage: Stage)
    requires x.record == Some(row) && Until(facts, x, row, round) && !x.treeGone && !x.branchGone && x.head == None
    requires IsCommit(o.head) && Compare(facts, x, row, round, o) == GoOn(stage)
    ensures TaskOk(facts, Filled(x, round, o).(stage := stage)) && Active(stage)
  {
    hide IsCommit, DigestOf, Until, TaskOk, DiscardClaims, CleanupClaims, MatchesClaim;
    UntilIsOpen(facts, x, row, round);
    match round
    case Initial => InitialSeen(facts, x, row, o);
    case BeforeConsume => BeforeConsumeSeen(facts, x, row, o);
    case BeforeRemoval => if x.kind == Cleanup { BeforeRemovalSeen(facts, x, row, o); } else { DiscardDecides(facts, x, row, o); }
  }

  lemma {:induction false} InitialSeen(facts: Facts, x: Task, row: Row, o: Observation)
    requires x.record == Some(row) && Until(facts, x, row, Initial) && CleanupClaims(row, x.claims) && x.head == None
    ensures TaskOk(facts, x.(initial := Some(o), stage := Merging(Initial)))
  {
    hide IsCommit, CleanupClaims, Matched, Removable, Cleared;
  }

  lemma {:induction false} BeforeConsumeSeen(facts: Facts, x: Task, row: Row, o: Observation)
    requires x.record == Some(row) && Until(facts, x, row, BeforeConsume) && !x.treeGone && !x.branchGone && x.head == None
    ensures (x.kind == Cleanup ==> x.initial.Some?) && (x.kind == Discard ==> DiscardClaims(row, x.claims))
    ensures (if x.kind == Cleanup then DigestOf(facts, o) == DigestOf(facts, x.initial.value) else MatchesClaim(facts, Some(o), x.claims.value))
            ==> TaskOk(facts, x.(beforeConsume := Some(o), stage := Consuming))
  {
    hide IsCommit, CleanupClaims, Removable, DigestOf, MayRemove, Reachable, DiscardClaims;
    UntilIsCleared(facts, x, row);
  }

  lemma {:induction false} UntilIsCleared(facts: Facts, x: Task, row: Row)
    requires Until(facts, x, row, BeforeConsume)
    ensures if x.kind == Cleanup then Cleared(facts, x, row) else x.initial == None && DiscardClaims(row, x.claims)
    ensures DiscardClaims(row, x.claims) ==> x.claims.Ok? && x.claims.value.RetainedWorkDiscard?
  {
    hide DigestOf, MayRemove;
  }

  lemma {:induction false} BeforeRemovalSeen(facts: Facts, x: Task, row: Row, o: Observation)
    requires x.record == Some(row) && Until(facts, x, row, BeforeRemoval) && !x.treeGone && !x.branchGone && x.head == None
    requires IsCommit(o.head) && x.kind == Cleanup
    ensures x.beforeConsume.Some? && x.initial.Some?
    ensures DigestOf(facts, o) == DigestOf(facts, x.beforeConsume.value) ==>
              TaskOk(facts, x.(beforeRemoval := Some(o), stage := Merging(BeforeRemoval)))
  {
    hide IsCommit, DigestOf, MayRemove, Reachable, Removable;
  }

  lemma {:induction false} DiscardDecides(facts: Facts, x: Task, row: Row, o: Observation)
    requires x.record == Some(row) && Until(facts, x, row, BeforeRemoval) && !x.treeGone && !x.branchGone && x.head == None
    requires IsCommit(o.head) && x.kind == Discard
    ensures DiscardClaims(row, x.claims) && x.claims.value.RetainedWorkDiscard?
    ensures MatchesClaim(facts, Some(o), x.claims.value) ==> TaskOk(facts, x.(beforeRemoval := Some(o), stage := RemovingTree))
  {
    hide IsCommit, DigestOf;
  }

  lemma {:induction false} ClaimedOk(facts: Facts, x: Task, row: Row, claims: Result<Claims>, stage: Stage)
    requires TaskOk(facts, x) && x.record == Some(row) && x.stage.Claiming?
    requires stage == (if x.kind == Cleanup then Looking(Initial, false)
                       else if DiscardClaims(row, claims) then Looking(BeforeConsume, false) else Returned(false))
    ensures TaskOk(facts, x.(claims := claims, stage := stage))
  {
    hide IsCommit, DiscardClaims, Removable, Matched, Cleared;
  }

  lemma {:induction false} ClaimedTrace(k: nat, x: Task, claims: Result<Claims>, stage: Stage)
    ensures Trace(k, x.(claims := claims, stage := stage)) == Trace(k, x)
  {
    hide MaybeLook;
  }

  lemma {:induction false} ClaimingActs(facts: Facts, w: World, k: nat, x: Task, row: Row, e: Environment)
    requires x.record == Some(row) && x.stage.Claiming?
    ensures var stage := if x.kind == Cleanup then Looking(Initial, false)
                         else if DiscardClaims(row, e.claims) then Looking(BeforeConsume, false) else Returned(false);
            Acts(facts, w, k, x, row, e) == Goes(w, x.(claims := e.claims), stage)
  {
    hide DiscardClaims, Goes;
  }

  lemma {:induction false} ClaimingMoves(facts: Facts, w: World, k: nat, x: Task, row: Row, e: Environment)
    requires TaskOk(facts, x) && x.record == Some(row) && x.stage.Claiming? && TableOk(w.rows)
    ensures Moves(facts, w, k, x, Acts(facts, w, k, x, row, e))
  {
    hide Acts, Later, TableOk, TaskOk, Trace, DiscardClaims;
    LaterItself(w.rows);
    ClaimingActs(facts, w, k, x, row, e);
    var y := Acts(facts, w, k, x, row, e).task;
    ClaimedOk(facts, x, row, e.claims, y.stage);
    ClaimedTrace(k, x, e.claims, y.stage);
    assert !x.branchGone && Trace(k, x) + [] == Trace(k, x) by { NothingGone(facts, x, row); }
  }

  lemma {:induction false} NothingGone(facts: Facts, x: Task, row: Row)
    requires TaskOk(facts, x) && x.record == Some(row) && x.stage.Claiming?
    ensures !x.branchGone
  {
    hide IsCommit, Removable;
  }

  lemma {:induction false} MergingMoves(facts: Facts, w: World, k: nat, x: Task, row: Row, e: Environment)
    requires TaskOk(facts, x) && x.record == Some(row) && x.stage.Merging? && TableOk(w.rows)
    ensures Moves(facts, w, k, x, Acts(facts, w, k, x, row, e))
  {
    hide Later, TableOk, TaskOk, Moves, Keeps, First, Last, Goes, Reachable;
    MergingOk(facts, x, row);
    forall o, reason ensures Moves(facts, w, k, x, Keeps(facts, w, x, o, reason, e)) {
      KeepsEnds(facts, w, k, x, o, reason, e);
    }
    if x.stage.round == Initial {
      if First(facts, x.claims.value, x.initial.value, e.works && Reachable(facts, x.initial.value)) == None {
        FirstPasses(facts, w, k, x, row, e.works && Reachable(facts, x.initial.value));
      }
    } else if Last(facts, x.claims.value, x.beforeRemoval.value, e.works && Reachable(facts, x.beforeRemoval.value)) == None {
      LastPasses(facts, w, k, x, row, e.works && Reachable(facts, x.beforeRemoval.value));
    }
  }

  lemma {:induction false} MergingOk(facts: Facts, x: Task, row: Row)
    requires TaskOk(facts, x) && x.record == Some(row) && x.stage.Merging?
    ensures !x.branchGone && !x.treeGone && x.kind == Cleanup && CleanupClaims(row, x.claims) && x.initial.Some?
    ensures x.stage.round == Initial || (x.stage.round == BeforeRemoval && x.beforeRemoval.Some?)
  {
    hide IsCommit, Removable, Matched, CleanupClaims;
  }

  lemma {:induction false} FirstPasses(facts: Facts, w: World, k: nat, x: Task, row: Row, reachable: bool)
    requires TaskOk(facts, x) && x.record == Some(row) && x.stage == Merging(Initial) && TableOk(w.rows)
    requires CleanupClaims(row, x.claims) && x.initial.Some? && (reachable ==> Reachable(facts, x.initial.value))
    requires First(facts, x.claims.value, x.initial.value, reachable) == None
    ensures Moves(facts, w, k, x, Goes(w, x, Looking(BeforeConsume, false)))
  {
    hide Later, TableOk, IsCommit, Removable, Matched, Reachable, CleanupClaims, Trace, Blank;
    LaterItself(w.rows);
    StageIsFree(facts, k, x, Looking(BeforeConsume, false));
  }

  lemma {:induction false} LastPasses(facts: Facts, w: World, k: nat, x: Task, row: Row, reachable: bool)
    requires TaskOk(facts, x) && x.record == Some(row) && x.stage == Merging(BeforeRemoval) && TableOk(w.rows)
    requires CleanupClaims(row, x.claims) && x.beforeRemoval.Some? && (reachable ==> Reachable(facts, x.beforeRemoval.value))
    requires Last(facts, x.claims.value, x.beforeRemoval.value, reachable) == None
    ensures Moves(facts, w, k, x, Goes(w, x, RemovingTree))
  {
    hide Later, TableOk, IsCommit, CleanupClaims, Trace, Blank, Reachable, Last, First, DigestOf, Removable;
    LaterItself(w.rows);
    StageIsFree(facts, k, x, RemovingTree);
    CleanupDecides(facts, x, row, reachable);
  }

  lemma {:induction false} CleanupDecides(facts: Facts, x: Task, row: Row, reachable: bool)
    requires x.kind == Cleanup && CleanupClaims(row, x.claims) && x.head == None && x.consumed && Matched(facts, x, row)
    requires x.beforeRemoval.Some? && DigestOf(facts, x.beforeRemoval.value) == DigestOf(facts, x.beforeConsume.value)
    requires reachable ==> Reachable(facts, x.beforeRemoval.value)
    requires Last(facts, x.claims.value, x.beforeRemoval.value, reachable) == None
    ensures Removable(facts, x, row)
  {
    hide DigestOf, CleanupClaims, Reachable;
  }

  lemma {:induction false} ConsumingMoves(facts: Facts, w: World, k: nat, x: Task, row: Row, e: Environment)
    requires TaskOk(facts, x) && x.record == Some(row) && x.stage.Consuming? && TableOk(w.rows)
    ensures Moves(facts, w, k, x, Acts(facts, w, k, x, row, e))
  {
    hide Later, TableOk, TaskOk, Moves, Keeps;
    ConsumingOk(facts, x, row);
    EndsHere(facts, w, k, x);
    if e.accepts {
      ConsumedMoves(facts, w, k, x, row);
    } else if x.beforeConsume.Some? {
      KeepsEnds(facts, w, k, x, x.beforeConsume.value, AuthorityUnavailable, e);
    }
  }

  lemma {:induction false} ConsumingOk(facts: Facts, x: Task, row: Row)
    requires TaskOk(facts, x) && x.record == Some(row) && x.stage.Consuming?
    ensures !x.branchGone && !x.treeGone && x.head == None && !x.consumed && x.beforeRemoval == None && Matched(facts, x, row)
  {
    hide IsCommit, Removable, Matched, CleanupClaims;
  }

  lemma {:induction false} ConsumedMoves(facts: Facts, w: World, k: nat, x: Task, row: Row)
    requires TaskOk(facts, x) && x.record == Some(row) && x.stage.Consuming? && TableOk(w.rows)
    ensures Moves(facts, w, k, x, Goes(w, x.(consumed := true), Looking(BeforeRemoval, false)).(events := [Consumed(k)]))
  {
    hide Later, TableOk, IsCommit, Removable, Matched;
    LaterItself(w.rows);
    ConsumedIsFree(facts, x, row);
  }

  lemma {:induction false} ConsumedIsFree(facts: Facts, x: Task, row: Row)
    ensures Matched(facts, x.(consumed := true, stage := Looking(BeforeRemoval, false)), row) <==> Matched(facts, x, row)
  {
    hide DigestOf, MayRemove, Reachable, CleanupClaims, DiscardClaims;
  }

  lemma {:induction false} RemovingMoves(facts: Facts, w: World, k: nat, x: Task, row: Row, e: Environment)
    requires TaskOk(facts, x) && x.record == Some(row) && (x.stage.RemovingTree? || x.stage.DeletingRef?) && TableOk(w.rows)
    ensures Moves(facts, w, k, x, Acts(facts, w, k, x, row, e))
  {
    hide Later, TableOk, TaskOk, Trace;
    LaterItself(w.rows);
    var y := Acts(facts, w, k, x, row, e).task;
    RemovingTask(facts, k, x, row, y);
  }

  lemma {:induction false} RemovingTask(facts: Facts, k: nat, x: Task, row: Row, y: Task)
    requires TaskOk(facts, x) && x.record == Some(row) && (x.stage.RemovingTree? || x.stage.DeletingRef?)
    ensures x.beforeRemoval.Some?
    ensures y == x.(stage := Restoring) ==> TaskOk(facts, y) && Trace(k, y) == Trace(k, x)
    ensures x.stage.RemovingTree? && y == x.(stage := DeletingRef, treeGone := true) ==>
              TaskOk(facts, y) && Trace(k, y) == Trace(k, x) + [TreeDeleted(k, row.identity.worktreePath)]
    ensures x.stage.DeletingRef? && y == x.(stage := Recording, branchGone := true) ==>
              TaskOk(facts, y) && Trace(k, y) == Trace(k, x) + [BranchDeleted(k, row.branchRef, x.beforeRemoval.value.head)]
  {
    hide IsCommit, Removable, MaybeLook;
    GoneIsFree(facts, x, row, y.stage, y.treeGone, y.branchGone);
  }

  lemma {:induction false} GoneIsFree(facts: Facts, x: Task, row: Row, stage: Stage, treeGone: bool, branchGone: bool)
    ensures Removable(facts, x, row) <==> Removable(facts, x.(stage := stage, treeGone := treeGone, branchGone := branchGone), row)
    ensures Removable(facts, x, row) ==> x.head == None && x.beforeRemoval.Some?
  {
    hide DigestOf, MayRemove, DecideCleanup, DecideDiscard;
    assert AnswersOf(x.(stage := stage, treeGone := treeGone, branchGone := branchGone)) == AnswersOf(x);
  }

  lemma {:induction false} RestoringMoves(facts: Facts, w: World, k: nat, x: Task, row: Row, e: Environment)
    requires TaskOk(facts, x) && x.record == Some(row) && x.stage.Restoring? && TableOk(w.rows)
    ensures Moves(facts, w, k, x, Acts(facts, w, k, x, row, e))
  {
    hide Later, TableOk, Moves, Restored, Removable;
    RestoredLater(facts, w.rows, x.key, row, e);
    Ends(facts, w, k, x, Acts(facts, w, k, x, row, e));
  }

  /** The lock is held, so the row is as it was read, and the last statement is refused only as that row says. */
  lemma {:induction false} RecordingMoves(facts: Facts, w: World, k: nat, x: Task, row: Row, e: Environment)
    requires TaskOk(facts, x) && x.record == Some(row) && x.stage.Recording? && TableOk(w.rows) && RowHeld(w.rows, x)
    ensures Moves(facts, w, k, x, Acts(facts, w, k, x, row, e))
  {
    hide Later, TableOk, IsCommit, TaskOk, Respond, Trace;
    LaterItself(w.rows);
    RecordingOk(facts, x, row);
    LaterBy(w.rows, FinalCall(x, x.beforeRemoval.value.head));
    RecordedIff(w.rows, x.at, x.beforeRemoval.value.head);
    RecordedTask(facts, k, x, row, false);
    RecordedTask(facts, k, x, row, true);
  }

  lemma {:induction false} RecordedTask(facts: Facts, k: nat, x: Task, row: Row, stored: bool)
    requires TaskOk(facts, x) && x.record == Some(row) && x.stage.Recording?
    ensures var ok := stored && (x.kind == Cleanup ==> InUse(row));
            var y := x.(stage := Returned(ok), stored := stored);
            TaskOk(facts, y) && Trace(k, y) == Trace(k, x)
  {
    hide IsCommit, Removable, MaybeLook;
    var ok := stored && (x.kind == Cleanup ==> InUse(row));
    StoredIsFree(facts, x, row, Returned(ok), stored);
  }

  lemma {:induction false} RecordingOk(facts: Facts, x: Task, row: Row)
    requires TaskOk(facts, x) && x.record == Some(row) && x.stage.Recording?
    ensures x.beforeRemoval.Some? && IsCommit(x.beforeRemoval.value.head) && x.branchGone && x.treeGone && x.head == None
    ensures x.kind == Discard ==> row.state == Retained
  {
    hide IsCommit, DigestOf;
  }

  lemma {:induction false} StoredIsFree(facts: Facts, x: Task, row: Row, stage: Stage, stored: bool)
    ensures Removable(facts, x, row) <==> Removable(facts, x.(stage := stage, stored := stored), row)
  {
    hide DigestOf, MayRemove, DecideCleanup, DecideDiscard;
    assert AnswersOf(x.(stage := stage, stored := stored)) == AnswersOf(x);
  }

  lemma {:induction false} ActsMove(facts: Facts, w: World, k: nat, x: Task, row: Row, e: Environment)
    requires TaskOk(facts, x) && x.record == Some(row) && Active(x.stage) && TableOk(w.rows) && RowHeld(w.rows, x)
    ensures Moves(facts, w, k, x, Acts(facts, w, k, x, row, e))
  {
    hide TaskOk, TableOk, RowHeld, Moves, Acts;
    match x.stage
    case Claiming => ClaimingMoves(facts, w, k, x, row, e);
    case Looking(_, _) => LooksMove(facts, w, k, x, row, e);
    case Asking(_) =>
      AskingHead(facts, x, row);
      AskingMoves(facts, w, k, x, row, e);
    case Merging(_) => MergingMoves(facts, w, k, x, row, e);
    case Consuming => ConsumingMoves(facts, w, k, x, row, e);
    case RemovingTree => RemovingMoves(facts, w, k, x, row, e);
    case DeletingRef => RemovingMoves(facts, w, k, x, row, e);
    case Recording => RecordingMoves(facts, w, k, x, row, e);
    case Restoring => RestoringMoves(facts, w, k, x, row, e);
  }

  lemma {:induction false} AskingHead(facts: Facts, x: Task, row: Row)
    requires TaskOk(facts, x) && x.record == Some(row) && x.stage.Asking?
    ensures x.head.Some?
  {
    hide IsCommit, Until, Removable;
  }

  // ---- the world

  lemma {:induction false} OfCallAdds(log: seq<Event>, events: seq<Event>, k: nat)
    requires |events| <= 1
    ensures OfCall(log + events, k) == OfCall(log, k) + if events != [] && events[0].call == k then events else []
  {
    if events == [] {
      assert log + events == log;
    } else {
      assert (log + events)[..|log|] == log && events == [events[0]];
    }
  }

  lemma {:induction false} OfCallIsEmpty(log: seq<Event>, k: nat)
    requires forall i :: 0 <= i < |log| ==> log[i].call < k
    ensures OfCall(log, k) == []
  {
    if log != [] {
      OfCallIsEmpty(log[..|log| - 1], k);
    }
  }

  /** A row that is not in use any more stays as it is. */
  lemma {:induction false} RowHeldLater(rows: seq<Row>, next: seq<Row>, x: Task)
    requires RowHeld(rows, x) && Later(rows, next)
    requires Active(x.stage) && x.record.Some? ==> x.at < |next| && (x.at < |rows| ==> next[x.at] == rows[x.at])
    ensures RowHeld(next, x)
  {
    hide TableOk;
    assert Evolves(rows[x.at], next[x.at]);
  }

  lemma {:induction false} OtherKeyStays(rows: seq<Row>, call: Call, i: nat)
    requires TableOk(rows) && i < |rows| && KeyOf(call) != Some(rows[i].identity.worktreeKey)
    ensures i < |Respond(rows, call).0| && Respond(rows, call).0[i] == rows[i]
  {
    hide TableOk, Written;
  }

  lemma {:induction false} RowHeldMoved(facts: Facts, w: World, k: nat, x: Task, f: Effects)
    requires Moves(facts, w, k, x, f) && RowHeld(w.rows, x) && Active(x.stage)
    ensures RowHeld(f.rows, f.task)
  {
    hide TaskOk, TableOk, Trace;
    assert Evolves(w.rows[x.at], f.rows[x.at]);
  }

  lemma {:induction false} MovedCallOk(facts: Facts, w: World, k: nat, e: Environment)
    requires k < |w.calls| && CallOk(facts, w, k) && TableOk(w.rows) && Active(w.calls[k].stage) && w.calls[k].record.Some?
    ensures CallOk(facts, Statement(facts, w, k, e), k)
  {
    hide TaskOk, TableOk, Acts, Trace, RowHeld, Later;
    var x := w.calls[k];
    var f := Acts(facts, w, k, x, x.record.value, e);
    ActsMove(facts, w, k, x, x.record.value, e);
    OfCallAdds(w.log, f.events, k);
    RowHeldMoved(facts, w, k, x, f);
  }

  lemma {:induction false} OtherCallOk(facts: Facts, w: World, k: nat, e: Environment, j: nat)
    requires k < |w.calls| && CallOk(facts, w, k) && TableOk(w.rows) && Active(w.calls[k].stage) && w.calls[k].record.Some?
    requires j < |w.calls| && j != k && CallOk(facts, w, j)
    ensures CallOk(facts, Statement(facts, w, k, e), j)
  {
    hide TaskOk, TableOk, Acts, Trace, RowHeld, Later;
    var x := w.calls[k];
    var f := Acts(facts, w, k, x, x.record.value, e);
    ActsMove(facts, w, k, x, x.record.value, e);
    OfCallAdds(w.log, f.events, j);
    RowHeldLater(w.rows, f.rows, w.calls[j]);
  }

  /** One statement of the call that holds the lock. */
  lemma {:induction false} StatementKeepsOk(facts: Facts, w: World, k: nat, e: Environment)
    requires WorldOk(facts, w) && k < |w.calls| && Active(w.calls[k].stage) && w.calls[k].record.Some?
    ensures WorldOk(facts, Statement(facts, w, k, e))
  {
    hide TableOk, CallOk, Statement;
    StatementShape(facts, w, k, e);
    forall j | 0 <= j < |w.calls| ensures CallOk(facts, Statement(facts, w, k, e), j) {
      if j == k { MovedCallOk(facts, w, k, e); } else { OtherCallOk(facts, w, k, e, j); }
    }
  }

  lemma {:induction false} StatementShape(facts: Facts, w: World, k: nat, e: Environment)
    requires k < |w.calls| && CallOk(facts, w, k) && TableOk(w.rows) && Active(w.calls[k].stage) && w.calls[k].record.Some?
    ensures var next := Statement(facts, w, k, e);
            && TableOk(next.rows) && |next.calls| == |w.calls|
            && (next.holder.Some? ==> next.holder == w.holder == Some(k) && Active(next.calls[k].stage))
            && (|next.log| == |w.log| || (|next.log| == |w.log| + 1 && next.log[|w.log|].call == k))
            && next.log[..|w.log|] == w.log
  {
    hide TaskOk, Acts, Trace, RowHeld, RowOk, Evolves;
    var x := w.calls[k];
    ActsMove(facts, w, k, x, x.record.value, e);
  }

  lemma {:induction false} EntersKeepsOk(facts: Facts, w: World, k: nat)
    requires WorldOk(facts, w) && k < |w.calls| && w.calls[k].stage == Waiting
    ensures WorldOk(facts, Enters(w, k, w.calls[k]))
  {
    hide TableOk, CallOk;
    var x, next := w.calls[k], Enters(w, k, w.calls[k]);
    if next != w {
      RowOfKey(facts, w, k);
      EnteredOk(facts, w, k);
      forall j | 0 <= j < |w.calls| && j != k ensures CallOk(facts, next, j) {
        SameCallOk(facts, w, next, j);
      }
    }
  }

  lemma {:induction false} RowOfKey(facts: Facts, w: World, k: nat)
    requires k < |w.calls| && CallOk(facts, w, k) && TableOk(w.rows)
    ensures ByKey(w.rows, w.calls[k].key) == Some(w.calls[k].at)
  {
    hide RowOk, TaskOk, Trace;
    assert forall i, j :: 0 <= i < j < |w.rows| ==> w.rows[i].identity.worktreeKey != w.rows[j].identity.worktreeKey;
  }

  lemma {:induction false} SameCallOk(facts: Facts, w: World, next: World, j: nat)
    requires j < |w.calls| && CallOk(facts, w, j) && j < |next.calls| && next.calls[j] == w.calls[j]
    requires next.rows == w.rows && next.log == w.log && (w.holder.Some? ==> next.holder == w.holder)
    ensures CallOk(facts, next, j)
  {
    hide TaskOk, RowHeld, Trace;
  }

  lemma {:induction false} EnteredOk(facts: Facts, w: World, k: nat)
    requires k < |w.calls| && CallOk(facts, w, k) && w.calls[k].stage == Waiting && w.holder == None
    requires ByKey(w.rows, w.calls[k].key) == Some(w.calls[k].at)
    ensures CallOk(facts, Enters(w, k, w.calls[k]), k)
  {
    hide Removable, Until, Matched;
    var x, y := w.calls[k], Enters(w, k, w.calls[k]).calls[k];
    assert x == New(x.kind, x.key, x.at).(claims := x.claims);
    assert Trace(k, y) == [];
  }

  lemma {:induction false} OtherCallKeepsOk(facts: Facts, w: World, call: Call)
    requires WorldOk(facts, w) && !Excluded(w, call)
    ensures WorldOk(facts, w.(rows := Respond(w.rows, call).0))
  {
    hide TableOk, Respond, TaskOk, Trace, Later;
    LaterBy(w.rows, call);
    TableLater(w.rows, Respond(w.rows, call).0);
    forall j | 0 <= j < |w.calls| ensures CallOk(facts, w.(rows := Respond(w.rows, call).0), j) {
      var x := w.calls[j];
      assert CallOk(facts, w, j);
      if Active(x.stage) && x.record.Some? {
        OtherKeyStays(w.rows, call, x.at);
      }
      RowHeldLater(w.rows, Respond(w.rows, call).0, x);
    }
  }

  lemma {:induction false} CrashKeepsOk(facts: Facts, w: World)
    requires WorldOk(facts, w)
    ensures WorldOk(facts, w.(holder := None, calls := Killed(w.calls)))
  {
    hide TableOk, Trace, TaskOk;
    forall j | 0 <= j < |w.calls| ensures CallOk(facts, w.(holder := None, calls := Killed(w.calls)), j) {
      var x := w.calls[j];
      assert CallOk(facts, w, j);
      StageIsFree(facts, j, x, Dead);
      DeadIsOk(facts, x);
    }
  }

  lemma {:induction false} DeadIsOk(facts: Facts, x: Task)
    requires TaskOk(facts, x)
    ensures TaskOk(facts, x.(stage := Dead))
  {
    hide IsCommit, Removable, Until, Matched;
    StageIsFree(facts, 0, x, Dead);
  }

  lemma {:induction false} BeginKeepsOk(facts: Facts, w: World, kind: Kind, key: string)
    requires WorldOk(facts, w) && Handle(w, key).Some?
    ensures WorldOk(facts, w.(calls := w.calls + [New(kind, key, Handle(w, key).value)]))
  {
    hide TableOk, CallOk, Handle;
    var next := w.(calls := w.calls + [New(kind, key, Handle(w, key).value)]);
    NewIsOk(facts, w, next, kind, key);
    forall j | 0 <= j < |w.calls| ensures CallOk(facts, next, j) {
      SameCallOk(facts, w, next, j);
    }
  }

  lemma {:induction false} NewIsOk(facts: Facts, w: World, next: World, kind: Kind, key: string)
    requires (forall i :: 0 <= i < |w.log| ==> w.log[i].call < |w.calls|) && Handle(w, key).Some?
    requires next == w.(calls := w.calls + [New(kind, key, Handle(w, key).value)])
    ensures CallOk(facts, next, |w.calls|)
  {
    hide Removable, Until, Matched, Handle;
    OfCallIsEmpty(w.log, |w.calls|);
  }

  lemma {:induction false} NextKeepsOk(facts: Facts, w: World, step: Step)
    requires WorldOk(facts, w)
    ensures WorldOk(facts, Next(facts, w, step))
  {
    hide TableOk, Acts, Respond, Enters, WorldOk, CallOk, Handle;
    match step
    case Begin(kind, key) => if Handle(w, key).Some? { BeginKeepsOk(facts, w, kind, key); }
    case Advance(k, e) =>
      if k < |w.calls| && w.calls[k].stage == Waiting {
        EntersKeepsOk(facts, w, k);
      } else if k < |w.calls| && Active(w.calls[k].stage) && w.calls[k].record.Some? {
        StatementKeepsOk(facts, w, k, e);
      }
    case Others(refs, remotes, trees) => OthersKeepOk(facts, w, refs, remotes, trees);
    case OtherCall(call) => if !Excluded(w, call) { OtherCallKeepsOk(facts, w, call); }
    case Crash => CrashKeepsOk(facts, w);
  }

  lemma {:induction false} OthersKeepOk(facts: Facts, w: World, refs: Refs, remotes: map<RemoteRef, Commit>, trees: map<Path, Branch>)
    requires WorldOk(facts, w)
    ensures WorldOk(facts, w.(refs := refs, remotes := remotes, trees := trees))
  {
    hide TableOk, TaskOk, RowHeld, Trace;
    forall j | 0 <= j < |w.calls| ensures CallOk(facts, w.(refs := refs, remotes := remotes, trees := trees), j) {
      assert CallOk(facts, w, j);
    }
  }

  lemma {:induction false} EveryWorldIsOk(facts: Facts, steps: seq<Step>)
    ensures WorldOk(facts, Reached(facts, steps))
  {
    hide Next;
    if steps != [] {
      EveryWorldIsOk(facts, steps[..|steps| - 1]);
      NextKeepsOk(facts, Reached(facts, steps[..|steps| - 1]), steps[|steps| - 1]);
    }
  }

  // ---- what every run shows

  lemma {:induction false} OfCallHas(log: seq<Event>, k: nat, event: Event)
    ensures event in OfCall(log, k) <==> event in log && event.call == k
  {
    if log != [] {
      OfCallHas(log[..|log| - 1], k, event);
      assert log == log[..|log| - 1] + [log[|log| - 1]];
    }
  }

  /** The authority names this row, and what was seen is what it asks for, before and after it was consumed. */
  ghost predicate Authorised(facts: Facts, x: Task, row: Row) {
    && x.beforeConsume.Some? && x.beforeRemoval.Some? && x.consumed
    && DigestOf(facts, x.beforeConsume.value) == DigestOf(facts, x.beforeRemoval.value)
    && if x.kind == Cleanup then
         && CleanupClaims(row, x.claims) && x.claims.value.runTerminal && x.claims.value.noActiveAttempt
         && x.initial.Some? && DigestOf(facts, x.initial.value) == DigestOf(facts, x.beforeRemoval.value)
         && CleanAndPublished(facts, x.initial.value, x.claims.value.expectedHead)
         && CleanAndPublished(facts, x.beforeRemoval.value, x.claims.value.expectedHead)
       else
         && DiscardClaims(row, x.claims) && x.initial == None
         && x.beforeConsume.value.head == x.beforeRemoval.value.head == x.claims.value.expectedHead
         && Some(DigestOf(facts, x.beforeRemoval.value)) == row.observationDigest
         && x.claims.value.observationRevision == row.observationRevision
  }

  lemma {:induction false} RemovableIsAuthorised(facts: Facts, x: Task, row: Row)
    requires Removable(facts, x, row)
    ensures Authorised(facts, x, row)
  {
    hide DecideCleanup, DecideDiscard, CleanAndPublished, DigestOf;
    if x.kind == Cleanup {
      CleanupRemovesIff(facts, row, AnswersOf(x), x.beforeRemoval.value);
    } else {
      DiscardRemovesIff(facts, row, AnswersOf(x), x.beforeRemoval.value);
    }
  }

  predicate Destroys(event: Event) {
    event.TreeDeleted? || event.BranchDeleted?
  }

  /**
   * In every run, a call that removed a worktree or deleted a branch did exactly this, in this order: it
   * observed, it consumed its authority once, it observed the same again, and it removed the worktree and
   * then the branch of the row it read, at the commit it saw last. Cleanup had observed once more before.
   */
  lemma {:induction false} DestroysOnlyAsAuthorised(facts: Facts, steps: seq<Step>, d: nat)
    requires d < |Reached(facts, steps).log| && Destroys(Reached(facts, steps).log[d])
    ensures var w := Reached(facts, steps); var k := w.log[d].call;
            && k < |w.calls| && w.calls[k].record.Some?
            && var x := w.calls[k]; var row := x.record.value;
            && Authorised(facts, x, row)
            && OfCall(w.log, k) ==
                 (if x.kind == Cleanup then Look(k, row, x.initial.value) else [])
                 + Look(k, row, x.beforeConsume.value) + [Consumed(k)] + Look(k, row, x.beforeRemoval.value)
                 + [TreeDeleted(k, row.identity.worktreePath)]
                 + (if x.branchGone then [BranchDeleted(k, row.branchRef, x.beforeRemoval.value.head)] else [])
            && (w.log[d].BranchDeleted? ==> x.branchGone)
  {
    hide Reached, TaskOk, TableOk, RowHeld, Trace, Authorised, Removable;
    EveryWorldIsOk(facts, steps);
    var w := Reached(facts, steps);
    var k := w.log[d].call;
    assert CallOk(facts, w, k);
    OfCallHas(w.log, k, w.log[d]);
    DestroyerIsRemovable(facts, k, w.calls[k], w.log[d]);
    RemovableIsAuthorised(facts, w.calls[k], w.calls[k].record.value);
    WholeTrace(facts, k, w.calls[k], w.calls[k].record.value);
  }

  lemma {:induction false} DestroyerIsRemovable(facts: Facts, k: nat, x: Task, event: Event)
    requires TaskOk(facts, x) && event in Trace(k, x) && Destroys(event)
    ensures x.record.Some? && x.treeGone && x.head == None && Removable(facts, x, x.record.value)
    ensures event.BranchDeleted? ==> x.branchGone
  {
    hide StageOk, IsCommit, DecideCleanup, DecideDiscard;
  }

  lemma {:induction false} WholeTrace(facts: Facts, k: nat, x: Task, row: Row)
    requires x.record == Some(row) && x.treeGone && x.head == None && Authorised(facts, x, row)
    ensures Trace(k, x) ==
              (if x.kind == Cleanup then Look(k, row, x.initial.value) else [])
              + Look(k, row, x.beforeConsume.value) + [Consumed(k)] + Look(k, row, x.beforeRemoval.value)
              + [TreeDeleted(k, row.identity.worktreePath)]
              + (if x.branchGone then [BranchDeleted(k, row.branchRef, x.beforeRemoval.value.head)] else [])
  {
    hide DigestOf, CleanAndPublished, CleanupClaims, DiscardClaims, Look;
  }

  // ---- what was seen was so

  /** The repository was as the event says. */
  ghost predicate WasTrue(w: World, event: Event) {
    match event
    case HeadRead(_, path, commit) => path in w.trees && w.trees[path] in w.refs && w.refs[w.trees[path]] == commit
    case Seen(_, ref, o) => o.remote.Available? ==> o.remote.commit == if ref in w.remotes then Some(w.remotes[ref]) else None
    case Consumed(_) => true
    case TreeDeleted(_, path) => path in w.trees
    case BranchDeleted(_, branch, commit) => branch in w.refs && w.refs[branch] == commit
  }

  lemma {:induction false} EventIsTrue(facts: Facts, w: World, k: nat, x: Task, row: Row, e: Environment)
    requires x.record == Some(row)
    ensures var events := Acts(facts, w, k, x, row, e).events; events == [] || (|events| == 1 && WasTrue(w, events[0]))
  {
    hide Retains, Restored, Compare, First, Last, DiscardClaims, CleanupClaims, Respond, IsCommit;
  }

  /** A step logs nothing, or one event that is so. */
  lemma {:induction false} LogGrows(facts: Facts, w: World, step: Step)
    ensures var log := Next(facts, w, step).log;
            log == w.log || (|log| == |w.log| + 1 && log[..|w.log|] == w.log && WasTrue(w, log[|w.log|]))
  {
    hide Acts, WasTrue, Enters, Respond;
    EntersKeepsLog(w);
    if step.Advance? && step.task < |w.calls| && w.calls[step.task].record.Some? {
      var x := w.calls[step.task];
      EventIsTrue(facts, w, step.task, x, x.record.value, step.environment);
    }
  }

  /** Every event of a run was logged by one step of it, and was true of the refs, remotes and worktrees that step met. */
  lemma {:induction false} EveryEventWasTrue(facts: Facts, steps: seq<Step>, i: nat)
    requires i < |Reached(facts, steps).log|
    ensures exists n :: 0 <= n < |steps|
              && Reached(facts, steps[..n]).log == Reached(facts, steps).log[..i]
              && Reached(facts, steps[..n + 1]).log == Reached(facts, steps).log[..i + 1]
              && WasTrue(Reached(facts, steps[..n]), Reached(facts, steps).log[i])
  {
    hide WasTrue, Next;
    var m := |steps| - 1;
    var before := Reached(facts, steps[..m]);
    LogGrows(facts, before, steps[m]);
    if i < |before.log| {
      EveryEventWasTrue(facts, steps[..m], i);
      var n :| 0 <= n < m && Reached(facts, steps[..m][..n]).log == before.log[..i]
               && Reached(facts, steps[..m][..n + 1]).log == before.log[..i + 1]
               && WasTrue(Reached(facts, steps[..m][..n]), before.log[i]);
      assert steps[..m][..n] == steps[..n] && steps[..m][..n + 1] == steps[..n + 1];
    } else {
      assert steps[..m + 1] == steps;
      assert Reached(facts, steps).log[..i] == before.log && Reached(facts, steps).log[..i + 1] == Reached(facts, steps).log;
    }
  }

  lemma {:induction false} EntersKeepsLog(w: World)
    ensures forall k, x :: 0 <= k < |w.calls| ==> Enters(w, k, x).log == w.log
  {
  }

  lemma {:induction false} PositionOf(log: seq<Event>, k: nat, j: nat) returns (s: nat)
    requires j < |OfCall(log, k)|
    ensures s < |log| && log[s] == OfCall(log, k)[j] && OfCall(log[..s], k) == OfCall(log, k)[..j]
  {
    var m := |log| - 1;
    if j < |OfCall(log[..m], k)| {
      s := PositionOf(log[..m], k, j);
      assert log[..m][..s] == log[..s];
    } else {
      s := m;
    }
  }

  /**
   * Cleanup deletes only what is published: whenever it deletes a branch, there was a moment after the
   * authority was consumed and before the deletion at which the remote ref of the row was at a commit
   * that has the deleted one among its ancestors.
   */
  lemma {:induction false} CleanupDeletesOnlyPublishedWork(facts: Facts, steps: seq<Step>, d: nat)
    requires var w := Reached(facts, steps);
             d < |w.log| && w.log[d].BranchDeleted? && w.log[d].call < |w.calls| && w.calls[w.log[d].call].kind == Cleanup
    ensures var w := Reached(facts, steps); var k := w.log[d].call;
            && w.calls[k].record.Some?
            && var ref := RefOf(w.calls[k].record.value);
            exists n :: 0 <= n < |steps|
              && Consumed(k) in Reached(facts, steps[..n]).log && w.log[d] !in Reached(facts, steps[..n]).log
              && ref in Reached(facts, steps[..n]).remotes
              && facts.isAncestor(w.log[d].commit, Reached(facts, steps[..n]).remotes[ref])
  {
    hide Reached;
    var w := Reached(facts, steps);
    var k := w.log[d].call;
    DestroysOnlyAsAuthorised(facts, steps, d);
    var x := w.calls[k];
    var row := x.record.value;
    OfCallHas(w.log, k, w.log[d]);
    assert OfCall(w.log, k)[6] == Seen(k, RefOf(row), x.beforeRemoval.value);
    var s := PositionOf(w.log, k, 6);
    EveryEventWasTrue(facts, steps, s);
    var n :| 0 <= n < |steps| && Reached(facts, steps[..n]).log == w.log[..s] && WasTrue(Reached(facts, steps[..n]), w.log[s]);
    var early := OfCall(w.log[..s], k);
    assert early[4] == Consumed(k);
    OfCallHas(w.log[..s], k, Consumed(k));
    OfCallHas(w.log[..s], k, w.log[d]);
  }

  /**
   * The end of a call that deleted its branch: it reports success exactly when the database carried out the
   * last statement and, for cleanup, the row was still in use; and then the row says for good that the work
   * is gone, and at which commit. A row that was not in use said so already.
   */
  lemma {:induction false} RemovalIsRecordedIff(facts: Facts, steps: seq<Step>, d: nat)
    requires var w := Reached(facts, steps);
             d < |w.log| && w.log[d].BranchDeleted? && w.log[d].call < |w.calls| && w.calls[w.log[d].call].stage.Returned?
    ensures var w := Reached(facts, steps); var x := w.calls[w.log[d].call];
            && x.record.Some? && x.at < |w.rows| && w.rows[x.at].identity == x.record.value.identity
            && (x.stage.ok <==> x.stored && (x.kind == Cleanup ==> InUse(x.record.value)))
            && (x.stage.ok ==>
                  && w.rows[x.at].state == (if x.kind == Cleanup then Removed else Discarded)
                  && w.rows[x.at].currentHead == Some(w.log[d].commit))
            && (!InUse(x.record.value) ==> Final(x.record.value.state))
  {
    hide Reached, TableOk, Trace, Authorised, Removable;
    EveryWorldIsOk(facts, steps);
    DestroysOnlyAsAuthorised(facts, steps, d);
    var w := Reached(facts, steps);
    assert CallOk(facts, w, w.log[d].call);
    OfCallHas(w.log, w.log[d].call, w.log[d]);
  }
}
