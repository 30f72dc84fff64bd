/**
 * Launching: any number of launches, of the same or of different attempts, each one statement at a
 * time, over the one persistent table, with crashes anywhere.
 */
module LaunchFence {
  import opened Common
  import opened ProcessRegistry

  /** Where a launch stands. Waiting states are the source's awaits. */
  datatype Stage =
    | Preparing
    | Activating
    | Activated
    | Reserving
    | HoldsReservation
    | Consuming
    | HasPermit
    | Marking
    | Marked
    | AwaitingHost
    | Recording
    | Cancelling
    | Revoking
    | Returned(started: bool)
    | Dead

  datatype Session = NoSession | ActiveSession | RevokedSession

  datatype Process = NoProcess | RunningProcess | CancelledProcess

  /** The answer of a callee: whether it said ok, and whether it did what it was asked; it may do it and say otherwise. */
  datatype Answer = NotAsked | Answered(ok: bool, done: bool)

  /** What a launch was answered by activate, host.start, recordStarted, host.cancel and revoke. */
  datatype Answers = Answers(activate: Answer, start: Answer, recorded: Option<bool>, cancel: Answer, revoke: Answer)

  /**
   * late is whether it found its deadline passed; settled is whether the database carried out its release or
   * recordFailed, once it asked for one.
   */
  datatype Launch = Launch(
    attemptId: AttemptId,
    digest: string,
    stage: Stage,
    reservation: Option<ReservationId>,
    session: Session,
    permitConsumed: bool,
    wonStart: bool,
    process: Process,
    answers: Answers,
    late: bool,
    settled: Option<bool>)

  /** What a reservation is for. */
  datatype Assignment = Assignment(attemptId: AttemptId, digest: string)

  /** starts lists the launches that called host.start, in order. issued maps ids to what they were given for. */
  datatype World = World(
    rows: seq<Row>,
    launches: seq<Launch>,
    starts: seq<nat>,
    issued: map<ReservationId, Assignment>)

  /**
   * What a statement meets: the clock, the answer of a call and whether it took effect when it is not ok, a
   * new id, whether an error code is storable, and whether the database carries out a statement.
   */
  datatype Environment = Environment(expired: bool, ok: bool, done: bool, throws: bool, id: ReservationId, storable: bool, stored: bool)

  datatype Step =
    | Redeliver(attemptId: AttemptId, digest: string)
    | Advance(launch: nat, environment: Environment)
    | Exit(attemptId: AttemptId)
    | Crash

  function Set(w: World, l: nat, launch: Launch): World
    requires l < |w.launches|
  {
    w.(launches := w.launches[l := launch])
  }

  /** A callee that answers ok has done it. */
  function Reply(e: Environment): Answer {
    Answered(e.ok, e.ok || e.done)
  }

  predicate Did(answer: Answer) {
    answer.Answered? && answer.done
  }

  predicate SaidOk(answer: Answer) {
    answer.Answered? && answer.ok
  }

  /** release: its answer is not looked at. */
  function Released(w: World, x: Launch, e: Environment): World {
    if e.stored && x.reservation.Some? then w.(rows := Release(w.rows, x.reservation.value).0) else w
  }

  /** recordFailed: the launch goes on in the same way whatever it answers. */
  function Failed(w: World, x: Launch, e: Environment): World {
    if e.stored && x.reservation.Some? then w.(rows := RecordFailed(w.rows, x.reservation.value).0) else w
  }

  /** One statement of launch l. */
  function Statement(w: World, l: nat, e: Environment): World
    requires l < |w.launches|
  {
    var x := w.launches[l];
    match x.stage
    case Preparing =>
      Set(w, l, x.(stage := if e.throws then Dead else if e.ok then Activating else Returned(false)))
    case Activating =>
      if e.throws then Set(w, l, x.(stage := Dead))
      else
        Set(w, l, x.(stage := if e.ok then Activated else Returned(false), answers := x.answers.(activate := Reply(e)),
                     session := if Did(Reply(e)) then ActiveSession else NoSession))
    case Activated => Set(w, l, x.(stage := if e.expired then Revoking else Reserving, late := e.expired))
    case Reserving =>
      if e.id in w.issued then w
      else
        var (rows, result) := Reserve(w.rows, x.attemptId, x.digest, e.id);
        (match result
         case Ok(reservation) =>
           if reservation.disposition == Reconcile || (reservation.disposition == New && !e.stored) then
             Set(w, l, x.(stage := Revoking))
           else
             var issued := if reservation.disposition == New then w.issued[e.id := Assignment(x.attemptId, x.digest)] else w.issued;
             Set(w.(rows := rows, issued := issued), l,
                 x.(stage := HoldsReservation, reservation := Some(reservation.id)))
         case Err(_) => Set(w, l, x.(stage := Revoking)))
    case HoldsReservation =>
      if e.expired then Set(Released(w, x, e), l, x.(stage := Revoking, late := true, settled := Some(e.stored)))
      else Set(w, l, x.(stage := Consuming))
    case Consuming =>
      if e.throws then Set(w, l, x.(stage := Dead))
      else if e.ok then Set(w, l, x.(stage := HasPermit, permitConsumed := true))
      else Set(Released(w, x, e), l, x.(stage := Revoking, settled := Some(e.stored)))
    case HasPermit =>
      if e.expired then Set(Failed(w, x, e), l, x.(stage := Revoking, late := true, settled := Some(e.stored)))
      else Set(w, l, x.(stage := Marking))
    case Marking =>
      if e.stored && x.reservation.Some? && MarkStarting(w.rows, x.reservation.value).1 then
        Set(w.(rows := MarkStarting(w.rows, x.reservation.value).0), l, x.(stage := Marked, wonStart := true))
      else Set(w, l, x.(stage := Revoking))
    case Marked => Set(w.(starts := w.starts + [l]), l, x.(stage := AwaitingHost))
    case AwaitingHost =>
      if e.throws then Set(w, l, x.(stage := Dead))
      else
        Set(if !e.ok && e.storable then Failed(w, x, e) else w, l,
            x.(stage := if e.ok then Recording else Revoking, settled := if e.ok then None else Some(e.stored && e.storable), answers := x.answers.(start := Reply(e)),
               process := if Did(Reply(e)) then RunningProcess else NoProcess))
    case Recording =>
      if e.stored && x.reservation.Some? && RecordStarted(w.rows, x.reservation.value).1 then
        Set(w.(rows := RecordStarted(w.rows, x.reservation.value).0), l,
            x.(stage := Returned(true), answers := x.answers.(recorded := Some(true))))
      else Set(w, l, x.(stage := Cancelling, answers := x.answers.(recorded := Some(false))))
    case Cancelling =>
      if e.throws then Set(w, l, x.(stage := Dead))
      else
        Set(w, l, x.(stage := Revoking, answers := x.answers.(cancel := Reply(e)),
                     process := if Did(Reply(e)) then CancelledProcess else x.process))
    case Revoking =>
      if e.throws then Set(w, l, x.(stage := Dead))
      else
        Set(w, l, x.(stage := Returned(false), answers := x.answers.(revoke := Reply(e)),
                     session := if Did(Reply(e)) then RevokedSession else x.session))
    case Returned(_) => w
    case Dead => w
  }

  const NOTHING_ASKED := Answers(NotAsked, NotAsked, None, NotAsked, NotAsked)

  function Killed(launches: seq<Launch>): (r: seq<Launch>)
    ensures |r| == |launches|
    ensures forall i :: 0 <= i < |r| ==>
              r[i] == if launches[i].stage.Returned? then launches[i] else launches[i].(stage := Dead)
  {
    if launches == [] then []
    else
      var last := launches[|launches| - 1];
      Killed(launches[..|launches| - 1]) + [if last.stage.Returned? then last else last.(stage := Dead)]
  }

  function Next(w: World, step: Step): World {
    match step
    case Redeliver(attemptId, digest) =>
      w.(launches := w.launches + [Launch(attemptId, digest, Preparing, None, NoSession, false, false, NoProcess, NOTHING_ASKED, false, None)])
    case Advance(l, e) => if l < |w.launches| then Statement(w, l, e) else w
    case Exit(attemptId) => w.(rows := RecordExited(w.rows, attemptId).0)
    case Crash => w.(launches := Killed(w.launches))
  }

  function Run(steps: seq<Step>): World {
    if steps == [] then World([], [], [], map[]) else Next(Run(steps[..|steps| - 1]), steps[|steps| - 1])
  }

  // ---- invariant

  function AssignmentOf(row: Row): Assignment {
    Assignment(row.attemptId, row.digest)
  }

  ghost predicate IdsOk(w: World) {
    && (forall i :: 0 <= i < |w.rows| ==>
          w.rows[i].reservationId in w.issued && w.issued[w.rows[i].reservationId] == AssignmentOf(w.rows[i]))
    && (forall l :: 0 <= l < |w.launches| && w.launches[l].reservation.Some? ==>
          && w.launches[l].reservation.value in w.issued
          && w.issued[w.launches[l].reservation.value] == Assignment(w.launches[l].attemptId, w.launches[l].digest))
  }

  /** The row says that the process was started. */
  predicate Told(row: Row) {
    row.state == Started || row.state == Exited
  }

  /** The row of a launch that won: of its reservation, attempt and assignment; STARTED or EXITED if it returned a process. */
  ghost predicate IsRowOf(row: Row, x: Launch) {
    && x.reservation == Some(row.reservationId) && row.attemptId == x.attemptId && row.digest == x.digest && row.state != Reserved
    && (x.stage == Returned(true) ==> Told(row))
  }

  ghost predicate HasRow(rows: seq<Row>, x: Launch) {
    exists i :: 0 <= i < |rows| && IsRowOf(rows[i], x)
  }

  ghost predicate WinnersOk(w: World) {
    && (forall l :: 0 <= l < |w.launches| && w.launches[l].wonStart ==> HasRow(w.rows, w.launches[l]))
    && (forall k, l :: 0 <= k < l < |w.launches| && w.launches[k].wonStart && w.launches[l].wonStart ==>
          w.launches[k].attemptId != w.launches[l].attemptId)
  }

  ghost predicate StartsOk(w: World) {
    && (forall k :: 0 <= k < |w.starts| ==>
          && w.starts[k] < |w.launches|
          && w.launches[w.starts[k]].wonStart
          && w.launches[w.starts[k]].stage != Marked)
    && (forall j, k :: 0 <= j < k < |w.starts| ==> w.starts[j] != w.starts[k])
  }

  /** A launch's session and process are what its callees did. */
  ghost predicate EffectsOk(x: Launch) {
    && x.session == (if !Did(x.answers.activate) then NoSession else if Did(x.answers.revoke) then RevokedSession else ActiveSession)
    && x.process == (if !Did(x.answers.start) then NoProcess else if Did(x.answers.cancel) then CancelledProcess else RunningProcess)
  }

  /** Whom a launch has asked at each stage. */
  ghost predicate StageOk(x: Launch) {
    var a := x.answers;
    match x.stage
    case Preparing => a == NOTHING_ASKED
    case Activating => a == NOTHING_ASKED
    case Recording => SaidOk(a.activate) && SaidOk(a.start) && a == Answers(a.activate, a.start, None, NotAsked, NotAsked)
    case Cancelling => SaidOk(a.activate) && SaidOk(a.start) && a == Answers(a.activate, a.start, Some(false), NotAsked, NotAsked)
    case Revoking =>
      && SaidOk(a.activate) && a.revoke == NotAsked
      && if SaidOk(a.start) then a.recorded == Some(false) && a.cancel.Answered? else a.recorded == None && a.cancel == NotAsked
    case Returned(started) =>
      if started then a == Answers(a.activate, a.start, Some(true), NotAsked, NotAsked) && SaidOk(a.activate) && SaidOk(a.start)
      else
        && (SaidOk(a.activate) <==> a.revoke.Answered?)
        && if SaidOk(a.start) then a.recorded == Some(false) && a.cancel.Answered? else a.recorded == None && a.cancel == NotAsked
    case Dead => true
    case _ => SaidOk(a.activate) && a == NOTHING_ASKED.(activate := a.activate)
  }

  /** An answer that says ok is one that did it. */
  ghost predicate AnswersOk(a: Answers) {
    (SaidOk(a.activate) ==> Did(a.activate)) && (SaidOk(a.start) ==> Did(a.start))
    && (SaidOk(a.cancel) ==> Did(a.cancel)) && (SaidOk(a.revoke) ==> Did(a.revoke))
  }

  /** What one launch holds at each stage. */
  ghost predicate LaunchOk(x: Launch) {
    && EffectsOk(x) && StageOk(x) && AnswersOk(x.answers)
    && (x.wonStart ==> x.permitConsumed)
    && (x.stage.HasPermit? || x.stage.Marking? ==> x.permitConsumed)
    && (BeforeWin(x.stage) ==> !x.wonStart && !x.late) && (AfterWin(x.stage) ==> x.wonStart)
    && (x.late ==> !x.wonStart) && SettlesOk(x)
  }

  /** Before it can call host.start, a launch that gives up its reservation releases it, or records the failure. */
  ghost predicate SettlesOk(x: Launch) {
    && (x.settled.Some? ==> x.reservation.Some? && (x.stage.Revoking? || x.stage.Returned? || x.stage.Dead?))
    && (BeforeReserving(x.stage) ==> x.reservation == None)
    && (x.reservation.Some? && (x.stage.Revoking? || x.stage == Returned(false)) && (x.late || !x.permitConsumed) ==> x.settled.Some?)
    && (x.wonStart && (x.stage.Revoking? || x.stage == Returned(false)) && !SaidOk(x.answers.start) ==> x.settled.Some?)
    && (x.stage.HoldsReservation? || x.stage.Consuming? || x.stage.HasPermit? || x.stage.Marking? || AfterWin(x.stage) ==> x.reservation.Some?)
    && (BeforeReserving(x.stage) || x.stage.HoldsReservation? || x.stage.Consuming? ==> !x.permitConsumed)
  }

  ghost predicate BeforeReserving(stage: Stage) {
    stage.Preparing? || stage.Activating? || stage.Activated? || stage.Reserving?
  }

  ghost predicate BeforeWin(stage: Stage) {
    || stage.Preparing? || stage.Activating? || stage.Activated? || stage.Reserving? || stage.HoldsReservation?
    || stage.Consuming? || stage.HasPermit? || stage.Marking?
  }

  ghost predicate AfterWin(stage: Stage) {
    stage.Marked? || stage.AwaitingHost? || stage.Recording? || stage.Cancelling? || (stage.Returned? && stage.started)
  }

  /** After a release or a recorded failure no row of the reservation can be started, or be starting for this launch. */
  ghost predicate Settled(rows: seq<Row>, x: Launch) {
    x.settled == Some(true) && x.reservation.Some? ==>
      forall i :: 0 <= i < |rows| && rows[i].reservationId == x.reservation.value ==> SettledRow(rows[i], x.wonStart)
  }

  ghost predicate SettledRow(row: Row, won: bool) {
    row.state != Reserved && (won ==> row.state != Starting)
  }

  ghost predicate WorldOk(w: World) {
    && TableOk(w.rows) && IdsOk(w) && WinnersOk(w) && StartsOk(w)
    && (forall l :: 0 <= l < |w.launches| ==> Settled(w.rows, w.launches[l]))
    && forall l :: 0 <= l < |w.launches| ==> LaunchOk(w.launches[l])
  }

  /** Statements other than a reservation: no new row, no new owner, no row back in RESERVED, none untold. */
  ghost predicate OnlyForward(rows: seq<Row>, next: seq<Row>) {
    && TableOk(next)
    && (forall j :: 0 <= j < |next| ==> Descends(rows, next[j]))
    && (forall i :: 0 <= i < |rows| && rows[i].state != Reserved ==> Remains(next, rows[i]))
  }

  ghost predicate Descends(rows: seq<Row>, next: Row) {
    exists i :: 0 <= i < |rows| && ComesFrom(rows[i], next)
  }

  /** Nothing goes back to RESERVED, and to STARTING only from there. */
  ghost predicate ComesFrom(row: Row, next: Row) {
    && SameRow(row, next) && (next.state == Reserved ==> row.state == Reserved)
    && (next.state == Starting ==> row.state == Reserved || row.state == Starting)
  }

  ghost predicate Remains(next: seq<Row>, row: Row) {
    exists j :: 0 <= j < |next| && SameRow(row, next[j]) && next[j].state != Reserved && (Told(row) ==> Told(next[j]))
  }

  ghost predicate SameRow(row: Row, next: Row) {
    row.attemptId == next.attemptId && row.reservationId == next.reservationId && row.digest == next.digest
  }

  lemma {:induction false} MoveIsForward(rows: seq<Row>, id: ReservationId, from: set<ProcessState>, to: ProcessState)
    requires TableOk(rows) && to != Reserved && !(Started in from) && !(Exited in from) && (to == Starting ==> from == {Reserved})
    ensures OnlyForward(rows, Move(rows, id, from, to).0)
  {
    var next := Move(rows, id, from, to).0;
    forall j | 0 <= j < |next| ensures Descends(rows, next[j]) {
      assert ComesFrom(rows[j], next[j]);
    }
    forall i | 0 <= i < |rows| && rows[i].state != Reserved ensures Remains(next, rows[i]) {
      assert SameRow(rows[i], next[i]);
    }
  }

  lemma {:induction false} ReleaseIsForward(rows: seq<Row>, id: ReservationId)
    requires TableOk(rows)
    ensures OnlyForward(rows, Release(rows, id).0)
  {
    var next := Release(rows, id).0;
    if next == rows {
      Unchanged(rows);
    } else {
      var k := ByReservation(rows, id).value;
      forall j | 0 <= j < |next| ensures Descends(rows, next[j]) {
        assert ComesFrom(rows[if j < k then j else j + 1], next[j]);
      }
      forall i | 0 <= i < |rows| && rows[i].state != Reserved ensures Remains(next, rows[i]) {
        assert next[if i < k then i else i - 1] == rows[i];
      }
    }
  }

  lemma {:induction false} Unchanged(rows: seq<Row>)
    requires TableOk(rows)
    ensures OnlyForward(rows, rows)
  {
    forall j | 0 <= j < |rows| ensures Descends(rows, rows[j]) {
      assert ComesFrom(rows[j], rows[j]);
    }
  }

  lemma {:induction false} ExitIsForward(rows: seq<Row>, attemptId: AttemptId)
    requires TableOk(rows)
    ensures OnlyForward(rows, RecordExited(rows, attemptId).0)
  {
    var next := RecordExited(rows, attemptId).0;
    forall j | 0 <= j < |next| ensures Descends(rows, next[j]) {
      assert ComesFrom(rows[j], next[j]);
    }
    forall i | 0 <= i < |rows| && rows[i].state != Reserved ensures Remains(next, rows[i]) {
      assert SameRow(rows[i], next[i]);
    }
  }

  /** The row of a launch stays its row while it does not return a process. */
  lemma {:induction false} RowStays(rows: seq<Row>, next: seq<Row>, x: Launch, y: Launch)
    requires OnlyForward(rows, next) && HasRow(rows, x)
    requires y.reservation == x.reservation && y.attemptId == x.attemptId && y.digest == x.digest
    requires y.stage == Returned(true) ==> x.stage == Returned(true)
    ensures HasRow(next, y)
  {
    hide TableOk;
    var i :| 0 <= i < |rows| && IsRowOf(rows[i], x);
    assert Remains(next, rows[i]);
    var j :| 0 <= j < |next| && SameRow(rows[i], next[j]) && next[j].state != Reserved && (Told(rows[i]) ==> Told(next[j]));
    assert IsRowOf(next[j], y);
  }

  /** A launch moves on, without winning: the table goes forward and its own fields are in order. */
  lemma {:induction false} LaunchMoves(w: World, l: nat, rows: seq<Row>, x: Launch)
    requires WorldOk(w) && l < |w.launches| && OnlyForward(w.rows, rows)
    requires LaunchOk(x) && SameLaunch(w.launches[l], x) && x.wonStart == w.launches[l].wonStart
    requires (x.stage == Returned(true) ==> HasRow(rows, x)) && Settled(rows, x)
    requires x.stage != Marked
    ensures WorldOk(Set(w.(rows := rows), l, x))
  {
    hide LaunchOk, HasRow, OnlyForward, TableOk, Settled;
    var next := Set(w.(rows := rows), l, x);
    forall k | 0 <= k < |next.launches| && next.launches[k].wonStart ensures HasRow(rows, next.launches[k]) {
      if k != l || x.stage != Returned(true) {
        RowStays(w.rows, rows, w.launches[k], next.launches[k]);
      }
    }
    forall k | 0 <= k < |next.launches| && k != l ensures Settled(rows, next.launches[k]) {
      SettledStays(w.rows, rows, w.launches[k], w.launches[k]);
    }
    IdsForward(w, rows, l, x);
    TableForward(w.rows, rows);
  }

  predicate SameLaunch(x: Launch, y: Launch) {
    y.attemptId == x.attemptId && y.digest == x.digest && y.reservation == x.reservation
  }

  /** A launch wins: its attempt was not fenced, so no other launch of the attempt has won. */
  lemma {:induction false} LaunchWins(w: World, l: nat)
    requires WorldOk(w) && l < |w.launches| && w.launches[l].stage == Marking
    requires w.launches[l].reservation.Some? && MarkStarting(w.rows, w.launches[l].reservation.value).1
    ensures var rows := MarkStarting(w.rows, w.launches[l].reservation.value).0;
            WorldOk(Set(w.(rows := rows), l, w.launches[l].(stage := Marked, wonStart := true)))
  {
    hide MarkStarting, HasRow, LaunchOk, TableOk, OnlyForward, Settled;
    var x := w.launches[l];
    var y, rows := x.(stage := Marked, wonStart := true), MarkStarting(w.rows, x.reservation.value).0;
    WinningRow(w, l);
    WinningLaunch(x);
    TableForward(w.rows, rows);
    var next := Set(w.(rows := rows), l, y);
    forall k | 0 <= k < |next.launches| && next.launches[k].wonStart ensures HasRow(rows, next.launches[k]) {
      if k != l {
        RowStays(w.rows, rows, w.launches[k], w.launches[k]);
      }
    }
    forall k | 0 <= k < |next.launches| && k != l ensures Settled(rows, next.launches[k]) {
      SettledStays(w.rows, rows, w.launches[k], w.launches[k]);
    }
    NeverAsked(rows, y);
    IdsForward(w, rows, l, y);
  }

  lemma {:induction false} NeverAsked(rows: seq<Row>, x: Launch)
    requires x.settled == None
    ensures Settled(rows, x)
  {
  }

  lemma {:induction false} WinningLaunch(x: Launch)
    requires LaunchOk(x) && x.stage == Marking
    ensures LaunchOk(x.(stage := Marked, wonStart := true)) && !x.wonStart && x.settled == None
  {
  }

  lemma {:induction false} TableForward(rows: seq<Row>, next: seq<Row>)
    requires OnlyForward(rows, next)
    ensures TableOk(next)
  {
  }

  lemma {:induction false} IdsForward(w: World, rows: seq<Row>, l: nat, y: Launch)
    requires IdsOk(w) && OnlyForward(w.rows, rows) && l < |w.launches| && SameLaunch(w.launches[l], y)
    ensures IdsOk(Set(w.(rows := rows), l, y))
  {
    RowIdsForward(w, rows);
  }

  lemma {:induction false} RowIdsForward(w: World, rows: seq<Row>)
    requires IdsOk(w) && OnlyForward(w.rows, rows)
    ensures forall j :: 0 <= j < |rows| ==> rows[j].reservationId in w.issued && w.issued[rows[j].reservationId] == AssignmentOf(rows[j])
  {
    hide TableOk;
    forall j | 0 <= j < |rows|
      ensures rows[j].reservationId in w.issued && w.issued[rows[j].reservationId] == AssignmentOf(rows[j])
    {
      assert Descends(w.rows, rows[j]);
      var i :| 0 <= i < |w.rows| && ComesFrom(w.rows[i], rows[j]);
    }
  }

  /** The row it wins is of its own assignment, and no other launch of the attempt has it. */
  lemma {:induction false} WinningRow(w: World, l: nat)
    requires TableOk(w.rows) && IdsOk(w) && l < |w.launches|
    requires w.launches[l].reservation.Some? && MarkStarting(w.rows, w.launches[l].reservation.value).1
    ensures var x := w.launches[l]; var rows := MarkStarting(w.rows, x.reservation.value).0;
            && OnlyForward(w.rows, rows) && HasRow(rows, x.(stage := Marked, wonStart := true))
            && forall k :: 0 <= k < |w.launches| && HasRow(w.rows, w.launches[k]) ==> w.launches[k].attemptId != x.attemptId
  {
    hide OnlyForward;
    var x := w.launches[l];
    MoveIsForward(w.rows, x.reservation.value, {Reserved}, Starting);
    var i, rows := ByReservation(w.rows, x.reservation.value).value, MarkStarting(w.rows, x.reservation.value).0;
    assert AssignmentOf(w.rows[i]) == Assignment(x.attemptId, x.digest) && w.rows[i].state == Reserved;
    assert rows[i] == w.rows[i].(state := Starting);
    assert IsRowOf(rows[i], x.(stage := Marked, wonStart := true));
  }

  lemma {:induction false} LaunchStarts(w: World, l: nat)
    requires WorldOk(w) && l < |w.launches| && w.launches[l].stage == Marked
    ensures WorldOk(Set(w.(starts := w.starts + [l]), l, w.launches[l].(stage := AwaitingHost)))
  {
    hide HasRow, TableOk;
    SameRows(w.rows, w.launches[l], w.launches[l].(stage := AwaitingHost));
    var next := Set(w.(starts := w.starts + [l]), l, w.launches[l].(stage := AwaitingHost));
    assert forall k :: 0 <= k < |w.starts| ==> next.starts[k] == w.starts[k] != l;
  }

  lemma {:induction false} LaunchReserves(w: World, l: nat, e: Environment)
    requires WorldOk(w) && l < |w.launches| && w.launches[l].stage == Reserving
    ensures WorldOk(Statement(w, l, e))
  {
    hide IsIdentifier, IsSha256, LaunchOk, OnlyForward, WorldOk, Reserve;
    var x := w.launches[l];
    var (rows, result) := Reserve(w.rows, x.attemptId, x.digest, e.id);
    if e.id !in w.issued {
      if result.Ok? && result.value.disposition != Reconcile && (result.value.disposition == New ==> e.stored) {
        LaunchHolds(w, l, e);
      } else {
        TableOfWorld(w, l);
        RevokingLaunch(x);
        NeverAsked(w.rows, x.(stage := Revoking));
        Unchanged(w.rows);
        LaunchMoves(w, l, w.rows, x.(stage := Revoking));
      }
    }
  }

  lemma {:induction false} LaunchHolds(w: World, l: nat, e: Environment)
    requires WorldOk(w) && l < |w.launches| && w.launches[l].stage == Reserving && e.id !in w.issued
    requires var r := Reserve(w.rows, w.launches[l].attemptId, w.launches[l].digest, e.id).1;
             r.Ok? && r.value.disposition != Reconcile && (r.value.disposition == New ==> e.stored)
    ensures WorldOk(Statement(w, l, e))
  {
    hide IsIdentifier, IsSha256, LaunchOk, HasRow;
    var x, next := w.launches[l], Statement(w, l, e);
    var (rows, result) := Reserve(w.rows, x.attemptId, x.digest, e.id);
    ReservedLaunch(x, result.value.id);
    RowsOnlyAdded(w.rows, rows);
    forall k | 0 <= k < |next.launches| ensures Settled(rows, next.launches[k]) {
      if k == l {
        NeverAsked(rows, next.launches[l]);
      } else {
        SettledBesides(w, rows, k);
      }
    }
    assert IdsOk(next) by {
      forall k | 0 <= k < |next.launches| && next.launches[k].reservation.Some?
        ensures next.launches[k].reservation.value in next.issued
        ensures next.issued[next.launches[k].reservation.value] == Assignment(next.launches[k].attemptId, next.launches[k].digest)
      {
        if k != l {
          assert next.launches[k] == w.launches[k];
        }
      }
    }
  }

  lemma {:induction false} SettledStays(rows: seq<Row>, next: seq<Row>, x: Launch, y: Launch)
    requires OnlyForward(rows, next) && Settled(rows, x)
    requires y.reservation == x.reservation && y.settled == x.settled && y.wonStart == x.wonStart
    ensures Settled(next, y)
  {
    hide TableOk;
    forall j | y.settled == Some(true) && y.reservation.Some? && 0 <= j < |next| && next[j].reservationId == y.reservation.value
      ensures SettledRow(next[j], y.wonStart)
    {
      assert Descends(rows, next[j]);
      var i :| 0 <= i < |rows| && ComesFrom(rows[i], next[j]);
      assert SettledRow(rows[i], x.wonStart);
    }
  }

  /** A row of a new id is not one of a launch. */
  lemma {:induction false} SettledBesides(w: World, rows: seq<Row>, k: nat)
    requires k < |w.launches| && Settled(w.rows, w.launches[k]) && IdsOk(w)
    requires rows == w.rows || (|rows| == |w.rows| + 1 && rows[..|w.rows|] == w.rows && rows[|w.rows|].reservationId !in w.issued)
    ensures Settled(rows, w.launches[k])
  {
    var x := w.launches[k];
    forall i | x.settled == Some(true) && x.reservation.Some? && 0 <= i < |rows| && rows[i].reservationId == x.reservation.value
      ensures SettledRow(rows[i], x.wonStart)
    {
      assert i < |w.rows| && rows[i] == w.rows[i];
    }
  }

  lemma {:induction false} ReleaseSettles(rows: seq<Row>, id: ReservationId)
    requires TableOk(rows)
    ensures forall i :: 0 <= i < |Release(rows, id).0| && Release(rows, id).0[i].reservationId == id ==> Release(rows, id).0[i].state != Reserved
    ensures forall i :: 0 <= i < |RecordFailed(rows, id).0| && RecordFailed(rows, id).0[i].reservationId == id ==>
              RecordFailed(rows, id).0[i].state != Reserved && RecordFailed(rows, id).0[i].state != Starting
  {
  }

  lemma {:induction false} RowsOnlyAdded(rows: seq<Row>, next: seq<Row>)
    requires rows <= next
    ensures forall x :: HasRow(rows, x) ==> HasRow(next, x)
  {
    forall x | HasRow(rows, x) ensures HasRow(next, x) {
      var i :| 0 <= i < |rows| && IsRowOf(rows[i], x);
      assert next[i] == rows[i];
    }
  }

  lemma {:induction false} SameRows(rows: seq<Row>, x: Launch, y: Launch)
    requires SameLaunch(x, y) && (y.stage == Returned(true) ==> x.stage == Returned(true))
    ensures HasRow(rows, x) ==> HasRow(rows, y)
  {
    if HasRow(rows, x) {
      var i :| 0 <= i < |rows| && IsRowOf(rows[i], x);
      assert IsRowOf(rows[i], y);
    }
  }

  lemma {:induction false} ReservedLaunch(x: Launch, id: ReservationId)
    requires LaunchOk(x) && x.stage == Reserving
    ensures LaunchOk(x.(stage := HoldsReservation, reservation := Some(id))) && !x.wonStart && x.settled == None
  {
  }

  lemma {:induction false} RevokingLaunch(x: Launch)
    requires LaunchOk(x) && x.stage == Reserving
    ensures LaunchOk(x.(stage := Revoking)) && x.settled == None
  {
  }

  /** Most statements change one launch, and neither win, start nor reserve. */
  lemma {:induction false} QuietLaunch(w: World, l: nat, e: Environment)
    requires l < |w.launches| && LaunchOk(w.launches[l])
    requires w.launches[l].stage != Reserving && w.launches[l].stage != Marked
    requires Statement(w, l, e).launches[l].stage != Marked
    ensures var x, next := w.launches[l], Statement(w, l, e);
            && next == Set(w.(rows := next.rows), l, next.launches[l])
            && LaunchOk(next.launches[l])
            && SameLaunch(x, next.launches[l])
            && next.launches[l].wonStart == x.wonStart
  {
    hide Statement, LaunchOk;
    QuietShape(w, l, e);
    QuietWon(w, l, e);
    QuietLaunchOk(w, l, e);
  }

  lemma {:induction false} QuietShape(w: World, l: nat, e: Environment)
    requires l < |w.launches| && w.launches[l].stage != Reserving && w.launches[l].stage != Marked
    ensures var next := Statement(w, l, e); |next.launches| == |w.launches| && next == Set(w.(rows := next.rows), l, next.launches[l])
  {
    hide Released, Failed, RecordStarted, MarkStarting, Did, Reply;
    OnlyRows(w, w.launches[l], e);
    assert w.launches[l := w.launches[l]] == w.launches;
  }

  lemma {:induction false} OnlyRows(w: World, x: Launch, e: Environment)
    ensures Released(w, x, e) == w.(rows := Released(w, x, e).rows) && Failed(w, x, e) == w.(rows := Failed(w, x, e).rows)
  {
    hide Release, RecordFailed;
  }

  lemma {:induction false} QuietLaunchOk(w: World, l: nat, e: Environment)
    requires l < |w.launches| && LaunchOk(w.launches[l])
    requires w.launches[l].stage != Reserving && w.launches[l].stage != Marked
    requires Statement(w, l, e).launches[l].stage != Marked
    ensures LaunchOk(Statement(w, l, e).launches[l])
  {
    hide Release, RecordFailed, RecordStarted, MarkStarting;
    match w.launches[l].stage
    case Activating =>
    case AwaitingHost =>
    case Recording =>
    case Cancelling =>
    case Revoking =>
    case _ =>
  }

  lemma {:induction false} QuietRows(w: World, l: nat, e: Environment)
    requires l < |w.launches| && TableOk(w.rows) && w.launches[l].stage != Reserving
    requires Statement(w, l, e).launches[l].stage != Marked
    ensures OnlyForward(w.rows, Statement(w, l, e).rows)
  {
    hide TableOk, OnlyForward, Release, Move, LaunchOk;
    Unchanged(w.rows);
    var reservation := w.launches[l].reservation;
    if reservation.Some? {
      ReleaseIsForward(w.rows, reservation.value);
      MoveIsForward(w.rows, reservation.value, {Reserved, Starting}, FailedToStart);
      MoveIsForward(w.rows, reservation.value, {Starting}, Started);
    }
  }

  lemma {:induction false} StatementKeepsOk(w: World, l: nat, e: Environment)
    requires WorldOk(w) && l < |w.launches|
    ensures WorldOk(Statement(w, l, e))
  {
    hide WorldOk, OnlyForward, TableOk, LaunchOk;
    var x, next := w.launches[l], Statement(w, l, e);
    TableOfWorld(w, l);
    if x.stage == Reserving {
      LaunchReserves(w, l, e);
    } else if x.stage == Marked {
      LaunchStarts(w, l);
    } else if next.launches[l].stage == Marked {
      WinningStatement(w, l, e);
      LaunchWins(w, l);
    } else {
      QuietLaunch(w, l, e);
      QuietRows(w, l, e);
      if next.launches[l].stage == Returned(true) {
        QuietReturn(w, l, e);
      }
      QuietSettles(w, l, e);
      LaunchMoves(w, l, next.rows, next.launches[l]);
    }
  }

  lemma {:induction false} QuietSettles(w: World, l: nat, e: Environment)
    requires WorldOk(w) && l < |w.launches| && w.launches[l].stage != Reserving && w.launches[l].stage != Marked
    requires Statement(w, l, e).launches[l].stage != Marked && OnlyForward(w.rows, Statement(w, l, e).rows)
    ensures Settled(Statement(w, l, e).rows, Statement(w, l, e).launches[l])
  {
    hide WorldOk, OnlyForward, Settled, Release, Move, TableOk, LaunchOk, Did, Reply;
    var x, next := w.launches[l], Statement(w, l, e);
    TableOfWorld(w, l);
    if next.launches[l].settled != x.settled {
      AsksToSettle(w, l, e);
    } else {
      QuietWon(w, l, e);
      SettledStays(w.rows, next.rows, x, next.launches[l]);
    }
  }

  lemma {:induction false} QuietWon(w: World, l: nat, e: Environment)
    requires l < |w.launches| && w.launches[l].stage != Reserving && Statement(w, l, e).launches[l].stage != Marked
    ensures SameLaunch(w.launches[l], Statement(w, l, e).launches[l]) && Statement(w, l, e).launches[l].wonStart == w.launches[l].wonStart
  {
    hide Statement, SameLaunch;
    if BeforeWin(w.launches[l].stage) { QuietBefore(w, l, e); } else { QuietAfter(w, l, e); }
  }

  lemma {:induction false} QuietBefore(w: World, l: nat, e: Environment)
    requires l < |w.launches| && w.launches[l].stage != Reserving && Statement(w, l, e).launches[l].stage != Marked && BeforeWin(w.launches[l].stage)
    ensures SameLaunch(w.launches[l], Statement(w, l, e).launches[l]) && Statement(w, l, e).launches[l].wonStart == w.launches[l].wonStart
  {
    hide Released, Failed, RecordStarted, MarkStarting, Did, Reply, Reserve;
    OnlyRows(w, w.launches[l], e);
  }

  lemma {:induction false} QuietAfter(w: World, l: nat, e: Environment)
    requires l < |w.launches| && !BeforeWin(w.launches[l].stage)
    ensures SameLaunch(w.launches[l], Statement(w, l, e).launches[l]) && Statement(w, l, e).launches[l].wonStart == w.launches[l].wonStart
  {
    hide Statement, SameLaunch;
    if w.launches[l].stage.AwaitingHost? { QuietHost(w, l, e); } else { QuietEnd(w, l, e); }
  }

  lemma {:induction false} QuietHost(w: World, l: nat, e: Environment)
    requires l < |w.launches| && w.launches[l].stage == AwaitingHost
    ensures SameLaunch(w.launches[l], Statement(w, l, e).launches[l]) && Statement(w, l, e).launches[l].wonStart == w.launches[l].wonStart
  {
    hide Failed, Released, Did, Reply, RecordStarted, MarkStarting, Reserve;
    var x := w.launches[l];
    OnlyRows(w, x, e);
    assert e.throws ==> Statement(w, l, e) == Set(w, l, x.(stage := Dead));
  }

  lemma {:induction false} QuietEnd(w: World, l: nat, e: Environment)
    requires l < |w.launches| && !BeforeWin(w.launches[l].stage) && !w.launches[l].stage.AwaitingHost?
    ensures SameLaunch(w.launches[l], Statement(w, l, e).launches[l]) && Statement(w, l, e).launches[l].wonStart == w.launches[l].wonStart
  {
    hide Released, Failed, RecordStarted, MarkStarting, Did, Reply, Reserve;
  }

  lemma {:induction false} AsksToSettle(w: World, l: nat, e: Environment)
    requires l < |w.launches| && TableOk(w.rows) && LaunchOk(w.launches[l])
    requires Statement(w, l, e).launches[l].settled != w.launches[l].settled
    ensures Settled(Statement(w, l, e).rows, Statement(w, l, e).launches[l])
  {
    hide Release, RecordFailed, RecordStarted, MarkStarting, Reserve, TableOk, Did, Reply;
    var x := w.launches[l];
    if x.reservation.Some? {
      ReleaseSettles(w.rows, x.reservation.value);
    }
  }

  /** A launch that returns a process has told the table. */
  lemma {:induction false} QuietReturn(w: World, l: nat, e: Environment)
    requires WorldOk(w) && l < |w.launches| && w.launches[l].stage != Reserving && w.launches[l].stage != Marked
    requires Statement(w, l, e).launches[l].stage == Returned(true)
    ensures HasRow(Statement(w, l, e).rows, Statement(w, l, e).launches[l])
  {
    hide Release, RecordFailed, MarkStarting, HasRow, TableOk;
    var x, next := w.launches[l], Statement(w, l, e);
    assert LaunchOk(x);
    if x.stage == Recording {
      RecordedRow(w, l, next.launches[l]);
    } else {
      assert next == w && x.wonStart;
    }
  }

  lemma {:induction false} RecordedRow(w: World, l: nat, y: Launch)
    requires IdsOk(w) && l < |w.launches| && w.launches[l].reservation.Some? && SameLaunch(w.launches[l], y)
    requires RecordStarted(w.rows, w.launches[l].reservation.value).1
    ensures HasRow(RecordStarted(w.rows, w.launches[l].reservation.value).0, y)
  {
    var i, rows := ByReservation(w.rows, y.reservation.value).value, RecordStarted(w.rows, y.reservation.value).0;
    assert rows[i] == w.rows[i].(state := Started);
    assert IsRowOf(rows[i], y);
  }

  lemma {:induction false} WinningStatement(w: World, l: nat, e: Environment)
    requires l < |w.launches| && w.launches[l].stage != Marked
    requires Statement(w, l, e).launches[l].stage == Marked
    ensures var x := w.launches[l];
            && x.stage == Marking && x.reservation.Some? && MarkStarting(w.rows, x.reservation.value).1
            && Statement(w, l, e) == Set(w.(rows := MarkStarting(w.rows, x.reservation.value).0), l,
                                         x.(stage := Marked, wonStart := true))
  {
    hide Release, RecordFailed, RecordStarted, MarkStarting, Reserve;
  }

  lemma {:induction false} TableOfWorld(w: World, l: nat)
    requires WorldOk(w) && l < |w.launches|
    ensures TableOk(w.rows) && LaunchOk(w.launches[l]) && Settled(w.rows, w.launches[l])
  {
  }

  lemma {:induction false} NextKeepsOk(w: World, step: Step)
    requires WorldOk(w)
    ensures WorldOk(Next(w, step))
  {
    hide Statement, HasRow, RecordExited;
    match step
    case Redeliver(attemptId, digest) =>
    case Advance(l, e) => if l < |w.launches| { StatementKeepsOk(w, l, e); }
    case Exit(attemptId) =>
      ExitIsForward(w.rows, attemptId);
      TableMoves(w, RecordExited(w.rows, attemptId).0);
    case Crash => CrashKeepsOk(w);
  }

  lemma {:induction false} TableMoves(w: World, rows: seq<Row>)
    requires WorldOk(w) && OnlyForward(w.rows, rows)
    ensures WorldOk(w.(rows := rows))
  {
    hide LaunchOk, HasRow, OnlyForward, TableOk, Settled;
    forall k | 0 <= k < |w.launches| ensures Settled(rows, w.launches[k]) {
      SettledStays(w.rows, rows, w.launches[k], w.launches[k]);
    }
    var next := w.(rows := rows);
    TableForward(w.rows, rows);
    forall k | 0 <= k < |w.launches| && w.launches[k].wonStart ensures HasRow(rows, w.launches[k]) {
      RowStays(w.rows, rows, w.launches[k], w.launches[k]);
    }
    if w.launches != [] {
      IdsForward(w, rows, 0, w.launches[0]);
      assert w.launches[0 := w.launches[0]] == w.launches;
    } else {
      RowIdsForward(w, rows);
    }
  }

  lemma {:induction false} CrashKeepsOk(w: World)
    requires WorldOk(w)
    ensures WorldOk(w.(launches := Killed(w.launches)))
  {
    hide HasRow, TableOk, LaunchOk, Settled;
    var killed := Killed(w.launches);
    forall l | 0 <= l < |killed|
      ensures LaunchOk(killed[l]) && (HasRow(w.rows, w.launches[l]) ==> HasRow(w.rows, killed[l])) && Settled(w.rows, killed[l])
    {
      DeadLaunch(w.launches[l]);
      SameRows(w.rows, w.launches[l], killed[l]);
      SettledSame(w.rows, w.launches[l], killed[l]);
    }
  }

  lemma {:induction false} SettledSame(rows: seq<Row>, x: Launch, y: Launch)
    requires Settled(rows, x) && y.reservation == x.reservation && y.settled == x.settled && y.wonStart == x.wonStart
    ensures Settled(rows, y)
  {
  }

  lemma {:induction false} DeadLaunch(x: Launch)
    requires LaunchOk(x)
    ensures LaunchOk(x.(stage := Dead))
  {
  }

  lemma {:induction false} EveryWorldIsOk(steps: seq<Step>)
    ensures WorldOk(Run(steps))
  {
    hide Next;
    if steps != [] {
      EveryWorldIsOk(steps[..|steps| - 1]);
      NextKeepsOk(Run(steps[..|steps| - 1]), steps[|steps| - 1]);
    }
  }

  /**
   * Over the life of the table, however many launches of an attempt are delivered and wherever the
   * runner dies, host.start is called at most once for the attempt, and only by a launch that consumed
   * a permit and moved the row from RESERVED to STARTING.
   */
  lemma {:induction false} StartedAtMostOnce(steps: seq<Step>)
    ensures var w := Run(steps);
            && (forall k :: 0 <= k < |w.starts| ==>
                  && w.starts[k] < |w.launches|
                  && w.launches[w.starts[k]].permitConsumed && w.launches[w.starts[k]].wonStart)
            && (forall j, k :: 0 <= j < k < |w.starts| ==>
                  w.launches[w.starts[j]].attemptId != w.launches[w.starts[k]].attemptId)
  {
    hide Run;
    EveryWorldIsOk(steps);
    var w := Run(steps);
    forall j, k | 0 <= j < k < |w.starts|
      ensures w.launches[w.starts[j]].attemptId != w.launches[w.starts[k]].attemptId
    {
      var a, b := w.starts[j], w.starts[k];
      assert a != b && w.launches[a].wonStart && w.launches[b].wonStart;
    }
  }

  /**
   * In every run a launch holds no reservation but of its own attempt and assignment: a row under its reservation
   * has its digest. And for every call of host.start there is a row of the attempt and the assignment that was
   * started, which has left RESERVED for good, and which says STARTED or EXITED once the launch returned its process.
   */
  lemma {:induction false} StartsAreOfTheirAssignment(steps: seq<Step>)
    ensures var w := Run(steps);
            && (forall l, i :: 0 <= l < |w.launches| && 0 <= i < |w.rows| && w.launches[l].reservation == Some(w.rows[i].reservationId) ==>
                  w.rows[i].attemptId == w.launches[l].attemptId && w.rows[i].digest == w.launches[l].digest)
            && (forall k :: 0 <= k < |w.starts| ==> w.starts[k] < |w.launches| && IsStarted(w.rows, w.launches[w.starts[k]]))
  {
    hide Run;
    EveryWorldIsOk(steps);
    var w := Run(steps);
    assert IdsOk(w);
    forall k | 0 <= k < |w.starts| ensures w.starts[k] < |w.launches| && IsStarted(w.rows, w.launches[w.starts[k]]) {
      var x := w.launches[w.starts[k]];
      assert HasRow(w.rows, x);
      var i :| 0 <= i < |w.rows| && IsRowOf(w.rows[i], x);
    }
  }

  ghost predicate IsStarted(rows: seq<Row>, x: Launch) {
    exists i :: 0 <= i < |rows| && rows[i].attemptId == x.attemptId && rows[i].digest == x.digest
                && rows[i].state in {Starting, Started, Exited, FailedToStart, Unknown} && (x.stage == Returned(true) ==> rows[i].state in {Started, Exited})
  }

  /**
   * A launch that found its deadline passed never calls host.start. One that returns a failure and had neither won
   * nor been refused the start gave its reservation back or recorded the failure; so did one whose host did not
   * start. Where the database carried that out, no row of the reservation can be started by anyone any more, nor is
   * it left STARTING by a launch that won.
   */
  lemma {:induction false} LateOrFailedLaunchSettles(steps: seq<Step>, l: nat)
    requires l < |Run(steps).launches|
    ensures var w := Run(steps); var x := w.launches[l];
            && (x.late ==> !x.wonStart && forall k :: 0 <= k < |w.starts| ==> w.starts[k] != l)
            && ((&& x.stage == Returned(false) && x.reservation.Some?
                 && (x.late || !x.permitConsumed || (x.wonStart && !SaidOk(x.answers.start)))) ==> x.settled.Some?)
            && (x.settled == Some(true) ==>
                  forall i :: 0 <= i < |w.rows| && Some(w.rows[i].reservationId) == x.reservation ==>
                    w.rows[i].state != Reserved && (x.wonStart ==> w.rows[i].state != Starting))
  {
    hide Run;
    EveryWorldIsOk(steps);
    var w := Run(steps);
    assert LaunchOk(w.launches[l]) && Settled(w.rows, w.launches[l]);
    forall i | 0 <= i < |w.rows| && w.launches[l].settled == Some(true) && Some(w.rows[i].reservationId) == w.launches[l].reservation
      ensures SettledRow(w.rows[i], w.launches[l].wonStart)
    {
    }
  }

  /**
   * What a launch that returned has left behind. Its process runs exactly when it returned a started process,
   * or the host spawned one and then either answered that it failed, or was asked to cancel it, once
   * recordStarted was refused, and did not. Its session is active exactly when it returned a started process,
   * or the session was activated and then either answered as failed, or not revoked.
   */
  lemma {:induction false} WhatAReturnedLaunchLeaves(steps: seq<Step>, l: nat)
    requires l < |Run(steps).launches| && Run(steps).launches[l].stage.Returned?
    ensures var x := Run(steps).launches[l]; var a := x.answers;
            && (x.process == RunningProcess <==>
                  x.stage.started || (Did(a.start) && (a.start.ok ==> a.recorded == Some(false) && a.cancel.Answered? && !Did(a.cancel))))
            && (x.session == ActiveSession <==>
                  x.stage.started || (Did(a.activate) && (a.activate.ok ==> a.revoke.Answered? && !Did(a.revoke))))
            && (x.stage.started ==> x.wonStart && x.permitConsumed)
  {
    hide Run;
    EveryWorldIsOk(steps);
    assert LaunchOk(Run(steps).launches[l]);
  }

  /** A callee that was asked and did not do it, or did it and said otherwise. */
  predicate Unclean(a: Answers) {
    || (a.activate.Answered? && Did(a.activate) && !a.activate.ok)
    || (a.start.Answered? && Did(a.start) && !a.start.ok)
    || (a.cancel.Answered? && !Did(a.cancel))
    || (a.revoke.Answered? && !Did(a.revoke))
  }

  /** Only a launch that returned a started process leaves something behind, exactly when every callee did what it said. */
  lemma {:induction false} ReturnedLaunchIsCleanIff(steps: seq<Step>, l: nat)
    requires l < |Run(steps).launches| && Run(steps).launches[l].stage.Returned?
    ensures var x := Run(steps).launches[l];
            (x.session == ActiveSession <==> x.stage.started) && (x.process == RunningProcess <==> x.stage.started)
            <==> !Unclean(x.answers)
  {
    hide Run;
    EveryWorldIsOk(steps);
    assert LaunchOk(Run(steps).launches[l]);
  }
}
