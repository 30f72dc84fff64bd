/** A launch touches no row but of its own attempt, and one that is alone in its attempt goes on whenever its answers let it. */
module LaunchAlone {
  import opened Common
  import opened ProcessRegistry
  import opened LaunchFence
  import LaunchPath

  // ---- whose rows a launch touches

  /** The rows of other attempts are there as they were. */
  ghost predicate OthersKept(rows: seq<Row>, next: seq<Row>, attemptId: AttemptId) {
    forall row: Row :: row.attemptId != attemptId ==> (row in rows <==> row in next)
  }

  /** The statements a launch may make on the table. */
  ghost predicate OneStatement(rows: seq<Row>, next: seq<Row>, x: Launch, id: ReservationId) {
    || next == rows || next == Reserve(rows, x.attemptId, x.digest, id).0
    || (x.reservation.Some? &&
        (|| next == Release(rows, x.reservation.value).0 || next == RecordFailed(rows, x.reservation.value).0
         || next == MarkStarting(rows, x.reservation.value).0 || next == RecordStarted(rows, x.reservation.value).0))
  }

  lemma {:induction false} StatementIsOne(w: World, l: nat, e: Environment)
    requires l < |w.launches|
    ensures OneStatement(w.rows, Statement(w, l, e).rows, w.launches[l], e.id)
  {
    hide Reserve, Release, RecordFailed, MarkStarting, RecordStarted, Reply, Did;
  }

  lemma {:induction false} MoveKeepsOthers(rows: seq<Row>, id: ReservationId, from: set<ProcessState>, to: ProcessState, attemptId: AttemptId)
    requires forall row :: row in rows && row.reservationId == id ==> row.attemptId == attemptId
    ensures OthersKept(rows, Move(rows, id, from, to).0, attemptId)
  {
    var next := Move(rows, id, from, to).0;
    if next != rows {
      var k := ByReservation(rows, id).value;
      assert rows[k] in rows && next[k].attemptId == attemptId;
      forall row: Row | row.attemptId != attemptId ensures row in rows <==> row in next {
        if row in rows {
          var j :| 0 <= j < |rows| && rows[j] == row;
          assert next[j] == row;
        }
      }
    }
  }

  lemma {:induction false} ReleaseKeepsOthers(rows: seq<Row>, id: ReservationId, attemptId: AttemptId)
    requires forall row :: row in rows && row.reservationId == id ==> row.attemptId == attemptId
    ensures OthersKept(rows, Release(rows, id).0, attemptId)
  {
    var next := Release(rows, id).0;
    if next != rows {
      var k := ByReservation(rows, id).value;
      assert rows[k] in rows;
      assert rows == rows[..k] + [rows[k]] + rows[k + 1..];
    }
  }

  /** A launch touches only rows of its own attempt. */
  lemma {:induction false} TouchesItsAttempt(w: World, l: nat, e: Environment)
    requires WorldOk(w) && l < |w.launches|
    ensures OthersKept(w.rows, Statement(w, l, e).rows, w.launches[l].attemptId)
  {
    hide Statement, Release, Move, LaunchOk, Settled, WinnersOk, StartsOk, Did;
    var x := w.launches[l];
    StatementIsOne(w, l, e);
    assert IdsOk(w);
    if x.reservation.Some? {
      var id := x.reservation.value;
      assert forall row :: row in w.rows && row.reservationId == id ==> row.attemptId == x.attemptId;
      ReleaseKeepsOthers(w.rows, id, x.attemptId);
      MoveKeepsOthers(w.rows, id, {Reserved, Starting}, FailedToStart, x.attemptId);
      MoveKeepsOthers(w.rows, id, {Reserved}, Starting, x.attemptId);
      MoveKeepsOthers(w.rows, id, {Starting}, Started, x.attemptId);
    }
  }

  // ---- one delivery of an attempt

  ghost predicate Alone(w: World, l: nat)
    requires l < |w.launches|
  {
    forall m :: 0 <= m < |w.launches| && m != l ==> w.launches[m].attemptId != w.launches[l].attemptId
  }

  /** The attempt has no row. */
  ghost predicate Absent(rows: seq<Row>, attemptId: AttemptId) {
    forall row :: row in rows ==> row.attemptId != attemptId
  }

  datatype Expected = NoRow | RowIn(states: set<ProcessState>) | AnyRow

  /** What the stage of a launch that is alone says of the row of its attempt. */
  function Expects(stage: Stage): Expected {
    match stage
    case Preparing => NoRow
    case Activating => NoRow
    case Activated => NoRow
    case Reserving => NoRow
    case HoldsReservation => RowIn({Reserved})
    case Consuming => RowIn({Reserved})
    case HasPermit => RowIn({Reserved})
    case Marking => RowIn({Reserved})
    case Marked => RowIn({Starting})
    case AwaitingHost => RowIn({Starting})
    case Recording => RowIn({Starting})
    case Returned(started) => if started then RowIn({Started, Exited}) else AnyRow
    case _ => AnyRow
  }

  ghost predicate RowAsStage(rows: seq<Row>, x: Launch) {
    match Expects(x.stage)
    case NoRow => Absent(rows, x.attemptId)
    case RowIn(states) =>
      x.reservation.Some? && exists state :: state in states && Row(x.attemptId, x.reservation.value, x.digest, state) in rows
    case AnyRow => true
  }

  ghost predicate Launched(w: World, attemptId: AttemptId) {
    exists l :: 0 <= l < |w.launches| && w.launches[l].attemptId == attemptId
  }

  ghost predicate Loners(w: World) {
    && (forall row :: row in w.rows ==> Launched(w, row.attemptId))
    && forall l :: 0 <= l < |w.launches| && Alone(w, l) ==> RowAsStage(w.rows, w.launches[l])
  }

  /** The next stage on the way. */
  function Successor(stage: Stage): Option<Stage> {
    match stage
    case Preparing => Some(Activating)
    case Activating => Some(Activated)
    case Activated => Some(Reserving)
    case Reserving => Some(HoldsReservation)
    case HoldsReservation => Some(Consuming)
    case Consuming => Some(HasPermit)
    case HasPermit => Some(Marking)
    case Marking => Some(Marked)
    case Marked => Some(AwaitingHost)
    case AwaitingHost => Some(Recording)
    case Recording => Some(Returned(true))
    case _ => None
  }

  /** What a launch that is alone needs to go on: answers that say ok, time, a new id, and a database that works. */
  predicate Suffices(w: World, x: Launch, e: Environment) {
    match x.stage
    case Preparing => !e.throws && e.ok
    case Activating => !e.throws && e.ok
    case Activated => !e.expired
    case Reserving => e.stored && e.id !in w.issued && IsIdentifier(x.attemptId) && IsSha256(x.digest)
    case HoldsReservation => !e.expired
    case Consuming => !e.throws && e.ok
    case HasPermit => !e.expired
    case Marking => e.stored
    case AwaitingHost => !e.throws && e.ok
    case Recording => e.stored
    case _ => true
  }

  /** A launch that is alone has the row its stage expects, and goes on exactly where that suffices. */
  ghost predicate GoesOnAlone(w: World, l: nat, e: Environment)
    requires l < |w.launches|
  {
    var next := Statement(w, l, e);
    && l < |next.launches| && RowAsStage(next.rows, next.launches[l])
    && (Successor(w.launches[l].stage).Some? ==>
          (Some(next.launches[l].stage) == Successor(w.launches[l].stage) <==> Suffices(w, w.launches[l], e)))
  }

  lemma {:induction false} MoveFound(rows: seq<Row>, row: Row, from: set<ProcessState>, to: ProcessState)
    requires TableOk(rows) && row in rows
    ensures Move(rows, row.reservationId, from, to).1 <==> row.state in from
    ensures row.state in from ==> row.(state := to) in Move(rows, row.reservationId, from, to).0
  {
    var k :| 0 <= k < |rows| && rows[k] == row;
    var j := ByReservation(rows, row.reservationId).value;
    assert j == k;
    if row.state in from {
      assert Move(rows, row.reservationId, from, to).0[k] == row.(state := to);
    }
  }

  lemma {:induction false} ReservesAlone(rows: seq<Row>, attemptId: AttemptId, digest: string, id: ReservationId)
    requires Absent(rows, attemptId) && forall row :: row in rows ==> row.reservationId != id
    ensures var (next, r) := Reserve(rows, attemptId, digest, id);
            && (r.Ok? <==> IsIdentifier(attemptId) && IsSha256(digest))
            && (r.Ok? ==> r.value == Reservation(id, New) && next == rows + [Row(attemptId, id, digest, Reserved)])
  {
    hide IsIdentifier, IsSha256;
  }

  lemma {:induction false} FirstStages(w: World, l: nat, e: Environment)
    requires l < |w.launches| && RowAsStage(w.rows, w.launches[l])
    requires var stage := w.launches[l].stage; stage.Preparing? || stage.Activating? || stage.Activated?
    ensures GoesOnAlone(w, l, e)
  {
    hide Reserve, Release, RecordFailed, MarkStarting, RecordStarted, Absent;
  }

  lemma {:induction false} Reserves(w: World, l: nat, e: Environment)
    requires WorldOk(w) && l < |w.launches| && RowAsStage(w.rows, w.launches[l]) && w.launches[l].stage == Reserving
    ensures GoesOnAlone(w, l, e)
  {
    hide Reserve, Release, RecordFailed, MarkStarting, RecordStarted, LaunchOk, Settled, WinnersOk, StartsOk, IsIdentifier, IsSha256;
    var x := w.launches[l];
    assert IdsOk(w);
    if e.id !in w.issued {
      assert forall row :: row in w.rows ==> row.reservationId != e.id;
      ReservesAlone(w.rows, x.attemptId, x.digest, e.id);
      var added := Row(x.attemptId, e.id, x.digest, Reserved);
      assert added in w.rows + [added];
    }
  }

  lemma {:induction false} MiddleStages(w: World, l: nat, e: Environment)
    requires l < |w.launches| && RowAsStage(w.rows, w.launches[l])
    requires var stage := w.launches[l].stage; stage.HoldsReservation? || stage.Consuming? || stage.HasPermit?
    ensures GoesOnAlone(w, l, e)
  {
    hide Reserve, Release, RecordFailed, MarkStarting, RecordStarted, Absent;
  }

  lemma {:induction false} Starts(w: World, l: nat, e: Environment)
    requires TableOk(w.rows) && l < |w.launches| && RowAsStage(w.rows, w.launches[l])
    requires var stage := w.launches[l].stage; stage.Marking? || stage.Recording?
    ensures GoesOnAlone(w, l, e)
  {
    hide Reserve, Release, RecordFailed, Absent, Move, TableOk;
    var x := w.launches[l];
    var row := Row(x.attemptId, x.reservation.value, x.digest, if x.stage.Marking? then Reserved else Starting);
    assert row in w.rows;
    MoveFound(w.rows, row, {Reserved}, Starting);
    MoveFound(w.rows, row, {Starting}, Started);
  }

  lemma {:induction false} HostStages(w: World, l: nat, e: Environment)
    requires l < |w.launches| && RowAsStage(w.rows, w.launches[l])
    requires var stage := w.launches[l].stage; stage.Marked? || stage.AwaitingHost?
    ensures GoesOnAlone(w, l, e)
  {
    hide Reserve, Release, RecordFailed, MarkStarting, RecordStarted, Absent;
  }

  lemma {:induction false} LastStages(w: World, l: nat, e: Environment)
    requires l < |w.launches| && RowAsStage(w.rows, w.launches[l])
    requires Successor(w.launches[l].stage) == None
    ensures GoesOnAlone(w, l, e)
  {
    hide Reserve, Release, RecordFailed, MarkStarting, RecordStarted, Absent;
  }

  /** One delivery of an attempt goes on, stage by stage, exactly where its own answers let it. */
  lemma {:induction false} AloneGoesOnIff(w: World, l: nat, e: Environment)
    requires WorldOk(w) && l < |w.launches| && RowAsStage(w.rows, w.launches[l])
    ensures GoesOnAlone(w, l, e)
  {
    hide GoesOnAlone, RowAsStage, IdsOk, LaunchOk, Settled, WinnersOk, StartsOk;
    var stage := w.launches[l].stage;
    if stage.Preparing? || stage.Activating? || stage.Activated? {
      FirstStages(w, l, e);
    } else if stage.Reserving? {
      Reserves(w, l, e);
    } else if stage.HoldsReservation? || stage.Consuming? || stage.HasPermit? {
      MiddleStages(w, l, e);
    } else if stage.Marking? || stage.Recording? {
      Starts(w, l, e);
    } else if stage.Marked? || stage.AwaitingHost? {
      HostStages(w, l, e);
    } else {
      LastStages(w, l, e);
    }
  }

  // ---- every run

  lemma {:induction false} RowStaysAsStage(rows: seq<Row>, next: seq<Row>, x: Launch, attemptId: AttemptId)
    requires OthersKept(rows, next, attemptId) && x.attemptId != attemptId && RowAsStage(rows, x)
    ensures RowAsStage(next, x)
  {
    if Expects(x.stage).RowIn? {
      var state :| state in Expects(x.stage).states && Row(x.attemptId, x.reservation.value, x.digest, state) in rows;
      assert Row(x.attemptId, x.reservation.value, x.digest, state) in next;
    }
  }

  lemma {:induction false} SameAttempt(w: World, l: nat, e: Environment)
    requires l < |w.launches|
    ensures l < |Statement(w, l, e).launches| && Statement(w, l, e).launches[l].attemptId == w.launches[l].attemptId
  {
    hide Statement;
    LaunchPath.OthersStay(w, l, e);
    var stage := w.launches[l].stage;
    if stage.Preparing? || stage.Activating? || stage.Activated? || stage.Reserving? || stage.HoldsReservation? || stage.Consuming? {
      SameAttemptBefore(w, l, e);
    } else if stage.HasPermit? || stage.Marking? || stage.Marked? || stage.AwaitingHost? {
      SameAttemptBetween(w, l, e);
    } else {
      SameAttemptAfter(w, l, e);
    }
  }

  lemma {:induction false} SameAttemptBefore(w: World, l: nat, e: Environment)
    requires l < |w.launches| && l < |Statement(w, l, e).launches|
    requires var stage := w.launches[l].stage;
             stage.Preparing? || stage.Activating? || stage.Activated? || stage.Reserving? || stage.HoldsReservation? || stage.Consuming?
    ensures Statement(w, l, e).launches[l].attemptId == w.launches[l].attemptId
  {
    hide Reserve, MarkStarting, RecordStarted, RecordFailed, Release, Reply, Did;
  }

  lemma {:induction false} SameAttemptBetween(w: World, l: nat, e: Environment)
    requires l < |w.launches| && l < |Statement(w, l, e).launches|
    requires var stage := w.launches[l].stage; stage.HasPermit? || stage.Marking? || stage.Marked? || stage.AwaitingHost?
    ensures Statement(w, l, e).launches[l].attemptId == w.launches[l].attemptId
  {
    hide Reserve, MarkStarting, RecordStarted, RecordFailed, Release, Reply, Did;
  }

  lemma {:induction false} SameAttemptAfter(w: World, l: nat, e: Environment)
    requires l < |w.launches| && l < |Statement(w, l, e).launches|
    requires var stage := w.launches[l].stage;
             stage.Recording? || stage.Cancelling? || stage.Revoking? || stage.Returned? || stage.Dead?
    ensures Statement(w, l, e).launches[l].attemptId == w.launches[l].attemptId
  {
    hide Reserve, MarkStarting, RecordStarted, RecordFailed, Release, Reply, Did;
  }

  lemma {:induction false} AdvanceKeepsLoners(w: World, l: nat, e: Environment)
    requires WorldOk(w) && Loners(w) && l < |w.launches|
    ensures Loners(Statement(w, l, e))
  {
    hide Statement, WorldOk, RowAsStage;
    var next := Statement(w, l, e);
    LaunchPath.OthersStay(w, l, e);
    SameAttempt(w, l, e);
    TouchesItsAttempt(w, l, e);
    assert OthersKept(w.rows, next.rows, w.launches[l].attemptId);
    forall row | row in next.rows ensures Launched(next, row.attemptId) {
      if row.attemptId != w.launches[l].attemptId {
        assert row in w.rows && Launched(w, row.attemptId);
        var m :| 0 <= m < |w.launches| && w.launches[m].attemptId == row.attemptId;
        assert next.launches[m].attemptId == row.attemptId;
      }
    }
    forall m | 0 <= m < |next.launches| && Alone(next, m) ensures RowAsStage(next.rows, next.launches[m]) {
      assert Alone(w, m);
      if m == l {
        AloneGoesOnIff(w, l, e);
      } else {
        RowStaysAsStage(w.rows, next.rows, w.launches[m], w.launches[l].attemptId);
      }
    }
  }

  lemma {:induction false} RedeliverKeepsLoners(w: World, attemptId: AttemptId, digest: string)
    requires Loners(w)
    ensures Loners(Next(w, Redeliver(attemptId, digest)))
  {
    hide RowAsStage;
    var next := Next(w, Redeliver(attemptId, digest));
    var n := |w.launches|;
    assert forall l :: 0 <= l < n ==> next.launches[l] == w.launches[l];
    forall row | row in next.rows ensures Launched(next, row.attemptId) {
      assert Launched(w, row.attemptId);
      var m :| 0 <= m < n && w.launches[m].attemptId == row.attemptId;
      assert next.launches[m].attemptId == row.attemptId;
    }
    forall l | 0 <= l < |next.launches| && Alone(next, l) ensures RowAsStage(next.rows, next.launches[l]) {
      if l < n {
        assert Alone(w, l);
      } else {
        assert Absent(w.rows, attemptId) by {
          forall row | row in w.rows ensures row.attemptId != attemptId {
            assert Launched(w, row.attemptId);
          }
        }
        NewAsStage(w.rows, next.launches[n]);
      }
    }
  }

  lemma {:induction false} NewAsStage(rows: seq<Row>, x: Launch)
    requires Absent(rows, x.attemptId) && x.stage == Preparing
    ensures RowAsStage(rows, x)
  {
  }

  lemma {:induction false} ExitAsStage(rows: seq<Row>, attemptId: AttemptId, x: Launch)
    requires TableOk(rows) && RowAsStage(rows, x)
    ensures RowAsStage(RecordExited(rows, attemptId).0, x)
  {
    var next := RecordExited(rows, attemptId).0;
    if Expects(x.stage).RowIn? {
      var state :| state in Expects(x.stage).states && Row(x.attemptId, x.reservation.value, x.digest, state) in rows;
      var j :| 0 <= j < |rows| && rows[j] == Row(x.attemptId, x.reservation.value, x.digest, state);
      assert next[j] == rows[j] || (next[j] == rows[j].(state := Exited) && state == Started);
      assert next[j] in next;
    }
  }

  lemma {:induction false} ExitKeepsLoners(w: World, attemptId: AttemptId)
    requires TableOk(w.rows) && Loners(w)
    ensures Loners(Next(w, Exit(attemptId)))
  {
    hide RowAsStage, RecordExited, TableOk;
    var next := Next(w, Exit(attemptId));
    forall l | 0 <= l < |next.launches| && Alone(next, l) ensures RowAsStage(next.rows, next.launches[l]) {
      assert Alone(w, l);
      ExitAsStage(w.rows, attemptId, w.launches[l]);
    }
    ExitRows(w.rows, attemptId);
    forall row | row in next.rows ensures Launched(next, row.attemptId) {
      var old_ :| old_ in w.rows && old_.attemptId == row.attemptId;
      assert Launched(w, old_.attemptId);
    }
  }

  lemma {:induction false} ExitRows(rows: seq<Row>, attemptId: AttemptId)
    ensures forall row :: row in RecordExited(rows, attemptId).0 ==> exists old_ :: old_ in rows && old_.attemptId == row.attemptId
  {
    var next := RecordExited(rows, attemptId).0;
    forall row | row in next ensures exists old_ :: old_ in rows && old_.attemptId == row.attemptId {
      var j :| 0 <= j < |next| && next[j] == row;
      assert rows[j] in rows && rows[j].attemptId == row.attemptId;
    }
  }

  lemma {:induction false} CrashKeepsLoners(w: World)
    requires Loners(w)
    ensures Loners(Next(w, Crash))
  {
    hide RowAsStage;
    var next := Next(w, Crash);
    assert forall l :: 0 <= l < |w.launches| ==> next.launches[l].attemptId == w.launches[l].attemptId;
    forall row | row in next.rows ensures Launched(next, row.attemptId) {
      assert Launched(w, row.attemptId);
      var m :| 0 <= m < |w.launches| && w.launches[m].attemptId == row.attemptId;
      assert next.launches[m].attemptId == row.attemptId;
    }
    forall l | 0 <= l < |next.launches| && Alone(next, l) ensures RowAsStage(next.rows, next.launches[l]) {
      assert Alone(w, l);
      DeadAsStage(w.rows, w.launches[l], next.launches[l]);
    }
  }

  lemma {:induction false} DeadAsStage(rows: seq<Row>, x: Launch, y: Launch)
    requires RowAsStage(rows, x) && (y == x || y.stage == Dead)
    ensures RowAsStage(rows, y)
  {
  }

  lemma {:induction false} EveryWorldHasLoners(steps: seq<Step>)
    ensures WorldOk(Run(steps)) && Loners(Run(steps))
  {
    hide Statement, WorldOk, Loners, RecordExited;
    EveryWorldIsOk(steps);
    if steps == [] {
      assert Loners(Run([])) by { NothingLaunched(); }
    } else {
      var w, step := Run(steps[..|steps| - 1]), steps[|steps| - 1];
      EveryWorldHasLoners(steps[..|steps| - 1]);
      match step
      case Redeliver(attemptId, digest) => RedeliverKeepsLoners(w, attemptId, digest);
      case Advance(l, e) => if l < |w.launches| { AdvanceKeepsLoners(w, l, e); }
      case Exit(attemptId) =>
        assert TableOk(w.rows) by { WorldHasTable(w); }
        ExitKeepsLoners(w, attemptId);
      case Crash => CrashKeepsLoners(w);
    }
  }

  lemma {:induction false} NothingLaunched()
    ensures Loners(World([], [], [], map[]))
  {
  }

  lemma {:induction false} WorldHasTable(w: World)
    requires WorldOk(w)
    ensures TableOk(w.rows)
  {
  }

  /**
   * In every run, whatever other attempts do in between: a launch that is the only one of its attempt goes on at each
   * stage exactly where its callees say ok, its deadline has not passed, and the database works; and the row of its
   * attempt says what its stage expects, up to STARTED for the one that returned its process.
   */
  lemma {:induction false} OneDeliverySucceedsIff(steps: seq<Step>, l: nat, e: Environment)
    requires l < |Run(steps).launches| && Alone(Run(steps), l)
    ensures RowAsStage(Run(steps).rows, Run(steps).launches[l]) && GoesOnAlone(Run(steps), l, e)
  {
    hide Run, WorldOk, RowAsStage, GoesOnAlone;
    EveryWorldHasLoners(steps);
    AloneGoesOnIff(Run(steps), l, e);
  }
}
