/** The table of local processes: one row per attempt, changed by conditional statements. */
module ProcessRegistry {
  import opened Common

  type AttemptId = string
  type ReservationId = string

  datatype ProcessState = Reserved | Starting | Started | FailedToStart | Exited | Unknown

  datatype Row = Row(attemptId: AttemptId, reservationId: ReservationId, digest: string, state: ProcessState)

  datatype ReserveOutcome = New | Resume | Reconcile

  datatype Reservation = Reservation(id: ReservationId, disposition: ReserveOutcome)

  predicate IsAlphanumeric(c: char) {
    'A' <= c <= 'Z' || 'a' <= c <= 'z' || '0' <= c <= '9'
  }

  /** [A-Za-z0-9][A-Za-z0-9_-]{0,127} */
  predicate IsIdentifier(s: string) {
    && 1 <= |s| <= 128 && IsAlphanumeric(s[0])
    && forall i :: 0 <= i < |s| ==> IsAlphanumeric(s[i]) || s[i] == '_' || s[i] == '-'
  }

  /** [A-Z][A-Z0-9_]{0,127} */
  predicate IsDisposition(s: string) {
    && 1 <= |s| <= 128 && 'A' <= s[0] <= 'Z'
    && forall i :: 0 <= i < |s| ==> 'A' <= s[i] <= 'Z' || '0' <= s[i] <= '9' || s[i] == '_'
  }

  /** [0-9a-f]{64} */
  predicate IsSha256(s: string) {
    |s| == 64 && forall i :: 0 <= i < |s| ==> '0' <= s[i] <= '9' || 'a' <= s[i] <= 'f'
  }

  function ByAttempt(rows: seq<Row>, id: AttemptId, start: nat := 0): (r: Option<nat>)
    requires start <= |rows|
    ensures r.Some? ==> start <= r.value < |rows| && rows[r.value].attemptId == id
    ensures r == None ==> forall i :: start <= i < |rows| ==> rows[i].attemptId != id
    decreases |rows| - start
  {
    if start == |rows| then None
    else if rows[start].attemptId == id then Some(start)
    else ByAttempt(rows, id, start + 1)
  }

  function ByReservation(rows: seq<Row>, id: ReservationId, start: nat := 0): (r: Option<nat>)
    requires start <= |rows|
    ensures r.Some? ==> start <= r.value < |rows| && rows[r.value].reservationId == id
    ensures r == None ==> forall i :: start <= i < |rows| ==> rows[i].reservationId != id
    decreases |rows| - start
  {
    if start == |rows| then None
    else if rows[start].reservationId == id then Some(start)
    else ByReservation(rows, id, start + 1)
  }

  function Reserve(rows: seq<Row>, attemptId: AttemptId, digest: string, id: ReservationId): (seq<Row>, Result<Reservation>) {
    if !IsIdentifier(attemptId) || !IsSha256(digest) then (rows, Err("PROCESS_ASSIGNMENT_INVALID"))
    else match ByAttempt(rows, attemptId)
      case Some(i) =>
        (rows,
         if rows[i].digest != digest then Err("PROCESS_ASSIGNMENT_CONFLICT")
         else Ok(Reservation(rows[i].reservationId, if rows[i].state == Reserved then Resume else Reconcile)))
      case None =>
        if ByReservation(rows, id).Some? then (rows, Err("PROCESS_STATE_FAILED"))
        else (rows + [Row(attemptId, id, digest, Reserved)], Ok(Reservation(id, New)))
  }

  /** UPDATE ... SET state WHERE reservation_id = ? AND state IN (...) */
  function Move(rows: seq<Row>, id: ReservationId, from: set<ProcessState>, to: ProcessState): (seq<Row>, bool) {
    match ByReservation(rows, id)
    case Some(i) => if rows[i].state in from then (rows[i := rows[i].(state := to)], true) else (rows, false)
    case None => (rows, false)
  }

  function MarkStarting(rows: seq<Row>, id: ReservationId): (seq<Row>, bool) {
    Move(rows, id, {Reserved}, Starting)
  }

  function RecordStarted(rows: seq<Row>, id: ReservationId): (seq<Row>, bool) {
    Move(rows, id, {Starting}, Started)
  }

  function RecordFailed(rows: seq<Row>, id: ReservationId): (seq<Row>, bool) {
    Move(rows, id, {Reserved, Starting}, FailedToStart)
  }

  /** DELETE ... WHERE reservation_id = ? AND state = 'RESERVED' */
  function Release(rows: seq<Row>, id: ReservationId): (seq<Row>, bool) {
    match ByReservation(rows, id)
    case Some(i) => if rows[i].state == Reserved then (rows[..i] + rows[i + 1..], true) else (rows, false)
    case None => (rows, false)
  }

  function RecordExited(rows: seq<Row>, attemptId: AttemptId): (seq<Row>, bool) {
    match ByAttempt(rows, attemptId)
    case Some(i) => if rows[i].state == Started then (rows[i := rows[i].(state := Exited)], true) else (rows, false)
    case None => (rows, false)
  }

  ghost predicate TableOk(rows: seq<Row>) {
    forall i, j :: 0 <= i < j < |rows| ==>
      rows[i].attemptId != rows[j].attemptId && rows[i].reservationId != rows[j].reservationId
  }

  ghost predicate HasAttempt(rows: seq<Row>, attemptId: AttemptId) {
    exists i :: 0 <= i < |rows| && rows[i].attemptId == attemptId
  }

  ghost predicate AttemptWith(rows: seq<Row>, attemptId: AttemptId, digest: string, same: bool) {
    exists i :: 0 <= i < |rows| && rows[i].attemptId == attemptId && (same <==> rows[i].digest == digest)
  }

  ghost predicate IdTaken(rows: seq<Row>, id: ReservationId) {
    exists i :: 0 <= i < |rows| && rows[i].reservationId == id
  }

  /** A row of this reservation, for this attempt and this assignment. */
  ghost predicate Holds(rows: seq<Row>, reservation: Reservation, attemptId: AttemptId, digest: string) {
    exists i :: 0 <= i < |rows| && rows[i].reservationId == reservation.id && rows[i].attemptId == attemptId && rows[i].digest == digest
                && (reservation.disposition == Reconcile <==> rows[i].state != Reserved)
  }

  /**
   * reserve: a reservation is of the attempt and of the assignment that asked for it; the attempt's assignment
   * under another digest is a conflict, and only a new attempt makes a row.
   */
  lemma {:induction false} ReserveAnswers(rows: seq<Row>, attemptId: AttemptId, digest: string, id: ReservationId)
    requires TableOk(rows)
    ensures var (next, r) := Reserve(rows, attemptId, digest, id); var valid := IsIdentifier(attemptId) && IsSha256(digest);
            && (r == Err("PROCESS_ASSIGNMENT_INVALID") <==> !valid)
            && (r == Err("PROCESS_ASSIGNMENT_CONFLICT") <==> valid && AttemptWith(rows, attemptId, digest, false))
            && (r == Err("PROCESS_STATE_FAILED") <==> valid && !HasAttempt(rows, attemptId) && IdTaken(rows, id))
            && (r.Ok? <==> valid && (AttemptWith(rows, attemptId, digest, true) || (!HasAttempt(rows, attemptId) && !IdTaken(rows, id))))
            && (r.Ok? ==> Holds(next, r.value, attemptId, digest) && (r.value.disposition == New <==> !HasAttempt(rows, attemptId)))
            && next == if r.Ok? && r.value.disposition == New then rows + [Row(attemptId, id, digest, Reserved)] else rows
  {
    hide IsIdentifier, IsSha256;
    var next := Reserve(rows, attemptId, digest, id).0;
    if next != rows {
      assert next[|rows|] == Row(attemptId, id, digest, Reserved);
    }
  }

  /** Which rows a statement moves, and whether it says so. */
  lemma {:induction false} MoveAnswers(rows: seq<Row>, id: ReservationId, i: nat)
    requires TableOk(rows) && i < |rows|
    ensures var here := rows[i].reservationId == id; var state := rows[i].state;
            && MarkStarting(rows, id).0[i] == (if here && state == Reserved then rows[i].(state := Starting) else rows[i])
            && RecordStarted(rows, id).0[i] == (if here && state == Starting then rows[i].(state := Started) else rows[i])
            && RecordFailed(rows, id).0[i] == (if here && state in {Reserved, Starting} then rows[i].(state := FailedToStart) else rows[i])
            && (here ==> && (MarkStarting(rows, id).1 <==> state == Reserved) && (RecordStarted(rows, id).1 <==> state == Starting)
                         && (RecordFailed(rows, id).1 <==> state in {Reserved, Starting}))
            && (RecordExited(rows, rows[i].attemptId).1 <==> state == Started)
            && RecordExited(rows, rows[i].attemptId).0 == if state == Started then rows[i := rows[i].(state := Exited)] else rows
  {
  }

  /** A release takes away exactly the row of the reservation, if that is still RESERVED, and says so exactly then. */
  lemma {:induction false} ReleaseAnswers(rows: seq<Row>, id: ReservationId)
    requires TableOk(rows)
    ensures var (next, released) := Release(rows, id);
            && (released <==> exists row :: row in rows && row.reservationId == id && row.state == Reserved)
            && forall row: Row :: row in next <==> row in rows && !(row.reservationId == id && row.state == Reserved)
  {
    var found := ByReservation(rows, id);
    if found.Some? {
      var k := found.value;
      assert rows[k] in rows && rows == rows[..k] + [rows[k]] + rows[k + 1..];
    }
  }

  /** recordExited says so exactly for an attempt whose row is STARTED. */
  lemma {:induction false} ExitAnswers(rows: seq<Row>, attemptId: AttemptId)
    requires TableOk(rows)
    ensures RecordExited(rows, attemptId).1 <==> exists row :: row in rows && row.attemptId == attemptId && row.state == Started
    ensures !RecordExited(rows, attemptId).1 ==> RecordExited(rows, attemptId).0 == rows
  {
    var found := ByAttempt(rows, attemptId);
    if found.Some? {
      assert rows[found.value] in rows;
    }
  }

  class LocalProcessRegistry {
    var rows: seq<Row>

    constructor ()
      ensures rows == [] && TableOk(rows)
    {
      rows := [];
    }

    method FindReservation(id: ReservationId) returns (index: Option<nat>)
      ensures index == ByReservation(rows, id)
    {
      var i := 0;
      while i < |rows|
        invariant 0 <= i <= |rows|
        invariant ByReservation(rows, id, i) == ByReservation(rows, id)
      {
        if rows[i].reservationId == id {
          return Some(i);
        }
        i := i + 1;
      }
      index := None;
    }

    method FindAttempt(id: AttemptId) returns (index: Option<nat>)
      ensures index == ByAttempt(rows, id)
    {
      var i := 0;
      while i < |rows|
        invariant 0 <= i <= |rows|
        invariant ByAttempt(rows, id, i) == ByAttempt(rows, id)
      {
        if rows[i].attemptId == id {
          return Some(i);
        }
        i := i + 1;
      }
      index := None;
    }

    method ReserveAttempt(attemptId: AttemptId, digest: string, id: ReservationId) returns (r: Result<Reservation>)
      requires TableOk(rows)
      modifies this
      ensures TableOk(rows)
      ensures (rows, r) == Reserve(old(rows), attemptId, digest, id)
    {
      hide IsIdentifier, IsSha256;
      if !IsIdentifier(attemptId) || !IsSha256(digest) {
        return Err("PROCESS_ASSIGNMENT_INVALID");
      }
      var existing := FindAttempt(attemptId);
      if existing.Some? {
        var row := rows[existing.value];
        return if row.digest == digest
               then Ok(Reservation(row.reservationId, if row.state == Reserved then Resume else Reconcile))
               else Err("PROCESS_ASSIGNMENT_CONFLICT");
      }
      var taken := FindReservation(id);
      if taken.Some? {
        return Err("PROCESS_STATE_FAILED");
      }
      rows := rows + [Row(attemptId, id, digest, Reserved)];
      r := Ok(Reservation(id, New));
    }

    /** One conditional UPDATE; whether it changed a row. */
    method Update(id: ReservationId, from: set<ProcessState>, to: ProcessState) returns (changed: bool)
      requires TableOk(rows)
      modifies this
      ensures TableOk(rows)
      ensures (rows, changed) == Move(old(rows), id, from, to)
    {
      var index := FindReservation(id);
      changed := index.Some? && rows[index.value].state in from;
      if changed {
        rows := rows[index.value := rows[index.value].(state := to)];
      }
    }

    /** recordFailed: the disposition is an error code. */
    method Fail(id: ReservationId, disposition: string) returns (r: Result<()>)
      requires TableOk(rows)
      modifies this
      ensures TableOk(rows)
      ensures if !IsDisposition(disposition) then rows == old(rows) && r == Err("PROCESS_DISPOSITION_INVALID")
              else (rows, r == Ok(())) == RecordFailed(old(rows), id) && (r.Err? ==> r == Err("PROCESS_STATE_CONFLICT"))
    {
      if !IsDisposition(disposition) {
        return Err("PROCESS_DISPOSITION_INVALID");
      }
      var changed := Update(id, {Reserved, Starting}, FailedToStart);
      r := if changed then Ok(()) else Err("PROCESS_STATE_CONFLICT");
    }

    method ReleaseReservation(id: ReservationId) returns (changed: bool)
      requires TableOk(rows)
      modifies this
      ensures TableOk(rows)
      ensures (rows, changed) == Release(old(rows), id)
    {
      var index := FindReservation(id);
      changed := index.Some? && rows[index.value].state == Reserved;
      if changed {
        rows := rows[..index.value] + rows[index.value + 1..];
      }
    }

    method Exit(attemptId: AttemptId, exitCode: int) returns (r: Result<()>)
      requires TableOk(rows)
      modifies this
      ensures TableOk(rows)
      ensures if !IsIdentifier(attemptId) || !(0 <= exitCode <= 255) then rows == old(rows) && r == Err("PROCESS_DISPOSITION_INVALID")
              else (rows, r == Ok(())) == RecordExited(old(rows), attemptId) && (r.Err? ==> r == Err("PROCESS_STATE_CONFLICT"))
    {
      if !IsIdentifier(attemptId) || exitCode < 0 || exitCode > 255 {
        return Err("PROCESS_DISPOSITION_INVALID");
      }
      var index := FindAttempt(attemptId);
      if index == None || rows[index.value].state != Started {
        return Err("PROCESS_STATE_CONFLICT");
      }
      rows := rows[index.value := rows[index.value].(state := Exited)];
      r := Ok(());
    }
  }
}
