/** The runner's durable outbox: one table of semantic events, chained per run. */
module Outbox {
  import opened Common

  type EventId = string
  type RunId = string

  /** The UTF-8 bytes of a body's JSON text. */
  type Json = seq<bv8>

  datatype AttemptEventKind = ProcessExited | FailedToStart | Cancelled | TimedOut | Lost | Progress

  datatype EventKind =
    | OperationAcknowledgement
    | AttemptEvent(event: AttemptEventKind)
    | Checkpoint
    | Evidence
    | RunResult
    | GateEvent

  /** A durable body: its identity, the run its payload names if any, and its JSON. */
  datatype Event = Event(eventId: EventId, runId: Option<RunId>, kind: EventKind, json: Json)

  datatype RowState = Pending | InFlight | Acknowledged | Rejected

  datatype Row = Row(event: Event, localSequence: nat, predecessor: Option<EventId>, state: RowState)

  datatype Disposition = Applied | Duplicate | Refused

  datatype Limits = Limits(maximumItems: nat, maximumBytes: nat, reservedItems: nat, reservedBytes: nat)

  const DEFAULT_ITEMS := 10_000
  const DEFAULT_BYTES := 64 * 1024 * 1024
  const MAXIMUM_EVENT_BYTES := 65_536

  predicate ValidLimits(limits: Limits) {
    && 1 <= limits.maximumItems <= DEFAULT_ITEMS
    && 1 <= limits.maximumBytes <= DEFAULT_BYTES
    && limits.reservedItems < limits.maximumItems
    && limits.reservedBytes < limits.maximumBytes
  }

  predicate Critical(event: Event) {
    || event.kind.Checkpoint?
    || event.kind.RunResult?
    || (event.kind.AttemptEvent? && event.kind.event != Progress)
  }

  predicate Live(row: Row) {
    row.state.Pending? || row.state.InFlight?
  }

  // ---- queries

  /** The row with this primary key. */
  function Find(rows: seq<Row>, id: EventId): (r: Option<nat>)
    ensures r.Some? ==> r.value < |rows| && rows[r.value].event.eventId == id
    ensures r.Some? ==> forall j :: 0 <= j < r.value ==> rows[j].event.eventId != id
    ensures r == None ==> forall j :: 0 <= j < |rows| ==> rows[j].event.eventId != id
  {
    FindFrom(rows, id, 0)
  }

  function FindFrom(rows: seq<Row>, id: EventId, start: nat): (r: Option<nat>)
    requires start <= |rows|
    ensures r.Some? ==> start <= r.value < |rows| && rows[r.value].event.eventId == id
    ensures r.Some? ==> forall j :: start <= j < r.value ==> rows[j].event.eventId != id
    ensures r == None ==> forall j :: start <= j < |rows| ==> rows[j].event.eventId != id
    decreases |rows| - start
  {
    if start == |rows| then None
    else if rows[start].event.eventId == id then Some(start)
    else FindFrom(rows, id, start + 1)
  }

  /** The rows of one run, or of no run, in the order of the table. */
  function RunRows(rows: seq<Row>, run: Option<RunId>): seq<Row> {
    if rows == [] then []
    else
      var before := RunRows(rows[..|rows| - 1], run);
      if rows[|rows| - 1].event.runId == run then before + [rows[|rows| - 1]] else before
  }

  /** ORDER BY local_sequence DESC LIMIT 1 over the rows of a run. */
  function Newest(rows: seq<Row>, run: Option<RunId>): Option<Row> {
    if rows == [] then None
    else
      var before, last := Newest(rows[..|rows| - 1], run), rows[|rows| - 1];
      if last.event.runId != run then before
      else if before.Some? && before.value.localSequence >= last.localSequence then before
      else Some(last)
  }

  function Bytes(rows: seq<Row>): nat {
    if rows == [] then 0 else Bytes(rows[..|rows| - 1]) + |rows[|rows| - 1].event.json|
  }

  /** The rows of one priority. */
  function Priority(rows: seq<Row>, critical: bool): seq<Row> {
    if rows == [] then []
    else
      var before := Priority(rows[..|rows| - 1], critical);
      if Critical(rows[|rows| - 1].event) == critical then before + [rows[|rows| - 1]] else before
  }

  // ---- statements

  /** The limit that applies to an event: critical events may use the reserve. */
  predicate HasRoom(limits: Limits, rows: seq<Row>, event: Event)
    requires ValidLimits(limits)
  {
    var items := if Critical(event) then limits.maximumItems else limits.maximumItems - limits.reservedItems;
    var bytes := if Critical(event) then limits.maximumBytes else limits.maximumBytes - limits.reservedBytes;
    |rows| < items && Bytes(rows) + |event.json| <= bytes
  }

  function NextRow(rows: seq<Row>, event: Event): Row {
    match Newest(rows, event.runId)
    case None => Row(event, 1, None, Pending)
    case Some(newest) => Row(event, newest.localSequence + 1, Some(newest.event.eventId), Pending)
  }

  /** Why an event is not stored, if it is not; a stored event that is the same counts as stored. */
  function Enqueue(limits: Limits, accepts: Event -> bool, rows: seq<Row>, event: Event): (seq<Row>, Result<Row>)
    requires ValidLimits(limits)
  {
    if !accepts(event) || |event.json| < 1 || |event.json| > MAXIMUM_EVENT_BYTES then
      (rows, Err("RUNNER_OUTBOX_EVENT_INVALID"))
    else match Find(rows, event.eventId)
      case Some(i) => (rows, if rows[i].event == event then Ok(rows[i]) else Err("RUNNER_EVENT_ID_CONFLICT"))
      case None =>
        if !HasRoom(limits, rows, event) then
          (rows, Err(if Critical(event) then "RUNNER_OUTBOX_FULL" else "RUNNER_OUTBOX_RESERVED_CAPACITY"))
        else
          (rows + [NextRow(rows, event)], Ok(NextRow(rows, event)))
  }

  function MarkInFlight(rows: seq<Row>, id: EventId): seq<Row> {
    match Find(rows, id)
    case Some(i) => if rows[i].state.Pending? then rows[i := rows[i].(state := InFlight)] else rows
    case None => rows
  }

  function RequeueRow(row: Row): Row {
    if row.state.InFlight? then row.(state := Pending) else row
  }

  function RequeueInFlight(rows: seq<Row>): (r: seq<Row>)
    ensures |r| == |rows|
    ensures forall i :: 0 <= i < |rows| ==> r[i] == RequeueRow(rows[i])
  {
    if rows == [] then [] else RequeueInFlight(rows[..|rows| - 1]) + [RequeueRow(rows[|rows| - 1])]
  }

  function Target(disposition: Disposition): RowState {
    if disposition.Refused? then Rejected else Acknowledged
  }

  /** Acknowledging a live row, or again a row that was acknowledged the same way. */
  function Acknowledge(rows: seq<Row>, id: EventId, disposition: Disposition): (seq<Row>, Result<Row>) {
    match Find(rows, id)
    case None => (rows, Err("RUNNER_OUTBOX_EVENT_NOT_FOUND"))
    case Some(i) =>
      if Live(rows[i]) then
        var row := rows[i].(state := Target(disposition));
        (rows[i := row], Ok(row))
      else if rows[i].state != Target(disposition) then (rows, Err("RUNNER_OUTBOX_STATE_CONFLICT"))
      else (rows, Ok(rows[i]))
  }

  // ---- invariants

  ghost predicate DistinctIds(rows: seq<Row>) {
    forall i, j :: 0 <= i < j < |rows| ==> rows[i].event.eventId != rows[j].event.eventId
  }

  /** In each run the rows are numbered 1, 2, 3, ... and each names the one before. */
  ghost predicate ChainedRun(chain: seq<Row>) {
    forall k :: 0 <= k < |chain| ==> LinkedAt(chain, k)
  }

  ghost predicate LinkedAt(chain: seq<Row>, k: nat)
    requires k < |chain|
  {
    && chain[k].localSequence == k + 1
    && chain[k].predecessor == if k == 0 then None else Some(chain[k - 1].event.eventId)
  }

  ghost predicate Chained(rows: seq<Row>) {
    forall run :: ChainedRun(RunRows(rows, run))
  }

  ghost predicate TableOk(rows: seq<Row>) {
    DistinctIds(rows) && Chained(rows)
  }

  /** Normal rows stay out of the reserve, and all rows within the limit. */
  ghost predicate WithinLimits(limits: Limits, rows: seq<Row>)
    requires ValidLimits(limits)
  {
    && |rows| <= limits.maximumItems && Bytes(rows) <= limits.maximumBytes
    && |Priority(rows, false)| <= limits.maximumItems - limits.reservedItems
    && Bytes(Priority(rows, false)) <= limits.maximumBytes - limits.reservedBytes
  }

  /** The same rows, with other states. */
  ghost predicate SameButStates(rows: seq<Row>, next: seq<Row>) {
    && |next| == |rows|
    && forall i :: 0 <= i < |rows| ==> next[i] == rows[i].(state := next[i].state)
  }

  lemma {:induction false} FindUnique(rows: seq<Row>, i: nat)
    requires DistinctIds(rows) && i < |rows|
    ensures Find(rows, rows[i].event.eventId) == Some(i)
  {
  }

  lemma {:induction false} SameButStatesKeeps(rows: seq<Row>, next: seq<Row>, run: Option<RunId>, critical: bool)
    requires SameButStates(rows, next)
    ensures SameButStates(RunRows(rows, run), RunRows(next, run))
    ensures Bytes(next) == Bytes(rows)
    ensures SameButStates(Priority(rows, critical), Priority(next, critical))
  {
    if rows != [] {
      SameButStatesKeeps(rows[..|rows| - 1], next[..|next| - 1], run, critical);
    }
  }

  lemma {:induction false} StatesDoNotMatter(limits: Limits, rows: seq<Row>, next: seq<Row>)
    requires ValidLimits(limits) && TableOk(rows) && WithinLimits(limits, rows)
    requires SameButStates(rows, next)
    ensures TableOk(next) && WithinLimits(limits, next)
  {
    hide RunRows, Bytes, Priority;
    forall run ensures ChainedRun(RunRows(next, run)) {
      SameButStatesKeeps(rows, next, run, false);
      assert ChainedRun(RunRows(rows, run));
      ChainWithOtherStates(RunRows(rows, run), RunRows(next, run));
    }
    SameButStatesKeeps(rows, next, None, false);
    SameButStatesKeeps(Priority(rows, false), Priority(next, false), None, false);
  }

  lemma {:induction false} ChainWithOtherStates(chain: seq<Row>, next: seq<Row>)
    requires SameButStates(chain, next) && ChainedRun(chain)
    ensures ChainedRun(next)
  {
    forall k | 0 <= k < |next| ensures LinkedAt(next, k) {
      assert LinkedAt(chain, k);
      assert next[k] == chain[k].(state := next[k].state);
      if k > 0 {
        assert next[k - 1] == chain[k - 1].(state := next[k - 1].state);
      }
    }
  }

  lemma {:induction false} ChainGrows(chain: seq<Row>, row: Row)
    ensures ChainedRun(chain + [row]) <==>
            && ChainedRun(chain)
            && row.localSequence == |chain| + 1
            && row.predecessor == if chain == [] then None else Some(chain[|chain| - 1].event.eventId)
  {
    var grown := chain + [row];
    assert forall k :: 0 <= k < |chain| ==> (LinkedAt(grown, k) <==> LinkedAt(chain, k));
    assert LinkedAt(grown, |chain|) <==>
           && row.localSequence == |chain| + 1
           && row.predecessor == if chain == [] then None else Some(chain[|chain| - 1].event.eventId);
  }

  lemma {:induction false} NewestIsLast(rows: seq<Row>, run: Option<RunId>)
    requires ChainedRun(RunRows(rows, run))
    ensures var chain := RunRows(rows, run);
            Newest(rows, run) == if chain == [] then None else Some(chain[|chain| - 1])
  {
    if rows != [] {
      var before, chain := RunRows(rows[..|rows| - 1], run), RunRows(rows, run);
      ChainGrows(before, rows[|rows| - 1]);
      NewestIsLast(rows[..|rows| - 1], run);
      if rows[|rows| - 1].event.runId == run && before != [] {
        assert LinkedAt(before, |before| - 1);
      }
    }
  }

  lemma {:induction false} EnqueueKeepsTable(limits: Limits, accepts: Event -> bool, rows: seq<Row>, event: Event)
    requires ValidLimits(limits) && TableOk(rows) && WithinLimits(limits, rows)
    ensures var next := Enqueue(limits, accepts, rows, event).0;
            TableOk(next) && WithinLimits(limits, next)
  {
    hide Newest, HasRoom, WithinLimits;
    var next := Enqueue(limits, accepts, rows, event).0;
    if next != rows {
      var row := NextRow(rows, event);
      assert next[..|next| - 1] == rows;
      forall run ensures ChainedRun(RunRows(next, run)) {
        var chain := RunRows(rows, run);
        assert ChainedRun(chain);
        NewestIsLast(rows, run);
        ChainGrows(chain, row);
        assert chain != [] ==> LinkedAt(chain, |chain| - 1);
      }
      EnqueueKeepsLimits(limits, rows, row);
    }
  }

  lemma {:induction false} EnqueueKeepsLimits(limits: Limits, rows: seq<Row>, row: Row)
    requires ValidLimits(limits) && WithinLimits(limits, rows) && HasRoom(limits, rows, row.event)
    ensures WithinLimits(limits, rows + [row])
  {
    hide Critical;
    PriorityBytes(rows);
    var next := rows + [row];
    assert next[..|next| - 1] == rows;
    var normal := Priority(rows, false);
    assert (normal + [row])[..|normal|] == normal;
  }

  /** Every row has one priority. */
  lemma {:induction false} PriorityBytes(rows: seq<Row>)
    ensures |Priority(rows, true)| + |Priority(rows, false)| == |rows|
    ensures Bytes(Priority(rows, true)) + Bytes(Priority(rows, false)) == Bytes(rows)
  {
    if rows != [] {
      var before, last := rows[..|rows| - 1], rows[|rows| - 1];
      PriorityBytes(before);
      var grown := Priority(before, Critical(last.event)) + [last];
      assert grown[..|grown| - 1] == Priority(before, Critical(last.event));
    }
  }

  // ---- every run of the table

  datatype Call =
    | EnqueueCall(event: Event)
    | MarkInFlightCall(id: EventId)
    | RequeueCall
    | AcknowledgeCall(id: EventId, disposition: Disposition)

  function NextTable(limits: Limits, accepts: Event -> bool, rows: seq<Row>, call: Call): seq<Row>
    requires ValidLimits(limits)
  {
    match call
    case EnqueueCall(event) => Enqueue(limits, accepts, rows, event).0
    case MarkInFlightCall(id) => MarkInFlight(rows, id)
    case RequeueCall => RequeueInFlight(rows)
    case AcknowledgeCall(id, disposition) => Acknowledge(rows, id, disposition).0
  }

  function RunTable(limits: Limits, accepts: Event -> bool, calls: seq<Call>): seq<Row>
    requires ValidLimits(limits)
  {
    if calls == [] then []
    else NextTable(limits, accepts, RunTable(limits, accepts, calls[..|calls| - 1]), calls[|calls| - 1])
  }

  lemma {:induction false} NextKeepsTable(limits: Limits, accepts: Event -> bool, rows: seq<Row>, call: Call)
    requires ValidLimits(limits) && TableOk(rows) && WithinLimits(limits, rows)
    ensures var next := NextTable(limits, accepts, rows, call);
            TableOk(next) && WithinLimits(limits, next)
  {
    hide TableOk, WithinLimits;
    if call.EnqueueCall? {
      EnqueueKeepsTable(limits, accepts, rows, call.event);
    } else {
      StatesDoNotMatter(limits, rows, NextTable(limits, accepts, rows, call));
    }
  }

  /** In every reachable table each run is numbered and linked from 1, and the reserve is kept. */
  lemma {:induction false} EveryTableIsChained(limits: Limits, accepts: Event -> bool, calls: seq<Call>)
    requires ValidLimits(limits)
    ensures var rows := RunTable(limits, accepts, calls);
            TableOk(rows) && WithinLimits(limits, rows)
  {
    if calls != [] {
      EveryTableIsChained(limits, accepts, calls[..|calls| - 1]);
      NextKeepsTable(limits, accepts, RunTable(limits, accepts, calls[..|calls| - 1]), calls[|calls| - 1]);
    }
  }

  /** No call removes a row, changes what it identifies, or moves it out of a final state. */
  lemma {:induction false} FinalStatesAbsorb(limits: Limits, accepts: Event -> bool, rows: seq<Row>, call: Call, i: nat)
    requires ValidLimits(limits) && i < |rows|
    ensures var next := NextTable(limits, accepts, rows, call);
            && i < |next| && next[i] == rows[i].(state := next[i].state)
            && (!Live(rows[i]) ==> next[i].state == rows[i].state)
  {
  }

  /** A new critical event is stored whenever the critical rows and it fit in the reserve. */
  lemma {:induction false} ReserveIsForCritical(limits: Limits, accepts: Event -> bool, rows: seq<Row>, event: Event)
    requires ValidLimits(limits) && WithinLimits(limits, rows)
    requires accepts(event) && 1 <= |event.json| <= MAXIMUM_EVENT_BYTES
    requires Find(rows, event.eventId) == None && Critical(event)
    requires |Priority(rows, true)| + 1 <= limits.reservedItems
    requires Bytes(Priority(rows, true)) + |event.json| <= limits.reservedBytes
    ensures Enqueue(limits, accepts, rows, event) == (rows + [NextRow(rows, event)], Ok(NextRow(rows, event)))
  {
    PriorityBytes(rows);
  }

  // ---- what the calls answer

  /** The kinds that may not use the reserve. */
  predicate Ordinary(event: Event) {
    event.kind in {OperationAcknowledgement, Evidence, GateEvent, AttemptEvent(Progress)}
  }

  /**
   * A new event is stored exactly when it is valid and the table with it keeps the limits: all of them for a
   * critical event, and without the reserve for an ordinary one. An error says which.
   */
  lemma {:induction false} NewIsStoredIff(limits: Limits, accepts: Event -> bool, rows: seq<Row>, event: Event)
    requires ValidLimits(limits) && Find(rows, event.eventId) == None
    ensures var (next, r) := Enqueue(limits, accepts, rows, event);
            var items, bytes := if Ordinary(event) then limits.reservedItems else 0, if Ordinary(event) then limits.reservedBytes else 0;
            var grown := rows + [NextRow(rows, event)];
            var fits := |grown| <= limits.maximumItems - items && Bytes(grown) <= limits.maximumBytes - bytes;
            && (r.Ok? <==> accepts(event) && 1 <= |event.json| <= 65_536 && fits)
            && (r == Err("RUNNER_OUTBOX_EVENT_INVALID") <==> !(accepts(event) && 1 <= |event.json| <= 65_536))
            && (r == Err("RUNNER_OUTBOX_RESERVED_CAPACITY") <==> accepts(event) && 1 <= |event.json| <= 65_536 && !fits && Ordinary(event))
            && next == (if r.Ok? then grown else rows)
            && (r.Ok? ==> r.value == grown[|rows|] && r.value.event == event && r.value.state == Pending)
  {
    hide NextRow, HasRoom, Ordinary, Critical, ValidLimits, Bytes;
    NextRowIsPending(rows, event);
    HasRoomIff(limits, rows, NextRow(rows, event));
  }

  lemma {:induction false} HasRoomIff(limits: Limits, rows: seq<Row>, row: Row)
    requires ValidLimits(limits)
    ensures Ordinary(row.event) <==> !Critical(row.event)
    ensures var items, bytes := if Ordinary(row.event) then limits.reservedItems else 0, if Ordinary(row.event) then limits.reservedBytes else 0;
            HasRoom(limits, rows, row.event) <==> |rows + [row]| <= limits.maximumItems - items && Bytes(rows + [row]) <= limits.maximumBytes - bytes
  {
    var grown := rows + [row];
    assert grown[..|grown| - 1] == rows;
  }

  lemma {:induction false} NextRowIsPending(rows: seq<Row>, event: Event)
    ensures NextRow(rows, event).event == event && NextRow(rows, event).state == Pending
  {
  }

  /** The answer to an event that is stored: the row if the content is the same, and otherwise a conflict. */
  lemma {:induction false} StoredIsAnswered(limits: Limits, accepts: Event -> bool, rows: seq<Row>, event: Event, i: nat)
    requires ValidLimits(limits) && DistinctIds(rows) && i < |rows| && rows[i].event.eventId == event.eventId
    requires accepts(event) && 1 <= |event.json| <= 65_536
    ensures Enqueue(limits, accepts, rows, event) ==
              (rows, if rows[i].event == event then Ok(rows[i]) else Err("RUNNER_EVENT_ID_CONFLICT"))
  {
    FindUnique(rows, i);
  }

  /**
   * The server's answer to an event: the first one decides, a rejection for PERMANENTLY_REJECTED and any other for
   * ACKNOWLEDGED; the same again is accepted, the opposite is a conflict; no other row changes.
   */
  lemma {:induction false} FirstAnswerDecides(rows: seq<Row>, id: EventId, disposition: Disposition, i: nat)
    requires DistinctIds(rows) && i < |rows|
    ensures var (next, r) := Acknowledge(rows, id, disposition);
            && |next| == |rows|
            && (rows[i].event.eventId != id ==> next[i] == rows[i])
            && (rows[i].event.eventId == id ==>
                  && next[i] == rows[i].(state := next[i].state)
                  && (rows[i].state in {Pending, InFlight} ==> next[i].state == (if disposition == Refused then Rejected else Acknowledged))
                  && (rows[i].state in {Rejected, Acknowledged} ==> next == rows)
                  && (r.Err? <==> (rows[i].state == Acknowledged && disposition == Refused) || (rows[i].state == Rejected && disposition != Refused))
                  && (r.Err? ==> r == Err("RUNNER_OUTBOX_STATE_CONFLICT")) && (r.Ok? ==> r.value == next[i]))
  {
    FindUnique(rows, i);
  }

  /** In every history a row is rejected only by a rejection of its event, and acknowledged only by another answer. */
  lemma {:induction false} OutcomesWereAnswered(limits: Limits, accepts: Event -> bool, calls: seq<Call>, i: nat)
    requires ValidLimits(limits) && i < |RunTable(limits, accepts, calls)|
    ensures var row := RunTable(limits, accepts, calls)[i];
            && (row.state == Rejected ==> AcknowledgeCall(row.event.eventId, Refused) in calls)
            && (row.state == Acknowledged ==>
                  AcknowledgeCall(row.event.eventId, Applied) in calls || AcknowledgeCall(row.event.eventId, Duplicate) in calls)
  {
    hide Enqueue;
    if calls != [] {
      var before, call := calls[..|calls| - 1], calls[|calls| - 1];
      assert calls == before + [call];
      var rows, next := RunTable(limits, accepts, before), RunTable(limits, accepts, calls);
      EveryTableIsChained(limits, accepts, before);
      if i < |rows| {
        OutcomesWereAnswered(limits, accepts, before, i);
        FinalStatesAbsorb(limits, accepts, rows, call, i);
        if Live(rows[i]) {
          StatesComeFromCalls(limits, accepts, rows, call, i);
        }
      } else {
        GrowsByPending(limits, accepts, rows, call);
      }
    }
  }

  lemma {:induction false} StatesComeFromCalls(limits: Limits, accepts: Event -> bool, rows: seq<Row>, call: Call, i: nat)
    requires ValidLimits(limits) && i < |rows| && Live(rows[i])
    ensures var next := NextTable(limits, accepts, rows, call);
            && i < |next|
            && (next[i].state == Rejected ==> call == AcknowledgeCall(rows[i].event.eventId, Refused))
            && (next[i].state == Acknowledged ==> call.AcknowledgeCall? && call.id == rows[i].event.eventId && call.disposition != Refused)
  {
  }

  lemma {:induction false} GrowsByPending(limits: Limits, accepts: Event -> bool, rows: seq<Row>, call: Call)
    requires ValidLimits(limits)
    ensures var next := NextTable(limits, accepts, rows, call);
            forall i :: |rows| <= i < |next| ==> next[i].state == Pending
  {
    hide Newest;
    if call.EnqueueCall? {
      NextRowIsPending(rows, call.event);
    }
  }

  // ---- the table as the object it is

  /** [A-Z][A-Z0-9_]{0,63} */
  predicate IsRejectionCode(s: string) {
    && 1 <= |s| <= 64 && 'A' <= s[0] <= 'Z'
    && forall i :: 0 <= i < |s| ==> 'A' <= s[i] <= 'Z' || '0' <= s[i] <= '9' || s[i] == '_'
  }

  predicate CodeFits(disposition: Disposition, rejectionCode: Option<string>) {
    if disposition == Refused then rejectionCode.Some? && IsRejectionCode(rejectionCode.value) else rejectionCode == None
  }

  class SemanticOutbox {
    var rows: seq<Row>
    const limits: Limits
    const accepts: Event -> bool

    ghost predicate Valid()
      reads this
    {
      ValidLimits(limits) && TableOk(rows) && WithinLimits(limits, rows)
    }

    constructor (limits: Limits, accepts: Event -> bool)
      requires ValidLimits(limits)
      ensures Valid() && rows == [] && this.limits == limits && this.accepts == accepts
    {
      this.limits := limits;
      this.accepts := accepts;
      rows := [];
    }

    /** SELECT ... WHERE event_id = ? */
    method Select(id: EventId) returns (index: Option<nat>)
      ensures index == Find(rows, id)
    {
      var i := 0;
      while i < |rows|
        invariant 0 <= i <= |rows|
        invariant FindFrom(rows, id, i) == Find(rows, id)
      {
        if rows[i].event.eventId == id {
          return Some(i);
        }
        i := i + 1;
      }
      index := None;
    }

    method Store(event: Event) returns (r: Result<Row>)
      requires Valid()
      modifies this
      ensures Valid()
      ensures (rows, r) == Enqueue(limits, accepts, old(rows), event)
    {
      hide TableOk, WithinLimits, Newest, Bytes, Find;
      EnqueueKeepsTable(limits, accepts, rows, event);
      if !accepts(event) || |event.json| < 1 || |event.json| > MAXIMUM_EVENT_BYTES {
        return Err("RUNNER_OUTBOX_EVENT_INVALID");
      }
      var prior := Select(event.eventId);
      if prior.Some? {
        return if rows[prior.value].event == event then Ok(rows[prior.value]) else Err("RUNNER_EVENT_ID_CONFLICT");
      }
      if !HasRoom(limits, rows, event) {
        return Err(if Critical(event) then "RUNNER_OUTBOX_FULL" else "RUNNER_OUTBOX_RESERVED_CAPACITY");
      }
      var predecessor := Newest(rows, event.runId);
      var sequence := (if predecessor.Some? then predecessor.value.localSequence else 0) + 1;
      var row := Row(event, sequence, if predecessor.Some? then Some(predecessor.value.event.eventId) else None, Pending);
      rows := rows + [row];
      r := Ok(row);
    }

    method Mark(id: EventId) returns (r: Result<Row>)
      requires Valid()
      modifies this
      ensures Valid()
      ensures rows == MarkInFlight(old(rows), id)
      ensures r.Ok? <==> exists i :: 0 <= i < |old(rows)| && old(rows)[i].event.eventId == id && old(rows)[i].state.Pending?
    {
      NextKeepsTable(limits, accepts, rows, MarkInFlightCall(id));
      var index := Select(id);
      if index == None || !rows[index.value].state.Pending? {
        return Err("RUNNER_OUTBOX_STATE_CONFLICT");
      }
      rows := rows[index.value := rows[index.value].(state := InFlight)];
      r := Ok(rows[index.value]);
    }

    method Requeue()
      requires Valid()
      modifies this
      ensures Valid()
      ensures rows == RequeueInFlight(old(rows))
    {
      hide TableOk, WithinLimits;
      NextKeepsTable(limits, accepts, rows, RequeueCall);
      ghost var before := rows;
      var i := 0;
      while i < |rows|
        invariant 0 <= i <= |rows| == |before|
        invariant forall j :: 0 <= j < i ==> rows[j] == RequeueRow(before[j])
        invariant forall j :: i <= j < |rows| ==> rows[j] == before[j]
      {
        if rows[i].state.InFlight? {
          rows := rows[i := rows[i].(state := Pending)];
        }
        i := i + 1;
      }
      assert rows == RequeueInFlight(before);
    }

    /** acknowledge: a rejection comes with its code, and nothing else does. */
    method Finish(id: EventId, disposition: Disposition, rejectionCode: Option<string>) returns (r: Result<Row>)
      requires Valid()
      modifies this
      ensures Valid()
      ensures (rows, r) == if CodeFits(disposition, rejectionCode) then Acknowledge(old(rows), id, disposition)
                           else (old(rows), Err("RUNNER_OUTBOX_ACK_INVALID"))
      ensures r == Err("RUNNER_OUTBOX_ACK_INVALID") <==>
                || (disposition == Refused && (rejectionCode == None || !IsRejectionCode(rejectionCode.value)))
                || (disposition in {Applied, Duplicate} && rejectionCode.Some?)
    {
      if (disposition == Refused && (rejectionCode == None || !IsRejectionCode(rejectionCode.value)))
         || (disposition != Refused && rejectionCode != None) {
        return Err("RUNNER_OUTBOX_ACK_INVALID");
      }
      NextKeepsTable(limits, accepts, rows, AcknowledgeCall(id, disposition));
      var index := Select(id);
      if index == None {
        return Err("RUNNER_OUTBOX_EVENT_NOT_FOUND");
      }
      var row := rows[index.value];
      if Live(row) {
        row := row.(state := Target(disposition));
        rows := rows[index.value := row];
      } else if row.state != Target(disposition) {
        return Err("RUNNER_OUTBOX_STATE_CONFLICT");
      }
      r := Ok(row);
    }
  }
}
