/** The order of retained events: kept by every step, and rebuilt by a restart. */
module DeliveryOrder {
  import opened Common
  import opened Outbox
  import opened Delivery
  import opened DeliverySafety

  // ---- the queue discipline

  /** The events a step may retire. */
  function Retires(s: State, step: Step): Option<EventId> {
    match step
    case AckStep(id, _) => Some(id)
    case ResponseStep(requestId) =>
      (match RequestIndex(Queue(s.memory), requestId)
       case Some(i) => Some(Queue(s.memory)[i].body.eventId)
       case None => None)
    case _ => None
  }

  lemma {:induction false} RetiredFromDurables(m: Memory, id: EventId)
    requires DistinctKeys(Queue(m)) && Retained(m, id).Some?
    ensures var entry := Retained(m, id).value;
            Durables(Queue(Forget(m, id, entry))) ==
            if Durable(entry) then Without(Durables(Queue(m)), id) else Durables(Queue(m))
  {
    hide DistinctKeys, Sizes, IndexOfKey, Durables;
    var q, i := Queue(m), IndexOfKey(Queue(m), id);
    ForgetDrops(m, id);
    Dropped(q, i.value);
    DurablesAreDistinct(q);
    var above, below := Durables(q[..i.value]), Durables(q[i.value + 1..]);
    if Durable(q[i.value]) {
      var d := Durables(q);
      assert d[|above|] == q[i.value];
      KeyAt(d, |above|, id);
      assert Drop(d, |above|) == above + below;
    } else {
      assert above + [] + below == above + below;
    }
  }

  /**
   * Within the life of a client, the durable events that are retained, in flight before waiting, only
   * change by appending the event just stored and by removing the one just acknowledged or rejected.
   */
  lemma {:induction false} QueueDiscipline(cfg: Config, s: State, step: Step)
    requires ValidConfig(cfg) && StateOk(cfg, s) && !step.StopStep?
    ensures var before, after := Durables(Queue(s.memory)), Durables(Queue(StepOf(cfg, s, step).memory));
            || after == before
            || (step.SendStep? && step.body.Semantic? && exists c :: after == before + [Entry(step.body, c)])
            || (Retires(s, step).Some? && after == Without(before, Retires(s, step).value))
  {
    hide StateOk, Send, FlushLoop, AckEffect, ResponseEffect, Close, Queue, Durables, Without;
    match step
    case SendStep(body, attempts) => SendDiscipline(cfg, s, body, attempts);
    case FlushStep(attempts) => FlushKeepsOk(cfg, s, attempts);
    case AckStep(id, disposition) => AckDiscipline(cfg, s, id, disposition);
    case ResponseStep(requestId) => ResponseDiscipline(cfg, s, requestId);
    case CloseStep =>
      CloseKeepsOk(cfg, s);
      DurablesAreFewer(Queue(s.memory));
    case WelcomedStep(attempts) =>
      var active := s.(memory := s.memory.(connection := Active));
      SameQueue(s, active);
      if s.memory.connection == Negotiating {
        OnlyBookkeeping(cfg, s, active);
        FlushKeepsOk(cfg, active, attempts);
      }
    case StopStep =>
    case _ => SameQueue(s, StepOf(cfg, s, step));
  }

  lemma {:induction false} SendDiscipline(cfg: Config, s: State, body: Body, attempts: seq<Attempt>)
    requires ValidConfig(cfg) && StateOk(cfg, s)
    ensures var before, after := Durables(Queue(s.memory)), Durables(Queue(Send(cfg, s, body, attempts).0.memory));
            after == before || (body.Semantic? && exists c :: after == before + [Entry(body, c)])
  {
    hide StateOk, Retained, FlushLoop, Accept, Backpressure, Queue, Durables;
    var accepted := Accept(cfg, s, body);
    if Send(cfg, s, body, attempts).0 != s && accepted.1.Ok? {
      AcceptKeepsOk(cfg, s, body);
      FlushKeepsOk(cfg, accepted.0, attempts);
      var e := Queue(accepted.0.memory)[|Queue(s.memory)|];
      assert e == Entry(body, e.continuity);
      Concatenated(Queue(s.memory), [e]);
      One(e);
    }
  }

  lemma {:induction false} AckDiscipline(cfg: Config, s: State, id: EventId, disposition: Disposition)
    requires ValidConfig(cfg) && StateOk(cfg, s)
    ensures var before, after := Durables(Queue(s.memory)), Durables(Queue(AckEffect(s, id, disposition).memory));
            after == before || after == Without(before, id)
  {
    hide TableOk, WithinLimits, Linked, Covered, DistinctKeys, Retained, Acknowledge, Forget, Queue, Durables, Without;
    if Retained(s.memory, id).Some? {
      RetiredFromDurables(s.memory, id);
      SameQueue(s, s.(memory := s.memory.(pendingAcknowledgements := s.memory.pendingAcknowledgements + {id})));
    }
  }

  lemma {:induction false} ResponseDiscipline(cfg: Config, s: State, requestId: RequestId)
    requires ValidConfig(cfg) && StateOk(cfg, s)
    ensures var before, after := Durables(Queue(s.memory)), Durables(Queue(ResponseEffect(s, requestId).memory));
            after == before ||
            (Retires(s, ResponseStep(requestId)).Some? && after == Without(before, Retires(s, ResponseStep(requestId)).value))
  {
    hide TableOk, WithinLimits, Linked, Covered, DistinctKeys, Retained, Acknowledge, Forget, Queue, Durables, Without, RequestIndex;
    match RequestIndex(Queue(s.memory), requestId)
    case None =>
    case Some(i) =>
      var id := Queue(s.memory)[i].body.eventId;
      var marked := s.(memory := s.memory.(processedResponses := s.memory.processedResponses + {id}));
      SameQueue(s, marked);
      if Retained(marked.memory, id).Some? {
        RetiredFromDurables(marked.memory, id);
      }
  }

  // ---- sequence numbers

  function Sequence(e: Entry): nat {
    if e.continuity.Some? then e.continuity.value.localSequence else 0
  }

  predicate SameRun(a: Entry, b: Entry) {
    Durable(a) && Durable(b) && a.body.event.runId == b.body.event.runId
  }

  ghost predicate InOrder(q: seq<Entry>) {
    forall i, j :: 0 <= i < j < |q| && SameRun(q[i], q[j]) ==> Sequence(q[i]) < Sequence(q[j])
  }

  /** No retained event is one the server has already answered for good. */
  ghost predicate AllLive(rows: seq<Row>, q: seq<Entry>) {
    forall row :: row in rows && EntryOf(row) in q ==> Live(row)
  }

  lemma {:induction false} OrderGrows(q: seq<Entry>, e: Entry)
    ensures InOrder(q + [e]) <==> InOrder(q) && forall d :: d in q && SameRun(d, e) ==> Sequence(d) < Sequence(e)
  {
    var grown := q + [e];
    assert grown[|q|] == e;
    assert forall i :: 0 <= i < |q| ==> grown[i] == q[i];
    if InOrder(grown) {
      forall d | d in q && SameRun(d, e) ensures Sequence(d) < Sequence(e) {
        var i :| 0 <= i < |q| && q[i] == d;
        assert SameRun(grown[i], grown[|q|]);
      }
      forall i, j | 0 <= i < j < |q| && SameRun(q[i], q[j]) ensures Sequence(q[i]) < Sequence(q[j]) {
        assert SameRun(grown[i], grown[j]);
      }
    }
  }

  lemma {:induction false} OrderAfterDrop(q: seq<Entry>, i: nat)
    requires i < |q| && InOrder(q)
    ensures InOrder(Drop(q, i))
  {
    var d := Drop(q, i);
    assert forall k :: 0 <= k < |d| ==> d[k] == q[if k < i then k else k + 1];
  }

  lemma {:induction false} OrderOfDurables(q: seq<Entry>)
    requires InOrder(q)
    ensures InOrder(Durables(q))
  {
    hide InOrder, SameRun;
    if q != [] {
      var before, last := q[..|q| - 1], q[|q| - 1];
      assert q == before + [last];
      OrderGrows(before, last);
      OrderOfDurables(before);
      DurablesAreIn(before);
      OrderGrows(Durables(before), last);
    } else {
      assert Durables(q) == q;
    }
  }

  /** A row has the number of its place in the chain of its run. */
  lemma {:induction false} RowInChain(rows: seq<Row>, row: Row)
    requires row in rows
    ensures row in RunRows(rows, row.event.runId)
  {
    if rows[|rows| - 1] != row {
      assert row in rows[..|rows| - 1];
      RowInChain(rows[..|rows| - 1], row);
    }
  }

  lemma {:induction false} ChainIsInTable(rows: seq<Row>, run: Option<RunId>)
    ensures forall row :: row in RunRows(rows, run) <==> row in rows && row.event.runId == run
  {
    if rows != [] {
      ChainIsInTable(rows[..|rows| - 1], run);
      assert forall row :: row in rows <==> row in rows[..|rows| - 1] || row == rows[|rows| - 1];
    }
  }

  lemma {:induction false} NumberOfRow(rows: seq<Row>, row: Row)
    requires Chained(rows) && row in rows
    ensures var chain := RunRows(rows, row.event.runId);
            1 <= row.localSequence <= |chain| && chain[row.localSequence - 1] == row
  {
    hide RunRows;
    var chain := RunRows(rows, row.event.runId);
    RowInChain(rows, row);
    assert ChainedRun(chain);
    var k :| 0 <= k < |chain| && chain[k] == row;
    assert LinkedAt(chain, k);
  }

  lemma {:induction false} NumbersDiffer(rows: seq<Row>, a: Row, b: Row)
    requires Chained(rows) && a in rows && b in rows
    requires a.event.runId == b.event.runId && a.localSequence == b.localSequence
    ensures a == b
  {
    hide Chained, RunRows;
    NumberOfRow(rows, a);
    NumberOfRow(rows, b);
  }

  lemma {:induction false} NextNumber(rows: seq<Row>, event: Event, row: Row)
    requires Chained(rows) && row in rows && row.event.runId == event.runId
    ensures row.localSequence < NextRow(rows, event).localSequence
  {
    hide RunRows, Newest;
    var chain := RunRows(rows, event.runId);
    NumberOfRow(rows, row);
    assert ChainedRun(chain);
    NewestIsLast(rows, event.runId);
    assert LinkedAt(chain, |chain| - 1);
  }

  lemma {:induction false} LinkedRow(rows: seq<Row>, q: seq<Entry>, e: Entry) returns (row: Row)
    requires Linked(rows, q) && e in q && Durable(e)
    ensures row in rows && e == EntryOf(row)
  {
    row := rows[Find(rows, e.body.event.eventId).value];
  }

  // ---- histories whose sends are new

  /** Every durable event that is sent is new to the table, or still retained. */
  ghost predicate FreshStep(w: World, step: Step) {
    w.Running? && step.SendStep? && step.body.Semantic? ==>
      || Find(w.state.rows, step.body.event.eventId) == None
      || Retained(w.state.memory, step.body.event.eventId).Some?
  }

  ghost predicate FreshHistory(cfg: Config, steps: seq<Step>)
    requires ValidConfig(cfg)
  {
    forall k :: 0 <= k < |steps| ==> FreshStep(History(cfg, steps[..k]), steps[k])
  }

  ghost predicate OrderOk(s: State) {
    InOrder(Queue(s.memory)) && AllLive(s.rows, Queue(s.memory))
  }

  lemma {:induction false} OrderAfterStates(rows: seq<Row>, next: seq<Row>, q: seq<Entry>)
    requires AllLive(rows, q)
    requires next == rows || SameButStates(rows, next)
    requires next == rows || forall i :: 0 <= i < |rows| ==> (Live(next[i]) <==> Live(rows[i]))
    ensures AllLive(next, q)
  {
    forall row | row in next && EntryOf(row) in q ensures Live(row) {
      var i :| 0 <= i < |next| && next[i] == row;
      assert rows[i] in rows && EntryOf(rows[i]) == EntryOf(row);
    }
  }

  lemma {:induction false} DeliverKeepsOrder(cfg: Config, s: State)
    requires ValidConfig(cfg) && StateOk(cfg, s) && OrderOk(s) && s.memory.outbound != []
    ensures OrderOk(Deliver(s))
  {
    hide TableOk, WithinLimits, Put, Sizes, MarkInFlight, SameButStates, Linked, Covered, DistinctKeys, Queue, InOrder, AllLive, Drop;
    var m, q := s.memory, Queue(s.memory);
    DeliverKeepsQueue(s);
    QueueAt(m);
    if Key(m.outbound[0]).Some? {
      MarkedStates(s.rows, Key(m.outbound[0]).value);
      OrderAfterStates(s.rows, Deliver(s).rows, q);
    } else {
      OrderAfterDrop(q, |m.inFlight|);
      LiveAfterDrop(s.rows, q, |m.inFlight|);
    }
  }

  lemma {:induction false} LiveAfterDrop(rows: seq<Row>, q: seq<Entry>, i: nat)
    requires i < |q| && AllLive(rows, q)
    ensures AllLive(rows, Drop(q, i))
  {
    Dropped(q, i);
  }

  lemma {:induction false} FlushKeepsOrder(cfg: Config, s: State, attempts: seq<Attempt>)
    requires ValidConfig(cfg) && StateOk(cfg, s) && OrderOk(s)
    ensures OrderOk(FlushLoop(s, attempts))
    decreases |attempts|
  {
    hide StateOk, Deliver, InOrder, AllLive;
    if s.memory.outbound != [] && attempts != [] && attempts[0] == Sent {
      DeliverKeepsOk(cfg, s);
      DeliverKeepsOrder(cfg, s);
      FlushKeepsOrder(cfg, Deliver(s), attempts[1..]);
    } else {
      SameQueue(s, FlushLoop(s, attempts));
    }
  }

  /** A new event goes after everything retained of its run. */
  lemma {:induction false} StoredIsLast(cfg: Config, rows: seq<Row>, event: Event, q: seq<Entry>)
    requires ValidConfig(cfg) && TableOk(rows) && Linked(rows, q) && InOrder(q) && AllLive(rows, q)
    requires Find(rows, event.eventId) == None
    requires Enqueue(cfg.limits, cfg.accepts, rows, event).1.Ok?
    ensures var (next, stored) := Enqueue(cfg.limits, cfg.accepts, rows, event);
            InOrder(q + [EntryOf(stored.value)]) && AllLive(next, q + [EntryOf(stored.value)])
  {
    hide DistinctIds, Chained, InOrder, NextRow, HasRoom, Newest, Linked;
    var (next, stored) := Enqueue(cfg.limits, cfg.accepts, rows, event);
    var row := stored.value;
    NextRowEvent(rows, event);
    forall d | d in q && SameRun(d, EntryOf(row)) ensures Sequence(d) < Sequence(EntryOf(row)) {
      var linked := LinkedRow(rows, q, d);
      NextNumber(rows, event, linked);
    }
    OrderGrows(q, EntryOf(row));
    assert forall other :: other in rows ==> EntryOf(other) != EntryOf(row);
  }

  lemma {:induction false} SendKeepsOrder(cfg: Config, s: State, body: Body, attempts: seq<Attempt>)
    requires ValidConfig(cfg) && StateOk(cfg, s) && OrderOk(s)
    requires FreshStep(Running(s), SendStep(body, attempts))
    ensures OrderOk(Send(cfg, s, body, attempts).0)
  {
    hide TableOk, WithinLimits, DistinctKeys, Linked, Covered, Retained, FlushLoop, Backpressure, Queue, InOrder, AllLive, Enqueue, Sizes;
    var q, accepted := Queue(s.memory), Accept(cfg, s, body);
    if Send(cfg, s, body, attempts).0 != s && accepted.1.Ok? {
      AcceptKeepsOk(cfg, s, body);
      if body.Semantic? {
        var stored := Enqueue(cfg.limits, cfg.accepts, s.rows, body.event).1.value;
        StoredIsLast(cfg, s.rows, body.event, q);
        StoredIsLinked(cfg, s.rows, body.event, q);
        PushedQueue(s.memory, EntryOf(stored));
      } else {
        OthersDoNotMatter(s.rows, q, Entry(body, None));
        PushedQueue(s.memory, Entry(body, None));
      }
      FlushKeepsOrder(cfg, accepted.0, attempts);
    }
  }

  lemma {:induction false} PushedQueue(m: Memory, entry: Entry)
    ensures Queue(m.(outbound := m.outbound + [entry], outboundBytes := m.outboundBytes + Size(entry))) == Queue(m) + [entry]
  {
  }

  lemma {:induction false} OthersDoNotMatter(rows: seq<Row>, q: seq<Entry>, e: Entry)
    requires !Durable(e) && InOrder(q) && AllLive(rows, q)
    ensures InOrder(q + [e]) && AllLive(rows, q + [e])
  {
    OrderGrows(q, e);
  }

  lemma {:induction false} RetireKeepsOrder(cfg: Config, s: State, id: EventId, disposition: Disposition)
    requires ValidConfig(cfg) && StateOk(cfg, s) && OrderOk(s) && Retained(s.memory, id).Some?
    ensures var entry := Retained(s.memory, id).value;
            var rows := if Durable(entry) then Acknowledge(s.rows, id, disposition).0 else s.rows;
            OrderOk(State(rows, Forget(s.memory, id, entry)))
  {
    hide WithinLimits, Chained, Sizes, DistinctKeys, Linked, Covered, Queue, InOrder, Drop;
    var q, i, entry := Queue(s.memory), IndexOfKey(Queue(s.memory), id), Retained(s.memory, id).value;
    ForgetDrops(s.memory, id);
    OrderAfterDrop(q, i.value);
    LiveAfterDrop(s.rows, q, i.value);
    if Durable(entry) {
      RetiredLeavesLive(s.rows, q, i.value, disposition);
    }
  }

  lemma {:induction false} RetiredLeavesLive(rows: seq<Row>, q: seq<Entry>, i: nat, disposition: Disposition)
    requires DistinctIds(rows) && DistinctKeys(q) && i < |q| && Durable(q[i]) && AllLive(rows, q)
    ensures AllLive(Acknowledge(rows, q[i].body.event.eventId, disposition).0, Drop(q, i))
  {
    hide Sizes, Durables;
    var id, d := q[i].body.event.eventId, Drop(q, i);
    var next := Acknowledge(rows, id, disposition).0;
    Dropped(q, i);
    forall row | row in next && EntryOf(row) in d ensures Live(row) {
      var j :| 0 <= j < |next| && next[j] == row;
      assert EntryOf(rows[j]) == EntryOf(row);
      assert row.event.eventId != id by {
        var k :| 0 <= k < |d| && d[k] == EntryOf(row);
        assert d[k] == q[if k < i then k else k + 1];
      }
      assert rows[j] in rows;
    }
  }

  lemma {:induction false} AckKeepsOrder(cfg: Config, s: State, id: EventId, disposition: Disposition)
    requires ValidConfig(cfg) && StateOk(cfg, s) && OrderOk(s)
    ensures OrderOk(AckEffect(s, id, disposition))
  {
    hide StateOk, Retained, Acknowledge, Forget, InOrder, AllLive, Queue;
    if Retained(s.memory, id).Some? {
      var entry := Retained(s.memory, id).value;
      if entry.body.Request? && id !in s.memory.processedResponses {
        SameQueue(s, AckEffect(s, id, disposition));
      } else {
        RetireKeepsOrder(cfg, s, id, Refused);
        RetireKeepsOrder(cfg, s, id, Applied);
      }
    }
  }

  lemma {:induction false} ResponseKeepsOrder(cfg: Config, s: State, requestId: RequestId)
    requires ValidConfig(cfg) && StateOk(cfg, s) && OrderOk(s)
    ensures OrderOk(ResponseEffect(s, requestId))
  {
    hide StateOk, Retained, Acknowledge, Forget, InOrder, AllLive, Queue, RequestIndex;
    match RequestIndex(Queue(s.memory), requestId)
    case None =>
    case Some(i) =>
      var id := Queue(s.memory)[i].body.eventId;
      var marked := s.(memory := s.memory.(processedResponses := s.memory.processedResponses + {id}));
      SameQueue(s, marked);
      OnlyBookkeeping(cfg, s, marked);
      if Retained(marked.memory, id).Some? {
        RetireKeepsOrder(cfg, marked, id, Applied);
      }
  }

  lemma {:induction false} CloseKeepsOrder(cfg: Config, s: State)
    requires ValidConfig(cfg) && StateOk(cfg, s) && OrderOk(s)
    ensures OrderOk(Close(s))
  {
    hide StateOk, InOrder, Queue, Durables, Sizes;
    CloseKeepsOk(cfg, s);
    OrderOfDurables(Queue(s.memory));
    DurablesAreIn(Queue(s.memory));
  }

  lemma {:induction false} ReadyIsInOrder(rows: seq<Row>, ready: seq<Row>)
    requires TableOk(rows) && IsReady(rows, ready)
    ensures InOrder(EntriesOf(ready))
    ensures AllLive(rows, EntriesOf(ready))
  {
    hide Chained;
    var q := EntriesOf(ready);
    forall i, j | 0 <= i < j < |q| && SameRun(q[i], q[j]) ensures Sequence(q[i]) < Sequence(q[j]) {
      assert ready[i] in ready && ready[j] in ready;
      if ready[i].localSequence == ready[j].localSequence {
        NumbersDiffer(rows, ready[i], ready[j]);
      }
    }
    forall row | row in rows && EntryOf(row) in q ensures Live(row) {
      var i :| 0 <= i < |q| && q[i] == EntryOf(row);
      assert ready[i] in ready;
      RowsOfOneEvent(rows, row, ready[i]);
    }
  }

  lemma {:induction false} RowsOfOneEvent(rows: seq<Row>, a: Row, b: Row)
    requires DistinctIds(rows) && a in rows && b in rows && a.event.eventId == b.event.eventId
    ensures a == b
  {
    var i :| 0 <= i < |rows| && rows[i] == a;
    var j :| 0 <= j < |rows| && rows[j] == b;
    FindUnique(rows, i);
    FindUnique(rows, j);
  }

  ghost predicate WorldInOrder(w: World) {
    w.Running? ==> OrderOk(w.state)
  }

  lemma {:induction false} StepKeepsOrder(cfg: Config, s: State, step: Step)
    requires ValidConfig(cfg) && StateOk(cfg, s) && OrderOk(s) && FreshStep(Running(s), step)
    ensures OrderOk(StepOf(cfg, s, step))
  {
    hide StateOk, Send, FlushLoop, AckEffect, ResponseEffect, Close, Queue, InOrder, AllLive, FreshStep;
    match step
    case SendStep(body, attempts) => SendKeepsOrder(cfg, s, body, attempts);
    case FlushStep(attempts) => FlushKeepsOrder(cfg, s, attempts);
    case AckStep(id, disposition) => AckKeepsOrder(cfg, s, id, disposition);
    case ResponseStep(requestId) => ResponseKeepsOrder(cfg, s, requestId);
    case CloseStep => CloseKeepsOrder(cfg, s);
    case StopStep => NothingIsInOrder(s.rows);
      assert Queue(Stop(s).memory) == [] by { StoppedQueue(s); }
    case WelcomedStep(attempts) =>
      var active := s.(memory := s.memory.(connection := Active));
      SameQueue(s, active);
      if s.memory.connection == Negotiating {
        OnlyBookkeeping(cfg, s, active);
        FlushKeepsOrder(cfg, active, attempts);
      }
    case _ => SameQueue(s, StepOf(cfg, s, step));
  }

  lemma {:induction false} StoppedQueue(s: State)
    ensures Queue(Stop(s).memory) == []
  {
  }

  lemma {:induction false} NothingIsInOrder(rows: seq<Row>)
    ensures InOrder([]) && AllLive(rows, [])
  {
  }

  lemma {:induction false} NextKeepsOrder(cfg: Config, w: World, step: Step)
    requires ValidConfig(cfg) && WorldOk(cfg, w) && WorldInOrder(w) && FreshStep(w, step)
    ensures WorldInOrder(NextWorld(cfg, w, step))
  {
    hide StateOk, StepOf, TableOk, WithinLimits, FreshStep, InOrder, AllLive, IsReady;
    if step.RestartStep? {
      RowsAreOk(cfg, w);
      var rows := RequeueInFlight(RowsOf(w));
      if IsReady(rows, step.ready) {
        RequeuedStates(RowsOf(w));
        StatesDoNotMatter(cfg.limits, RowsOf(w), rows);
        ReadyIsInOrder(rows, step.ready);
        LoadedQueue(step.ready);
      }
    } else if w.Running? {
      StepKeepsOrder(cfg, w.state, step);
    }
  }

  lemma {:induction false} LoadedQueue(ready: seq<Row>)
    ensures Queue(Loaded(ready)) == EntriesOf(ready)
  {
  }

  lemma {:induction false} FreshPrefix(cfg: Config, steps: seq<Step>, k: nat)
    requires ValidConfig(cfg) && FreshHistory(cfg, steps) && k <= |steps|
    ensures FreshHistory(cfg, steps[..k])
  {
    hide History, FreshStep;
    forall j | 0 <= j < k ensures FreshStep(History(cfg, steps[..k][..j]), steps[..k][j]) {
      assert steps[..k][..j] == steps[..j];
    }
  }

  /**
   * In every history whose durable sends are new events, what is retained of each run is strictly
   * increasing in local sequence, and is never an event the server has finished with.
   */
  lemma {:induction false} EveryWorldIsInOrder(cfg: Config, steps: seq<Step>)
    requires ValidConfig(cfg) && FreshHistory(cfg, steps)
    ensures WorldInOrder(History(cfg, steps))
  {
    hide NextWorld, FreshStep;
    if steps != [] {
      var k := |steps| - 1;
      FreshPrefix(cfg, steps, k);
      EveryWorldIsInOrder(cfg, steps[..k]);
      EveryWorldIsOk(cfg, steps[..k]);
      NextKeepsOrder(cfg, History(cfg, steps[..k]), steps[k]);
    }
  }

  /**
   * Sending an event again after the server finished with it. The queue stays in order exactly when
   * nothing later of its run is retained.
   */
  lemma {:induction false} ResendKeepsOrderIffNothingLater(cfg: Config, s: State, event: Event)
    requires ValidConfig(cfg) && StateOk(cfg, s) && InOrder(Queue(s.memory))
    requires Retained(s.memory, event.eventId) == None && Find(s.rows, event.eventId).Some?
    requires Accept(cfg, s, Semantic(event)).1.Ok?
    ensures var row := s.rows[Find(s.rows, event.eventId).value];
            InOrder(Queue(Accept(cfg, s, Semantic(event)).0.memory)) <==>
            forall e :: e in Queue(s.memory) && SameRun(e, EntryOf(row)) ==> Sequence(e) < row.localSequence
  {
    hide StateOk, InOrder, Queue, Retained;
    var row := s.rows[Find(s.rows, event.eventId).value];
    PushedQueue(s.memory, EntryOf(row));
    OrderGrows(Queue(s.memory), EntryOf(row));
  }

  // ---- a restart rebuilds the queue

  function OfRun(q: seq<Entry>, run: Option<RunId>): seq<Entry> {
    if q == [] then []
    else
      var before, last := OfRun(q[..|q| - 1], run), q[|q| - 1];
      if Durable(last) && last.body.event.runId == run then before + [last] else before
  }

  ghost predicate Increasing(q: seq<Entry>) {
    forall i, j :: 0 <= i < j < |q| ==> Sequence(q[i]) < Sequence(q[j])
  }

  lemma {:induction false} OfRunIsIncreasing(q: seq<Entry>, run: Option<RunId>)
    requires InOrder(q)
    ensures Increasing(OfRun(q, run))
    ensures forall e :: e in OfRun(q, run) <==> e in q && Durable(e) && e.body.event.runId == run
  {
    hide InOrder;
    if q != [] {
      var before, last := q[..|q| - 1], q[|q| - 1];
      assert q == before + [last];
      OrderGrows(before, last);
      OfRunIsIncreasing(before, run);
      var chosen := OfRun(before, run);
      if Durable(last) && last.body.event.runId == run {
        forall i | 0 <= i < |chosen| ensures Sequence(chosen[i]) < Sequence(last) {
          assert chosen[i] in chosen;
        }
      }
    }
  }

  /** Two strictly increasing lists of the same entries are one list. */
  lemma {:induction false} SameIncreasing(a: seq<Entry>, b: seq<Entry>)
    requires Increasing(a) && Increasing(b)
    requires forall e :: e in a <==> e in b
    ensures a == b
    decreases |a|
  {
    assert a != [] ==> a[0] in b;
    assert b != [] ==> b[0] in a;
    if a != [] {
      var x, y := a[|a| - 1], b[|b| - 1];
      assert x in b && y in a;
      assert Sequence(x) == Sequence(y);
      var k :| 0 <= k < |b| && b[k] == x;
      assert x == y;
      var a', b' := a[..|a| - 1], b[..|b| - 1];
      forall e ensures e in a' <==> e in b' {
        LastIsNotBefore(a, e);
        LastIsNotBefore(b, e);
      }
      SameIncreasing(a', b');
      assert a == a' + [x] && b == b' + [y];
    }
  }

  lemma {:induction false} LastIsNotBefore(a: seq<Entry>, e: Entry)
    requires a != [] && Increasing(a)
    ensures e in a[..|a| - 1] <==> e in a && e != a[|a| - 1]
  {
    var last := |a| - 1;
    if e in a[..last] {
      var i :| 0 <= i < last && a[i] == e;
      assert Sequence(a[i]) < Sequence(a[last]);
    }
  }

  /**
   * Whenever a process dies that retained every waiting row, as it does until stop is called, then whatever
   * the order in which the table returns its rows, the new process retains of every run exactly what the old
   * one retained of it, in the same order.
   */
  lemma {:induction false} RestartRebuildsEveryRun(cfg: Config, s: State, ready: seq<Row>, run: Option<RunId>)
    requires ValidConfig(cfg) && StateOk(cfg, s) && OrderOk(s) && Covered(s.rows, Queue(s.memory))
    requires IsReady(RequeueInFlight(s.rows), ready)
    requires Restart(cfg, s.rows, ready).Running?
    ensures OfRun(Queue(Restart(cfg, s.rows, ready).state.memory), run) == OfRun(Queue(s.memory), run)
  {
    hide Chained, DistinctIds, WithinLimits, Sizes, RequeueInFlight, SameButStates, DistinctKeys, InOrder, Queue, OfRun, Increasing;
    var rows, q, loaded := RequeueInFlight(s.rows), Queue(s.memory), EntriesOf(ready);
    LoadedQueue(ready);
    RequeuedStates(s.rows);
    StatesDoNotMatter(cfg.limits, s.rows, rows);
    StatesKeepOk(cfg, s.rows, rows, q);
    OrderAfterStates(s.rows, rows, q);
    ReadyIsInOrder(rows, ready);
    ReadyIsLinked(rows, ready);
    OfRunIsIncreasing(q, run);
    OfRunIsIncreasing(loaded, run);
    forall e | Durable(e) ensures e in q <==> e in loaded {
      if e in q {
        var row := LinkedRow(rows, q, e);
        assert Live(row);
      }
      if e in loaded {
        var row := LinkedRow(rows, loaded, e);
        assert Live(row);
      }
    }
    SameIncreasing(OfRun(q, run), OfRun(loaded, run));
  }
}
