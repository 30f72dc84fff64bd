/** Budgets across restarts, the order of envelopes on the wire, and the retirement of requests. */
module DeliveryLimits {
  import opened Common
  import opened Outbox
  import opened Delivery
  import opened DeliverySafety
  import opened DeliveryOrder

  // ---- what the table would load

  function LiveSize(rows: seq<Row>): nat {
    if rows == [] then 0
    else LiveSize(rows[..|rows| - 1]) +
         (if Live(rows[|rows| - 1]) then Size(EntryOf(rows[|rows| - 1])) else 0)
  }

  function LiveCount(rows: seq<Row>): nat {
    if rows == [] then 0 else LiveCount(rows[..|rows| - 1]) + (if Live(rows[|rows| - 1]) then 1 else 0)
  }

  lemma {:induction false} LiveSizeOfStates(rows: seq<Row>, next: seq<Row>)
    requires SameButStates(rows, next)
    requires forall i :: 0 <= i < |rows| ==> (Live(next[i]) <==> Live(rows[i]))
    ensures LiveSize(next) == LiveSize(rows) && LiveCount(next) == LiveCount(rows)
  {
    if rows != [] {
      LiveSizeOfStates(rows[..|rows| - 1], next[..|next| - 1]);
    }
  }

  lemma {:induction false} LiveSizeOfFinished(rows: seq<Row>, i: nat, state: RowState)
    requires i < |rows| && Live(rows[i]) && state in {Acknowledged, Rejected}
    ensures LiveSize(rows[i := rows[i].(state := state)]) == LiveSize(rows) - Size(EntryOf(rows[i]))
  {
    var next := rows[i := rows[i].(state := state)];
    if i == |rows| - 1 {
      assert next[..i] == rows[..i];
    } else {
      assert next[..|rows| - 1] == rows[..|rows| - 1][i := next[i]];
      LiveSizeOfFinished(rows[..|rows| - 1], i, state);
    }
  }

  /** The rows that wait, each once. */
  ghost predicate Enumerates(rows: seq<Row>, ready: seq<Row>) {
    DistinctIds(ready) && forall row :: row in ready <==> row in rows && row.state.Pending?
  }

  lemma {:induction false} EntriesOfDropped(ready: seq<Row>, k: nat)
    requires k < |ready|
    ensures EntriesOf(ready[..k] + ready[k + 1..]) == Drop(EntriesOf(ready), k)
  {
  }

  lemma {:induction false} EmptyOrSome(ready: seq<Row>)
    ensures ready == [] || exists row :: row in ready
  {
    if ready != [] {
      assert ready[0] in ready;
    }
  }

  lemma {:induction false} ReadySize(rows: seq<Row>, ready: seq<Row>)
    requires DistinctIds(rows) && Enumerates(rows, ready)
    requires forall row :: row in rows && Live(row) ==> row.state.Pending?
    ensures Sizes(EntriesOf(ready)) == LiveSize(rows) && |ready| == LiveCount(rows)
    decreases rows
  {
    hide Sizes, Drop;
    if rows == [] {
      EmptyOrSome(ready);
      assert EntriesOf(ready) == [];
      NoSize();
    } else {
      var before, last := rows[..|rows| - 1], rows[|rows| - 1];
      LastIsNew(rows);
      if last.state.Pending? {
        assert last in ready;
        var k :| 0 <= k < |ready| && ready[k] == last;
        OthersEnumerate(before, last, ready, k);
        ReadySize(before, ready[..k] + ready[k + 1..]);
        SizeWithout(ready, k);
      } else {
        ReadySize(before, ready);
      }
    }
  }

  lemma {:induction false} LastIsNew(rows: seq<Row>)
    requires rows != [] && DistinctIds(rows)
    ensures rows[|rows| - 1] !in rows[..|rows| - 1]
    ensures forall row :: row in rows <==> row in rows[..|rows| - 1] || row == rows[|rows| - 1]
  {
  }

  lemma {:induction false} SizeWithout(ready: seq<Row>, k: nat)
    requires k < |ready|
    ensures Sizes(EntriesOf(ready[..k] + ready[k + 1..])) == Sizes(EntriesOf(ready)) - Size(EntryOf(ready[k]))
  {
    hide Sizes, Drop;
    EntriesOfDropped(ready, k);
    Dropped(EntriesOf(ready), k);
  }

  lemma {:induction false} NoSize()
    ensures Sizes([]) == 0
  {
  }

  lemma {:induction false} OthersEnumerate(before: seq<Row>, last: Row, ready: seq<Row>, k: nat)
    requires last !in before && k < |ready| && ready[k] == last
    requires DistinctIds(ready)
    requires forall row :: row in ready <==> (row in before || row == last) && row.state.Pending?
    ensures Enumerates(before, ready[..k] + ready[k + 1..])
  {
    var others := ready[..k] + ready[k + 1..];
    assert forall i :: 0 <= i < |others| ==> others[i] == ready[if i < k then i else i + 1];
    assert forall row :: row in ready <==> row in others || row == last;
    assert last !in others;
  }

  // ---- memory and table weigh the same

  /** What a step adds to the live rows it adds to the retained durable events. */
  lemma {:induction false} StepBalances(cfg: Config, s: State, step: Step)
    requires ValidConfig(cfg) && StateOk(cfg, s) && OrderOk(s) && FreshStep(Running(s), step) && !step.StopStep?
    ensures var next := StepOf(cfg, s, step);
            LiveSize(next.rows) + Sizes(Durables(Queue(s.memory))) ==
            LiveSize(s.rows) + Sizes(Durables(Queue(next.memory)))
  {
    hide StateOk, OrderOk, Send, FlushLoop, AckEffect, ResponseEffect, Close, Queue, Durables, FreshStep, LiveSize;
    match step
    case SendStep(body, attempts) => SendBalances(cfg, s, body, attempts);
    case FlushStep(attempts) => FlushBalances(cfg, s, attempts);
    case AckStep(id, disposition) => AckBalances(cfg, s, id, disposition);
    case ResponseStep(requestId) => ResponseBalances(cfg, s, requestId);
    case CloseStep =>
      CloseKeepsOk(cfg, s);
      CloseKeepsRows(s);
      DurablesAreFewer(Queue(s.memory));
    case WelcomedStep(attempts) =>
      var active := s.(memory := s.memory.(connection := Active));
      SameQueue(s, active);
      if s.memory.connection == Negotiating {
        OnlyBookkeeping(cfg, s, active);
        FlushBalances(cfg, active, attempts);
      }
    case StopStep =>
    case _ => SameQueue(s, StepOf(cfg, s, step));
  }

  lemma {:induction false} CloseKeepsRows(s: State)
    ensures Close(s).rows == s.rows
  {
  }

  lemma {:induction false} FlushBalances(cfg: Config, s: State, attempts: seq<Attempt>)
    requires ValidConfig(cfg) && StateOk(cfg, s)
    ensures LiveSize(FlushLoop(s, attempts).rows) == LiveSize(s.rows)
    ensures Durables(Queue(FlushLoop(s, attempts).memory)) == Durables(Queue(s.memory))
    decreases |attempts|
  {
    hide StateOk, Deliver, Durables, LiveSize, Queue;
    FlushKeepsOk(cfg, s, attempts);
    if s.memory.outbound != [] && attempts != [] && attempts[0] == Sent {
      DeliverKeepsOk(cfg, s);
      FlushBalances(cfg, Deliver(s), attempts[1..]);
      DeliverKeepsLiveSize(s);
    }
  }

  lemma {:induction false} DeliverKeepsLiveSize(s: State)
    requires s.memory.outbound != []
    ensures LiveSize(Deliver(s).rows) == LiveSize(s.rows)
  {
    hide MarkInFlight, LiveSize, SameButStates;
    if Key(s.memory.outbound[0]).Some? {
      var id := Key(s.memory.outbound[0]).value;
      MarkedStates(s.rows, id);
      LiveSizeOfStates(s.rows, MarkInFlight(s.rows, id));
    }
  }

  lemma {:induction false} SendBalances(cfg: Config, s: State, body: Body, attempts: seq<Attempt>)
    requires ValidConfig(cfg) && StateOk(cfg, s) && FreshStep(Running(s), SendStep(body, attempts))
    ensures var next := Send(cfg, s, body, attempts).0;
            LiveSize(next.rows) + Sizes(Durables(Queue(s.memory))) ==
            LiveSize(s.rows) + Sizes(Durables(Queue(next.memory)))
  {
    hide StateOk, Retained, FlushLoop, Backpressure, Queue, Durables, Sizes, LiveSize, NextRow, HasRoom;
    var accepted := Accept(cfg, s, body);
    if Send(cfg, s, body, attempts).0 != s && accepted.1.Ok? {
      AcceptKeepsOk(cfg, s, body);
      FlushBalances(cfg, accepted.0, attempts);
      var e := Queue(accepted.0.memory)[|Queue(s.memory)|];
      Concatenated(Queue(s.memory), [e]);
      Concatenated(Durables(Queue(s.memory)), Durables([e]));
      One(e);
      NoSize();
      if body.Semantic? {
        NextRowEvent(s.rows, body.event);
        OneMoreRow(s.rows, NextRow(s.rows, body.event));
      }
    }
  }

  lemma {:induction false} OneMoreRow(rows: seq<Row>, row: Row)
    ensures LiveSize(rows + [row]) == LiveSize(rows) + if Live(row) then Size(EntryOf(row)) else 0
  {
    assert (rows + [row])[..|rows|] == rows;
  }

  lemma {:induction false} RetireBalances(cfg: Config, s: State, id: EventId, disposition: Disposition)
    requires ValidConfig(cfg) && StateOk(cfg, s) && OrderOk(s) && Retained(s.memory, id).Some?
    ensures var entry := Retained(s.memory, id).value;
            var (rows, stored) := Acknowledge(s.rows, id, disposition);
            var next := Forget(s.memory, id, entry);
            && (Durable(entry) ==> stored.Ok?)
            && LiveSize(if Durable(entry) then rows else s.rows) + Sizes(Durables(Queue(s.memory))) ==
               LiveSize(s.rows) + Sizes(Durables(Queue(next)))
  {
    hide TableOk, WithinLimits, DistinctKeys, Covered, InOrder, Queue, Sizes, Durables, LiveSize, Drop, IndexOfKey;
    var q, i := Queue(s.memory), IndexOfKey(Queue(s.memory), id);
    ForgetDrops(s.memory, id);
    Dropped(q, i.value);
    var above, below := Durables(q[..i.value]), Durables(q[i.value + 1..]);
    var middle := if Durable(q[i.value]) then [q[i.value]] else [];
    Concatenated(above + middle, below);
    Concatenated(above, middle);
    Concatenated(above, below);
    One(q[i.value]);
    NoSize();
    if Durable(q[i.value]) {
      var k := Find(s.rows, id).value;
      assert q[i.value] in q;
      assert s.rows[k] in s.rows;
      LiveSizeOfFinished(s.rows, k, Target(disposition));
    }
  }

  lemma {:induction false} AckBalances(cfg: Config, s: State, id: EventId, disposition: Disposition)
    requires ValidConfig(cfg) && StateOk(cfg, s) && OrderOk(s)
    ensures var next := AckEffect(s, id, disposition);
            LiveSize(next.rows) + Sizes(Durables(Queue(s.memory))) ==
            LiveSize(s.rows) + Sizes(Durables(Queue(next.memory)))
  {
    hide StateOk, OrderOk, Retained, Acknowledge, Forget, Queue, Durables, LiveSize;
    if Retained(s.memory, id).Some? {
      RetireBalances(cfg, s, id, Refused);
      RetireBalances(cfg, s, id, Applied);
      SameQueue(s, s.(memory := s.memory.(pendingAcknowledgements := s.memory.pendingAcknowledgements + {id})));
    }
  }

  lemma {:induction false} ResponseBalances(cfg: Config, s: State, requestId: RequestId)
    requires ValidConfig(cfg) && StateOk(cfg, s) && OrderOk(s)
    ensures var next := ResponseEffect(s, requestId);
            LiveSize(next.rows) + Sizes(Durables(Queue(s.memory))) ==
            LiveSize(s.rows) + Sizes(Durables(Queue(next.memory)))
  {
    hide StateOk, InOrder, AllLive, Retained, Acknowledge, Forget, Queue, Durables, LiveSize, RequestIndex;
    match RequestIndex(Queue(s.memory), requestId)
    case None =>
    case Some(i) =>
      var id := Queue(s.memory)[i].body.eventId;
      var marked := s.(memory := s.memory.(processedResponses := s.memory.processedResponses + {id}));
      SameQueue(s, marked);
      OnlyBookkeeping(cfg, s, marked);
      if Retained(marked.memory, id).Some? {
        RetireBalances(cfg, marked, id, Applied);
      }
  }

  ghost predicate Weighed(cfg: Config, w: World) {
    && LiveSize(RowsOf(w)) <= cfg.maximumOutboundBytes
    && (w.Running? && w.state.memory.connection != Stopped ==>
          LiveSize(w.state.rows) == Sizes(Durables(Queue(w.state.memory))))
  }

  lemma {:induction false} DurablesFit(cfg: Config, s: State)
    requires ValidConfig(cfg) && StateOk(cfg, s)
    ensures Sizes(Durables(Queue(s.memory))) <= cfg.maximumOutboundBytes
  {
    DurablesAreFewer(Queue(s.memory));
  }

  lemma {:induction false} StoppedRetiresOnly(cfg: Config, s: State, step: Step)
    requires ValidConfig(cfg) && StateOk(cfg, s) && s.memory.connection == Stopped && !step.StopStep?
    ensures Sizes(Durables(Queue(StepOf(cfg, s, step).memory))) <= Sizes(Durables(Queue(s.memory)))
    ensures StepOf(cfg, s, step).memory.connection == Stopped
  {
    hide StateOk, Queue, Durables, Sizes, Retained, Acknowledge, RequestIndex;
    var d := Durables(Queue(s.memory));
    QueueDiscipline(cfg, s, step);
    if Retires(s, step).Some? {
      WithoutIsSmaller(d, Retires(s, step).value);
    }
  }

  lemma {:induction false} WithoutIsSmaller(q: seq<Entry>, id: EventId)
    ensures Sizes(Without(q, id)) <= Sizes(q)
  {
    if IndexOfKey(q, id).Some? {
      Dropped(q, IndexOfKey(q, id).value);
    }
  }

  lemma {:induction false} NextIsWeighed(cfg: Config, w: World, step: Step)
    requires ValidConfig(cfg) && WorldOk(cfg, w) && WorldInOrder(w) && FreshStep(w, step) && Weighed(cfg, w)
    ensures Weighed(cfg, NextWorld(cfg, w, step))
  {
    hide StateOk, OrderOk, StepOf, TableOk, WithinLimits, FreshStep, IsReady, Queue, Sizes, Durables, LiveSize;
    NextKeepsOk(cfg, w, step);
    if step.RestartStep? {
      RowsAreOk(cfg, w);
      RequeuedStates(RowsOf(w));
      LiveSizeOfStates(RowsOf(w), RequeueInFlight(RowsOf(w)));
      if IsReady(RequeueInFlight(RowsOf(w)), step.ready) {
        RestartWeighs(cfg, RowsOf(w), step.ready);
      }
    } else if w.Running? {
      var s, next := w.state, StepOf(cfg, w.state, step);
      DurablesFit(cfg, next);
      if step.StopStep? {
        StopKeepsRows(cfg, s);
      } else {
        StepBalances(cfg, s, step);
        if s.memory.connection == Stopped {
          StoppedRetiresOnly(cfg, s, step);
        }
      }
    }
  }

  lemma {:induction false} StopKeepsRows(cfg: Config, s: State)
    requires ValidConfig(cfg)
    ensures StepOf(cfg, s, StopStep).rows == s.rows && StepOf(cfg, s, StopStep).memory.connection == Stopped
  {
  }

  lemma {:induction false} RestartWeighs(cfg: Config, rows: seq<Row>, ready: seq<Row>)
    requires ValidConfig(cfg) && TableOk(rows) && WithinLimits(cfg.limits, rows)
    requires IsReady(RequeueInFlight(rows), ready)
    ensures Sizes(EntriesOf(ready)) == LiveSize(rows) && |ready| == LiveCount(rows)
    ensures Durables(EntriesOf(ready)) == EntriesOf(ready)
    ensures Queue(Loaded(ready)) == EntriesOf(ready)
  {
    hide Chained, WithinLimits, RequeueInFlight, SameButStates, Sizes, LiveSize;
    var next := RequeueInFlight(rows);
    RequeuedStates(rows);
    StatesDoNotMatter(cfg.limits, rows, next);
    LiveSizeOfStates(rows, next);
    ReadySize(next, ready);
    AllAreDurable(EntriesOf(ready));
    LoadedQueue(ready);
  }

  lemma {:induction false} AllAreDurable(q: seq<Entry>)
    requires forall i :: 0 <= i < |q| ==> Durable(q[i])
    ensures Durables(q) == q
  {
    if q != [] {
      AllAreDurable(q[..|q| - 1]);
    }
  }

  lemma {:induction false} EveryWorldIsWeighed(cfg: Config, steps: seq<Step>)
    requires ValidConfig(cfg) && FreshHistory(cfg, steps)
    ensures Weighed(cfg, History(cfg, steps))
  {
    hide NextWorld, FreshStep, Weighed;
    if steps == [] {
      assert Weighed(cfg, Down([])) by { NothingWeighs(cfg); }
    } else {
      var k := |steps| - 1;
      FreshPrefix(cfg, steps, k);
      EveryWorldIsWeighed(cfg, steps[..k]);
      EveryWorldIsOk(cfg, steps[..k]);
      EveryWorldIsInOrder(cfg, steps[..k]);
      NextIsWeighed(cfg, History(cfg, steps[..k]), steps[k]);
    }
  }

  lemma {:induction false} NothingWeighs(cfg: Config)
    ensures Weighed(cfg, Down([]))
  {
  }

  /**
   * A restart with unchanged limits never exceeds the byte limit. It comes up exactly when no more
   * rows wait for the server than maximumOutboundItems, a limit that sending does not enforce.
   */
  lemma {:induction false} RestartFailsIffTooManyItems(cfg: Config, steps: seq<Step>, ready: seq<Row>)
    requires ValidConfig(cfg) && FreshHistory(cfg, steps)
    requires IsReady(RequeueInFlight(RowsOf(History(cfg, steps))), ready)
    ensures var w := History(cfg, steps);
            && |ready| == LiveCount(RowsOf(w))
            && (NextWorld(cfg, w, RestartStep(ready)).Down? <==> LiveCount(RowsOf(w)) > cfg.maximumOutboundItems)
  {
    hide History, TableOk, WithinLimits, RequeueInFlight, LiveSize, LiveCount;
    EveryWorldIsWeighed(cfg, steps);
    EveryWorldIsOk(cfg, steps);
    RowsAreOk(cfg, History(cfg, steps));
    RestartWeighs(cfg, RowsOf(History(cfg, steps)), ready);
  }

  // ---- envelopes on the wire

  ghost predicate WireOk(m: Memory) {
    && (forall i :: 0 <= i < |m.wire| ==> 1 <= m.wire[i].sequence <= m.outboundSequence)
    && (forall i, j :: 0 <= i < j < |m.wire| ==> m.wire[i].sequence < m.wire[j].sequence)
  }

  lemma {:induction false} FlushKeepsWire(s: State, attempts: seq<Attempt>)
    requires WireOk(s.memory)
    ensures WireOk(FlushLoop(s, attempts).memory)
    decreases |attempts|
  {
    if s.memory.outbound != [] && attempts != [] && attempts[0] == Sent {
      FlushKeepsWire(Deliver(s), attempts[1..]);
    }
  }

  lemma {:induction false} StepKeepsWire(cfg: Config, s: State, step: Step)
    requires ValidConfig(cfg) && WireOk(s.memory)
    ensures WireOk(StepOf(cfg, s, step).memory)
  {
    hide WireOk, FlushLoop, Retained, RequestIndex, Enqueue, Acknowledge;
    match step
    case SendStep(body, attempts) =>
      var accepted := Accept(cfg, s, body).0;
      SameWire(s, accepted);
      FlushKeepsWire(accepted, attempts);
    case FlushStep(attempts) => FlushKeepsWire(s, attempts);
    case WelcomedStep(attempts) =>
      var active := s.(memory := s.memory.(connection := Active));
      SameWire(s, active);
      FlushKeepsWire(active, attempts);
    case ConnectedStep => NewWire(s);
    case _ => SameWire(s, StepOf(cfg, s, step));
  }

  lemma {:induction false} SameWire(s: State, next: State)
    requires WireOk(s.memory)
    requires next.memory.wire == s.memory.wire && next.memory.outboundSequence == s.memory.outboundSequence
    ensures WireOk(next.memory)
  {
  }

  lemma {:induction false} NewWire(s: State)
    ensures WireOk(Connected(s).memory)
  {
  }

  /** In every history the envelopes of a connection carry strictly increasing sequence numbers. */
  lemma {:induction false} EveryWireIncreases(cfg: Config, steps: seq<Step>)
    requires ValidConfig(cfg)
    ensures History(cfg, steps).Running? ==> WireOk(History(cfg, steps).state.memory)
  {
    hide StepOf, WireOk, IsReady;
    if steps != [] {
      var w, step := History(cfg, steps[..|steps| - 1]), steps[|steps| - 1];
      EveryWireIncreases(cfg, steps[..|steps| - 1]);
      if w.Running? {
        StepKeepsWire(cfg, w.state, step);
      }
      if step.RestartStep? {
        LoadedWire(step.ready);
      }
    }
  }

  lemma {:induction false} LoadedWire(ready: seq<Row>)
    ensures WireOk(Loaded(ready))
  {
  }

  // ---- requests

  /**
   * What the server has said: the ids ever sent; and, for each id since it was last queued, whether
   * its response was processed and whether its acknowledgement arrived.
   */
  datatype Log = Log(used: set<EventId>, responded: set<EventId>, acknowledged: set<EventId>)

  function NextLog(cfg: Config, s: State, log: Log, step: Step): Log
    requires ValidConfig(cfg)
  {
    match step
    case SendStep(body, attempts) =>
      if body.Request? && Retained(s.memory, body.eventId) == None && Send(cfg, s, body, attempts).1.Ok? then
        Log(log.used + {body.eventId}, log.responded - {body.eventId}, log.acknowledged - {body.eventId})
      else log
    case AckStep(id, _) =>
      if Retained(s.memory, id).Some? then log.(acknowledged := log.acknowledged + {id}) else log
    case ResponseStep(requestId) =>
      (match Retires(s, step)
       case Some(id) => log.(responded := log.responded + {id})
       case None => log)
    case _ => log
  }

  ghost function HistoryLog(cfg: Config, steps: seq<Step>): Log
    requires ValidConfig(cfg)
  {
    if steps == [] then Log({}, {}, {})
    else
      var w, log := History(cfg, steps[..|steps| - 1]), HistoryLog(cfg, steps[..|steps| - 1]);
      if w.Running? then NextLog(cfg, w.state, log, steps[|steps| - 1]) else log
  }

  /** A request is sent under an event id that no request had before, or is sent again while retained. */
  ghost predicate FreshRequest(w: World, log: Log, step: Step) {
    w.Running? && step.SendStep? && step.body.Request? ==>
      step.body.eventId !in log.used || Retained(w.state.memory, step.body.eventId).Some?
  }

  ghost predicate FreshRequests(cfg: Config, steps: seq<Step>)
    requires ValidConfig(cfg)
  {
    forall k :: 0 <= k < |steps| ==> FreshRequest(History(cfg, steps[..k]), HistoryLog(cfg, steps[..k]), steps[k])
  }

  ghost predicate LogOk(m: Memory, log: Log) {
    && m.processedResponses <= log.used && m.pendingAcknowledgements <= log.used
    && (forall e :: e in Queue(m) && e.body.Request? ==> e.body.eventId in log.used)
    && (forall e :: e in Queue(m) && e.body.Request? ==>
          && (e.body.eventId in m.processedResponses ==> e.body.eventId in log.responded)
          && (e.body.eventId in m.pendingAcknowledgements ==> e.body.eventId in log.acknowledged))
  }

  lemma {:induction false} FewerEntriesKeepLog(m: Memory, next: Memory, log: Log)
    requires LogOk(m, log)
    requires forall e :: e in Queue(next) && e.body.Request? ==> e in Queue(m)
    requires next.processedResponses <= m.processedResponses
    requires next.pendingAcknowledgements <= m.pendingAcknowledgements
    ensures LogOk(next, log)
  {
  }

  lemma {:induction false} FlushKeepsLog(cfg: Config, s: State, attempts: seq<Attempt>, log: Log)
    requires ValidConfig(cfg) && StateOk(cfg, s) && LogOk(s.memory, log)
    ensures LogOk(FlushLoop(s, attempts).memory, log)
    decreases |attempts|
  {
    hide LogOk, StateOk, Deliver, Queue;
    if s.memory.outbound != [] && attempts != [] && attempts[0] == Sent {
      DeliverKeepsOk(cfg, s);
      DeliverKeepsLog(cfg, s, log);
      FlushKeepsLog(cfg, Deliver(s), attempts[1..], log);
    } else {
      SameQueue(s, FlushLoop(s, attempts));
      FewerEntriesKeepLog(s.memory, FlushLoop(s, attempts).memory, log);
    }
  }

  lemma {:induction false} DeliverKeepsLog(cfg: Config, s: State, log: Log)
    requires ValidConfig(cfg) && StateOk(cfg, s) && LogOk(s.memory, log) && s.memory.outbound != []
    ensures LogOk(Deliver(s).memory, log)
  {
    hide TableOk, WithinLimits, Linked, Covered, DistinctKeys, LogOk, Queue, Drop, Sizes;
    DeliverKeepsQueue(s);
    QueueAt(s.memory);
    Dropped(Queue(s.memory), |s.memory.inFlight|);
    FewerEntriesKeepLog(s.memory, Deliver(s).memory, log);
  }

  lemma {:induction false} SendKeepsLog(cfg: Config, s: State, body: Body, attempts: seq<Attempt>, log: Log)
    requires ValidConfig(cfg) && StateOk(cfg, s) && LogOk(s.memory, log)
    requires FreshRequest(Running(s), log, SendStep(body, attempts))
    ensures LogOk(Send(cfg, s, body, attempts).0.memory, NextLog(cfg, s, log, SendStep(body, attempts)))
  {
    hide StateOk, Retained, FlushLoop, Backpressure, Queue, Enqueue;
    var next, accepted := NextLog(cfg, s, log, SendStep(body, attempts)), Accept(cfg, s, body);
    if body.Request? && Retained(s.memory, body.eventId) == None {
      NotRetained(cfg, s, body.eventId);
    }
    assert LogOk(s.memory, next);
    if Send(cfg, s, body, attempts).0 != s && accepted.1.Ok? {
      AcceptKeepsOk(cfg, s, body);
      AcceptKeepsSets(cfg, s, body);
      var e := Queue(accepted.0.memory)[|Queue(s.memory)|];
      assert forall d :: d in Queue(accepted.0.memory) <==> d in Queue(s.memory) || d == e;
      assert LogOk(accepted.0.memory, next);
      FlushKeepsLog(cfg, accepted.0, attempts, next);
    }
  }

  lemma {:induction false} AcceptKeepsSets(cfg: Config, s: State, body: Body)
    requires ValidConfig(cfg)
    ensures var m := Accept(cfg, s, body).0.memory;
            && m.processedResponses == s.memory.processedResponses
            && m.pendingAcknowledgements == s.memory.pendingAcknowledgements
  {
  }

  lemma {:induction false} NotRetained(cfg: Config, s: State, id: EventId)
    requires ValidConfig(cfg) && StateOk(cfg, s) && Retained(s.memory, id) == None
    ensures forall e :: e in Queue(s.memory) ==> Key(e) != Some(id)
  {
    FoundInQueue(s.memory.inFlight, s.memory.outbound, id);
    NoKeyLikeIt(Queue(s.memory), id);
  }

  lemma {:induction false} ForgetKeepsLog(cfg: Config, s: State, id: EventId, log: Log)
    requires ValidConfig(cfg) && StateOk(cfg, s) && Retained(s.memory, id).Some? && LogOk(s.memory, log)
    ensures LogOk(Forget(s.memory, id, Retained(s.memory, id).value), log)
  {
    hide TableOk, WithinLimits, Linked, Covered, DistinctKeys, LogOk, Queue, Drop, Sizes, Retained;
    ForgetDrops(s.memory, id);
    Dropped(Queue(s.memory), IndexOfKey(Queue(s.memory), id).value);
    FewerEntriesKeepLog(s.memory, Forget(s.memory, id, Retained(s.memory, id).value), log);
  }

  /** An id with a retained request that is acknowledged, or answered, is one in use. */
  lemma {:induction false} MarkKeepsLog(m: Memory, next: Memory, id: EventId, log: Log, grown: Log)
    requires LogOk(m, log) && Queue(next) == Queue(m) && id in log.used && grown.used == log.used
    requires log.responded <= grown.responded && log.acknowledged <= grown.acknowledged
    requires || (next.processedResponses == m.processedResponses + {id} && id in grown.responded
                 && next.pendingAcknowledgements == m.pendingAcknowledgements)
             || (next.pendingAcknowledgements == m.pendingAcknowledgements + {id} && id in grown.acknowledged
                 && next.processedResponses == m.processedResponses)
    ensures LogOk(next, grown)
  {
  }

  lemma {:induction false} LargerLog(m: Memory, log: Log, grown: Log)
    requires LogOk(m, log) && grown.used == log.used
    requires log.responded <= grown.responded && log.acknowledged <= grown.acknowledged
    ensures LogOk(m, grown)
  {
  }

  lemma {:induction false} RetainedIsQueued(cfg: Config, s: State, id: EventId)
    requires ValidConfig(cfg) && StateOk(cfg, s) && Retained(s.memory, id).Some?
    ensures Retained(s.memory, id).value in Queue(s.memory) && Key(Retained(s.memory, id).value) == Some(id)
  {
    ForgetDrops(s.memory, id);
  }

  lemma {:induction false} AckKeepsLog(cfg: Config, s: State, id: EventId, disposition: Disposition, log: Log)
    requires ValidConfig(cfg) && StateOk(cfg, s) && LogOk(s.memory, log)
    ensures LogOk(AckEffect(s, id, disposition).memory, NextLog(cfg, s, log, AckStep(id, disposition)))
  {
    hide StateOk, LogOk, Retained, Queue, Acknowledge, Forget;
    var grown := NextLog(cfg, s, log, AckStep(id, disposition));
    LargerLog(s.memory, log, grown);
    if Retained(s.memory, id).Some? {
      var entry := Retained(s.memory, id).value;
      RetainedIsQueued(cfg, s, id);
      if entry.body.Request? && id !in s.memory.processedResponses {
        assert id in log.used by { RequestIsUsed(s.memory, entry, log); }
        SameQueue(s, AckEffect(s, id, disposition));
        MarkKeepsLog(s.memory, AckEffect(s, id, disposition).memory, id, log, grown);
      } else {
        ForgetKeepsLog(cfg, s, id, grown);
      }
    }
  }

  lemma {:induction false} RequestIsUsed(m: Memory, e: Entry, log: Log)
    requires LogOk(m, log) && e in Queue(m) && e.body.Request?
    ensures e.body.eventId in log.used
  {
  }

  lemma {:induction false} ResponseKeepsLog(cfg: Config, s: State, requestId: RequestId, log: Log)
    requires ValidConfig(cfg) && StateOk(cfg, s) && LogOk(s.memory, log)
    ensures LogOk(ResponseEffect(s, requestId).memory, NextLog(cfg, s, log, ResponseStep(requestId)))
  {
    hide StateOk, LogOk, Retained, Queue, Acknowledge, Forget, RequestIndex;
    var grown := NextLog(cfg, s, log, ResponseStep(requestId));
    match RequestIndex(Queue(s.memory), requestId)
    case None =>
    case Some(i) =>
      var id := Queue(s.memory)[i].body.eventId;
      var marked := s.(memory := s.memory.(processedResponses := s.memory.processedResponses + {id}));
      RequestIsUsed(s.memory, Queue(s.memory)[i], log);
      SameQueue(s, marked);
      OnlyBookkeeping(cfg, s, marked);
      MarkKeepsLog(s.memory, marked.memory, id, log, grown);
      if Retained(marked.memory, id).Some? {
        ForgetKeepsLog(cfg, marked, id, grown);
      }
  }

  lemma {:induction false} StepKeepsLog(cfg: Config, s: State, step: Step, log: Log)
    requires ValidConfig(cfg) && StateOk(cfg, s) && LogOk(s.memory, log) && FreshRequest(Running(s), log, step)
    ensures LogOk(StepOf(cfg, s, step).memory, NextLog(cfg, s, log, step))
  {
    hide StateOk, LogOk, Send, FlushLoop, AckEffect, ResponseEffect, Close, Stop, Queue, FreshRequest, Retained;
    match step
    case SendStep(body, attempts) => SendKeepsLog(cfg, s, body, attempts, log);
    case FlushStep(attempts) => FlushKeepsLog(cfg, s, attempts, log);
    case AckStep(id, disposition) => AckKeepsLog(cfg, s, id, disposition, log);
    case ResponseStep(requestId) => ResponseKeepsLog(cfg, s, requestId, log);
    case CloseStep =>
      CloseKeepsOk(cfg, s);
      DurablesAreIn(Queue(s.memory));
      CloseKeepsSets(s);
      FewerEntriesKeepLog(s.memory, Close(s).memory, log);
    case StopStep =>
      StopLeavesNothing(s);
      FewerEntriesKeepLog(s.memory, Stop(s).memory, log);
    case WelcomedStep(attempts) =>
      var active := s.(memory := s.memory.(connection := Active));
      SameQueue(s, active);
      FewerEntriesKeepLog(s.memory, active.memory, log);
      if s.memory.connection == Negotiating {
        OnlyBookkeeping(cfg, s, active);
        FlushKeepsLog(cfg, active, attempts, log);
      }
    case _ =>
      SameQueue(s, StepOf(cfg, s, step));
      FewerEntriesKeepLog(s.memory, StepOf(cfg, s, step).memory, log);
  }

  lemma {:induction false} StopLeavesNothing(s: State)
    ensures Queue(Stop(s).memory) == []
    ensures Stop(s).memory.processedResponses == {} && Stop(s).memory.pendingAcknowledgements == {}
  {
  }

  lemma {:induction false} CloseKeepsSets(s: State)
    ensures Close(s).memory.processedResponses == s.memory.processedResponses
    ensures Close(s).memory.pendingAcknowledgements == s.memory.pendingAcknowledgements
  {
  }

  lemma {:induction false} LoadedKeepsLog(ready: seq<Row>, log: Log)
    ensures LogOk(Loaded(ready), log)
  {
    LoadedQueue(ready);
  }

  lemma {:induction false} FreshRequestsPrefix(cfg: Config, steps: seq<Step>, k: nat)
    requires ValidConfig(cfg) && FreshRequests(cfg, steps) && k <= |steps|
    ensures FreshRequests(cfg, steps[..k])
  {
    hide History, HistoryLog, FreshRequest;
    forall j | 0 <= j < k
      ensures FreshRequest(History(cfg, steps[..k][..j]), HistoryLog(cfg, steps[..k][..j]), steps[..k][j])
    {
      assert steps[..k][..j] == steps[..j];
    }
  }

  lemma {:induction false} EveryLogIsOk(cfg: Config, steps: seq<Step>)
    requires ValidConfig(cfg) && FreshRequests(cfg, steps)
    ensures History(cfg, steps).Running? ==> LogOk(History(cfg, steps).state.memory, HistoryLog(cfg, steps))
  {
    hide StepOf, NextLog, LogOk, IsReady, FreshRequest, StateOk;
    if steps != [] {
      var k := |steps| - 1;
      var w, log := History(cfg, steps[..k]), HistoryLog(cfg, steps[..k]);
      FreshRequestsPrefix(cfg, steps, k);
      EveryLogIsOk(cfg, steps[..k]);
      EveryWorldIsOk(cfg, steps[..k]);
      if steps[k].RestartStep? {
        LoadedKeepsLog(steps[k].ready, HistoryLog(cfg, steps));
        if w.Running? {
          RestartLogsNothing(cfg, w.state, log, steps[k].ready);
        }
      } else if w.Running? {
        StepKeepsLog(cfg, w.state, steps[k], log);
      }
    }
  }

  lemma {:induction false} RestartLogsNothing(cfg: Config, s: State, log: Log, ready: seq<Row>)
    requires ValidConfig(cfg)
    ensures NextLog(cfg, s, log, RestartStep(ready)) == log
  {
  }

  /**
   * In every history with fresh requests, an answer from the server retires a retained request only
   * when, since it was queued, its response was processed and its acknowledgement arrived.
   */
  lemma {:induction false} RequestsAreRetiredByBothAnswers(cfg: Config, steps: seq<Step>, step: Step, id: EventId)
    requires ValidConfig(cfg) && FreshRequests(cfg, steps) && History(cfg, steps).Running?
    requires step.AckStep? || step.ResponseStep?
    requires var m := History(cfg, steps).state.memory; Retained(m, id).Some? && Retained(m, id).value.body.Request?
    requires Retained(StepOf(cfg, History(cfg, steps).state, step).memory, id) == None
    ensures var log := NextLog(cfg, History(cfg, steps).state, HistoryLog(cfg, steps), step);
            id in log.responded && id in log.acknowledged
  {
    hide StateOk, History, HistoryLog, FreshRequests, LogOk, Acknowledge, RequestIndex, Queue, Drop, IndexOfKey;
    var s, log := History(cfg, steps).state, HistoryLog(cfg, steps);
    EveryWorldIsOk(cfg, steps);
    EveryLogIsOk(cfg, steps);
    RetainedIsQueued(cfg, s, id);
    LogOfRequest(s.memory, Retained(s.memory, id).value, log);
    match step
    case AckStep(other, disposition) =>
      if other != id {
        OtherStays(s.memory, id, other);
      }
    case ResponseStep(requestId) =>
      if Retires(s, step).Some? && Retires(s, step).value != id {
        OtherStays(s.memory, id, Retires(s, step).value);
      }
  }

  lemma {:induction false} LogOfRequest(m: Memory, e: Entry, log: Log)
    requires LogOk(m, log) && e in Queue(m) && e.body.Request?
    ensures e.body.eventId in m.processedResponses ==> e.body.eventId in log.responded
    ensures e.body.eventId in m.pendingAcknowledgements ==> e.body.eventId in log.acknowledged
  {
  }

  lemma {:induction false} OtherStays(m: Memory, id: EventId, other: EventId)
    requires Retained(m, id).Some? && id != other
    ensures Retained(m.(inFlight := Without(m.inFlight, other), outbound := Without(m.outbound, other)), id).Some?
  {
    StaysHeld(m.inFlight, id, other);
    StaysHeld(m.outbound, id, other);
  }

  lemma {:induction false} StaysHeld(q: seq<Entry>, id: EventId, other: EventId)
    requires id != other
    ensures Holds(q, id) ==> Holds(Without(q, other), id)
  {
    if Holds(q, id) && Holds(q, other) {
      var i, k := IndexOfKey(q, id).value, IndexOfKey(q, other).value;
      assert Without(q, other)[if i < k then i else i - 1] == q[i];
    }
  }

  // ---- request ids used again

  /** A retained event that is forgotten is not retained any more. */
  lemma {:induction false} ForgottenIsGone(m: Memory, id: EventId)
    requires DistinctKeys(Queue(m)) && Retained(m, id).Some?
    ensures Retained(Forget(m, id, Retained(m, id).value), id) == None
  {
    hide Drop, Without, Size;
    var q, next := Queue(m), Forget(m, id, Retained(m, id).value);
    ForgetDrops(m, id);
    DropLeavesNone(q, id);
    Dropped(q, IndexOfKey(q, id).value);
    FoundInQueue(next.inFlight, next.outbound, id);
  }

  lemma {:induction false} DropLeavesNone(q: seq<Entry>, id: EventId)
    requires DistinctKeys(q) && IndexOfKey(q, id).Some?
    ensures IndexOfKey(Drop(q, IndexOfKey(q, id).value), id) == None
  {
    var k, dropped := IndexOfKey(q, id).value, Drop(q, IndexOfKey(q, id).value);
    forall i | 0 <= i < |dropped| ensures Key(dropped[i]) != Some(id) {
      assert dropped[i] == q[if i < k then i else i + 1];
    }
  }

  /**
   * A request accepted under an id that is not retained, in any history: one acknowledgement alone retires it
   * exactly when a response to an earlier request of that id was processed and that request then lost to a
   * close; one response alone, exactly when such an earlier request had been acknowledged. A close forgets
   * requests and keeps both sets.
   */
  lemma {:induction false} OneAnswerRetiresIff(cfg: Config, s: State, body: Body, disposition: Disposition)
    requires ValidConfig(cfg) && StateOk(cfg, s) && body.Request? && Retained(s.memory, body.eventId) == None
    requires !Backpressure(cfg, s.memory, Size(Entry(body, None)))
    ensures var accepted := Accept(cfg, s, body).0; var id := body.eventId;
            && (Retained(AckEffect(accepted, id, disposition).memory, id) == None <==> id in s.memory.processedResponses)
            && (RequestIndex(Queue(accepted.memory), body.requestId) == IndexOfKey(Queue(accepted.memory), id) ==>
                  (Retained(ResponseEffect(accepted, body.requestId).memory, id) == None <==> id in s.memory.pendingAcknowledgements))
  {
    hide StateOk, Retained, Forget, Acknowledge, RequestIndex, IndexOfKey, Queue, DistinctKeys, Size, Backpressure;
    var accepted, id := Accept(cfg, s, body).0, body.eventId;
    AcceptKeepsOk(cfg, s, body);
    AcceptKeepsSets(cfg, s, body);
    AcceptedIsRetained(cfg, s, body);
    KeysAreDistinct(cfg, accepted);
    ForgottenIsGone(accepted.memory, id);
    var marked := accepted.memory.(processedResponses := accepted.memory.processedResponses + {id});
    SameRetained(accepted.memory, marked, id);
    ForgottenIsGone(marked, id);
    var pending := accepted.memory.(pendingAcknowledgements := accepted.memory.pendingAcknowledgements + {id});
    SameRetained(accepted.memory, pending, id);
  }

  lemma {:induction false} SameRetained(m: Memory, next: Memory, id: EventId)
    requires next.inFlight == m.inFlight && next.outbound == m.outbound
    ensures Retained(next, id) == Retained(m, id) && Queue(next) == Queue(m)
  {
  }

  lemma {:induction false} KeysAreDistinct(cfg: Config, s: State)
    requires ValidConfig(cfg) && StateOk(cfg, s)
    ensures DistinctKeys(Queue(s.memory))
  {
  }

  lemma {:induction false} AcceptedIsRetained(cfg: Config, s: State, body: Body)
    requires ValidConfig(cfg) && StateOk(cfg, s) && body.Request? && Retained(s.memory, body.eventId) == None
    requires !Backpressure(cfg, s.memory, Size(Entry(body, None)))
    ensures Accept(cfg, s, body).1.Ok?
    ensures var m := Accept(cfg, s, body).0.memory;
            && Retained(m, body.eventId) == Some(Entry(body, None)) && IndexOfKey(Queue(m), body.eventId).Some?
            && Queue(m)[IndexOfKey(Queue(m), body.eventId).value] == Entry(body, None)
  {
    hide StateOk, Size, Backpressure, Sizes;
    var m, e := Accept(cfg, s, body).0.memory, Entry(body, None);
    AcceptKeepsOk(cfg, s, body);
    KeysAreDistinct(cfg, Accept(cfg, s, body).0);
    assert Key(e) == Some(body.eventId) && Key(m.outbound[|s.memory.outbound|]) == Some(body.eventId);
    KeyAt(Queue(m), |m.inFlight| + |s.memory.outbound|, body.eventId);
    FoundInQueue(m.inFlight, m.outbound, body.eventId);
  }
}
