/** What every history of the delivery protocol keeps. */
module DeliverySafety {
  import opened Common
  import opened Outbox
  import opened Delivery

  // ---- entries

  ghost predicate DistinctKeys(q: seq<Entry>) {
    forall i, j :: 0 <= i < j < |q| && Key(q[i]).Some? ==> Key(q[i]) != Key(q[j])
  }

  lemma {:induction false} Concatenated(a: seq<Entry>, b: seq<Entry>)
    ensures Sizes(a + b) == Sizes(a) + Sizes(b)
    ensures Durables(a + b) == Durables(a) + Durables(b)
  {
    if b == [] {
      assert a + b == a;
      assert Durables(a) + [] == Durables(a);
    } else {
      assert (a + b)[..|a + b| - 1] == a + b[..|b| - 1];
      Concatenated(a, b[..|b| - 1]);
      assert Durables(a) + (Durables(b[..|b| - 1]) + [b[|b| - 1]]) == Durables(a) + Durables(b[..|b| - 1]) + [b[|b| - 1]];
    }
  }

  lemma {:induction false} One(entry: Entry)
    ensures Sizes([entry]) == Size(entry)
    ensures Durables([entry]) == if Durable(entry) then [entry] else []
  {
    assert [entry][..0] == [];
  }

  /** Dropping one entry. */
  lemma {:induction false} Dropped(q: seq<Entry>, i: nat)
    requires i < |q|
    ensures Sizes(Drop(q, i)) == Sizes(q) - Size(q[i])
    ensures DistinctKeys(q) ==> DistinctKeys(Drop(q, i))
    ensures Durables(q) == Durables(q[..i]) + (if Durable(q[i]) then [q[i]] else []) + Durables(q[i + 1..])
    ensures Durables(Drop(q, i)) == Durables(q[..i]) + Durables(q[i + 1..])
    ensures forall e :: e in Drop(q, i) ==> e in q
    ensures forall e :: e in q ==> e == q[i] || e in Drop(q, i)
  {
    hide Sizes, Durables;
    assert q == q[..i] + [q[i]] + q[i + 1..];
    Concatenated(q[..i], [q[i]]);
    Concatenated(q[..i] + [q[i]], q[i + 1..]);
    Concatenated(q[..i], q[i + 1..]);
    One(q[i]);
  }

  lemma {:induction false} FirstKey(q: seq<Entry>, i: nat, id: EventId)
    requires i < |q| && Key(q[i]) == Some(id)
    requires forall j :: 0 <= j < i ==> Key(q[j]) != Some(id)
    ensures IndexOfKey(q, id) == Some(i)
  {
  }

  lemma {:induction false} KeyAt(q: seq<Entry>, i: nat, id: EventId)
    requires DistinctKeys(q) && i < |q| && Key(q[i]) == Some(id)
    ensures IndexOfKey(q, id) == Some(i)
  {
  }

  lemma {:induction false} DropLeft(a: seq<Entry>, b: seq<Entry>, i: nat)
    requires i < |a|
    ensures Drop(a + b, i) == Drop(a, i) + b
  {
  }

  lemma {:induction false} DropRight(a: seq<Entry>, b: seq<Entry>, i: nat)
    requires i < |b|
    ensures Drop(a + b, |a| + i) == a + Drop(b, i)
  {
  }

  /** The key of a retained event finds it in the whole queue. */
  lemma {:induction false} FoundInQueue(a: seq<Entry>, b: seq<Entry>, id: EventId)
    requires DistinctKeys(a + b)
    ensures IndexOfKey(a + b, id) ==
            match IndexOfKey(a, id)
            case Some(i) => Some(i)
            case None => match IndexOfKey(b, id) case Some(j) => Some(|a| + j) case None => None
    ensures IndexOfKey(a, id).Some? ==> IndexOfKey(b, id) == None
  {
    var q := a + b;
    assert forall j :: 0 <= j < |a| ==> q[j] == a[j];
    assert forall j :: 0 <= j < |b| ==> q[|a| + j] == b[j];
    match IndexOfKey(a, id) {
      case Some(i) =>
        FirstKey(q, i, id);
        if IndexOfKey(b, id).Some? {
          KeyAt(q, |a| + IndexOfKey(b, id).value, id);
        }
      case None =>
        match IndexOfKey(b, id) {
          case Some(j) => KeyAt(q, |a| + j, id);
          case None => assert forall k :: 0 <= k < |q| ==> Key(q[k]) != Some(id);
        }
    }
  }

  lemma {:induction false} WithoutInQueue(a: seq<Entry>, b: seq<Entry>, id: EventId)
    requires DistinctKeys(a + b)
    ensures Without(a + b, id) == Without(a, id) + Without(b, id)
  {
    hide IndexOfKey, DistinctKeys, Drop;
    FoundInQueue(a, b, id);
    match IndexOfKey(a, id) {
      case Some(i) => DropLeft(a, b, i);
      case None =>
        match IndexOfKey(b, id) {
          case Some(j) => DropRight(a, b, j);
          case None =>
        }
    }
  }

  lemma {:induction false} DurablesAreIn(q: seq<Entry>)
    ensures forall e :: e in Durables(q) <==> e in q && Durable(e)
  {
    if q != [] {
      DurablesAreIn(q[..|q| - 1]);
      assert forall e :: e in q <==> e in q[..|q| - 1] || e == q[|q| - 1];
    }
  }

  lemma {:induction false} DurablesAreFewer(q: seq<Entry>)
    ensures Sizes(Durables(q)) <= Sizes(q)
    ensures Durables(Durables(q)) == Durables(q)
  {
    if q != [] {
      DurablesAreFewer(q[..|q| - 1]);
      Concatenated(Durables(q[..|q| - 1]), [q[|q| - 1]]);
      One(q[|q| - 1]);
    }
  }

  lemma {:induction false} DistinctGrows(q: seq<Entry>, entry: Entry)
    ensures DistinctKeys(q + [entry]) <==>
            DistinctKeys(q) && forall e :: e in q && Key(e).Some? ==> Key(e) != Key(entry)
  {
    var grown := q + [entry];
    assert grown[|q|] == entry;
    assert forall i :: 0 <= i < |q| ==> grown[i] == q[i];
    if DistinctKeys(grown) {
      forall e | e in q && Key(e).Some? ensures Key(e) != Key(entry) {
        var i :| 0 <= i < |q| && q[i] == e;
        assert grown[i] == e;
      }
    }
  }

  lemma {:induction false} DurablesAreDistinct(q: seq<Entry>)
    requires DistinctKeys(q)
    ensures DistinctKeys(Durables(q))
  {
    hide DistinctKeys;
    if q != [] {
      var before, last := q[..|q| - 1], q[|q| - 1];
      assert q == before + [last];
      DistinctGrows(before, last);
      DurablesAreDistinct(before);
      DurablesAreIn(before);
      DistinctGrows(Durables(before), last);
    } else {
      assert Durables(q) == q;
    }
  }

  // ---- the invariant

  ghost predicate Accounted(cfg: Config, m: Memory) {
    && DistinctKeys(Queue(m))
    && m.outboundBytes == Sizes(Queue(m)) <= cfg.maximumOutboundBytes
  }

  /** Every durable entry is the entry of its row. */
  ghost predicate Linked(rows: seq<Row>, q: seq<Entry>) {
    forall e :: e in q && Durable(e) ==>
      Find(rows, e.body.event.eventId).Some? && e == EntryOf(rows[Find(rows, e.body.event.eventId).value])
  }

  /** Every row that still waits for the server is retained. */
  ghost predicate Covered(rows: seq<Row>, q: seq<Entry>) {
    forall row :: row in rows && Live(row) ==> EntryOf(row) in q
  }

  ghost predicate StateOk(cfg: Config, s: State)
    requires ValidConfig(cfg)
  {
    && TableOk(s.rows) && WithinLimits(cfg.limits, s.rows)
    && Accounted(cfg, s.memory)
    && Linked(s.rows, Queue(s.memory))
    && (s.memory.connection != Stopped ==> Covered(s.rows, Queue(s.memory)))
  }

  ghost predicate WorldOk(cfg: Config, w: World)
    requires ValidConfig(cfg)
  {
    match w
    case Running(s) => StateOk(cfg, s)
    case Down(rows) => TableOk(rows) && WithinLimits(cfg.limits, rows)
  }

  lemma {:induction false} FindSame(rows: seq<Row>, next: seq<Row>, id: EventId)
    requires SameButStates(rows, next)
    ensures Find(next, id) == Find(rows, id)
  {
    var i, j := Find(rows, id), Find(next, id);
    assert forall k :: 0 <= k < |rows| ==> next[k].event == rows[k].event;
    if i.Some? {
      assert next[i.value].event.eventId == id;
    }
    if j.Some? {
      assert rows[j.value].event.eventId == id;
    }
  }

  lemma {:induction false} LinkedAfterStates(rows: seq<Row>, next: seq<Row>, q: seq<Entry>)
    requires SameButStates(rows, next) && Linked(rows, q)
    ensures Linked(next, q)
  {
    forall e | e in q && Durable(e)
      ensures Find(next, e.body.event.eventId).Some? && e == EntryOf(next[Find(next, e.body.event.eventId).value])
    {
      FindSame(rows, next, e.body.event.eventId);
    }
  }

  /** Marking in flight and requeueing change states, but no row's liveness. */
  lemma {:induction false} CoveredAfterStates(rows: seq<Row>, next: seq<Row>, q: seq<Entry>)
    requires SameButStates(rows, next) && Covered(rows, q)
    requires forall i :: 0 <= i < |rows| ==> Live(next[i]) ==> Live(rows[i])
    ensures Covered(next, q)
  {
    forall row | row in next && Live(row) ensures EntryOf(row) in q {
      var i :| 0 <= i < |next| && next[i] == row;
      assert rows[i] in rows && EntryOf(rows[i]) == EntryOf(row);
    }
  }

  lemma {:induction false} MarkedStates(rows: seq<Row>, id: EventId)
    ensures SameButStates(rows, MarkInFlight(rows, id))
    ensures forall i :: 0 <= i < |rows| ==> (Live(MarkInFlight(rows, id)[i]) <==> Live(rows[i]))
  {
  }

  lemma {:induction false} RequeuedStates(rows: seq<Row>)
    ensures SameButStates(rows, RequeueInFlight(rows))
    ensures forall i :: 0 <= i < |rows| ==> (Live(RequeueInFlight(rows)[i]) <==> Live(rows[i]))
    ensures forall row :: row in RequeueInFlight(rows) && Live(row) ==> row.state.Pending?
  {
  }

  // ---- flushing

  /** Sending keeps the retained queue as it is, save for an entry without an event id. */
  lemma {:induction false} DeliverKeepsQueue(s: State)
    requires s.memory.outbound != [] && DistinctKeys(Queue(s.memory))
    ensures var m, next := s.memory, Deliver(s).memory;
            Queue(next) == if Key(m.outbound[0]).Some? then Queue(m) else Drop(Queue(m), |m.inFlight|)
  {
    var m, entry := s.memory, s.memory.outbound[0];
    assert Queue(m)[|m.inFlight|] == entry;
    if Key(entry).Some? {
      var id := Key(entry).value;
      KeyAt(Queue(m), |m.inFlight|, id);
      assert forall i :: 0 <= i < |m.inFlight| ==> m.inFlight[i] == Queue(m)[i];
      assert IndexOfKey(m.inFlight, id) == None;
      assert m.inFlight + [entry] + m.outbound[1..] == Queue(m);
    } else {
      assert Drop(Queue(m), |m.inFlight|) == m.inFlight + m.outbound[1..];
    }
  }

  lemma {:induction false} DeliverKeepsOk(cfg: Config, s: State)
    requires ValidConfig(cfg) && StateOk(cfg, s) && s.memory.outbound != []
    ensures StateOk(cfg, Deliver(s))
    ensures Durables(Queue(Deliver(s).memory)) == Durables(Queue(s.memory))
    ensures Deliver(s).memory.connection == s.memory.connection
  {
    hide TableOk, WithinLimits, Put, Sizes, Durables, MarkInFlight, SameButStates, Linked, Covered, DistinctKeys, Queue;
    var m, entry, q := s.memory, s.memory.outbound[0], Queue(s.memory);
    DeliverKeepsQueue(s);
    assert |m.inFlight| < |q| && q[|m.inFlight|] == entry by { QueueAt(m); }
    if Key(entry).Some? {
      MarkedStates(s.rows, Key(entry).value);
      StatesKeepOk(cfg, s.rows, Deliver(s).rows, q);
    } else {
      Dropped(q, |m.inFlight|);
      DropKeepsLinks(s.rows, q, |m.inFlight|);
      assert Durables(q[..|m.inFlight|]) + [] == Durables(q[..|m.inFlight|]);
    }
  }

  lemma {:induction false} QueueAt(m: Memory)
    requires m.outbound != []
    ensures |m.inFlight| < |Queue(m)| && Queue(m)[|m.inFlight|] == m.outbound[0]
  {
  }

  lemma {:induction false} StatesKeepOk(cfg: Config, rows: seq<Row>, next: seq<Row>, q: seq<Entry>)
    requires ValidConfig(cfg) && TableOk(rows) && WithinLimits(cfg.limits, rows) && Linked(rows, q)
    requires next == rows || SameButStates(rows, next)
    requires next == rows || forall i :: 0 <= i < |rows| ==> (Live(next[i]) <==> Live(rows[i]))
    ensures TableOk(next) && WithinLimits(cfg.limits, next) && Linked(next, q)
    ensures Covered(rows, q) ==> Covered(next, q)
  {
    hide TableOk, WithinLimits, Linked, Covered;
    if next != rows {
      StatesDoNotMatter(cfg.limits, rows, next);
      LinkedAfterStates(rows, next, q);
      if Covered(rows, q) {
        CoveredAfterStates(rows, next, q);
      }
    }
  }

  /** Dropping an entry that is not durable loses no row. */
  lemma {:induction false} DropKeepsLinks(rows: seq<Row>, q: seq<Entry>, i: nat)
    requires i < |q| && Linked(rows, q)
    ensures Linked(rows, Drop(q, i))
    ensures Covered(rows, q) && !Durable(q[i]) ==> Covered(rows, Drop(q, i))
  {
    Dropped(q, i);
  }

  lemma {:induction false} FlushKeepsOk(cfg: Config, s: State, attempts: seq<Attempt>)
    requires ValidConfig(cfg) && StateOk(cfg, s)
    ensures StateOk(cfg, FlushLoop(s, attempts))
    ensures Durables(Queue(FlushLoop(s, attempts).memory)) == Durables(Queue(s.memory))
    ensures FlushLoop(s, attempts).memory.connection == s.memory.connection
    decreases |attempts|
  {
    hide StateOk, Deliver, Durables;
    if s.memory.outbound != [] && attempts != [] && attempts[0] == Sent {
      DeliverKeepsOk(cfg, s);
      FlushKeepsOk(cfg, Deliver(s), attempts[1..]);
    } else {
      OnlyBookkeeping(cfg, s, FlushLoop(s, attempts));
    }
  }

  /** Changes outside the queue, the bytes and the table. */
  lemma {:induction false} OnlyBookkeeping(cfg: Config, s: State, next: State)
    requires ValidConfig(cfg) && StateOk(cfg, s)
    requires next.rows == s.rows && Queue(next.memory) == Queue(s.memory)
    requires next.memory.outboundBytes == s.memory.outboundBytes
    requires s.memory.connection == Stopped ==> next.memory.connection == Stopped
    ensures StateOk(cfg, next)
  {
    hide TableOk, WithinLimits, Linked, Covered, DistinctKeys, Sizes;
  }

  // ---- sending

  lemma {:induction false} FindGrown(rows: seq<Row>, row: Row, id: EventId)
    ensures Find(rows, id).Some? ==> Find(rows + [row], id) == Find(rows, id)
    ensures Find(rows, id) == None ==> Find(rows + [row], id) == if row.event.eventId == id then Some(|rows|) else None
  {
    var grown := rows + [row];
    assert forall j :: 0 <= j < |rows| ==> grown[j] == rows[j];
    assert grown[|rows|] == row;
    var j := Find(grown, id);
    if Find(rows, id).Some? {
      assert grown[Find(rows, id).value].event.eventId == id;
    }
  }

  lemma {:induction false} StoredIsLinked(cfg: Config, rows: seq<Row>, event: Event, q: seq<Entry>)
    requires ValidConfig(cfg) && Linked(rows, q)
    requires Enqueue(cfg.limits, cfg.accepts, rows, event).1.Ok?
    ensures var (next, stored) := Enqueue(cfg.limits, cfg.accepts, rows, event);
            && stored.value.event == event
            && Linked(next, q + [EntryOf(stored.value)])
            && (Covered(rows, q) ==> Covered(next, q + [EntryOf(stored.value)]))
  {
    hide NextRow, HasRoom;
    var (next, stored) := Enqueue(cfg.limits, cfg.accepts, rows, event);
    var row := stored.value;
    assert row.event == event by { NextRowEvent(rows, event); }
    forall e | e in q + [EntryOf(row)] && Durable(e)
      ensures Find(next, e.body.event.eventId).Some? && e == EntryOf(next[Find(next, e.body.event.eventId).value])
    {
      FindGrown(rows, row, e.body.event.eventId);
    }
  }

  lemma {:induction false} NextRowEvent(rows: seq<Row>, event: Event)
    ensures NextRow(rows, event).event == event && NextRow(rows, event).state.Pending?
  {
  }

  lemma {:induction false} NoKeyLikeIt(q: seq<Entry>, id: EventId)
    requires IndexOfKey(q, id) == None
    ensures forall e :: e in q ==> Key(e) != Some(id)
  {
  }

  lemma {:induction false} PushKeepsAccount(cfg: Config, m: Memory, entry: Entry)
    requires Accounted(cfg, m)
    requires Key(entry).Some? ==> Retained(m, Key(entry).value) == None
    requires m.outboundBytes + Size(entry) <= cfg.maximumOutboundBytes
    ensures Accounted(cfg, m.(outbound := m.outbound + [entry], outboundBytes := m.outboundBytes + Size(entry)))
    ensures Queue(m.(outbound := m.outbound + [entry], outboundBytes := m.outboundBytes + Size(entry))) ==
            Queue(m) + [entry]
  {
    hide DistinctKeys, IndexOfKey, Sizes;
    var q := Queue(m);
    assert m.inFlight + (m.outbound + [entry]) == q + [entry];
    Concatenated(q, [entry]);
    One(entry);
    DistinctGrows(q, entry);
    if Key(entry).Some? {
      FoundInQueue(m.inFlight, m.outbound, Key(entry).value);
      NoKeyLikeIt(q, Key(entry).value);
    }
  }

  /** What Accept does when it queues: one entry at the end, linked to its row. */
  lemma {:induction false} AcceptKeepsOk(cfg: Config, s: State, body: Body)
    requires ValidConfig(cfg) && StateOk(cfg, s)
    requires Key(Entry(body, None)).Some? ==> Retained(s.memory, Key(Entry(body, None)).value) == None
    requires !Backpressure(cfg, s.memory, Size(Entry(body, None)))
    requires Accept(cfg, s, body).1.Ok?
    ensures var next := Accept(cfg, s, body).0;
            && StateOk(cfg, next)
            && next.memory.connection == s.memory.connection
            && |Queue(next.memory)| == |Queue(s.memory)| + 1
            && Queue(next.memory) == Queue(s.memory) + [Queue(next.memory)[|Queue(s.memory)|]]
            && Queue(next.memory)[|Queue(s.memory)|].body == body
  {
    hide TableOk, WithinLimits, DistinctKeys, Sizes, Linked, Covered, Enqueue, Retained, Queue;
    var next, q := Accept(cfg, s, body).0, Queue(s.memory);
    if body.Semantic? {
      EnqueueKeepsTable(cfg.limits, cfg.accepts, s.rows, body.event);
      StoredIsLinked(cfg, s.rows, body.event, q);
      PushKeepsAccount(cfg, s.memory, EntryOf(Enqueue(cfg.limits, cfg.accepts, s.rows, body.event).1.value));
    } else {
      PushKeepsAccount(cfg, s.memory, Entry(body, None));
      LinksIgnoreOthers(s.rows, q, Entry(body, None));
    }
  }

  lemma {:induction false} LinksIgnoreOthers(rows: seq<Row>, q: seq<Entry>, e: Entry)
    requires !Durable(e)
    ensures Linked(rows, q) ==> Linked(rows, q + [e])
    ensures Covered(rows, q) ==> Covered(rows, q + [e])
  {
  }

  lemma {:induction false} SendKeepsOk(cfg: Config, s: State, body: Body, attempts: seq<Attempt>)
    requires ValidConfig(cfg) && StateOk(cfg, s)
    ensures StateOk(cfg, Send(cfg, s, body, attempts).0)
  {
    hide StateOk, Retained, FlushLoop, Accept, Backpressure;
    var accepted := Accept(cfg, s, body);
    if Send(cfg, s, body, attempts).0 != s && accepted.1.Ok? {
      AcceptKeepsOk(cfg, s, body);
      FlushKeepsOk(cfg, accepted.0, attempts);
    }
  }

  // ---- retiring

  lemma {:induction false} ForgetDrops(m: Memory, id: EventId)
    requires DistinctKeys(Queue(m)) && Retained(m, id).Some?
    ensures var i := IndexOfKey(Queue(m), id);
            && i.Some? && Queue(m)[i.value] == Retained(m, id).value
            && Queue(Forget(m, id, Retained(m, id).value)) == Drop(Queue(m), i.value)
  {
    hide DistinctKeys, IndexOfKey;
    FoundInQueue(m.inFlight, m.outbound, id);
    WithoutInQueue(m.inFlight, m.outbound, id);
  }

  /** A row is retired with its entry. */
  lemma {:induction false} RetireKeepsCover(rows: seq<Row>, q: seq<Entry>, i: nat, disposition: Disposition)
    requires DistinctIds(rows) && i < |q| && Durable(q[i]) && Linked(rows, q)
    ensures var next := Acknowledge(rows, q[i].body.event.eventId, disposition).0;
            && SameButStates(rows, next)
            && (Covered(rows, q) ==> Covered(next, Drop(q, i)))
  {
    hide Sizes, Durables, DistinctKeys;
    var id := q[i].body.event.eventId;
    var next := Acknowledge(rows, id, disposition).0;
    assert q[i] in q;
    var k := Find(rows, id).value;
    assert forall j :: 0 <= j < |rows| ==> next[j] == rows[j].(state := next[j].state);
    if Covered(rows, q) {
      Dropped(q, i);
      forall row | row in next && Live(row) ensures EntryOf(row) in Drop(q, i) {
        var j :| 0 <= j < |next| && next[j] == row;
        assert j != k;
        assert rows[j] in rows && EntryOf(rows[j]) in q;
      }
    }
  }

  lemma {:induction false} RetireKeepsOk(cfg: Config, s: State, id: EventId, disposition: Disposition)
    requires ValidConfig(cfg) && StateOk(cfg, s) && Retained(s.memory, id).Some?
    ensures var entry := Retained(s.memory, id).value;
            var rows := if Durable(entry) then Acknowledge(s.rows, id, disposition).0 else s.rows;
            StateOk(cfg, State(rows, Forget(s.memory, id, entry)))
  {
    hide WithinLimits, Chained, Sizes, DistinctKeys, Linked, Covered, SameButStates, Queue, Drop;
    var q, i, entry := Queue(s.memory), IndexOfKey(Queue(s.memory), id), Retained(s.memory, id).value;
    ForgetDrops(s.memory, id);
    Dropped(q, i.value);
    DropKeepsLinks(s.rows, q, i.value);
    if Durable(entry) {
      RetireKeepsCover(s.rows, q, i.value, disposition);
      var rows := Acknowledge(s.rows, id, disposition).0;
      StatesDoNotMatter(cfg.limits, s.rows, rows);
      LinkedAfterStates(s.rows, rows, Drop(q, i.value));
    }
  }

  lemma {:induction false} AckKeepsOk(cfg: Config, s: State, id: EventId, disposition: Disposition)
    requires ValidConfig(cfg) && StateOk(cfg, s)
    ensures StateOk(cfg, AckEffect(s, id, disposition))
  {
    hide StateOk, Retained, Acknowledge, Forget;
    if Retained(s.memory, id).Some? {
      var entry := Retained(s.memory, id).value;
      if entry.body.Request? && id !in s.memory.processedResponses {
        OnlyBookkeeping(cfg, s, AckEffect(s, id, disposition));
      } else {
        RetireKeepsOk(cfg, s, id, Refused);
        RetireKeepsOk(cfg, s, id, Applied);
      }
    }
  }

  lemma {:induction false} ResponseKeepsOk(cfg: Config, s: State, requestId: RequestId)
    requires ValidConfig(cfg) && StateOk(cfg, s)
    ensures StateOk(cfg, ResponseEffect(s, requestId))
  {
    hide StateOk, Retained, Acknowledge, Forget, RequestIndex;
    match RequestIndex(Queue(s.memory), requestId)
    case None =>
    case Some(i) =>
      var id := Queue(s.memory)[i].body.eventId;
      var marked := s.(memory := s.memory.(processedResponses := s.memory.processedResponses + {id}));
      OnlyBookkeeping(cfg, s, marked);
      if Retained(marked.memory, id).Some? {
        RetireKeepsOk(cfg, marked, id, Applied);
      }
  }

  // ---- closing and restarting

  lemma {:induction false} CloseKeepsOk(cfg: Config, s: State)
    requires ValidConfig(cfg) && StateOk(cfg, s)
    ensures StateOk(cfg, Close(s))
    ensures Queue(Close(s).memory) == if s.memory.connection == Stopped then Queue(s.memory) else Durables(Queue(s.memory))
  {
    hide TableOk, WithinLimits, Sizes, Durables, DistinctKeys;
    var m := s.memory;
    if m.connection != Stopped {
      Concatenated(m.inFlight, m.outbound);
      DurablesAreIn(Queue(m));
      DurablesAreFewer(Queue(m));
      DurablesAreDistinct(Queue(m));
      assert [] + Durables(Queue(m)) == Durables(Queue(m));
    }
  }

  lemma {:induction false} ReadyIsLinked(rows: seq<Row>, ready: seq<Row>)
    requires DistinctIds(rows) && IsReady(rows, ready)
    ensures Linked(rows, EntriesOf(ready))
    ensures (forall row :: row in rows && Live(row) ==> row.state.Pending?) ==> Covered(rows, EntriesOf(ready))
  {
    var q := EntriesOf(ready);
    forall e | e in q && Durable(e)
      ensures Find(rows, e.body.event.eventId).Some? && e == EntryOf(rows[Find(rows, e.body.event.eventId).value])
    {
      var i :| 0 <= i < |q| && q[i] == e;
      assert ready[i] in rows;
      var k :| 0 <= k < |rows| && rows[k] == ready[i];
      FindUnique(rows, k);
    }
    forall row | row in ready ensures EntryOf(row) in q {
      var i :| 0 <= i < |ready| && ready[i] == row;
      assert q[i] == EntryOf(row);
    }
  }

  lemma {:induction false} ReadyIsDistinct(ready: seq<Row>)
    requires DistinctIds(ready)
    ensures DistinctKeys(EntriesOf(ready))
  {
    assert forall i :: 0 <= i < |ready| ==> Key(EntriesOf(ready)[i]) == Some(ready[i].event.eventId);
  }

  lemma {:induction false} LoadedIsOk(cfg: Config, rows: seq<Row>, ready: seq<Row>)
    requires ValidConfig(cfg) && TableOk(rows) && WithinLimits(cfg.limits, rows)
    requires IsReady(RequeueInFlight(rows), ready)
    ensures WorldOk(cfg, Restart(cfg, rows, ready))
  {
    hide Chained, DistinctIds, WithinLimits, Sizes, RequeueInFlight, SameButStates, DistinctKeys, Linked, Covered;
    var next := RequeueInFlight(rows);
    RequeuedStates(rows);
    StatesDoNotMatter(cfg.limits, rows, next);
    ReadyIsLinked(next, ready);
    ReadyIsDistinct(ready);
    assert [] + EntriesOf(ready) == EntriesOf(ready);
  }

  lemma {:induction false} StopKeepsOk(cfg: Config, s: State)
    requires ValidConfig(cfg) && StateOk(cfg, s)
    ensures StateOk(cfg, Stop(s))
  {
    hide TableOk, WithinLimits;
  }

  // ---- every history

  lemma {:induction false} StepKeepsOk(cfg: Config, s: State, step: Step)
    requires ValidConfig(cfg) && StateOk(cfg, s)
    ensures StateOk(cfg, StepOf(cfg, s, step))
  {
    hide StateOk, Send, FlushLoop, AckEffect, ResponseEffect, Close, Stop, Queue;
    match step
    case SendStep(body, attempts) => SendKeepsOk(cfg, s, body, attempts);
    case FlushStep(attempts) => FlushKeepsOk(cfg, s, attempts);
    case AckStep(id, disposition) => AckKeepsOk(cfg, s, id, disposition);
    case ResponseStep(requestId) => ResponseKeepsOk(cfg, s, requestId);
    case CloseStep => CloseKeepsOk(cfg, s);
    case StopStep => StopKeepsOk(cfg, s);
    case WelcomedStep(attempts) =>
      var active := s.(memory := s.memory.(connection := Active));
      if s.memory.connection == Negotiating {
        SameQueue(s, active);
        OnlyBookkeeping(cfg, s, active);
        FlushKeepsOk(cfg, active, attempts);
      }
    case _ =>
      SameQueue(s, StepOf(cfg, s, step));
      OnlyBookkeeping(cfg, s, StepOf(cfg, s, step));
  }

  lemma {:induction false} SameQueue(s: State, next: State)
    requires next.memory.inFlight == s.memory.inFlight && next.memory.outbound == s.memory.outbound
    ensures Queue(next.memory) == Queue(s.memory)
  {
  }

  lemma {:induction false} NextKeepsOk(cfg: Config, w: World, step: Step)
    requires ValidConfig(cfg) && WorldOk(cfg, w)
    ensures WorldOk(cfg, NextWorld(cfg, w, step))
  {
    hide StateOk, StepOf, Restart, TableOk, WithinLimits;
    if step.RestartStep? {
      assert TableOk(RowsOf(w)) && WithinLimits(cfg.limits, RowsOf(w)) by { RowsAreOk(cfg, w); }
      if IsReady(RequeueInFlight(RowsOf(w)), step.ready) {
        LoadedIsOk(cfg, RowsOf(w), step.ready);
      }
    } else if w.Running? {
      StepKeepsOk(cfg, w.state, step);
    }
  }

  lemma {:induction false} RowsAreOk(cfg: Config, w: World)
    requires ValidConfig(cfg) && WorldOk(cfg, w)
    ensures TableOk(RowsOf(w)) && WithinLimits(cfg.limits, RowsOf(w))
  {
  }

  /**
   * In every history: event ids are retained once; outboundBytes is the size of what is retained and
   * within the limit; every durable entry matches its row; and until the client stops, every row that
   * still waits for the server is retained.
   */
  lemma {:induction false} EveryWorldIsOk(cfg: Config, steps: seq<Step>)
    requires ValidConfig(cfg)
    ensures WorldOk(cfg, History(cfg, steps))
  {
    hide NextWorld;
    if steps == [] {
      EveryTableIsChained(cfg.limits, cfg.accepts, []);
    } else {
      EveryWorldIsOk(cfg, steps[..|steps| - 1]);
      NextKeepsOk(cfg, History(cfg, steps[..|steps| - 1]), steps[|steps| - 1]);
    }
  }

  // ---- until stop is called

  /** stop has been called in this process. */
  ghost predicate Quit(cfg: Config, steps: seq<Step>)
    requires ValidConfig(cfg)
  {
    if steps == [] then false
    else
      var before, last := steps[..|steps| - 1], steps[|steps| - 1];
      if last.StopStep? then true
      else if last.RestartStep? && IsReady(RequeueInFlight(RowsOf(History(cfg, before))), last.ready) then false
      else Quit(cfg, before)
  }

  function Connect(s: State, connection: Connection): State {
    s.(memory := s.memory.(connection := connection))
  }

  lemma {:induction false} CompletesAnyway(s: State, id: EventId, connection: Connection)
    ensures Complete(Connect(s, connection), id) == Connect(Complete(s, id), connection)
    ensures Retained(Connect(s, connection).memory, id) == Retained(s.memory, id)
    ensures forall entry :: Forget(Connect(s, connection).memory, id, entry) == Forget(s.memory, id, entry).(connection := connection)
  {
    hide Acknowledge, IndexOfKey, Without, Size;
  }

  /** An answer of the server does the same whatever the connection is. */
  lemma {:induction false} AnswersIgnoreConnection(cfg: Config, s: State, step: Step, connection: Connection)
    requires ValidConfig(cfg) && (step.AckStep? || step.ResponseStep?)
    ensures StepOf(cfg, Connect(s, connection), step) == Connect(StepOf(cfg, s, step), connection)
  {
    hide Acknowledge, Retained, RequestIndex, Forget, Complete;
    match step
    case AckStep(id, _) => CompletesAnyway(s, id, connection);
    case ResponseStep(requestId) =>
      var i := RequestIndex(Queue(s.memory), requestId);
      if i.Some? {
        var id := Queue(s.memory)[i.value].body.eventId;
        CompletesAnyway(s.(memory := s.memory.(processedResponses := s.memory.processedResponses + {id})), id, connection);
      }
  }

  lemma {:induction false} StepKeepsCover(cfg: Config, s: State, step: Step)
    requires ValidConfig(cfg) && StateOk(cfg, s) && Covered(s.rows, Queue(s.memory)) && !step.StopStep?
    ensures Covered(StepOf(cfg, s, step).rows, Queue(StepOf(cfg, s, step).memory))
  {
    hide Covered, Queue, Send, FlushLoop, AckEffect, ResponseEffect, Durables, TableOk, WithinLimits, Linked, DistinctKeys, Sizes;
    StepKeepsOk(cfg, s, step);
    if step.AckStep? || step.ResponseStep? {
      var other := Connect(s, BackingOff);
      AnswersIgnoreConnection(cfg, s, step, BackingOff);
      SameQueue(s, other);
      StepKeepsOk(cfg, other, step);
      SameQueue(StepOf(cfg, s, step), StepOf(cfg, other, step));
    } else if step.CloseStep? {
      CloseKeepsOk(cfg, s);
      DurablesCover(s.rows, Queue(s.memory));
    } else if StepOf(cfg, s, step).memory.connection == Stopped {
      FlushKeepsConnection(cfg, s, step);
      SameQueue(s, StepOf(cfg, s, step));
    }
  }

  lemma {:induction false} DurablesCover(rows: seq<Row>, q: seq<Entry>)
    requires Covered(rows, q)
    ensures Covered(rows, Durables(q))
  {
    DurablesAreIn(q);
  }

  /** A step that ends stopped, and is none of the above, sends nothing. */
  lemma {:induction false} FlushKeepsConnection(cfg: Config, s: State, step: Step)
    requires ValidConfig(cfg) && StateOk(cfg, s) && StepOf(cfg, s, step).memory.connection == Stopped
    requires !step.AckStep? && !step.ResponseStep? && !step.CloseStep? && !step.StopStep?
    ensures StepOf(cfg, s, step).rows == s.rows
    ensures StepOf(cfg, s, step).memory.inFlight == s.memory.inFlight && StepOf(cfg, s, step).memory.outbound == s.memory.outbound
  {
    hide StateOk, FlushLoop, Accept, Retained;
    match step
    case SendStep(body, attempts) =>
      if StepOf(cfg, s, step) != s {
        AcceptKeepsOk(cfg, s, body);
        FlushKeepsOk(cfg, Accept(cfg, s, body).0, attempts);
      }
    case FlushStep(attempts) => FlushKeepsOk(cfg, s, attempts);
    case WelcomedStep(attempts) =>
      var active := s.(memory := s.memory.(connection := Active));
      if s.memory.connection == Negotiating {
        SameQueue(s, active);
        OnlyBookkeeping(cfg, s, active);
        FlushKeepsOk(cfg, active, attempts);
      }
    case _ =>
  }

  /**
   * In every history, until stop is called, every row that still waits for the server is retained: also
   * after a terminal close or a failed authentication, which keep the queue.
   */
  lemma {:induction false} CoveredUntilStopIsCalled(cfg: Config, steps: seq<Step>)
    requires ValidConfig(cfg) && !Quit(cfg, steps) && History(cfg, steps).Running?
    ensures var s := History(cfg, steps).state; Covered(s.rows, Queue(s.memory))
  {
    hide Covered, StepOf, Queue, RequeueInFlight, IsReady, StateOk;
    var before, last := steps[..|steps| - 1], steps[|steps| - 1];
    var w := History(cfg, before);
    EveryWorldIsOk(cfg, before);
    if last.RestartStep? && IsReady(RequeueInFlight(RowsOf(w)), last.ready) {
      RowsAreOk(cfg, w);
      LoadedIsOk(cfg, RowsOf(w), last.ready);
      LoadedIsCovered(cfg, RowsOf(w), last.ready);
    } else {
      CoveredUntilStopIsCalled(cfg, before);
      if !last.RestartStep? {
        StepKeepsCover(cfg, w.state, last);
      }
    }
  }

  lemma {:induction false} LoadedIsCovered(cfg: Config, rows: seq<Row>, ready: seq<Row>)
    requires ValidConfig(cfg) && WorldOk(cfg, Restart(cfg, rows, ready))
    ensures var w := Restart(cfg, rows, ready); w.Running? ==> Covered(w.state.rows, Queue(w.state.memory))
  {
    hide TableOk, WithinLimits, Linked, Accounted, Covered, RequeueInFlight;
  }

  // ---- a store that fails

  /** completeEvent when the store cannot remove the event: it is forgotten already, and its row is as it was. */
  function RemoveFails(s: State, id: EventId): State {
    match Retained(s.memory, id)
    case None => s
    case Some(entry) => s.(memory := Forget(s.memory, id, entry))
  }

  predicate StillWaits(rows: seq<Row>, entry: Entry) {
    && Durable(entry) && Find(rows, entry.body.event.eventId).Some?
    && Live(rows[Find(rows, entry.body.event.eventId).value])
  }

  /**
   * After a failing remove everything but coverage is kept, and coverage exactly when the event forgotten was none
   * that still waits in the table; the next process retains it again.
   */
  lemma {:induction false} FailedRemoveUncoversIff(cfg: Config, s: State, id: EventId, ready: seq<Row>)
    requires ValidConfig(cfg) && StateOk(cfg, s) && Covered(s.rows, Queue(s.memory)) && Retained(s.memory, id).Some?
    ensures var next := RemoveFails(s, id);
            && TableOk(next.rows) && WithinLimits(cfg.limits, next.rows) && Accounted(cfg, next.memory) && Linked(next.rows, Queue(next.memory))
            && (Covered(next.rows, Queue(next.memory)) <==> !StillWaits(s.rows, Retained(s.memory, id).value))
            && (IsReady(RequeueInFlight(next.rows), ready) && Restart(cfg, next.rows, ready).Running? ==>
                  var after := Restart(cfg, next.rows, ready).state; Covered(after.rows, Queue(after.memory)))
  {
    hide WithinLimits, Chained, Sizes, DistinctKeys, Linked, Covered, Queue, Drop, RequeueInFlight, IsReady, Retained, IndexOfKey, StillWaits;
    var q, next := Queue(s.memory), RemoveFails(s, id);
    ForgetDrops(s.memory, id);
    var i := IndexOfKey(q, id).value;
    Dropped(q, i);
    DropKeepsLinks(s.rows, q, i);
    DropUncoversIff(s.rows, q, i);
    if IsReady(RequeueInFlight(next.rows), ready) {
      LoadedIsOk(cfg, next.rows, ready);
      LoadedIsCovered(cfg, next.rows, ready);
    }
  }

  lemma {:induction false} LiveRowWaits(rows: seq<Row>, row: Row)
    requires DistinctIds(rows) && row in rows && Live(row)
    ensures StillWaits(rows, EntryOf(row))
  {
    var k :| 0 <= k < |rows| && rows[k] == row;
    FindUnique(rows, k);
  }

  lemma {:induction false} DropUncoversIff(rows: seq<Row>, q: seq<Entry>, i: nat)
    requires DistinctIds(rows) && DistinctKeys(q) && Linked(rows, q) && Covered(rows, q) && i < |q|
    ensures Covered(rows, Drop(q, i)) <==> !StillWaits(rows, q[i])
  {
    var e, dropped := q[i], Drop(q, i);
    if StillWaits(rows, e) {
      var row := rows[Find(rows, e.body.event.eventId).value];
      assert e in q && e == EntryOf(row) && row in rows;
      forall k | 0 <= k < |dropped| ensures dropped[k] != e {
        assert dropped[k] == q[if k < i then k else k + 1] && Key(e).Some?;
      }
    } else {
      Dropped(q, i);
      forall row | row in rows && Live(row) ensures EntryOf(row) in dropped {
        LiveRowWaits(rows, row);
      }
    }
  }
}
