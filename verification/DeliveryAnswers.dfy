/** What send answers, what it keeps of what it accepts, and what the flush loop puts on the wire. */
module DeliveryAnswers {
  import opened Common
  import opened Outbox
  import opened Delivery
  import opened DeliverySafety

  // ---- the flush loop

  function Keyed(entries: seq<Entry>): seq<Entry> {
    if entries == [] then []
    else (if Key(entries[0]).Some? then [entries[0]] else []) + Keyed(entries[1..])
  }

  /** One event is among the first entries of a queue. */
  ghost predicate GoesOut(entries: seq<Entry>, id: EventId) {
    exists e :: e in entries && Durable(e) && Key(e) == Some(id)
  }

  /** The first k that wait are on the wire, in order; those with an event id are in flight, and the table says so. */
  ghost predicate Flushed(s: State, next: State, k: nat) {
    var m, n := s.memory, next.memory;
    && k <= |m.outbound| && n.outbound == m.outbound[k..] && n.inFlight == m.inFlight + Keyed(m.outbound[..k])
    && n.outboundSequence >= m.outboundSequence + k && |n.wire| == |m.wire| + k && n.wire[..|m.wire|] == m.wire
    && (forall i :: 0 <= i < k ==> n.wire[|m.wire| + i] == Envelope(m.outboundSequence + i + 1, m.outbound[i]))
    && SameButStates(s.rows, next.rows)
    && forall j :: 0 <= j < |s.rows| ==>
         next.rows[j].state == if s.rows[j].state.Pending? && GoesOut(m.outbound[..k], s.rows[j].event.eventId) then InFlight else s.rows[j].state
  }

  lemma {:induction false} NothingFlushed(s: State, next: State)
    requires next.rows == s.rows && next.memory.outbound == s.memory.outbound && next.memory.inFlight == s.memory.inFlight
    requires next.memory.wire == s.memory.wire && next.memory.outboundSequence >= s.memory.outboundSequence
    ensures Flushed(s, next, 0)
  {
    assert s.memory.inFlight + [] == s.memory.inFlight;
  }

  lemma {:induction false} KeyedCons(entry: Entry, rest: seq<Entry>)
    ensures Keyed([entry] + rest) == (if Key(entry).Some? then [entry] else []) + Keyed(rest)
    ensures forall id :: GoesOut([entry] + rest, id) <==> (Durable(entry) && Key(entry) == Some(id)) || GoesOut(rest, id)
  {
    var all := [entry] + rest;
    assert all[1..] == rest;
    forall id | GoesOut(rest, id) ensures GoesOut(all, id) {
      var e :| e in rest && Durable(e) && Key(e) == Some(id);
      assert e in all;
    }
    forall id | Durable(entry) && Key(entry) == Some(id) ensures GoesOut(all, id) {
      assert entry in all;
    }
  }

  lemma {:induction false} MarkedIs(rows: seq<Row>, id: EventId)
    requires DistinctIds(rows)
    ensures SameButStates(rows, MarkInFlight(rows, id))
    ensures forall j :: 0 <= j < |rows| ==>
              MarkInFlight(rows, id)[j].state == if rows[j].state.Pending? && rows[j].event.eventId == id then InFlight else rows[j].state
  {
  }

  /** One turn of the loop. */
  lemma {:induction false} DeliverIs(s: State)
    requires s.memory.outbound != [] && DistinctKeys(Queue(s.memory)) && DistinctIds(s.rows)
    ensures var m, n, entry := s.memory, Deliver(s).memory, s.memory.outbound[0];
            && n.outbound == m.outbound[1..] && n.inFlight == m.inFlight + (if Key(entry).Some? then [entry] else [])
            && n.outboundSequence == m.outboundSequence + 1 && n.wire == m.wire + [Envelope(m.outboundSequence + 1, entry)]
            && SameButStates(s.rows, Deliver(s).rows)
            && forall j :: 0 <= j < |s.rows| ==>
                 Deliver(s).rows[j].state == if s.rows[j].state.Pending? && Durable(entry) && Key(entry) == Some(s.rows[j].event.eventId)
                                             then InFlight else s.rows[j].state
  {
    hide MarkInFlight, DistinctIds;
    var m, entry := s.memory, s.memory.outbound[0];
    if Key(entry).Some? {
      var id := Key(entry).value;
      MarkedIs(s.rows, id);
      assert Queue(m)[|m.inFlight|] == entry;
      assert forall i :: 0 <= i < |m.inFlight| ==> m.inFlight[i] == Queue(m)[i];
      assert IndexOfKey(m.inFlight, id) == None;
    } else {
      assert m.inFlight + [] == m.inFlight;
    }
  }

  lemma {:induction false} FlushedOnce(s: State, middle: State, next: State, k: nat)
    requires s.memory.outbound != [] && DistinctKeys(Queue(s.memory)) && DistinctIds(s.rows)
    requires middle == Deliver(s) && Flushed(middle, next, k)
    ensures Flushed(s, next, k + 1)
  {
    hide Deliver, DistinctKeys, DistinctIds, GoesOut, Keyed;
    DeliverIs(s);
    var m, entry := s.memory, s.memory.outbound[0];
    var rest := m.outbound[1..];
    assert m.outbound[..k + 1] == [entry] + rest[..k] && m.outbound[k + 1..] == rest[k..];
    KeyedCons(entry, rest[..k]);
    assert m.inFlight + (if Key(entry).Some? then [entry] else []) + Keyed(rest[..k])
           == m.inFlight + ((if Key(entry).Some? then [entry] else []) + Keyed(rest[..k]));
    forall i | 0 <= i < k + 1 ensures next.memory.wire[|m.wire| + i] == Envelope(m.outboundSequence + i + 1, m.outbound[i]) {
      if i == 0 {
        assert next.memory.wire[|m.wire|] == next.memory.wire[..|m.wire| + 1][|m.wire|];
      } else {
        assert next.memory.wire[|m.wire| + 1 + (i - 1)] == Envelope(m.outboundSequence + 1 + (i - 1) + 1, rest[i - 1]);
      }
    }
    assert next.memory.wire[..|m.wire|] == next.memory.wire[..|m.wire| + 1][..|m.wire|];
  }

  /**
   * The flush loop: as many of those that wait as the socket takes in a row, and no more, go on the wire in their
   * order under the next sequence numbers, each marked in the table if it is durable.
   */
  lemma {:induction false} FlushSends(cfg: Config, s: State, attempts: seq<Attempt>) returns (k: nat)
    requires ValidConfig(cfg) && StateOk(cfg, s)
    ensures Flushed(s, FlushLoop(s, attempts), k)
    ensures k <= |attempts| && (forall i :: 0 <= i < k ==> attempts[i] == Sent)
    ensures k == |s.memory.outbound| || k == |attempts| || attempts[k] != Sent
    ensures var refused := k < |s.memory.outbound| && k < |attempts| && attempts[k] == Invalid; var n := FlushLoop(s, attempts).memory;
            && n.outboundSequence == s.memory.outboundSequence + k + (if refused then 1 else 0) && n.terminal == (s.memory.terminal || refused)
    decreases |attempts|
  {
    hide Deliver, Flushed, TableOk, WithinLimits, Accounted, Linked, Covered;
    if s.memory.outbound != [] && attempts != [] && attempts[0] == Sent {
      DeliverKeepsOk(cfg, s);
      k := FlushSends(cfg, Deliver(s), attempts[1..]);
      KeysAndIds(cfg, s);
      FlushedOnce(s, Deliver(s), FlushLoop(s, attempts), k);
      OutboundAfter(cfg, s);
      k := k + 1;
    } else {
      k := 0;
      NothingFlushed(s, FlushLoop(s, attempts));
    }
  }

  lemma {:induction false} OutboundAfter(cfg: Config, s: State)
    requires s.memory.outbound != []
    ensures var m, n := s.memory, Deliver(s).memory;
            |n.outbound| == |m.outbound| - 1 && n.outboundSequence == m.outboundSequence + 1 && n.terminal == m.terminal
  {
  }

  lemma {:induction false} KeysAndIds(cfg: Config, s: State)
    requires ValidConfig(cfg) && StateOk(cfg, s)
    ensures DistinctKeys(Queue(s.memory)) && DistinctIds(s.rows)
  {
  }

  /** What is flushed and has an event id is still retained. */
  lemma {:induction false} FlushedKeeps(s: State, next: State, k: nat, e: Entry)
    requires Flushed(s, next, k) && e in Queue(s.memory) && Key(e).Some?
    ensures e in Queue(next.memory)
  {
    hide GoesOut;
    var m := s.memory;
    assert m.outbound == m.outbound[..k] + m.outbound[k..];
    KeyedHas(m.outbound[..k], e);
  }

  lemma {:induction false} KeyedHas(entries: seq<Entry>, e: Entry)
    ensures e in Keyed(entries) <==> e in entries && Key(e).Some?
  {
    if entries != [] {
      KeyedHas(entries[1..], e);
      assert entries == [entries[0]] + entries[1..];
    }
  }

  // ---- what send answers

  /** An entry of this id is retained, with this digest or another. */
  ghost predicate Held(cfg: Config, m: Memory, id: EventId, body: Body, same: bool) {
    exists e :: e in Queue(m) && Key(e) == Some(id) && (same <==> cfg.sha256(JsonOf(e.body)) == cfg.sha256(JsonOf(body)))
  }

  ghost predicate HeldAtAll(m: Memory, id: EventId) {
    exists e :: e in Queue(m) && Key(e) == Some(id)
  }

  lemma {:induction false} HeldIffRetained(cfg: Config, m: Memory, id: EventId, body: Body)
    requires DistinctKeys(Queue(m))
    ensures HeldAtAll(m, id) <==> Retained(m, id).Some?
    ensures Retained(m, id).Some? ==>
              var e := Retained(m, id).value;
              && e in Queue(m) && Key(e) == Some(id)
              && forall same :: Held(cfg, m, id, body, same) <==> (same <==> cfg.sha256(JsonOf(e.body)) == cfg.sha256(JsonOf(body)))
    ensures Retained(m, id) == None ==> !Held(cfg, m, id, body, true) && !Held(cfg, m, id, body, false)
  {
    hide IndexOfKey;
    var q := Queue(m);
    FoundInQueue(m.inFlight, m.outbound, id);
    if Retained(m, id).Some? {
      var e, i := Retained(m, id).value, IndexOfKey(q, id).value;
      assert q[i] == e;
      forall d | d in q && Key(d) == Some(id) ensures d == e {
        var j :| 0 <= j < |q| && q[j] == d;
        KeyAt(q, j, id);
      }
    } else {
      NoKeyLikeIt(q, id);
    }
  }

  /** No room in the client, or none for this event in the table. */
  ghost predicate NoRoom(cfg: Config, s: State, body: Body)
    requires ValidConfig(cfg)
  {
    var bytes := |JsonOf(body)| + 256;
    || |s.memory.outbound| >= cfg.maximumOutboundItems || Sizes(Queue(s.memory)) + bytes > cfg.maximumOutboundBytes
    || (body.Semantic? && !Storable(cfg, s.rows, body.event))
  }

  ghost predicate Storable(cfg: Config, rows: seq<Row>, event: Event)
    requires ValidConfig(cfg)
  {
    && cfg.accepts(event) && 1 <= |event.json| <= 65_536
    && (StoredAtAll(rows, event.eventId) || HasRoom(cfg.limits, rows, event))
  }

  ghost predicate StoredAtAll(rows: seq<Row>, id: EventId) {
    exists row :: row in rows && row.event.eventId == id
  }

  /** The stored row of an event says something else. */
  ghost predicate StoredOtherwise(rows: seq<Row>, event: Event) {
    exists row :: row in rows && row.event.eventId == event.eventId && row.event != event
  }

  lemma {:induction false} EnqueueConflictsIff(cfg: Config, rows: seq<Row>, event: Event)
    requires ValidConfig(cfg) && DistinctIds(rows)
    ensures var r := Enqueue(cfg.limits, cfg.accepts, rows, event).1;
            && (r == Err("RUNNER_EVENT_ID_CONFLICT") <==> Storable(cfg, rows, event) && StoredOtherwise(rows, event))
            && (r.Ok? <==> Storable(cfg, rows, event) && !StoredOtherwise(rows, event))
  {
    hide HasRoom, NextRow;
    if StoredAtAll(rows, event.eventId) {
      assert Find(rows, event.eventId).Some?;
    }
    if StoredOtherwise(rows, event) {
      var row :| row in rows && row.event.eventId == event.eventId && row.event != event;
      var k :| 0 <= k < |rows| && rows[k] == row;
      FindUnique(rows, k);
    }
  }

  /**
   * The answers of send. It conflicts exactly when the id is retained with other content, or, where it is not
   * retained and there is room in the client, stored with other content; any error leaves everything as it was.
   */
  lemma {:induction false} SendAnswers(cfg: Config, s: State, body: Body, attempts: seq<Attempt>)
    requires ValidConfig(cfg) && StateOk(cfg, s)
    ensures var (next, r) := Send(cfg, s, body, attempts); var key := Key(Entry(body, None));
            && (r == Err("RUNNER_CONNECTION_INACTIVE") <==> s.memory.connection != Active)
            && (r == Err("RUNNER_OUTBOUND_INVALID") <==> s.memory.connection == Active && !cfg.schema(body))
            && (r == Err("RUNNER_EVENT_ID_CONFLICT") <==>
                  && s.memory.connection == Active && cfg.schema(body) && key.Some?
                  && (|| Held(cfg, s.memory, key.value, body, false)
                      || (!HeldAtAll(s.memory, key.value) && !NoRoom(cfg, s, body) && body.Semantic? && StoredOtherwise(s.rows, body.event))))
            && (r == Err("RUNNER_OUTBOUND_BACKPRESSURE") <==>
                  && s.memory.connection == Active && cfg.schema(body) && !(key.Some? && HeldAtAll(s.memory, key.value)) && NoRoom(cfg, s, body))
            && (r.Err? ==> next == s)
            && (r.Ok? && key.Some? && HeldAtAll(s.memory, key.value) ==> next == s && r == Ok(true))
            && (r.Ok? && !(key.Some? && HeldAtAll(s.memory, key.value)) ==> r == Ok(next.memory.outbound != []))
  {
    hide TableOk, WithinLimits, Linked, Covered, Retained, Flush, Enqueue, Sizes, HeldAtAll, Held, StoredOtherwise, StoredAtAll, EntryOf, HasRoom;
    var key := Key(Entry(body, None));
    KeysAndIds(cfg, s);
    if key.Some? {
      HeldIffRetained(cfg, s.memory, key.value, body);
    }
    if body.Semantic? {
      EnqueueConflictsIff(cfg, s.rows, body.event);
    }
  }

  /**
   * What send accepts is kept: an entry of its event id with the same content is retained afterwards; and unless one
   * was retained before, its own entry goes behind all that waited, and from there on the wire in its turn.
   */
  lemma {:induction false} SendKeeps(cfg: Config, s: State, body: Body, attempts: seq<Attempt>) returns (e: Entry, k: nat)
    requires ValidConfig(cfg) && StateOk(cfg, s) && Send(cfg, s, body, attempts).1.Ok?
    ensures var next := Send(cfg, s, body, attempts).0; var key := Key(Entry(body, None));
            && (key.Some? ==> Held(cfg, next.memory, key.value, body, true))
            && (!(key.Some? && HeldAtAll(s.memory, key.value)) ==>
                  && e.body == body
                  && var m, n := s.memory, next.memory; var waiting := m.outbound + [e];
                  && k <= |waiting| && n.outbound == waiting[k..] && n.inFlight == m.inFlight + Keyed(waiting[..k])
                  && |n.wire| == |m.wire| + k && n.wire[..|m.wire|] == m.wire
                  && (forall i :: 0 <= i < k ==> n.wire[|m.wire| + i] == Envelope(m.outboundSequence + i + 1, waiting[i])))
  {
    hide StateOk, Retained, Backpressure, FlushLoop, Accept, Size, HeldAtAll, Held, Flushed;
    var key := Key(Entry(body, None));
    e, k := Entry(body, None), 0;
    KeysAndIds(cfg, s);
    if key.Some? {
      HeldIffRetained(cfg, s.memory, key.value, body);
    }
    if !(key.Some? && HeldAtAll(s.memory, key.value)) {
      var accepted := Accept(cfg, s, body).0;
      AcceptKeepsOk(cfg, s, body);
      e := AcceptAppends(cfg, s, body);
      k := FlushSends(cfg, accepted, attempts);
      FlushedParts(accepted, FlushLoop(accepted, attempts), k);
      if key.Some? {
        FlushedKeeps(accepted, FlushLoop(accepted, attempts), k, e);
        HeldBy(cfg, FlushLoop(accepted, attempts).memory, key.value, body, e);
      }
    }
  }

  lemma {:induction false} HeldBy(cfg: Config, m: Memory, id: EventId, body: Body, e: Entry)
    requires e in Queue(m) && Key(e) == Some(id) && e.body == body
    ensures Held(cfg, m, id, body, true)
  {
  }

  lemma {:induction false} FlushedParts(s: State, next: State, k: nat)
    requires Flushed(s, next, k)
    ensures var m, n := s.memory, next.memory;
            && k <= |m.outbound| && n.outbound == m.outbound[k..] && n.inFlight == m.inFlight + Keyed(m.outbound[..k])
            && |n.wire| == |m.wire| + k && n.wire[..|m.wire|] == m.wire
            && (forall i :: 0 <= i < k ==> n.wire[|m.wire| + i] == Envelope(m.outboundSequence + i + 1, m.outbound[i]))
  {
  }

  lemma {:induction false} AcceptAppends(cfg: Config, s: State, body: Body) returns (e: Entry)
    requires ValidConfig(cfg) && Accept(cfg, s, body).1.Ok?
    ensures var m, n := s.memory, Accept(cfg, s, body).0.memory;
            && e.body == body && Key(e) == Key(Entry(body, None)) && e in Queue(n)
            && n == m.(outbound := m.outbound + [e], outboundBytes := n.outboundBytes)
  {
    hide Enqueue, EntryOf;
    var n := Accept(cfg, s, body).0.memory;
    e := n.outbound[|s.memory.outbound|];
    assert Queue(n)[|n.inFlight| + |s.memory.outbound|] == e;
  }

  /** In every history: whatever id a send is accepted under, its content is retained. */
  lemma {:induction false} EveryAcceptedSendIsRetained(cfg: Config, steps: seq<Step>, body: Body, attempts: seq<Attempt>)
    requires ValidConfig(cfg) && History(cfg, steps).Running?
    requires Send(cfg, History(cfg, steps).state, body, attempts).1.Ok? && Key(Entry(body, None)).Some?
    ensures Held(cfg, Send(cfg, History(cfg, steps).state, body, attempts).0.memory, Key(Entry(body, None)).value, body, true)
  {
    hide History, Send, StateOk, Held, HeldAtAll;
    EveryWorldIsOk(cfg, steps);
    var _, _ := SendKeeps(cfg, History(cfg, steps).state, body, attempts);
  }

  // ---- what the server's answers do

  /** The entry at an index is forgotten, with its bytes and what was remembered of its id. */
  ghost predicate Forgotten(m: Memory, n: Memory, i: nat, id: EventId) {
    && i < |Queue(m)| && Queue(n) == Drop(Queue(m), i)
    && n == m.(inFlight := n.inFlight, outbound := n.outbound, outboundBytes := m.outboundBytes - Size(Queue(m)[i]),
               processedResponses := m.processedResponses - {id}, pendingAcknowledgements := m.pendingAcknowledgements - {id})
  }

  /** The row of this id says so, unless it was final before. */
  ghost predicate Answered(rows: seq<Row>, next: seq<Row>, id: EventId, state: RowState) {
    && |next| == |rows|
    && forall j :: 0 <= j < |rows| ==>
         next[j] == if rows[j].event.eventId == id && Live(rows[j]) then rows[j].(state := state) else rows[j]
  }

  lemma {:induction false} AcknowledgeAnswers(rows: seq<Row>, id: EventId, disposition: Disposition)
    requires DistinctIds(rows) && Find(rows, id).Some?
    ensures Answered(rows, Acknowledge(rows, id, disposition).0, id, Target(disposition))
    ensures Acknowledge(rows, id, disposition).1.Err? <==>
              exists row :: row in rows && row.event.eventId == id && !Live(row) && row.state != Target(disposition)
  {
    var k := Find(rows, id).value;
    assert rows[k] in rows;
    forall j | 0 <= j < |rows| && rows[j].event.eventId == id ensures j == k {
      FindUnique(rows, j);
    }
  }

  /** The row of this id was acknowledged before. */
  ghost predicate WasAcknowledged(rows: seq<Row>, id: EventId) {
    exists row :: row in rows && row.event.eventId == id && row.state == Acknowledged
  }

  /**
   * An acknowledgement or a rejection: of an id that is not retained, and a rejection of what was acknowledged already,
   * it does nothing; of a request that has no processed response yet it is remembered; in every other case exactly that
   * entry is forgotten, and if it is durable its row says PERMANENTLY_REJECTED after a rejection and ACKNOWLEDGED otherwise.
   */
  lemma {:induction false} AnswerTakes(cfg: Config, s: State, id: EventId, disposition: Disposition)
    requires ValidConfig(cfg) && StateOk(cfg, s)
    ensures var m, next, kept := s.memory, AckEffect(s, id, disposition), Retained(s.memory, id);
            && (kept == None ==> next == s)
            && (kept.Some? ==>
                  var waits := kept.value.body.Request? && id !in m.processedResponses;
                  var late := Durable(kept.value) && disposition == Refused && WasAcknowledged(s.rows, id);
                  && (waits ==> next == s.(memory := m.(pendingAcknowledgements := m.pendingAcknowledgements + {id})))
                  && (!waits && late ==> next == s)
                  && (!waits && !late ==>
                        && (exists i :: 0 <= i < |Queue(m)| && Queue(m)[i] == kept.value && Forgotten(m, next.memory, i, id))
                        && (if Durable(kept.value) then Answered(s.rows, next.rows, id, if disposition == Refused then Rejected else Acknowledged)
                            else next.rows == s.rows)))
  {
    hide TableOk, WithinLimits, Sizes, Acknowledge, Answered, Forget, Covered, IndexOfKey;
    var m, kept := s.memory, Retained(s.memory, id);
    KeysAndIds(cfg, s);
    if kept.Some? {
      ForgetsIt(m, id);
      FoundInQueue(m.inFlight, m.outbound, id);
      if Durable(kept.value) {
        HeldRow(cfg, s, id);
        AcknowledgeAnswers(s.rows, id, Refused);
        AcknowledgeAnswers(s.rows, id, Applied);
      }
    }
  }

  lemma {:induction false} HeldRow(cfg: Config, s: State, id: EventId)
    requires ValidConfig(cfg) && StateOk(cfg, s) && Retained(s.memory, id).Some? && Durable(Retained(s.memory, id).value)
    ensures Find(s.rows, id).Some? && s.rows[Find(s.rows, id).value].event.eventId == id
  {
    hide TableOk, WithinLimits, Sizes, Covered, IndexOfKey;
    ForgetsIt(s.memory, id);
    FoundInQueue(s.memory.inFlight, s.memory.outbound, id);
    var e := Retained(s.memory, id).value;
    assert e in Queue(s.memory) && Key(e) == Some(id);
  }

  lemma {:induction false} ForgetsIt(m: Memory, id: EventId)
    requires DistinctKeys(Queue(m)) && Retained(m, id).Some?
    ensures exists i :: 0 <= i < |Queue(m)| && Queue(m)[i] == Retained(m, id).value && Forgotten(m, Forget(m, id, Retained(m, id).value), i, id)
    ensures Key(Retained(m, id).value) == Some(id)
  {
    hide DistinctKeys, Without;
    ForgetDrops(m, id);
    FoundInQueue(m.inFlight, m.outbound, id);
    var i := IndexOfKey(Queue(m), id).value;
    assert Forgotten(m, Forget(m, id, Retained(m, id).value), i, id);
  }

  predicate Asks(e: Entry, requestId: RequestId) {
    e.body.Request? && e.body.requestId == requestId
  }

  ghost predicate FirstToAsk(q: seq<Entry>, i: nat, requestId: RequestId) {
    i < |q| && Asks(q[i], requestId) && forall j :: 0 <= j < i ==> !Asks(q[j], requestId)
  }

  lemma {:induction false} IndexIsFirst(q: seq<Entry>, requestId: RequestId, start: nat)
    requires start <= |q| && forall j :: 0 <= j < start ==> !Asks(q[j], requestId)
    ensures var r := RequestIndex(q, requestId, start);
            if r.Some? then FirstToAsk(q, r.value, requestId) else forall e :: e in q ==> !Asks(e, requestId)
    decreases |q| - start
  {
    if start < |q| && !Asks(q[start], requestId) {
      IndexIsFirst(q, requestId, start + 1);
    }
  }

  /**
   * A response: without a request of its id retained it does nothing; otherwise it is remembered for the event of the
   * first such request, or completes it where its acknowledgement came before.
   */
  lemma {:induction false} ResponseTakes(cfg: Config, s: State, requestId: RequestId)
    requires ValidConfig(cfg) && StateOk(cfg, s)
    ensures var q, next := Queue(s.memory), ResponseEffect(s, requestId);
            if forall e :: e in q ==> !Asks(e, requestId) then next == s
            else exists i :: FirstToAsk(q, i, requestId) && Responded(s, next, i)
  {
    hide TableOk, WithinLimits, Sizes, Acknowledge, Forget, Covered, IndexOfKey, FirstToAsk, Responded, Linked, RequestIndex, DistinctKeys;
    KeysAndIds(cfg, s);
    IndexIsFirst(Queue(s.memory), requestId, 0);
    var r := RequestIndex(Queue(s.memory), requestId);
    if r.Some? {
      RespondsTo(cfg, s, requestId, r.value);
      assert Queue(s.memory)[r.value] in Queue(s.memory);
    }
  }

  /** The answer to the request at an index is remembered, or completes it. */
  ghost predicate Responded(s: State, next: State, i: nat)
    requires i < |Queue(s.memory)| && Queue(s.memory)[i].body.Request?
  {
    var m, id := s.memory, Queue(s.memory)[i].body.eventId;
    && next.rows == s.rows
    && if id in m.pendingAcknowledgements then Forgotten(m, next.memory, i, id)
       else next.memory == m.(processedResponses := m.processedResponses + {id})
  }

  lemma {:induction false} RespondsTo(cfg: Config, s: State, requestId: RequestId, i: nat)
    requires DistinctKeys(Queue(s.memory)) && RequestIndex(Queue(s.memory), requestId) == Some(i)
    ensures Responded(s, ResponseEffect(s, requestId), i)
  {
    hide Sizes, Acknowledge, IndexOfKey, RequestIndex, Without;
    var m, id := s.memory, Queue(s.memory)[i].body.eventId;
    if id in m.pendingAcknowledgements {
      var marked := m.(processedResponses := m.processedResponses + {id});
      KeyAt(Queue(marked), i, id);
      FoundInQueue(m.inFlight, m.outbound, id);
      ForgetDrops(marked, id);
    }
  }

  // ---- the connection

  /** The steps that end a client for good. */
  predicate EndsClient(m: Memory, step: Step) {
    || step.StopStep?
    || (step.CloseStep? && m.terminal)
    || (step == StartFailedStep(true) && m.connection == Authenticating)
  }

  /** The steps that lose a connection the client will try again. */
  predicate LosesConnection(m: Memory, step: Step) {
    || (step.CloseStep? && !m.terminal && m.connection != Stopped)
    || (step == StartFailedStep(false) && m.connection == Authenticating)
  }

  predicate Flushes(step: Step) {
    step.SendStep? || step.FlushStep? || step.WelcomedStep?
  }

  lemma {:induction false} FlushKeepsConnection(s: State, attempts: seq<Attempt>)
    ensures FlushLoop(s, attempts).memory.connection == s.memory.connection
    ensures s.memory.terminal ==> FlushLoop(s, attempts).memory.terminal
    decreases |attempts|
  {
    if s.memory.outbound != [] && attempts != [] && attempts[0] == Sent {
      FlushKeepsConnection(Deliver(s), attempts[1..]);
    }
  }

  /** A client stops exactly by those steps and for good, and gets through authentication and negotiation to be active. */
  lemma {:induction false} ConnectionFollows(cfg: Config, s: State, step: Step)
    requires ValidConfig(cfg)
    ensures var c, n := s.memory.connection, StepOf(cfg, s, step).memory.connection;
            && (n == Stopped <==> c == Stopped || EndsClient(s.memory, step))
            && (n == Active <==> (c == Active && !step.StopStep? && !step.CloseStep?) || (c == Negotiating && step.WelcomedStep?))
            && (n == BackingOff <==> (c == BackingOff && !step.BeginStep? && !EndsClient(s.memory, step)) || LosesConnection(s.memory, step))
            && (n == Authenticating <==> (c == Authenticating && !step.StartFailedStep? && !step.OpenedStep? && !step.CloseStep? && !step.StopStep?)
                                         || (c in {Disconnected, BackingOff} && step.BeginStep?))
            && (n == Disconnected ==> c == Disconnected)
  {
    hide Enqueue, EntryOf, Acknowledge, Retained, Backpressure, FlushLoop, Durables;
    FlushesKeepConnection(cfg, s, step);
  }

  lemma {:induction false} FlushesKeepConnection(cfg: Config, s: State, step: Step)
    requires ValidConfig(cfg)
    ensures step.SendStep? || step.FlushStep? ==> StepOf(cfg, s, step).memory.connection == s.memory.connection
    ensures step.WelcomedStep? ==>
              StepOf(cfg, s, step).memory.connection == if s.memory.connection == Negotiating then Active else s.memory.connection
    ensures Flushes(step) && s.memory.terminal ==> StepOf(cfg, s, step).memory.terminal
  {
    hide Enqueue, EntryOf, Acknowledge, Retained, Backpressure, FlushLoop;
    match step
    case SendStep(body, attempts) => FlushKeepsConnection(Accept(cfg, s, body).0, attempts);
    case FlushStep(attempts) => FlushKeepsConnection(s, attempts);
    case WelcomedStep(attempts) => FlushKeepsConnection(s.(memory := s.memory.(connection := Active)), attempts);
    case _ =>
  }

  /** What is terminal stays so until the client closes or connects, and only a failure for good makes it so. */
  lemma {:induction false} TerminalUntilClosed(cfg: Config, s: State, step: Step)
    requires ValidConfig(cfg)
    ensures var t, n := s.memory.terminal, StepOf(cfg, s, step).memory.terminal;
            && (step.ConnectedStep? || (step.CloseStep? && s.memory.connection != Stopped) ==> !n)
            && (t && !step.ConnectedStep? && !step.CloseStep? ==> n)
            && (!t && n ==> step == FailStep(true) || Flushes(step)) && (step == FailStep(true) ==> n)
  {
    hide Enqueue, EntryOf, Acknowledge, Retained, Backpressure, FlushLoop, Durables;
    FlushesKeepConnection(cfg, s, step);
  }
}
