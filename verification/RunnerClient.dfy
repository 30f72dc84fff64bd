/** createRunnerWssClient: the client as the object it is, changing its queue and the outbox in place. */
module RunnerClient {
  import opened Common
  import opened Outbox
  import opened Delivery
  import opened DeliverySafety

  class WssClient {
    const cfg: Config
    const store: SemanticOutbox
    var connection: Connection
    var terminalDisconnect: bool
    var outbound: seq<Entry>
    var inFlight: seq<Entry>
    var processedResponses: set<EventId>
    var pendingAcknowledgements: set<EventId>
    var outboundBytes: int
    var outboundSequence: nat
    var wire: seq<Envelope>

    function S(): State
      reads this, store
    {
      State(store.rows, Memory(connection, terminalDisconnect, outbound, inFlight, processedResponses,
                               pendingAcknowledgements, outboundBytes, outboundSequence, wire))
    }

    ghost predicate Wired()
      reads this
    {
      ValidConfig(cfg) && store.limits == cfg.limits && store.accepts == cfg.accepts
    }

    ghost predicate Valid()
      reads this, store
    {
      Wired() && StateOk(cfg, S())
    }

    /** The client before it reads its store. */
    constructor (cfg: Config, store: SemanticOutbox)
      requires ValidConfig(cfg) && store.limits == cfg.limits && store.accepts == cfg.accepts
      ensures Wired() && this.cfg == cfg && this.store == store
      ensures S().memory == Loaded([])
    {
      this.cfg, this.store := cfg, store;
      connection, terminalDisconnect := Disconnected, false;
      outbound, inFlight, processedResponses, pendingAcknowledgements := [], [], {}, {};
      outboundBytes, outboundSequence, wire := 0, 0, [];
    }

    /** Requeues what was in flight, loads what the store returns, and refuses more than the limits. */
    method Load(ready: seq<Row>) returns (r: Result<()>)
      requires Wired() && store.Valid() && S().memory == Loaded([])
      requires IsReady(RequeueInFlight(store.rows), ready)
      modifies this, store
      ensures Wired()
      ensures Restart(cfg, old(store.rows), ready) == if r.Ok? then Running(S()) else Down(store.rows)
      ensures r.Ok? ==> Valid()
    {
      hide TableOk, WithinLimits, Sizes, IsReady, EntriesOf, RequeueInFlight, WorldOk, StateOk;
      assert EntriesOf(ready[..0]) == [] by { assert ready[..0] == []; NothingToLoad(); }
      RestartIsOk(cfg, store.rows, ready);
      LoadedIsOk(cfg, store.rows, ready);
      ghost var rows := store.rows;
      store.Requeue();
      assert store.rows == RequeueInFlight(rows);
      var i := 0;
      NothingToLoad();
      NoBytes();
      while i < |ready|
        invariant 0 <= i <= |ready|
        invariant outbound == EntriesOf(ready[..i]) && outboundBytes == Sizes(outbound)
        invariant S().memory == Loaded([]).(outbound := outbound, outboundBytes := outboundBytes)
        invariant store.rows == RequeueInFlight(rows)
      {
        var entry := EntryOf(ready[i]);
        EntriesGrow(ready, i);
        outbound := outbound + [entry];
        outboundBytes := outboundBytes + Size(entry);
        i := i + 1;
      }
      assert ready[..i] == ready;
      if |outbound| > cfg.maximumOutboundItems || outboundBytes > cfg.maximumOutboundBytes {
        return Err("RUNNER_OUTBOUND_STORE_LIMIT_EXCEEDED");
      }
      r := Ok(());
    }

    /** inFlight.get, or outbound.findIndex by event id. */
    method FindKey(entries: seq<Entry>, id: EventId) returns (index: Option<nat>)
      ensures index == IndexOfKey(entries, id)
    {
      var i := 0;
      while i < |entries|
        invariant 0 <= i <= |entries|
        invariant IndexOfKey(entries, id, i) == IndexOfKey(entries, id)
      {
        if Key(entries[i]) == Some(id) {
          return Some(i);
        }
        i := i + 1;
      }
      index := None;
    }

    method RetainedEvent(id: EventId) returns (entry: Option<Entry>)
      ensures entry == Retained(S().memory, id)
    {
      var flying := FindKey(inFlight, id);
      if flying.Some? {
        return Some(inFlight[flying.value]);
      }
      var waiting := FindKey(outbound, id);
      entry := if waiting.Some? then Some(outbound[waiting.value]) else None;
    }

    /** One envelope has been handed to the socket. */
    method HeadIsSent()
      requires Valid() && outbound != []
      modifies this, store
      ensures Valid()
      ensures S() == Deliver(old(S()))
    {
      hide StateOk, MarkInFlight, Put, Key, Durable, Size;
      ghost var before := S();
      DeliverKeepsOk(cfg, before);
      StoreIsOk(cfg, before);
      var entry := outbound[0];
      outboundSequence := outboundSequence + 1;
      wire := wire + [Envelope(outboundSequence, entry)];
      outbound := outbound[1..];
      if Key(entry).Some? {
        inFlight := Put(inFlight, Key(entry).value, entry);
        if Durable(entry) {
          var marked := store.Mark(Key(entry).value);
        }
      } else {
        outboundBytes := outboundBytes - Size(entry);
      }
    }

    method FlushOutbound(attempts: seq<Attempt>) returns (sent: nat)
      requires Valid()
      modifies this, store
      ensures Valid()
      ensures S() == Flush(old(S()), attempts)
    {
      hide StateOk, FlushLoop, Deliver;
      ghost var before := S();
      FlushKeepsOk(cfg, before, attempts);
      sent := 0;
      if connection != Active {
        return;
      }
      var turn := 0;
      assert attempts[0..] == attempts;
      while outbound != [] && turn < |attempts| && attempts[turn] != Full
        invariant 0 <= turn <= |attempts|
        invariant Valid()
        invariant FlushLoop(S(), attempts[turn..]) == FlushLoop(before, attempts)
        decreases |attempts| - turn
      {
        FlushTurn(S(), attempts, turn);
        if attempts[turn] == Sent {
          HeadIsSent();
          sent := sent + 1;
          turn := turn + 1;
        } else {
          if attempts[turn] == Invalid {
            outboundSequence := outboundSequence + 1;
            terminalDisconnect := true;
          }
          return;
        }
      }
      FlushTurn(S(), attempts, turn);
    }

    method SendBody(body: Body, attempts: seq<Attempt>) returns (r: Result<bool>)
      requires Valid()
      modifies this, store
      ensures Valid()
      ensures (S(), r) == Send(cfg, old(S()), body, attempts)
    {
      hide StateOk, FlushLoop, Enqueue, Retained;
      ghost var before := S();
      SendKeepsOk(cfg, before, body, attempts);
      if connection != Active {
        return Err("RUNNER_CONNECTION_INACTIVE");
      }
      if !cfg.schema(body) {
        return Err("RUNNER_OUTBOUND_INVALID");
      }
      var bytes := |JsonOf(body)| + ENVELOPE_BYTES;
      var eventId := Key(Entry(body, None));
      if eventId.Some? {
        var prior := RetainedEvent(eventId.value);
        if prior.Some? {
          return if cfg.sha256(JsonOf(prior.value.body)) != cfg.sha256(JsonOf(body))
                 then Err("RUNNER_EVENT_ID_CONFLICT") else Ok(true);
        }
      }
      if || |outbound| >= cfg.maximumOutboundItems
         || bytes > cfg.maximumOutboundBytes
         || outboundBytes + bytes > cfg.maximumOutboundBytes
      {
        return Err("RUNNER_OUTBOUND_BACKPRESSURE");
      }
      var continuity: Option<Continuity> := None;
      if body.Semantic? {
        StoreIsOk(cfg, before);
        var persisted := store.Store(body.event);
        RefusedIsNotStored(cfg.limits, cfg.accepts, before.rows, body.event);
        if persisted.Err? {
          return Err(if persisted.code == "RUNNER_EVENT_ID_CONFLICT" then persisted.code
                     else "RUNNER_OUTBOUND_BACKPRESSURE");
        }
        continuity := Some(Continuity(persisted.value.localSequence, persisted.value.predecessor));
      }
      outbound := outbound + [Entry(body, continuity)];
      outboundBytes := outboundBytes + bytes;
      assert (S(), Ok(())) == Accept(cfg, before, body);
      AcceptKeepsOk(cfg, before, body);
      var sent := FlushOutbound(attempts);
      r := Ok(outbound != []);
    }

    /** Removes a retained event from memory. */
    method ForgetEvent(id: EventId, retained: Entry)
      modifies this
      ensures S().memory == Forget(old(S().memory), id, retained)
      ensures store.rows == old(store.rows)
    {
      var flying := FindKey(inFlight, id);
      if flying.Some? {
        inFlight := inFlight[..flying.value] + inFlight[flying.value + 1..];
      }
      var waiting := FindKey(outbound, id);
      if waiting.Some? {
        outbound := outbound[..waiting.value] + outbound[waiting.value + 1..];
      }
      outboundBytes := outboundBytes - Size(retained);
      processedResponses := processedResponses - {id};
      pendingAcknowledgements := pendingAcknowledgements - {id};
    }

    method CompleteEvent(id: EventId)
      requires Valid()
      modifies this, store
      ensures Valid()
      ensures S() == Complete(old(S()), id)
    {
      hide StateOk, Forget, Acknowledge, Retained;
      ghost var before := S();
      var retained := RetainedEvent(id);
      if retained == None {
        return;
      }
      RetireKeepsOk(cfg, before, id, Applied);
      StoreIsOk(cfg, before);
      ForgetEvent(id, retained.value);
      if Durable(retained.value) {
        var stored := store.Finish(id, Applied, None);
      }
    }

    /** SEMANTIC_EVENT_ACK. */
    method Acknowledged(id: EventId, disposition: Disposition)
      requires Valid()
      modifies this, store
      ensures Valid()
      ensures S() == AckEffect(old(S()), id, disposition)
    {
      hide StateOk, Forget, Acknowledge, Retained;
      ghost var before := S();
      AckKeepsOk(cfg, before, id, disposition);
      var retained := RetainedEvent(id);
      if retained == None {
        return;
      }
      if retained.value.body.Request? && id !in processedResponses {
        pendingAcknowledgements := pendingAcknowledgements + {id};
        return;
      }
      if disposition == Refused && Durable(retained.value) {
        StoreIsOk(cfg, before);
        var stored := store.Finish(id, Refused, Some("SERVER_REJECTED"));
        if stored.Ok? {
          ForgetEvent(id, retained.value);
        } else {
          RefusedStoreIsUnchanged(before.rows, id);
        }
        return;
      }
      CompleteEvent(id);
    }

    /** AUTHORITY_RESPONSE. */
    method Responded(requestId: RequestId)
      requires Valid()
      modifies this, store
      ensures Valid()
      ensures S() == ResponseEffect(old(S()), requestId)
    {
      hide StateOk, Complete;
      ghost var before := S();
      ResponseKeepsOk(cfg, before, requestId);
      var entries := inFlight + outbound;
      var i := 0;
      while i < |entries| && !(entries[i].body.Request? && entries[i].body.requestId == requestId)
        invariant 0 <= i <= |entries|
        invariant RequestIndex(entries, requestId, i) == RequestIndex(entries, requestId)
      {
        i := i + 1;
      }
      if i == |entries| {
        return;
      }
      var id := entries[i].body.eventId;
      processedResponses := processedResponses + {id};
      OnlyBookkeeping(cfg, before, S());
      if id in pendingAcknowledgements {
        CompleteEvent(id);
      }
    }

    /** The close event of the current socket. */
    method Closed()
      requires Valid()
      modifies this
      ensures Valid()
      ensures S() == Close(old(S()))
    {
      hide StateOk, Durables, Sizes;
      ghost var before := S();
      CloseKeepsOk(cfg, before);
      if connection != Stopped {
        var waiting := OnlyDurable(outbound);
        var replay := OnlyDurable(inFlight);
        inFlight := [];
        outbound := replay + waiting;
        outboundBytes := Total(outbound);
        connection := if terminalDisconnect then Stopped else BackingOff;
        terminalDisconnect := false;
      }
    }

    /** filter((entry) => entry.durable) */
    method OnlyDurable(entries: seq<Entry>) returns (r: seq<Entry>)
      ensures r == Durables(entries)
    {
      r := [];
      var i := 0;
      while i < |entries|
        invariant 0 <= i <= |entries|
        invariant r == Durables(entries[..i])
      {
        assert entries[..i + 1][..i] == entries[..i];
        if Durable(entries[i]) {
          r := r + [entries[i]];
        }
        i := i + 1;
      }
      assert entries[..i] == entries;
    }

    /** reduce((total, entry) => total + entry.bytes, 0) */
    method Total(entries: seq<Entry>) returns (total: int)
      ensures total == Sizes(entries)
    {
      total := 0;
      var i := 0;
      while i < |entries|
        invariant 0 <= i <= |entries|
        invariant total == Sizes(entries[..i])
      {
        assert entries[..i + 1][..i] == entries[..i];
        total := total + Size(entries[i]);
        i := i + 1;
      }
      assert entries[..i] == entries;
    }

    method StopClient()
      requires Valid()
      modifies this
      ensures Valid()
      ensures S() == Stop(old(S()))
    {
      StopKeepsOk(cfg, S());
      connection := Stopped;
      outbound, inFlight := [], [];
      processedResponses, pendingAcknowledgements := {}, {};
      outboundBytes := 0;
    }

    /** start: the connection attempt begins; false when the state does not allow it. */
    method StartBegins() returns (ok: bool)
      requires Valid()
      modifies this
      ensures Valid()
      ensures S() == Begin(old(S()))
      ensures ok == (old(connection) in {Disconnected, BackingOff})
    {
      hide StateOk;
      OnlyBookkeeping(cfg, S(), Begin(S()));
      ok := connection == Disconnected || connection == BackingOff;
      if ok {
        connection := Authenticating;
      }
    }

    /** start: there is a socket. */
    method SocketCreated()
      requires Valid()
      modifies this
      ensures Valid()
      ensures S() == Connected(old(S()))
    {
      hide StateOk;
      OnlyBookkeeping(cfg, S(), Connected(S()));
      terminalDisconnect := false;
      outboundSequence := 0;
      wire := [];
    }

    method SocketOpened()
      requires Valid()
      modifies this
      ensures Valid()
      ensures S() == Opened(old(S()))
    {
      hide StateOk;
      OnlyBookkeeping(cfg, S(), Opened(S()));
      if connection == Authenticating {
        connection := Negotiating;
      }
    }

    method WelcomeReceived(attempts: seq<Attempt>)
      requires Valid()
      modifies this, store
      ensures Valid()
      ensures S() == Welcomed(old(S()), attempts)
    {
      hide StateOk, FlushLoop;
      ghost var before := S();
      if connection == Negotiating {
        connection := Active;
        OnlyBookkeeping(cfg, before, S());
        var sent := FlushOutbound(attempts);
      }
    }
  }

  /** One turn of the flush loop. */
  lemma {:induction false} FlushTurn(s: State, attempts: seq<Attempt>, turn: nat)
    requires turn <= |attempts|
    ensures FlushLoop(s, attempts[turn..]) ==
            if s.memory.outbound == [] || turn == |attempts| then s
            else match attempts[turn]
              case Sent => FlushLoop(Deliver(s), attempts[turn + 1..])
              case Invalid => s.(memory := s.memory.(outboundSequence := s.memory.outboundSequence + 1, terminal := true))
              case _ => s
  {
    hide Deliver;
    if turn < |attempts| {
      assert attempts[turn..][1..] == attempts[turn + 1..];
    }
  }

  lemma {:induction false} RefusedIsNotStored(limits: Limits, accepts: Event -> bool, rows: seq<Row>, event: Event)
    requires ValidLimits(limits)
    ensures Enqueue(limits, accepts, rows, event).1.Err? ==> Enqueue(limits, accepts, rows, event).0 == rows
  {
  }

  lemma {:induction false} EntriesGrow(ready: seq<Row>, i: nat)
    requires i < |ready|
    ensures EntriesOf(ready[..i + 1]) == EntriesOf(ready[..i]) + [EntryOf(ready[i])]
    ensures Sizes(EntriesOf(ready[..i + 1])) == Sizes(EntriesOf(ready[..i])) + Size(EntryOf(ready[i]))
  {
    assert ready[..i + 1][..i] == ready[..i];
    Concatenated(EntriesOf(ready[..i]), [EntryOf(ready[i])]);
    One(EntryOf(ready[i]));
  }

  lemma {:induction false} NothingToLoad()
    ensures EntriesOf([]) == []
  {
  }

  lemma {:induction false} RestartIsOk(cfg: Config, rows: seq<Row>, ready: seq<Row>)
    requires ValidConfig(cfg)
    ensures Restart(cfg, rows, ready).Running? && WorldOk(cfg, Restart(cfg, rows, ready)) ==>
              StateOk(cfg, Restart(cfg, rows, ready).state)
  {
  }

  lemma {:induction false} NoBytes()
    ensures Sizes([]) == 0
  {
  }

  lemma {:induction false} StoreIsOk(cfg: Config, s: State)
    requires ValidConfig(cfg) && StateOk(cfg, s)
    ensures TableOk(s.rows) && WithinLimits(cfg.limits, s.rows)
  {
  }

  lemma {:induction false} RefusedStoreIsUnchanged(rows: seq<Row>, id: EventId)
    ensures Acknowledge(rows, id, Refused).1.Err? ==> Acknowledge(rows, id, Refused).0 == rows
  {
  }
}
