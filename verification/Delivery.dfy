/** The runner's delivery protocol as a step machine: the outbox table and the client's memory. */
module Delivery {
  import opened Common
  import opened Outbox

  type RequestId = string

  /** A runner message: heartbeats and output chunks have no event id; six kinds are durable. */
  datatype Body =
    | Ephemeral(json: Json)
    | Request(eventId: EventId, requestId: RequestId, json: Json)
    | Semantic(event: Event)

  datatype Continuity = Continuity(localSequence: nat, predecessor: Option<EventId>)

  datatype Entry = Entry(body: Body, continuity: Option<Continuity>)

  datatype Connection = Disconnected | Authenticating | Negotiating | Active | BackingOff | Stopped

  /** An envelope handed to the socket. */
  datatype Envelope = Envelope(sequence: nat, entry: Entry)

  /** The client's variables. inFlight is a map in insertion order, keyed by event id. */
  datatype Memory = Memory(
    connection: Connection,
    terminal: bool,
    outbound: seq<Entry>,
    inFlight: seq<Entry>,
    processedResponses: set<EventId>,
    pendingAcknowledgements: set<EventId>,
    outboundBytes: int,
    outboundSequence: nat,
    wire: seq<Envelope>)

  datatype State = State(rows: seq<Row>, memory: Memory)

  /** A process is running, or it is not and only the table is left. */
  datatype World = Running(state: State) | Down(rows: seq<Row>)

  datatype Config = Config(
    limits: Limits,
    accepts: Event -> bool,
    schema: Body -> bool,
    sha256: Json -> string,
    maximumOutboundItems: nat,
    maximumOutboundBytes: nat)

  predicate ValidConfig(cfg: Config) {
    ValidLimits(cfg.limits) && cfg.maximumOutboundItems >= 1 && cfg.maximumOutboundBytes >= 1
  }

  /** What one turn of the flush loop meets. */
  datatype Attempt = Sent | Full | Throws | Invalid

  const ENVELOPE_BYTES := 256

  function JsonOf(body: Body): Json {
    match body
    case Ephemeral(json) => json
    case Request(_, _, json) => json
    case Semantic(event) => event.json
  }

  function Size(entry: Entry): nat {
    |JsonOf(entry.body)| + ENVELOPE_BYTES
  }

  function Key(entry: Entry): Option<EventId> {
    match entry.body
    case Ephemeral(_) => None
    case Request(id, _, _) => Some(id)
    case Semantic(event) => Some(event.eventId)
  }

  predicate Durable(entry: Entry) {
    entry.body.Semantic?
  }

  function EntryOf(row: Row): Entry {
    Entry(Semantic(row.event), Some(Continuity(row.localSequence, row.predecessor)))
  }

  function EntriesOf(rows: seq<Row>): (r: seq<Entry>)
    ensures |r| == |rows|
    ensures forall i :: 0 <= i < |r| ==> r[i] == EntryOf(rows[i])
  {
    if rows == [] then [] else EntriesOf(rows[..|rows| - 1]) + [EntryOf(rows[|rows| - 1])]
  }

  function Sizes(entries: seq<Entry>): nat {
    if entries == [] then 0 else Sizes(entries[..|entries| - 1]) + Size(entries[|entries| - 1])
  }

  function Durables(entries: seq<Entry>): (r: seq<Entry>)
    ensures forall i :: 0 <= i < |r| ==> Durable(r[i])
  {
    if entries == [] then []
    else
      var before := Durables(entries[..|entries| - 1]);
      if Durable(entries[|entries| - 1]) then before + [entries[|entries| - 1]] else before
  }

  /** Everything retained: what is in flight, then what waits. */
  function Queue(m: Memory): seq<Entry> {
    m.inFlight + m.outbound
  }

  // ---- looking entries up

  function IndexOfKey(entries: seq<Entry>, id: EventId, start: nat := 0): (r: Option<nat>)
    requires start <= |entries|
    ensures r.Some? ==> start <= r.value < |entries| && Key(entries[r.value]) == Some(id)
    ensures r.Some? ==> forall i :: start <= i < r.value ==> Key(entries[i]) != Some(id)
    ensures r == None ==> forall i :: start <= i < |entries| ==> Key(entries[i]) != Some(id)
    decreases |entries| - start
  {
    if start == |entries| then None
    else if Key(entries[start]) == Some(id) then Some(start)
    else IndexOfKey(entries, id, start + 1)
  }

  predicate Holds(entries: seq<Entry>, id: EventId) {
    IndexOfKey(entries, id).Some?
  }

  function Drop(entries: seq<Entry>, i: nat): seq<Entry>
    requires i < |entries|
  {
    entries[..i] + entries[i + 1..]
  }

  function Without(entries: seq<Entry>, id: EventId): seq<Entry> {
    match IndexOfKey(entries, id)
    case None => entries
    case Some(i) => Drop(entries, i)
  }

  /** The retained entry of an event: the one in flight, or else the first that waits. */
  function Retained(m: Memory, id: EventId): Option<Entry> {
    match IndexOfKey(m.inFlight, id)
    case Some(i) => Some(m.inFlight[i])
    case None =>
      match IndexOfKey(m.outbound, id)
      case Some(i) => Some(m.outbound[i])
      case None => None
  }

  /** The first retained request with this request id. */
  function RequestIndex(entries: seq<Entry>, requestId: RequestId, start: nat := 0): (r: Option<nat>)
    requires start <= |entries|
    ensures r.Some? ==> start <= r.value < |entries|
    ensures r.Some? ==> entries[r.value].body.Request? && entries[r.value].body.requestId == requestId
    decreases |entries| - start
  {
    if start == |entries| then None
    else if entries[start].body.Request? && entries[start].body.requestId == requestId then Some(start)
    else RequestIndex(entries, requestId, start + 1)
  }

  /** Map.set: an existing key keeps its place. */
  function Put(entries: seq<Entry>, id: EventId, entry: Entry): seq<Entry> {
    match IndexOfKey(entries, id)
    case Some(i) => entries[i := entry]
    case None => entries + [entry]
  }

  // ---- steps

  /** One envelope is sent: its entry moves in flight, or is forgotten if it has no event id. */
  function Deliver(s: State): State
    requires s.memory.outbound != []
  {
    var m, entry := s.memory, s.memory.outbound[0];
    var sent := m.(outbound := m.outbound[1..],
                   outboundSequence := m.outboundSequence + 1,
                   wire := m.wire + [Envelope(m.outboundSequence + 1, entry)]);
    match Key(entry)
    case None => s.(memory := sent.(outboundBytes := m.outboundBytes - Size(entry)))
    case Some(id) =>
      State(if Durable(entry) then MarkInFlight(s.rows, id) else s.rows,
            sent.(inFlight := Put(m.inFlight, id, entry)))
  }

  /** The flush loop against a socket that behaves as the attempts say, and then is full. */
  function FlushLoop(s: State, attempts: seq<Attempt>): State
    decreases |attempts|
  {
    if s.memory.outbound == [] || attempts == [] then s
    else match attempts[0]
      case Full => s
      case Throws => s
      case Invalid => s.(memory := s.memory.(outboundSequence := s.memory.outboundSequence + 1, terminal := true))
      case Sent => FlushLoop(Deliver(s), attempts[1..])
  }

  function Flush(s: State, attempts: seq<Attempt>): State {
    if s.memory.connection != Active then s else FlushLoop(s, attempts)
  }

  predicate Backpressure(cfg: Config, m: Memory, bytes: nat) {
    || |m.outbound| >= cfg.maximumOutboundItems
    || bytes > cfg.maximumOutboundBytes
    || m.outboundBytes + bytes > cfg.maximumOutboundBytes
  }

  function Push(s: State, entry: Entry): State {
    s.(memory := s.memory.(outbound := s.memory.outbound + [entry],
                           outboundBytes := s.memory.outboundBytes + Size(entry)))
  }

  /** Storing a durable body and queueing it; how send reports a store that refuses. */
  function Accept(cfg: Config, s: State, body: Body): (State, Result<()>)
    requires ValidConfig(cfg)
  {
    if !body.Semantic? then (Push(s, Entry(body, None)), Ok(()))
    else
      var (rows, stored) := Enqueue(cfg.limits, cfg.accepts, s.rows, body.event);
      match stored
      case Err(code) =>
        (s, Err(if code == "RUNNER_EVENT_ID_CONFLICT" then code else "RUNNER_OUTBOUND_BACKPRESSURE"))
      case Ok(row) => (Push(s.(rows := rows), Entry(body, EntryOf(row).continuity)), Ok(()))
  }

  /** send: the new state, and whether anything is left queued. */
  function Send(cfg: Config, s: State, body: Body, attempts: seq<Attempt>): (State, Result<bool>)
    requires ValidConfig(cfg)
  {
    var m, entry := s.memory, Entry(body, None);
    if m.connection != Active then (s, Err("RUNNER_CONNECTION_INACTIVE"))
    else if !cfg.schema(body) then (s, Err("RUNNER_OUTBOUND_INVALID"))
    else if Key(entry).Some? && Retained(m, Key(entry).value).Some? then
      var prior := Retained(m, Key(entry).value).value;
      (s, if cfg.sha256(JsonOf(prior.body)) != cfg.sha256(JsonOf(body)) then Err("RUNNER_EVENT_ID_CONFLICT") else Ok(true))
    else if Backpressure(cfg, m, Size(entry)) then (s, Err("RUNNER_OUTBOUND_BACKPRESSURE"))
    else
      var (accepted, result) := Accept(cfg, s, body);
      match result
      case Err(code) => (s, Err(code))
      case Ok(_) =>
        var flushed := Flush(accepted, attempts);
        (flushed, Ok(flushed.memory.outbound != []))
  }

  /** Forgetting a retained event. */
  function Forget(m: Memory, id: EventId, entry: Entry): Memory {
    m.(inFlight := Without(m.inFlight, id),
       outbound := Without(m.outbound, id),
       outboundBytes := m.outboundBytes - Size(entry),
       processedResponses := m.processedResponses - {id},
       pendingAcknowledgements := m.pendingAcknowledgements - {id})
  }

  function Complete(s: State, id: EventId): State {
    match Retained(s.memory, id)
    case None => s
    case Some(entry) =>
      State(if Durable(entry) then Acknowledge(s.rows, id, Applied).0 else s.rows, Forget(s.memory, id, entry))
  }

  /** The effect of SEMANTIC_EVENT_ACK. */
  function AckEffect(s: State, id: EventId, disposition: Disposition): State {
    match Retained(s.memory, id)
    case None => s
    case Some(entry) =>
      if entry.body.Request? && id !in s.memory.processedResponses then
        s.(memory := s.memory.(pendingAcknowledgements := s.memory.pendingAcknowledgements + {id}))
      else if disposition == Refused && Durable(entry) then
        var (rows, stored) := Acknowledge(s.rows, id, Refused);
        if stored.Ok? then State(rows, Forget(s.memory, id, entry)) else s
      else Complete(s, id)
  }

  /** The effect of AUTHORITY_RESPONSE. */
  function ResponseEffect(s: State, requestId: RequestId): State {
    match RequestIndex(Queue(s.memory), requestId)
    case None => s
    case Some(i) =>
      var id := Queue(s.memory)[i].body.eventId;
      var marked := s.(memory := s.memory.(processedResponses := s.memory.processedResponses + {id}));
      if id in s.memory.pendingAcknowledgements then Complete(marked, id) else marked
  }

  /** The socket closes: only durable entries survive, those in flight before those that waited. */
  function Close(s: State): State {
    var m := s.memory;
    if m.connection == Stopped then s
    else
      var outbound := Durables(m.inFlight) + Durables(m.outbound);
      s.(memory := m.(outbound := outbound,
                      inFlight := [],
                      outboundBytes := Sizes(outbound),
                      connection := if m.terminal then Stopped else BackingOff,
                      terminal := false))
  }

  function Stop(s: State): State {
    s.(memory := s.memory.(connection := Stopped, outbound := [], inFlight := [], outboundBytes := 0,
                           processedResponses := {}, pendingAcknowledgements := {}))
  }

  function Begin(s: State): State {
    if s.memory.connection in {Disconnected, BackingOff}
    then s.(memory := s.memory.(connection := Authenticating))
    else s
  }

  function StartFailed(s: State, authentication: bool): State {
    if s.memory.connection != Authenticating then s
    else s.(memory := s.memory.(connection := if authentication then Stopped else BackingOff))
  }

  function Connected(s: State): State {
    s.(memory := s.memory.(terminal := false, outboundSequence := 0, wire := []))
  }

  function Opened(s: State): State {
    if s.memory.connection == Authenticating then s.(memory := s.memory.(connection := Negotiating)) else s
  }

  function Welcomed(s: State, attempts: seq<Attempt>): State {
    if s.memory.connection != Negotiating then s
    else Flush(s.(memory := s.memory.(connection := Active)), attempts)
  }

  function Fail(s: State, terminal: bool): State {
    s.(memory := s.memory.(terminal := s.memory.terminal || terminal))
  }

  /** The answer of SELECT ... WHERE state = 'PENDING' ORDER BY local_sequence, ties in any order. */
  ghost predicate IsReady(rows: seq<Row>, ready: seq<Row>) {
    && DistinctIds(ready)
    && (forall row :: row in ready <==> row in rows && row.state.Pending?)
    && (forall i, j :: 0 <= i < j < |ready| ==> ready[i].localSequence <= ready[j].localSequence)
  }

  function Loaded(ready: seq<Row>): Memory {
    Memory(Disconnected, false, EntriesOf(ready), [], {}, {}, Sizes(EntriesOf(ready)), 0, [])
  }

  predicate LoadFits(cfg: Config, m: Memory) {
    |m.outbound| <= cfg.maximumOutboundItems && m.outboundBytes <= cfg.maximumOutboundBytes
  }

  /** A new process on the table: rows in flight wait again, and all that wait are loaded. */
  function Restart(cfg: Config, rows: seq<Row>, ready: seq<Row>): World {
    if LoadFits(cfg, Loaded(ready)) then Running(State(RequeueInFlight(rows), Loaded(ready)))
    else Down(RequeueInFlight(rows))
  }

  datatype Step =
    | SendStep(body: Body, attempts: seq<Attempt>)
    | FlushStep(attempts: seq<Attempt>)
    | AckStep(id: EventId, disposition: Disposition)
    | ResponseStep(requestId: RequestId)
    | CloseStep
    | StopStep
    | BeginStep
    | StartFailedStep(authentication: bool)
    | ConnectedStep
    | OpenedStep
    | WelcomedStep(attempts: seq<Attempt>)
    | FailStep(terminal: bool)
    | RestartStep(ready: seq<Row>)

  /** A step of a running process. */
  function StepOf(cfg: Config, s: State, step: Step): State
    requires ValidConfig(cfg)
  {
    match step
    case SendStep(body, attempts) => Send(cfg, s, body, attempts).0
    case FlushStep(attempts) => Flush(s, attempts)
    case AckStep(id, disposition) => AckEffect(s, id, disposition)
    case ResponseStep(requestId) => ResponseEffect(s, requestId)
    case CloseStep => Close(s)
    case StopStep => Stop(s)
    case BeginStep => Begin(s)
    case StartFailedStep(authentication) => StartFailed(s, authentication)
    case ConnectedStep => Connected(s)
    case OpenedStep => Opened(s)
    case WelcomedStep(attempts) => Welcomed(s, attempts)
    case FailStep(terminal) => Fail(s, terminal)
    case RestartStep(_) => s
  }

  function RowsOf(w: World): seq<Row> {
    if w.Running? then w.state.rows else w.rows
  }

  /** Any step of a process, or its death followed by a new process. */
  ghost function NextWorld(cfg: Config, w: World, step: Step): World
    requires ValidConfig(cfg)
  {
    if step.RestartStep? then
      if IsReady(RequeueInFlight(RowsOf(w)), step.ready) then Restart(cfg, RowsOf(w), step.ready) else w
    else if w.Running? then Running(StepOf(cfg, w.state, step))
    else w
  }

  /** Every history of a runner, from an empty table and no process. */
  ghost function History(cfg: Config, steps: seq<Step>): World
    requires ValidConfig(cfg)
  {
    if steps == [] then Down([])
    else NextWorld(cfg, History(cfg, steps[..|steps| - 1]), steps[|steps| - 1])
  }
}
