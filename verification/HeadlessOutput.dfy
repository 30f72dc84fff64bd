/** The output producer of a run: a bounded queue, redacted and sent chunk by chunk, with sends that may fail. */
module HeadlessOutput {
  import opened Common
  import opened Utf8
  import opened Redaction

  datatype Per<T> = Per(stdout: T, stderr: T) {
    function Get(stream: Stream): T {
      if stream.Stdout? then stdout else stderr
    }

    function With(stream: Stream, value: T): Per<T> {
      if stream.Stdout? then this.(stdout := value) else this.(stderr := value)
    }
  }

  datatype Queued = Queued(stream: Stream, text: string, bytes: nat)

  /** A HEADLESS_OUTPUT_CHUNK that was sent. */
  datatype Chunk = Chunk(stream: Stream, sequence: nat, text: string)

  /** The text that is being sent: its chunks still to go, and the queue entry it came from, if any. */
  datatype Sending = Sending(stream: Stream, chunks: seq<string>, entry: Option<nat>)

  datatype Config = Config(patterns: Patterns, holdback: nat, maximumItems: nat, maximumBytes: nat)

  datatype State = State(queue: seq<Queued>, redactor: Per<StreamState>, sequences: Per<nat>, current: Option<Sending>,
                         pendingItems: int, pendingBytes: int, finished: bool, halted: bool, flushed: nat, sent: seq<Chunk>)

  const CHUNK_BYTES: nat := 16384

  ghost predicate ConfigOk(config: Config) {
    Lawful(config.patterns) && 128 <= config.holdback <= 8192 && config.maximumItems >= 1 && config.maximumBytes >= 1
  }

  function Start(): State {
    State([], Per(StreamState("", false), StreamState("", false)), Per(0, 0), None, 0, 0, false, false, 0, [])
  }

  function PushOutput(config: Config, s: State, stream: Stream, text: string): (State, Result<()>) {
    var bytes := ByteLength(text);
    if s.finished then (s, Err("OUTPUT_FINISHED"))
    else if s.pendingItems >= config.maximumItems || bytes > config.maximumBytes || s.pendingBytes + bytes > config.maximumBytes then
      (s, Err("OUTPUT_BACKPRESSURE"))
    else
      (s.(pendingItems := s.pendingItems + 1, pendingBytes := s.pendingBytes + bytes,
          queue := s.queue + [Queued(stream, text, bytes)]), Ok(()))
  }

  /** The end of an entry, however it ends: the counters go down. */
  function Ended(s: State, entry: Option<nat>, failed: bool): State {
    var t := s.(current := None, halted := s.halted || (failed && s.finished));
    match entry case None => t case Some(bytes) => t.(pendingItems := t.pendingItems - 1, pendingBytes := t.pendingBytes - bytes)
  }

  /** The next entry goes through the redactor. */
  ghost function TakeEntry(config: Config, s: State): State
    requires Lawful(config.patterns) && s.queue != []
  {
    var entry := s.queue[0];
    var (emit, redacted) := Push(config.patterns, config.holdback, s.redactor.Get(entry.stream), entry.text);
    var t := s.(queue := s.queue[1..], redactor := s.redactor.With(entry.stream, redacted));
    match emit
    case Err(_) => Ended(t, Some(entry.bytes), true)
    case Ok(text) => t.(current := Some(Sending(entry.stream, Chunks(text, CHUNK_BYTES), Some(entry.bytes))))
  }

  /** One send; its number is used up whether or not it succeeds, and a failure drops the rest of the entry. */
  function SendChunk(s: State, ok: bool): State
    requires s.current.Some? && s.current.value.chunks != []
  {
    var c := s.current.value;
    var sequence := s.sequences.Get(c.stream) + 1;
    var t := s.(sequences := s.sequences.With(c.stream, sequence));
    if ok then t.(current := Some(c.(chunks := c.chunks[1..])), sent := s.sent + [Chunk(c.stream, sequence, c.chunks[0])])
    else Ended(t, c.entry, true)
  }

  /** After draining, what the redactor holds back of each stream in turn. */
  function FlushNext(config: Config, s: State): State
    requires s.flushed < 2
  {
    var stream := if s.flushed == 0 then Stdout else Stderr;
    var (text, redacted) := Flush(config.patterns, s.redactor.Get(stream));
    s.(flushed := s.flushed + 1, redactor := s.redactor.With(stream, redacted),
       current := Some(Sending(stream, Chunks(text, CHUNK_BYTES), None)))
  }

  datatype Step =
    | Pushed(stream: Stream, text: string)
    | Taken
    | Sent(ok: bool)
    | EntryDone
    | FinishCalled
    | Flushed

  ghost predicate Enabled(s: State, step: Step) {
    match step
    case Pushed(_, _) => true
    case Taken => s.current == None && s.queue != []
    case Sent(_) => s.current.Some? && s.current.value.chunks != []
    case EntryDone => s.current.Some? && s.current.value.chunks == []
    case FinishCalled => true
    case Flushed => s.finished && !s.halted && s.current == None && s.queue == [] && s.flushed < 2
  }

  ghost function Next(config: Config, s: State, step: Step): State
    requires Lawful(config.patterns)
  {
    if !Enabled(s, step) then s
    else match step
      case Pushed(stream, text) => PushOutput(config, s, stream, text).0
      case Taken => TakeEntry(config, s)
      case Sent(ok) => SendChunk(s, ok)
      case EntryDone => Ended(s, s.current.value.entry, false)
      case FinishCalled => s.(finished := true)
      case Flushed => FlushNext(config, s)
  }

  ghost function Reached(config: Config, steps: seq<Step>): State
    requires Lawful(config.patterns)
  {
    if steps == [] then Start() else Next(config, Reached(config, steps[..|steps| - 1]), steps[|steps| - 1])
  }

  // ---- the counters, in every history

  function TotalBytes(queue: seq<Queued>): nat {
    if queue == [] then 0 else queue[0].bytes + TotalBytes(queue[1..])
  }

  lemma {:induction false} TotalAdds(queue: seq<Queued>, q: Queued)
    ensures TotalBytes(queue + [q]) == TotalBytes(queue) + q.bytes
  {
    if queue == [] {
      assert [q][1..] == [];
      assert [] + [q] == [q];
    } else {
      assert (queue + [q])[1..] == queue[1..] + [q];
      TotalAdds(queue[1..], q);
    }
  }

  /** pendingItems and pendingBytes are those of the unfinished entries, and within the limits. */
  ghost predicate Counted(config: Config, s: State) {
    var entry := if s.current.Some? then s.current.value.entry else None;
    && s.pendingItems == |s.queue| + (if entry.Some? then 1 else 0)
    && s.pendingBytes == TotalBytes(s.queue) + (if entry.Some? then entry.value else 0)
    && s.pendingItems <= config.maximumItems && s.pendingBytes <= config.maximumBytes
  }

  lemma {:induction false} StepKeepsCounts(config: Config, s: State, step: Step)
    requires Lawful(config.patterns) && Counted(config, s)
    ensures Counted(config, Next(config, s, step))
  {
    hide Push, Chunks, Flush, ByteLength;
    match step
    case Pushed(stream, text) => TotalAdds(s.queue, Queued(stream, text, ByteLength(text)));
    case Taken =>
    case Sent(ok) =>
    case EntryDone =>
    case FinishCalled =>
    case Flushed =>
  }

  lemma {:induction false} EveryStateIsCounted(config: Config, steps: seq<Step>)
    requires ConfigOk(config)
    ensures Counted(config, Reached(config, steps))
  {
    if steps != [] {
      EveryStateIsCounted(config, steps[..|steps| - 1]);
      StepKeepsCounts(config, Reached(config, steps[..|steps| - 1]), steps[|steps| - 1]);
    }
  }

  // ---- every chunk, in every history

  ghost predicate ChunkFits(text: string) {
    text != "" && ByteLength(text) <= CHUNK_BYTES
  }

  ghost predicate AllFit(s: State) {
    && (forall i :: 0 <= i < |s.sent| ==> ChunkFits(s.sent[i].text))
    && (s.current.Some? ==> forall i :: 0 <= i < |s.current.value.chunks| ==> ChunkFits(s.current.value.chunks[i]))
  }

  lemma {:induction false} ChunksFit(text: string)
    ensures forall i :: 0 <= i < |Chunks(text, CHUNK_BYTES)| ==> ChunkFits(Chunks(text, CHUNK_BYTES)[i])
  {
    ChunksAreSound(text, CHUNK_BYTES);
  }

  lemma {:induction false} StepFits(config: Config, s: State, step: Step)
    requires Lawful(config.patterns) && AllFit(s)
    ensures AllFit(Next(config, s, step))
  {
    hide Push, Chunks, ChunkFits, Flush;
    match step
    case Pushed(stream, text) =>
    case Taken =>
      if Enabled(s, step) {
        var entry := s.queue[0];
        var emit := Push(config.patterns, config.holdback, s.redactor.Get(entry.stream), entry.text).0;
        if emit.Ok? { ChunksFit(emit.value); }
      }
    case Sent(ok) =>
    case EntryDone =>
    case FinishCalled =>
    case Flushed =>
      ChunksFit(Flush(config.patterns, s.redactor.Get(if s.flushed == 0 then Stdout else Stderr)).0);
  }

  lemma {:induction false} EveryChunkFits(config: Config, steps: seq<Step>)
    requires ConfigOk(config)
    ensures AllFit(Reached(config, steps))
  {
    if steps != [] {
      EveryChunkFits(config, steps[..|steps| - 1]);
      StepFits(config, Reached(config, steps[..|steps| - 1]), steps[|steps| - 1]);
    }
  }

  // ---- the text of a stream, where it stands

  function Said(sent: seq<Chunk>, stream: Stream): string {
    if sent == [] then ""
    else Said(sent[..|sent| - 1], stream) + if sent[|sent| - 1].stream == stream then sent[|sent| - 1].text else ""
  }

  function Left(current: Option<Sending>, stream: Stream): string {
    if current.Some? && current.value.stream == stream then Concat(current.value.chunks) else ""
  }

  function Waiting(queue: seq<Queued>, stream: Stream): string {
    if queue == [] then "" else TextOn(queue[0], stream) + Waiting(queue[1..], stream)
  }

  function Present(s: State, stream: Stream): string {
    Said(s.sent, stream) + Left(s.current, stream) + s.redactor.Get(stream).pending + Waiting(s.queue, stream)
  }

  /** The texts of a stream that push accepted, one after the other. */
  ghost function Accepted(config: Config, steps: seq<Step>, stream: Stream): string
    requires Lawful(config.patterns)
  {
    if steps == [] then ""
    else
      var before, step := steps[..|steps| - 1], steps[|steps| - 1];
      Accepted(config, before, stream)
      + if step.Pushed? && step.stream == stream && PushOutput(config, Reached(config, before), stream, step.text).1.Ok? then step.text else ""
  }

  /** Sends succeed, and every accepted text is within the redactor's limit. */
  ghost predicate Smooth(config: Config, steps: seq<Step>)
    requires Lawful(config.patterns)
  {
    steps == [] ||
    (Smooth(config, steps[..|steps| - 1]) &&
     match steps[|steps| - 1]
     case Sent(ok) => ok
     case Pushed(stream, text) => ByteLength(text) <= MAXIMUM_PUSH
     case _ => true)
  }

  /** No accepted text of either stream holds a secret or a key marker, within one push or across several. */
  ghost predicate CleanStreams(config: Config, steps: seq<Step>)
    requires Lawful(config.patterns)
  {
    forall stream :: Clean(config.patterns, Accepted(config, steps, stream))
  }

  function TextOn(q: Queued, stream: Stream): string {
    if q.stream == stream then q.text else ""
  }

  lemma {:induction false} WaitingAdds(queue: seq<Queued>, q: Queued, stream: Stream)
    ensures Waiting(queue + [q], stream) == Waiting(queue, stream) + TextOn(q, stream)
  {
    hide TextOn;
    if queue == [] {
      assert [q][1..] == [] && [] + [q] == [q];
      assert TextOn(q, stream) + "" == "" + TextOn(q, stream);
    } else {
      assert (queue + [q])[1..] == queue[1..] + [q];
      WaitingAdds(queue[1..], q, stream);
      assert TextOn(queue[0], stream) + (Waiting(queue[1..], stream) + TextOn(q, stream))
             == TextOn(queue[0], stream) + Waiting(queue[1..], stream) + TextOn(q, stream);
    }
  }

  lemma {:induction false} SaidAdds(sent: seq<Chunk>, c: Chunk, stream: Stream)
    ensures Said(sent + [c], stream) == Said(sent, stream) + if c.stream == stream then c.text else ""
  {
    assert (sent + [c])[..|sent|] == sent;
  }

  ghost predicate Conserves(config: Config, s: State) {
    && !s.redactor.stdout.privateKey && !s.redactor.stderr.privateKey
    && forall i :: 0 <= i < |s.queue| ==> ByteLength(s.queue[i].text) <= MAXIMUM_PUSH
  }

  lemma {:induction false} PushPresents(config: Config, s: State, pushed: Stream, text: string, stream: Stream)
    ensures var (t, answer) := PushOutput(config, s, pushed, text);
            Present(t, stream) == Present(s, stream) + if answer.Ok? && pushed == stream then text else ""
  {
    hide ByteLength;
    WaitingAdds(s.queue, Queued(pushed, text, ByteLength(text)), stream);
  }

  lemma {:induction false} SendPresents(s: State, stream: Stream)
    requires s.current.Some? && s.current.value.chunks != []
    ensures Present(SendChunk(s, true), stream) == Present(s, stream)
  {
    var c := s.current.value;
    SaidAdds(s.sent, Chunk(c.stream, s.sequences.Get(c.stream) + 1, c.chunks[0]), stream);
  }

  lemma {:induction false} EndPresents(s: State, failed: bool, stream: Stream)
    requires s.current.Some? && s.current.value.chunks == []
    ensures Present(Ended(s, s.current.value.entry, failed), stream) == Present(s, stream)
  {
  }

  lemma {:induction false} FlushPresents(config: Config, s: State, stream: Stream)
    requires s.flushed < 2 && s.current == None && s.queue == []
    requires forall other :: config.patterns.known(s.redactor.Get(other).pending) == s.redactor.Get(other).pending
    ensures Present(FlushNext(config, s), stream) == Present(s, stream)
  {
    var flushing := if s.flushed == 0 then Stdout else Stderr;
    ChunksAreSound(config.patterns.known(s.redactor.Get(flushing).pending), CHUNK_BYTES);
    hide Chunks;
  }

  lemma {:induction false} InMiddle(a: string, b: string, c: string, d: string)
    ensures var all := a + "" + b + (c + d); |a| + |b| + |c| <= |all| && all[|a|..|a| + |b| + |c|] == b + c
  {
  }

  lemma {:induction false} TakesClean(config: Config, s: State)
    requires ConfigOk(config) && Conserves(config, s) && s.current == None && s.queue != []
    requires Clean(config.patterns, Present(s, s.queue[0].stream))
    ensures var state := s.redactor.Get(s.queue[0].stream);
            var (emit, next) := Push(config.patterns, config.holdback, state, s.queue[0].text);
            emit.Ok? && emit.value + next.pending == state.pending + s.queue[0].text && !next.privateKey
  {
    hide Push, Said, Clean, ByteLength;
    var entry := s.queue[0];
    var state, said := s.redactor.Get(entry.stream), Said(s.sent, entry.stream);
    var all := Present(s, entry.stream);
    assert all == said + "" + state.pending + (entry.text + Waiting(s.queue[1..], entry.stream));
    InMiddle(said, state.pending, entry.text, Waiting(s.queue[1..], entry.stream));
    CleanSubstring(config.patterns, all, |said|, |said| + |state.pending| + |entry.text|);
    CleanPush(config.patterns, config.holdback, state, entry.text);
  }

  lemma {:induction false} TakePresents(config: Config, s: State, stream: Stream)
    requires ConfigOk(config) && Conserves(config, s) && s.current == None && s.queue != []
    requires Clean(config.patterns, Present(s, s.queue[0].stream))
    ensures var t := TakeEntry(config, s); Conserves(config, t) && Present(t, stream) == Present(s, stream)
  {
    TakesClean(config, s);
    hide Push, Chunks, Said, Clean, ByteLength, Present;
    var entry := s.queue[0];
    var (emit, redacted) := Push(config.patterns, config.holdback, s.redactor.Get(entry.stream), entry.text);
    ChunksAreSound(emit.value, CHUNK_BYTES);
    TakenPresents(s, TakeEntry(config, s), redacted, emit.value, stream);
  }

  /** The next entry is where its text is: in the chunks and in what is held back. */
  lemma {:induction false} TakenPresents(s: State, t: State, redacted: StreamState, emit: string, stream: Stream)
    requires s.current == None && s.queue != []
    requires var entry := s.queue[0];
             && t.queue == s.queue[1..] && t.sent == s.sent && t.redactor == s.redactor.With(entry.stream, redacted)
             && t.current.Some? && t.current.value.stream == entry.stream && Concat(t.current.value.chunks) == emit
             && emit + redacted.pending == s.redactor.Get(entry.stream).pending + entry.text
    ensures Present(t, stream) == Present(s, stream)
  {
    hide Said, Concat;
    var entry := s.queue[0];
    Regrouped(Said(s.sent, stream), emit, redacted.pending, s.redactor.Get(entry.stream).pending, entry.text, Waiting(s.queue[1..], stream));
  }

  lemma {:induction false} Regrouped(said: string, emit: string, after: string, before: string, text: string, rest: string)
    requires emit + after == before + text
    ensures said + emit + after + rest == said + "" + before + (text + rest)
  {
    assert said + emit + after + rest == said + (emit + after) + rest;
    assert said + "" + before + (text + rest) == said + (before + text) + rest;
  }

  lemma {:induction false} EarlierClean(config: Config, steps: seq<Step>)
    requires Lawful(config.patterns) && steps != [] && CleanStreams(config, steps)
    ensures CleanStreams(config, steps[..|steps| - 1])
  {
    hide Clean, PushOutput;
    var earlier := steps[..|steps| - 1];
    forall stream ensures Clean(config.patterns, Accepted(config, earlier, stream)) {
      var all, before := Accepted(config, steps, stream), Accepted(config, earlier, stream);
      CleanSubstring(config.patterns, all, 0, |before|);
      assert all[0..|before|] == before;
    }
  }

  lemma {:induction false} PendingIsClean(config: Config, s: State, stream: Stream)
    requires Clean(config.patterns, Present(s, stream))
    ensures config.patterns.known(s.redactor.Get(stream).pending) == s.redactor.Get(stream).pending
  {
    hide Clean;
    var before, pending := Said(s.sent, stream) + Left(s.current, stream), s.redactor.Get(stream).pending;
    var all := Present(s, stream);
    assert all[|before|..|before| + |pending|] == pending;
    CleanSubstring(config.patterns, all, |before|, |before| + |pending|);
  }

  lemma {:induction false} StartPresents(stream: Stream)
    ensures Present(Start(), stream) == ""
  {
  }

  lemma {:induction false} FinishPresents(s: State, stream: Stream)
    ensures Present(s.(finished := true), stream) == Present(s, stream)
  {
  }

  lemma {:induction false} FlushConserves(config: Config, s: State)
    requires Conserves(config, s) && s.flushed < 2
    ensures Conserves(config, FlushNext(config, s))
  {
    hide Chunks, ByteLength;
  }

  lemma {:induction false} StepPresents(config: Config, s: State, step: Step, stream: Stream)
    requires ConfigOk(config) && Conserves(config, s)
    requires forall other :: Clean(config.patterns, Present(s, other))
    requires match step case Sent(ok) => ok case Pushed(_, text) => ByteLength(text) <= MAXIMUM_PUSH case _ => true
    ensures Conserves(config, Next(config, s, step))
    ensures Present(Next(config, s, step), stream)
            == Present(s, stream) + if step.Pushed? && step.stream == stream && PushOutput(config, s, stream, step.text).1.Ok? then step.text else ""
  {
    hide Clean, Present, TakeEntry, ByteLength, Flush, Chunks;
    match step
    case Pushed(pushed, text) => PushPresents(config, s, pushed, text, stream);
    case Taken => if Enabled(s, step) { TakePresents(config, s, stream); }
    case Sent(ok) => if Enabled(s, step) { SendPresents(s, stream); }
    case EntryDone => if Enabled(s, step) { EndPresents(s, false, stream); }
    case FinishCalled => FinishPresents(s, stream);
    case Flushed =>
      if Enabled(s, step) {
        forall other ensures config.patterns.known(s.redactor.Get(other).pending) == s.redactor.Get(other).pending {
          PendingIsClean(config, s, other);
        }
        FlushPresents(config, s, stream);
        FlushConserves(config, s);
      }
  }

  /** At every moment, what was sent of a stream, what is being sent, held back and queued make up what was accepted, in order. */
  lemma {:induction false} OutputIsConserved(config: Config, steps: seq<Step>, stream: Stream)
    requires ConfigOk(config) && Smooth(config, steps) && CleanStreams(config, steps)
    ensures Present(Reached(config, steps), stream) == Accepted(config, steps, stream)
    ensures Conserves(config, Reached(config, steps))
  {
    hide Clean, Present, Next, PushOutput;
    if steps == [] {
      StartPresents(stream);
    } else {
      var before, s := steps[..|steps| - 1], Reached(config, steps[..|steps| - 1]);
      EarlierClean(config, steps);
      forall other ensures Present(s, other) == Accepted(config, before, other) {
        OutputIsConserved(config, before, other);
      }
      OutputIsConserved(config, before, stream);
      StepPresents(config, s, steps[|steps| - 1], stream);
    }
  }

  /** When both streams are flushed and nothing is being sent, each stream was sent whole. */
  lemma {:induction false} FinishedOutputIsWhole(config: Config, steps: seq<Step>, stream: Stream)
    requires ConfigOk(config) && Smooth(config, steps) && CleanStreams(config, steps)
    requires var s := Reached(config, steps); s.flushed == 2 && s.current == None
    ensures Said(Reached(config, steps).sent, stream) == Accepted(config, steps, stream)
  {
    hide Clean;
    OutputIsConserved(config, steps, stream);
    NothingAfterFlush(config, steps);
    var s := Reached(config, steps);
    assert Said(s.sent, stream) + "" + "" + "" == Said(s.sent, stream);
  }

  ghost predicate FlushedEmpty(s: State) {
    && (s.flushed > 0 ==> s.finished && s.queue == [] && s.redactor.stdout.pending == "")
    && (s.flushed > 1 ==> s.redactor.stderr.pending == "") && s.flushed <= 2
  }

  lemma {:induction false} StepKeepsFlushed(config: Config, s: State, step: Step)
    requires Lawful(config.patterns) && FlushedEmpty(s)
    ensures FlushedEmpty(Next(config, s, step))
  {
    hide Push, Chunks, ByteLength;
  }

  lemma {:induction false} NothingAfterFlush(config: Config, steps: seq<Step>)
    requires Lawful(config.patterns)
    ensures FlushedEmpty(Reached(config, steps))
  {
    hide Next;
    if steps != [] {
      NothingAfterFlush(config, steps[..|steps| - 1]);
      StepKeepsFlushed(config, Reached(config, steps[..|steps| - 1]), steps[|steps| - 1]);
    }
  }

  // ---- numbering

  /** How many of the first n chunks are of a stream. */
  function CountOf(sent: seq<Chunk>, n: nat, stream: Stream): nat
    requires n <= |sent|
  {
    if n == 0 then 0 else CountOf(sent, n - 1, stream) + if sent[n - 1].stream == stream then 1 else 0
  }

  /** On each stream the chunks are numbered 1, 2, 3 and so on. */
  ghost predicate Numbered(s: State) {
    && (forall stream :: s.sequences.Get(stream) == CountOf(s.sent, |s.sent|, stream))
    && forall i :: 0 <= i < |s.sent| ==> s.sent[i].sequence == CountOf(s.sent, i, s.sent[i].stream) + 1
  }

  lemma {:induction false} CountKept(sent: seq<Chunk>, c: Chunk, n: nat, stream: Stream)
    requires n <= |sent|
    ensures CountOf(sent + [c], n, stream) == CountOf(sent, n, stream)
  {
    if n > 0 {
      CountKept(sent, c, n - 1, stream);
    }
  }

  lemma {:induction false} SendNumbers(s: State)
    requires Numbered(s) && s.current.Some? && s.current.value.chunks != []
    ensures Numbered(SendChunk(s, true))
  {
    var t := SendChunk(s, true);
    var n := |s.sent|;
    var c := t.sent[n];
    assert t.sent == s.sent + [c];
    forall stream ensures t.sequences.Get(stream) == CountOf(t.sent, n + 1, stream) {
      CountKept(s.sent, c, n, stream);
    }
    forall i | 0 <= i < n + 1 ensures t.sent[i].sequence == CountOf(t.sent, i, t.sent[i].stream) + 1 {
      CountKept(s.sent, c, i, t.sent[i].stream);
    }
  }

  lemma {:induction false} StartIsNumbered()
    ensures Numbered(Start())
  {
  }

  lemma {:induction false} ChunksAreNumbered(config: Config, steps: seq<Step>)
    requires Lawful(config.patterns) && Smooth(config, steps)
    ensures Numbered(Reached(config, steps))
  {
    hide Push, Chunks, ByteLength, Numbered, PushOutput, TakeEntry;
    if steps == [] {
      StartIsNumbered();
    } else {
      var s, step := Reached(config, steps[..|steps| - 1]), steps[|steps| - 1];
      ChunksAreNumbered(config, steps[..|steps| - 1]);
      if step.Sent? {
        if Enabled(s, step) { SendNumbers(s); }
      } else {
        SameChunks(config, s, step);
      }
    }
  }

  lemma {:induction false} SameChunks(config: Config, s: State, step: Step)
    requires Lawful(config.patterns) && !step.Sent?
    ensures var t := Next(config, s, step); t.sent == s.sent && t.sequences == s.sequences
    ensures Numbered(s) ==> Numbered(Next(config, s, step))
  {
    hide Push, Chunks, ByteLength;
  }

  // ---- the producer

  class HeadlessOutputProducer {
    const redactor: SplitSafeRedactor
    const maximumPendingItems: nat
    const maximumPendingBytes: nat
    var queue: seq<Queued>
    var streamSequences: map<Stream, nat>
    var current: Option<Sending>
    var pendingItems: int
    var pendingBytes: int
    var finished: bool
    var halted: bool
    var flushed: nat
    /** What the transport took. */
    var sent: seq<Chunk>

    ghost function Settings(): Config
      reads redactor
    {
      Config(redactor.patterns, redactor.holdbackBytes, maximumPendingItems, maximumPendingBytes)
    }

    ghost predicate Valid()
      reads this, redactor
    {
      redactor.Valid() && ConfigOk(Settings()) && flushed <= 2
    }

    function SequenceOf(stream: Stream): nat
      reads `streamSequences
    {
      if stream in streamSequences then streamSequences[stream] else 0
    }

    ghost function S(): State
      reads this, redactor
    {
      State(queue, Per(redactor.State(Stdout), redactor.State(Stderr)), Per(SequenceOf(Stdout), SequenceOf(Stderr)), current,
            pendingItems, pendingBytes, finished, halted, flushed, sent)
    }

    constructor (redactor: SplitSafeRedactor, maximumPendingItems: nat, maximumPendingBytes: nat)
      requires redactor.Valid() && maximumPendingItems >= 1 && maximumPendingBytes >= 1
      requires forall stream :: redactor.State(stream) == StreamState("", false)
      ensures Valid() && S() == Start() && this.redactor == redactor
    {
      this.redactor, this.maximumPendingItems, this.maximumPendingBytes := redactor, maximumPendingItems, maximumPendingBytes;
      queue, streamSequences, current, pendingItems, pendingBytes := [], map[], None, 0, 0;
      finished, halted, flushed, sent := false, false, 0, [];
    }

    method PushEvent(stream: Stream, text: string) returns (r: Result<()>)
      requires Valid()
      modifies this
      ensures Valid() && S() == Next(Settings(), old(S()), Pushed(stream, text))
      ensures r == PushOutput(Settings(), old(S()), stream, text).1
    {
      if finished {
        return Err("OUTPUT_FINISHED");
      }
      var bytes := ByteLength(text);
      if pendingItems >= maximumPendingItems || bytes > maximumPendingBytes || pendingBytes + bytes > maximumPendingBytes {
        return Err("OUTPUT_BACKPRESSURE");
      }
      pendingItems := pendingItems + 1;
      pendingBytes := pendingBytes + bytes;
      queue := queue + [Queued(stream, text, bytes)];
      return Ok(());
    }

    /** The finally of an entry; a failure after finish was called ends the flushing too. */
    method EndEntry(entry: Option<nat>, failed: bool)
      requires Valid()
      modifies `current, `halted, `pendingItems, `pendingBytes
      ensures Valid() && S() == Ended(old(S()), entry, failed)
    {
      current := None;
      halted := halted || (failed && finished);
      if entry.Some? {
        pendingItems := pendingItems - 1;
        pendingBytes := pendingBytes - entry.value;
      }
    }

    /** queue.shift, the redactor, and the chunks to send. */
    method TakeNext()
      requires Valid() && current == None && queue != []
      modifies this, redactor
      ensures Valid() && S() == Next(Settings(), old(S()), Taken) && Settings() == old(Settings())
    {
      hide Push, Chunks;
      var entry := queue[0];
      queue := queue[1..];
      var text := redactor.PushText(entry.stream, entry.text);
      if text.Err? {
        EndEntry(Some(entry.bytes), true);
        return;
      }
      var chunks := Utf8Chunks(text.value, CHUNK_BYTES);
      current := Some(Sending(entry.stream, chunks, Some(entry.bytes)));
    }

    /** One turn of sendText; ok says whether the transport took the chunk. */
    method SendNext(ok: bool)
      requires Valid() && current.Some? && current.value.chunks != []
      modifies this
      ensures Valid() && S() == Next(Settings(), old(S()), Sent(ok))
    {
      var c := current.value;
      var sequence := SequenceOf(c.stream) + 1;
      streamSequences := streamSequences[c.stream := sequence];
      if !ok {
        EndEntry(c.entry, true);
        return;
      }
      sent := sent + [Chunk(c.stream, sequence, c.chunks[0])];
      current := Some(c.(chunks := c.chunks[1..]));
    }

    method FinishEntry()
      requires Valid() && current.Some? && current.value.chunks == []
      modifies this
      ensures Valid() && S() == Next(Settings(), old(S()), EntryDone)
    {
      EndEntry(current.value.entry, false);
    }

    method CallFinish()
      requires Valid()
      modifies `finished
      ensures Valid() && S() == Next(Settings(), old(S()), FinishCalled)
    {
      finished := true;
    }

    /** One turn of finish's loop over the two streams. */
    method FlushStream()
      requires Valid() && finished && !halted && current == None && queue == [] && flushed < 2
      modifies this, redactor
      ensures Valid() && S() == Next(Settings(), old(S()), Flushed) && Settings() == old(Settings())
    {
      hide Chunks;
      var stream := if flushed == 0 then Stdout else Stderr;
      var text := redactor.FlushText(stream);
      var chunks := Utf8Chunks(text, CHUNK_BYTES);
      current := Some(Sending(stream, chunks, None));
      flushed := flushed + 1;
    }
  }
}
