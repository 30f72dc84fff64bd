/** What the output producer answers, when it gets to its end, and how failing sends are numbered. */
module HeadlessProgress {
  import opened Common
  import opened Utf8
  import opened Redaction
  import opened HeadlessOutput

  // ---- the answers of push

  function SizesOf(queue: seq<Queued>): seq<nat> {
    seq(|queue|, i requires 0 <= i < |queue| => queue[i].bytes)
  }

  /** The sizes of the entries accepted and not yet ended: those queued and the one being sent. */
  function Unfinished(s: State): seq<nat> {
    SizesOf(s.queue) + if s.current.Some? && s.current.value.entry.Some? then [s.current.value.entry.value] else []
  }

  function Sum(sizes: seq<nat>): nat {
    if sizes == [] then 0 else sizes[0] + Sum(sizes[1..])
  }

  lemma {:induction false} SumAdds(sizes: seq<nat>, more: seq<nat>)
    ensures Sum(sizes + more) == Sum(sizes) + Sum(more)
  {
    if sizes == [] {
      assert sizes + more == more;
    } else {
      assert (sizes + more)[1..] == sizes[1..] + more;
      SumAdds(sizes[1..], more);
    }
  }

  lemma {:induction false} SumOfQueue(queue: seq<Queued>)
    ensures Sum(SizesOf(queue)) == TotalBytes(queue)
  {
    if queue != [] {
      SumOfQueue(queue[1..]);
      assert SizesOf(queue)[1..] == SizesOf(queue[1..]);
    }
  }

  lemma {:induction false} CountersAreSums(config: Config, s: State)
    requires Counted(config, s)
    ensures s.pendingItems == |Unfinished(s)| && s.pendingBytes == Sum(Unfinished(s))
  {
    var sizes := SizesOf(s.queue);
    SumOfQueue(s.queue);
    SumAdds(sizes, []);
    if s.current.Some? && s.current.value.entry.Some? {
      SumAdds(sizes, [s.current.value.entry.value]);
      assert Sum([s.current.value.entry.value]) == s.current.value.entry.value + Sum([]);
    } else {
      assert Unfinished(s) == sizes + [];
    }
  }

  lemma {:induction false} FinishedSince(config: Config, steps: seq<Step>)
    requires Lawful(config.patterns)
    ensures Reached(config, steps).finished <==> FinishCalled in steps
  {
    hide Push, Chunks, ByteLength, Flush;
    if steps != [] {
      FinishedSince(config, steps[..|steps| - 1]);
      assert steps == steps[..|steps| - 1] + [steps[|steps| - 1]];
    }
  }

  /**
   * In every history, push is refused as finished exactly when finish was called before, and accepted exactly when it
   * was not and the unfinished entries with the new one are within the limits; what is refused changes nothing.
   */
  lemma {:induction false} PushAnswers(config: Config, steps: seq<Step>, stream: Stream, text: string)
    requires ConfigOk(config)
    ensures var s := Reached(config, steps); var (t, r) := PushOutput(config, s, stream, text);
            && (r == Err("OUTPUT_FINISHED") <==> FinishCalled in steps)
            && (r.Ok? <==>
                  && FinishCalled !in steps && |Unfinished(s)| + 1 <= config.maximumItems
                  && Sum(Unfinished(s)) + ByteLength(text) <= config.maximumBytes)
            && (r.Err? ==> t == s && r.code in {"OUTPUT_FINISHED", "OUTPUT_BACKPRESSURE"})
            && (r.Ok? ==>
                  t == s.(queue := s.queue + [Queued(stream, text, ByteLength(text))],
                          pendingItems := |Unfinished(s)| + 1, pendingBytes := Sum(Unfinished(s)) + ByteLength(text)))
  {
    hide Reached, ByteLength, Counted;
    EveryStateIsCounted(config, steps);
    FinishedSince(config, steps);
    CountersAreSums(config, Reached(config, steps));
  }

  // ---- the end

  ghost predicate Done(s: State) {
    s.flushed == 2 && s.current == None && s.queue == []
  }

  /** The steps of the producer itself, sends succeeding. */
  ghost predicate Works(step: Step) {
    step in {Taken, Sent(true), EntryDone, Flushed}
  }

  /** What is left to do, in a lexicographic order: streams to flush, entries to take, chunks to send. */
  ghost function Remaining(s: State): (nat, nat, nat) {
    (if s.flushed < 2 then 2 - s.flushed else 0, |s.queue|, if s.current.Some? then |s.current.value.chunks| + 1 else 0)
  }

  ghost predicate Less(a: (nat, nat, nat), b: (nat, nat, nat)) {
    a.0 < b.0 || (a.0 == b.0 && (a.1 < b.1 || (a.1 == b.1 && a.2 < b.2)))
  }

  /** A producer that was told to finish and has not failed has something to do until all is flushed. */
  lemma {:induction false} OneStepIsEnabled(s: State)
    requires s.finished && !s.halted && s.flushed <= 2
    ensures Done(s) <==> forall step :: Works(step) ==> !Enabled(s, step)
    ensures forall one, other :: Works(one) && Works(other) && Enabled(s, one) && Enabled(s, other) ==> one == other
  {
    assert Works(Taken) && Works(Sent(true)) && Works(EntryDone) && Works(Flushed);
    if !Done(s) {
      assert Enabled(s, Taken) || Enabled(s, Sent(true)) || Enabled(s, EntryDone) || Enabled(s, Flushed);
    }
  }

  /** Each such step leaves less to do, and fails only where the redactor refuses a text. */
  lemma {:induction false} StepLeavesLess(config: Config, s: State, step: Step)
    requires Lawful(config.patterns) && Works(step) && Enabled(s, step) && s.flushed <= 2
    ensures var t := Next(config, s, step);
            && Less(Remaining(t), Remaining(s)) && t.finished == s.finished && t.flushed <= 2
            && (t.halted && !s.halted ==> Refuses(config, s, step))
  {
    hide Push, Chunks, ByteLength, Flush;
  }

  /** The redactor throws on the next entry. */
  ghost predicate Refuses(config: Config, s: State, step: Step)
    requires Lawful(config.patterns)
  {
    && step == Taken && Enabled(s, step)
    && Push(config.patterns, config.holdback, s.redactor.Get(s.queue[0].stream), s.queue[0].text).0.Err?
  }

  ghost predicate AllWithin(queue: seq<Queued>) {
    forall i :: 0 <= i < |queue| ==> ByteLength(queue[i].text) <= MAXIMUM_PUSH
  }

  /**
   * From every state in which finish was called and nothing has failed since, with texts the redactor takes, the
   * producer's own steps lead to the end, where both streams are flushed and nothing waits.
   */
  lemma {:induction false} FinishEnds(config: Config, s: State) returns (steps: seq<Step>)
    requires Lawful(config.patterns) && s.finished && !s.halted && s.flushed <= 2
    ensures (forall i :: 0 <= i < |steps| ==> Works(steps[i]))
    ensures var t := After(config, s, steps); Done(t) || t.halted
    ensures After(config, s, steps).halted ==>
              exists n :: 0 <= n < |steps| && Refuses(config, After(config, s, steps[..n]), steps[n])
    decreases Remaining(s).0, Remaining(s).1, Remaining(s).2
  {
    hide Next, Refuses, Enabled, Works, Done;
    OneStepIsEnabled(s);
    if Done(s) {
      steps := [];
    } else {
      var step :| Works(step) && Enabled(s, step);
      StepLeavesLess(config, s, step);
      var t := Next(config, s, step);
      if t.halted {
        steps := [step];
        assert steps[1..] == [] && steps[..0] == [];
        assert Refuses(config, After(config, s, steps[..0]), steps[0]);
      } else {
        var rest := FinishEnds(config, t);
        steps := [step] + rest;
        assert steps[1..] == rest;
        if After(config, t, rest).halted {
          var n :| 0 <= n < |rest| && Refuses(config, After(config, t, rest[..n]), rest[n]);
          assert steps[..n + 1][1..] == rest[..n];
          assert Refuses(config, After(config, s, steps[..n + 1]), steps[n + 1]);
        }
      }
    }
  }

  ghost function After(config: Config, s: State, steps: seq<Step>): State
    requires Lawful(config.patterns)
    decreases |steps|
  {
    if steps == [] then s else After(config, Next(config, s, steps[0]), steps[1..])
  }

  // ---- failures

  /** The step ends an entry, or a flush, by an exception. */
  ghost predicate Throws(config: Config, s: State, step: Step)
    requires Lawful(config.patterns)
  {
    (step == Sent(false) && Enabled(s, step)) || Refuses(config, s, step)
  }

  /** The n-th step of a history throws, and finish was called before it. */
  ghost predicate ThrowsAt(config: Config, steps: seq<Step>, n: nat)
    requires Lawful(config.patterns) && n < |steps|
  {
    FinishCalled in steps[..n] && Throws(config, Reached(config, steps[..n]), steps[n])
  }

  /** In every history: finish fails, and flushes no more, exactly when something threw after it was called. */
  lemma {:induction false} HaltedIff(config: Config, steps: seq<Step>)
    requires Lawful(config.patterns)
    ensures Reached(config, steps).halted <==> exists n :: 0 <= n < |steps| && ThrowsAt(config, steps, n)
  {
    hide Throws, Next, ThrowsAt;
    if steps != [] {
      var n := |steps| - 1;
      var before := steps[..n];
      HaltedIff(config, before);
      LastThrows(config, steps);
      forall i | 0 <= i < n ensures ThrowsAt(config, steps, i) <==> ThrowsAt(config, before, i) {
        ThrewBefore(config, steps, i);
      }
      hide Reached;
      if exists i :: 0 <= i < |before| && ThrowsAt(config, before, i) {
        var i :| 0 <= i < |before| && ThrowsAt(config, before, i);
        assert ThrowsAt(config, steps, i);
      }
    }
  }

  lemma {:induction false} ThrewBefore(config: Config, steps: seq<Step>, i: nat)
    requires Lawful(config.patterns) && i < |steps| - 1
    ensures ThrowsAt(config, steps, i) <==> ThrowsAt(config, steps[..|steps| - 1], i)
  {
    hide Throws, Reached;
    assert steps[..|steps| - 1][..i] == steps[..i];
  }

  lemma {:induction false} LastThrows(config: Config, steps: seq<Step>)
    requires Lawful(config.patterns) && steps != []
    ensures Reached(config, steps).halted <==> Reached(config, steps[..|steps| - 1]).halted || ThrowsAt(config, steps, |steps| - 1)
  {
    hide Throws, Next;
    var n := |steps| - 1;
    FinishedSince(config, steps[..n]);
    HaltsIff(config, Reached(config, steps[..n]), steps[n]);
  }

  lemma {:induction false} HaltsIff(config: Config, s: State, step: Step)
    requires Lawful(config.patterns)
    ensures Next(config, s, step).halted <==> s.halted || (s.finished && Throws(config, s, step))
  {
    hide Push, Chunks, ByteLength, Flush;
  }

  /** How many sends of a stream were tried. */
  ghost function Tried(config: Config, steps: seq<Step>, stream: Stream): nat
    requires Lawful(config.patterns)
  {
    if steps == [] then 0
    else
      var before, step := steps[..|steps| - 1], steps[|steps| - 1];
      Tried(config, before, stream)
      + if step.Sent? && Enabled(Reached(config, before), step) && Reached(config, before).current.value.stream == stream then 1 else 0
  }

  /** In every history each send tried takes one number of its stream, so that a chunk has the number of its try. */
  lemma {:induction false} TriesAreNumbered(config: Config, steps: seq<Step>, stream: Stream)
    requires Lawful(config.patterns)
    ensures var s := Reached(config, steps);
            && s.sequences.Get(stream) == Tried(config, steps, stream)
            && (steps != [] ==>
                  var before := Reached(config, steps[..|steps| - 1]);
                  && before.sent <= s.sent
                  && (s.sent != before.sent <==> steps[|steps| - 1] == Sent(true) && Enabled(before, Sent(true)))
                  && (s.sent != before.sent && before.current.value.stream == stream ==>
                        s.sent == before.sent + [Chunk(stream, Tried(config, steps, stream), before.current.value.chunks[0])]))
  {
    if steps != [] {
      TriesAreNumbered(config, steps[..|steps| - 1], stream);
      StepTakesNumber(config, Reached(config, steps[..|steps| - 1]), steps[|steps| - 1], stream);
      hide Next;
    }
  }

  lemma {:induction false} StepTakesNumber(config: Config, s: State, step: Step, stream: Stream)
    requires Lawful(config.patterns)
    ensures var t := Next(config, s, step);
            var tried := step.Sent? && Enabled(s, step) && s.current.value.stream == stream;
            && t.sequences.Get(stream) == s.sequences.Get(stream) + (if tried then 1 else 0)
            && (step == Sent(true) && Enabled(s, step) ==>
                  t.sent == s.sent + [Chunk(s.current.value.stream, t.sequences.Get(s.current.value.stream), s.current.value.chunks[0])])
            && (!(step == Sent(true) && Enabled(s, step)) ==> t.sent == s.sent)
  {
    hide Push, Chunks, ByteLength, Flush;
  }
}
