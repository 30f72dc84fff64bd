/** The two halves of a client joined: server envelopes through the gate, and their effects on what is retained. */
module InboundDelivery {
  import opened Common
  import opened Outbox
  import opened Delivery
  import opened DeliverySafety
  import Inbound

  /** What the body of an envelope asks for. */
  datatype Payload = Acknowledges(eventId: EventId, disposition: Disposition) | Responds(requestId: RequestId) | Other

  /** An effect that has run, of an envelope accepted on a connection; unless onEnvelope failed, it was applied. */
  datatype Done = Done(connection: nat, entry: Inbound.Seen, applied: bool)

  datatype Joined = Joined(links: seq<Inbound.Link>, state: State, done: seq<Done>)

  datatype Step = Server(arrival: Inbound.Step) | Client(action: Delivery.Step)

  function Applied(cfg: Config, s: State, payload: Payload): State
    requires ValidConfig(cfg)
  {
    match payload
    case Acknowledges(id, disposition) => StepOf(cfg, s, AckStep(id, disposition))
    case Responds(requestId) => StepOf(cfg, s, ResponseStep(requestId))
    case Other => s
  }

  /** The next effect of a connection. */
  function Pending(links: seq<Inbound.Link>, i: nat): Option<Inbound.Seen> {
    if i < |links| && links[i].effects < |links[i].accepted| then Some(links[i].accepted[links[i].effects]) else None
  }

  /** The effect that runs at a step. */
  function Ran(j: Joined, step: Inbound.Step): seq<Done> {
    if (step.Effect? || step.EffectFails?) && Pending(j.links, step.connection).Some?
    then [Done(step.connection, Pending(j.links, step.connection).value, step.Effect?)] else []
  }

  /** Answers of the server come only through the gate; body gives what the frame of a digest says. */
  function Next(cfg: Config, body: string -> Payload, j: Joined, step: Step): Joined
    requires ValidConfig(cfg)
  {
    match step
    case Client(s) => if s.AckStep? || s.ResponseStep? then j else j.(state := StepOf(cfg, j.state, s))
    case Server(s) =>
      var ran := Ran(j, s);
      var state := if ran != [] && ran[0].applied then Applied(cfg, j.state, body(ran[0].entry.digest)) else j.state;
      Joined(Inbound.Next(j.links, s), state, j.done + ran)
  }

  function Run(cfg: Config, body: string -> Payload, steps: seq<Step>): Joined
    requires ValidConfig(cfg)
  {
    if steps == [] then Joined([], State([], Loaded([])), [])
    else Next(cfg, body, Run(cfg, body, steps[..|steps| - 1]), steps[|steps| - 1])
  }

  /** The effects of one connection, in the order in which they ran. */
  function DoneOn(done: seq<Done>, i: nat): seq<Inbound.Seen> {
    if done == [] then []
    else
      var last := done[|done| - 1];
      DoneOn(done[..|done| - 1], i) + if last.connection == i then [last.entry] else []
  }

  lemma {:induction false} DoneGrows(done: seq<Done>, last: Done, i: nat)
    ensures DoneOn(done + [last], i) == DoneOn(done, i) + if last.connection == i then [last.entry] else []
  {
    assert (done + [last])[..|done|] == done;
  }

  lemma {:induction false} NoneDone(done: seq<Done>, i: nat)
    requires forall k :: 0 <= k < |done| ==> done[k].connection < i
    ensures DoneOn(done, i) == []
  {
    if done != [] {
      NoneDone(done[..|done| - 1], i);
    }
  }

  /** A connection, and the effects of its first envelopes. */
  ghost predicate LinkDone(link: Inbound.Link, ran: seq<Inbound.Seen>) {
    && Inbound.LinkOk(link)
    && |ran| == link.effects && ran <= link.accepted
  }

  ghost predicate JoinedOk(cfg: Config, j: Joined)
    requires ValidConfig(cfg)
  {
    && StateOk(cfg, j.state)
    && (forall k :: 0 <= k < |j.done| ==> j.done[k].connection < |j.links|)
    && (forall i :: 0 <= i < |j.links| ==> LinkDone(j.links[i], DoneOn(j.done, i)))
  }

  /** One connection over one step: it accepts more, or runs its next effect. */
  lemma {:induction false} LinkKeeps(links: seq<Inbound.Link>, step: Inbound.Step, i: nat)
    requires i < |links| && Inbound.LinkOk(links[i])
    ensures var next := Inbound.Next(links, step);
            && i < |next| && Inbound.LinkOk(next[i]) && links[i].accepted <= next[i].accepted
            && next[i].effects == links[i].effects + if Runs(links, step, i) then 1 else 0
  {
    hide Inbound.Receive, Inbound.Increasing, Inbound.NoRepeatWithin, Inbound.Tail;
    if step.Message? && i == |links| - 1 {
      Inbound.ReceiveKeepsOk(links[i], step.frame, step.now);
      ReceiveRunsNothing(links[i], step.frame, step.now);
    }
  }

  lemma {:induction false} LinksGrow(links: seq<Inbound.Link>, step: Inbound.Step)
    ensures var next := Inbound.Next(links, step);
            if step.Start? then |next| == |links| + 1 && next[|links|] == Inbound.OPENED else |next| == |links|
  {
    hide Inbound.Receive;
  }

  lemma {:induction false} ReceiveRunsNothing(link: Inbound.Link, frame: Inbound.Frame, now: real)
    ensures Inbound.Receive(link, frame, now).effects == link.effects
  {
  }

  predicate Runs(links: seq<Inbound.Link>, step: Inbound.Step, i: nat) {
    (step.Effect? || step.EffectFails?) && step.connection == i && Pending(links, i).Some?
  }

  /** What has run on a connection after one step of the server's side. */
  lemma {:induction false} LinkDoneNext(j: Joined, s: Inbound.Step, i: nat)
    requires i < |j.links| && LinkDone(j.links[i], DoneOn(j.done, i))
    ensures i < |Inbound.Next(j.links, s)| && LinkDone(Inbound.Next(j.links, s)[i], DoneOn(j.done + Ran(j, s), i))
  {
    hide Inbound.LinkOk, Inbound.Next, DoneOn;
    LinkKeeps(j.links, s, i);
    if Ran(j, s) == [] {
      assert j.done + [] == j.done;
    } else {
      DoneGrows(j.done, Ran(j, s)[0], i);
    }
  }

  lemma {:induction false} NextKeepsOk(cfg: Config, body: string -> Payload, j: Joined, step: Step)
    requires ValidConfig(cfg) && JoinedOk(cfg, j)
    ensures JoinedOk(cfg, Next(cfg, body, j, step))
  {
    hide StateOk, StepOf, LinkDone, Inbound.Next, DoneOn, Applied, Pending;
    var next := Next(cfg, body, j, step);
    match step
    case Client(s) => DeliverySafety.StepKeepsOk(cfg, j.state, s);
    case Server(s) =>
      LinksGrow(j.links, s);
      RanIsInRange(j, s);
      if Ran(j, s) != [] {
        AppliedIsOk(cfg, j.state, body(Ran(j, s)[0].entry.digest));
      }
      forall i | 0 <= i < |next.links| ensures LinkDone(next.links[i], DoneOn(next.done, i)) {
        if i < |j.links| {
          LinkDoneNext(j, s, i);
        } else {
          NoneDone(j.done, i);
          assert j.done + [] == j.done;
          OpenedIsDone();
        }
      }
  }

  lemma {:induction false} RanIsInRange(j: Joined, s: Inbound.Step)
    ensures |Ran(j, s)| <= 1 && (Ran(j, s) != [] ==> Ran(j, s)[0].connection < |j.links|)
  {
  }

  lemma {:induction false} OpenedIsDone()
    ensures LinkDone(Inbound.OPENED, [])
  {
    Inbound.OpenedIsOk();
  }

  lemma {:induction false} AppliedIsOk(cfg: Config, s: State, payload: Payload)
    requires ValidConfig(cfg) && StateOk(cfg, s)
    ensures StateOk(cfg, Applied(cfg, s, payload))
  {
    hide StateOk, StepOf;
    match payload
    case Acknowledges(id, disposition) => DeliverySafety.StepKeepsOk(cfg, s, AckStep(id, disposition));
    case Responds(requestId) => DeliverySafety.StepKeepsOk(cfg, s, ResponseStep(requestId));
    case Other =>
  }

  lemma {:induction false} EveryJoinedIsOk(cfg: Config, body: string -> Payload, steps: seq<Step>)
    requires ValidConfig(cfg)
    ensures JoinedOk(cfg, Run(cfg, body, steps))
  {
    hide Next;
    if steps == [] {
      EmptyIsOk(cfg);
    } else {
      EveryJoinedIsOk(cfg, body, steps[..|steps| - 1]);
      NextKeepsOk(cfg, body, Run(cfg, body, steps[..|steps| - 1]), steps[|steps| - 1]);
    }
  }

  lemma {:induction false} EmptyIsOk(cfg: Config)
    requires ValidConfig(cfg)
    ensures StateOk(cfg, State([], Loaded([])))
  {
    EveryTableIsChained(cfg.limits, cfg.accepts, []);
    assert EntriesOf([]) == [];
  }

  /**
   * In every run of a client, whatever the server sends and however effects of older connections interleave
   * with newer ones: what answers do to the queue keeps it accounted and linked, and on each connection an
   * accepted envelope has its effect once, in strictly increasing sequence, and no other frame has one.
   */
  lemma {:induction false} AnswersTakeEffectOnce(cfg: Config, body: string -> Payload, steps: seq<Step>, i: nat)
    requires ValidConfig(cfg) && i < |Run(cfg, body, steps).links|
    ensures var j := Run(cfg, body, steps); var ran := DoneOn(j.done, i);
            && StateOk(cfg, j.state)
            && ran <= j.links[i].accepted && |ran| == j.links[i].effects
            && (forall a, b :: 0 <= a < b < |ran| ==> ran[a].sequence < ran[b].sequence)
  {
    hide Run, StateOk;
    EveryJoinedIsOk(cfg, body, steps);
    assert LinkDone(Run(cfg, body, steps).links[i], DoneOn(Run(cfg, body, steps).done, i));
  }

  /** A frame that comes again within the window changes nothing: no queue, no table, no effect to come. */
  lemma {:induction false} ReplayChangesNothing(cfg: Config, body: string -> Payload, steps: seq<Step>, frame: Inbound.Frame, now: real, i: nat)
    requires ValidConfig(cfg) && Run(cfg, body, steps).links != []
    requires var links := Run(cfg, body, steps).links; var link := links[|links| - 1];
             && !link.failed && i < |link.accepted| && i >= |link.accepted| - Inbound.MAXIMUM_REPLAY_ENTRIES
             && frame.envelope.Some? && Inbound.Timely(frame.envelope.value, now)
             && link.accepted[i] == Inbound.Seen(frame.envelope.value.messageId, frame.envelope.value.sequence, frame.digest)
             && forall k :: i < k < |link.accepted| ==> link.accepted[k].messageId != link.accepted[i].messageId
    ensures Next(cfg, body, Run(cfg, body, steps), Server(Inbound.Message(frame, now))) == Run(cfg, body, steps)
  {
    hide Run, Inbound.Receive, Inbound.Timely, StateOk, Inbound.LinkOk, DoneOn;
    EveryJoinedIsOk(cfg, body, steps);
    var links := Run(cfg, body, steps).links;
    assert LinkDone(links[|links| - 1], DoneOn(Run(cfg, body, steps).done, |links| - 1));
    Inbound.ReplayHasNoEffect(links[|links| - 1], frame, now, i);
  }

  /** What the queue is told at a step: the client's own steps, and the answer whose effect runs. */
  function Heard(body: string -> Payload, j: Joined, step: Step): seq<Delivery.Step> {
    match step
    case Client(s) => if s.AckStep? || s.ResponseStep? then [] else [s]
    case Server(s) =>
      if s.Effect? && Pending(j.links, s.connection).Some? then Answer(body(Pending(j.links, s.connection).value.digest)) else []
  }

  function Answer(payload: Payload): seq<Delivery.Step> {
    match payload
    case Acknowledges(id, disposition) => [AckStep(id, disposition)]
    case Responds(requestId) => [ResponseStep(requestId)]
    case Other => []
  }

  function AllHeard(cfg: Config, body: string -> Payload, steps: seq<Step>): seq<Delivery.Step>
    requires ValidConfig(cfg)
  {
    if steps == [] then []
    else AllHeard(cfg, body, steps[..|steps| - 1]) + Heard(body, Run(cfg, body, steps[..|steps| - 1]), steps[|steps| - 1])
  }

  function Replayed(cfg: Config, s: State, steps: seq<Delivery.Step>): State
    requires ValidConfig(cfg)
  {
    if steps == [] then s else StepOf(cfg, Replayed(cfg, s, steps[..|steps| - 1]), steps[|steps| - 1])
  }

  lemma {:induction false} ReplayedOneMore(cfg: Config, s: State, steps: seq<Delivery.Step>, more: seq<Delivery.Step>)
    requires ValidConfig(cfg) && |more| <= 1
    ensures Replayed(cfg, s, steps + more) == if more == [] then Replayed(cfg, s, steps) else StepOf(cfg, Replayed(cfg, s, steps), more[0])
  {
    hide StepOf;
    if more == [] {
      assert steps + more == steps;
    } else {
      assert (steps + more)[..|steps + more| - 1] == steps;
    }
  }

  lemma {:induction false} NextHears(cfg: Config, body: string -> Payload, j: Joined, step: Step)
    requires ValidConfig(cfg)
    ensures var heard := Heard(body, j, step);
            && |heard| <= 1
            && Next(cfg, body, j, step).state == if heard == [] then j.state else StepOf(cfg, j.state, heard[0])
  {
    hide StepOf, Inbound.Next;
  }

  /** In every joined history the queue is as the steps it heard leave it: no answer is lost, none comes from elsewhere. */
  lemma {:induction false} QueueIsWhatItHeard(cfg: Config, body: string -> Payload, steps: seq<Step>)
    requires ValidConfig(cfg)
    ensures Run(cfg, body, steps).state == Replayed(cfg, State([], Loaded([])), AllHeard(cfg, body, steps))
  {
    hide StepOf, Next, Heard, Loaded;
    if steps != [] {
      var before, step := steps[..|steps| - 1], steps[|steps| - 1];
      QueueIsWhatItHeard(cfg, body, before);
      NextHears(cfg, body, Run(cfg, body, before), step);
      ReplayedOneMore(cfg, State([], Loaded([])), AllHeard(cfg, body, before), Heard(body, Run(cfg, body, before), step));
    }
  }
}
