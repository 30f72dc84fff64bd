/** Server envelopes: which are accepted on a connection, and in what order they take effect. */
module Inbound {
  import opened Common

  const MAXIMUM_FUTURE_SKEW_SECONDS := 30
  const MAXIMUM_LIFETIME_SECONDS := 5 * 60
  const MAXIMUM_REPLAY_ENTRIES := 32_768

  type MessageId = string

  datatype Envelope = Envelope(messageId: MessageId, sequence: nat, issuedAt: real, expiresAt: real)

  /** A frame: the envelope it parses to, if it has the schema and the version; and its digest. */
  datatype Frame = Frame(envelope: Option<Envelope>, digest: string)

  /** What is remembered of an accepted envelope. */
  datatype Seen = Seen(messageId: MessageId, sequence: nat, digest: string)

  /** One connection: its variables, what it accepted so far, and how many effects have run. */
  datatype Link = Link(failed: bool, lastSequence: nat, seen: seq<Seen>, accepted: seq<Seen>, effects: nat)

  const OPENED := Link(false, 0, [], [], 0)

  predicate Timely(e: Envelope, now: real) {
    && e.issuedAt <= now + MAXIMUM_FUTURE_SKEW_SECONDS as real
    && e.expiresAt > now
    && e.expiresAt > e.issuedAt
    && e.expiresAt - e.issuedAt <= MAXIMUM_LIFETIME_SECONDS as real
  }

  function FindSeen(seen: seq<Seen>, id: MessageId, start: nat := 0): (r: Option<nat>)
    requires start <= |seen|
    ensures r.Some? ==> start <= r.value < |seen| && seen[r.value].messageId == id
    ensures r == None ==> forall i :: start <= i < |seen| ==> seen[i].messageId != id
    decreases |seen| - start
  {
    if start == |seen| then None
    else if seen[start].messageId == id then Some(start)
    else FindSeen(seen, id, start + 1)
  }

  function Remember(seen: seq<Seen>, entry: Seen): seq<Seen> {
    if |seen| + 1 > MAXIMUM_REPLAY_ENTRIES then (seen + [entry])[1..] else seen + [entry]
  }

  function Receive(link: Link, frame: Frame, now: real): Link {
    if link.failed then link
    else if frame.envelope == None || !Timely(frame.envelope.value, now) then link.(failed := true)
    else
      var e := frame.envelope.value;
      match FindSeen(link.seen, e.messageId)
      case Some(i) =>
        if link.seen[i].sequence != e.sequence || link.seen[i].digest != frame.digest
        then link.(failed := true) else link
      case None =>
        if e.sequence <= link.lastSequence then link.(failed := true)
        else
          var entry := Seen(e.messageId, e.sequence, frame.digest);
          link.(lastSequence := e.sequence,
                seen := Remember(link.seen, entry),
                accepted := link.accepted + [entry])
  }

  // ---- every run of every connection

  datatype Step =
    | Start
    | Message(frame: Frame, now: real)
    | Effect(connection: nat)
    | EffectFails(connection: nat)
    | Fail

  /** Messages reach the newest connection; effects of older ones may still be running. */
  function Next(links: seq<Link>, step: Step): seq<Link> {
    var last := |links| - 1;
    match step
    case Start => links + [OPENED]
    case Message(frame, now) => if links == [] then links else links[last := Receive(links[last], frame, now)]
    case Effect(i) =>
      if i < |links| && links[i].effects < |links[i].accepted|
      then links[i := links[i].(effects := links[i].effects + 1)]
      else links
    case EffectFails(i) =>
      if i < |links| && links[i].effects < |links[i].accepted| then
        var ran := links[i := links[i].(effects := links[i].effects + 1)];
        ran[last := ran[last].(failed := true)]
      else links
    case Fail => if links == [] then links else links[last := links[last].(failed := true)]
  }

  function Run(steps: seq<Step>): seq<Link> {
    if steps == [] then [] else Next(Run(steps[..|steps| - 1]), steps[|steps| - 1])
  }

  /** The envelopes whose effects have run, in the order in which they ran. */
  function Effects(link: Link): seq<Seen>
    requires link.effects <= |link.accepted|
  {
    link.accepted[..link.effects]
  }

  ghost predicate Increasing(accepted: seq<Seen>) {
    forall i, j :: 0 <= i < j < |accepted| ==> accepted[i].sequence < accepted[j].sequence
  }

  /** No message id comes twice among so many consecutive envelopes. */
  ghost predicate NoRepeatWithin(accepted: seq<Seen>, window: nat) {
    forall i, j :: 0 <= i < j < |accepted| && j - i <= window ==> accepted[i].messageId != accepted[j].messageId
  }

  function Tail(accepted: seq<Seen>): seq<Seen> {
    if |accepted| > MAXIMUM_REPLAY_ENTRIES then accepted[|accepted| - MAXIMUM_REPLAY_ENTRIES..] else accepted
  }

  ghost predicate LinkOk(link: Link) {
    && link.effects <= |link.accepted|
    && Increasing(link.accepted)
    && NoRepeatWithin(link.accepted, MAXIMUM_REPLAY_ENTRIES)
    && link.seen == Tail(link.accepted)
    && link.lastSequence == (if link.accepted == [] then 0 else link.accepted[|link.accepted| - 1].sequence)
    && (forall i :: 0 <= i < |link.accepted| ==> 1 <= link.accepted[i].sequence)
  }

  lemma {:induction false} RememberTail(accepted: seq<Seen>, entry: Seen)
    ensures Remember(Tail(accepted), entry) == Tail(accepted + [entry])
  {
  }

  lemma {:induction false} AcceptedGrows(accepted: seq<Seen>, entry: Seen)
    requires Increasing(accepted) && NoRepeatWithin(accepted, MAXIMUM_REPLAY_ENTRIES)
    requires accepted != [] ==> accepted[|accepted| - 1].sequence < entry.sequence
    requires forall i :: 0 <= i < |Tail(accepted)| ==> Tail(accepted)[i].messageId != entry.messageId
    ensures Increasing(accepted + [entry]) && NoRepeatWithin(accepted + [entry], MAXIMUM_REPLAY_ENTRIES)
  {
    var grown, n := accepted + [entry], |accepted|;
    forall i, j | 0 <= i < j < |grown| && j - i <= MAXIMUM_REPLAY_ENTRIES
      ensures grown[i].messageId != grown[j].messageId
    {
      if j == n {
        var offset := n - |Tail(accepted)|;
        assert Tail(accepted)[i - offset] == accepted[i];
      }
    }
  }

  lemma {:induction false} ReceiveKeepsOk(link: Link, frame: Frame, now: real)
    requires LinkOk(link)
    ensures LinkOk(Receive(link, frame, now))
    ensures link.accepted <= Receive(link, frame, now).accepted
  {
    hide Increasing, NoRepeatWithin, Remember, Tail;
    if Receive(link, frame, now).accepted != link.accepted {
      var e := frame.envelope.value;
      var entry := Seen(e.messageId, e.sequence, frame.digest);
      AcceptedGrows(link.accepted, entry);
      RememberTail(link.accepted, entry);
    }
  }

  lemma {:induction false} OpenedIsOk()
    ensures LinkOk(OPENED)
  {
  }

  /**
   * In every run, on every connection: envelopes are accepted in strictly increasing sequence, no
   * message id repeats within 32769 consecutive ones, and effects run in the order of acceptance.
   */
  lemma {:induction false} EveryLinkIsOk(steps: seq<Step>)
    ensures forall i :: 0 <= i < |Run(steps)| ==> LinkOk(Run(steps)[i])
  {
    hide Increasing, NoRepeatWithin, Tail, Receive;
    OpenedIsOk();
    if steps != [] {
      var links, step := Run(steps[..|steps| - 1]), steps[|steps| - 1];
      EveryLinkIsOk(steps[..|steps| - 1]);
      if step.Message? && links != [] {
        ReceiveKeepsOk(links[|links| - 1], step.frame, step.now);
      }
    }
  }

  /** On each connection effects run in strictly increasing sequence: none twice, none out of turn. */
  lemma {:induction false} EffectsAreOrdered(steps: seq<Step>, i: nat)
    requires i < |Run(steps)|
    ensures var link := Run(steps)[i];
            && link.effects <= |link.accepted|
            && Increasing(Effects(link))
            && (forall j, k :: 0 <= j < k < link.effects ==> Effects(link)[j].sequence != Effects(link)[k].sequence)
  {
    hide Run;
    EveryLinkIsOk(steps);
  }

  /**
   * An envelope that was accepted and comes again, byte for byte and still timely, does nothing if it
   * is among the last 32768 accepted, and ends the connection if it is older.
   */
  lemma {:induction false} ReplayHasNoEffect(link: Link, frame: Frame, now: real, i: nat)
    requires LinkOk(link) && !link.failed && i < |link.accepted|
    requires frame.envelope.Some? && Timely(frame.envelope.value, now)
    requires link.accepted[i] == Seen(frame.envelope.value.messageId, frame.envelope.value.sequence, frame.digest)
    requires forall j :: i < j < |link.accepted| ==> link.accepted[j].messageId != link.accepted[i].messageId
    ensures Receive(link, frame, now) ==
            if i >= |link.accepted| - MAXIMUM_REPLAY_ENTRIES then link else link.(failed := true)
  {
    hide Tail, NoRepeatWithin, FindSeen, Timely;
    FoundInTail(link.accepted, i);
    assert i < |link.accepted| - 1 ==> link.accepted[i].sequence < link.accepted[|link.accepted| - 1].sequence;
  }

  lemma {:induction false} FoundInTail(accepted: seq<Seen>, i: nat)
    requires i < |accepted| && NoRepeatWithin(accepted, MAXIMUM_REPLAY_ENTRIES)
    requires forall j :: i < j < |accepted| ==> accepted[j].messageId != accepted[i].messageId
    ensures var found := FindSeen(Tail(accepted), accepted[i].messageId);
            if i >= |accepted| - MAXIMUM_REPLAY_ENTRIES
            then found.Some? && Tail(accepted)[found.value] == accepted[i]
            else found == None
  {
    var tail, offset := Tail(accepted), |accepted| - |Tail(accepted)|;
    assert forall k :: 0 <= k < |tail| ==> tail[k] == accepted[offset + k];
    if i >= offset {
      assert tail[i - offset].messageId == accepted[i].messageId;
    }
  }

  /**
   * When an envelope is accepted: on a connection that has not failed, within thirty seconds of the clock or earlier, not
   * expired, for a life of at most five minutes, under an id that is not among the last 32768 and a sequence beyond the
   * last one accepted. What is not accepted ends the connection, unless it repeats one of those byte for byte.
   */
  lemma {:induction false} AcceptsIff(link: Link, frame: Frame, now: real)
    requires LinkOk(link)
    ensures var next := Receive(link, frame, now);
            var timely := frame.envelope.Some? && frame.envelope.value.issuedAt <= now + 30.0 && now < frame.envelope.value.expiresAt
                          && 0.0 < frame.envelope.value.expiresAt - frame.envelope.value.issuedAt <= 300.0;
            && (next.accepted != link.accepted <==>
                  && !link.failed && timely && !Among(link.seen, frame.envelope.value.messageId)
                  && (link.accepted == [] || link.accepted[|link.accepted| - 1].sequence < frame.envelope.value.sequence)
                  && frame.envelope.value.sequence >= 1)
            && (next.accepted != link.accepted ==>
                  next.accepted == link.accepted + [Seen(frame.envelope.value.messageId, frame.envelope.value.sequence, frame.digest)])
            && (next.failed <==>
                  (link.failed || (next.accepted == link.accepted
                    && !(timely && Seen(frame.envelope.value.messageId, frame.envelope.value.sequence, frame.digest) in link.seen))))
            && next.effects == link.effects
  {
    hide Tail, NoRepeatWithin;
    if frame.envelope.Some? {
      var e := frame.envelope.value;
      TailIsDistinct(link.accepted);
      var found := FindSeen(link.seen, e.messageId);
      if found.Some? {
        assert link.seen[found.value] in link.seen;
      }
    }
  }

  ghost predicate Among(seen: seq<Seen>, id: MessageId) {
    exists i :: 0 <= i < |seen| && seen[i].messageId == id
  }

  lemma {:induction false} TailIsDistinct(accepted: seq<Seen>)
    requires NoRepeatWithin(accepted, MAXIMUM_REPLAY_ENTRIES)
    ensures forall i, j :: 0 <= i < j < |Tail(accepted)| ==> Tail(accepted)[i].messageId != Tail(accepted)[j].messageId
  {
    var tail, offset := Tail(accepted), |accepted| - |Tail(accepted)|;
    assert forall k :: 0 <= k < |tail| ==> tail[k] == accepted[offset + k];
  }

  // ---- the variables as the object they are

  class EnvelopeGate {
    var failed: bool
    var lastSequence: nat
    var seen: seq<Seen>
    ghost var accepted: seq<Seen>
    ghost var effects: nat

    ghost function L(): Link
      reads this
    {
      Link(failed, lastSequence, seen, accepted, effects)
    }

    constructor ()
      ensures L() == OPENED
    {
      failed, lastSequence, seen := false, 0, [];
      accepted, effects := [], 0;
    }

    /** acceptEnvelope; true when the envelope's effect is put on the chain. */
    method AcceptEnvelope(frame: Frame, now: real) returns (queued: bool)
      requires LinkOk(L())
      modifies this
      ensures LinkOk(L())
      ensures L() == Receive(old(L()), frame, now)
      ensures queued <==> |accepted| == |old(accepted)| + 1
      ensures !queued ==> accepted == old(accepted)
    {
      hide LinkOk;
      ReceiveKeepsOk(L(), frame, now);
      queued := false;
      if failed {
        return;
      }
      if frame.envelope == None {
        failed := true;
        return;
      }
      var e := frame.envelope.value;
      if || e.issuedAt > now + MAXIMUM_FUTURE_SKEW_SECONDS as real
         || e.expiresAt <= now
         || e.expiresAt <= e.issuedAt
         || e.expiresAt - e.issuedAt > MAXIMUM_LIFETIME_SECONDS as real
      {
        failed := true;
        return;
      }
      var i := 0;
      while i < |seen| && seen[i].messageId != e.messageId
        invariant 0 <= i <= |seen|
        invariant FindSeen(seen, e.messageId, i) == FindSeen(seen, e.messageId)
      {
        i := i + 1;
      }
      if i < |seen| {
        if seen[i].sequence != e.sequence || seen[i].digest != frame.digest {
          failed := true;
        }
        return;
      }
      if e.sequence <= lastSequence {
        failed := true;
        return;
      }
      lastSequence := e.sequence;
      var entry := Seen(e.messageId, e.sequence, frame.digest);
      seen := seen + [entry];
      if |seen| > MAXIMUM_REPLAY_ENTRIES {
        seen := seen[1..];
      }
      accepted := accepted + [entry];
      queued := true;
    }
  }

  /** The next effect of a connection, if it has one to run. */
  predicate CanRun(links: seq<Link>, i: nat) {
    i < |links| && links[i].effects < |links[i].accepted|
  }

  /**
   * An effect runs exactly where one is due, and one that fails ends the newest connection, whose it need not be; what
   * fails the connection leaves everything else as it was.
   */
  lemma {:induction false} EffectsAndFailures(links: seq<Link>, i: nat)
    requires links != []
    ensures var last := |links| - 1; var ran, failing, failed := Next(links, Effect(i)), Next(links, EffectFails(i)), Next(links, Fail);
            && |ran| == |failing| == |failed| == |links|
            && (!CanRun(links, i) ==> ran == links && failing == links)
            && (CanRun(links, i) ==>
                  && ran[i].effects == failing[i].effects == links[i].effects + 1 && failing[last].failed && ran[i].failed == links[i].failed)
            && failed[last].failed && failed[last] == links[last].(failed := true)
            && (forall j :: 0 <= j < |links| ==> ran[j].accepted == failing[j].accepted == links[j].accepted)
            && (forall j :: 0 <= j < last ==> failed[j] == links[j])
            && (forall j :: 0 <= j < |links| && j != i ==> ran[j] == links[j] && (j != last ==> failing[j] == links[j]))
  {
  }
}
