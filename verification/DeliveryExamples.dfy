/** Short histories that show why the delivery theorems carry the conditions they carry. */
module DeliveryExamples {
  import opened Common
  import opened Outbox
  import opened Delivery
  import opened DeliverySafety
  import opened DeliveryOrder
  import opened DeliveryLimits

  /** A client that lets so many items wait. */
  function Client(items: nat): Config {
    Config(Limits(10, 1000, 1, 1), event => true, body => true, json => "", items, 10_000)
  }

  const FIRST_EVENT := Event("first", Some("run"), Evidence, [0])
  const SECOND_EVENT := Event("second", Some("run"), Evidence, [0])

  const FIRST_ROW := Row(FIRST_EVENT, 1, None, InFlight)
  const SECOND_ROW := Row(SECOND_EVENT, 2, Some("first"), Pending)

  lemma {:induction false} OneMoreStep(cfg: Config, steps: seq<Step>, step: Step)
    requires ValidConfig(cfg)
    ensures History(cfg, steps + [step]) == NextWorld(cfg, History(cfg, steps), step)
  {
    assert (steps + [step])[..|steps|] == steps;
  }

  const CONNECTING: seq<Step> := [RestartStep([])] + [BeginStep] + [ConnectedStep] + [OpenedStep] + [WelcomedStep([])]

  function Idle(connection: Connection): Memory {
    Memory(connection, false, [], [], {}, {}, 0, 0, [])
  }

  lemma {:induction false} FirstProcess(cfg: Config)
    requires ValidConfig(cfg)
    ensures History(cfg, [RestartStep([])]) == Running(State([], Idle(Disconnected)))
  {
    assert RequeueInFlight([]) == [];
    assert IsReady([], []);
    assert EntriesOf([]) == [];
    NoSize();
    assert [RestartStep([])][..0] == [];
  }

  /** A new process on an empty table connects. */
  lemma {:induction false} Connects(cfg: Config)
    requires ValidConfig(cfg)
    ensures History(cfg, CONNECTING) == Running(State([], Idle(Active)))
  {
    hide ValidLimits, History, IsReady;
    FirstProcess(cfg);
    var started: seq<Step> := [RestartStep([])];
    OneMoreStep(cfg, started, BeginStep);
    OneMoreStep(cfg, started + [BeginStep], ConnectedStep);
    OneMoreStep(cfg, started + [BeginStep] + [ConnectedStep], OpenedStep);
    OneMoreStep(cfg, started + [BeginStep] + [ConnectedStep] + [OpenedStep], WelcomedStep([]));
  }

  function Waiting(event: Event, number: nat, predecessor: Option<EventId>): Entry {
    Entry(Semantic(event), Some(Continuity(number, predecessor)))
  }

  const FIRST_ENTRY := Waiting(FIRST_EVENT, 1, None)
  const SECOND_ENTRY := Waiting(SECOND_EVENT, 2, Some("first"))
  const EVENT_BYTES := 1 + ENVELOPE_BYTES

  function FirstSent(): State {
    State([FIRST_ROW], Idle(Active).(inFlight := [FIRST_ENTRY], outboundBytes := EVENT_BYTES, outboundSequence := 1,
                                    wire := [Envelope(1, FIRST_ENTRY)]))
  }

  lemma {:induction false} SendsFirst(items: nat)
    requires items >= 1
    ensures Send(Client(items), State([], Idle(Active)), Semantic(FIRST_EVENT), [Sent]) == (FirstSent(), Ok(false))
  {
    var row := FIRST_ROW.(state := Pending);
    assert [] + [row] == [row];
    assert Enqueue(Client(items).limits, Client(items).accepts, [], FIRST_EVENT) == ([row], Ok(row));
    assert [] + [FIRST_ENTRY] == [FIRST_ENTRY];
    var queued := State([row], Idle(Active).(outbound := [FIRST_ENTRY], outboundBytes := EVENT_BYTES));
    assert Accept(Client(items), State([], Idle(Active)), Semantic(FIRST_EVENT)) == (queued, Ok(()));
    assert MarkInFlight([row], "first") == [FIRST_ROW];
    assert [FIRST_ENTRY][1..] == [];
    assert Deliver(queued) == FirstSent();
    assert FlushLoop(queued, [Sent]) == FlushLoop(FirstSent(), []);
  }

  function SecondWaits(): State {
    State([FIRST_ROW, SECOND_ROW], FirstSent().memory.(outbound := [SECOND_ENTRY], outboundBytes := 2 * EVENT_BYTES))
  }

  lemma {:induction false} SendsSecond(items: nat)
    requires items >= 1
    ensures Send(Client(items), FirstSent(), Semantic(SECOND_EVENT), []) == (SecondWaits(), Ok(true))
  {
    assert [FIRST_ROW][..0] == [];
    assert Newest([FIRST_ROW], Some("run")) == Some(FIRST_ROW);
    assert HasRoom(Client(items).limits, [FIRST_ROW], SECOND_EVENT);
    assert Find([FIRST_ROW], "second") == None;
    assert [FIRST_ROW] + [SECOND_ROW] == [FIRST_ROW, SECOND_ROW];
    assert Enqueue(Client(items).limits, Client(items).accepts, [FIRST_ROW], SECOND_EVENT) == ([FIRST_ROW, SECOND_ROW], Ok(SECOND_ROW));
    assert [] + [SECOND_ENTRY] == [SECOND_ENTRY];
    assert Accept(Client(items), FirstSent(), Semantic(SECOND_EVENT)) == (SecondWaits(), Ok(()));
    assert Key(FIRST_ENTRY) == Some("first");
    assert Retained(FirstSent().memory, "second") == None;
  }

  const TWO_EVENTS: seq<Step> :=
    CONNECTING + [SendStep(Semantic(FIRST_EVENT), [Sent])] + [SendStep(Semantic(SECOND_EVENT), [])]

  lemma {:induction false} SendsBoth(items: nat)
    requires items >= 1
    ensures ValidConfig(Client(items))
    ensures History(Client(items), TWO_EVENTS) == Running(SecondWaits())
    ensures FreshHistory(Client(items), TWO_EVENTS)
  {
    hide History, Send, FreshStep;
    var cfg := Client(items);
    var first, second := SendStep(Semantic(FIRST_EVENT), [Sent]), SendStep(Semantic(SECOND_EVENT), []);
    Connects(cfg);
    SendsFirst(items);
    SendsSecond(items);
    OneMoreStep(cfg, CONNECTING, first);
    OneMoreStep(cfg, CONNECTING + [first], second);
    assert TWO_EVENTS[..5] == CONNECTING && TWO_EVENTS[..6] == CONNECTING + [first];
    NewEventsAreFresh();
    forall k | 0 <= k < |TWO_EVENTS| ensures FreshStep(History(cfg, TWO_EVENTS[..k]), TWO_EVENTS[k]) {
      if k < 5 {
        OthersAreFresh(History(cfg, TWO_EVENTS[..k]), TWO_EVENTS[k]);
      }
    }
  }

  lemma {:induction false} OthersAreFresh(w: World, step: Step)
    requires !step.SendStep?
    ensures FreshStep(w, step)
  {
  }

  lemma {:induction false} NewEventsAreFresh()
    ensures FreshStep(Running(State([], Idle(Active))), SendStep(Semantic(FIRST_EVENT), [Sent]))
    ensures FreshStep(Running(FirstSent()), SendStep(Semantic(SECOND_EVENT), []))
  {
  }

  /** One event in flight and one that waits fit the client, but not the client that is started next. */
  lemma {:induction false} RestartCanFail()
    ensures var cfg, ready := Client(1), [FIRST_ROW.(state := Pending), SECOND_ROW];
            && ValidConfig(cfg) && FreshHistory(cfg, TWO_EVENTS)
            && History(cfg, TWO_EVENTS).Running?
            && NextWorld(cfg, History(cfg, TWO_EVENTS), RestartStep(ready)).Down?
  {
    hide History, FreshHistory;
    var ready := [FIRST_ROW.(state := Pending), SECOND_ROW];
    SendsBoth(1);
    assert RequeueInFlight([FIRST_ROW, SECOND_ROW]) == ready;
    assert IsReady(ready, ready);
    RestartFailsIffTooManyItems(Client(1), TWO_EVENTS, ready);
    assert |ready| == 2;
  }

  function FirstFinished(): State {
    State([FIRST_ROW.(state := Acknowledged), SECOND_ROW],
          SecondWaits().memory.(inFlight := [], outboundBytes := EVENT_BYTES))
  }

  lemma {:induction false} FirstIsAcknowledged()
    ensures AckEffect(SecondWaits(), "first", Applied) == FirstFinished()
  {
    assert Acknowledge([FIRST_ROW, SECOND_ROW], "first", Applied).0 == [FIRST_ROW.(state := Acknowledged), SECOND_ROW];
    assert Retained(SecondWaits().memory, "first") == Some(FIRST_ENTRY);
    assert Drop([FIRST_ENTRY], 0) == [];
    assert Key(SECOND_ENTRY) == Some("second");
    assert {} - {"first"} == {};
  }

  lemma {:induction false} SendsFirstAgain(items: nat)
    requires items >= 2
    ensures Queue(Send(Client(items), FirstFinished(), Semantic(FIRST_EVENT), []).0.memory) == [SECOND_ENTRY, FIRST_ENTRY]
  {
    assert Find(FirstFinished().rows, "first") == Some(0);
    assert Key(SECOND_ENTRY) == Some("second");
    assert Retained(FirstFinished().memory, "first") == None;
    assert [SECOND_ENTRY] + [FIRST_ENTRY] == [SECOND_ENTRY, FIRST_ENTRY];
  }

  /** An event sent again after its acknowledgement goes behind a later event of its run. */
  lemma {:induction false} ResendBreaksOrder()
    ensures var cfg := Client(2);
            var steps := TWO_EVENTS + [AckStep("first", Applied)] + [SendStep(Semantic(FIRST_EVENT), [])];
            && ValidConfig(cfg) && History(cfg, steps).Running?
            && Queue(History(cfg, steps).state.memory) == [SECOND_ENTRY, FIRST_ENTRY]
            && !InOrder([SECOND_ENTRY, FIRST_ENTRY])
  {
    hide History, FreshHistory, AckEffect, Send, SecondWaits, FirstFinished, Queue;
    var cfg, ack, again := Client(2), AckStep("first", Applied), SendStep(Semantic(FIRST_EVENT), []);
    SendsBoth(2);
    OneMoreStep(cfg, TWO_EVENTS, ack);
    OneMoreStep(cfg, TWO_EVENTS + [ack], again);
    FirstIsAcknowledged();
    SendsFirstAgain(2);
    assert SameRun([SECOND_ENTRY, FIRST_ENTRY][0], [SECOND_ENTRY, FIRST_ENTRY][1]);
  }

  // ---- a request under an id used before

  const ASKED := Request("ask", "question", [0])
  const ASKED_ENTRY := Entry(ASKED, None)

  /** The request is on the wire. */
  function Asking(processed: set<EventId>): State {
    State([], Idle(Active).(inFlight := [ASKED_ENTRY], outboundBytes := EVENT_BYTES, outboundSequence := 1,
                            wire := [Envelope(1, ASKED_ENTRY)], processedResponses := processed))
  }

  lemma {:induction false} Asks(processed: set<EventId>)
    ensures var idle := State([], Idle(Active).(processedResponses := processed));
            Send(Client(2), idle, ASKED, [Sent]) == (Asking(processed), Ok(false))
  {
    assert [] + [ASKED_ENTRY] == [ASKED_ENTRY];
    assert Retained(Idle(Active).(processedResponses := processed), "ask") == None;
    var queued := State([], Idle(Active).(processedResponses := processed, outbound := [ASKED_ENTRY], outboundBytes := EVENT_BYTES));
    assert [ASKED_ENTRY][1..] == [];
    assert Deliver(queued) == Asking(processed);
    assert FlushLoop(queued, [Sent]) == FlushLoop(Asking(processed), []);
  }

  lemma {:induction false} ResponseComes()
    ensures ResponseEffect(Asking({}), "question") == Asking({"ask"})
  {
    assert Queue(Asking({}).memory) == [ASKED_ENTRY];
    assert RequestIndex([ASKED_ENTRY], "question") == Some(0);
    assert {} + {"ask"} == {"ask"};
  }

  function Remembering(connection: Connection): State {
    State([], Idle(connection).(processedResponses := {"ask"}))
  }

  function Lost(): State {
    State([], Remembering(BackingOff).memory.(outboundSequence := 1, wire := [Envelope(1, ASKED_ENTRY)]))
  }

  lemma {:induction false} RequestIsLost()
    ensures Close(Asking({"ask"})) == Lost()
  {
    assert [ASKED_ENTRY][..0] == [];
    assert Durables([ASKED_ENTRY]) == [] && Durables([]) == [];
    NoSize();
  }

  lemma {:induction false} OneAnswerSuffices()
    ensures Retained(Asking({"ask"}).memory, "ask").Some?
    ensures Retained(AckEffect(Asking({"ask"}), "ask", Applied).memory, "ask") == None
  {
    assert IndexOfKey([ASKED_ENTRY], "ask") == Some(0);
    assert Drop([ASKED_ENTRY], 0) == [];
  }

  const RECONNECTING: seq<Step> := [BeginStep, ConnectedStep, OpenedStep, WelcomedStep([])]

  lemma {:induction false} Reconnects(cfg: Config, steps: seq<Step>)
    requires ValidConfig(cfg) && History(cfg, steps) == Running(Lost())
    ensures History(cfg, steps + RECONNECTING) == Running(Remembering(Active))
  {
    hide History, ValidLimits;
    OneMoreStep(cfg, steps, BeginStep);
    OneMoreStep(cfg, steps + [BeginStep], ConnectedStep);
    OneMoreStep(cfg, steps + [BeginStep] + [ConnectedStep], OpenedStep);
    OneMoreStep(cfg, steps + [BeginStep] + [ConnectedStep] + [OpenedStep], WelcomedStep([]));
    assert steps + [BeginStep] + [ConnectedStep] + [OpenedStep] + [WelcomedStep([])] == steps + RECONNECTING;
  }

  /** A request is answered and lost to a close; asked again under its id, it is retired without an answer of its own. */
  lemma {:induction false} AskedAgainIsRetiredByOneAnswer()
    ensures var cfg := Client(2);
            var steps := CONNECTING + [SendStep(ASKED, [Sent])] + [ResponseStep("question")] + [CloseStep] + RECONNECTING + [SendStep(ASKED, [Sent])];
            && ValidConfig(cfg) && History(cfg, steps) == Running(Asking({"ask"}))
            && Retained(Asking({"ask"}).memory, "ask").Some?
            && Retained(AckEffect(Asking({"ask"}), "ask", Applied).memory, "ask") == None
  {
    hide History, Send, ResponseEffect, Close, AckEffect, Retained, Asking;
    var cfg := Client(2);
    Connects(cfg);
    Asks({});
    Asks({"ask"});
    ResponseComes();
    RequestIsLost();
    OneAnswerSuffices();
    OneMoreStep(cfg, CONNECTING, SendStep(ASKED, [Sent]));
    OneMoreStep(cfg, CONNECTING + [SendStep(ASKED, [Sent])], ResponseStep("question"));
    OneMoreStep(cfg, CONNECTING + [SendStep(ASKED, [Sent])] + [ResponseStep("question")], CloseStep);
    Reconnects(cfg, CONNECTING + [SendStep(ASKED, [Sent])] + [ResponseStep("question")] + [CloseStep]);
    OneMoreStep(cfg, CONNECTING + [SendStep(ASKED, [Sent])] + [ResponseStep("question")] + [CloseStep] + RECONNECTING, SendStep(ASKED, [Sent]));
    assert Idle(Active).(processedResponses := {}) == Idle(Active);
  }
}
