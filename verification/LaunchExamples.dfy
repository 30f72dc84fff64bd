/** Two deliveries of one attempt, without any failure of the database, after which a process is left running. */
module LaunchExamples {
  import opened Common
  import opened ProcessRegistry
  import opened LaunchFence

  const ATTEMPT: AttemptId := "attempt"
  function Digest(): string {
    seq(64, _ => 'a')
  }

  const RESERVATION: ReservationId := "reservation"
  const FINE := Environment(false, true, false, false, RESERVATION, true, true)
  const OTHER_ID := Environment(false, true, false, false, "other", true, true)
  const LATE := Environment(true, true, false, false, RESERVATION, true, true)
  const REFUSED := Environment(false, false, false, false, RESERVATION, true, true)
  const DONE := Answered(true, true)

  lemma {:induction false} On(history: seq<Step>, step: Step) returns (longer: seq<Step>)
    ensures longer == history + [step] && Run(longer) == Next(Run(history), step)
  {
    longer := history + [step];
    assert longer[..|longer| - 1] == history;
  }

  function Fresh(): Launch {
    Launch(ATTEMPT, Digest(), Preparing, None, NoSession, false, false, NoProcess, NOTHING_ASKED, false, None)
  }

  /** A launch with its session active and the stage it has reached. */
  function Reached(stage: Stage, reservation: Option<ReservationId>): Launch {
    Fresh().(stage := stage, reservation := reservation, session := ActiveSession, answers := NOTHING_ASKED.(activate := DONE))
  }

  /** Delivered, prepared and activated. */
  lemma {:induction false} Arrives(history: seq<Step>) returns (longer: seq<Step>)
    ensures var w, v := Run(history), Run(longer);
            v == w.(launches := w.launches + [Reached(Reserving, None)])
  {
    hide Run, Reserve;
    var l := |Run(history).launches|;
    var a := On(history, Redeliver(ATTEMPT, Digest()));
    var b := On(a, Advance(l, FINE));
    assert Run(b).launches == Run(history).launches + [Fresh().(stage := Activating)];
    var c := On(b, Advance(l, FINE));
    assert Run(c).launches == Run(history).launches + [Reached(Activated, None)];
    longer := On(c, Advance(l, FINE));
    assert Run(longer).launches == Run(history).launches + [Reached(Reserving, None)];
  }

  function Permitted(): Launch {
    Reached(HasPermit, Some(RESERVATION)).(permitConsumed := true)
  }

  function Table(state: ProcessState): seq<Row> {
    [Row(ATTEMPT, RESERVATION, Digest(), state)]
  }

  const ISSUED := map[RESERVATION := Assignment(ATTEMPT, Digest())]

  /** The first reserves and consumes its permit. */
  lemma {:induction false} FirstHasPermit() returns (h: seq<Step>)
    ensures Run(h) == World(Table(Reserved), [Permitted()], [], ISSUED)
  {
    assert Run([]) == World([], [], [], map[]);
    hide Run;
    h := Arrives([]);
    var a := On(h, Advance(0, FINE));
    assert Run(a) == World(Table(Reserved), [Reached(HoldsReservation, Some(RESERVATION))], [], ISSUED);
    var b := On(a, Advance(0, FINE));
    h := On(b, Advance(0, FINE));
  }

  /** The second resumes the reservation and consumes one too. */
  lemma {:induction false} BothHavePermits() returns (h: seq<Step>)
    ensures Run(h) == World(Table(Reserved), [Permitted(), Permitted()], [], ISSUED)
  {
    hide Run;
    var c := FirstHasPermit();
    var d := Arrives(c);
    var e := On(d, Advance(1, OTHER_ID));
    assert Run(e) == World(Table(Reserved), [Permitted(), Reached(HoldsReservation, Some(RESERVATION))], [], ISSUED);
    var f := On(e, Advance(1, FINE));
    h := On(f, Advance(1, FINE));
  }

  /** The first calls the host; the second finds its deadline passed, and records the failure of the row they share. */
  lemma {:induction false} SecondFailsTheRow() returns (h: seq<Step>)
    ensures var w := Run(h);
            && w.rows == Table(FailedToStart) && w.starts == [0] && |w.launches| == 2
            && w.launches[0] == Permitted().(stage := AwaitingHost, wonStart := true)
  {
    hide Run, Reserve, IsIdentifier, IsSha256;
    var a := BothHavePermits();
    var b := On(a, Advance(0, FINE));
    var c := On(b, Advance(0, FINE));
    assert Run(c).rows == Table(Starting) && Run(c).launches == [Permitted().(stage := Marked, wonStart := true), Permitted()];
    var d := On(c, Advance(0, FINE));
    h := On(d, Advance(1, LATE));
  }

  /** The host starts the process, recordStarted is refused, and cancel answers a failure: the launch fails, the process runs. */
  lemma {:induction false} ProcessLeftRunning() returns (h: seq<Step>)
    ensures var w := Run(h);
            && |w.launches| == 2 && w.starts == [0] && w.rows == Table(FailedToStart)
            && w.launches[0].stage == Returned(false) && w.launches[0].process == RunningProcess
            && w.launches[0].session == RevokedSession
  {
    hide Run, Reserve, IsIdentifier, IsSha256;
    var a := SecondFailsTheRow();
    var b := On(a, Advance(0, FINE));
    var c := On(b, Advance(0, FINE));
    assert Run(c).launches[0].stage == Cancelling && Run(c).rows == Table(FailedToStart);
    var d := On(c, Advance(0, REFUSED));
    h := On(d, Advance(0, FINE));
  }
}
