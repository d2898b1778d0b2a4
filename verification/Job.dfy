/** One judge job: the exits before judging, and the producer, judge and consumer running side by side. */
module Job {
  // ---------------------------------------------------------------- pins and the releaser

  datatype Pin = Code | Checker | Input(i: nat) | Output(i: nat)

  /** The chain of closures that the producer builds. */
  datatype Releaser = Nothing | Unlock(pin: Pin) | FunctionJoin(first: Releaser, second: Releaser)

  /** The lockers a call of the closure unlocks, in order. */
  function Unlocks(r: Releaser): seq<Pin> {
    match r
    case Nothing => []
    case Unlock(pin) => [pin]
    case FunctionJoin(first, second) => Unlocks(first) + Unlocks(second)
  }

  /** The k-th file the producer downloads. */
  function PinAt(k: nat): Pin {
    if k % 2 == 0 then Input(k / 2) else Output(k / 2)
  }

  predicate CasePins(pins: seq<Pin>) {
    forall k :: 0 <= k < |pins| ==> pins[k] == PinAt(k)
  }

  predicate Distinct(pins: seq<Pin>) {
    forall i, j :: 0 <= i < j < |pins| ==> pins[i] != pins[j]
  }

  // ---------------------------------------------------------------- three goroutines

  datatype Producer = AtInput(i: nat) | AtOutput(i: nat) | AtSend(i: nat) | Reported | Marked | Ended
  datatype Judge =
    | Starting
    | Reading
    | Taken(i: nat)
    | Running(i: nat)
    | Totalling(refused: bool)
    | Returned(refused: bool)
  datatype Consumer = Listening | Silenced | Responded | Crashed

  /** What the judge sends: for each case Judging and one verdict, and one total at the end. */
  datatype Message = Judging(i: nat) | Verdict(i: nat, accepted: bool) | Total

  /** The capacity of the channel from judge to consumer. */
  const STATUS_ROOM := 10

  /**
   * `casesChan` has room for `cases` entries; `marked` is the flag the consumer looks at before it responds;
   * `heard` is history: what the consumer received. A crash of the consumer ends the whole process.
   */
  datatype State = State(
    cases: nat,
    producer: Producer,
    casesChan: seq<nat>,
    releaser: Releaser,
    marked: bool,
    judge: Judge,
    taken: seq<nat>,
    statusChan: seq<Message>,
    heard: seq<Message>,
    consumer: Consumer,
    acquired: seq<Pin>,
    released: seq<Pin>,
    unwound: bool,
    reports: nat)

  datatype Step =
    | Fetch(ok: bool)
    | Send
    | Mark
    | CloseCases
    | Begin
    | Refuse
    | Take
    | Announce
    | Finish(accepted: bool)
    | EndOfCases
    | SendTotal
    | Receive
    | Crash
    | Release

  function Start(cases: nat): State {
    State(cases, AtInput(0), [], Nothing, false, Starting, [], [], [], Listening, [], [], false, 0)
  }

  predicate HasRoom(s: State) {
    |s.statusChan| < STATUS_ROOM
  }

  predicate Enabled(s: State, step: Step) {
    && !s.consumer.Crashed?
    && match step
       case Fetch(_) => (s.producer.AtInput? && s.producer.i < s.cases) || s.producer.AtOutput?
       case Send => s.producer.AtSend? && |s.casesChan| < s.cases
       case Mark => s.producer.Reported?
       case CloseCases => s.producer.Marked? || s.producer == AtInput(s.cases)
       case Begin => s.judge.Starting?
       case Refuse => s.judge.Starting?
       case Take => s.judge.Reading? && s.casesChan != []
       case Announce => s.judge.Taken? && HasRoom(s)
       case Finish(_) => s.judge.Running? && HasRoom(s)
       case EndOfCases => s.judge.Reading? && s.casesChan == [] && s.producer.Ended?
       case SendTotal => s.judge.Totalling? && HasRoom(s)
       case Receive => s.consumer.Listening? && s.statusChan != []
       case Crash => s.consumer.Listening? && s.statusChan != [] && s.statusChan[0].Verdict? && s.statusChan[0].accepted
       case Release => s.judge.Returned? && s.producer.Ended? && !s.unwound
  }

  /** A download that succeeds pins its file and extends the releaser; one that fails reports the job. */
  function Fetched(s: State, ok: bool): State
    requires Enabled(s, Fetch(ok))
  {
    if !ok then s.(producer := Reported, reports := s.reports + 1)
    else
      var pin := if s.producer.AtInput? then Input(s.producer.i) else Output(s.producer.i);
      s.(producer := if s.producer.AtInput? then AtOutput(s.producer.i) else AtSend(s.producer.i),
         releaser := FunctionJoin(s.releaser, Unlock(pin)), acquired := s.acquired + [pin])
  }

  /**
   * On the total the consumer responds, unless a failed download has been reported; other messages are case reports.
   */
  function Received(s: State): State
    requires Enabled(s, Receive)
  {
    var s' := s.(statusChan := s.statusChan[1..], heard := s.heard + [s.statusChan[0]]);
    if !s.statusChan[0].Total? then s'
    else if s.marked then s'.(consumer := Silenced)
    else s'.(consumer := Responded, reports := s.reports + 1)
  }

  function Next(s: State, step: Step): State
    requires Enabled(s, step)
  {
    match step
    case Fetch(ok) => Fetched(s, ok)
    case Send => s.(casesChan := s.casesChan + [s.producer.i], producer := AtInput(s.producer.i + 1))
    case Mark => s.(marked := true, producer := Marked)
    case CloseCases => s.(producer := Ended)
    case Begin => s.(judge := Reading)
    case Refuse => s.(judge := Totalling(true))
    case Take => s.(judge := Taken(s.casesChan[0]), taken := s.taken + [s.casesChan[0]], casesChan := s.casesChan[1..])
    case Announce => s.(judge := Running(s.judge.i), statusChan := s.statusChan + [Judging(s.judge.i)])
    case Finish(accepted) => s.(judge := Reading, statusChan := s.statusChan + [Verdict(s.judge.i, accepted)])
    case EndOfCases => s.(judge := Totalling(false))
    case SendTotal => s.(judge := Returned(s.judge.refused), statusChan := s.statusChan + [Total])
    case Receive => Received(s)
    case Crash => s.(consumer := Crashed)
    case Release => s.(released := Unlocks(s.releaser), unwound := true)
  }

  predicate OfProducer(step: Step) {
    step.Fetch? || step.Send? || step.Mark? || step.CloseCases?
  }

  predicate Runs(s: State, steps: seq<Step>)
    decreases |steps|
  {
    steps == [] || (Enabled(s, steps[0]) && Runs(Next(s, steps[0]), steps[1..]))
  }

  function After(s: State, steps: seq<Step>): State
    requires Runs(s, steps)
    decreases |steps|
  {
    if steps == [] then s else After(Next(s, steps[0]), steps[1..])
  }

  // ---------------------------------------------------------------- what every step keeps

  function Sent(s: State): seq<nat> {
    s.taken + s.casesChan
  }

  predicate Failed(s: State) {
    s.producer.Reported? || s.marked
  }

  predicate Refused(s: State) {
    (s.judge.Totalling? || s.judge.Returned?) && s.judge.refused
  }

  /** The cases were sent in order, and the producer stands right after them. */
  predicate InOrder(s: State) {
    && |Sent(s)| <= s.cases && (forall j :: 0 <= j < |Sent(s)| ==> Sent(s)[j] == j)
    && (match s.producer
        case AtInput(i) => i == |Sent(s)|
        case AtOutput(i) => i == |Sent(s)| < s.cases
        case AtSend(i) => i == |Sent(s)| < s.cases
        case _ => !Failed(s) ==> |Sent(s)| == s.cases)
  }

  /** Pins are acquired in order, both pins of a case before it is sent, and the releaser knows them all. */
  predicate PinsRight(s: State) {
    && CasePins(s.acquired) && Unlocks(s.releaser) == s.acquired && 2 * |Sent(s)| <= |s.acquired|
    && (match s.producer
        case AtInput(i) => |s.acquired| == 2 * i
        case AtOutput(i) => |s.acquired| == 2 * i + 1
        case AtSend(i) => |s.acquired| == 2 * i + 2
        case _ => true)
    && s.released == (if s.unwound then s.acquired else [])
    && (s.unwound ==> s.producer.Ended? && s.judge.Returned?)
  }

  /** The judge is done with the cases it will take. */
  predicate Done(s: State) {
    s.judge.Totalling? || s.judge.Returned?
  }

  predicate ReportsRight(s: State) {
    && (s.marked <==> s.producer.Marked? || (s.producer.Ended? && s.marked))
    && s.reports == (if Failed(s) then 1 else 0) + (if s.consumer.Responded? then 1 else 0)
    && (Done(s) && !Refused(s) ==> s.producer.Ended? && s.casesChan == [])
    && (s.consumer.Silenced? ==> s.marked)
    && (s.consumer.Responded? && Failed(s) ==> Refused(s))
  }

  function Stream(s: State): seq<Message> {
    s.heard + s.statusChan
  }

  /** How many cases have their verdict. */
  function Judged(s: State): int {
    if s.judge.Taken? || s.judge.Running? then |s.taken| - 1 else |s.taken|
  }

  /**
   * The stream has Judging and a verdict for each case judged, in order, and a total exactly when the judge returned.
   */
  predicate StreamRight(s: State) {
    && (s.judge.Taken? || s.judge.Running? ==> s.taken != [] && s.judge.i == s.taken[|s.taken| - 1])
    && (s.judge.Starting? || Refused(s) ==> s.taken == [])
    && |Stream(s)| == 2 * Judged(s) + (if s.judge.Running? || s.judge.Returned? then 1 else 0)
    && (forall j :: 0 <= j < Judged(s) ==>
          && Stream(s)[2 * j] == Judging(s.taken[j])
          && Stream(s)[2 * j + 1].Verdict? && Stream(s)[2 * j + 1].i == s.taken[j])
    && (s.judge.Running? ==> Stream(s)[2 * Judged(s)] == Judging(s.judge.i))
    && (s.judge.Returned? ==> Stream(s)[2 * Judged(s)] == Total)
    && (if s.consumer.Silenced? || s.consumer.Responded? then s.judge.Returned? && s.statusChan == []
        else s.judge.Returned? ==> s.statusChan != [])
  }

  predicate Right(s: State) {
    InOrder(s) && PinsRight(s) && ReportsRight(s) && StreamRight(s)
  }

  lemma SentKept(s: State, step: Step)
    requires Enabled(s, step) && InOrder(s)
    ensures Sent(Next(s, step)) == if step.Send? then Sent(s) + [s.producer.i] else Sent(s)
  {
    if step.Take? {
      assert s.casesChan == [s.casesChan[0]] + s.casesChan[1..];
    }
  }

  lemma ProducerInOrder(s: State, step: Step)
    requires Enabled(s, step) && InOrder(s) && (s.marked ==> s.producer.Marked? || s.producer.Ended?) &&
      OfProducer(step)
    ensures InOrder(Next(s, step))
  {
    SentKept(s, step);
  }

  lemma StepInOrder(s: State, step: Step)
    requires Enabled(s, step) && Right(s)
    ensures InOrder(Next(s, step))
  {
    if OfProducer(step) {
      ProducerInOrder(s, step);
    } else {
      SentKept(s, step);
      assert Next(s, step).producer == s.producer && Next(s, step).marked == s.marked;
    }
  }

  lemma FetchPinsRight(s: State, ok: bool)
    requires Enabled(s, Fetch(ok)) && InOrder(s) && PinsRight(s)
    ensures PinsRight(Next(s, Fetch(ok)))
  {
    SentKept(s, Fetch(ok));
  }

  /** The producer sends a case whose pins it has, or stops fetching. */
  lemma ProducerPinsRight(s: State, step: Step)
    requires Enabled(s, step) && InOrder(s) && PinsRight(s) && OfProducer(step) && !step.Fetch?
    ensures PinsRight(Next(s, step))
  {
    SentKept(s, step);
  }

  lemma ReleasePinsRight(s: State)
    requires Enabled(s, Release) && PinsRight(s)
    ensures PinsRight(Next(s, Release))
  {
  }

  /** Nothing that the pins depend on changes. */
  lemma SamePins(s: State, s': State)
    requires PinsRight(s) && s'.producer == s.producer && s'.acquired == s.acquired && s'.releaser == s.releaser
    requires Sent(s') == Sent(s) && s'.released == s.released && s'.unwound == s.unwound
    requires s.judge.Returned? ==> s'.judge == s.judge
    ensures PinsRight(s')
  {
  }

  lemma OtherKeeps(s: State, step: Step)
    requires Enabled(s, step) && InOrder(s) && !OfProducer(step) && !step.Release?
    ensures var s' := Next(s, step);
      && s'.producer == s.producer && s'.acquired == s.acquired && s'.releaser == s.releaser
      && Sent(s') == Sent(s) && s'.released == s.released && s'.unwound == s.unwound
      && (s.judge.Returned? ==> s'.judge == s.judge)
  {
    SentKept(s, step);
  }

  lemma StepPinsRight(s: State, step: Step)
    requires Enabled(s, step) && Right(s)
    ensures PinsRight(Next(s, step))
  {
    hide Enabled, Next, PinsRight, InOrder, ReportsRight, StreamRight;
    if step.Fetch? {
      FetchPinsRight(s, step.ok);
    } else if OfProducer(step) {
      ProducerPinsRight(s, step);
    } else if step.Release? {
      ReleasePinsRight(s);
    } else {
      OtherKeeps(s, step);
      SamePins(s, Next(s, step));
    }
  }

  lemma ProducerReportsRight(s: State, step: Step)
    requires Enabled(s, step) && ReportsRight(s) && (s.consumer.Responded? ==> s.judge.Returned?) && OfProducer(step)
    ensures ReportsRight(Next(s, step))
  {
  }

  lemma ReceiveReportsRight(s: State)
    requires Enabled(s, Receive) && Right(s)
    ensures ReportsRight(Next(s, Receive))
  {
    TotalIsLast(s);
  }

  lemma StepReportsRight(s: State, step: Step)
    requires Enabled(s, step) && Right(s)
    ensures ReportsRight(Next(s, step))
  {
    if OfProducer(step) {
      ProducerReportsRight(s, step);
    } else if step.Receive? {
      ReceiveReportsRight(s);
    } else {
      assert Next(s, step).producer == s.producer && Next(s, step).marked == s.marked &&
        Next(s, step).reports == s.reports;
    }
  }

  lemma StreamStep(s: State, step: Step)
    requires Enabled(s, step) && (step.Announce? || step.Finish? || step.SendTotal? || step.Receive?)
    ensures Stream(Next(s, step)) == match step
      case Announce => Stream(s) + [Judging(s.judge.i)]
      case Finish(accepted) => Stream(s) + [Verdict(s.judge.i, accepted)]
      case SendTotal => Stream(s) + [Total]
      case _ => Stream(s)
  {
    if step.Receive? {
      assert s.statusChan == [s.statusChan[0]] + s.statusChan[1..];
    }
  }

  /** The message received is the total exactly if it is the last of a judge that returned. */
  lemma TotalIsLast(s: State)
    requires StreamRight(s) && s.statusChan != []
    ensures s.statusChan[0].Total? <==> s.judge.Returned? && |s.statusChan| == 1
  {
    var k := |s.heard|;
    assert Stream(s)[k] == s.statusChan[0];
    if k < 2 * Judged(s) {
      assert Stream(s)[2 * (k / 2)] == Judging(s.taken[k / 2]) && Stream(s)[2 * (k / 2) + 1].Verdict?;
    }
  }

  lemma AnnounceKeepsStream(s: State)
    requires Enabled(s, Announce) && StreamRight(s)
    ensures StreamRight(Next(s, Announce))
  {
    hide Stream;
    StreamStep(s, Announce);
  }

  lemma FinishKeepsStream(s: State, accepted: bool)
    requires Enabled(s, Finish(accepted)) && StreamRight(s)
    ensures StreamRight(Next(s, Finish(accepted)))
  {
    hide Stream;
    StreamStep(s, Finish(accepted));
  }

  lemma TotalKeepsStream(s: State)
    requires Enabled(s, SendTotal) && StreamRight(s)
    ensures StreamRight(Next(s, SendTotal))
  {
    hide Stream;
    StreamStep(s, SendTotal);
  }

  lemma ReceiveKeepsStream(s: State)
    requires Enabled(s, Receive) && StreamRight(s)
    ensures StreamRight(Next(s, Receive))
  {
    hide Stream;
    StreamStep(s, Receive);
    TotalIsLast(s);
  }

  lemma JudgeKeepsStream(s: State, step: Step)
    requires Enabled(s, step) && StreamRight(s) && (step.Begin? || step.Refuse? || step.Take? || step.EndOfCases?)
    ensures StreamRight(Next(s, step))
  {
    assert Stream(Next(s, step)) == Stream(s);
    assert step.Take? ==> forall j :: 0 <= j < |s.taken| ==> Next(s, step).taken[j] == s.taken[j];
  }

  lemma SameStream(s: State, s': State)
    requires StreamRight(s) && s'.judge == s.judge && s'.taken == s.taken && s'.heard == s.heard &&
      s'.statusChan == s.statusChan
    requires s'.consumer == s.consumer || (s.consumer.Listening? && s'.consumer.Crashed?)
    ensures StreamRight(s')
  {
    assert Stream(s') == Stream(s);
  }

  lemma StepStreamRight(s: State, step: Step)
    requires Enabled(s, step) && Right(s)
    ensures StreamRight(Next(s, step))
  {
    if step.Receive? {
      ReceiveKeepsStream(s);
    } else if step.Announce? {
      AnnounceKeepsStream(s);
    } else if step.Finish? {
      FinishKeepsStream(s, step.accepted);
    } else if step.SendTotal? {
      TotalKeepsStream(s);
    } else if step.Begin? || step.Refuse? || step.Take? || step.EndOfCases? {
      JudgeKeepsStream(s, step);
    } else {
      SameStream(s, Next(s, step));
    }
  }

  lemma CasesKept(s: State, step: Step)
    requires Enabled(s, step)
    ensures Next(s, step).cases == s.cases
  {
  }

  lemma StepRight(s: State, step: Step)
    requires Enabled(s, step) && Right(s)
    ensures Right(Next(s, step)) && Next(s, step).cases == s.cases
  {
    hide Enabled, Next, InOrder, PinsRight, ReportsRight, StreamRight;
    CasesKept(s, step);
    StepStreamRight(s, step);
    StepInOrder(s, step);
    StepPinsRight(s, step);
    StepReportsRight(s, step);
  }

  lemma {:induction false} RunRight(s: State, steps: seq<Step>)
    requires Right(s) && Runs(s, steps)
    ensures Right(After(s, steps)) && After(s, steps).cases == s.cases
    decreases |steps|
  {
    if steps != [] {
      StepRight(s, steps[0]);
      RunRight(Next(s, steps[0]), steps[1..]);
    }
  }

  // ---------------------------------------------------------------- the producer ends by itself

  function ProducerSteps(steps: seq<Step>): nat {
    if steps == [] then 0 else (if OfProducer(steps[0]) then 1 else 0) + ProducerSteps(steps[1..])
  }

  /** An upper bound on the steps the producer still has to take. */
  function Left(s: State): int {
    match s.producer
    case AtInput(i) => 3 * (s.cases - i) + 1
    case AtOutput(i) => 3 * (s.cases - i)
    case AtSend(i) => 3 * (s.cases - i) - 1
    case Reported => 2
    case Marked => 1
    case Ended => 0
  }

  lemma StepLeft(s: State, step: Step)
    requires Enabled(s, step) && InOrder(s)
    ensures Left(Next(s, step)) + (if OfProducer(step) then 1 else 0) <= Left(s)
  {
  }

  lemma {:induction false} StepsLeft(s: State, steps: seq<Step>)
    requires Right(s) && Runs(s, steps)
    ensures ProducerSteps(steps) + Left(After(s, steps)) <= Left(s)
    decreases |steps|
  {
    if steps != [] {
      StepRight(s, steps[0]);
      StepLeft(s, steps[0]);
      StepsLeft(Next(s, steps[0]), steps[1..]);
    }
  }

  /** The producer can take its next step, however its download turns out. */
  predicate ProducerFree(s: State) {
    (Enabled(s, Fetch(true)) && Enabled(s, Fetch(false))) || Enabled(s, Send) || Enabled(s, Mark) ||
      Enabled(s, CloseCases)
  }

  lemma NotBlocked(s: State)
    requires InOrder(s) && !s.producer.Ended? && !s.consumer.Crashed?
    ensures ProducerFree(s)
  {
    assert |s.casesChan| <= |Sent(s)|;
  }

  /**
   * Whatever the judge and the consumer do, the producer ends: it takes at most three steps a case and one more,
   * and until it has ended it can take its next step (as long as the process lives), so its sends never wait for
   * a reader.
   */
  lemma ProducerEnds(cases: nat, steps: seq<Step>)
    requires Runs(Start(cases), steps)
    ensures ProducerSteps(steps) <= 3 * cases + 1
    ensures var s := After(Start(cases), steps);
      !s.producer.Ended? && !s.consumer.Crashed? ==> ProducerFree(s)
  {
    RunRight(Start(cases), steps);
    StepsLeft(Start(cases), steps);
    var s := After(Start(cases), steps);
    if !s.producer.Ended? && !s.consumer.Crashed? {
      NotBlocked(s);
    }
  }

  // ---------------------------------------------------------------- pins

  lemma PinsDistinct(pins: seq<Pin>)
    requires CasePins(pins)
    ensures Distinct(pins)
  {
  }

  /**
   * Every locker of the job is released exactly once, in order of acquisition, and only after producer and judge
   * ended.
   */
  lemma ReleasedOnce(cases: nat, steps: seq<Step>)
    requires Runs(Start(cases), steps)
    ensures var s := After(Start(cases), steps);
      && Distinct(s.acquired)
      && s.released == (if s.unwound then s.acquired else [])
      && (s.unwound ==> s.producer.Ended? && s.judge.Returned?)
  {
    RunRight(Start(cases), steps);
    PinsDistinct(After(Start(cases), steps).acquired);
  }

  predicate Held(s: State, pin: Pin) {
    pin in s.acquired && pin !in s.released
  }

  lemma TakenAcquired(s: State, i: nat)
    requires InOrder(s) && PinsRight(s) && i in s.taken
    ensures Input(i) in s.acquired && Output(i) in s.acquired
  {
    var j :| 0 <= j < |s.taken| && s.taken[j] == i;
    assert Sent(s)[j] == i;
    assert s.acquired[2 * i] == PinAt(2 * i) == Input(i);
    assert s.acquired[2 * i + 1] == PinAt(2 * i + 1) == Output(i);
  }

  /** Both files of a case that reached the judge are pinned, exactly until the job lets go of everything. */
  lemma TakenHeld(cases: nat, steps: seq<Step>, i: nat)
    requires Runs(Start(cases), steps) && i in After(Start(cases), steps).taken
    ensures var s := After(Start(cases), steps);
      && (Held(s, Input(i)) <==> !s.unwound) && (Held(s, Output(i)) <==> !s.unwound)
      && (!s.judge.Returned? ==> !s.unwound)
  {
    RunRight(Start(cases), steps);
    TakenAcquired(After(Start(cases), steps), i);
  }

  /** When the consumer is about to compare an accepted case, its expected output is pinned only until the release. */
  lemma ComparedHeld(cases: nat, steps: seq<Step>)
    requires Runs(Start(cases), steps)
    requires var s := After(Start(cases), steps); s.statusChan != [] && s.statusChan[0].Verdict?
    ensures var s := After(Start(cases), steps); Held(s, Output(s.statusChan[0].i)) <==> !s.unwound
  {
    RunRight(Start(cases), steps);
    VerdictTaken(After(Start(cases), steps));
    TakenHeld(cases, steps, After(Start(cases), steps).statusChan[0].i);
  }

  lemma VerdictTaken(s: State)
    requires StreamRight(s) && s.statusChan != [] && s.statusChan[0].Verdict?
    ensures s.statusChan[0].i in s.taken
  {
    var k := |s.heard|;
    assert Stream(s)[k] == s.statusChan[0];
    assert k < 2 * Judged(s) ==> Stream(s)[2 * (k / 2)] == Judging(s.taken[k / 2]);
  }

  /** The only case is downloaded and sent. */
  const SENT_ONE := Start(1).(
    producer := Ended, casesChan := [0],
    releaser := FunctionJoin(FunctionJoin(Nothing, Unlock(Input(0))), Unlock(Output(0))),
      acquired := [Input(0), Output(0)])

  lemma SendsOne()
    ensures Runs(Start(1), [Fetch(true), Fetch(true), Send, CloseCases])
    ensures After(Start(1), [Fetch(true), Fetch(true), Send, CloseCases]) == SENT_ONE
  {
    var steps := [Fetch(true), Fetch(true), Send, CloseCases];
    var s1 := Fetched(Start(1), true);
    var s2 := Fetched(s1, true);
    var s3 := Next(s2, Send);
    Unfold(Start(1), steps, s1);
    Unfold(s1, steps[1..], s2);
    Unfold(s2, steps[2..], s3);
    Unfold(s3, steps[3..], SENT_ONE);
  }

  /** It is judged and accepted. */
  const JUDGED_ONE := SENT_ONE.(casesChan := [], taken := [0], judge := Reading,
    statusChan := [Judging(0), Verdict(0, true)])

  lemma JudgesOne()
    ensures Runs(SENT_ONE, [Begin, Take, Announce, Finish(true)])
    ensures After(SENT_ONE, [Begin, Take, Announce, Finish(true)]) == JUDGED_ONE
  {
    var steps := [Begin, Take, Announce, Finish(true)];
    var s1 := Next(SENT_ONE, Begin);
    var s2 := Next(s1, Take);
    var s3 := Next(s2, Announce);
    Unfold(SENT_ONE, steps, s1);
    Unfold(s1, steps[1..], s2);
    Unfold(s2, steps[2..], s3);
    Unfold(s3, steps[3..], JUDGED_ONE);
  }

  lemma LetsGo()
    ensures Runs(JUDGED_ONE, [EndOfCases, SendTotal, Release, Receive])
    ensures var s := After(JUDGED_ONE, [EndOfCases, SendTotal, Release, Receive]);
      s.consumer.Listening? && s.statusChan == [Verdict(0, true), Total] &&
        s.acquired == s.released == [Input(0), Output(0)]
  {
    var steps := [EndOfCases, SendTotal, Release, Receive];
    var s1 := Next(JUDGED_ONE, EndOfCases);
    var s2 := Next(s1, SendTotal);
    var s3 := Next(s2, Release);
    var s4 := Next(s3, Receive);
    Unfold(JUDGED_ONE, steps, s1);
    Unfold(s1, steps[1..], s2);
    Unfold(s2, steps[2..], s3);
    Unfold(s3, steps[3..], s4);
  }

  /**
   * The release does not wait for the consumer: here the accepted verdict of the case is still unread, so its
   * output is still to be compared, and is no longer pinned.
   */
  lemma LateComparison() returns (steps: seq<Step>)
    ensures Runs(Start(1), steps)
    ensures var s := After(Start(1), steps);
      s.consumer.Listening? && s.statusChan == [Verdict(0, true), Total] && !Held(s, Output(0))
  {
    SendsOne();
    JudgesOne();
    LetsGo();
    var first, second := [Fetch(true), Fetch(true), Send, CloseCases], [Begin, Take, Announce, Finish(true)];
    var third := [EndOfCases, SendTotal, Release, Receive];
    OneAfterAnother(Start(1), first, second);
    OneAfterAnother(Start(1), first + second, third);
    steps := first + second + third;
  }

  lemma {:induction false} OneAfterAnother(s: State, first: seq<Step>, second: seq<Step>)
    requires Runs(s, first) && Runs(After(s, first), second)
    ensures Runs(s, first + second) && After(s, first + second) == After(After(s, first), second)
    decreases |first|
  {
    if first == [] {
      assert first + second == second;
    } else {
      assert (first + second)[1..] == first[1..] + second;
      OneAfterAnother(Next(s, first[0]), first[1..], second);
    }
  }

  lemma Unfold(s: State, steps: seq<Step>, s': State)
    requires steps != [] && Enabled(s, steps[0]) && s' == Next(s, steps[0])
    ensures Runs(s', steps[1..]) ==> Runs(s, steps) && After(s, steps) == After(s', steps[1..])
  {
  }

  // ---------------------------------------------------------------- reports

  /** The job is over: all three goroutines ended, and its pins were let go. */
  predicate Over(s: State) {
    s.unwound && (s.consumer.Silenced? || s.consumer.Responded?)
  }

  /** Unless the consumer crashes, the goroutines never wait for each other in a circle: some step can be taken. */
  lemma NeverStuck(cases: nat, steps: seq<Step>)
    requires Runs(Start(cases), steps)
    requires var s := After(Start(cases), steps); !Over(s) && !s.consumer.Crashed?
    ensures exists step :: Enabled(After(Start(cases), steps), step)
  {
    RunRight(Start(cases), steps);
    var step := SomeStep(After(Start(cases), steps));
  }

  lemma SomeStep(s: State) returns (step: Step)
    requires InOrder(s) && StreamRight(s) && !Over(s) && !s.consumer.Crashed?
    ensures Enabled(s, step)
  {
    if !s.producer.Ended? {
      NotBlocked(s);
      step := if s.producer.AtSend? then Send else if s.producer.Reported? then Mark
              else if s.producer.Marked? || s.producer == AtInput(s.cases) then CloseCases else Fetch(true);
    } else if s.statusChan != [] && s.consumer.Listening? {
      step := Receive;
    } else {
      step := match s.judge
        case Starting => Begin
        case Reading => if s.casesChan == [] then EndOfCases else Take
        case Taken(_) => Announce
        case Running(_) => Finish(true)
        case Totalling(_) => SendTotal
        case Returned(_) => Release;
    }
  }

  /**
   * How many final results a job sends: one, except when the judge refuses before the first case and a download
   * fails after the consumer passed that refusal on. A finished job in which neither happened judged every case.
   */
  lemma OneFinalResult(cases: nat, steps: seq<Step>)
    requires Runs(Start(cases), steps) && Over(After(Start(cases), steps))
    ensures var s := After(Start(cases), steps);
      && (s.reports == 1 || s.reports == 2)
      && (s.reports == 2 <==> Failed(s) && s.consumer.Responded?)
      && (s.reports == 2 ==> Refused(s))
      && (!Failed(s) && !Refused(s) ==> |s.taken| == cases && forall i :: 0 <= i < cases ==> s.taken[i] == i)
  {
    RunRight(Start(cases), steps);
    var s := After(Start(cases), steps);
    assert !Refused(s) ==> Sent(s) == s.taken;
  }

  /** The channel from judge to consumer: never more than ten messages, and room while there are fewer. */
  lemma {:induction false} StatusRoom(s: State, steps: seq<Step>)
    requires |s.statusChan| <= 10 && Runs(s, steps)
    ensures var s' := After(s, steps);
      && |s'.statusChan| <= 10
      && (!s'.consumer.Crashed? && s'.judge.Taken? ==> (Enabled(s', Announce) <==> |s'.statusChan| < 10))
      && (!s'.consumer.Crashed? && s'.judge.Running? ==> (Enabled(s', Finish(true)) <==> |s'.statusChan| < 10))
      && (!s'.consumer.Crashed? && s'.judge.Totalling? ==> (Enabled(s', SendTotal) <==> |s'.statusChan| < 10))
    decreases |steps|
  {
    if steps != [] {
      StatusRoom(Next(s, steps[0]), steps[1..]);
    }
  }

  /** The judge refused, and the consumer passed that on. */
  const REFUSED := Start(1).(judge := Returned(true), heard := [Total], consumer := Responded, reports := 1)

  lemma Refuses()
    ensures Runs(Start(1), [Refuse, SendTotal, Receive]) && After(Start(1), [Refuse, SendTotal, Receive]) == REFUSED
  {
    var steps := [Refuse, SendTotal, Receive];
    var s1 := Next(Start(1), Refuse);
    var s2 := Next(s1, SendTotal);
    Unfold(Start(1), steps, s1);
    Unfold(s1, steps[1..], s2);
    Unfold(s2, steps[2..], REFUSED);
  }

  lemma FailsAfterwards()
    ensures Runs(REFUSED, [Fetch(false), Mark, CloseCases, Release])
    ensures var s := After(REFUSED, [Fetch(false), Mark, CloseCases, Release]); Over(s) && s.reports == 2
  {
    var steps := [Fetch(false), Mark, CloseCases, Release];
    var s1 := Fetched(REFUSED, false);
    var s2 := Next(s1, Mark);
    var s3 := Next(s2, CloseCases);
    var s4 := Next(s3, Release);
    Unfold(REFUSED, steps, s1);
    Unfold(s1, steps[1..], s2);
    Unfold(s2, steps[2..], s3);
    Unfold(s3, steps[3..], s4);
  }

  lemma TwoFinalResults() returns (steps: seq<Step>)
    ensures Runs(Start(1), steps)
    ensures var s := After(Start(1), steps); Over(s) && s.reports == 2
  {
    Refuses();
    FailsAfterwards();
    var first, second := [Refuse, SendTotal, Receive], [Fetch(false), Mark, CloseCases, Release];
    OneAfterAnother(Start(1), first, second);
    steps := first + second;
  }

  // ---------------------------------------------------------------- the whole job

  datatype ProblemType = PerfectMatch | RunningCode | Interactive

  /** What goes well outside, up to the start of the judge. */
  datatype Env = Env(
    problem: ProblemType,
    code: bool,
    checker: bool,
    language: bool,
    codeOpens: bool,
    checkerReads: bool,
    checkerParses: bool,
    checkerLanguage: bool)

  /** The job gets as far as judging. */
  predicate Admitted(env: Env) {
    && env.problem != Interactive && env.code && env.language && env.codeOpens
    && (env.problem == RunningCode ==> env.checker && env.checkerReads && env.checkerParses && env.checkerLanguage)
  }

  /** What is deferred on the way, to be done last first at whatever exit the job takes. */
  datatype Deferred = OneFinish | UnlockPin(pin: Pin) | RunReleaser

  /** What leaving a job does: pins let go, and the slot handed back to the dispatcher. */
  datatype Event = Unlocked(pin: Pin) | Finished

  function UnlockAll(pins: seq<Pin>): (r: seq<Event>)
    ensures |r| == |pins| && forall i :: 0 <= i < |pins| ==> r[i] == Unlocked(pins[i])
  {
    seq(|pins|, i requires 0 <= i < |pins| => Unlocked(pins[i]))
  }

  /** `released` is what the releaser of the cases unlocks. */
  function Leave(deferred: seq<Deferred>, released: seq<Pin>): seq<Event> {
    if deferred == [] then [] else
      var last := deferred[|deferred| - 1];
      (match last
       case OneFinish => [Finished]
       case UnlockPin(pin) => [Unlocked(pin)]
       case RunReleaser => UnlockAll(released)) + Leave(deferred[..|deferred| - 1], released)
  }

  /** Leaving now unlocks exactly `pins`, then hands the slot back. */
  predicate Leaves(deferred: seq<Deferred>, released: seq<Pin>, pins: seq<Pin>) {
    Leave(deferred, released) == UnlockAll(pins) + [Finished]
  }

  lemma DeferUnlock(deferred: seq<Deferred>, released: seq<Pin>, pins: seq<Pin>, pin: Pin)
    requires Leaves(deferred, released, pins)
    ensures Leaves(deferred + [UnlockPin(pin)], released, [pin] + pins)
  {
    var more := deferred + [UnlockPin(pin)];
    assert more[..|more| - 1] == deferred;
    assert UnlockAll([pin] + pins) == [Unlocked(pin)] + UnlockAll(pins);
  }

  lemma DeferReleaser(deferred: seq<Deferred>, released: seq<Pin>, pins: seq<Pin>)
    requires Leaves(deferred, released, pins)
    ensures Leaves(deferred + [RunReleaser], released, released + pins)
  {
    var more := deferred + [RunReleaser];
    assert more[..|more| - 1] == deferred;
    assert UnlockAll(released + pins) == UnlockAll(released) + UnlockAll(pins);
  }

  /** Every pin of the job is let go exactly once, and the slot is handed back once, after all of them. */
  ghost predicate Balanced(acquired: seq<Pin>, events: seq<Event>) {
    && Distinct(acquired)
    && exists pins: seq<Pin> :: multiset(pins) == multiset(acquired) && events == UnlockAll(pins) + [Finished]
  }

  lemma AllDistinct(first: seq<Pin>, second: seq<Pin>)
    requires Distinct(first) && CasePins(second)
    requires forall pin :: pin in first ==> pin.Code? || pin.Checker?
    ensures Distinct(first + second)
  {
    PinsDistinct(second);
    forall i, j | 0 <= i < |first| && 0 <= j < |second| ensures first[i] != second[j] {
      assert first[i] in first && second[j] == PinAt(j);
    }
  }

  /** Leaving now lets go exactly of what was acquired. */
  ghost predicate Covers(acquired: seq<Pin>, deferred: seq<Deferred>, released: seq<Pin>) {
    exists pins :: multiset(pins) == multiset(acquired) && Leaves(deferred, released, pins)
  }

  lemma CoverNothing(released: seq<Pin>)
    ensures Covers([], [OneFinish], released)
  {
    var none: seq<Pin> := [];
    assert Leave([OneFinish][..0], released) == [];
    assert Leaves([OneFinish], released, none) && multiset(none) == multiset([]);
  }

  lemma CoverPin(acquired: seq<Pin>, deferred: seq<Deferred>, released: seq<Pin>, pin: Pin)
    requires Covers(acquired, deferred, released)
    ensures Covers(acquired + [pin], deferred + [UnlockPin(pin)], released)
  {
    var pins :| multiset(pins) == multiset(acquired) && Leaves(deferred, released, pins);
    DeferUnlock(deferred, released, pins, pin);
    assert multiset([pin] + pins) == multiset(acquired + [pin]);
  }

  lemma CoverCases(acquired: seq<Pin>, deferred: seq<Deferred>, released: seq<Pin>)
    requires Covers(acquired, deferred, released)
    ensures Covers(acquired + released, deferred + [RunReleaser], released)
  {
    var pins :| multiset(pins) == multiset(acquired) && Leaves(deferred, released, pins);
    DeferReleaser(deferred, released, pins);
    assert multiset(released + pins) == multiset(acquired + released);
  }

  /** The source code and, with a checker program, the checker: as far as their downloads went. */
  function OwnPins(env: Env): seq<Pin> {
    if env.problem == Interactive || !env.code then []
    else if env.problem == RunningCode && env.checker then [Code, Checker]
    else [Code]
  }

  lemma OwnDistinct(env: Env)
    ensures Distinct(OwnPins(env)) && forall pin :: pin in OwnPins(env) ==> pin.Code? || pin.Checker?
  {
  }

  lemma EndOfRun(cases: nat, steps: seq<Step>)
    requires Runs(Start(cases), steps) && Over(After(Start(cases), steps))
    ensures CasePins(After(Start(cases), steps).acquired)
    ensures After(Start(cases), steps).released == After(Start(cases), steps).acquired
  {
    RunRight(Start(cases), steps);
  }

  /** The way to the judge, with its exits. */
  method Prepare(env: Env, ghost released: seq<Pin>)
    returns (acquired: seq<Pin>, deferred: seq<Deferred>, admitted: bool)
    ensures admitted <==> Admitted(env)
    ensures admitted <==>
      || (env.problem == PerfectMatch && env.code && env.language && env.codeOpens)
      || (env == Env(RunningCode, true, true, true, true, true, true, true))
    ensures acquired == OwnPins(env) && Covers(acquired, deferred, released)
    ensures acquired ==
      (if env.problem != Interactive && env.code then [Code] else []) +
        (if env.problem == RunningCode && env.code && env.checker then [Checker] else [])
  {
    hide Covers;
    acquired, deferred := [], [OneFinish];
    CoverNothing(released);
    if env.problem == Interactive || !env.code {
      return acquired, deferred, false;
    }
    CoverPin(acquired, deferred, released, Code);
    acquired, deferred := acquired + [Code], deferred + [UnlockPin(Code)];
    if env.problem == RunningCode {
      if !env.checker {
        return acquired, deferred, false;
      }
      CoverPin(acquired, deferred, released, Checker);
      acquired, deferred := acquired + [Checker], deferred + [UnlockPin(Checker)];
    }
    if !env.language || !env.codeOpens {
      return acquired, deferred, false;
    }
    if env.problem == RunningCode && (!env.checkerReads || !env.checkerParses || !env.checkerLanguage) {
      return acquired, deferred, false;
    }
    return acquired, deferred, true;
  }

  /**
   * A whole job, whatever goes wrong and however the goroutines interleave (`steps`, up to the end of all of them or
   * to a crash). Its pins are balanced, and a job that does not get as far as judging sends exactly one result. A
   * crash ends the process: nothing that was deferred is done.
   */
  method Run(env: Env, cases: nat, steps: seq<Step>) returns (acquired: seq<Pin>, events: seq<Event>, reports: nat)
    requires Runs(Start(cases), steps)
    requires Over(After(Start(cases), steps)) || After(Start(cases), steps).consumer.Crashed?
    ensures acquired == OwnPins(env) + (if Admitted(env) then After(Start(cases), steps).acquired else [])
    ensures
      if Admitted(env) && After(Start(cases), steps).consumer.Crashed? then events == []
      else Balanced(acquired, events)
    ensures reports == if Admitted(env) then After(Start(cases), steps).reports else 1
  {
    hide Leave, Distinct, Admitted, OwnPins, Runs, After;
    var end := After(Start(cases), steps);
    var deferred, admitted;
    acquired, deferred, admitted := Prepare(env, end.released);
    OwnDistinct(env);
    if admitted && end.consumer.Crashed? {
      return acquired + end.acquired, [], end.reports;
    }
    if admitted {
      EndOfRun(cases, steps);
      CoverCases(acquired, deferred, end.released);
      AllDistinct(acquired, end.acquired);
      acquired, deferred := acquired + end.acquired, deferred + [RunReleaser];
      reports := end.reports;
    } else {
      reports := 1;
    }
    events := Leave(deferred, end.released);
  }
}
