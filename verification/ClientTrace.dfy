/** What a client run does, in order, and what can be read off that history. */
module ClientTrace {
  import opened Wrappers

  datatype TestState =
    | TestStart | TestRunning | TestEnd | ParamExchange | CreateStreams | ServerTerminate | ClientTerminate
    | ExchangeResults | DisplayResults | IperfStart | IperfDone | AccessDenied | ServerError

  /** One interval the reporter collected. */
  datatype Sample = Sample(id: nat)

  datatype StateRead = State(state: TestState) | Eof | ReadError

  /** The answer to one await; each await looks at the fields it asks about. */
  datatype Answer = Answer(
    interrupt: bool,      // the interrupt watch fired
    limitReached: bool,   // the test's end condition was met
    read: StateRead,      // what the control socket gave
    ok: bool,             // the call succeeded, and so did the synchronous calls that follow it
    clock: nat,           // the wall clock, in milliseconds
    elapsed: real,        // seconds since the reporter started
    samples: seq<Sample>) // what the reporter collected meanwhile

  /** The options of a run that its control flow depends on. */
  datatype Config = Config(
    json: bool,           // -J or --json-stream: the reporter keeps its samples
    interruptible: bool,  // an interrupt watch is wired
    reporting: bool,      // the interval is not negative
    udp: bool,
    bound: bool,          // -B: a source address to resolve
    total: nat,           // streams per CreateStreams
    duration: real)       // the requested -t

  predicate Interrupts(c: Config, a: Answer) {
    a.interrupt && c.interruptible
  }

  /** How far the run has progressed, with the clock a dump made now carries. */
  datatype RunStage = PreTestStart(connectMillis: nat) | Started(startMillis: nat) {
    function TimestampMillis(): nat {
      match this
      case PreTestStart(c) => c
      case Started(s) => s
    }
  }

  /** The parts of a report the run machine decides. */
  datatype Report = Report(
    intervals: seq<Sample>, stage: RunStage, secs: real, peerHalf: bool, bareEnd: bool, hasError: bool)

  datatype Termination = Completed | Interrupted | ServerTerminated | ServerErrored

  datatype RunError =
    | ControlSocketClosed | RecvResultsFailed | ServerBusy | ReadFailed | SendFailed | SetupFailed
    | MissingResults | NotDisplayed

  datatype Action =
    | Wait(answer: Answer)
    | Handle(state: TestState)
    | Connected(clock: nat)
    | TestStarted(clock: nat)
    | Spawn(task: nat)
    | StopData
    | SetDone
    | Grace
    | Abort(task: nat)
    | Join(task: nat)
    | Send(sent: TestState, delivered: bool)
    | ReadResults
    | Drain(report: Report)
    | DropControl

  /** A history, the latest action last. */
  datatype Trace = Empty | Log(before: Trace, last: Action)

  predicate Last(t: Trace, a: Action) {
    t.Log? && t.last == a
  }

  // ---- Stream tasks ----

  function Spawned(t: Trace): set<nat> {
    if t.Empty? then {} else Spawned(t.before) + if t.last.Spawn? then {t.last.task} else {}
  }

  function Aborted(t: Trace): set<nat> {
    if t.Empty? then {} else Aborted(t.before) + if t.last.Abort? then {t.last.task} else {}
  }

  function Joined(t: Trace): set<nat> {
    if t.Empty? then {} else Joined(t.before) + if t.last.Join? then {t.last.task} else {}
  }

  /** The end-of-data cleanup of `run_test` ran. */
  predicate Stopped(t: Trace) {
    t.Log? && (t.last.StopData? || Stopped(t.before))
  }

  predicate DoneIsSet(t: Trace) {
    t.Log? && (t.last.StopData? || t.last.SetDone? || DoneIsSet(t.before))
  }

  predicate Graced(t: Trace) {
    t.Log? && (t.last.Grace? || Graced(t.before))
  }

  predicate ControlDropped(t: Trace) {
    t.Log? && (t.last.DropControl? || ControlDropped(t.before))
  }

  /**
   `done` comes before every abort, an abort before the join of the same task, tasks are distinct, and
   nothing comes after the control socket is dropped.
  */
  predicate Ordered(t: Trace) {
    t.Log? ==>
      && Ordered(t.before)
      && !ControlDropped(t.before)
      && (t.last.Spawn? ==> t.last.task !in Spawned(t.before))
      && (t.last.Abort? ==> DoneIsSet(t.before))
      && (t.last.Join? ==> t.last.task in Aborted(t.before))
  }

  /** How many tasks have been spawned. */
  function Tasks(t: Trace): nat {
    if t.Empty? then 0 else Tasks(t.before) + if t.last.Spawn? then 1 else 0
  }

  /** Everything heard, in order. */
  function Answers(t: Trace): seq<Answer> {
    if t.Empty? then [] else Answers(t.before) + if t.last.Wait? then [t.last.answer] else []
  }

  predicate NoLeak(t: Trace) {
    Spawned(t) <= Aborted(t) + Joined(t)
  }

  // ---- Dumps and control messages ----

  function Drains(t: Trace): nat {
    if t.Empty? then 0 else Drains(t.before) + if t.last.Drain? then 1 else 0
  }

  function Dumped(t: Trace): Option<Report> {
    if t.Empty? then None else if t.last.Drain? then Some(t.last.report) else Dumped(t.before)
  }

  function Attempts(t: Trace, s: TestState): nat {
    if t.Empty? then 0 else Attempts(t.before, s) + if t.last.Send? && t.last.sent == s then 1 else 0
  }

  function LastSend(t: Trace): Option<(TestState, bool)> {
    if t.Empty? then None
    else if t.last.Send? then Some((t.last.sent, t.last.delivered))
    else LastSend(t.before)
  }

  function LastHandled(t: Trace): Option<TestState> {
    if t.Empty? then None else if t.last.Handle? then Some(t.last.state) else LastHandled(t.before)
  }

  predicate ResultsRead(t: Trace) {
    t.Log? && (t.last.ReadResults? || ResultsRead(t.before))
  }

  // ---- The stage ----

  /** The stage after the stamps of a history; an on_connect stamp never demotes it. */
  function StageOf(t: Trace): RunStage {
    if t.Empty? then PreTestStart(0)
    else if t.last.TestStarted? then Started(t.last.clock)
    else if t.last.Connected? && StageOf(t.before).PreTestStart? then PreTestStart(t.last.clock)
    else StageOf(t.before)
  }

  function LastTestStart(t: Trace): Option<nat> {
    if t.Empty? then None else if t.last.TestStarted? then Some(t.last.clock) else LastTestStart(t.before)
  }

  function LastConnect(t: Trace): Option<nat> {
    if t.Empty? then None else if t.last.Connected? then Some(t.last.clock) else LastConnect(t.before)
  }

  /** The timestamp of a dump: the last TestStart clock, else the last on_connect clock, else 0. */
  lemma {:induction false} DumpTimestamp(t: Trace)
    ensures StageOf(t).Started? <==> LastTestStart(t).Some?
    ensures StageOf(t).TimestampMillis()
         == match LastTestStart(t)
            case Some(c) => c
            case None => match LastConnect(t) case Some(c) => c case None => 0
  {
    if t.Log? {
      DumpTimestamp(t.before);
    }
  }

  predicate Prefix(t: Trace, u: Trace) {
    t == u || (u.Log? && Prefix(t, u.before))
  }

  /** Once started, a run stays started: only later TestStarts move the clock. */
  lemma {:induction false} StaysStarted(t: Trace, u: Trace)
    requires Prefix(t, u) && StageOf(t).Started?
    ensures StageOf(u).Started?
  {
    if t != u {
      StaysStarted(t, u.before);
    }
  }

  /** In an ordered history every abort stands after `done`, and the control socket goes last. */
  lemma {:induction false} OrderedAborts(t: Trace, u: Trace)
    requires Prefix(t, u) && Ordered(u) && t.Log?
    ensures t.last.Abort? ==> DoneIsSet(t.before)
    ensures t.last.Join? ==> t.last.task in Aborted(t.before)
    ensures t.last.DropControl? ==> t == u
  {
    if t != u {
      OrderedAborts(t, u.before);
      if t.last.DropControl? {
        DroppedStays(t, u.before);
      }
    }
  }

  lemma {:induction false} DroppedStays(t: Trace, u: Trace)
    requires Prefix(t, u) && ControlDropped(t)
    ensures ControlDropped(u)
  {
    if t != u {
      DroppedStays(t, u.before);
    }
  }

  // ---- The data phase ----

  predicate EndsData(c: Config, a: Answer) {
    a.limitReached || Interrupts(c, a) || !a.read.State?
    || a.read.state == ServerTerminate || a.read.state == ServerError
  }

  /** The control socket was lost during the data phase. */
  predicate LosesControl(c: Config, a: Answer) {
    !a.limitReached && !Interrupts(c, a) && !a.read.State?
  }

  // ---- The protocol ----

  /** What a run ends with. */
  datatype Ending = EndedAs(termination: Termination) | FailedAs(error: RunError)

  /** The control states a run sends; an interrupt of the data phase keeps no peer half in its dump. */
  datatype Message = TellEnd | TellInterrupt(inData: bool) | TellDone

  function StateOf(m: Message): TestState {
    match m
    case TellEnd => TestState.TestEnd
    case TellInterrupt(_) => ClientTerminate
    case TellDone => TestState.IperfDone
  }

  /** The occasions of a dump. */
  datatype DumpKind = Summary | WaitInterrupted | DataInterrupted | ServerEnd | ErrorRelay | ControlLost | BadResults

  /**
   Where a run stands: at an await (the state wait, a send, a socket call, a read, the data phase), owing
   one action (`To...`), over, or closing down from there.  `Stuck` is where no run gets.
  */
  datatype Phase =
    | AtState
    | ToHandle(state: TestState, clock: nat)
    | ParamSend
    | ToConnect(clock: nat)
    | ToStart(clock: nat)
    | Resolve(left: nat)
    | Opening(spawned: nat, left: nat)
    | ToSpawn(spawned: nat)
    | Gate
    | ResultsSend
    | ResultsWait
    | ToKeepResults
    | Watch
    | ToStop(heard: Answer)
    | DataGrace(heard: Answer)
    | ReporterJoin(heard: Answer)
    | Sending(message: Message)
    | ToSend(message: Message, delivered: bool)
    | Payload
    | ToDump(kind: DumpKind)
    | Over(ending: Ending)
    | Closing(at: Phase)
    | Stuck

  predicate Awaits(p: Phase) {
    p.AtState? || p.ParamSend? || p.Resolve? || p.Opening? || p.Gate? || p.ResultsSend? || p.ResultsWait?
    || p.Watch? || p.DataGrace? || p.ReporterJoin? || p.Sending? || p.Payload?
  }

  /** The awaits during which the reporter collects. */
  predicate Gathers(p: Phase) {
    p.Watch? || p.DataGrace? || p.ReporterJoin?
  }

  /** Socket calls per stream: connect and the cookie, or bind, connect and the handshake. */
  function CallsPerStream(c: Config): nat {
    if c.udp then 3 else 2
  }

  function NextStream(spawned: nat, c: Config): Phase {
    if spawned < c.total then Opening(spawned, CallsPerStream(c))
    else if c.udp then Gate
    else AtState
  }

  function StartSetup(c: Config): Phase {
    if c.udp then Resolve(if c.bound then 2 else 1) else NextStream(0, c)
  }

  /** A control connection found lost: a dump in the JSON modes only. */
  function LosePhase(c: Config): Phase {
    if c.json then ToDump(ControlLost) else Over(FailedAs(ControlSocketClosed))
  }

  /** What the state wait leads to. */
  function AfterState(a: Answer, c: Config): Phase {
    if Interrupts(c, a) then Sending(TellInterrupt(false))
    else
      match a.read
      case State(s) => ToHandle(s, a.clock)
      case Eof => LosePhase(c)
      case ReadError => Over(FailedAs(ReadFailed))
  }

  /** What a handled state starts. */
  function AfterHandle(s: TestState, clock: nat, results: bool, c: Config): Phase {
    match s
    case ParamExchange => ParamSend
    case CreateStreams => StartSetup(c)
    case TestStart => ToStart(clock)
    case TestRunning => Watch
    case ExchangeResults => ResultsSend
    case DisplayResults => ToDump(Summary)
    case IperfDone => Over(FailedAs(if results then NotDisplayed else MissingResults))
    case AccessDenied => Over(FailedAs(ServerBusy))
    case ServerError => Payload
    case ServerTerminate => ToDump(ServerEnd)
    case _ => AtState
  }

  /** What the cleaned-up data phase leads to, by the answer that ended it. */
  function AfterData(heard: Answer, c: Config): Phase {
    if heard.limitReached then Sending(TellEnd)
    else if Interrupts(c, heard) then Sending(TellInterrupt(true))
    else if heard.read == State(ServerTerminate) then ToDump(ServerEnd)
    else if heard.read == State(ServerError) then Payload
    else LosePhase(c)
  }

  function AfterSend(m: Message, delivered: bool, results: bool): Phase {
    match m
    case TellEnd => if delivered then AtState else Over(FailedAs(SendFailed))
    case TellInterrupt(inData) => ToDump(if inData then DataInterrupted else WaitInterrupted)
    case TellDone =>
      if !delivered then Over(FailedAs(SendFailed))
      else if results then Over(EndedAs(Completed))
      else Over(FailedAs(MissingResults))
  }

  function AfterDump(k: DumpKind): Phase {
    match k
    case Summary => Sending(TellDone)
    case WaitInterrupted | DataInterrupted => Over(EndedAs(Interrupted))
    case ServerEnd => Over(EndedAs(ServerTerminated))
    case ErrorRelay => Over(EndedAs(ServerErrored))
    case ControlLost => Over(FailedAs(ControlSocketClosed))
    case BadResults => Over(FailedAs(RecvResultsFailed))
  }

  /** What an answer leads to, by what it answers. */
  function AfterWait(p: Phase, a: Answer, c: Config): Phase {
    match p
    case AtState => AfterState(a, c)
    case ParamSend => if a.ok then ToConnect(a.clock) else Over(FailedAs(SendFailed))
    case Resolve(left) =>
      if !a.ok then Over(FailedAs(SetupFailed)) else if left <= 1 then NextStream(0, c) else Resolve(left - 1)
    case Opening(n, left) =>
      if !a.ok then Over(FailedAs(SetupFailed)) else if left <= 1 then ToSpawn(n) else Opening(n, left - 1)
    case Gate => AtState
    case ResultsSend => if a.ok then ResultsWait else Over(FailedAs(SendFailed))
    case ResultsWait =>
      if Interrupts(c, a) then Sending(TellInterrupt(false))
      else if a.ok then ToKeepResults
      else if c.json then ToDump(BadResults)
      else Over(FailedAs(RecvResultsFailed))
    case Watch => if EndsData(c, a) then ToStop(a) else Watch
    case DataGrace(heard) => if c.reporting then ReporterJoin(heard) else AfterData(heard, c)
    case ReporterJoin(heard) => AfterData(heard, c)
    case Sending(m) => ToSend(m, a.ok)
    case Payload => ToDump(ErrorRelay)
    case _ => Stuck
  }

  /** What an owed action leads to. */
  function AfterAct(p: Phase, b: Trace, a: Action, c: Config): Phase {
    match p
    case ToHandle(s, clock) => if a == Handle(s) then AfterHandle(s, clock, ResultsRead(b), c) else Stuck
    case ToConnect(clock) => if a == Connected(clock) then AtState else Stuck
    case ToStart(clock) => if a == TestStarted(clock) then AtState else Stuck
    case ToSpawn(n) => if a == Spawn(Tasks(b)) then NextStream(n + 1, c) else Stuck
    case ToKeepResults => if a == ReadResults then AtState else Stuck
    case ToStop(heard) => if a == StopData then DataGrace(heard) else Stuck
    case ToSend(m, delivered) => if a == Send(StateOf(m), delivered) then AfterSend(m, delivered, ResultsRead(b)) else Stuck
    case ToDump(k) => if a.Drain? then AfterDump(k) else Stuck
    case _ => Stuck
  }

  predicate TearsDown(a: Action) {
    a.Wait? || a.Grace? || a.Abort? || a.Join? || a.SetDone? || a.DropControl?
  }

  /** One step; the teardown may start where a run is over, or waits and is dropped. */
  function After(p: Phase, b: Trace, a: Action, c: Config): Phase {
    if p.Closing? then (if TearsDown(a) then p else Stuck)
    else if a.SetDone? then (if p.Over? || Awaits(p) then Closing(p) else Stuck)
    else if a.Wait? then AfterWait(p, a.answer, c)
    else AfterAct(p, b, a, c)
  }

  /** Where a run stands after a history: the protocol, as a fold over everything heard and done. */
  function PhaseOf(t: Trace, c: Config): Phase {
    if t.Empty? then AtState else After(PhaseOf(t.before, c), t.before, t.last, c)
  }

  /** A history some run may have: each await is where the protocol has one, each action the one it owes. */
  predicate Follows(t: Trace, c: Config) {
    PhaseOf(t, c) != Stuck
  }

  // ---- Samples, measures and dumps ----

  /** Everything the reporter collected while the run awaited. */
  function Collected(t: Trace, c: Config): seq<Sample> {
    if t.Empty? then []
    else Collected(t.before, c)
         + if t.last.Wait? && c.json && c.reporting && Gathers(PhaseOf(t.before, c)) then t.last.answer.samples else []
  }

  /** The measured test time: the requested one until a data phase has ended other than by losing control. */
  function MeasuredSecs(t: Trace, c: Config): real {
    if t.Empty? then c.duration
    else
      var p := PhaseOf(t.before, c);
      if t.last.StopData? && p.ToStop? && !LosesControl(c, p.heard) then p.heard.elapsed
      else MeasuredSecs(t.before, c)
  }

  /** The report a dump makes of a history, by its occasion. */
  function DumpOf(k: DumpKind, t: Trace, c: Config): Report {
    var secs := if k.WaitInterrupted? && !StageOf(t).Started? then 0.0 else MeasuredSecs(t, c);
    var peerHalf := (k.Summary? || k.WaitInterrupted?) && ResultsRead(t);
    Report(Collected(t, c), StageOf(t), secs, peerHalf, k.ErrorRelay? || k.ControlLost? || k.BadResults?, !k.Summary?)
  }

  /** Every dump is the report of its moment. */
  predicate Reported(t: Trace, c: Config) {
    t.Log? ==>
      && Reported(t.before, c)
      && (t.last.Drain? ==> PhaseOf(t.before, c).ToDump? && t.last.report == DumpOf(PhaseOf(t.before, c).kind, t.before, c))
  }
}
