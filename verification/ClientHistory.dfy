/**
 What every history that follows the protocol has in common, and what its end says about it: at most one
 dump, which misses nothing; which answer or state each ending comes from; and that the answers alone
 decide the history.
*/
module ClientHistory {
  import opened ClientTrace
  import opened Wrappers

  // ---- What is read off a history ----

  /** The last answer heard before the run closed down, and the await it answered. */
  function LastHeard(t: Trace, c: Config): Option<(Phase, Answer)> {
    if t.Empty? then None
    else if t.last.Wait? && !PhaseOf(t.before, c).Closing? then Some((PhaseOf(t.before, c), t.last.answer))
    else LastHeard(t.before, c)
  }

  /** The interrupt watch fired, where there is one. */
  predicate Fires(c: Config, a: Answer) {
    c.interruptible && a.interrupt
  }

  /** An interrupt fired at an await that polls for it: the state wait, the results read, the data phase. */
  predicate Polls(p: Phase, a: Answer) {
    p.AtState? || p.ResultsWait? || (p.Watch? && !a.limitReached)
  }

  predicate InterruptHeard(t: Trace, c: Config) {
    t.Log? &&
    (InterruptHeard(t.before, c)
     || (t.last.Wait? && Fires(c, t.last.answer) && Polls(PhaseOf(t.before, c), t.last.answer)))
  }

  /** The handled states after which no other is waited for. */
  predicate Ends(s: Option<TestState>) {
    s in {Some(DisplayResults), Some(IperfDone), Some(AccessDenied), Some(ServerError), Some(ServerTerminate)}
  }

  // ---- The state being handled ----

  predicate HandledIn(p: Phase, h: Option<TestState>) {
    match p
    case AtState | ToHandle(_, _) => !Ends(h)
    case ParamSend | ToConnect(_) => h == Some(ParamExchange)
    case ToStart(_) => h == Some(TestStart)
    case Resolve(_) | Opening(_, _) | ToSpawn(_) | Gate => h == Some(CreateStreams)
    case ResultsSend | ResultsWait | ToKeepResults => h == Some(ExchangeResults)
    case Watch | ToStop(_) | DataGrace(_) | ReporterJoin(_) => h == Some(TestRunning)
    case Sending(m) => MessageIn(m, h)
    case ToSend(m, _) => MessageIn(m, h)
    case Payload => h == Some(ServerError) || h == Some(TestRunning)
    case ToDump(k) => DumpIn(k, h)
    case Over(e) => OverIn(e, h)
    case Closing(at) => HandledIn(at, h)
    case Stuck => true
  }

  predicate MessageIn(m: Message, h: Option<TestState>) {
    match m
    case TellEnd => h == Some(TestRunning)
    case TellInterrupt(inData) => !Ends(h) && (inData ==> h == Some(TestRunning))
    case TellDone => h == Some(DisplayResults)
  }

  predicate DumpIn(k: DumpKind, h: Option<TestState>) {
    match k
    case Summary => h == Some(DisplayResults)
    case WaitInterrupted => !Ends(h)
    case DataInterrupted => h == Some(TestRunning)
    case ServerEnd => h == Some(ServerTerminate) || h == Some(TestRunning)
    case ErrorRelay => h == Some(ServerError) || h == Some(TestRunning)
    case ControlLost => !Ends(h)
    case BadResults => h == Some(ExchangeResults)
  }

  predicate OverIn(e: Ending, h: Option<TestState>) {
    match e
    case EndedAs(Completed) => h == Some(DisplayResults)
    case EndedAs(Interrupted) => !Ends(h)
    case EndedAs(ServerTerminated) => h == Some(ServerTerminate) || h == Some(TestRunning)
    case EndedAs(ServerErrored) => h == Some(ServerError) || h == Some(TestRunning)
    case FailedAs(ServerBusy) => h == Some(AccessDenied)
    case FailedAs(NotDisplayed) => h == Some(IperfDone)
    case FailedAs(MissingResults) => h == Some(IperfDone) || h == Some(DisplayResults)
    case FailedAs(SendFailed) =>
      h == Some(ParamExchange) || h == Some(ExchangeResults) || h == Some(TestRunning) || h == Some(DisplayResults)
    case FailedAs(SetupFailed) => h == Some(CreateStreams)
    case FailedAs(RecvResultsFailed) => h == Some(ExchangeResults)
    case FailedAs(ControlSocketClosed) => !Ends(h)
    case FailedAs(ReadFailed) => !Ends(h)
  }

  /** At every point of a run, the state being handled is one the point belongs to. */
  lemma {:induction false} HandledState(t: Trace, c: Config)
    requires Follows(t, c)
    ensures HandledIn(PhaseOf(t, c), LastHandled(t))
  {
    if t.Log? {
      HandledState(t.before, c);
      HandledStep(PhaseOf(t.before, c), t.before, t.last, c);
    }
  }

  lemma HandledStep(p: Phase, b: Trace, a: Action, c: Config)
    requires HandledIn(p, LastHandled(b)) && After(p, b, a, c) != Stuck
    ensures HandledIn(After(p, b, a, c), LastHandled(Log(b, a)))
  {
    hide AfterWait, AfterAct, HandledIn;
    if p.Closing? || a.SetDone? {
      HandledClosing(p, LastHandled(b));
    } else if a.Wait? {
      HandledWait(p, a.answer, c, LastHandled(b));
    } else {
      HandledAct(p, b, a, c);
    }
  }

  lemma HandledClosing(p: Phase, h: Option<TestState>)
    ensures HandledIn(Closing(p), h) == HandledIn(p, h)
  {
  }

  lemma HandledWait(p: Phase, a: Answer, c: Config, h: Option<TestState>)
    requires HandledIn(p, h)
    ensures HandledIn(AfterWait(p, a, c), h)
  {
    hide AfterData, AfterState, HandledIn;
    match p
    case AtState => HandledHeard(a, c, h);
    case DataGrace(heard) => HandledGrace(p, a, c, h);
    case ReporterJoin(heard) => HandledGrace(p, a, c, h);
    case _ => HandledCall(p, a, c, h);
  }

  lemma HandledHeard(a: Answer, c: Config, h: Option<TestState>)
    requires HandledIn(AtState, h)
    ensures HandledIn(AfterState(a, c), h)
  {
  }

  lemma HandledGrace(p: Phase, a: Answer, c: Config, h: Option<TestState>)
    requires HandledIn(p, h) && (p.DataGrace? || p.ReporterJoin?)
    ensures HandledIn(AfterWait(p, a, c), h)
  {
    hide AfterData;
    HandledData(p.heard, c);
  }

  lemma HandledCall(p: Phase, a: Answer, c: Config, h: Option<TestState>)
    requires HandledIn(p, h) && !p.AtState? && !p.DataGrace? && !p.ReporterJoin?
    ensures HandledIn(AfterWait(p, a, c), h)
  {
  }

  lemma HandledData(heard: Answer, c: Config)
    ensures HandledIn(AfterData(heard, c), Some(TestRunning))
  {
  }

  lemma HandledAct(p: Phase, b: Trace, a: Action, c: Config)
    requires HandledIn(p, LastHandled(b)) && AfterAct(p, b, a, c) != Stuck
    ensures HandledIn(AfterAct(p, b, a, c), LastHandled(Log(b, a)))
  {
  }

  // ---- Dumps, messages and interrupts ----

  /** The figures of a history that the counts below are about. */
  datatype Counts = Counts(dumps: nat, terminates: nat, dones: nat, interrupted: bool, lastSend: Option<(TestState, bool)>)

  function CountsOf(t: Trace, c: Config): Counts {
    Counts(Drains(t), Attempts(t, ClientTerminate), Attempts(t, IperfDone), InterruptHeard(t, c), LastSend(t))
  }

  predicate Zero(k: Counts) {
    k.dumps == 0 && k.terminates == 0 && k.dones == 0 && !k.interrupted
  }

  predicate CountsIn(p: Phase, k: Counts, h: Option<TestState>, c: Config) {
    match p
    case ToStop(w) => CountsHeard(w, k, c)
    case DataGrace(w) => CountsHeard(w, k, c)
    case ReporterJoin(w) => CountsHeard(w, k, c)
    case Sending(m) => CountsTold(m, k)
    case ToSend(m, _) => CountsTold(m, k)
    case ToDump(d) =>
      if d.WaitInterrupted? || d.DataInterrupted? then k.dumps == 0 && k.terminates == 1 && k.dones == 0 && k.interrupted
      else Zero(k) && (d.ControlLost? || d.BadResults? ==> c.json)
    case Over(e) => CountsOver(e, k, h, c)
    case Closing(at) => CountsIn(at, k, h, c)
    case Stuck => false
    case _ => Zero(k)
  }

  predicate CountsHeard(w: Answer, k: Counts, c: Config) {
    k.dumps == 0 && k.terminates == 0 && k.dones == 0 && (k.interrupted <==> Interrupts(c, w) && !w.limitReached)
  }

  predicate CountsTold(m: Message, k: Counts) {
    && k.terminates == 0 && k.dones == 0 && k.interrupted == m.TellInterrupt?
    && k.dumps == if m.TellDone? then 1 else 0
  }

  predicate CountsOver(e: Ending, k: Counts, h: Option<TestState>, c: Config) {
    match e
    case EndedAs(Completed) => k.dumps == 1 && k.terminates == 0 && k.dones == 1 && !k.interrupted && k.lastSend == Some((IperfDone, true))
    case EndedAs(Interrupted) => k.dumps == 1 && k.terminates == 1 && k.dones == 0 && k.interrupted
    case EndedAs(_) => k.dumps == 1 && k.terminates == 0 && k.dones == 0 && !k.interrupted
    case FailedAs(err) =>
      && k.terminates == 0 && !k.interrupted
      && match err
         case ControlSocketClosed => k.dones == 0 && k.dumps == if c.json then 1 else 0
         case RecvResultsFailed => k.dones == 0 && k.dumps == if c.json then 1 else 0
         case SendFailed => CountsDisplayed(k, h, false)
         case MissingResults => CountsDisplayed(k, h, true)
         case _ => k.dumps == 0 && k.dones == 0
  }

  /** Only a run that displayed its results has dumped and sent IPERF_DONE. */
  predicate CountsDisplayed(k: Counts, h: Option<TestState>, delivered: bool) {
    if h == Some(DisplayResults) then k.dumps == 1 && k.dones == 1 && k.lastSend == Some((IperfDone, delivered))
    else k.dumps == 0 && k.dones == 0
  }

  lemma {:induction false} CountedHistory(t: Trace, c: Config)
    requires Follows(t, c)
    ensures CountsIn(PhaseOf(t, c), CountsOf(t, c), LastHandled(t), c)
  {
    hide CountsIn, HandledIn;
    if t.Empty? {
      CountedStart(c);
    } else {
      CountedHistory(t.before, c);
      HandledState(t.before, c);
      CountedStep(t.before, t.last, c);
    }
  }

  lemma CountedStart(c: Config)
    ensures CountsIn(AtState, CountsOf(Empty, c), None, c)
  {
  }

  /** What one action does to the counts. */
  function Counted(k: Counts, p: Phase, a: Action, c: Config): Counts {
    match a
    case Wait(w) => k.(interrupted := k.interrupted || (Interrupts(c, w) && Polls(p, w)))
    case Drain(_) => k.(dumps := k.dumps + 1)
    case Send(s, ok) =>
      k.(terminates := k.terminates + (if s == ClientTerminate then 1 else 0),
         dones := k.dones + (if s == IperfDone then 1 else 0),
         lastSend := Some((s, ok)))
    case _ => k
  }

  lemma CountsStep(b: Trace, a: Action, c: Config)
    ensures CountsOf(Log(b, a), c) == Counted(CountsOf(b, c), PhaseOf(b, c), a, c)
  {
    hide PhaseOf;
  }

  lemma CountedStep(b: Trace, a: Action, c: Config)
    requires Follows(b, c) && Follows(Log(b, a), c)
    requires CountsIn(PhaseOf(b, c), CountsOf(b, c), LastHandled(b), c) && HandledIn(PhaseOf(b, c), LastHandled(b))
    ensures CountsIn(PhaseOf(Log(b, a), c), CountsOf(Log(b, a), c), LastHandled(Log(b, a)), c)
  {
    hide AfterWait, AfterAct, CountsIn, HandledIn, Polls, CountsOf, Counted;
    var p, k, h := PhaseOf(b, c), CountsOf(b, c), LastHandled(b);
    CountsStep(b, a, c);
    if p.Closing? || a.SetDone? {
      CountedClosing(p, a, k, h, c);
    } else if a.Wait? {
      CountedWait(p, a.answer, k, h, c);
    } else {
      CountedAct(p, b, a, k, c);
    }
  }

  lemma CountedClosing(p: Phase, a: Action, k: Counts, h: Option<TestState>, c: Config)
    requires CountsIn(p, k, h, c) && TearsDown(a) && (p.Closing? || a.SetDone?)
    ensures CountsIn(if p.Closing? then p else Closing(p), Counted(k, p, a, c), h, c)
  {
    assert Counted(k, p, a, c) == k;
  }

  lemma CountedWait(p: Phase, a: Answer, k: Counts, h: Option<TestState>, c: Config)
    requires CountsIn(p, k, h, c) && HandledIn(p, h) && AfterWait(p, a, c) != Stuck
    ensures CountsIn(AfterWait(p, a, c), Counted(k, p, Wait(a), c), h, c)
  {
    match p
    case DataGrace(heard) => CountedData(heard, k, c, h);
    case ReporterJoin(heard) => CountedData(heard, k, c, h);
    case _ =>
  }

  lemma CountedData(heard: Answer, k: Counts, c: Config, h: Option<TestState>)
    requires CountsHeard(heard, k, c) && h == Some(TestRunning)
    ensures CountsIn(AfterData(heard, c), k, h, c)
  {
  }

  lemma CountedAct(p: Phase, b: Trace, a: Action, k: Counts, c: Config)
    requires CountsIn(p, k, LastHandled(b), c) && HandledIn(p, LastHandled(b)) && AfterAct(p, b, a, c) != Stuck
    requires !a.Wait?
    ensures CountsIn(AfterAct(p, b, a, c), Counted(k, p, a, c), LastHandled(Log(b, a)), c)
  {
  }

  // ---- The answer an ending comes from ----

  predicate CleanedUp(p: Phase, w: Answer) {
    p == DataGrace(w) || p == ReporterJoin(w)
  }

  /** An answer of the data phase that is nothing but an unreadable socket. */
  predicate LostIn(c: Config, w: Answer) {
    !w.limitReached && !Fires(c, w) && (w.read.Eof? || w.read.ReadError?)
  }

  /** The control socket was found lost: a clean close at the state wait, or anything unreadable in the data phase. */
  predicate LossHeard(x: Option<(Phase, Answer)>, c: Config) {
    x.Some? &&
    match x.value.0
    case AtState => !Fires(c, x.value.1) && x.value.1.read.Eof?
    case DataGrace(w) => LostIn(c, w)
    case ReporterJoin(w) => LostIn(c, w)
    case _ => false
  }

  predicate ReadErrorHeard(x: Option<(Phase, Answer)>, c: Config) {
    x.Some? && x.value.0.AtState? && !Fires(c, x.value.1) && x.value.1.read.ReadError?
  }

  /** The server said `s`, at the state wait or in the data phase. */
  predicate ServerSaid(x: Option<(Phase, Answer)>, c: Config, s: TestState) {
    x.Some? &&
    match x.value.0
    case AtState => !Fires(c, x.value.1) && x.value.1.read == State(s)
    case DataGrace(w) => !w.limitReached && !Fires(c, w) && w.read == State(s)
    case ReporterJoin(w) => !w.limitReached && !Fires(c, w) && w.read == State(s)
    case _ => false
  }

  predicate SendFailedHeard(x: Option<(Phase, Answer)>) {
    x.Some? && !x.value.1.ok && (x.value.0.ParamSend? || x.value.0.ResultsSend? || x.value.0 == Sending(TellEnd) || x.value.0 == Sending(TellDone))
  }

  predicate SetupFailedHeard(x: Option<(Phase, Answer)>) {
    x.Some? && !x.value.1.ok && (x.value.0.Resolve? || x.value.0.Opening?)
  }

  predicate BadResultsHeard(x: Option<(Phase, Answer)>, c: Config) {
    x.Some? && x.value.0.ResultsWait? && !Fires(c, x.value.1) && !x.value.1.ok
  }

  predicate Told(x: Option<(Phase, Answer)>, m: Message) {
    x.Some? && x.value.0 == Sending(m)
  }

  predicate HeardIn(p: Phase, x: Option<(Phase, Answer)>, c: Config) {
    match p
    case ToHandle(s, _) => x.Some? && x.value.0.AtState? && !Interrupts(c, x.value.1) && x.value.1.read == State(s)
    case ToStop(w) => x == Some((Watch, w)) && EndsData(c, w)
    case DataGrace(w) => EndsData(c, w)
    case ReporterJoin(w) => EndsData(c, w)
    case ToSend(m, ok) => Told(x, m) && x.value.1.ok == ok
    case ToKeepResults => x.Some? && x.value.0.ResultsWait?
    case ToDump(k) => HeardDump(k, x, c)
    case Payload => ServerSaid(x, c, ServerError)
    case Over(e) => HeardOver(e, x, c)
    case Closing(at) => HeardIn(at, x, c)
    case _ => true
  }

  predicate HeardDump(k: DumpKind, x: Option<(Phase, Answer)>, c: Config) {
    match k
    case Summary => ServerSaid(x, c, DisplayResults) && x.value.0.AtState?
    case WaitInterrupted => Told(x, TellInterrupt(false))
    case DataInterrupted => Told(x, TellInterrupt(true))
    case ServerEnd => ServerSaid(x, c, ServerTerminate)
    case ErrorRelay => x.Some? && x.value.0.Payload?
    case ControlLost => LossHeard(x, c)
    case BadResults => BadResultsHeard(x, c)
  }

  predicate HeardOver(e: Ending, x: Option<(Phase, Answer)>, c: Config) {
    match e
    case EndedAs(Completed) => Told(x, TellDone) && x.value.1.ok
    case EndedAs(Interrupted) => Told(x, TellInterrupt(false)) || Told(x, TellInterrupt(true))
    case EndedAs(ServerTerminated) => ServerSaid(x, c, ServerTerminate)
    case EndedAs(ServerErrored) => x.Some? && x.value.0.Payload?
    case FailedAs(ControlSocketClosed) => LossHeard(x, c)
    case FailedAs(RecvResultsFailed) => BadResultsHeard(x, c)
    case FailedAs(ServerBusy) => ServerSaid(x, c, AccessDenied) && x.value.0.AtState?
    case FailedAs(ReadFailed) => ReadErrorHeard(x, c)
    case FailedAs(SendFailed) => SendFailedHeard(x)
    case FailedAs(SetupFailed) => SetupFailedHeard(x)
    case FailedAs(NotDisplayed) => ServerSaid(x, c, IperfDone) && x.value.0.AtState?
    case FailedAs(MissingResults) =>
      (ServerSaid(x, c, IperfDone) && x.value.0.AtState?) || (Told(x, TellDone) && x.value.1.ok)
  }

  /** Whatever a run has come to, the last answer it heard is what led there. */
  lemma {:induction false} HeardHistory(t: Trace, c: Config)
    requires Follows(t, c)
    ensures HeardIn(PhaseOf(t, c), LastHeard(t, c), c)
  {
    if t.Log? {
      HeardHistory(t.before, c);
      HeardStep(t.before, t.last, c);
    }
  }

  lemma HeardStep(b: Trace, a: Action, c: Config)
    requires Follows(b, c) && Follows(Log(b, a), c) && HeardIn(PhaseOf(b, c), LastHeard(b, c), c)
    ensures HeardIn(PhaseOf(Log(b, a), c), LastHeard(Log(b, a), c), c)
  {
    hide AfterWait, AfterAct, HeardIn;
    var p, x := PhaseOf(b, c), LastHeard(b, c);
    if p.Closing? || a.SetDone? {
      HeardClosing(p, x, c);
    } else if a.Wait? {
      HeardWait(p, a.answer, x, c);
    } else {
      HeardAct(p, b, a, x, c);
    }
  }

  lemma HeardClosing(p: Phase, x: Option<(Phase, Answer)>, c: Config)
    ensures HeardIn(Closing(p), x, c) == HeardIn(p, x, c)
  {
  }

  lemma HeardWait(p: Phase, a: Answer, x: Option<(Phase, Answer)>, c: Config)
    requires HeardIn(p, x, c)
    ensures HeardIn(AfterWait(p, a, c), Some((p, a)), c)
  {
    match p
    case AtState => HeardState(a, c);
    case ResultsWait => HeardResults(a, c);
    case DataGrace(heard) => HeardCleanup(p, heard, a, c);
    case ReporterJoin(heard) => HeardCleanup(p, heard, a, c);
    case _ => HeardCall(p, a, c);
  }

  lemma HeardState(a: Answer, c: Config)
    ensures HeardIn(AfterState(a, c), Some((AtState, a)), c)
  {
  }

  lemma HeardResults(a: Answer, c: Config)
    ensures HeardIn(AfterWait(ResultsWait, a, c), Some((ResultsWait, a)), c)
  {
  }

  lemma HeardCall(p: Phase, a: Answer, c: Config)
    requires !p.AtState? && !p.ResultsWait? && !p.DataGrace? && !p.ReporterJoin?
    ensures HeardIn(AfterWait(p, a, c), Some((p, a)), c)
  {
  }

  lemma HeardCleanup(p: Phase, heard: Answer, a: Answer, c: Config)
    requires CleanedUp(p, heard) && EndsData(c, heard)
    ensures HeardIn(AfterWait(p, a, c), Some((p, a)), c)
  {
    hide AfterData, HeardIn;
    HeardData(p, heard, a, c);
    if p.DataGrace? && c.reporting {
      HeardJoin(heard, p, a, c);
    }
  }

  lemma HeardJoin(heard: Answer, p: Phase, a: Answer, c: Config)
    requires EndsData(c, heard)
    ensures HeardIn(ReporterJoin(heard), Some((p, a)), c)
  {
  }

  lemma HeardData(p: Phase, heard: Answer, a: Answer, c: Config)
    requires CleanedUp(p, heard) && EndsData(c, heard)
    ensures HeardIn(AfterData(heard, c), Some((p, a)), c)
  {
  }

  lemma HeardAct(p: Phase, b: Trace, a: Action, x: Option<(Phase, Answer)>, c: Config)
    requires HeardIn(p, x, c) && AfterAct(p, b, a, c) != Stuck
    ensures HeardIn(AfterAct(p, b, a, c), x, c)
  {
  }

  // ---- The results flag ----

  predicate ResultsIn(p: Phase, read: bool) {
    match p
    case Over(EndedAs(Completed)) => read
    case Over(FailedAs(NotDisplayed)) => read
    case Over(FailedAs(MissingResults)) => !read
    case Closing(at) => ResultsIn(at, read)
    case _ => true
  }

  lemma {:induction false} ResultsHistory(t: Trace, c: Config)
    requires Follows(t, c)
    ensures ResultsIn(PhaseOf(t, c), ResultsRead(t))
  {
    if t.Log? {
      ResultsHistory(t.before, c);
      ResultsStep(PhaseOf(t.before, c), t.before, t.last, c);
    }
  }

  lemma ResultsStep(p: Phase, b: Trace, a: Action, c: Config)
    requires After(p, b, a, c) != Stuck && ResultsIn(p, ResultsRead(b))
    ensures ResultsIn(After(p, b, a, c), ResultsRead(Log(b, a)))
  {
  }

  // ---- Dumps ----

  /** The dump a run standing here has made, if any. */
  function DumpMade(p: Phase, h: Option<TestState>, lastInData: bool, c: Config): Option<DumpKind> {
    match p
    case Sending(TellDone) => Some(Summary)
    case ToSend(TellDone, _) => Some(Summary)
    case Over(EndedAs(Completed)) => Some(Summary)
    case Over(EndedAs(Interrupted)) => Some(if lastInData then DataInterrupted else WaitInterrupted)
    case Over(EndedAs(ServerTerminated)) => Some(ServerEnd)
    case Over(EndedAs(ServerErrored)) => Some(ErrorRelay)
    case Over(FailedAs(ControlSocketClosed)) => if c.json then Some(ControlLost) else None
    case Over(FailedAs(RecvResultsFailed)) => if c.json then Some(BadResults) else None
    case Over(FailedAs(SendFailed)) => if h == Some(DisplayResults) then Some(Summary) else None
    case Over(FailedAs(MissingResults)) => if h == Some(DisplayResults) then Some(Summary) else None
    case Closing(at) => DumpMade(at, h, lastInData, c)
    case _ => None
  }

  predicate InData(x: Option<(Phase, Answer)>) {
    Told(x, TellInterrupt(true))
  }

  function DumpDue(t: Trace, c: Config): Option<DumpKind> {
    DumpMade(PhaseOf(t, c), LastHandled(t), InData(LastHeard(t, c)), c)
  }

  predicate DumpStands(t: Trace, c: Config) {
    match DumpDue(t, c)
    case None => Dumped(t) == None
    case Some(k) => Dumped(t) == Some(DumpOf(k, t, c))
  }

  /**
   A dump loses nothing: whatever its run went on to do, the report is still the one its occasion would
   make of the whole history, and on every other occasion there is none.
  */
  lemma {:induction false} DumpLosesNothing(t: Trace, c: Config)
    requires Follows(t, c) && Reported(t, c)
    ensures DumpStands(t, c)
  {
    if t.Log? {
      DumpLosesNothing(t.before, c);
      HandledState(t.before, c);
      HeardHistory(t.before, c);
      HeardHistory(t, c);
      CountedHistory(t.before, c);
      DumpStep(t.before, t.last, c);
    }
  }

  /** A bare end is not only an upfront refusal's: a control socket lost after TestStart gives one too. */
  lemma BareEndAfterStart()
    ensures var quiet := Answer(false, false, State(TestStart), true, 7, 0.0, []);
            var c := Config(true, false, false, false, false, 1, 10.0);
            var started := Log(Log(Log(Empty, Wait(quiet)), Handle(TestStart)), TestStarted(7));
            var t := Log(started, Wait(quiet.(read := Eof)));
            PhaseOf(t, c) == ToDump(ControlLost) && StageOf(t) == Started(7) && DumpOf(ControlLost, t, c).bareEnd
  {
    var quiet := Answer(false, false, State(TestStart), true, 7, 0.0, []);
    var c := Config(true, false, false, false, false, 1, 10.0);
    var heard := Log(Empty, Wait(quiet));
    assert PhaseOf(heard, c) == ToHandle(TestStart, 7);
    assert PhaseOf(Log(heard, Handle(TestStart)), c) == ToStart(7);
    assert PhaseOf(Log(Log(heard, Handle(TestStart)), TestStarted(7)), c) == AtState;
  }

  /** What dumps are made of. */
  predicate SameContent(b: Trace, u: Trace, c: Config) {
    && Collected(u, c) == Collected(b, c) && StageOf(u) == StageOf(b) && MeasuredSecs(u, c) == MeasuredSecs(b, c)
    && (ResultsRead(u) <==> ResultsRead(b))
  }

  lemma QuietStep(b: Trace, a: Action, c: Config)
    requires !(a.Wait? && Gathers(PhaseOf(b, c)))
    requires !a.Connected? && !a.TestStarted? && !a.StopData? && !a.ReadResults?
    ensures SameContent(b, Log(b, a), c)
  {
    hide PhaseOf;
  }

  lemma SameDump(k: DumpKind, b: Trace, u: Trace, c: Config)
    requires SameContent(b, u, c)
    ensures DumpOf(k, u, c) == DumpOf(k, b, c)
  {
    hide MeasuredSecs, Collected, StageOf;
  }

  lemma DumpStep(b: Trace, a: Action, c: Config)
    requires Follows(b, c) && Follows(Log(b, a), c) && Reported(Log(b, a), c) && DumpStands(b, c)
    requires HandledIn(PhaseOf(b, c), LastHandled(b)) && HeardIn(PhaseOf(b, c), LastHeard(b, c), c)
    requires CountsIn(PhaseOf(b, c), CountsOf(b, c), LastHandled(b), c)
    ensures DumpStands(Log(b, a), c)
  {
    hide DumpMade, CountsIn, HandledIn, HeardIn, DumpOf, InData, CountsOf, After;
    var p := PhaseOf(b, c);
    if a.Drain? {
      DumpDone(p, b, a, c);
      QuietStep(b, a, c);
      SameDump(p.kind, b, Log(b, a), c);
    } else {
      DueStep(p, b, a, c);
      if DumpDue(b, c).Some? {
        LateAction(p, b, a, c);
        QuietStep(b, a, c);
        SameDump(DumpDue(b, c).value, b, Log(b, a), c);
      }
    }
  }

  lemma DumpDone(p: Phase, b: Trace, a: Action, c: Config)
    requires a.Drain? && p == PhaseOf(b, c) && After(p, b, a, c) != Stuck
    requires HandledIn(p, LastHandled(b)) && HeardIn(p, LastHeard(b, c), c) && CountsIn(p, CountsOf(b, c), LastHandled(b), c)
    ensures p.ToDump? && DumpDue(Log(b, a), c) == Some(p.kind)
  {
  }

  lemma DueStep(p: Phase, b: Trace, a: Action, c: Config)
    requires !a.Drain? && p == PhaseOf(b, c) && After(p, b, a, c) != Stuck
    requires HandledIn(p, LastHandled(b))
    ensures DumpDue(Log(b, a), c) == DumpDue(b, c)
  {
    hide AfterWait, AfterAct, DumpMade, HandledIn;
    if p.Closing? || a.SetDone? {
      DueClosing(p, a, LastHandled(b), InData(LastHeard(b, c)), c);
    } else if a.Wait? {
      DueWait(p, a.answer, LastHandled(b), InData(LastHeard(b, c)), InData(LastHeard(Log(b, a), c)), c);
    } else {
      DueAct(p, b, a, InData(LastHeard(b, c)), c);
    }
  }

  lemma DueClosing(p: Phase, a: Action, h: Option<TestState>, inData: bool, c: Config)
    ensures DumpMade(Closing(p), h, inData, c) == DumpMade(p, h, inData, c)
  {
  }

  lemma DueWait(p: Phase, a: Answer, h: Option<TestState>, inData: bool, nowInData: bool, c: Config)
    requires AfterWait(p, a, c) != Stuck && HandledIn(p, h)
    ensures DumpMade(AfterWait(p, a, c), h, nowInData, c) == DumpMade(p, h, inData, c)
  {
  }

  lemma DueAct(p: Phase, b: Trace, a: Action, inData: bool, c: Config)
    requires AfterAct(p, b, a, c) != Stuck && HandledIn(p, LastHandled(b)) && !a.Drain? && !a.Wait?
    ensures DumpMade(AfterAct(p, b, a, c), LastHandled(Log(b, a)), inData, c) == DumpMade(p, LastHandled(b), inData, c)
  {
  }

  /** After its dump a run only sends IPERF_DONE and closes down. */
  lemma LateAction(p: Phase, b: Trace, a: Action, c: Config)
    requires After(p, b, a, c) != Stuck && DumpMade(p, LastHandled(b), InData(LastHeard(b, c)), c).Some?
    ensures !(a.Wait? && Gathers(p)) && !a.Connected? && !a.TestStarted? && !a.StopData? && !a.ReadResults?
  {
  }

  // ---- The ending, read off the history ----

  /** The phase of a run that is over, closing down or not. */
  function Final(p: Phase): Phase {
    if p.Closing? then Final(p.at) else p
  }

  lemma {:induction false} FinalFacts(p: Phase, k: Counts, h: Option<TestState>, x: Option<(Phase, Answer)>, read: bool, c: Config)
    ensures HandledIn(p, h) == HandledIn(Final(p), h)
    ensures CountsIn(p, k, h, c) == CountsIn(Final(p), k, h, c)
    ensures HeardIn(p, x, c) == HeardIn(Final(p), x, c)
    ensures ResultsIn(p, read) == ResultsIn(Final(p), read)
    decreases p
  {
    if p.Closing? {
      FinalFacts(p.at, k, h, x, read, c);
    }
  }

  lemma {:induction false} FinalDump(p: Phase, h: Option<TestState>, inData: bool, c: Config)
    ensures DumpMade(p, h, inData, c) == DumpMade(Final(p), h, inData, c)
    decreases p
  {
    if p.Closing? {
      FinalDump(p.at, h, inData, c);
    }
  }

  lemma OverFacts(t: Trace, c: Config, e: Ending)
    requires Final(PhaseOf(t, c)) == Over(e)
    ensures OverIn(e, LastHandled(t)) && CountsOver(e, CountsOf(t, c), LastHandled(t), c)
    ensures HeardOver(e, LastHeard(t, c), c) && ResultsIn(Over(e), ResultsRead(t))
  {
    HandledState(t, c);
    CountedHistory(t, c);
    HeardHistory(t, c);
    ResultsHistory(t, c);
    FinalFacts(PhaseOf(t, c), CountsOf(t, c), LastHandled(t), LastHeard(t, c), ResultsRead(t), c);
    hide OverIn, CountsOver, HeardOver, ResultsIn;
  }

  /** The relayed error was read. */
  predicate RelayHeard(x: Option<(Phase, Answer)>) {
    x.Some? && x.value.0.Payload?
  }

  /** Which runs end as `e`, by what was handled and sent. */
  predicate EndedBySending(e: Ending, t: Trace, c: Config) {
    && (e == EndedAs(Completed)
        <==> LastHandled(t) == Some(DisplayResults) && LastSend(t) == Some((IperfDone, true)) && ResultsRead(t))
    && (e == EndedAs(Interrupted) <==> InterruptHeard(t, c))
    && Attempts(t, ClientTerminate) == (if InterruptHeard(t, c) then 1 else 0)
    && Attempts(t, IperfDone) == (if LastHandled(t) == Some(DisplayResults) then 1 else 0)
    && (e == FailedAs(ServerBusy) <==> LastHandled(t) == Some(AccessDenied))
    && (e == FailedAs(NotDisplayed) <==> LastHandled(t) == Some(IperfDone) && ResultsRead(t))
    && (e == FailedAs(MissingResults)
        <==> && !ResultsRead(t)
             && (LastHandled(t) == Some(IperfDone)
                 || (LastHandled(t) == Some(DisplayResults) && LastSend(t) == Some((IperfDone, true)))))
  }

  lemma EndingBySending(e: Ending, t: Trace, c: Config)
    requires Final(PhaseOf(t, c)) == Over(e)
    ensures EndedBySending(e, t, c)
  {
    OverFacts(t, c, e);
    SentApart(e, CountsOf(t, c), LastHandled(t), ResultsRead(t), c);
    hide PhaseOf, OverIn, CountsOver, ResultsIn, HeardOver;
  }

  lemma SentApart(e: Ending, k: Counts, h: Option<TestState>, read: bool, c: Config)
    requires OverIn(e, h) && CountsOver(e, k, h, c) && ResultsIn(Over(e), read)
    ensures e == EndedAs(Completed) <==> h == Some(DisplayResults) && k.lastSend == Some((IperfDone, true)) && read
    ensures e == EndedAs(Interrupted) <==> k.interrupted
    ensures k.terminates == (if k.interrupted then 1 else 0) && k.dones == (if h == Some(DisplayResults) then 1 else 0)
    ensures e == FailedAs(ServerBusy) <==> h == Some(AccessDenied)
    ensures e == FailedAs(NotDisplayed) <==> h == Some(IperfDone) && read
    ensures e == FailedAs(MissingResults)
       <==> !read && (h == Some(IperfDone) || (h == Some(DisplayResults) && k.lastSend == Some((IperfDone, true))))
  {
  }

  /** Which runs end as `e`, by the last answer heard before the run closed down. */
  predicate EndedByHearing(e: Ending, x: Option<(Phase, Answer)>, c: Config) {
    && (e == EndedAs(ServerTerminated) <==> ServerSaid(x, c, ServerTerminate))
    && (e == EndedAs(ServerErrored) <==> RelayHeard(x))
    && (e == FailedAs(ControlSocketClosed) <==> LossHeard(x, c))
    && (e == FailedAs(ReadFailed) <==> ReadErrorHeard(x, c))
    && (e == FailedAs(SendFailed) <==> SendFailedHeard(x))
    && (e == FailedAs(SetupFailed) <==> SetupFailedHeard(x))
    && (e == FailedAs(RecvResultsFailed) <==> BadResultsHeard(x, c))
  }

  lemma EndingByHearing(e: Ending, t: Trace, c: Config)
    requires Final(PhaseOf(t, c)) == Over(e)
    ensures EndedByHearing(e, LastHeard(t, c), c)
  {
    OverFacts(t, c, e);
    HeardApart(e, LastHeard(t, c), c);
  }

  lemma HeardApart(e: Ending, x: Option<(Phase, Answer)>, c: Config)
    requires HeardOver(e, x, c)
    ensures EndedByHearing(e, x, c)
  {
  }

  /** One dump at most, IPERF_DONE only with a dump, CLIENT_TERMINATE at most once: in every history, ended or not. */
  lemma AtMostOnce(t: Trace, c: Config)
    requires Follows(t, c)
    ensures Attempts(t, IperfDone) <= Drains(t) <= 1 && Attempts(t, ClientTerminate) <= 1
  {
    CountedHistory(t, c);
    CountsBounded(PhaseOf(t, c), CountsOf(t, c), LastHandled(t), c);
  }

  lemma {:induction false} DumpCounted(t: Trace)
    ensures Dumped(t).Some? <==> Drains(t) > 0
  {
    if t.Log? {
      DumpCounted(t.before);
    }
  }

  lemma {:induction false} CountsBounded(p: Phase, k: Counts, h: Option<TestState>, c: Config)
    requires CountsIn(p, k, h, c)
    ensures k.dones <= k.dumps <= 1 && k.terminates <= 1
    decreases p
  {
    if p.Closing? {
      CountsBounded(p.at, k, h, c);
    }
  }

  /** After a state that ends the run, no other state is handled. */
  lemma {:induction false} EndingIsLast(t: Trace, u: Trace, c: Config)
    requires Prefix(t, u) && Follows(u, c) && Ends(LastHandled(t))
    ensures LastHandled(u) == LastHandled(t)
  {
    if t != u {
      EndingIsLast(t, u.before, c);
      HandledState(u.before, c);
    }
  }

  // ---- The answers decide the history ----

  lemma {:induction false} EmptyIsPrefix(u: Trace)
    ensures Prefix(Empty, u)
  {
    if u.Log? {
      EmptyIsPrefix(u.before);
    }
  }

  /** The history of u one action past its prefix t. */
  function NextPrefix(t: Trace, u: Trace): (v: Trace)
    requires Prefix(t, u) && t != u
    ensures v.Log? && v.before == t && Prefix(v, u)
  {
    if u.before == t then u else NextPrefix(t, u.before)
  }

  lemma {:induction false} PrefixFollows(t: Trace, u: Trace, c: Config)
    requires Prefix(t, u) && Follows(u, c) && Reported(u, c) && !PhaseOf(u, c).Closing?
    ensures Follows(t, c) && Reported(t, c) && !PhaseOf(t, c).Closing? && Answers(t) <= Answers(u)
  {
    if t != u {
      PrefixFollows(t, u.before, c);
    }
  }

  /** Outside the teardown, a point of a run has one next action, or is an await. */
  lemma OneAction(p: Phase, b: Trace, a: Action, z: Action, c: Config)
    requires !p.Closing? && p == PhaseOf(b, c)
    requires After(p, b, a, c) != Stuck && !After(p, b, a, c).Closing? && Reported(Log(b, a), c)
    requires After(p, b, z, c) != Stuck && !After(p, b, z, c).Closing? && Reported(Log(b, z), c)
    ensures a == z || (a.Wait? && z.Wait?)
  {
    hide DumpOf;
  }

  /** Of two histories before the teardown whose answers agree, one continues the other. */
  lemma {:induction false} OneHistory(t: Trace, u: Trace, c: Config)
    requires Follows(t, c) && Reported(t, c) && !PhaseOf(t, c).Closing?
    requires Follows(u, c) && Reported(u, c) && !PhaseOf(u, c).Closing?
    requires Answers(t) <= Answers(u) || Answers(u) <= Answers(t)
    ensures Prefix(t, u) || Prefix(u, t)
  {
    if t.Empty? {
      EmptyIsPrefix(u);
    } else {
      PrefixFollows(t.before, t, c);
      OneHistory(t.before, u, c);
      if Prefix(t.before, u) && t.before != u {
        var v := NextPrefix(t.before, u);
        PrefixFollows(v, u, c);
        OneAction(PhaseOf(t.before, c), t.before, t.last, v.last, c);
        if t.last.Wait? && v.last.Wait? {
          SameAnswer(Answers(t.before), t.last.answer, v.last.answer, Answers(t), Answers(u));
        }
        assert t == v;
      }
    }
  }

  lemma SameAnswer(s: seq<Answer>, a: Answer, z: Answer, t: seq<Answer>, u: seq<Answer>)
    requires t == s + [a] && s + [z] <= u && (t <= u || u <= t)
    ensures a == z
  {
    assert t[|s|] == a && u[|s|] == z;
  }

  /**
   The script decides the run: two histories that are over, of the same options and answers that agree,
   are one history, so they sent, handled, dumped and ended alike.
  */
  lemma ScriptDecides(t: Trace, u: Trace, c: Config, script: seq<Answer>)
    requires Follows(t, c) && Reported(t, c) && PhaseOf(t, c).Over? && Answers(t) <= script
    requires Follows(u, c) && Reported(u, c) && PhaseOf(u, c).Over? && Answers(u) <= script
    ensures t == u
  {
    OneHistory(t, u, c);
    if Prefix(t, u) {
      OverIsLast(t, u, c);
    } else {
      OverIsLast(u, t, c);
    }
  }

  lemma OverIsLast(t: Trace, u: Trace, c: Config)
    requires Prefix(t, u) && PhaseOf(t, c).Over?
    requires Follows(u, c) && Reported(u, c) && !PhaseOf(u, c).Closing?
    ensures t == u
  {
    if t != u {
      PrefixFollows(NextPrefix(t, u), u, c);
    }
  }

  // ---- Parts of a history ----

  lemma SameSelf(t: Trace, c: Config)
    ensures SameContent(t, t, c)
  {
  }

  lemma SameTransitive(t: Trace, u: Trace, v: Trace, c: Config)
    requires SameContent(t, u, c) && SameContent(u, v, c)
    ensures SameContent(t, v, c)
  {
    hide MeasuredSecs, Collected, StageOf;
  }

  /** u continues t within the state being handled. */
  predicate Within(t: Trace, u: Trace) {
    t == u || (u.Log? && !u.last.Handle? && Within(t, u.before))
  }

  lemma WithinSelf(t: Trace)
    ensures Within(t, t)
  {
  }

  lemma WithinStep(t: Trace, u: Trace, a: Action)
    requires Within(t, u) && !a.Handle?
    ensures Within(t, Log(u, a))
  {
  }

  lemma {:induction false} WithinTransitive(t: Trace, u: Trace, v: Trace)
    requires Within(t, u) && Within(u, v)
    ensures Within(t, v)
  {
    if u != v {
      WithinTransitive(t, u, v.before);
    }
  }

  /** Within a handler the state handled stays, and what was heard and done stays heard and done. */
  lemma {:induction false} WithinIsPrefix(t: Trace, u: Trace)
    requires Within(t, u)
    ensures Prefix(t, u) && LastHandled(u) == LastHandled(t)
  {
    if t != u {
      WithinIsPrefix(t, u.before);
    }
  }

  /** The data phase ends at the first answer that ends it: only another TestRunning starts a new one. */
  lemma {:induction false} DataEndsOnce(t: Trace, u: Trace, c: Config)
    requires Within(t, u) && t.Log? && Follows(u, c)
    requires PhaseOf(t.before, c) == Watch && t.last.Wait? && EndsData(c, t.last.answer)
    ensures !PhaseOf(u, c).Watch?
  {
    if t != u {
      DataEndsOnce(t, u.before, c);
      LeavesWatch(PhaseOf(u.before, c), u.before, u.last, c);
    }
  }

  lemma LeavesWatch(p: Phase, b: Trace, a: Action, c: Config)
    requires !p.Watch? && !a.Handle?
    ensures !After(p, b, a, c).Watch?
  {
  }

  lemma {:induction false} WithinStopped(t: Trace, u: Trace)
    requires Within(t, u) && Stopped(t)
    ensures Stopped(u)
  {
    if t != u {
      WithinStopped(t, u.before);
    }
  }

  lemma {:induction false} PrefixTransitive(t: Trace, u: Trace, v: Trace)
    requires Prefix(t, u) && Prefix(u, v)
    ensures Prefix(t, v)
  {
    if u != v {
      PrefixTransitive(t, u, v.before);
    }
  }

  // ---- The teardown adds nothing to the story ----

  /** The teardown sleeps only for streams of a started test that no `run_test` cleanup has stopped. */
  predicate GraceOwed(t: Trace) {
    !Stopped(t) && Spawned(t) != {} && StageOf(t).Started?
  }

  /** What aborting, joining and dropping leave as it was. */
  predicate Story(t: Trace, u: Trace, c: Config) {
    && SameContent(t, u, c) && CountsOf(u, c) == CountsOf(t, c) && Dumped(u) == Dumped(t)
    && LastHandled(u) == LastHandled(t) && LastHeard(u, c) == LastHeard(t, c)
    && Spawned(u) == Spawned(t) && Stopped(u) == Stopped(t)
    && Final(PhaseOf(u, c)) == Final(PhaseOf(t, c))
  }

  lemma StorySelf(t: Trace, c: Config)
    ensures Story(t, t, c)
  {
  }

  lemma StoryTransitive(t: Trace, u: Trace, v: Trace, c: Config)
    requires Story(t, u, c) && Story(u, v, c)
    ensures Story(t, v, c)
  {
    hide CountsOf, LastHeard, PhaseOf, SameContent;
    SameTransitive(t, u, v, c);
  }

  lemma StoryStep(t: Trace, u: Trace, a: Action, c: Config)
    requires Story(t, u, c) && TearsDown(a)
    requires PhaseOf(u, c).Closing? || (a.SetDone? && (PhaseOf(u, c).Over? || Awaits(PhaseOf(u, c))))
    ensures Story(t, Log(u, a), c) && PhaseOf(Log(u, a), c).Closing?
  {
    hide CountsOf, SameContent, Counted;
    QuietStep(u, a, c);
    SameTransitive(t, u, Log(u, a), c);
    CountsStep(u, a, c);
    ClosingCounts(CountsOf(u, c), PhaseOf(u, c), a, c);
  }

  lemma ClosingCounts(k: Counts, p: Phase, a: Action, c: Config)
    requires TearsDown(a) && (p.Closing? || a.SetDone?)
    ensures Counted(k, p, a, c) == k
  {
  }
}
