/**
 What a run hands back, read off its history without the protocol's own bookkeeping: which answers fed the
 report, what each handled state did, and that no answer which calls for an action is passed over.
*/
module ClientReports {
  import opened ClientHistory
  import opened ClientTrace
  import opened Wrappers

  // ---- The answers of a data phase ----

  /** The run has begun to close down. */
  predicate Closed(t: Trace) {
    t.Log? && (t.last.SetDone? || Closed(t.before))
  }

  /** How many answers were heard since the state in hand stopped its data; `None` while it has not. */
  function SinceStop(t: Trace): Option<nat> {
    if t.Empty? then None
    else
      match t.last
      case Handle(_) => None
      case StopData => Some(0)
      case Wait(_) => if SinceStop(t.before).Some? then Some(SinceStop(t.before).value + 1) else None
      case _ => SinceStop(t.before)
  }

  /** The next answer is one of a TestRunning whose data has not been stopped. */
  predicate InDataPhase(t: Trace) {
    !Closed(t) && LastHandled(t) == Some(TestRunning) && SinceStop(t).None?
  }

  /** The next answer is one the reporter still collects during: of the data phase, or one of the two after it. */
  predicate Collects(t: Trace) {
    !Closed(t) && LastHandled(t) == Some(TestRunning) && (SinceStop(t).None? || SinceStop(t).value < 2)
  }

  /** Everything collected, in order. */
  function Samples(t: Trace, c: Config): seq<Sample> {
    if t.Empty? then []
    else Samples(t.before, c) + if t.last.Wait? && c.json && c.reporting && Collects(t.before) then t.last.answer.samples else []
  }

  /** The time the last data phase that did not lose its socket took, or else the time that was asked for. */
  function Window(t: Trace, c: Config): real {
    if t.Empty? then c.duration
    else if t.last.Wait? && InDataPhase(t.before) && EndsInTime(t.last.answer, c) then t.last.answer.elapsed
    else Window(t.before, c)
  }

  /** The end condition, an interrupt, SERVER_TERMINATE or SERVER_ERROR. */
  predicate EndsInTime(a: Answer, c: Config) {
    a.limitReached || Fires(c, a) || a.read == State(ServerTerminate) || a.read == State(ServerError)
  }

  /** An interrupt was heard in a data phase that had not reached its end condition. */
  predicate InterruptedData(t: Trace, c: Config) {
    t.Log? &&
    (InterruptedData(t.before, c)
     || (t.last.Wait? && InDataPhase(t.before) && Fires(c, t.last.answer) && !t.last.answer.limitReached))
  }

  // ---- Against the phases ----

  predicate StopIn(p: Phase, h: Option<TestState>, n: Option<nat>, closed: bool, c: Config) {
    match p
    case Closing(_) => closed
    case Watch => !closed && n == None
    case ToStop(_) => !closed && n == None
    case DataGrace(_) => !closed && n == Some(0)
    case ReporterJoin(_) => !closed && n == Some(1) && c.reporting
    case Stuck => true
    case _ => !closed && (h == Some(TestRunning) ==> n.Some? && (c.reporting ==> n.value >= 2)) && (h != Some(TestRunning) ==> n == None)
  }

  lemma {:induction false} StopHistory(t: Trace, c: Config)
    requires Follows(t, c)
    ensures StopIn(PhaseOf(t, c), LastHandled(t), SinceStop(t), Closed(t), c)
  {
    if t.Log? {
      StopHistory(t.before, c);
      HandledState(t.before, c);
      StopStep(PhaseOf(t.before, c), t.before, t.last, c);
    }
  }

  lemma StopStep(p: Phase, b: Trace, a: Action, c: Config)
    requires After(p, b, a, c) != Stuck && HandledIn(p, LastHandled(b))
    requires StopIn(p, LastHandled(b), SinceStop(b), Closed(b), c)
    ensures StopIn(After(p, b, a, c), LastHandled(Log(b, a)), SinceStop(Log(b, a)), Closed(Log(b, a)), c)
  {
    hide AfterWait, AfterAct;
    if p.Closing? || a.SetDone? {
    } else if a.Wait? {
      StopWait(p, b, a.answer, c);
    } else {
      StopAct(p, b, a, c);
    }
  }

  lemma StopWait(p: Phase, b: Trace, a: Answer, c: Config)
    requires AfterWait(p, a, c) != Stuck && HandledIn(p, LastHandled(b)) && !p.Closing?
    requires StopIn(p, LastHandled(b), SinceStop(b), Closed(b), c)
    ensures StopIn(AfterWait(p, a, c), LastHandled(b), SinceStop(Log(b, Wait(a))), Closed(b), c)
  {
  }

  lemma StopAct(p: Phase, b: Trace, a: Action, c: Config)
    requires AfterAct(p, b, a, c) != Stuck && HandledIn(p, LastHandled(b)) && !p.Closing? && !a.Wait? && !a.SetDone?
    requires StopIn(p, LastHandled(b), SinceStop(b), Closed(b), c)
    ensures StopIn(AfterAct(p, b, a, c), LastHandled(Log(b, a)), SinceStop(Log(b, a)), Closed(b), c)
  {
  }

  lemma GathersIsCollects(t: Trace, c: Config)
    requires Follows(t, c) && c.reporting && Awaits(PhaseOf(t, c))
    ensures Gathers(PhaseOf(t, c)) <==> Collects(t)
    ensures PhaseOf(t, c).Watch? <==> InDataPhase(t)
  {
    hide PhaseOf;
    StopHistory(t, c);
    HandledState(t, c);
  }

  lemma WatchIsDataPhase(t: Trace, c: Config)
    requires Follows(t, c) && !PhaseOf(t, c).ToStop?
    ensures PhaseOf(t, c).Watch? <==> InDataPhase(t)
  {
    hide PhaseOf;
    StopHistory(t, c);
    HandledState(t, c);
  }

  /** A wait stands at an await, or in the teardown. */
  lemma WaitsAtAwaits(b: Trace, a: Answer, c: Config)
    requires Follows(Log(b, Wait(a)), c)
    ensures Follows(b, c) && (Awaits(PhaseOf(b, c)) || PhaseOf(b, c).Closing?)
  {
  }

  /** What the reporter kept is what came in during the data phases. */
  lemma {:induction false} CollectedIsSamples(t: Trace, c: Config)
    requires Follows(t, c)
    ensures Collected(t, c) == Samples(t, c)
  {
    if t.Log? {
      CollectedIsSamples(t.before, c);
      if t.last.Wait? && c.reporting {
        WaitsAtAwaits(t.before, t.last.answer, c);
        hide PhaseOf;
        StopHistory(t.before, c);
        if Awaits(PhaseOf(t.before, c)) {
          GathersIsCollects(t.before, c);
        }
      }
    }
  }

  /** The measured time, except between the answer that ends a data phase and the cleanup it starts. */
  lemma {:induction false} MeasuredIsWindow(t: Trace, c: Config)
    requires Follows(t, c)
    ensures PhaseOf(t, c).ToStop? ==>
              Window(t, c) == if LosesControl(c, PhaseOf(t, c).heard) then MeasuredSecs(t, c) else PhaseOf(t, c).heard.elapsed
    ensures !PhaseOf(t, c).ToStop? ==> Window(t, c) == MeasuredSecs(t, c)
  {
    if t.Log? {
      MeasuredIsWindow(t.before, c);
      WindowStep(t.before, t.last, c);
    }
  }

  lemma WindowStep(b: Trace, a: Action, c: Config)
    requires Follows(b, c) && Follows(Log(b, a), c)
    requires PhaseOf(b, c).ToStop? ==>
               Window(b, c) == if LosesControl(c, PhaseOf(b, c).heard) then MeasuredSecs(b, c) else PhaseOf(b, c).heard.elapsed
    requires !PhaseOf(b, c).ToStop? ==> Window(b, c) == MeasuredSecs(b, c)
    ensures var t := Log(b, a);
            && (PhaseOf(t, c).ToStop? ==>
                  Window(t, c) == if LosesControl(c, PhaseOf(t, c).heard) then MeasuredSecs(t, c) else PhaseOf(t, c).heard.elapsed)
            && (!PhaseOf(t, c).ToStop? ==> Window(t, c) == MeasuredSecs(t, c))
  {
    hide InDataPhase;
    if PhaseOf(b, c).ToStop? {
    } else {
      WatchIsDataPhase(b, c);
      IntoStop(PhaseOf(b, c), b, a, c);
    }
  }

  /** Only an answer of the data phase starts its cleanup. */
  lemma IntoStop(p: Phase, b: Trace, a: Action, c: Config)
    requires !p.ToStop?
    ensures var q := After(p, b, a, c);
            if p.Watch? && a.Wait? then
              if EndsInTime(a.answer, c) || a.answer.read.Eof? || a.answer.read.ReadError? then q == ToStop(a.answer) else q == Watch
            else !q.ToStop?
    ensures p.Watch? && a.Wait? ==>
              (EndsInTime(a.answer, c) <==> EndsData(c, a.answer) && !LosesControl(c, a.answer))
  {
  }

  // ---- Where the interrupt was heard ----

  predicate InterruptIn(p: Phase, x: Option<(Phase, Answer)>, b: bool, c: Config) {
    match p
    case ToStop(w) => b == (Fires(c, w) && !w.limitReached)
    case DataGrace(w) => b == (Fires(c, w) && !w.limitReached)
    case ReporterJoin(w) => b == (Fires(c, w) && !w.limitReached)
    case Sending(m) => b == (m == TellInterrupt(true))
    case ToSend(m, _) => b == (m == TellInterrupt(true))
    case ToDump(k) => b == k.DataInterrupted?
    case Over(e) => if e == EndedAs(Interrupted) then b == InData(x) else !b
    case Closing(at) => InterruptIn(at, x, b, c)
    case Stuck => true
    case _ => !b
  }

  lemma {:induction false} InterruptHistory(t: Trace, c: Config)
    requires Follows(t, c)
    ensures InterruptIn(PhaseOf(t, c), LastHeard(t, c), InterruptedData(t, c), c)
  {
    if t.Log? {
      InterruptHistory(t.before, c);
      HeardHistory(t.before, c);
      StopHistory(t.before, c);
      if !PhaseOf(t.before, c).ToStop? {
        WatchIsDataPhase(t.before, c);
      }
      InterruptStep(t.before, t.last, c);
    }
  }

  lemma InterruptStep(b: Trace, a: Action, c: Config)
    requires Follows(b, c) && Follows(Log(b, a), c)
    requires InterruptIn(PhaseOf(b, c), LastHeard(b, c), InterruptedData(b, c), c) && HeardIn(PhaseOf(b, c), LastHeard(b, c), c)
    requires StopIn(PhaseOf(b, c), LastHandled(b), SinceStop(b), Closed(b), c)
    requires !PhaseOf(b, c).ToStop? ==> (PhaseOf(b, c).Watch? <==> InDataPhase(b))
    ensures InterruptIn(PhaseOf(Log(b, a), c), LastHeard(Log(b, a), c), InterruptedData(Log(b, a), c), c)
  {
    hide AfterWait, AfterAct, InDataPhase, HeardIn;
    var p := PhaseOf(b, c);
    if p.Closing? || a.SetDone? {
    } else if a.Wait? {
      WaitsAtAwaits(b, a.answer, c);
      InterruptWait(p, a.answer, LastHeard(b, c), InterruptedData(b, c), c);
    } else {
      InterruptAct(p, b, a, LastHeard(b, c), InterruptedData(b, c), c);
    }
  }

  lemma InterruptWait(p: Phase, a: Answer, x: Option<(Phase, Answer)>, b: bool, c: Config)
    requires InterruptIn(p, x, b, c) && Awaits(p) && AfterWait(p, a, c) != Stuck
    ensures InterruptIn(AfterWait(p, a, c), Some((p, a)), b || (p.Watch? && Fires(c, a) && !a.limitReached), c)
  {
  }

  lemma InterruptAct(p: Phase, t: Trace, a: Action, x: Option<(Phase, Answer)>, b: bool, c: Config)
    requires InterruptIn(p, x, b, c) && HeardIn(p, x, c) && AfterAct(p, t, a, c) != Stuck && !a.Wait?
    ensures InterruptIn(AfterAct(p, t, a, c), x, b, c)
  {
  }

  lemma {:induction false} InterruptFinal(p: Phase, x: Option<(Phase, Answer)>, b: bool, c: Config)
    ensures InterruptIn(p, x, b, c) == InterruptIn(Final(p), x, b, c)
    decreases p
  {
    if p.Closing? {
      InterruptFinal(p.at, x, b, c);
    }
  }

  /** An interrupted run dumps as the data phase does exactly when its interrupt was heard there. */
  lemma InterruptedWhere(t: Trace, c: Config)
    requires Final(PhaseOf(t, c)) == Over(EndedAs(Interrupted))
    ensures InData(LastHeard(t, c)) <==> InterruptedData(t, c)
  {
    OverFollows(PhaseOf(t, c));
    InterruptHistory(t, c);
    InterruptFinal(PhaseOf(t, c), LastHeard(t, c), InterruptedData(t, c), c);
  }

  lemma OverFollows(p: Phase)
    requires Final(p).Over?
    ensures p != Stuck && !p.ToStop?
  {
  }

  // ---- What a report holds ----

  /** The start time a report carries: the last TestStart, else the last on_connect, else 0. */
  function StartMillis(t: Trace): nat {
    if LastTestStart(t).Some? then LastTestStart(t).value
    else if LastConnect(t).Some? then LastConnect(t).value
    else 0
  }

  /** A report of everything collected, with the start time of the history and the given window, half, end and error. */
  predicate IsReport(r: Report, t: Trace, c: Config, secs: real, peerHalf: bool, bareEnd: bool, hasError: bool) {
    && r.intervals == Samples(t, c)
    && r.stage.TimestampMillis() == StartMillis(t) && (r.stage.Started? <==> LastTestStart(t).Some?)
    && r.secs == secs && r.peerHalf == peerHalf && r.bareEnd == bareEnd && r.hasError == hasError
  }

  /** The dump of each occasion. */
  lemma DumpHolds(k: DumpKind, t: Trace, c: Config)
    requires Follows(t, c) && !PhaseOf(t, c).ToStop?
    ensures var r := DumpOf(k, t, c);
            match k
            case Summary => IsReport(r, t, c, Window(t, c), ResultsRead(t), false, false)
            case WaitInterrupted =>
              IsReport(r, t, c, if LastTestStart(t).Some? then Window(t, c) else 0.0, ResultsRead(t), false, true)
            case DataInterrupted => IsReport(r, t, c, Window(t, c), false, false, true)
            case ServerEnd => IsReport(r, t, c, Window(t, c), false, false, true)
            case ErrorRelay => IsReport(r, t, c, Window(t, c), false, true, true)
            case ControlLost => IsReport(r, t, c, Window(t, c), false, true, true)
            case BadResults => IsReport(r, t, c, Window(t, c), false, true, true)
  {
    hide PhaseOf, MeasuredSecs, Collected, Samples, Window, StageOf, LastTestStart, LastConnect;
    CollectedIsSamples(t, c);
    MeasuredIsWindow(t, c);
    DumpTimestamp(t);
  }

  // ---- What each handled state has done ----

  /** The actions of the state in hand, answers aside. */
  function Deeds(t: Trace): seq<Action> {
    if t.Empty? || t.last.Handle? then []
    else if t.last.Wait? then Deeds(t.before)
    else Deeds(t.before) + [t.last]
  }

  predicate Spawns(deeds: seq<Action>, n: nat) {
    |deeds| == n && forall i :: 0 <= i < n ==> deeds[i].Spawn?
  }

  /** All that a state which lets the run go on has done. */
  predicate DeedsOf(h: Option<TestState>, deeds: seq<Action>, c: Config) {
    match h
    case Some(ParamExchange) => |deeds| == 1 && deeds[0].Connected?
    case Some(CreateStreams) => Spawns(deeds, c.total)
    case Some(TestStart) => |deeds| == 1 && deeds[0].TestStarted?
    case Some(TestRunning) => deeds == [StopData, Send(TestState.TestEnd, true)]
    case Some(ExchangeResults) => deeds == [ReadResults]
    case _ => deeds == []
  }

  predicate DeedsIn(p: Phase, h: Option<TestState>, deeds: seq<Action>, c: Config) {
    match p
    case AtState => DeedsOf(h, deeds, c)
    case ParamSend => deeds == []
    case ToConnect(_) => deeds == []
    case ToStart(_) => deeds == []
    case Resolve(_) => deeds == []
    case Opening(n, _) => Spawns(deeds, n) && n < c.total
    case ToSpawn(n) => Spawns(deeds, n) && n < c.total
    case Gate => Spawns(deeds, c.total)
    case ResultsSend => deeds == []
    case ResultsWait => deeds == []
    case ToKeepResults => deeds == []
    case Watch => deeds == []
    case ToStop(_) => deeds == []
    case DataGrace(_) => deeds == [StopData]
    case ReporterJoin(_) => deeds == [StopData]
    case Sending(TellEnd) => deeds == [StopData]
    case ToSend(TellEnd, _) => deeds == [StopData]
    case _ => true
  }

  lemma {:induction false} DeedsHistory(t: Trace, c: Config)
    requires Follows(t, c)
    ensures DeedsIn(PhaseOf(t, c), LastHandled(t), Deeds(t), c)
  {
    if t.Log? {
      DeedsHistory(t.before, c);
      HandledState(t.before, c);
      DeedsStep(PhaseOf(t.before, c), t.before, t.last, c);
    }
  }

  lemma DeedsStep(p: Phase, b: Trace, a: Action, c: Config)
    requires After(p, b, a, c) != Stuck && HandledIn(p, LastHandled(b)) && DeedsIn(p, LastHandled(b), Deeds(b), c)
    ensures DeedsIn(After(p, b, a, c), LastHandled(Log(b, a)), Deeds(Log(b, a)), c)
  {
    hide AfterWait, AfterAct;
    if p.Closing? || a.SetDone? {
    } else if a.Wait? {
      DeedsWait(p, a.answer, LastHandled(b), Deeds(b), c);
    } else {
      DeedsAct(p, b, a, c);
    }
  }

  lemma DeedsWait(p: Phase, a: Answer, h: Option<TestState>, deeds: seq<Action>, c: Config)
    requires AfterWait(p, a, c) != Stuck && HandledIn(p, h) && DeedsIn(p, h, deeds, c)
    ensures DeedsIn(AfterWait(p, a, c), h, deeds, c)
  {
  }

  lemma DeedsAct(p: Phase, b: Trace, a: Action, c: Config)
    requires AfterAct(p, b, a, c) != Stuck && HandledIn(p, LastHandled(b)) && DeedsIn(p, LastHandled(b), Deeds(b), c)
    requires !a.Wait? && !p.Closing?
    ensures DeedsIn(AfterAct(p, b, a, c), LastHandled(Log(b, a)), Deeds(Log(b, a)), c)
  {
  }

  /** When a run waits for the next state, the state in hand has done exactly what it is for. */
  lemma StateIsDone(t: Trace, c: Config)
    requires Follows(t, c) && PhaseOf(t, c) == AtState
    ensures DeedsOf(LastHandled(t), Deeds(t), c)
  {
    DeedsHistory(t, c);
  }

  // ---- Answers and actions ----

  predicate JustHeard(t: Trace, ok: bool, clock: nat) {
    t.Log? && t.last.Wait? && t.last.answer.ok == ok && t.last.answer.clock == clock
  }

  /** Every stamp, message and handled state is what the answer just before it said. */
  lemma ActionsAnswer(b: Trace, a: Action, c: Config)
    requires Follows(Log(b, a), c)
    ensures a.Connected? ==> JustHeard(b, true, a.clock)
    ensures a.Send? ==> b.Log? && b.last.Wait? && b.last.answer.ok == a.delivered
    ensures a.Handle? ==> b.Log? && b.last.Wait? && b.last.answer.read == State(a.state) && !Fires(c, b.last.answer)
    ensures a.TestStarted? ==>
              && b.Log? && b.last == Handle(TestStart) && b.before.Log? && b.before.last.Wait?
              && b.before.last.answer.clock == a.clock
    ensures a == ReadResults ==> b.Log? && b.last.Wait? && b.last.answer.ok && !Fires(c, b.last.answer)
  {
    FollowsBefore(b, a, c);
    ActionOwed(PhaseOf(b, c), b, a, c);
    Owed(b, c);
    if a.TestStarted? {
      FollowsBefore(b.before, b.last, c);
      Owed(b.before, c);
    }
  }

  lemma FollowsBefore(b: Trace, a: Action, c: Config)
    requires Follows(Log(b, a), c)
    ensures Follows(b, c)
  {
  }

  /** What a run owes at a point, by what came just before. */
  predicate OwesIn(p: Phase, t: Trace, c: Config) {
    match p
    case ToConnect(clock) => JustHeard(t, true, clock)
    case ToSend(_, delivered) => t.Log? && t.last.Wait? && t.last.answer.ok == delivered
    case ToHandle(s, clock) =>
      t.Log? && t.last.Wait? && t.last.answer.read == State(s) && t.last.answer.clock == clock && !Fires(c, t.last.answer)
    case ToStart(clock) => t.Log? && t.last == Handle(TestStart) && PhaseOf(t.before, c) == ToHandle(TestStart, clock)
    case ToKeepResults => t.Log? && t.last.Wait? && t.last.answer.ok && !Fires(c, t.last.answer)
    case _ => true
  }

  lemma Owed(t: Trace, c: Config)
    requires Follows(t, c)
    ensures OwesIn(PhaseOf(t, c), t, c)
  {
    if t.Log? {
      OwedBy(PhaseOf(t.before, c), t.before, t.last, c);
    }
  }

  lemma ActionOwed(p: Phase, b: Trace, a: Action, c: Config)
    requires After(p, b, a, c) != Stuck
    ensures a.Connected? ==> p == ToConnect(a.clock)
    ensures a.Send? ==> p.ToSend? && p.delivered == a.delivered
    ensures a.Handle? ==> p.ToHandle? && p.state == a.state
    ensures a.TestStarted? ==> p == ToStart(a.clock)
    ensures a == ReadResults ==> p == ToKeepResults
  {
  }

  /** Which step makes a run owe an action. */
  lemma OwedBy(p: Phase, b: Trace, a: Action, c: Config)
    requires p == PhaseOf(b, c) && After(p, b, a, c) != Stuck
    ensures OwesIn(After(p, b, a, c), Log(b, a), c)
  {
  }

  /**
   No answer that calls for an end is passed over: a fired interrupt at a polling await is on its way to
   CLIENT_TERMINATE, a closed or failed read and a failed call end the run, and what ends a data phase stops it.
  */
  lemma NoAnswerIgnored(b: Trace, a: Answer, c: Config)
    requires Follows(Log(b, Wait(a)), c)
    ensures var p, q := PhaseOf(b, c), PhaseOf(Log(b, Wait(a)), c);
            && (p.AtState? || p.ResultsWait? ==> Fires(c, a) ==> q == Sending(TellInterrupt(false)))
            && (p.AtState? && !Fires(c, a) ==>
                  match a.read
                  case State(s) => q == ToHandle(s, a.clock)
                  case Eof => q == if c.json then ToDump(ControlLost) else Over(FailedAs(ControlSocketClosed))
                  case ReadError => q == Over(FailedAs(ReadFailed)))
            && (p.ResultsWait? && !Fires(c, a) && !a.ok ==>
                  q == if c.json then ToDump(BadResults) else Over(FailedAs(RecvResultsFailed)))
            && (p.ParamSend? || p.ResultsSend? ==> !a.ok ==> q == Over(FailedAs(SendFailed)))
            && (p.Resolve? || p.Opening? ==> !a.ok ==> q == Over(FailedAs(SetupFailed)))
            && (p.Watch? ==>
                  if EndsInTime(a, c) || a.read.Eof? || a.read.ReadError? then q == ToStop(a) else q == Watch)
  {
    if PhaseOf(b, c).Watch? {
      IntoStop(PhaseOf(b, c), b, Wait(a), c);
    }
  }

  /** What ended a data phase decides what follows its cleanup. */
  lemma DataLeadsTo(heard: Answer, c: Config)
    requires EndsInTime(heard, c) || heard.read.Eof? || heard.read.ReadError?
    ensures AfterData(heard, c)
         == if heard.limitReached then Sending(TellEnd)
            else if Fires(c, heard) then Sending(TellInterrupt(true))
            else if heard.read == State(ServerTerminate) then ToDump(ServerEnd)
            else if heard.read == State(ServerError) then Payload
            else if c.json then ToDump(ControlLost)
            else Over(FailedAs(ControlSocketClosed))
  {
  }
}
