/**
 `Client::run` from the first control state to the end of the run: the dispatch loop, its handlers, the
 stream tasks it spawns and the teardown.  The world is a script with one answer for every await; an
 exhausted script is the future being dropped at that await.
*/
module ClientRun {
  import opened ClientHistory
  import opened ClientReports
  import opened ClientTrace
  import opened Wrappers

  datatype ControlEvent = Signal | Terminate | RelayedError | Closed

  /** What a handler tells the dispatch loop; `Cancelled` is an await that never returned. */
  datatype Step =
    | Continue
    | Break
    | Return(report: Report, termination: Termination)
    | Fail(error: RunError)
    | Cancelled

  datatype Outcome = Ended(report: Report, termination: Termination) | Failed(error: RunError) | Dropped

  class Client {
    const cfg: Config

    var script: seq<Answer>
    var done: bool
    var start: bool
    // AbortStreamsOnDrop
    var handles: seq<nat>
    var armed: bool
    // RunCtx
    var streams: seq<nat>
    var serverResults: bool
    var finalReport: Option<Report>
    var intervalData: seq<Sample>
    var measuredSecs: real
    var stage: RunStage
    var prevState: TestState

    var nextTask: nat
    ghost var trace: Trace
    ghost const given: seq<Answer>    // the whole script

    constructor (cfg: Config, script: seq<Answer>)
      ensures Initial() && this.cfg == cfg && this.script == script
    {
      this.cfg, this.script, this.given := cfg, script, script;
      done, start, handles, armed := false, false, [], false;
      streams, serverResults, finalReport, intervalData, measuredSecs := [], false, None, [], cfg.duration;
      stage, prevState, nextTask, trace := PreTestStart(0), IperfStart, 0, Empty;
    }

    ghost predicate Initial()
      reads this
    {
      && !done && !start && handles == [] && !armed && streams == [] && !serverResults && finalReport.None?
      && intervalData == [] && measuredSecs == cfg.duration && stage == PreTestStart(0) && prevState == IperfStart
      && nextTask == 0 && trace == Empty && script == given
    }

    // ---- Invariants ----

    /** Where the run stands. */
    ghost function Phase(): Phase
      reads this
    {
      PhaseOf(trace, cfg)
    }

    /** What has been heard is what the script has given so far. */
    ghost predicate Tied()
      reads this
    {
      Answers(trace) + script == given
    }

    /** The guard covers exactly the spawned tasks, none stopped yet; every field is what the history says. */
    ghost predicate Running()
      reads this
    {
      && handles == streams && (armed <==> handles != []) && Live(trace, cfg, handles, nextTask)
      && done == DoneIsSet(trace) == Stopped(trace)
      && stage == StageOf(trace) && start == stage.Started? && serverResults == ResultsRead(trace)
      && Tied()
    }

    /** Nothing has been dumped, and everything collected is still there. */
    ghost predicate Underway()
      reads this
    {
      Running() && finalReport == None && intervalData == Collected(trace, cfg)
    }

    ghost predicate Idle()
      reads this
    {
      Underway() && measuredSecs == MeasuredSecs(trace, cfg)
    }

    /** What a handler that lets the loop go on leaves behind: the next state wait. */
    ghost predicate Onward()
      reads this
    {
      Idle() && Phase() == AtState
    }

    /** What holds after a handler, by what it told the loop. */
    ghost predicate After(s: Step)
      reads this
    {
      match s
      case Continue => Onward()
      case Cancelled => Running() && Awaits(Phase()) && script == []
      case _ => Running() && Phase().Over? && Settled(Conclusion(s, serverResults, finalReport), trace, cfg)
    }

    // ---- Awaiting ----

    /** One await: the next answer, or `None` when the future is dropped here. */
    method Await() returns (a: Option<Answer>)
      modifies this`script, this`trace
      ensures a.None? ==> script == old(script) == [] && trace == old(trace)
      ensures a.Some? ==> old(script) != [] && a.value == old(script)[0] && script == old(script)[1..]
      ensures a.Some? ==> trace == Log(old(trace), Wait(a.value))
      ensures old(Tied()) ==> Tied()
    {
      if script == [] {
        return None;
      }
      a := Some(script[0]);
      assert [script[0]] + script[1..] == script;
      script := script[1..];
      trace := Log(trace, Wait(a.value));
    }

    /** An await outside the data phase collects nothing. */
    method AwaitIdle() returns (a: Option<Answer>)
      requires Running() && Awaits(Phase()) && !Gathers(Phase())
      modifies this`script, this`trace
      ensures Running() && SameContent(old(trace), trace, cfg) && Within(old(trace), trace)
      ensures a.None? ==> old(script) == script == [] && trace == old(trace)
      ensures a.Some? ==> old(script) != [] && a.value == old(script)[0] && script == old(script)[1..]
      ensures a.Some? ==> trace == Log(old(trace), Wait(a.value)) && Phase() == AfterWait(old(Phase()), a.value, cfg)
    {
      hide Live, AfterWait, SameContent, MeasuredSecs, Collected;
      ghost var t := trace;
      SameSelf(t, cfg);
      a := Await();
      if a.Some? {
        LiveStep(t, cfg, handles, nextTask, Wait(a.value));
        QuietStep(t, Wait(a.value), cfg);
      }
    }

    /** An await of the data phase: the reporter goes on, and keeps its samples when the output is JSON. */
    method AwaitData() returns (a: Option<Answer>)
      requires Underway() && Gathers(Phase())
      modifies this`script, this`trace, this`intervalData
      ensures Underway() && MeasuredSecs(trace, cfg) == MeasuredSecs(old(trace), cfg) && Within(old(trace), trace)
      ensures a.None? ==> old(script) == script == [] && trace == old(trace)
      ensures a.Some? ==> old(script) != [] && a.value == old(script)[0] && script == old(script)[1..]
      ensures a.Some? ==> trace == Log(old(trace), Wait(a.value)) && Phase() == AfterWait(old(Phase()), a.value, cfg)
    {
      hide Live, AfterWait;
      ghost var t := trace;
      a := Await();
      if a.Some? {
        if cfg.json && cfg.reporting {
          intervalData := intervalData + a.value.samples;
        }
        LiveStep(t, cfg, handles, nextTask, Wait(a.value));
      }
    }

    /** `send_state`. */
    method SendState(m: Message) returns (sent: Option<bool>)
      requires Running() && Phase() == Sending(m)
      modifies this`script, this`trace
      ensures Running() && SameContent(old(trace), trace, cfg)
      ensures sent.None? ==> old(script) == script == [] && trace == old(trace)
      ensures sent.Some? ==> old(script) != [] && sent.value == old(script)[0].ok && script == old(script)[1..]
      ensures sent.Some? ==> trace == Log(Log(old(trace), Wait(old(script)[0])), Send(StateOf(m), sent.value))
      ensures sent.Some? ==> Phase() == AfterSend(m, sent.value, serverResults)
      ensures Within(old(trace), trace)
      ensures sent.Some? ==> Attempts(trace, StateOf(m)) == Attempts(old(trace), StateOf(m)) + 1
    {
      hide Live, SameContent, MeasuredSecs, Collected, PhaseOf, AfterWait, Within;
      ghost var t := trace;
      var a := AwaitIdle();
      if a.None? {
        return None;
      }
      ghost var u, act := trace, Send(StateOf(m), a.value.ok);
      SendPhase(t, cfg, m, a.value);
      WithinStep(t, u, act);
      assert Attempts(u, StateOf(m)) == Attempts(t, StateOf(m));
      LiveStep(u, cfg, handles, nextTask, act);
      QuietStep(u, act, cfg);
      SameTransitive(t, u, Log(u, act), cfg);
      trace := Log(trace, act);
      return Some(a.value.ok);
    }

    // ---- Dumps ----

    /** The one drain of the collected intervals, shared by `emit_results` and `partial_report`. */
    method Dump(ghost kind: DumpKind, peerHalf: bool, bareEnd: bool, secs: real, hasError: bool) returns (report: Report)
      requires Running() && Phase() == ToDump(kind) && intervalData == Collected(trace, cfg)
      requires Report(intervalData, stage, secs, peerHalf, bareEnd, hasError) == DumpOf(kind, trace, cfg)
      modifies this`intervalData, this`trace
      ensures Running() && Phase() == AfterDump(kind) && intervalData == []
      ensures report == DumpOf(kind, old(trace), cfg) && trace == Log(old(trace), Drain(report))
      ensures SameContent(old(trace), trace, cfg) && Within(old(trace), trace)
    {
      hide Live, DumpOf, SameContent, MeasuredSecs, Collected;
      report := Report(intervalData, stage, secs, peerHalf, bareEnd, hasError);
      intervalData := [];
      LiveStep(trace, cfg, handles, nextTask, Drain(report));
      QuietStep(trace, Drain(report), cfg);
      trace := Log(trace, Drain(report));
    }

    /** In the JSON modes only: everything collected, a bare end, the error. */
    method OnCtrlLost() returns (e: RunError)
      requires Idle() && Phase() == LosePhase(cfg)
      modifies this`intervalData, this`trace
      ensures After(Fail(e)) && e == ControlSocketClosed
      ensures trace == if cfg.json then Log(old(trace), Drain(DumpOf(ControlLost, old(trace), cfg))) else old(trace)
    {
      hide Live, MeasuredSecs, Collected, SameContent;
      if cfg.json {
        var _ := Dump(ControlLost, false, true, measuredSecs, true);
      }
      e := ControlSocketClosed;
    }

    method OnRecvResultsFailed() returns (e: RunError)
      requires Idle() && Phase() == if cfg.json then ToDump(BadResults) else Over(FailedAs(RecvResultsFailed))
      modifies this`intervalData, this`trace
      ensures After(Fail(e)) && e == RecvResultsFailed
      ensures trace == if cfg.json then Log(old(trace), Drain(DumpOf(BadResults, old(trace), cfg))) else old(trace)
    {
      hide Live, MeasuredSecs, Collected, SameContent;
      if cfg.json {
        var _ := Dump(BadResults, false, true, measuredSecs, true);
      }
      e := RecvResultsFailed;
    }

    /** An interrupt at an await outside the data phase: CLIENT_TERMINATE, then the dump with the peer's half if it came. */
    method OnInterruptedWait() returns (s: Step)
      requires Idle() && Phase() == Sending(TellInterrupt(false))
      modifies this
      ensures |script| <= |old(script)| && After(s) && Within(old(trace), trace)
      ensures s == if old(script) == [] then Cancelled else Return(DumpOf(WaitInterrupted, old(trace), cfg), Interrupted)
      ensures s.Return? ==> Attempts(trace, ClientTerminate) == Attempts(old(trace), ClientTerminate) + 1
    {
      hide Live, MeasuredSecs, Collected;
      ghost var t := trace;
      var sent := SendState(TellInterrupt(false));
      if sent.None? {
        return Cancelled;
      }
      SameDump(WaitInterrupted, t, trace, cfg);
      ghost var u := trace;
      var report := Dump(WaitInterrupted, serverResults, false, if stage.Started? then measuredSecs else 0.0, true);
      WithinTransitive(t, u, trace);
      return Return(report, Interrupted);
    }

    /** SERVER_TERMINATE, in any state or during the data phase. */
    method OnServerTerminate() returns (s: Step)
      requires Idle() && Phase() == ToDump(ServerEnd)
      modifies this
      ensures script == old(script) && After(s) && Within(old(trace), trace)
      ensures s == Return(DumpOf(ServerEnd, old(trace), cfg), ServerTerminated)
    {
      hide Live, MeasuredSecs, Collected, SameContent;
      var report := Dump(ServerEnd, false, false, measuredSecs, true);
      return Return(report, ServerTerminated);
    }

    /** Reads the relayed error pair, then dumps; text mode builds the same report without printing it. */
    method OnServerErrorRelay() returns (s: Step)
      requires Idle() && Phase() == Payload
      modifies this
      ensures |script| <= |old(script)| && After(s) && Within(old(trace), trace)
      ensures s == if old(script) == [] then Cancelled else Return(DumpOf(ErrorRelay, old(trace), cfg), ServerErrored)
    {
      hide Live, MeasuredSecs, Collected;
      ghost var t := trace;
      var a := AwaitIdle();
      if a.None? {
        return Cancelled;
      }
      SameDump(ErrorRelay, t, trace, cfg);
      ghost var u := trace;
      var report := Dump(ErrorRelay, false, true, measuredSecs, true);
      WithinTransitive(t, u, trace);
      return Return(report, ServerErrored);
    }

    // ---- Handlers ----

    method OnParamExchange() returns (s: Step)
      requires Idle() && Phase() == ParamSend
      modifies this
      ensures |script| <= |old(script)| && After(s) && Within(old(trace), trace)
      ensures s == if old(script) == [] then Cancelled else if old(script)[0].ok then Continue else Fail(SendFailed)
      ensures s.Continue? ==>
                var a := old(script)[0]; trace == Log(Log(old(trace), Wait(a)), Connected(a.clock))
    {
      hide Live;
      var a := AwaitIdle();
      if a.None? {
        return Cancelled;
      }
      if !a.value.ok {
        return Fail(SendFailed);
      }
      Connect(a.value.clock);
      return Continue;
    }

    /** Stamps on_connect, unless the test has started. */
    method Connect(clock: nat)
      requires Idle() && Phase() == ToConnect(clock)
      modifies this`stage, this`trace
      ensures Onward() && trace == Log(old(trace), Connected(clock))
    {
      hide Live;
      if !stage.Started? {
        stage := PreTestStart(clock);
      }
      LiveStep(trace, cfg, handles, nextTask, Connected(clock));
      trace := Log(trace, Connected(clock));
    }

    /** Spawns one task; the guard and the stream list take it with no await in between. */
    method SpawnStream(ghost spawned: nat)
      requires Idle() && Phase() == ToSpawn(spawned)
      modifies this`nextTask, this`trace, this`handles, this`armed, this`streams
      ensures Idle() && Phase() == NextStream(spawned + 1, cfg) && trace == Log(old(trace), Spawn(old(nextTask)))
      ensures Within(old(trace), trace) && Tasks(trace) == Tasks(old(trace)) + 1
    {
      hide Live, PhaseOf, MeasuredSecs, Collected;
      var task := nextTask;
      nextTask := nextTask + 1;
      LiveTasks(trace, cfg, handles, task);
      LiveSpawn(trace, cfg, handles, task);
      SpawnPhase(trace, cfg, spawned);
      QuietStep(trace, Spawn(task), cfg);
      trace := Log(trace, Spawn(task));
      handles, armed := handles + [task], true;
      streams := streams + [task];
    }

    /** An await of stream setup that may fail. */
    method SetupCall() returns (s: Step)
      requires Idle() && (Phase().Resolve? || Phase().Opening?)
      modifies this`script, this`trace
      ensures s == if old(script) == [] then Cancelled else if old(script)[0].ok then Continue else Fail(SetupFailed)
      ensures |script| <= |old(script)| && Within(old(trace), trace) && Tasks(trace) == Tasks(old(trace))
      ensures s.Continue? ==> |script| + 1 == |old(script)|
      ensures if s.Continue? then Idle() && Phase() == AfterWait(old(Phase()), old(script)[0], cfg) else After(s)
    {
      hide Live;
      var a := AwaitIdle();
      if a.None? {
        return Cancelled;
      }
      return if a.value.ok then Continue else Fail(SetupFailed);
    }

    /** Opens one stream's socket: connect and send the cookie, or bind, connect and shake hands. */
    method OpenStream(ghost spawned: nat) returns (s: Step)
      requires Idle() && Phase() == Opening(spawned, CallsPerStream(cfg))
      modifies this`script, this`trace
      ensures |script| <= |old(script)| && Within(old(trace), trace) && Tasks(trace) == Tasks(old(trace))
      ensures s.Continue? || s.Cancelled? || s == Fail(SetupFailed)
      ensures s.Continue? ==> |script| + (if cfg.udp then 3 else 2) == |old(script)|
      ensures if s.Continue? then Idle() && Phase() == ToSpawn(spawned) else After(s)
    {
      hide Live, Settled, PhaseOf, MeasuredSecs, Collected, StageOf, ResultsRead, Answers, Tasks, Within;
      ghost var t := trace;
      s := SetupCall();
      if s.Continue? {
        ghost var u := trace;
        s := SetupCall();
        WithinTransitive(t, u, trace);
      }
      if s.Continue? && cfg.udp {
        ghost var u := trace;
        s := SetupCall();
        WithinTransitive(t, u, trace);
      }
    }

    /** Resolves the host, and the source address of -B. */
    method ResolveUdp() returns (s: Step)
      requires Idle() && Phase() == Resolve(if cfg.bound then 2 else 1)
      modifies this`script, this`trace
      ensures |script| <= |old(script)| && Within(old(trace), trace) && Tasks(trace) == Tasks(old(trace))
      ensures s.Continue? || s.Cancelled? || s == Fail(SetupFailed)
      ensures s.Continue? ==> |script| + (if cfg.bound then 2 else 1) == |old(script)|
      ensures if s.Continue? then Idle() && Phase() == NextStream(0, cfg) else After(s)
    {
      hide Live;
      ghost var t := trace;
      s := SetupCall();
      if s.Continue? && cfg.bound {
        ghost var u := trace;
        s := SetupCall();
        WithinTransitive(t, u, trace);
      }
    }

    /** The thread gate of a UDP run; it never fails. */
    method PassGate() returns (s: Step)
      requires Idle() && Phase() == Gate
      modifies this`script, this`trace
      ensures |script| <= |old(script)| && After(s) && Within(old(trace), trace) && Tasks(trace) == Tasks(old(trace))
      ensures s == if old(script) == [] then Cancelled else Continue
      ensures s.Continue? ==> |script| + 1 == |old(script)|
    {
      hide Live;
      var a := AwaitIdle();
      return if a.None? then Cancelled else Continue;
    }

    /** Opens one stream, then spawns it. */
    method AddStream(ghost spawned: nat) returns (s: Step)
      requires Idle() && Phase() == Opening(spawned, CallsPerStream(cfg))
      modifies this
      ensures |script| <= |old(script)| && Within(old(trace), trace)
      ensures s.Continue? || s.Cancelled? || s == Fail(SetupFailed)
      ensures if s.Continue? then Idle() && Phase() == NextStream(spawned + 1, cfg) else After(s)
      ensures s.Continue? ==> Tasks(trace) == Tasks(old(trace)) + 1
      ensures s.Continue? ==> |script| + (if cfg.udp then 3 else 2) == |old(script)|
    {
      hide Live, PhaseOf, MeasuredSecs, Collected, Settled;
      ghost var t := trace;
      s := OpenStream(spawned);
      if s.Continue? {
        ghost var u := trace;
        SpawnStream(spawned);
        WithinTransitive(t, u, trace);
      }
    }

    /** Opens each stream, then spawns it; a failure or a cancel leaves the earlier ones guarded. */
    method OnCreateStreams() returns (s: Step)
      requires Idle() && Phase() == StartSetup(cfg)
      modifies this
      ensures |script| <= |old(script)| && After(s) && Within(old(trace), trace)
      ensures s.Continue? || s.Cancelled? || s == Fail(SetupFailed)
      ensures s.Continue? ==> Tasks(trace) == Tasks(old(trace)) + cfg.total
      ensures s.Continue? ==>
                |old(script)| - |script|
                == if cfg.udp then (if cfg.bound then 2 else 1) + 3 * cfg.total + 1 else 2 * cfg.total
    {
      hide Live, PhaseOf, MeasuredSecs, Collected;
      s := Continue;
      WithinSelf(trace);
      if cfg.udp {
        s := ResolveUdp();
        if !s.Continue? {
          return;
        }
      }
      for i := 0 to cfg.total
        invariant Idle() && Phase() == NextStream(i, cfg) && |script| <= |old(script)|
        invariant s.Continue? && Within(old(trace), trace) && Tasks(trace) == Tasks(old(trace)) + i
        invariant |old(script)| - |script| == if cfg.udp then (if cfg.bound then 2 else 1) + 3 * i else 2 * i
      {
        ghost var t := trace;
        s := AddStream(i);
        WithinTransitive(old(trace), t, trace);
        if !s.Continue? {
          return;
        }
      }
      if cfg.udp {
        ghost var t := trace;
        s := PassGate();
        WithinTransitive(old(trace), t, trace);
      }
    }

    method OnTestStart(clock: nat)
      requires Idle() && Phase() == ToStart(clock)
      modifies this`start, this`stage, this`trace
      ensures Onward() && start && stage == Started(clock) && trace == Log(old(trace), TestStarted(clock))
    {
      hide Live;
      start := true;
      stage := Started(clock);
      LiveStep(trace, cfg, handles, nextTask, TestStarted(clock));
      trace := Log(trace, TestStarted(clock));
    }

    /** The data phase: the end condition, the control socket and the interrupt race; other states are ignored. */
    method WatchData() returns (event: Option<Option<ControlEvent>>, secs: real)
      requires Underway() && Phase() == Watch
      modifies this`script, this`intervalData, this`trace
      ensures |script| <= |old(script)| && Underway() && Within(old(trace), trace)
      ensures MeasuredSecs(trace, cfg) == MeasuredSecs(old(trace), cfg)
      ensures event.None? ==> script == [] && Phase() == Watch
      ensures event.Some? ==> Phase().ToStop? && EndsData(cfg, Phase().heard)
      ensures event.Some? ==> event.value == EventOf(cfg, Phase().heard) && secs == Phase().heard.elapsed
    {
      hide Live, MeasuredSecs, Collected;
      WithinSelf(trace);
      while true
        invariant Underway() && Phase() == Watch && |script| <= |old(script)| && Within(old(trace), trace)
        invariant MeasuredSecs(trace, cfg) == MeasuredSecs(old(trace), cfg)
        decreases |script|
      {
        var a := AwaitData();
        if a.None? {
          return None, 0.0;
        }
        secs := a.value.elapsed;
        if a.value.limitReached {
          return Some(None), secs;
        }
        if a.value.interrupt && cfg.interruptible {
          return Some(Some(Signal)), secs;
        }
        match a.value.read {
          case State(ServerTerminate) => return Some(Some(Terminate)), secs;
          case State(ServerError) => return Some(Some(RelayedError)), secs;
          case State(_) =>
          case Eof => return Some(Some(Closed)), secs;
          case ReadError => return Some(Some(Closed)), secs;
        }
      }
    }

    /** `done` stops the senders first; the reporter still runs. */
    method StopSenders(ghost heard: Answer)
      requires Underway() && Phase() == ToStop(heard) && EndsData(cfg, heard)
      modifies this`done, this`trace
      ensures Underway() && done && Phase() == DataGrace(heard) && trace == Log(old(trace), StopData)
      ensures MeasuredSecs(trace, cfg)
           == if EventOf(cfg, heard) == Some(Closed) then MeasuredSecs(old(trace), cfg) else heard.elapsed
    {
      ClosedLoses(cfg, heard);
      hide Live, EndsData, EventOf, LosesControl, PhaseOf, MeasuredSecs, Collected, StageOf, ResultsRead, Answers;
      StopPhase(trace, cfg, heard);
      done := true;
      LiveStep(trace, cfg, handles, nextTask, StopData);
      trace := Log(trace, StopData);
    }

    /** The grace for in-flight data, then the reporter's end, which flushes the last interval. */
    method AwaitReporter(ghost heard: Answer) returns (complete: bool)
      requires Underway() && Phase() == DataGrace(heard)
      modifies this`script, this`intervalData, this`trace
      ensures |script| <= |old(script)| && Within(old(trace), trace) && Underway()
      ensures if complete then Phase() == AfterData(heard, cfg) else script == [] && Awaits(Phase())
      ensures MeasuredSecs(trace, cfg) == MeasuredSecs(old(trace), cfg)
    {
      hide Live, MeasuredSecs, Collected, AfterData;
      ghost var t := trace;
      var a := AwaitData();
      if a.None? {
        return false;
      }
      if cfg.reporting {
        ghost var u := trace;
        a := AwaitData();
        WithinTransitive(t, u, trace);
        return a.Some?;
      }
      return true;
    }

    /** `run_test`: the watch, then the cleanup every one of its own exits passes through. */
    method RunTest() returns (event: Option<Option<ControlEvent>>, secs: real, ghost heard: Answer)
      requires Idle() && Phase() == Watch
      modifies this`script, this`intervalData, this`trace, this`done
      ensures |script| <= |old(script)| && Within(old(trace), trace)
      ensures event.None? ==> After(Cancelled)
      ensures event.Some? ==> Underway() && Phase() == AfterData(heard, cfg) && Stopped(trace) && EndsData(cfg, heard)
      ensures event.Some? ==> event.value == EventOf(cfg, heard) && secs == heard.elapsed
      ensures event.Some? ==> MeasuredSecs(trace, cfg) == if event.value == Some(Closed) then measuredSecs else secs
    {
      hide Live, EndsData, EventOf, MeasuredSecs, Collected, AfterData;
      ghost var t := trace;
      event, secs := WatchData();
      heard := *;
      if event.None? {
        return;
      }
      heard := Phase().heard;
      StopSenders(heard);
      ghost var u := trace;
      var complete := AwaitReporter(heard);
      WithinTransitive(t, u, trace);
      WithinStopped(u, trace);
      if !complete {
        return None, 0.0, heard;
      }
    }

    /** A signal during the data phase: tell the server, then dump what this host has. */
    method OnInterruptedData() returns (s: Step)
      requires Idle() && Phase() == Sending(TellInterrupt(true))
      modifies this
      ensures |script| <= |old(script)| && After(s) && Within(old(trace), trace)
      ensures s == if old(script) == [] then Cancelled else Return(DumpOf(DataInterrupted, old(trace), cfg), Interrupted)
      ensures s.Return? ==> Attempts(trace, ClientTerminate) == Attempts(old(trace), ClientTerminate) + 1
    {
      hide Live, MeasuredSecs, Collected;
      ghost var t := trace;
      var sent := SendState(TellInterrupt(true));
      if sent.None? {
        return Cancelled;
      }
      SameDump(DataInterrupted, t, trace, cfg);
      ghost var u := trace;
      var report := Dump(DataInterrupted, false, false, measuredSecs, true);
      WithinTransitive(t, u, trace);
      return Return(report, Interrupted);
    }

    /** The end condition was met: tell the server. */
    method OnDataEnded() returns (s: Step)
      requires Idle() && Phase() == Sending(TellEnd)
      modifies this
      ensures |script| <= |old(script)| && After(s) && Within(old(trace), trace)
      ensures s == if old(script) == [] then Cancelled else if old(script)[0].ok then Continue else Fail(SendFailed)
      ensures !s.Cancelled? ==> Attempts(trace, TestEnd) == Attempts(old(trace), TestEnd) + 1
    {
      hide Live, MeasuredSecs, Collected;
      var sent := SendState(TellEnd);
      if sent.None? {
        return Cancelled;
      }
      return if sent.value then Continue else Fail(SendFailed);
    }

    /** `heard` is the answer that ended the data phase. */
    method OnTestRunning() returns (s: Step, ghost heard: Answer)
      requires Idle() && Phase() == Watch
      modifies this
      ensures |script| <= |old(script)| && After(s) && Within(old(trace), trace)
      ensures !s.Cancelled? ==> Stopped(trace) && EndsData(cfg, heard) && DataFits(EventOf(cfg, heard), s)
    {
      hide Live, MeasuredSecs, Collected, EndsData;
      ghost var t := trace;
      var event, secs;
      event, secs, heard := RunTest();
      if event.None? {
        return Cancelled, heard;
      }
      ghost var u := trace;
      DataPhase(heard, cfg);
      if event.value == Some(Closed) {
        var e := OnCtrlLost();
        WithinTransitive(t, u, trace);
        return Fail(e), heard;
      }
      measuredSecs := secs;
      if event.value == Some(Terminate) {
        s := OnServerTerminate();
      } else if event.value == Some(RelayedError) {
        s := OnServerErrorRelay();
      } else if event.value == Some(Signal) {
        s := OnInterruptedData();
      } else {
        s := OnDataEnded();
      }
      WithinTransitive(t, u, trace);
      WithinStopped(u, trace);
    }

    /** The peer's results have arrived. */
    method TakeResults()
      requires Idle() && Phase() == ToKeepResults
      modifies this`serverResults, this`trace
      ensures Onward() && serverResults && trace == Log(old(trace), ReadResults)
    {
      hide Live;
      serverResults := true;
      LiveStep(trace, cfg, handles, nextTask, ReadResults);
      trace := Log(trace, ReadResults);
    }

    /** The results read: an interrupt, the peer's results, or a failed read. */
    method ReceiveResults() returns (s: Step)
      requires Idle() && Phase() == ResultsWait
      modifies this
      ensures |script| <= |old(script)| && After(s) && Within(old(trace), trace)
      ensures if old(script) == [] then s == Cancelled else ResultsFit(old(script)[0], cfg, s)
      ensures s.Continue? ==> ResultsRead(trace)
    {
      hide Live, MeasuredSecs, Collected;
      ghost var t := trace;
      var a := AwaitIdle();
      if a.None? {
        return Cancelled;
      }
      ghost var u := trace;
      if a.value.interrupt && cfg.interruptible {
        s := OnInterruptedWait();
        WithinTransitive(t, u, trace);
      } else if a.value.ok {
        TakeResults();
        return Continue;
      } else {
        var e := OnRecvResultsFailed();
        return Fail(e);
      }
    }

    method OnExchangeResults() returns (s: Step)
      requires Idle() && Phase() == ResultsSend
      modifies this
      ensures |script| <= |old(script)| && After(s) && Within(old(trace), trace)
      ensures old(script) != [] && !old(script)[0].ok ==> s == Fail(SendFailed)
      ensures |old(script)| >= 2 && old(script)[0].ok ==> ResultsFit(old(script)[1], cfg, s)
      ensures |old(script)| < 2 && (old(script) == [] || old(script)[0].ok) ==> s == Cancelled
      ensures s.Continue? ==> ResultsRead(trace)
    {
      hide Live, MeasuredSecs, Collected, ResultsFit;
      ghost var t := trace;
      var a := AwaitIdle();         // send_results
      if a.None? {
        return Cancelled;
      }
      if !a.value.ok {
        return Fail(SendFailed);
      }
      ghost var u := trace;
      s := ReceiveResults();
      WithinTransitive(t, u, trace);
    }

    /** The summary is dumped and kept for the end of the run. */
    method KeepSummary()
      requires Idle() && Phase() == ToDump(Summary)
      modifies this`intervalData, this`trace, this`finalReport
      ensures Running() && Phase() == Sending(TellDone) && Within(old(trace), trace)
      ensures finalReport == Some(DumpOf(Summary, old(trace), cfg)) && Dumped(trace) == finalReport
      ensures IsReport(finalReport.value, old(trace), cfg, Window(old(trace), cfg), old(serverResults), false, false)
    {
      hide Live, MeasuredSecs, Collected, SameContent, IsReport, Window;
      DumpHolds(Summary, trace, cfg);
      var report := Dump(Summary, serverResults, false, measuredSecs, false);
      finalReport := Some(report);
    }

    /** The summary, then IPERF_DONE. */
    method OnDisplayResults() returns (s: Step)
      requires Idle() && Phase() == ToDump(Summary)
      modifies this
      ensures |script| <= |old(script)| && After(s) && Within(old(trace), trace)
      ensures s == if old(script) == [] then Cancelled else if old(script)[0].ok then Break else Fail(SendFailed)
      ensures finalReport == Some(DumpOf(Summary, old(trace), cfg)) && Dumped(trace) == finalReport
      ensures IsReport(finalReport.value, old(trace), cfg, Window(old(trace), cfg), old(serverResults), false, false)
      ensures s.Break? ==> Last(trace, Send(TestState.IperfDone, true))
    {
      hide Live, MeasuredSecs, Collected, DumpOf, SameContent, IsReport, Window;
      ghost var t := trace;
      KeepSummary();
      ghost var u := trace;
      var sent := SendState(TellDone);
      WithinTransitive(t, u, trace);
      if sent.None? {
        return Cancelled;
      }
      SendKeepsDump(u, trace.before.last, trace.last);
      return if sent.value then Break else Fail(SendFailed);
    }

    // ---- The dispatch loop ----

    method Begin(state: TestState, ghost clock: nat)
      requires Idle() && Phase() == ToHandle(state, clock)
      modifies this`trace
      ensures Idle() && Phase() == AfterHandle(state, clock, serverResults, cfg) && trace == Log(old(trace), Handle(state))
    {
      hide Live;
      LiveStep(trace, cfg, handles, nextTask, Handle(state));
      trace := Log(trace, Handle(state));
    }

    /** The arm of one control state. */
    method HandleState(state: TestState, clock: nat) returns (s: Step)
      requires Idle() && Phase() == AfterHandle(state, clock, serverResults, cfg)
      modifies this
      ensures |script| <= |old(script)| && After(s)
      ensures Within(old(trace), trace) && DispatchFits(state, s)
    {
      hide Underway, Running, MeasuredSecs, PhaseOf, DumpOf, After, Within, Collected, StageOf, ResultsRead;
      ghost var t := trace;
      WithinSelf(t);
      match state {
        case ParamExchange => s := OnParamExchange();
        case CreateStreams => s := OnCreateStreams();
        case TestStart =>
          OnTestStart(clock);
          WithinStep(t, t, TestStarted(clock));
          OnwardContinues();
          s := Continue;
        case TestRunning =>
          ghost var heard;
          s, heard := OnTestRunning();
        case ExchangeResults => s := OnExchangeResults();
        case DisplayResults => s := OnDisplayResults();
        case IperfDone =>
          DoneSettles();
          s := Break;
        case AccessDenied =>
          DeniedSettles();
          s := Fail(ServerBusy);
        case ServerError => s := OnServerErrorRelay();
        case ServerTerminate => s := OnServerTerminate();
        case _ =>
          OnwardContinues();
          s := Continue;
      }
    }

    /** One control state, in whatever order the server sends them. */
    method Dispatch(state: TestState, clock: nat) returns (s: Step)
      requires Idle() && Phase() == ToHandle(state, clock)
      modifies this
      ensures |script| <= |old(script)| && After(s)
      ensures LastHandled(trace) == Some(state) && Prefix(Log(old(trace), Handle(state)), trace)
      ensures DispatchFits(state, s)
    {
      hide Underway, Running, MeasuredSecs, PhaseOf, After, Within, DispatchFits, AfterHandle;
      Begin(state, clock);
      ghost var t := trace;
      s := HandleState(state, clock);
      WithinIsPrefix(t, trace);
      Advance(s, state);
    }

    lemma OnwardContinues()
      requires Idle() && Phase() == AtState
      ensures After(Continue)
    {
    }

    lemma DoneSettles()
      requires Idle() && Phase() == Over(FailedAs(if serverResults then NotDisplayed else MissingResults))
      ensures After(Break)
    {
    }

    lemma DeniedSettles()
      requires Idle() && Phase() == Over(FailedAs(ServerBusy))
      ensures After(Fail(ServerBusy))
    {
    }

    /** The cursor kept for diagnostics only. */
    method Advance(s: Step, state: TestState)
      requires After(s)
      modifies this`prevState
      ensures After(s)
    {
      if s.Continue? {
        prevState := state;
      }
    }

    /** What the state wait gave: an interrupt, a state, a clean close or a read error. */
    method OnAnswer(a: Answer) returns (s: Step)
      requires Idle() && Phase() == AfterState(a, cfg)
      modifies this
      ensures |script| <= |old(script)| && After(s) && Prefix(old(trace), trace)
      ensures Interrupts(cfg, a) ==> s.Cancelled? || (s.Return? && s.termination == Interrupted)
      ensures !Interrupts(cfg, a) && a.read.State? ==>
                LastHandled(trace) == Some(a.read.state) && DispatchFits(a.read.state, s)
      ensures !Interrupts(cfg, a) && a.read.Eof? ==> s == Fail(ControlSocketClosed)
      ensures !Interrupts(cfg, a) && a.read.ReadError? ==> s == Fail(ReadFailed)
    {
      hide Underway, Running, MeasuredSecs, DispatchFits;
      ghost var t := trace;
      if a.interrupt && cfg.interruptible {
        s := OnInterruptedWait();
        WithinIsPrefix(t, trace);
      } else if a.read.State? {
        s := Dispatch(a.read.state, a.clock);
        PrefixTransitive(t, Log(t, Handle(a.read.state)), trace);
      } else if a.read.Eof? {
        var e := OnCtrlLost();
        s := Fail(e);
      } else {
        ReadErrorSettles();
        s := Fail(ReadFailed);
      }
    }

    lemma ReadErrorSettles()
      requires Idle() && Phase() == Over(FailedAs(ReadFailed))
      ensures After(Fail(ReadFailed))
    {
    }

    /** Waits for states, or an interrupt, until something ends the run. */
    method Loop() returns (s: Step)
      requires Onward()
      modifies this
      ensures After(s) && !s.Continue? && Prefix(old(trace), trace)
    {
      hide Live, MeasuredSecs, Collected;
      s := Continue;
      while s.Continue?
        invariant After(s) && Prefix(old(trace), trace)
        decreases |script|, s.Continue?
      {
        var a := AwaitIdle();
        if a.None? {
          s := Cancelled;
        } else {
          ghost var u := trace;
          s := OnAnswer(a.value);
          PrefixTransitive(old(trace), u, trace);
        }
      }
    }

    // ---- Teardown ----

    /** While tasks may be live, the guard holds every one of them. */
    ghost predicate Guarded()
      reads this
    {
      (armed <==> handles != []) && Held(trace, cfg, handles) && Tied()
    }

    /** `done`, the owed grace, then abort and join every stream task, then disarm; false when cancelled inside. */
    method Teardown() returns (complete: bool)
      requires Running() && Phase().Over?
      modifies this
      ensures Ordered(trace) && !ControlDropped(trace) && Reported(trace, cfg) && Tied()
      ensures Story(old(trace), trace, cfg) && Phase().Closing?
      ensures serverResults == old(serverResults) && finalReport == old(finalReport)
      ensures Graced(trace) ==> GraceOwed(old(trace))
      ensures complete ==> !armed && Aborted(trace) == Joined(trace) == Spawned(trace)
      ensures complete && GraceOwed(old(trace)) ==> Graced(trace)
      ensures !complete ==> Guarded() && script == []
    {
      hide Story, Held, PhaseOf;
      complete := OweGrace();
      ghost var t := trace;
      if complete {
        AbortAll();
        StoryTransitive(old(trace), t, trace, cfg);
        ghost var u := trace;
        HeldParts(u, cfg, handles);
        complete := JoinAll();
        StoryTransitive(old(trace), u, trace, cfg);
      }
      HeldParts(trace, cfg, handles);
      if complete {
        armed, handles := false, [];
      }
    }

    /** Sets `done`; the sleep is owed only when nobody had, for streams of a started test. */
    method OweGrace() returns (complete: bool)
      requires Running() && Phase().Over?
      modifies this`done, this`trace, this`script
      ensures Guarded() && DoneIsSet(trace) && Aborted(trace) == {} && Joined(trace) == {}
      ensures Story(old(trace), trace, cfg) && Phase().Closing?
      ensures Graced(trace) <==> GraceOwed(old(trace))
      ensures !complete ==> script == []
    {
      LiveIsHeld(trace, cfg, handles, nextTask);
      SomeStream(streams);
      hide Story, Held, Live, PhaseOf;
      ghost var t := trace;
      var graceOwed := !done;
      SetDoneFlag();
      if graceOwed && streams != [] && stage.Started? {
        ghost var u := trace;
        StoryStep(t, u, Grace, cfg);
        HeldStep(u, cfg, handles, Grace);
        trace := Log(trace, Grace);
        ghost var v := trace;
        complete := AwaitTeardown();
        StoryTransitive(t, v, trace, cfg);
        return;
      }
      return true;
    }

    /** `done`, at the start of the teardown or of the drop. */
    method SetDoneFlag()
      requires Held(trace, cfg, handles) && Tied() && (Phase().Over? || Awaits(Phase()) || Phase().Closing?)
      modifies this`done, this`trace
      ensures done && trace == Log(old(trace), SetDone) && DoneIsSet(trace) && Tied()
      ensures Held(trace, cfg, handles) && Story(old(trace), trace, cfg) && Phase().Closing?
      ensures Aborted(trace) == old(Aborted(trace)) && Joined(trace) == old(Joined(trace)) && Graced(trace) == old(Graced(trace))
    {
      hide Story, Held, PhaseOf;
      done := true;
      StorySelf(trace, cfg);
      StoryStep(trace, trace, SetDone, cfg);
      HeldStep(trace, cfg, handles, SetDone);
      trace := Log(trace, SetDone);
    }

    /** An await of the teardown. */
    method AwaitTeardown() returns (answered: bool)
      requires Held(trace, cfg, handles) && Tied() && Phase().Closing?
      modifies this`trace, this`script
      ensures Held(trace, cfg, handles) && Tied() && Phase().Closing? && Story(old(trace), trace, cfg)
      ensures DoneIsSet(trace) == old(DoneIsSet(trace)) && Graced(trace) == old(Graced(trace))
      ensures Aborted(trace) == old(Aborted(trace)) && Joined(trace) == old(Joined(trace))
      ensures !answered ==> script == []
    {
      hide Story, Held, PhaseOf;
      ghost var t := trace;
      StorySelf(t, cfg);
      var a := Await();
      if a.None? {
        return false;
      }
      StoryStep(t, t, Wait(a.value), cfg);
      HeldStep(t, cfg, handles, Wait(a.value));
      return true;
    }

    method AbortAll()
      requires handles == streams && Guarded() && DoneIsSet(trace) && Aborted(trace) == {} && Phase().Closing?
      modifies this`trace
      ensures Guarded() && Aborted(trace) == Spawned(trace) && Joined(trace) == old(Joined(trace))
      ensures Story(old(trace), trace, cfg) && Phase().Closing? && Graced(trace) == old(Graced(trace))
    {
      hide Story, Held, PhaseOf, First;
      StorySelf(trace, cfg);
      FirstAll(streams);
      for i := 0 to |streams|
        invariant handles == streams && Guarded() && DoneIsSet(trace)
        invariant Story(old(trace), trace, cfg) && Phase().Closing?
        invariant Aborted(trace) == First(streams, i) && Joined(trace) == old(Joined(trace))
        invariant Graced(trace) == old(Graced(trace))
      {
        FirstStep(streams, i);
        StoryStep(old(trace), trace, Abort(streams[i]), cfg);
        HeldStep(trace, cfg, handles, Abort(streams[i]));
        trace := Log(trace, Abort(streams[i]));
      }
      HeldParts(trace, cfg, handles);
    }

    /** Awaits one aborted task. */
    method JoinNext(task: nat) returns (complete: bool)
      requires Guarded() && Phase().Closing? && task in Aborted(trace)
      modifies this`trace, this`script
      ensures Guarded() && Story(old(trace), trace, cfg) && Phase().Closing?
      ensures Aborted(trace) == old(Aborted(trace)) && Graced(trace) == old(Graced(trace))
      ensures Joined(trace) == old(Joined(trace)) + if complete then {task} else {}
      ensures !complete ==> script == []
    {
      hide Story, Held, PhaseOf;
      ghost var t := trace;
      complete := AwaitTeardown();
      if complete {
        StoryStep(t, trace, Join(task), cfg);
        HeldStep(trace, cfg, handles, Join(task));
        trace := Log(trace, Join(task));
      }
    }

    /** `drain(..)` empties the list at once; a cancel drops the rest of it. */
    method JoinAll() returns (complete: bool)
      requires handles == streams && Guarded() && Joined(trace) == {} && Aborted(trace) == Spawned(trace)
      requires Phase().Closing?
      modifies this`trace, this`script, this`streams
      ensures Guarded() && Aborted(trace) == old(Aborted(trace)) && Story(old(trace), trace, cfg) && Phase().Closing?
      ensures complete ==> Joined(trace) == Spawned(trace)
      ensures !complete ==> script == []
      ensures Graced(trace) == old(Graced(trace))
    {
      HeldParts(trace, cfg, handles);
      hide Story, Held, PhaseOf, First, Joined, Aborted, Spawned, Graced, Ordered, Reported, ControlDropped, Answers;
      StorySelf(trace, cfg);
      FirstAll(streams);
      var tasks := streams;
      streams := [];
      for i := 0 to |tasks|
        invariant tasks == handles && Guarded() && Story(old(trace), trace, cfg) && Phase().Closing?
        invariant Joined(trace) == First(tasks, i) && Aborted(trace) == old(Aborted(trace))
        invariant Graced(trace) == old(Graced(trace))
      {
        ghost var t := trace;
        FirstStep(tasks, i);
        complete := JoinNext(tasks[i]);
        StoryTransitive(old(trace), t, trace, cfg);
        if !complete {
          return;
        }
      }
      HeldParts(trace, cfg, handles);
      return true;
    }

    /** The abort guard's drop: aborts what it still holds. */
    method DropGuard()
      requires Ordered(trace) && !ControlDropped(trace) && Reported(trace, cfg) && DoneIsSet(trace) && Phase().Closing?
      requires (armed ==> Spawned(trace) == set h | h in handles) && (!armed ==> NoLeak(trace)) && Tied()
      modifies this`trace
      ensures NoLeak(trace) && Ordered(trace) && !ControlDropped(trace) && Reported(trace, cfg) && Tied()
      ensures Story(old(trace), trace, cfg) && Phase().Closing?
      ensures Joined(trace) == old(Joined(trace)) && Graced(trace) == old(Graced(trace)) && Spawned(trace) == old(Spawned(trace))
      ensures !armed ==> trace == old(trace)
    {
      hide Story, PhaseOf, Ordered, ControlDropped, Reported, Spawned, Joined, Graced, Answers;
      StorySelf(trace, cfg);
      if armed {
        for i := 0 to |handles|
          invariant Ordered(trace) && !ControlDropped(trace) && Reported(trace, cfg) && DoneIsSet(trace) && Tied()
          invariant Story(old(trace), trace, cfg) && Phase().Closing?
          invariant Joined(trace) == old(Joined(trace)) && Graced(trace) == old(Graced(trace))
          invariant Spawned(trace) == old(Spawned(trace)) && forall j :: 0 <= j < i ==> handles[j] in Aborted(trace)
        {
          AbortKeepsTasks(trace, cfg, handles[i]);
          StoryStep(old(trace), trace, Abort(handles[i]), cfg);
          trace := Log(trace, Abort(handles[i]));
        }
      }
    }

    /** The locals drop in reverse order: `done`, then the abort guard, then the context with the control socket. */
    method DropLocals()
      requires Ordered(trace) && !ControlDropped(trace) && Reported(trace, cfg) && Tied()
      requires Phase().Over? || Awaits(Phase()) || Phase().Closing?
      requires (armed ==> Spawned(trace) == set h | h in handles) && (!armed ==> NoLeak(trace))
      modifies this`done, this`trace
      ensures NoLeak(trace) && Ordered(trace) && Last(trace, DropControl) && Reported(trace, cfg) && Tied()
      ensures Story(old(trace), trace, cfg) && Phase().Closing?
      ensures Joined(trace) == old(Joined(trace)) && Graced(trace) == old(Graced(trace)) && Spawned(trace) == old(Spawned(trace))
      ensures !armed ==> Aborted(trace) == old(Aborted(trace))
    {
      hide Story, PhaseOf, Ordered, ControlDropped, Reported, Spawned, Aborted, Joined, Graced, NoLeak, Answers, DoneIsSet, Last;
      ghost var t := trace;
      StorySelf(t, cfg);
      StoryStep(t, t, SetDone, cfg);
      DoneKeepsTasks(t, cfg);
      done := true;
      trace := Log(trace, SetDone);
      ghost var u := trace;
      DropGuard();
      StoryTransitive(t, u, trace, cfg);
      StoryStep(t, trace, DropControl, cfg);
      DropKeepsTasks(trace, cfg);
      trace := Log(trace, DropControl);
    }

    // ---- The whole run ----

    /** The result once the teardown is complete: the outcome of the loop, then the checks of a clean end. */
    method Conclude(s: Step) returns (o: Outcome)
      requires !s.Cancelled? && !s.Continue?
      ensures o == Conclusion(s, serverResults, finalReport)
    {
      match s {
        case Return(report, termination) => return Ended(report, termination);
        case Fail(e) => return Failed(e);
        case Break =>
          if !serverResults {
            return Failed(MissingResults);
          }
          if finalReport.None? {
            return Failed(NotDisplayed);
          }
          return Ended(finalReport.value, Completed);
      }
    }

    /** Before the teardown the guard holds every task and no grace has been taken. */
    lemma RunningIsGuarded(s: Step)
      requires After(s)
      ensures Ordered(trace) && !ControlDropped(trace) && Reported(trace, cfg) && Tied() && !Graced(trace)
      ensures (armed ==> Spawned(trace) == set h | h in handles) && (!armed ==> NoLeak(trace))
    {
      SomeStream(handles);
    }

    lemma InitialIsOnward()
      requires Initial()
      ensures Onward()
    {
      SomeStream(handles);
    }

    lemma CancelledWaits(s: Step)
      requires After(s) && s.Cancelled?
      ensures Awaits(Phase()) && script == [] && Settled(Dropped, trace, cfg)
    {
    }

    lemma LoopIsOver(s: Step)
      requires After(s) && !s.Cancelled? && !s.Continue?
      ensures Running() && Phase().Over? && Settled(Dropped, trace, cfg)
      ensures Settled(Conclusion(s, serverResults, finalReport), trace, cfg)
      ensures !Conclusion(s, serverResults, finalReport).Dropped?
    {
    }

    lemma TeardownGuards(complete: bool)
      requires if complete then !armed && Joined(trace) == Spawned(trace) else Guarded()
      ensures (armed ==> Spawned(trace) == set h | h in handles) && (!armed ==> NoLeak(trace))
    {
      SomeStream(handles);
    }

    /** From the end of the loop on: the teardown, the result, and the drop of the locals. */
    method CloseDown(s: Step) returns (o: Outcome)
      requires After(s) && !s.Continue?
      modifies this
      ensures Tied() && Phase().Closing? && Reported(trace, cfg)
      ensures Story(old(trace), trace, cfg) && Settled(o, old(trace), cfg)
      ensures NoLeak(trace) && Ordered(trace) && Last(trace, DropControl)
      ensures !o.Dropped? ==> Aborted(trace) == Joined(trace) == Spawned(trace)
      ensures Graced(trace) ==> GraceOwed(old(trace))
      ensures !o.Dropped? && GraceOwed(old(trace)) ==> Graced(trace)
      ensures o.Dropped? ==> script == []
    {
      hide *;
      RunningIsGuarded(s);
      o := Dropped;
      if s.Cancelled? {
        CancelledWaits(s);
        DropLocals();
        return;
      }
      LoopIsOver(s);
      ghost var t := trace;
      var complete := Teardown();
      ghost var u := trace;
      TeardownGuards(complete);
      if complete {
        o := Conclude(s);
      }
      DropLocals();
      StoryTransitive(t, u, trace, cfg);
    }

    /**
     The run.  Whatever states the server sends, whatever fails, and wherever the future is dropped: the
     history follows the protocol on the answers of the script; no stream task is left running, `done`
     precedes every abort and the control socket goes last; the one dump and the outcome are what the history
     calls for; and a run is dropped only where the script has no answer left.
    */
    method Run() returns (o: Outcome)
      requires Initial()
      modifies this
      ensures Answers(trace) + script == old(script)
      ensures Phase().Closing? && Reported(trace, cfg) && Settled(o, trace, cfg)
      ensures NoLeak(trace) && Ordered(trace) && Last(trace, DropControl)
      ensures !o.Dropped? ==> Aborted(trace) == Joined(trace) == Spawned(trace)
      ensures OneDump(o, trace, cfg)
      ensures OutcomeAgrees(o, trace, cfg)
      ensures ReportStands(o, trace, cfg)
      ensures Graced(trace) ==> !Stopped(trace) && Spawned(trace) != {} && LastTestStart(trace).Some?
      ensures !o.Dropped? && !Stopped(trace) && Spawned(trace) != {} && LastTestStart(trace).Some? ==> Graced(trace)
      ensures o.Dropped? ==> script == []
    {
      assert given == script;
      hide *;
      InitialIsOnward();
      var s := Loop();
      ghost var t := trace;
      o := CloseDown(s);
      OutcomeStory(o, t, trace, cfg);
      OutcomeFollows(o, trace, cfg);
      ReportFollows(o, trace, cfg);
      GraceIsOwed(trace);
    }
  }

  // ---- Tasks ----

  /** The spawned tasks are exactly the held ones, numbered below `next`, and none has been stopped. */
  predicate Live(t: Trace, c: Config, held: seq<nat>, next: nat) {
    && Spawned(t) == (set h | h in held) && (forall h :: h in held ==> h < next) && Tasks(t) == next
    && Aborted(t) == {} && Joined(t) == {}
    && !Graced(t) && !ControlDropped(t) && Ordered(t) && Reported(t, c)
  }

  lemma LiveTasks(t: Trace, c: Config, held: seq<nat>, next: nat)
    requires Live(t, c, held, next)
    ensures Tasks(t) == next
  {
  }

  lemma SpawnPhase(t: Trace, c: Config, spawned: nat)
    requires PhaseOf(t, c) == ToSpawn(spawned)
    ensures PhaseOf(Log(t, Spawn(Tasks(t))), c) == NextStream(spawned + 1, c)
  {
  }

  lemma SendPhase(t: Trace, c: Config, m: Message, a: Answer)
    requires PhaseOf(t, c) == Sending(m)
    ensures var u := Log(t, Wait(a));
            PhaseOf(Log(u, Send(StateOf(m), a.ok)), c) == AfterSend(m, a.ok, ResultsRead(u))
  {
    assert PhaseOf(Log(t, Wait(a)), c) == ToSend(m, a.ok);
  }

  lemma StopPhase(t: Trace, c: Config, heard: Answer)
    requires PhaseOf(t, c) == ToStop(heard)
    ensures var u := Log(t, StopData);
            && PhaseOf(u, c) == DataGrace(heard) && Collected(u, c) == Collected(t, c)
            && StageOf(u) == StageOf(t) && ResultsRead(u) == ResultsRead(t) && Answers(u) == Answers(t)
            && MeasuredSecs(u, c) == if LosesControl(c, heard) then MeasuredSecs(t, c) else heard.elapsed
  {
  }

  lemma LiveIsHeld(t: Trace, c: Config, held: seq<nat>, next: nat)
    requires Live(t, c, held, next)
    ensures Held(t, c, held) && Aborted(t) == {} && Joined(t) == {} && !Graced(t) && Spawned(t) == (set h | h in held)
  {
  }

  lemma LiveStep(t: Trace, c: Config, held: seq<nat>, next: nat, a: Action)
    requires Live(t, c, held, next)
    requires !a.Spawn? && !a.Abort? && !a.Join? && !a.Grace? && !a.DropControl?
    requires a.Drain? ==> PhaseOf(t, c).ToDump? && a.report == DumpOf(PhaseOf(t, c).kind, t, c)
    ensures Live(Log(t, a), c, held, next)
  {
    hide PhaseOf, DumpOf;
  }

  lemma LiveSpawn(t: Trace, c: Config, held: seq<nat>, next: nat)
    requires Live(t, c, held, next)
    ensures Live(Log(t, Spawn(next)), c, held + [next], next + 1)
  {
    assert (set h | h in held + [next]) == (set h | h in held) + {next};
  }

  /** The held tasks are exactly the spawned ones, and the control socket is still open. */
  predicate Held(t: Trace, c: Config, held: seq<nat>) {
    Spawned(t) == (set h | h in held) && Ordered(t) && !ControlDropped(t) && Reported(t, c)
  }

  lemma HeldStep(t: Trace, c: Config, held: seq<nat>, a: Action)
    requires Held(t, c, held) && TearsDown(a) && !a.DropControl?
    requires a.Abort? ==> DoneIsSet(t)
    requires a.Join? ==> a.task in Aborted(t)
    ensures Held(Log(t, a), c, held)
  {
  }

  lemma HeldParts(t: Trace, c: Config, held: seq<nat>)
    requires Held(t, c, held)
    ensures Spawned(t) == (set h | h in held) && Ordered(t) && !ControlDropped(t) && Reported(t, c)
  {
  }

  lemma DoneKeepsTasks(t: Trace, c: Config)
    requires Ordered(t) && !ControlDropped(t) && Reported(t, c)
    ensures var u := Log(t, SetDone);
            && Ordered(u) && !ControlDropped(u) && Reported(u, c) && DoneIsSet(u) && Answers(u) == Answers(t)
            && Spawned(u) == Spawned(t) && Aborted(u) == Aborted(t) && Joined(u) == Joined(t)
            && Graced(u) == Graced(t) && (NoLeak(t) ==> NoLeak(u))
  {
  }

  lemma AbortKeepsTasks(t: Trace, c: Config, task: nat)
    requires Ordered(t) && !ControlDropped(t) && Reported(t, c) && DoneIsSet(t)
    ensures var u := Log(t, Abort(task));
            && Ordered(u) && !ControlDropped(u) && Reported(u, c) && DoneIsSet(u) && Answers(u) == Answers(t)
            && Spawned(u) == Spawned(t) && Aborted(u) == Aborted(t) + {task} && Joined(u) == Joined(t)
            && Graced(u) == Graced(t)
  {
  }

  lemma DropKeepsTasks(t: Trace, c: Config)
    requires Ordered(t) && !ControlDropped(t) && Reported(t, c)
    ensures var u := Log(t, DropControl);
            && Ordered(u) && Reported(u, c) && Answers(u) == Answers(t) && Last(u, DropControl) && Spawned(u) == Spawned(t) && Aborted(u) == Aborted(t) && Joined(u) == Joined(t)
            && Graced(u) == Graced(t) && (NoLeak(t) ==> NoLeak(u))
  {
  }

  /** The first k tasks of a list. */
  function First(tasks: seq<nat>, k: nat): set<nat>
    requires k <= |tasks|
  {
    set h | h in tasks[..k]
  }

  lemma FirstStep(tasks: seq<nat>, k: nat)
    requires k < |tasks|
    ensures First(tasks, k + 1) == First(tasks, k) + {tasks[k]}
    ensures tasks[k] in First(tasks, |tasks|)
  {
    assert tasks[..k + 1] == tasks[..k] + [tasks[k]];
    assert tasks[..|tasks|] == tasks;
  }

  lemma FirstAll(tasks: seq<nat>)
    ensures First(tasks, 0) == {} && First(tasks, |tasks|) == set h | h in tasks
  {
    assert tasks[..|tasks|] == tasks;
  }

  lemma SendKeepsDump(t: Trace, a: Action, z: Action)
    requires !a.Drain? && !z.Drain?
    ensures Dumped(Log(Log(t, a), z)) == Dumped(t)
  {
    assert Dumped(Log(t, a)) == Dumped(t);
  }

  lemma SomeStream(streams: seq<nat>)
    ensures (set h | h in streams) == {} <==> streams == []
  {
    var all := set h | h in streams;
    if streams == [] {
      assert all == {};
    } else {
      assert streams[0] in all;
    }
  }

  // ---- What a handler may answer ----

  /** What an answer means to the data phase; `None` when the end condition was met. */
  function EventOf(c: Config, a: Answer): Option<ControlEvent> {
    if a.limitReached then None
    else if Interrupts(c, a) then Some(Signal)
    else if a.read == State(ServerTerminate) then Some(Terminate)
    else if a.read == State(ServerError) then Some(RelayedError)
    else Some(Closed)
  }

  lemma ClosedLoses(c: Config, a: Answer)
    requires EndsData(c, a)
    ensures EventOf(c, a) == Some(Closed) <==> LosesControl(c, a)
  {
  }

  lemma DataPhase(heard: Answer, c: Config)
    requires EndsData(c, heard)
    ensures AfterData(heard, c)
         == match EventOf(c, heard)
            case None => Sending(TellEnd)
            case Some(Signal) => Sending(TellInterrupt(true))
            case Some(Terminate) => ToDump(ServerEnd)
            case Some(RelayedError) => Payload
            case Some(Closed) => LosePhase(c)
  {
  }

  /** Which step each event of the data phase leads to, unless the run is dropped there. */
  predicate DataFits(event: Option<ControlEvent>, s: Step) {
    match event
    case None => s == Continue || s == Fail(SendFailed)
    case Some(Signal) => s.Return? && s.termination == Interrupted
    case Some(Terminate) => s.Return? && s.termination == ServerTerminated
    case Some(RelayedError) => s.Return? && s.termination == ServerErrored
    case Some(Closed) => s == Fail(ControlSocketClosed)
  }

  /** Which step each answer of the results read leads to. */
  predicate ResultsFit(a: Answer, c: Config, s: Step) {
    if Interrupts(c, a) then s.Cancelled? || (s.Return? && s.termination == Interrupted)
    else if a.ok then s == Continue
    else s == Fail(RecvResultsFailed)
  }

  /** Which steps each control state can lead to. */
  predicate DispatchFits(state: TestState, s: Step) {
    match state
    case ParamExchange => s == Continue || s == Fail(SendFailed) || s == Cancelled
    case CreateStreams => s == Continue || s == Fail(SetupFailed) || s == Cancelled
    case TestStart => s == Continue
    case TestRunning => !s.Break?
    case ExchangeResults =>
      || s == Continue || s == Fail(SendFailed) || s == Fail(RecvResultsFailed) || s == Cancelled
      || (s.Return? && s.termination == Interrupted)
    case DisplayResults => s == Break || s == Fail(SendFailed) || s == Cancelled
    case IperfDone => s == Break
    case AccessDenied => s == Fail(ServerBusy)
    case ServerError => s == Cancelled || (s.Return? && s.termination == ServerErrored)
    case ServerTerminate => s.Return? && s.termination == ServerTerminated
    case _ => s == Continue
  }

  // ---- Outcomes ----

  /** The outcome of a run whose teardown completes. */
  function Conclusion(s: Step, serverResults: bool, finalReport: Option<Report>): Outcome
    requires !s.Cancelled? && !s.Continue?
  {
    match s
    case Return(report, termination) => Ended(report, termination)
    case Fail(e) => Failed(e)
    case Break =>
      if !serverResults then Failed(MissingResults)
      else if finalReport.None? then Failed(NotDisplayed)
      else Ended(finalReport.value, Completed)
  }

  /** The outcome is the ending the protocol came to, and its report the one dumped; a dropped run promises neither. */
  predicate Settled(o: Outcome, t: Trace, c: Config) {
    match o
    case Ended(report, termination) => Final(PhaseOf(t, c)) == Over(EndedAs(termination)) && Dumped(t) == Some(report)
    case Failed(e) => Final(PhaseOf(t, c)) == Over(FailedAs(e))
    case Dropped => true
  }

  function EndingOf(o: Outcome): Ending
    requires !o.Dropped?
  {
    if o.Ended? then EndedAs(o.termination) else FailedAs(o.error)
  }

  /** The occasion of the dump that a run ending so returns. */
  function KindOf(termination: Termination, inData: bool): DumpKind {
    match termination
    case Completed => Summary
    case Interrupted => if inData then DataInterrupted else WaitInterrupted
    case ServerTerminated => ServerEnd
    case ServerErrored => ErrorRelay
  }

  /**
   At most one dump.  A run that ends well dumps once, and returns that report; a lost control connection or
   a failed results read dumps in the JSON modes only; any other failure has dumped only if the results were
   already displayed.  Every dump is the report its occasion makes of the whole history.
  */
  predicate OneDump(o: Outcome, t: Trace, c: Config) {
    && Drains(t) == (if Dumped(t).Some? then 1 else 0)
    && match o
       case Ended(report, termination) =>
         Dumped(t) == Some(report) && report == DumpOf(KindOf(termination, InData(LastHeard(t, c))), t, c)
       case Failed(ControlSocketClosed) => Dumped(t) == if c.json then Some(DumpOf(ControlLost, t, c)) else None
       case Failed(RecvResultsFailed) => Dumped(t) == if c.json then Some(DumpOf(BadResults, t, c)) else None
       case Failed(_) => Dumped(t) == if LastHandled(t) == Some(DisplayResults) then Some(DumpOf(Summary, t, c)) else None
       case Dropped => DumpStands(t, c)
  }

  /** Unless the run was dropped, its outcome is the one that what was handled, sent and heard calls for. */
  predicate OutcomeAgrees(o: Outcome, t: Trace, c: Config) {
    !o.Dropped? ==> EndedBySending(EndingOf(o), t, c) && EndedByHearing(EndingOf(o), LastHeard(t, c), c)
  }

  lemma OutcomeStory(o: Outcome, t: Trace, u: Trace, c: Config)
    requires Story(t, u, c)
    ensures Settled(o, t, c) == Settled(o, u, c) && GraceOwed(t) == GraceOwed(u)
  {
    hide PhaseOf, CountsOf, LastHeard;
  }

  lemma OutcomeFollows(o: Outcome, t: Trace, c: Config)
    requires Follows(t, c) && Reported(t, c) && Settled(o, t, c)
    ensures OneDump(o, t, c) && OutcomeAgrees(o, t, c)
  {
    hide EndedBySending, EndedByHearing, DumpOf;
    DumpLosesNothing(t, c);
    AtMostOnce(t, c);
    DumpCounted(t);
    if !o.Dropped? {
      var e := EndingOf(o);
      EndingBySending(e, t, c);
      EndingByHearing(e, t, c);
      OverFacts(t, c, e);
      FinalDump(PhaseOf(t, c), LastHandled(t), InData(LastHeard(t, c)), c);
    }
  }

  /**
   The report of a run, and what the history alone says it holds.  A complete run's has the peer's half and a
   full end; an interrupted one's has the peer's half if it had arrived and the interrupt came outside a data
   phase, and then a zero window before TestStart; no other has the peer's half, unless the summary of displayed
   results is what a late failure leaves.  The bare end is for a relayed error, a lost control connection and a
   failed results read.
  */
  predicate ReportStands(o: Outcome, t: Trace, c: Config) {
    match o
    case Ended(r, Completed) => ResultsRead(t) && IsReport(r, t, c, Window(t, c), true, false, false)
    case Ended(r, Interrupted) =>
      if InterruptedData(t, c) then IsReport(r, t, c, Window(t, c), false, false, true)
      else IsReport(r, t, c, if LastTestStart(t).Some? then Window(t, c) else 0.0, ResultsRead(t), false, true)
    case Ended(r, ServerTerminated) => IsReport(r, t, c, Window(t, c), false, false, true)
    case Ended(r, ServerErrored) => IsReport(r, t, c, Window(t, c), false, true, true)
    case Failed(e) =>
      Dumped(t).Some? ==>
        if e == ControlSocketClosed || e == RecvResultsFailed then
          c.json && IsReport(Dumped(t).value, t, c, Window(t, c), false, true, true)
        else
          LastHandled(t) == Some(DisplayResults)
          && IsReport(Dumped(t).value, t, c, Window(t, c), ResultsRead(t), false, false)
    case Dropped => true
  }

  lemma ReportFollows(o: Outcome, t: Trace, c: Config)
    requires Follows(t, c) && Settled(o, t, c) && OneDump(o, t, c) && OutcomeAgrees(o, t, c)
    ensures ReportStands(o, t, c)
  {
    hide DumpOf, IsReport, Window, EndedByHearing, InterruptedData, PhaseOf;
    if !o.Dropped? {
      OverFollows(PhaseOf(t, c));
      SettledReport(o, t, c);
    }
  }

  lemma SettledReport(o: Outcome, t: Trace, c: Config)
    requires !o.Dropped? && Follows(t, c) && Final(PhaseOf(t, c)) == Over(EndingOf(o)) && !PhaseOf(t, c).ToStop?
    requires OneDump(o, t, c) && EndedBySending(EndingOf(o), t, c)
    ensures ReportStands(o, t, c)
  {
    hide DumpOf, IsReport, Window, InterruptedData, PhaseOf;
    DumpHolds(Summary, t, c);
    match o
    case Ended(_, Completed) =>
    case Ended(_, Interrupted) =>
      InterruptedWhere(t, c);
      DumpHolds(WaitInterrupted, t, c);
      DumpHolds(DataInterrupted, t, c);
    case Ended(_, ServerTerminated) => DumpHolds(ServerEnd, t, c);
    case Ended(_, ServerErrored) => DumpHolds(ErrorRelay, t, c);
    case Failed(ControlSocketClosed) => DumpHolds(ControlLost, t, c);
    case Failed(RecvResultsFailed) => DumpHolds(BadResults, t, c);
    case Failed(_) =>
  }

  lemma GraceIsOwed(t: Trace)
    ensures GraceOwed(t) <==> !Stopped(t) && Spawned(t) != {} && LastTestStart(t).Some?
  {
    DumpTimestamp(t);
  }
}
