/** What may end up in a function-graph file, whatever control writes fail. */
module Isolation {
  import opened Common
  import opened Tracefs
  import opened EventLoop
  import opened SlotProofs

  /** While a capture is active tracing is on for its thread alone and the buffer holds that thread's events
      since the capture began; otherwise tracing is off unless switching it off has failed. */
  ghost predicate TracingOk(l: Loop) {
    l.fs.Some? ==>
      if l.active.Some? then Armed(l.fs.value, l.active.value.tid, l.since)
      else l.fs.value.on ==> l.fs.value.offFailed
  }

  /** The text is exactly the capture thread's events between begin and end that pass the graph filter. */
  ghost predicate Exact(o: Output) { o.text == EventsOf(o.happened, o.capture.tid, o.graph) }

  ghost predicate OutputsOk(l: Loop) { forall o :: o in l.outputs ==> Exact(o) }

  lemma BeginTraces(cfg: LoopConfig, l: Loop, tid: Tid, st: SyscallState)
    requires TracingOk(l) && l.active == None
    ensures TracingOk(BeginCapture(cfg, l, tid, st).0) && BeginCapture(cfg, l, tid, st).0.outputs == l.outputs
  {
    hide Begin, Armed;
    if l.fs.Some? {
      BeginArms(l.fs.value, cfg.faults, tid, cfg.graphFunction(st.call.nr));
    }
  }

  lemma FinishTraces(cfg: LoopConfig, l: Loop)
    requires TracingOk(l) && OutputsOk(l)
    ensures var r := FinishCapture(cfg, l); TracingOk(r) && OutputsOk(r)
  {
    hide End, Reset;
    if l.active.Some? && l.fs.Some? {
      EndYieldsBuffer(l.fs.value, cfg.faults);
      ResetSwitchesOff(End(l.fs.value, cfg.faults).0, cfg.faults);
    }
  }

  lemma {:induction false} ResumeTraces(cfg: LoopConfig, l: Loop)
    requires TracingOk(l) && OutputsOk(l)
    ensures TracingOk(ResumeWaiting(cfg, l)) && OutputsOk(ResumeWaiting(cfg, l))
    decreases |l.waiting|
  {
    hide BeginCapture;
    if l.active == None && l.waiting != [] {
      var tid, rest := l.waiting[0], l.(waiting := l.waiting[1..]);
      if tid !in l.states || !l.states[tid].active || !l.states[tid].fgraphWaiting {
        ResumeTraces(cfg, rest);
      } else {
        BeginTraces(cfg, rest, tid, l.states[tid].(fgraphWaiting := false));
        BeginTakesSlot(cfg, rest, tid, l.states[tid].(fgraphWaiting := false));
        ResumeTraces(cfg, ServeOne(cfg, rest, tid));
      }
    }
  }

  lemma HandleTraces(cfg: LoopConfig, l: Loop, ev: Event)
    requires TracingOk(l) && OutputsOk(l)
    ensures var r := Handle(cfg, l, ev); TracingOk(r) && OutputsOk(r)
  {
    hide BeginCapture, FinishCapture, ResumeWaiting, Armed;
    match ev
    case Gone(tid) =>
      FinishTraces(cfg, l);
      ResumeTraces(cfg, Forget(if Names(l.active, tid) then FinishCapture(cfg, l) else l, tid));
    case SyscallStop(tid, Some(r)) =>
      if AtExit(l, tid) {
        var l1 := CompleteSyscall(cfg, l, tid, l.states[tid], r.raw);
        FinishTraces(cfg, l1);
        ResumeTraces(cfg, FinishCapture(cfg, l1));
      } else if l.active == None {
        BeginTraces(cfg, l, tid, SyscallState(true, r.internal, r.call, r.ts, false, false));
      }
    case _ =>
  }

  lemma StepTraces(cfg: LoopConfig, l: Loop, a: Action)
    requires TracingOk(l) && OutputsOk(l)
    ensures var r := Step(cfg, l, a); TracingOk(r) && OutputsOk(r)
  {
    hide Handle;
    match a
    case Kernel(e) =>
      if l.fs.Some? && l.active.Some? {
        RecordKeepsArmed(l.fs.value, l.active.value.tid, l.since, e);
      }
    case Tracer(ds, ws, ev) => HandleTraces(cfg, Halt(Drained(l, ds, ws), ev), ev);
  }

  /** Main result, capture isolation: in every run, with kernel events of any thread at any point and any
      control access failing, each text handed out holds exactly its own thread's events; and tracing is on
      only for the thread of the active capture, unless a write of tracing_on=0 has failed. */
  lemma {:induction false} CapturesAreIsolated(cfg: LoopConfig, l: Loop, actions: seq<Action>)
    requires Initial(l)
    ensures var r := Run(cfg, l, actions);
      && (forall o :: o in r.outputs ==> Exact(o))
      && (r.fs.Some? && r.fs.value.on && !r.fs.value.offFailed ==> r.active.Some? && r.fs.value.pids == {r.active.value.tid})
    decreases |actions|
  {
    RunTraces(cfg, l, actions);
  }

  lemma {:induction false} RunTraces(cfg: LoopConfig, l: Loop, actions: seq<Action>)
    requires Initial(l)
    ensures TracingOk(Run(cfg, l, actions)) && OutputsOk(Run(cfg, l, actions))
    decreases |actions|
  {
    hide Step;
    if actions != [] {
      RunTraces(cfg, l, actions[..|actions| - 1]);
      StepTraces(cfg, Run(cfg, l, actions[..|actions| - 1]), actions[|actions| - 1]);
    }
  }

  /** The active capture runs with the filter it asks for, the entry function of its call; the filter file is there. */
  ghost predicate FilterOk(cfg: LoopConfig, l: Loop) {
    && (l.fs.Some? ==> l.fs.value.hasGraphFile)
    && (l.active.Some? && l.fs.Some? ==>
          l.fs.value.graph == l.active.value.graphFunction && l.active.value.graphFunction == cfg.graphFunction(l.active.value.call.nr))
    && forall o :: o in l.outputs ==> Filtered(cfg, o)
  }

  /** The file was recorded under the entry function of its call. */
  predicate Filtered(cfg: LoopConfig, o: Output) {
    o.graph == o.capture.graphFunction && o.capture.graphFunction == cfg.graphFunction(o.capture.call.nr)
  }

  lemma BeginKeepsFilter(cfg: LoopConfig, l: Loop, tid: Tid, st: SyscallState)
    requires NothingFails(cfg.faults) && FilterOk(cfg, l) && l.active == None
    ensures var r := BeginCapture(cfg, l, tid, st).0; FilterOk(cfg, r)
  {
    hide Begin, ArmsOk;
    if l.fs.Some? {
      var func := cfg.graphFunction(st.call.nr);
      BeginSucceedsIff(l.fs.value, cfg.faults, tid, func);
      AllArms(l.fs.value, cfg.faults, func);
      BeginRunsFiltered(l.fs.value, cfg.faults, tid, func);
      FileStays(l.fs.value, cfg.faults, tid, func);
    }
  }

  lemma AllArms(fs: TraceFs, faults: Faults, func: Option<string>)
    requires NothingFails(faults)
    ensures ArmsOk(fs, faults, func)
  {}

  lemma FileStays(fs: TraceFs, faults: Faults, tid: Tid, func: Option<string>)
    requires ArmsOk(fs, faults, func)
    ensures Begin(fs, faults, tid, func).0.hasGraphFile == fs.hasGraphFile
  {
    hide WriteThree, GraphFilter;
    var (selected, ok) := WriteThree(fs, faults, TracingOn(false), ClearPids, SetPid(tid));
    ThreeCount(fs, faults, TracingOn(false), ClearPids, SetPid(tid));
    ThreeCount(GraphFilter(selected, faults, func), faults, SetTracer(FunctionGraph), ClearTrace, TracingOn(true));
  }

  lemma EndKeepsFile(fs: TraceFs, faults: Faults)
    ensures End(fs, faults).0.hasGraphFile == fs.hasGraphFile
  {}

  lemma ResetKeepsFile(fs: TraceFs, faults: Faults)
    requires NothingFails(faults)
    ensures Reset(fs, faults).0.hasGraphFile == fs.hasGraphFile
  {
    hide WriteThree, GraphFilter;
    var off := Write(fs, faults, TracingOn(false)).0;
    ThreeCount(GraphFilter(off, faults, None), faults, ClearPids, SetTracer(Nop), ClearTrace);
  }

  lemma FinishKeepsFilter(cfg: LoopConfig, l: Loop)
    requires NothingFails(cfg.faults) && FilterOk(cfg, l)
    ensures FilterOk(cfg, FinishCapture(cfg, l))
  {
    hide End, Reset;
    if l.active.Some? && l.fs.Some? {
      EndKeepsFile(l.fs.value, cfg.faults);
      ResetKeepsFile(End(l.fs.value, cfg.faults).0, cfg.faults);
    }
  }

  lemma {:induction false} ResumeKeepsFilter(cfg: LoopConfig, l: Loop)
    requires NothingFails(cfg.faults) && FilterOk(cfg, l)
    ensures FilterOk(cfg, ResumeWaiting(cfg, l))
    decreases |l.waiting|
  {
    hide BeginCapture;
    if l.active == None && l.waiting != [] {
      var tid, rest := l.waiting[0], l.(waiting := l.waiting[1..]);
      if tid !in l.states || !l.states[tid].active || !l.states[tid].fgraphWaiting {
        ResumeKeepsFilter(cfg, rest);
      } else {
        BeginKeepsFilter(cfg, rest, tid, l.states[tid].(fgraphWaiting := false));
        BeginTakesSlot(cfg, rest, tid, l.states[tid].(fgraphWaiting := false));
        ResumeKeepsFilter(cfg, ServeOne(cfg, rest, tid));
      }
    }
  }

  lemma HandleKeepsFilter(cfg: LoopConfig, l: Loop, ev: Event)
    requires NothingFails(cfg.faults) && FilterOk(cfg, l)
    ensures FilterOk(cfg, Handle(cfg, l, ev))
  {
    hide BeginCapture, FinishCapture, ResumeWaiting, Filtered;
    match ev
    case Gone(tid) =>
      FinishKeepsFilter(cfg, l);
      ResumeKeepsFilter(cfg, Forget(if Names(l.active, tid) then FinishCapture(cfg, l) else l, tid));
    case SyscallStop(tid, Some(r)) =>
      if AtExit(l, tid) {
        var l1 := CompleteSyscall(cfg, l, tid, l.states[tid], r.raw);
        FinishKeepsFilter(cfg, l1);
        ResumeKeepsFilter(cfg, FinishCapture(cfg, l1));
      } else if l.active == None {
        BeginKeepsFilter(cfg, l, tid, SyscallState(true, r.internal, r.call, r.ts, false, false));
      }
    case _ =>
  }

  /** Main result, filters: where the filter file is there and no control access fails, every text handed out in a run
      was recorded below the kernel entry function of its call. */
  lemma {:induction false} CapturesAreFiltered(cfg: LoopConfig, l: Loop, actions: seq<Action>)
    requires Initial(l) && NothingFails(cfg.faults) && (l.fs.Some? ==> l.fs.value.hasGraphFile)
    ensures forall o :: o in Run(cfg, l, actions).outputs ==> Filtered(cfg, o)
    ensures FilterOk(cfg, Run(cfg, l, actions))
    decreases |actions|
  {
    hide Handle, Record, Filtered;
    if actions != [] {
      var now, a := Run(cfg, l, actions[..|actions| - 1]), actions[|actions| - 1];
      CapturesAreFiltered(cfg, l, actions[..|actions| - 1]);
      match a
      case Kernel(e) => if now.fs.Some? { RecordKeepsFilter(now.fs.value, e); }
      case Tracer(ds, ws, ev) => HandleKeepsFilter(cfg, Halt(Drained(now, ds, ws), ev), ev);
    }
  }

  lemma RecordKeepsFilter(fs: TraceFs, e: KernelEvent)
    ensures Record(fs, e).graph == fs.graph && Record(fs, e).hasGraphFile == fs.hasGraphFile
  {}

  /** Ending a capture leaves tracing on, with no capture to own it, exactly when the write of tracing_on=0
      fails twice, at the end of the capture and again in the reset that follows. */
  lemma TracingLeaksIff(cfg: LoopConfig, l: Loop)
    requires TracingOk(l) && l.active.Some? && l.fs.Some?
    ensures var k := l.fs.value.accesses; var r := FinishCapture(cfg, l);
      r.active == None && (r.fs.value.on <==> cfg.faults(k) != Done && cfg.faults(k + 1) != Done)
  {
    hide End, Reset;
    var fs := l.fs.value;
    EndSwitchesOffIff(fs, cfg.faults);
    EndYieldsBuffer(fs, cfg.faults);
    ResetSwitchesOff(End(fs, cfg.faults).0, cfg.faults);
    if End(fs, cfg.faults).0.on {
      ResetSwitchesOffIff(End(fs, cfg.faults).0, cfg.faults);
    }
  }

  lemma EndSwitchesOffIff(fs: TraceFs, faults: Faults)
    requires fs.on
    ensures var (r, text) := End(fs, faults);
      if faults(fs.accesses) == Done then !r.on else r.on && text == None && r.accesses == fs.accesses + 1
  {}

  lemma ResetSwitchesOffIff(fs: TraceFs, faults: Faults)
    requires fs.on
    ensures Reset(fs, faults).0.on <==> faults(fs.accesses) != Done
  {}

  /** After the loop ends tracing is off for good unless switching it off failed, and whatever the shutdown
      still hands out is exact too. */
  lemma ShutdownSwitchesOff(cfg: LoopConfig, l: Loop, actions: seq<Action>)
    requires Initial(l)
    ensures var r := Shutdown(cfg, Run(cfg, l, actions));
      r.active == None && OutputsOk(r) && (r.fs.Some? ==> r.fs.value.on ==> r.fs.value.offFailed)
  {
    hide End, Reset, Run;
    RunTraces(cfg, l, actions);
    var f := FinishCapture(cfg, Run(cfg, l, actions));
    FinishTraces(cfg, Run(cfg, l, actions));
    if f.fs.Some? {
      ResetSwitchesOff(f.fs.value, cfg.faults);
    }
  }

  /** If no access fails the shutdown leaves the control files as an idle system has them: tracing off, nothing
      filtered, no tracer and no trace. */
  lemma ShutdownRestores(cfg: LoopConfig, l: Loop)
    requires NothingFails(cfg.faults) && l.fs.Some? && l.fs.value.hasGraphFile
    ensures var fs := Shutdown(cfg, l).fs;
      fs.Some? && !fs.value.on && fs.value.pids == {} && fs.value.graph == None && fs.value.tracer == Nop && fs.value.buffer == []
  {
    hide Reset, End;
    var f := FinishCapture(cfg, l);
    EndKeepsFile(l.fs.value, cfg.faults);
    ResetKeepsFile(End(l.fs.value, cfg.faults).0, cfg.faults);
    ResetSucceeds(f.fs.value, cfg.faults);
    ResetSwitchesOff(f.fs.value, cfg.faults);
  }

  lemma ResetSucceeds(fs: TraceFs, faults: Faults)
    requires NothingFails(faults)
    ensures Reset(fs, faults).1
  {
    hide WriteThree, GraphFilter;
    ThreeCount(GraphFilter(Write(fs, faults, TracingOn(false)).0, faults, None), faults, ClearPids, SetTracer(Nop), ClearTrace);
  }
}
