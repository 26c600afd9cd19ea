/** The tracefs control files and the controller that drives one function-graph capture at a time.
    Every open, write or read of a control file may fail; an oracle says how. */
module Tracefs {
  import opened Common

  datatype Tracer = Nop | FunctionGraph

  /** One function-graph event produced by the kernel for thread `tid` below entry function `root`. */
  datatype KernelEvent = KernelEvent(tid: Tid, root: string, text: string)

  /** What the kernel holds behind the control files. An empty `pids` traces every thread; no `graph`
      filter records every function. `accesses` counts file accesses; `offFailed` records that a write
      of tracing_on=0 has failed at least once. */
  datatype TraceFs = TraceFs(
    on: bool, pids: set<Tid>, graph: Option<string>, tracer: Tracer, buffer: seq<KernelEvent>,
    hasGraphFile: bool, accesses: nat, offFailed: bool)

  /** OpenFailed leaves the file alone; WriteFailed comes after an open that truncated it. */
  datatype Outcome = Done | OpenFailed | WriteFailed

  type Faults = nat -> Outcome

  ghost predicate NothingFails(faults: Faults) { forall n: nat :: faults(n) == Done }

  datatype Command =
    | TracingOn(on: bool) | ClearPids | SetPid(tid: Tid) | ClearGraph | SetGraph(func: string)
    | SetTracer(tracer: Tracer) | ClearTrace

  /** Opening with truncation already empties the pid filter, the graph filter and the trace buffer. */
  function Truncate(fs: TraceFs, c: Command): TraceFs {
    match c
    case ClearPids | SetPid(_) => fs.(pids := {})
    case ClearGraph | SetGraph(_) => fs.(graph := None)
    case ClearTrace => fs.(buffer := [])
    case TracingOn(_) | SetTracer(_) => fs
  }

  function Apply(fs: TraceFs, c: Command): TraceFs {
    match c
    case TracingOn(b) => fs.(on := b)
    case SetPid(t) => fs.(pids := {t})
    case SetGraph(f) => fs.(graph := Some(f))
    case SetTracer(t) => fs.(tracer := t)
    case ClearPids | ClearGraph | ClearTrace => Truncate(fs, c)
  }

  function Write(fs: TraceFs, faults: Faults, c: Command): (TraceFs, bool) {
    var next := fs.(accesses := fs.accesses + 1, offFailed := fs.offFailed || (c == TracingOn(false) && faults(fs.accesses) != Done));
    match faults(fs.accesses)
    case Done => (Apply(next, c), true)
    case OpenFailed => (next, false)
    case WriteFailed => (Truncate(next, c), false)
  }

  /** Writes three commands in order and stops at the first failure. */
  function WriteThree(fs: TraceFs, faults: Faults, a: Command, b: Command, c: Command): (TraceFs, bool) {
    var (fs1, ok1) := Write(fs, faults, a);
    if !ok1 then (fs1, false)
    else
      var (fs2, ok2) := Write(fs1, faults, b);
      if ok2 then Write(fs2, faults, c) else (fs2, false)
  }

  /** The kernel runs thread `e.tid`: the event reaches the buffer only if the filters let it. */
  function Record(fs: TraceFs, e: KernelEvent): TraceFs {
    if fs.on && fs.tracer == FunctionGraph && (fs.pids == {} || e.tid in fs.pids) && Passes(fs.graph, e)
    then fs.(buffer := fs.buffer + [e]) else fs
  }

  predicate Passes(graph: Option<string>, e: KernelEvent) { graph == None || graph.value == e.root }

  /** The events of `happened` that belong to thread `tid` and pass the graph filter. */
  function EventsOf(happened: seq<KernelEvent>, tid: Tid, graph: Option<string>): seq<KernelEvent> {
    if happened == [] then []
    else
      var last := happened[|happened| - 1];
      EventsOf(happened[..|happened| - 1], tid, graph) + if last.tid == tid && Passes(graph, last) then [last] else []
  }

  /** A write to the graph filter: cleared or set, as far as the access succeeds. */
  function WriteFilter(fs: TraceFs, faults: Faults, value: Option<string>): (r: (TraceFs, bool))
    ensures r.0 == fs.(graph := r.0.graph, accesses := fs.accesses + 1)
    ensures r.1 <==> faults(fs.accesses) == Done
  {
    Write(fs, faults, if value == None then ClearGraph else SetGraph(value.value))
  }

  function GraphFilter(fs: TraceFs, faults: Faults, func: Option<string>): (r: TraceFs)
    ensures r == fs.(graph := r.graph, accesses := fs.accesses + FilterAccesses(fs, faults, func, fs.accesses))
  {
    if !fs.hasGraphFile then fs
    else
      var cleared := WriteFilter(fs, faults, None).0;
      if func == None then cleared
      else
        var (named, ok) := WriteFilter(cleared, faults, func);
        if ok then named else WriteFilter(named, faults, None).0
  }

  /** None without the filter file; one to clear it, one more to set it, and a third if setting it failed. */
  function FilterAccesses(fs: TraceFs, faults: Faults, func: Option<string>, from: nat): nat {
    if !fs.hasGraphFile then 0 else if func == None then 1 else if faults(from + 1) == Done then 2 else 3
  }

  function Begin(fs: TraceFs, faults: Faults, tid: Tid, func: Option<string>): (TraceFs, bool) {
    var (selected, ok) := WriteThree(fs, faults, TracingOn(false), ClearPids, SetPid(tid));
    if !ok then (selected, false)
    else WriteThree(GraphFilter(selected, faults, func), faults, SetTracer(FunctionGraph), ClearTrace, TracingOn(true))
  }

  function End(fs: TraceFs, faults: Faults): (TraceFs, Option<seq<KernelEvent>>) {
    var (off, ok) := Write(fs, faults, TracingOn(false));
    if !ok then (off, None)
    else
      var text := off.buffer;
      var seen := off.(accesses := off.accesses + 1);
      if faults(off.accesses) != Done then (seen, None)
      else
        var (cleared, ok1) := Write(seen, faults, ClearTrace);
        if !ok1 then (cleared, None)
        else
          var (unfiltered, ok2) := Write(GraphFilter(cleared, faults, None), faults, ClearPids);
          (unfiltered, if ok2 then Some(text) else None)
  }

  function Reset(fs: TraceFs, faults: Faults): (TraceFs, bool) {
    var (off, ok) := Write(fs, faults, TracingOn(false));
    if !ok then (off, false)
    else WriteThree(GraphFilter(off, faults, None), faults, ClearPids, SetTracer(Nop), ClearTrace)
  }

  /** The kernel is recording the thread `tid` and nobody else, starting from an empty buffer. */
  ghost predicate Armed(fs: TraceFs, tid: Tid, happened: seq<KernelEvent>) {
    && fs.on && fs.pids == {tid} && fs.tracer == FunctionGraph
    && fs.buffer == EventsOf(happened, tid, fs.graph)
  }

  /** Switching off and selecting a thread, before any graph filter is set. */
  lemma SelectsThread(fs: TraceFs, faults: Faults, tid: Tid)
    ensures var (r, ok) := WriteThree(fs, faults, TracingOn(false), ClearPids, SetPid(tid));
      && (ok ==> !r.on && r.pids == {tid})
      && (!ok ==> r.on ==> fs.on && r.offFailed)
      && (fs.offFailed ==> r.offFailed)
  {}

  lemma StartsRecording(fs: TraceFs, faults: Faults)
    requires !fs.on
    ensures var (r, ok) := WriteThree(fs, faults, SetTracer(FunctionGraph), ClearTrace, TracingOn(true));
      && (ok ==> r.on && r.tracer == FunctionGraph && r.buffer == [] && r.pids == fs.pids)
      && (!ok ==> !r.on)
      && r.offFailed == fs.offFailed
  {}

  /** Whatever fails, a capture that begins is armed, and one that does not begin leaves tracing on only
      if it was on before and could not be switched off. */
  lemma BeginArms(fs: TraceFs, faults: Faults, tid: Tid, func: Option<string>)
    ensures var (fs', ok) := Begin(fs, faults, tid, func);
      && (ok ==> Armed(fs', tid, []))
      && (!ok ==> fs'.on ==> fs.on && fs'.offFailed)
      && (fs.offFailed ==> fs'.offFailed)
  {
    SelectsThread(fs, faults, tid);
    var (selected, ok) := WriteThree(fs, faults, TracingOn(false), ClearPids, SetPid(tid));
    if ok {
      StartsRecording(GraphFilter(selected, faults, func), faults);
    }
  }

  /** The accesses a capture needs to begin: switching off, clearing and setting the thread filter, then, after
      those spent on the graph filter, setting the tracer, clearing the trace and switching on. */
  predicate ArmsOk(fs: TraceFs, faults: Faults, func: Option<string>) {
    var k := fs.accesses;
    var j := k + 3 + FilterAccesses(fs, faults, func, k + 3);
    && faults(k) == Done && faults(k + 1) == Done && faults(k + 2) == Done
    && faults(j) == Done && faults(j + 1) == Done && faults(j + 2) == Done
  }

  /** A write succeeds as its access does and spends that access only. */
  lemma WriteCounts(fs: TraceFs, faults: Faults, c: Command)
    ensures var (r, ok) := Write(fs, faults, c);
      (ok <==> faults(fs.accesses) == Done) && r.accesses == fs.accesses + 1 && r.hasGraphFile == fs.hasGraphFile
  {}

  lemma ThreeCount(fs: TraceFs, faults: Faults, a: Command, b: Command, c: Command)
    ensures var (r, ok) := WriteThree(fs, faults, a, b, c); var k := fs.accesses;
      && (ok <==> faults(k) == Done && faults(k + 1) == Done && faults(k + 2) == Done)
      && (ok ==> r.accesses == k + 3 && r.hasGraphFile == fs.hasGraphFile)
  {
    hide Write;
    var (fs1, ok1) := Write(fs, faults, a);
    WriteCounts(fs, faults, a);
    WriteCounts(fs1, faults, b);
    WriteCounts(Write(fs1, faults, b).0, faults, c);
  }

  /** A capture begins if and only if these six accesses succeed; a failure of the graph filter does not matter. */
  lemma BeginSucceedsIff(fs: TraceFs, faults: Faults, tid: Tid, func: Option<string>)
    ensures Begin(fs, faults, tid, func).1 <==> ArmsOk(fs, faults, func)
  {
    hide GraphFilter, WriteThree;
    var (selected, ok) := WriteThree(fs, faults, TracingOn(false), ClearPids, SetPid(tid));
    ThreeCount(fs, faults, TracingOn(false), ClearPids, SetPid(tid));
    if ok {
      ThreeCount(GraphFilter(selected, faults, func), faults, SetTracer(FunctionGraph), ClearTrace, TracingOn(true));
    }
  }

  /** One write of the filter file: the value if it succeeds, what was there if the file cannot be opened, and
      nothing if the write itself fails. */
  lemma FilterWritten(fs: TraceFs, faults: Faults, value: Option<string>)
    ensures WriteFilter(fs, faults, value).0.graph ==
      match faults(fs.accesses) case Done => value case OpenFailed => fs.graph case WriteFailed => None
  {}

  /** Which filter is in force after it was set to `func`: that one, if the access that sets it succeeds (or, with
      nothing to set, the one that clears it); the old one only if none of its accesses could open the file; none
      otherwise. */
  lemma FilterInForce(fs: TraceFs, faults: Faults, func: Option<string>)
    ensures var k := fs.accesses; var r := GraphFilter(fs, faults, func).graph;
      if !fs.hasGraphFile then r == fs.graph
      else if func.Some? && faults(k + 1) == Done then r == func
      else if faults(k) == OpenFailed && (func.Some? ==> faults(k + 1) == OpenFailed && faults(k + 2) == OpenFailed) then r == fs.graph
      else r == None
  {
    hide WriteFilter;
    var cleared := WriteFilter(fs, faults, None).0;
    FilterWritten(fs, faults, None);
    if func.Some? {
      FilterWritten(cleared, faults, func);
      FilterWritten(WriteFilter(cleared, faults, func).0, faults, None);
    }
  }

  predicate SetsFilter(c: Command) { c.ClearGraph? || c.SetGraph? }

  lemma WriteLeavesFilter(fs: TraceFs, faults: Faults, c: Command)
    requires !SetsFilter(c)
    ensures Write(fs, faults, c).0.graph == fs.graph
  {}

  lemma ThreeLeaveFilter(fs: TraceFs, faults: Faults, a: Command, b: Command, c: Command)
    requires !SetsFilter(a) && !SetsFilter(b) && !SetsFilter(c)
    ensures WriteThree(fs, faults, a, b, c).0.graph == fs.graph
  {
    hide Write, SetsFilter;
    WriteLeavesFilter(fs, faults, a);
    WriteLeavesFilter(Write(fs, faults, a).0, faults, b);
    WriteLeavesFilter(Write(Write(fs, faults, a).0, faults, b).0, faults, c);
  }

  /** The accesses of a capture that begins leave the filter alone but for those that set it. */
  lemma BeginFilters(fs: TraceFs, faults: Faults, tid: Tid, func: Option<string>)
    requires ArmsOk(fs, faults, func)
    ensures Begin(fs, faults, tid, func).0.graph == GraphFilter(fs.(accesses := fs.accesses + 3), faults, func).graph
  {
    hide GraphFilter, WriteThree;
    var (selected, ok) := WriteThree(fs, faults, TracingOn(false), ClearPids, SetPid(tid));
    ThreeCount(fs, faults, TracingOn(false), ClearPids, SetPid(tid));
    ThreeLeaveFilter(fs, faults, TracingOn(false), ClearPids, SetPid(tid));
    FilterIgnoresRest(selected, fs.(accesses := fs.accesses + 3), faults, func);
    ThreeLeaveFilter(GraphFilter(selected, faults, func), faults, SetTracer(FunctionGraph), ClearTrace, TracingOn(true));
  }

  lemma FilterIgnoresRest(a: TraceFs, b: TraceFs, faults: Faults, func: Option<string>)
    requires a.accesses == b.accesses && a.graph == b.graph && a.hasGraphFile == b.hasGraphFile
    ensures GraphFilter(a, faults, func).graph == GraphFilter(b, faults, func).graph
  {
    hide GraphFilter;
    FilterInForce(a, faults, func);
    FilterInForce(b, faults, func);
  }

  /** Main result, the filter of a capture: a capture that begins runs with the filter it asks for if the filter file
      is there and the access that sets it succeeds; with the old one only if the file is missing or was never
      opened; with none otherwise. */
  lemma BeginRunsFiltered(fs: TraceFs, faults: Faults, tid: Tid, func: Option<string>)
    requires ArmsOk(fs, faults, func)
    ensures var k := fs.accesses + 3; var r := Begin(fs, faults, tid, func).0.graph;
      if !fs.hasGraphFile then r == fs.graph
      else if func.Some? && faults(k + 1) == Done then r == func
      else if faults(k) == OpenFailed && (func.Some? ==> faults(k + 1) == OpenFailed && faults(k + 2) == OpenFailed) then r == fs.graph
      else r == None
  {
    hide GraphFilter, Begin;
    BeginFilters(fs, faults, tid, func);
    FilterInForce(fs.(accesses := fs.accesses + 3), faults, func);
  }

  /** A text is handed out only with tracing off, and it is the buffer as the capture left it; thread filter and
      buffer are empty then, and the graph filter is cleared if its file can be opened. Otherwise tracing stays on
      only if switching it off failed. */
  lemma EndYieldsBuffer(fs: TraceFs, faults: Faults)
    ensures var (fs', text) := End(fs, faults);
      && (text.Some? ==> text.value == fs.buffer && !fs'.on && fs'.pids == {} && fs'.buffer == [] && fs'.tracer == fs.tracer)
      && (text.Some? && fs.hasGraphFile && faults(fs.accesses + 3) != OpenFailed ==> fs'.graph == None)
      && (fs'.on ==> fs.on && fs'.offFailed)
      && (fs.offFailed ==> fs'.offFailed)
  {}

  /** The accesses that stand between a finished capture and its text: switching off, reading, clearing the
      trace and, after the graph filter's if there is one, clearing the thread filter. */
  predicate ReadsOut(fs: TraceFs, faults: Faults) {
    var k := fs.accesses;
    faults(k) == Done && faults(k + 1) == Done && faults(k + 2) == Done && faults(if fs.hasGraphFile then k + 4 else k + 3) == Done
  }

  /** A failure of the graph filter does not cost the text; a failure of any other access does, even after
      the text was read. */
  lemma EndSucceedsIff(fs: TraceFs, faults: Faults)
    ensures End(fs, faults).1.Some? <==> ReadsOut(fs, faults)
  {}

  lemma ResetSwitchesOff(fs: TraceFs, faults: Faults)
    ensures var (fs', ok) := Reset(fs, faults);
      && (ok ==> !fs'.on && fs'.pids == {} && fs'.tracer == Nop && fs'.buffer == [])
      && (ok && fs.hasGraphFile && faults(fs.accesses + 1) != OpenFailed ==> fs'.graph == None)
      && (fs'.on ==> fs.on && fs'.offFailed)
      && (fs.offFailed ==> fs'.offFailed)
  {}

  /** Recording keeps a capture armed: other threads' events never reach the buffer. */
  lemma RecordKeepsArmed(fs: TraceFs, tid: Tid, happened: seq<KernelEvent>, e: KernelEvent)
    requires Armed(fs, tid, happened)
    ensures Armed(Record(fs, e), tid, happened + [e])
  {
    assert (happened + [e])[..|happened|] == happened;
  }

  /** The controller: ordered control-file writes with early return on failure. */
  class TraceFsController {
    var fs: TraceFs
    const faults: Faults

    constructor (fs: TraceFs, faults: Faults)
      ensures this.fs == fs && this.faults == faults
    {
      this.fs, this.faults := fs, faults;
    }

    method WriteControl(c: Command) returns (ok: bool)
      modifies this`fs
      ensures (fs, ok) == Write(old(fs), faults, c)
    {
      var outcome := faults(fs.accesses);
      if c == TracingOn(false) && outcome != Done {
        fs := fs.(offFailed := true);
      }
      fs := fs.(accesses := fs.accesses + 1);
      if outcome == OpenFailed {
        return false;
      }
      fs := Truncate(fs, c);
      if outcome == WriteFailed {
        return false;
      }
      fs := Apply(fs, c);
      return true;
    }

    method ReadTrace() returns (text: Option<seq<KernelEvent>>)
      modifies this`fs
      ensures fs == old(fs).(accesses := old(fs).accesses + 1)
      ensures text == if faults(old(fs).accesses) == Done then Some(old(fs).buffer) else None
    {
      text := if faults(fs.accesses) == Done then Some(fs.buffer) else None;
      fs := fs.(accesses := fs.accesses + 1);
    }

    method BestEffortSetGraphFunction(func: Option<string>)
      modifies this`fs
      ensures fs == GraphFilter(old(fs), faults, func)
    {
      if !fs.hasGraphFile {
        return;
      }
      var _ := WriteControl(ClearGraph);
      if func.Some? {
        var ok := WriteControl(SetGraph(func.value));
        if !ok {
          var _ := WriteControl(ClearGraph);
        }
      }
    }

    method BeginCapture(tid: Tid, func: Option<string>) returns (ok: bool)
      modifies this`fs
      ensures (fs, ok) == Begin(old(fs), faults, tid, func)
    {
      ok := WriteControl(TracingOn(false));
      if !ok { return; }
      ok := WriteControl(ClearPids);
      if !ok { return; }
      ok := WriteControl(SetPid(tid));
      if !ok { return; }
      BestEffortSetGraphFunction(func);
      ok := WriteControl(SetTracer(FunctionGraph));
      if !ok { return; }
      ok := WriteControl(ClearTrace);
      if !ok { return; }
      ok := WriteControl(TracingOn(true));
    }

    method EndCaptureAndRead() returns (text: Option<seq<KernelEvent>>)
      modifies this`fs
      ensures (fs, text) == End(old(fs), faults)
    {
      var ok := WriteControl(TracingOn(false));
      if !ok { return None; }
      text := ReadTrace();
      if text == None { return; }
      ok := WriteControl(ClearTrace);
      if !ok { return None; }
      BestEffortSetGraphFunction(None);
      ok := WriteControl(ClearPids);
      if !ok { return None; }
    }

    method ResetState() returns (ok: bool)
      modifies this`fs
      ensures (fs, ok) == Reset(old(fs), faults)
    {
      ok := WriteControl(TracingOn(false));
      if !ok { return; }
      BestEffortSetGraphFunction(None);
      ok := WriteControl(ClearPids);
      if !ok { return; }
      ok := WriteControl(SetTracer(Nop));
      if !ok { return; }
      ok := WriteControl(ClearTrace);
    }
  }
}
