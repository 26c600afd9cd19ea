/** One turn of the tracer's wait loop as a function of its state: per-thread system-call bookkeeping, the
    single function-graph capture slot and the queue of threads left stopped until the slot is theirs. */
module EventLoop {
  import opened Common
  import opened Tracefs
  import opened FdTables
  import Windows

  /** The tracer's memory of a thread between the entry and exit stop of one call. */
  datatype SyscallState = SyscallState(
    active: bool, internal: bool, call: Syscall, entryTs: nat, fgraphWaiting: bool, fgraphCapturing: bool)


  /** The scope is None when the tracer has no label for the thread's window ("unknown0"). */
  datatype Capture = Capture(tid: Tid, call: Syscall, entryTs: nat, scope: Option<Windows.Label>, graphFunction: Option<string>)

  /** A function-graph file: the capture it is about and the text read from tracefs. `happened` and `graph`
      are history: every kernel event since the capture began and the filter it ran with. */
  datatype Output = Output(capture: Capture, text: seq<KernelEvent>, happened: seq<KernelEvent>, graph: Option<string>)

  datatype Line = Line(tid: Tid, indent: nat, call: Syscall, ret: int)
  datatype DepthUpdate = DepthUpdate(tid: Tid, depth: nat)

  /** `graphFunction` names the kernel entry function of a system call; `spans` is set when CUDA calls are
      traced, so that lines are indented. */
  datatype LoopConfig = LoopConfig(fd: OutputConfig, graphFunction: int -> Option<string>, spans: bool, faults: Faults)

  /** `held` (threads that stopped and were not resumed since), `since`
      (kernel events since the last capture began) and `turns` (the control files as a thread's turn for the slot
      found them, during its present call) are history; `fs` is None when function-graph capture is not
      configured. */
  datatype Loop = Loop(
    states: map<Tid, SyscallState>, depths: map<Tid, nat>, windows: Windows.Table,
    active: Option<Capture>, waiting: seq<Tid>, fds: FdMaps, fs: Option<TraceFs>,
    held: set<Tid>, since: seq<KernelEvent>, turns: map<Tid, TraceFs>, outputs: seq<Output>, lines: seq<Line>)

  datatype Regs = Regs(call: Syscall, internal: bool, ts: nat, raw: int)

  /** What waitpid reports; `regs` is None when the registers cannot be read and `child` when the new
      thread's id cannot. */
  datatype Event =
    | SyscallStop(tid: Tid, regs: Option<Regs>)
    | Gone(tid: Tid)
    | Spawned(tid: Tid, child: Option<Tid>)
    | OtherStop(tid: Tid)

  datatype Action =
    | Kernel(e: KernelEvent)
    | Tracer(depthUpdates: seq<DepthUpdate>, windowUpdates: seq<Windows.Update>, event: Event)

  function ApplyDepths(depths: map<Tid, nat>, us: seq<DepthUpdate>): map<Tid, nat>
    decreases |us|
  {
    if us == [] then depths else ApplyDepths(depths, us[..|us| - 1])[us[|us| - 1].tid := us[|us| - 1].depth]
  }

  function DepthOf(depths: map<Tid, nat>, tid: Tid): nat { if tid in depths then depths[tid] else 0 }

  function ScopeLabel(windows: Windows.Table, tid: Tid): Option<Windows.Label> {
    var labels := Windows.StateOf(windows, tid).labels;
    if labels == [] then None else Some(labels[|labels| - 1])
  }

  predicate ShouldCapture(l: Loop, tid: Tid, st: SyscallState) {
    l.fs.Some? && !st.internal && Windows.StateOf(l.windows, tid).depth > 0
  }

  function BeginCapture(cfg: LoopConfig, l: Loop, tid: Tid, st: SyscallState): (Loop, bool) {
    if l.fs == None then (l, false)
    else
      var func := cfg.graphFunction(st.call.nr);
      var (fs, ok) := Begin(l.fs.value, cfg.faults, tid, func);
      var tried := l.(fs := Some(fs), turns := l.turns[tid := l.fs.value]);
      if !ok then (tried, false)
      else (tried.(since := [], active := Some(Capture(tid, st.call, st.entryTs, ScopeLabel(l.windows, tid), func))), true)
  }

  function FinishCapture(cfg: LoopConfig, l: Loop): Loop {
    if l.active == None then l
    else if l.fs == None then l.(active := None)
    else
      var (fs, text) := End(l.fs.value, cfg.faults);
      if text == None then l.(active := None, fs := Some(Reset(fs, cfg.faults).0))
      else l.(active := None, fs := Some(fs), outputs := l.outputs + [Output(l.active.value, text.value, l.since, l.fs.value.graph)])
  }

  /** The popped thread `tid` tries for the slot if it still wants it, and is resumed either way. */
  function ServeOne(cfg: LoopConfig, l: Loop, tid: Tid): Loop
    requires tid in l.states
  {
    var st := l.states[tid].(fgraphWaiting := false);
    var (l1, ok) := if ShouldCapture(l, tid, st) then BeginCapture(cfg, l, tid, st) else (l, false);
    l1.(states := l1.states[tid := st.(fgraphCapturing := ok)], held := l1.held - {tid})
  }

  function ResumeWaiting(cfg: LoopConfig, l: Loop): Loop
    decreases |l.waiting|
  {
    if l.active.Some? || l.waiting == [] then l
    else
      var tid, rest := l.waiting[0], l.(waiting := l.waiting[1..]);
      if tid !in l.states || !l.states[tid].active || !l.states[tid].fgraphWaiting then ResumeWaiting(cfg, rest)
      else ResumeWaiting(cfg, ServeOne(cfg, rest, tid))
  }

  function Release(l: Loop, tid: Tid): Loop { l.(held := l.held - {tid}) }

  /** The threads that are stopped when the event is reported: the one that stopped, and a new thread, which starts
      stopped. */
  function StoppedBy(ev: Event): set<Tid> {
    match ev
    case Gone(_) => {}
    case Spawned(tid, Some(child)) => {tid, child}
    case SyscallStop(tid, _) => {tid}
    case Spawned(tid, None) => {tid}
    case OtherStop(tid) => {tid}
  }

  function Halt(l: Loop, ev: Event): Loop { l.(held := l.held + StoppedBy(ev)) }

  /** Entry stop: note the call, then take the slot or run on, or queue for the slot and stay stopped. */
  function EnterSyscall(cfg: LoopConfig, l: Loop, tid: Tid, r: Regs): Loop {
    var st := SyscallState(true, r.internal, r.call, r.ts, false, false);
    if !ShouldCapture(l, tid, st) then Release(l.(states := l.states[tid := st]), tid)
    else if l.active == None then
      var (l1, ok) := BeginCapture(cfg, l, tid, st);
      Release(l1.(states := l1.states[tid := st.(fgraphCapturing := ok)]), tid)
    else
      l.(states := l.states[tid := st.(fgraphWaiting := true)],
         waiting := if tid in l.waiting then l.waiting else l.waiting + [tid])
  }

  function LeaveState(st: SyscallState): SyscallState {
    SyscallState(false, false, st.call.(path := None), 0, false, false)
  }

  /** Exit stop, before the slot is passed on: print the line and update the descriptor maps. The thread
      will run on. */
  function CompleteSyscall(cfg: LoopConfig, l: Loop, tid: Tid, st: SyscallState, raw: int): Loop {
    var line := Line(tid, if cfg.spans then DepthOf(l.depths, tid) else 0, st.call, NormalizeRet(raw));
    l.(lines := if st.internal || Suppressed(cfg.fd, l.fds, st.call, raw) then l.lines else l.lines + [line],
       fds := Update(cfg.fd, l.fds, st.call, raw),
       states := l.states[tid := LeaveState(st)], held := l.held - {tid}, turns := l.turns - {tid})
  }

  function LeaveSyscall(cfg: LoopConfig, l: Loop, tid: Tid, raw: int): Loop
    requires tid in l.states
  {
    var st := l.states[tid];
    var l1 := CompleteSyscall(cfg, l, tid, st, raw);
    if st.fgraphCapturing then ResumeWaiting(cfg, FinishCapture(cfg, l1)) else l1
  }

  function Forget(l: Loop, tid: Tid): Loop {
    l.(states := l.states - {tid}, depths := l.depths - {tid}, windows := l.windows - {tid},
       waiting := Without(l.waiting, tid), held := l.held - {tid}, turns := l.turns - {tid})
  }

  predicate Names(active: Option<Capture>, tid: Tid) { active.Some? && active.value.tid == tid }

  function ThreadGone(cfg: LoopConfig, l: Loop, tid: Tid): Loop {
    ResumeWaiting(cfg, Forget(if Names(l.active, tid) then FinishCapture(cfg, l) else l, tid))
  }

  function Drained(l: Loop, ds: seq<DepthUpdate>, ws: seq<Windows.Update>): Loop {
    l.(depths := ApplyDepths(l.depths, ds), windows := Windows.ApplyAll(l.windows, ws))
  }

  predicate AtExit(l: Loop, tid: Tid) { tid in l.states && l.states[tid].active }

  function Handle(cfg: LoopConfig, l: Loop, ev: Event): Loop {
    match ev
    case Gone(tid) => ThreadGone(cfg, l, tid)
    case SyscallStop(tid, None) => Release(l, tid)
    case SyscallStop(tid, Some(r)) => if AtExit(l, tid) then LeaveSyscall(cfg, l, tid, r.raw) else EnterSyscall(cfg, l, tid, r)
    case Spawned(tid, None) => Release(l, tid)
    case Spawned(tid, Some(child)) => Release(Release(l, child), tid)
    case OtherStop(tid) => Release(l, tid)
  }

  function Step(cfg: LoopConfig, l: Loop, a: Action): Loop {
    match a
    case Kernel(e) => if l.fs == None then l else l.(fs := Some(Record(l.fs.value, e)), since := l.since + [e])
    case Tracer(ds, ws, ev) => Handle(cfg, Halt(Drained(l, ds, ws), ev), ev)
  }

  function Run(cfg: LoopConfig, l: Loop, actions: seq<Action>): Loop
    decreases |actions|
  {
    if actions == [] then l else Step(cfg, Run(cfg, l, actions[..|actions| - 1]), actions[|actions| - 1])
  }

  /** After the last thread is gone: finish a capture that is still active and reset tracefs. */
  function Shutdown(cfg: LoopConfig, l: Loop): Loop {
    var f := FinishCapture(cfg, l);
    if f.fs == None then f else f.(fs := Some(Reset(f.fs.value, cfg.faults).0))
  }

  /** The loop as it starts: nothing traced yet, tracing off. */
  ghost predicate Initial(l: Loop) {
    && l.states == map[] && l.active == None && l.waiting == [] && l.held == {} && l.turns == map[] && l.outputs == [] && l.lines == []
    && (l.fs.Some? ==> !l.fs.value.on)
  }
}
