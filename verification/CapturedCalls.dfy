/** Traced threads and tracer together: which system calls get a function-graph file, and with which label.
    Threads open and close windows and send messages, some of which get lost; the tracer drains the pipe and then
    handles an event. */
module CapturedCalls {
  import opened Common
  import opened Tracefs
  import opened FdTables
  import opened EventLoop
  import opened SlotProofs
  import opened QueueProofs
  import opened Isolation
  import Windows
  import opened WindowLoss

  datatype World = World(tracee: History, loop: Loop)

  datatype Move =
    | Thread(a: Windows.Action)
    | KernelRuns(e: KernelEvent)
    | Turn(depthUpdates: seq<DepthUpdate>, event: Event)

  /** A dead thread takes its thread-local state with it. */
  function AfterDeath(h: History, ev: Event): History {
    if !ev.Gone? then h
    else
      History(h.sys.(cells := h.sys.cells - {ev.tid}, stacks := h.sys.stacks - {ev.tid}),
              h.heard - {ev.tid}, h.told - {ev.tid}, h.missed - {ev.tid})
  }

  /** A thread that the tracer has seen enter a system call takes no step of its own. */
  function Step(cfg: LoopConfig, w: World, m: Move): World {
    match m
    case Thread(a) =>
      if a.Drain? || AtExit(w.loop, a.tid) then w else w.(tracee := After(w.tracee, a))
    case KernelRuns(e) => w.(loop := EventLoop.Step(cfg, w.loop, Kernel(e)))
    case Turn(ds, ev) =>
      var loop := EventLoop.Step(cfg, w.loop, Tracer(ds, w.tracee.sys.pipe, ev));
      var left := AfterDeath(w.tracee, ev);
      World(left.(sys := left.sys.(pipe := [], table := loop.windows)), loop)
  }

  function Run(cfg: LoopConfig, w: World, moves: seq<Move>): World
    decreases |moves|
  {
    if moves == [] then w else Step(cfg, Run(cfg, w, moves[..|moves| - 1]), moves[|moves| - 1])
  }

  /** Windows nest less deeply than a message can say. */
  ghost predicate Shallow(w: World, m: Move) {
    m.Thread? && !m.a.Drain? ==> |Stack(w, m.a.tid)| < U32_MAX
  }

  ghost predicate ShallowRun(cfg: LoopConfig, w: World, moves: seq<Move>) {
    forall k {:trigger moves[k]} :: 0 <= k < |moves| ==> Shallow(Run(cfg, w, moves[..k]), moves[k])
  }

  /** The windows the thread has open. */
  function Stack(w: World, t: Tid): seq<Windows.Label> { Windows.Stack(w.tracee.sys, t) }

  /** The innermost window the thread has open. */
  function Innermost(w: World, t: Tid): Option<Windows.Label> {
    var open := Windows.Wire(Stack(w, t));
    if open == [] then None else Some(open[|open| - 1])
  }

  /** The active capture is about a call that is to be captured, under the label the tracer holds. */
  ghost predicate Scoped(l: Loop) {
    l.active.Some? ==>
      var t := l.active.value.tid;
      t in l.states && ShouldCapture(l, t, l.states[t]) && l.active.value.scope == ScopeLabel(l.windows, t)
  }

  /** A call under way is to be captured if and only if it waits for its turn or has had it, and it is being
      captured if and only if the accesses of that turn succeeded. */
  ghost predicate Decided(cfg: LoopConfig, l: Loop) {
    && (forall t :: t in l.turns ==> t in l.states && l.states[t].active)
    && forall t :: t in l.states && l.states[t].active ==> DecidedCall(cfg, l, t)
  }

  ghost predicate DecidedCall(cfg: LoopConfig, l: Loop, t: Tid)
    requires t in l.states
  {
    && (ShouldCapture(l, t, l.states[t]) <==> l.states[t].fgraphWaiting || t in l.turns)
    && (l.states[t].fgraphCapturing <==> TurnOk(cfg, l, t))
  }

  /** The turn came and the accesses a capture needs to begin succeeded. */
  predicate TurnOk(cfg: LoopConfig, l: Loop, t: Tid)
    requires t in l.states
  {
    t in l.turns && ArmsOk(l.turns[t], cfg.faults, cfg.graphFunction(l.states[t].call.nr))
  }

  lemma BeginsIff(cfg: LoopConfig, l: Loop, tid: Tid, st: SyscallState)
    ensures BeginCapture(cfg, l, tid, st).1 <==> l.fs.Some? && ArmsOk(l.fs.value, cfg.faults, cfg.graphFunction(st.call.nr))
  {
    hide Begin, ArmsOk;
    if l.fs.Some? {
      BeginSucceedsIff(l.fs.value, cfg.faults, tid, cfg.graphFunction(st.call.nr));
    }
  }

  lemma ServeScopes(cfg: LoopConfig, l: Loop, tid: Tid)
    requires AtExit(l, tid) && l.states[tid].fgraphWaiting && l.active == None
    ensures var r := ServeOne(cfg, l, tid);
      && Scoped(r) && r.windows == l.windows && r.outputs == l.outputs && r.waiting == l.waiting
      && (Decided(cfg, l) ==> Decided(cfg, r))
  {
    hide Begin, BeginCapture, ArmsOk;
    var st := l.states[tid].(fgraphWaiting := false);
    BeginTakesSlot(cfg, l, tid, st);
    BeginsIff(cfg, l, tid, st);
  }

  lemma {:induction false} ResumeScopes(cfg: LoopConfig, l: Loop)
    requires Scoped(l)
    ensures var r := ResumeWaiting(cfg, l);
      && Scoped(r) && r.windows == l.windows && r.outputs == l.outputs
      && (Decided(cfg, l) ==> Decided(cfg, r))
    decreases |l.waiting|
  {
    hide ServeOne, ShouldCapture, TurnOk;
    if l.active == None && l.waiting != [] {
      var tid, rest := l.waiting[0], l.(waiting := l.waiting[1..]);
      RestDecided(cfg, l, rest);
      if tid !in l.states || !l.states[tid].active || !l.states[tid].fgraphWaiting {
        ResumeScopes(cfg, rest);
      } else {
        ServeScopes(cfg, rest, tid);
        ResumeScopes(cfg, ServeOne(cfg, rest, tid));
      }
    }
  }

  lemma RestDecided(cfg: LoopConfig, l: Loop, rest: Loop)
    requires rest == l.(waiting := rest.waiting)
    ensures Decided(cfg, l) ==> Decided(cfg, rest)
  {
    hide ArmsOk;
  }

  /** What any event leaves of labels and turns; a file, if one is written, is the active capture's. */
  ghost predicate Served(cfg: LoopConfig, l: Loop, r: Loop, ev: Event) {
    && Scoped(r) && r.windows == (if ev.Gone? then l.windows - {ev.tid} else l.windows)
    && (Decided(cfg, l) ==> Decided(cfg, r))
    && (r.outputs == l.outputs || FileOf(l, r, ev.tid))
  }

  /** One file more, about the active capture, whose thread the event is about. */
  ghost predicate FileOf(l: Loop, r: Loop, tid: Tid) {
    Names(l.active, tid) && |r.outputs| == |l.outputs| + 1 && r.outputs[..|l.outputs|] == l.outputs
    && r.outputs[|l.outputs|].capture == l.active.value
  }

  lemma FinishWrites(cfg: LoopConfig, l: Loop, tid: Tid)
    requires Names(l.active, tid) && l.fs.Some?
    ensures var r := FinishCapture(cfg, l);
      if ReadsOut(l.fs.value, cfg.faults) then FileOf(l, r, tid) else r.outputs == l.outputs
  {
    hide End, Reset;
    EndSucceedsIff(l.fs.value, cfg.faults);
  }

  lemma EnterServes(cfg: LoopConfig, l: Loop, tid: Tid, r: Regs)
    requires SlotOk(l) && Scoped(l) && !AtExit(l, tid)
    ensures Served(cfg, l, EnterSyscall(cfg, l, tid, r), SyscallStop(tid, Some(r)))
  {
    hide Begin, BeginCapture, ArmsOk, Decided;
    var st := SyscallState(true, r.internal, r.call, r.ts, false, false);
    BeginTakesSlot(cfg, l, tid, st);
    if Decided(cfg, l) {
      EnterDecides(cfg, l, tid, r);
    }
  }

  lemma EnterDecides(cfg: LoopConfig, l: Loop, tid: Tid, r: Regs)
    requires Decided(cfg, l) && !AtExit(l, tid)
    ensures Decided(cfg, EnterSyscall(cfg, l, tid, r))
  {
    hide BeginCapture, EnterSyscall, ArmsOk, Decided, ShouldCapture;
    var st, e := SyscallState(true, r.internal, r.call, r.ts, false, false), EnterSyscall(cfg, l, tid, r);
    EnterNotes(cfg, l, tid, r);
    BeginsIff(cfg, l, tid, st);
    CaptureNeedsTracefs(l, tid, st);
    NoTurnYet(cfg, l, tid);
    StillToCapture(l, e, tid, st, e.states[tid]);
    OneMoreDecided(cfg, l, e, tid);
  }

  lemma StillToCapture(l: Loop, r: Loop, tid: Tid, was: SyscallState, st: SyscallState)
    requires r.fs.Some? == l.fs.Some? && r.windows == l.windows && st.internal == was.internal
    ensures ShouldCapture(r, tid, st) <==> ShouldCapture(l, tid, was)
  {}

  lemma NoTurnYet(cfg: LoopConfig, l: Loop, tid: Tid)
    requires Decided(cfg, l) && !AtExit(l, tid)
    ensures tid !in l.turns
  {}

  /** Only the call of one thread has changed, and it is decided. */
  lemma OneMoreDecided(cfg: LoopConfig, l: Loop, r: Loop, tid: Tid)
    requires Decided(cfg, l) && AtExit(r, tid) && DecidedCall(cfg, r, tid)
    requires r.states == l.states[tid := r.states[tid]] && r.windows == l.windows && r.fs.Some? == l.fs.Some?
    requires r.turns == l.turns || (tid in r.turns && r.turns == l.turns[tid := r.turns[tid]])
    ensures Decided(cfg, r)
  {
    hide ArmsOk;
  }

  /** The loop after an exit stop, before the slot is passed on if a capture ended. */
  function Left(cfg: LoopConfig, l: Loop, tid: Tid, raw: int): Loop
    requires tid in l.states
  {
    var l1 := CompleteSyscall(cfg, l, tid, l.states[tid], raw);
    if l.states[tid].fgraphCapturing then FinishCapture(cfg, l1) else l1
  }

  lemma LeaveCompletes(cfg: LoopConfig, l: Loop, tid: Tid, raw: int)
    requires Inv(l) && Scoped(l) && AtExit(l, tid)
    ensures var r := Left(cfg, l, tid, raw);
      && Scoped(r) && r.windows == l.windows && (Decided(cfg, l) ==> Decided(cfg, r))
      && (l.states[tid].fgraphCapturing ==> r.active == None)
      && if l.states[tid].fgraphCapturing && ReadsOut(l.fs.value, cfg.faults) then FileOf(l, r, tid) else r.outputs == l.outputs
  {
    hide FinishCapture, Update, Suppressed, ArmsOk, QueueOk, ReadsOut;
    var l1 := CompleteSyscall(cfg, l, tid, l.states[tid], raw);
    if l.states[tid].fgraphCapturing {
      FinishFrees(cfg, l1);
      FinishWrites(cfg, l1, tid);
    }
  }

  /** A call that returns has its file if and only if its capture is on and the text can be read out. */
  lemma LeaveServes(cfg: LoopConfig, l: Loop, tid: Tid, r: Regs)
    requires Inv(l) && Scoped(l) && AtExit(l, tid)
    ensures var s := LeaveSyscall(cfg, l, tid, r.raw);
      && Served(cfg, l, s, SyscallStop(tid, Some(r)))
      && if l.states[tid].fgraphCapturing && ReadsOut(l.fs.value, cfg.faults) then FileOf(l, s, tid) else s.outputs == l.outputs
  {
    hide FinishCapture, ResumeWaiting, CompleteSyscall, Inv, Scoped, Decided, ReadsOut;
    LeaveCompletes(cfg, l, tid, r.raw);
    if l.states[tid].fgraphCapturing {
      ResumeScopes(cfg, Left(cfg, l, tid, r.raw));
    }
  }

  lemma GoneCompletes(cfg: LoopConfig, l: Loop, tid: Tid)
    requires SlotOk(l) && Scoped(l)
    ensures var f := Forget(if Names(l.active, tid) then FinishCapture(cfg, l) else l, tid);
      && Scoped(f) && f.windows == l.windows - {tid} && (Decided(cfg, l) ==> Decided(cfg, f))
      && (f.outputs == l.outputs || FileOf(l, f, tid))
  {
    hide FinishCapture, Decided, ReadsOut, Without;
    FinishFrees(cfg, l);
    if Names(l.active, tid) {
      FinishWrites(cfg, l, tid);
    }
    if Decided(cfg, l) {
      GoneDecides(cfg, l, if Names(l.active, tid) then FinishCapture(cfg, l) else l, tid);
    }
  }

  lemma GoneDecides(cfg: LoopConfig, l: Loop, f: Loop, tid: Tid)
    requires Decided(cfg, l) && f == l.(active := f.active, fs := f.fs, outputs := f.outputs) && f.fs.Some? == l.fs.Some?
    ensures Decided(cfg, Forget(f, tid))
  {
    hide ArmsOk, Without;
  }

  lemma HeldDoesNotMatter(cfg: LoopConfig, l: Loop, r: Loop)
    requires r == l.(held := r.held)
    ensures (Scoped(l) ==> Scoped(r)) && (Decided(cfg, l) ==> Decided(cfg, r))
  {
    hide ArmsOk;
  }

  lemma HandleServes(cfg: LoopConfig, l: Loop, ev: Event)
    requires Inv(l) && Scoped(l)
    ensures Served(cfg, l, Handle(cfg, l, ev), ev)
  {
    hide EnterSyscall, LeaveSyscall, FinishCapture, ResumeWaiting, QueueOk, SlotOk, Decided, Scoped, Forget;
    match ev
    case Gone(tid) =>
      GoneCompletes(cfg, l, tid);
      ResumeScopes(cfg, Forget(if Names(l.active, tid) then FinishCapture(cfg, l) else l, tid));
    case SyscallStop(tid, Some(r)) =>
      if AtExit(l, tid) {
        LeaveServes(cfg, l, tid, r);
      } else {
        EnterServes(cfg, l, tid, r);
      }
    case _ => HeldDoesNotMatter(cfg, l, Handle(cfg, l, ev));
  }

  /** The same when the threads the event is about have stopped. */
  lemma HaltedServes(cfg: LoopConfig, l: Loop, ev: Event)
    requires Inv(l) && Scoped(l)
    ensures Served(cfg, l, Handle(cfg, Halt(l, ev), ev), ev)
  {
    hide EnterSyscall, LeaveSyscall, Handle, Halt, QueueOk, Decided, Scoped;
    HaltedHandle(cfg, l, ev);
    if IsEntry(l, ev) {
      var h := Hold(l, ev.tid);
      HeldDoesNotMatter(cfg, l, h);
      HoldKeepsSlot(l, ev.tid);
      EnterServes(cfg, h, ev.tid, ev.regs.value);
    } else {
      HandleServes(cfg, l, ev);
    }
  }

  lemma HoldKeepsSlot(l: Loop, tid: Tid)
    requires SlotOk(l)
    ensures SlotOk(Hold(l, tid))
  {}

  /** The loop as it will be once the pipe is drained. */
  function Current(w: World): Loop { w.loop.(windows := Windows.Received(w.tracee.sys)) }

  /** What the tracer has for each thread is what got through, and slot, labels and turns are in order. */
  ghost predicate Linked(cfg: LoopConfig, w: World) {
    && Inv(w.loop) && Follows(w.tracee) && Windows.Bounded(w.tracee.sys) && w.tracee.sys.table == w.loop.windows
    && Scoped(Current(w)) && Decided(cfg, Current(w))
  }

  lemma ThreadLinks(cfg: LoopConfig, w: World, m: Move)
    requires Linked(cfg, w) && m.Thread? && Shallow(w, m)
    ensures Linked(cfg, Step(cfg, w, m))
  {
    hide Windows.ApplyUpdate, Windows.ApplyAll, Windows.Received, KnowsThread, Inv, ShouldCapture;
    var a := m.a;
    if !a.Drain? && !AtExit(w.loop, a.tid) {
      if a.Enter? || Windows.Stack(w.tracee.sys, a.tid) != [] {
        AfterFollows(w.tracee, a);
        OthersKeep(cfg, w, a);
      } else {
        assert After(w.tracee, a) == w.tracee;
      }
    }
  }

  /** A window move of one thread changes nothing for the threads inside a call. */
  lemma OthersKeep(cfg: LoopConfig, w: World, a: Windows.Action)
    requires !a.Drain? && !AtExit(w.loop, a.tid) && Inv(w.loop)
    requires a.Exit? ==> Windows.Stack(w.tracee.sys, a.tid) != []
    ensures var l, r := Current(w), Current(w.(tracee := After(w.tracee, a)));
      (Scoped(l) ==> Scoped(r)) && (Decided(cfg, l) ==> Decided(cfg, r))
  {
    hide Windows.ApplyUpdate, Windows.ApplyAll, Windows.Received, Windows.Step, QueueOk, ArmsOk, After;
    forall t | AtExit(w.loop, t)
      ensures Windows.StateOf(Windows.Received(After(w.tracee, a).sys), t) == Windows.StateOf(Windows.Received(w.tracee.sys), t)
    {
      OthersFollow(w.tracee, a, t);
    }
  }

  lemma KernelLinks(cfg: LoopConfig, w: World, e: KernelEvent)
    requires Linked(cfg, w)
    ensures Linked(cfg, Step(cfg, w, KernelRuns(e)))
  {
    hide Record, Windows.Received, Follows, ArmsOk, Inv;
    var r := EventLoop.Step(cfg, w.loop, Kernel(e));
    InvIgnoresTracefs(w.loop, r.fs, r.since, r.turns);
  }

  lemma TurnLinks(cfg: LoopConfig, w: World, ds: seq<DepthUpdate>, ev: Event)
    requires Linked(cfg, w)
    ensures Linked(cfg, Step(cfg, w, Turn(ds, ev)))
  {
    hide Handle, Halt, Inv, Follows, Scoped, Decided;
    var d := Drained(w.loop, ds, w.tracee.sys.pipe);
    DrainKeepsInv(w.loop, ds, w.tracee.sys.pipe);
    DepthsDoNotMatter(cfg, w.loop, d);
    HaltedServes(cfg, d, ev);
    HandleKeeps(cfg, d, ev);
    DeathFollows(w.tracee, ev);
    var w' := Step(cfg, w, Turn(ds, ev));
    NothingReceived(w'.tracee.sys);
    assert Current(w') == w'.loop;
  }

  lemma DepthsDoNotMatter(cfg: LoopConfig, l: Loop, d: Loop)
    requires d == l.(windows := d.windows, depths := d.depths)
    ensures Scoped(d) <==> Scoped(l.(windows := d.windows))
    ensures Decided(cfg, d) <==> Decided(cfg, l.(windows := d.windows))
  {
    hide ArmsOk;
  }

  lemma NothingReceived(s: Windows.System)
    requires s.pipe == []
    ensures Windows.Received(s) == s.table
  {}

  /** Draining everything and burying a thread leaves the others as they were. */
  lemma DeathFollows(h: History, ev: Event)
    requires Follows(h) && Windows.Bounded(h.sys)
    ensures var table := Windows.Received(h.sys); var left := AfterDeath(h, ev);
      var h' := left.(sys := left.sys.(pipe := [], table := if ev.Gone? then table - {ev.tid} else table));
      Follows(h') && Windows.Bounded(h'.sys)
  {
    hide Windows.Received;
    var table, left := Windows.Received(h.sys), AfterDeath(h, ev);
    var h' := left.(sys := left.sys.(pipe := [], table := if ev.Gone? then table - {ev.tid} else table));
    NothingReceived(h'.sys);
    forall t
      ensures KnowsThread(h', t)
    {
      assert KnowsThread(h, t);
    }
  }

  /** Tracing starts before any window is open. */
  ghost predicate Fresh(w: World) { Initial(w.loop) && w.loop.windows == map[] && w.tracee == Unheard }

  lemma FreshLinks(cfg: LoopConfig, w: World)
    requires Fresh(w)
    ensures Linked(cfg, w)
  {
    NothingReceived(w.tracee.sys);
    UnheardFollows();
  }

  lemma {:induction false} RunLinks(cfg: LoopConfig, w: World, moves: seq<Move>)
    requires Fresh(w) && ShallowRun(cfg, w, moves)
    ensures Linked(cfg, Run(cfg, w, moves))
    ensures TracingOk(Run(cfg, w, moves).loop) && OutputsOk(Run(cfg, w, moves).loop)
    ensures Run(cfg, w, moves).loop.fs.Some? == w.loop.fs.Some?
    decreases |moves|
  {
    hide Step, Linked, TracingOk, OutputsOk;
    if moves == [] {
      FreshLinks(cfg, w);
      FreshTraces(w.loop);
    } else {
      var prefix, m := moves[..|moves| - 1], moves[|moves| - 1];
      forall k {:trigger prefix[k]} | 0 <= k < |prefix|
        ensures Shallow(Run(cfg, w, prefix[..k]), prefix[k])
      {
        assert prefix[..k] == moves[..k] && prefix[k] == moves[k];
      }
      RunLinks(cfg, w, prefix);
      MoveLinks(cfg, Run(cfg, w, prefix), m);
    }
  }

  lemma FreshTraces(l: Loop)
    requires Initial(l)
    ensures TracingOk(l) && OutputsOk(l)
  {}

  lemma MoveLinks(cfg: LoopConfig, w: World, m: Move)
    requires Linked(cfg, w) && Shallow(w, m) && TracingOk(w.loop) && OutputsOk(w.loop)
    ensures var w' := Step(cfg, w, m);
      Linked(cfg, w') && TracingOk(w'.loop) && OutputsOk(w'.loop) && w'.loop.fs.Some? == w.loop.fs.Some?
  {
    hide EventLoop.Step, Linked, TracingOk, OutputsOk, After, Windows.Received;
    match m
    case Thread(_) => ThreadLinks(cfg, w, m);
    case KernelRuns(e) =>
      KernelLinks(cfg, w, e);
      StepTraces(cfg, w.loop, Kernel(e));
      TracefsStays(cfg, w.loop, Kernel(e));
    case Turn(ds, ev) =>
      TurnLinks(cfg, w, ds, ev);
      StepTraces(cfg, w.loop, Tracer(ds, w.tracee.sys.pipe, ev));
      TracefsStays(cfg, w.loop, Tracer(ds, w.tracee.sys.pipe, ev));
  }

  lemma {:induction false} ResumeTracefsStays(cfg: LoopConfig, l: Loop)
    ensures ResumeWaiting(cfg, l).fs.Some? == l.fs.Some?
    decreases |l.waiting|
  {
    hide BeginCapture;
    if l.active == None && l.waiting != [] {
      var tid, rest := l.waiting[0], l.(waiting := l.waiting[1..]);
      if tid !in l.states || !l.states[tid].active || !l.states[tid].fgraphWaiting {
        ResumeTracefsStays(cfg, rest);
      } else {
        BeginTakesSlot(cfg, rest, tid, l.states[tid].(fgraphWaiting := false));
        ResumeTracefsStays(cfg, ServeOne(cfg, rest, tid));
      }
    }
  }

  lemma TracefsStays(cfg: LoopConfig, l: Loop, a: Action)
    ensures EventLoop.Step(cfg, l, a).fs.Some? == l.fs.Some?
  {
    hide BeginCapture, FinishCapture, ResumeWaiting, Update, Suppressed, Record;
    if a.Tracer? {
      var d := Halt(Drained(l, a.depthUpdates, a.windowUpdates), a.event);
      match a.event
      case Gone(tid) =>
        FinishFrees(cfg, d);
        ResumeTracefsStays(cfg, Forget(if Names(d.active, tid) then FinishCapture(cfg, d) else d, tid));
      case SyscallStop(tid, Some(r)) =>
        if AtExit(d, tid) {
          FinishFrees(cfg, CompleteSyscall(cfg, d, tid, d.states[tid], r.raw));
          ResumeTracefsStays(cfg, FinishCapture(cfg, CompleteSyscall(cfg, d, tid, d.states[tid], r.raw)));
        } else {
          BeginTakesSlot(cfg, d, tid, SyscallState(true, r.internal, r.call, r.ts, false, false));
        }
      case _ =>
    }
  }

  /** The file that ends the call of thread `t`: about that call, with exactly the thread's events since the
      capture began, under the label the tracer holds, which is that of the thread's innermost window if the
      messages about its open windows got through. */
  ghost predicate FileFor(w: World, t: Tid, o: Output)
    requires t in w.loop.states
  {
    && o.capture.tid == t && o.capture.call == w.loop.states[t].call && o.capture.entryTs == w.loop.states[t].entryTs
    && Exact(o) && o.capture.scope == ScopeLabel(Windows.Received(w.tracee.sys), t)
    && (UpToDate(w, t) && AllHeard(w.tracee, t) ==> o.capture.scope == Innermost(w, t))
  }

  /** The thread is as deep as it last told. */
  predicate UpToDate(w: World, t: Tid) { Told(w.tracee, t) == |Stack(w, t)| }

  /** The thread told of a window, and the call is the program's own. */
  predicate Announced(w: World, t: Tid)
    requires t in w.loop.states
  {
    w.loop.fs.Some? && !w.loop.states[t].internal && Told(w.tracee, t) > 0
  }

  /** The call is the program's own and made inside a window. */
  predicate InWindow(w: World, t: Tid)
    requires t in w.loop.states
  {
    w.loop.fs.Some? && !w.loop.states[t].internal && Stack(w, t) != []
  }

  lemma AnnouncedIsCaptured(w: World, d: Loop, t: Tid)
    requires t in w.loop.states && d.states == w.loop.states && d.fs == w.loop.fs
    requires KnowsThread(w.tracee, t) && d.windows == Windows.Received(w.tracee.sys)
    ensures ShouldCapture(d, t, d.states[t]) <==> Announced(w, t)
    ensures t !in w.tracee.missed ==> UpToDate(w, t)
    ensures UpToDate(w, t) ==> (Announced(w, t) <==> InWindow(w, t))
    ensures UpToDate(w, t) && AllHeard(w.tracee, t) ==> ScopeLabel(d.windows, t) == Innermost(w, t)
  {
    hide Windows.Received;
    if UpToDate(w, t) && AllHeard(w.tracee, t) {
      HeardIsRight(w.tracee, t);
    }
  }

  /** The tracer's state when it handles an event: the pipe is drained. */
  lemma DrainedIsCurrent(cfg: LoopConfig, w: World, ds: seq<DepthUpdate>)
    requires Linked(cfg, w)
    ensures var d := Drained(w.loop, ds, w.tracee.sys.pipe);
      && Inv(d) && Scoped(d) && Decided(cfg, d) && d.windows == Windows.Received(w.tracee.sys)
      && d == w.loop.(windows := d.windows, depths := d.depths)
  {
    hide Inv, Scoped, Decided, Follows;
    DrainKeepsInv(w.loop, ds, w.tracee.sys.pipe);
    DepthsDoNotMatter(cfg, w.loop, Drained(w.loop, ds, w.tracee.sys.pipe));
  }

  /** The active capture of a thread is about the call the thread is in, and what decides whether there is one. */
  lemma CaptureIsOfCall(cfg: LoopConfig, l: Loop, t: Tid)
    requires Inv(l) && Scoped(l) && Decided(cfg, l) && AtExit(l, t)
    ensures l.states[t].fgraphCapturing <==> Names(l.active, t)
    ensures l.states[t].fgraphCapturing <==> t !in l.waiting && ShouldCapture(l, t, l.states[t]) && TurnOk(cfg, l, t)
    ensures t !in l.waiting && ShouldCapture(l, t, l.states[t]) ==> t in l.turns
    ensures Names(l.active, t) ==>
      var c := l.active.value;
      l.fs.Some? && c.call == l.states[t].call && c.entryTs == l.states[t].entryTs && c.scope == ScopeLabel(l.windows, t)
  {
    hide ArmsOk;
  }

  /** What a returning call needs for its file, apart from what the thread told: it was not run while queued, the
      accesses of its turn succeeded, and so do those that read the text out. */
  ghost predicate Granted(cfg: LoopConfig, l: Loop, t: Tid)
    requires t in l.states
  {
    t !in l.waiting && TurnOk(cfg, l, t) && l.fs.Some? && ReadsOut(l.fs.value, cfg.faults)
  }

  /** The files after the exit stop. */
  function FilesAfter(cfg: LoopConfig, w: World, ds: seq<DepthUpdate>, t: Tid, r: Regs): seq<Output> {
    Step(cfg, w, Turn(ds, SyscallStop(t, Some(r)))).loop.outputs
  }

  ghost predicate OneFileMore(w: World, t: Tid, files: seq<Output>)
    requires t in w.loop.states
  {
    var before := w.loop.outputs;
    |files| == |before| + 1 && files[..|before|] == before && FileFor(w, t, files[|before|])
  }

  /** What one exit stop does to the files. */
  lemma ExitWrites(cfg: LoopConfig, w: World, ds: seq<DepthUpdate>, t: Tid, r: Regs)
    requires Linked(cfg, w) && AtExit(w.loop, t) && OutputsOk(w.loop) && TracingOk(w.loop)
    ensures var files := FilesAfter(cfg, w, ds, t, r);
      if Announced(w, t) && Granted(cfg, w.loop, t) then OneFileMore(w, t, files) else files == w.loop.outputs
    ensures Announced(w, t) && t !in w.loop.waiting ==> t in w.loop.turns
    ensures t !in w.tracee.missed ==> UpToDate(w, t)
    ensures UpToDate(w, t) ==> (Announced(w, t) <==> InWindow(w, t))
  {
    hide Handle, Halt, LeaveSyscall, TracingOk, Exact, Windows.Received, Innermost, AllHeard, ReadsOut, ArmsOk, Inv, Decided, Scoped, KnowsThread;
    var d := Drained(w.loop, ds, w.tracee.sys.pipe);
    DrainedIsCurrent(cfg, w, ds);
    LeaveServes(cfg, d, t, r);
    AnnouncedIsCaptured(w, d, t);
    StepTraces(cfg, w.loop, Tracer(ds, w.tracee.sys.pipe, SyscallStop(t, Some(r))));
    ExitIsLeave(cfg, d, t, r);
    CaptureIsOfCall(cfg, d, t);
    var files, files' := w.loop.outputs, FilesAfter(cfg, w, ds, t, r);
    if files' != files {
      assert files'[|files|] in files';
    }
  }

  lemma ExitIsLeave(cfg: LoopConfig, d: Loop, t: Tid, r: Regs)
    requires AtExit(d, t)
    ensures Handle(cfg, Halt(d, SyscallStop(t, Some(r))), SyscallStop(t, Some(r))) == LeaveSyscall(cfg, d, t, r.raw)
  {
    hide LeaveSyscall, EnterSyscall, Halt;
    HaltedHandle(cfg, d, SyscallStop(t, Some(r)));
  }

  /** Main result, exactly which calls get a file, whatever fails and whatever is lost: a call that returns has one
      file more if and only if its thread told of a window, it was not run while queued, and the accesses of its
      turn and those that read the text out succeeded; the file is about the call. */
  lemma FileWrittenIff(cfg: LoopConfig, w: World, moves: seq<Move>, ds: seq<DepthUpdate>, t: Tid, r: Regs)
    requires Fresh(w) && ShallowRun(cfg, w, moves) && AtExit(Run(cfg, w, moves).loop, t)
    ensures var now := Run(cfg, w, moves); var files := FilesAfter(cfg, now, ds, t, r);
      && (if Announced(now, t) && Granted(cfg, now.loop, t) then OneFileMore(now, t, files) else files == now.loop.outputs)
      && (Announced(now, t) && t !in now.loop.waiting ==> t in now.loop.turns)
      && (t !in now.tracee.missed ==> UpToDate(now, t)) && (UpToDate(now, t) ==> (Announced(now, t) <==> InWindow(now, t)))
  {
    hide Step, Run, Linked, TracingOk, OutputsOk, OneFileMore, Announced, InWindow, Granted, FilesAfter, UpToDate;
    RunLinks(cfg, w, moves);
    ExitWrites(cfg, Run(cfg, w, moves), ds, t, r);
  }

  /** Main result, each system call in a window writes one file: if no control access fails, the thread is as deep
      as it last told (as it is if its latest message got through) and it stayed stopped while it was queued, a
      call that returns has its file if and only if it was made inside a window by the program itself. */
  lemma EachCallInWindowHasItsFile(cfg: LoopConfig, w: World, moves: seq<Move>, ds: seq<DepthUpdate>, t: Tid, r: Regs)
    requires Fresh(w) && ShallowRun(cfg, w, moves) && NothingFails(cfg.faults)
    requires var now := Run(cfg, w, moves); AtExit(now.loop, t) && t !in now.loop.waiting && UpToDate(now, t)
    ensures var now := Run(cfg, w, moves); var files := FilesAfter(cfg, now, ds, t, r);
      if InWindow(now, t) then OneFileMore(now, t, files) else files == now.loop.outputs
  {
    hide Step, Run, OneFileMore, FilesAfter, Announced;
    FileWrittenIff(cfg, w, moves, ds, t, r);
  }

  /** Main result, labels: a file is labelled with the innermost window its thread really has open, if the thread
      is as deep as it last told and the entries of its open windows got through. */
  lemma FilesAreLabelled(cfg: LoopConfig, w: World, moves: seq<Move>, ds: seq<DepthUpdate>, t: Tid, r: Regs)
    requires Fresh(w) && ShallowRun(cfg, w, moves) && AtExit(Run(cfg, w, moves).loop, t)
    requires var now := Run(cfg, w, moves); UpToDate(now, t) && AllHeard(now.tracee, t)
    ensures var now := Run(cfg, w, moves); var files, files' := now.loop.outputs, FilesAfter(cfg, now, ds, t, r);
      files' == files || (|files'| == |files| + 1 && InWindow(now, t) && files'[|files|].capture.tid == t
                          && files'[|files|].capture.scope == Innermost(now, t) && Innermost(now, t).Some?)
  {
    hide Step, Run, Linked, TracingOk, OutputsOk, Announced, Granted, FilesAfter, AllHeard, Exact;
    RunLinks(cfg, w, moves);
    ExitWrites(cfg, Run(cfg, w, moves), ds, t, r);
  }

  /** A thread opens a window and makes a call: the run up to the call's exit. */
  function OneCall(t: Tid, func: Windows.Name, delivered: bool, r: Regs): seq<Move> {
    [Thread(Windows.Enter(t, func, delivered)), Turn([], SyscallStop(t, Some(r)))]
  }

  lemma WindowOpened(t: Tid, func: Windows.Name, delivered: bool)
    ensures var h := After(Unheard, Windows.Enter(t, func, delivered));
      |Windows.Stack(h.sys, t)| == 1 && (Told(h, t) > 0 <==> delivered)
  {}

  /** The entry stop in an idle tracer. */
  lemma CallEntered(cfg: LoopConfig, w: World, t: Tid, r: Regs)
    requires Initial(w.loop)
    ensures var now := Step(cfg, w, Turn([], SyscallStop(t, Some(r))));
      && AtExit(now.loop, t) && now.loop.states[t].internal == r.internal && now.loop.fs.Some? == w.loop.fs.Some?
      && now.loop.waiting == [] && now.loop.outputs == [] && (t in now.loop.turns ==> Some(now.loop.turns[t]) == w.loop.fs)
      && Stack(now, t) == Stack(w, t) && Told(now.tracee, t) == Told(w.tracee, t)
  {
    hide EnterSyscall, BeginCapture, ShouldCapture;
    var d := Halt(Drained(w.loop, [], w.tracee.sys.pipe), SyscallStop(t, Some(r)));
    EnterNotes(cfg, d, t, r);
    CaptureNeedsTracefs(d, t, SyscallState(true, r.internal, r.call, r.ts, false, false));
  }

  /** The world when the call is under way. */
  lemma CallUnderWay(cfg: LoopConfig, w: World, t: Tid, func: Windows.Name, delivered: bool, r: Regs)
    requires Fresh(w) && w.loop.fs.Some? && !r.internal
    ensures var moves := OneCall(t, func, delivered, r); var now := Run(cfg, w, moves);
      && ShallowRun(cfg, w, moves) && AtExit(now.loop, t) && InWindow(now, t) && (Announced(now, t) <==> delivered)
      && now.loop.outputs == [] && (t in now.loop.turns ==> now.loop.turns[t] == w.loop.fs.value)
  {
    hide EventLoop.Step, After;
    var moves := OneCall(t, func, delivered, r);
    var first := Step(cfg, w, moves[0]);
    assert moves[..0] == [] && moves[..1] == [moves[0]] && moves[..1][..0] == [];
    assert Run(cfg, w, moves[..1]) == first;
    WindowOpened(t, func, delivered);
    CallEntered(cfg, first, t, r);
    assert Run(cfg, w, moves) == Step(cfg, first, moves[1]);
  }

  /** A call in a window whose capture cannot begin, or whose window the tracer has not heard of, has no file. */
  lemma CallWithoutFile(cfg: LoopConfig, w: World, t: Tid, func: Windows.Name, delivered: bool, r: Regs)
    requires Fresh(w) && w.loop.fs.Some? && !r.internal
    requires !delivered || cfg.faults(w.loop.fs.value.accesses) != Done
    ensures var now := Run(cfg, w, OneCall(t, func, delivered, r));
      AtExit(now.loop, t) && InWindow(now, t) && FilesAfter(cfg, now, [], t, r) == []
  {
    hide Run, Step, ReadsOut, FilesAfter, OneFileMore, Announced, InWindow, ShallowRun, OneCall;
    CallUnderWay(cfg, w, t, func, delivered, r);
    FileWrittenIff(cfg, w, OneCall(t, func, delivered, r), [], t, r);
  }
}
