/** The event loop beside the kernel's descriptor table: which system calls get a line. Calls take effect in the
    order of their exit stops. */
module PrintedCalls {
  import opened Common
  import opened Tracefs
  import opened FdTables
  import opened EventLoop
  import opened SlotProofs

  datatype World = World(loop: Loop, kernel: Kernel)

  /** `released` and `created` are what the call that returns at this move, if any, does to the table behind the
      tracer's back. */
  datatype Move = Move(action: EventLoop.Action, released: set<int>, created: Kernel)

  /** The call that returns at this move, if any. */
  function Returning(l: Loop, m: Move): Option<Call> {
    if m.action.Tracer? && m.action.event.SyscallStop? && m.action.event.regs.Some? && AtExit(l, m.action.event.tid)
    then Some(Call(l.states[m.action.event.tid].call, m.action.event.regs.value.raw, m.released, m.created))
    else None
  }

  function Step(cfg: LoopConfig, w: World, m: Move): World {
    var c := Returning(w.loop, m);
    World(EventLoop.Step(cfg, w.loop, m.action), if c == None then w.kernel else KernelStep(w.kernel, c.value))
  }

  function Run(cfg: LoopConfig, w: World, moves: seq<Move>): World
    decreases |moves|
  {
    if moves == [] then w else Step(cfg, Run(cfg, w, moves[..|moves| - 1]), moves[|moves| - 1])
  }

  /** The kernel can return this. */
  ghost predicate Plausible(w: World, m: Move) {
    var c := Returning(w.loop, m);
    c.Some? ==> Possible(w.kernel, c.value)
  }

  /** The call creates or releases a file of the tracer behind its back. */
  ghost predicate TouchesSecret(cfg: LoopConfig, w: World, m: Move) {
    var c := Returning(w.loop, m);
    c.Some? && SecretUnfollowed(cfg.fd, w.kernel, c.value)
  }

  /** The call releases a descriptor with a known path behind the tracer's back. */
  ghost predicate DropsKnown(w: World, m: Move) {
    var c := Returning(w.loop, m);
    c.Some? && KnownReleased(w.loop.fds.paths, c.value)
  }

  ghost predicate PlausibleRun(cfg: LoopConfig, w: World, moves: seq<Move>)
    decreases |moves|
  {
    moves == [] || (PlausibleRun(cfg, w, moves[..|moves| - 1]) && Plausible(Run(cfg, w, moves[..|moves| - 1]), moves[|moves| - 1]))
  }

  ghost predicate SecretsUntouched(cfg: LoopConfig, w: World, moves: seq<Move>)
    decreases |moves|
  {
    moves == [] || (SecretsUntouched(cfg, w, moves[..|moves| - 1]) && !TouchesSecret(cfg, Run(cfg, w, moves[..|moves| - 1]), moves[|moves| - 1]))
  }

  ghost predicate KnownKept(cfg: LoopConfig, w: World, moves: seq<Move>)
    decreases |moves|
  {
    moves == [] || (KnownKept(cfg, w, moves[..|moves| - 1]) && !DropsKnown(Run(cfg, w, moves[..|moves| - 1]), moves[|moves| - 1]))
  }

  /** The hidden set is right at every point of the run. */
  ghost predicate AlwaysHides(cfg: LoopConfig, w: World, moves: seq<Move>)
    decreases |moves|
  {
    Hides(cfg.fd, Run(cfg, w, moves).loop.fds, Run(cfg, w, moves).kernel)
    && (moves == [] || AlwaysHides(cfg, w, moves[..|moves| - 1]))
  }

  /** The call is the tracer's own business: it is made by the tracer's code in the target, works on one of its
      files or pipes, or opens one. */
  ghost predicate Own(cfg: LoopConfig, w: World, internal: bool, c: Call) {
    internal || OnOwnFile(cfg.fd, w.kernel, c)
  }

  lemma {:induction false} ResumePrintsNothing(cfg: LoopConfig, l: Loop)
    ensures ResumeWaiting(cfg, l).fds == l.fds && ResumeWaiting(cfg, l).lines == l.lines
    decreases |l.waiting|
  {
    hide BeginCapture;
    if l.active == None && l.waiting != [] {
      var tid, rest := l.waiting[0], l.(waiting := l.waiting[1..]);
      if tid !in l.states || !l.states[tid].active || !l.states[tid].fgraphWaiting {
        ResumePrintsNothing(cfg, rest);
      } else {
        BeginTakesSlot(cfg, rest, tid, l.states[tid].(fgraphWaiting := false));
        ResumePrintsNothing(cfg, ServeOne(cfg, rest, tid));
      }
    }
  }

  /** Descriptor maps and lines change only when a call returns. */
  lemma OnlyReturnsPrint(cfg: LoopConfig, l: Loop, m: Move)
    ensures var r := EventLoop.Step(cfg, l, m.action); var c := Returning(l, m);
      if c == None then r.fds == l.fds && r.lines == l.lines
      else
        && r.fds == Update(cfg.fd, l.fds, c.value.sys, c.value.raw)
        && r.lines == l.lines + if l.states[m.action.event.tid].internal || Suppressed(cfg.fd, l.fds, c.value.sys, c.value.raw) then []
           else [Line(m.action.event.tid, LineIndent(cfg, l, m.action), c.value.sys, NormalizeRet(c.value.raw))]
  {
    hide BeginCapture, EnterSyscall, FinishCapture, ResumeWaiting, Update, Suppressed, Record, ShouldCapture;
    if m.action.Tracer? {
      var d := Halt(Drained(l, m.action.depthUpdates, m.action.windowUpdates), m.action.event);
      match m.action.event
      case Gone(tid) =>
        FinishFrees(cfg, d);
        ResumePrintsNothing(cfg, Forget(if Names(d.active, tid) then FinishCapture(cfg, d) else d, tid));
      case SyscallStop(tid, Some(r)) =>
        if AtExit(d, tid) {
          var l1 := CompleteSyscall(cfg, d, tid, d.states[tid], r.raw);
          FinishFrees(cfg, l1);
          ResumePrintsNothing(cfg, FinishCapture(cfg, l1));
        } else {
          EnterNotes(cfg, d, tid, r);
        }
      case _ =>
    }
  }

  /** The depth the tracer knows of the thread once the pipe is drained. */
  function LineIndent(cfg: LoopConfig, l: Loop, a: EventLoop.Action): nat
    requires a.Tracer?
  {
    if cfg.spans then DepthOf(ApplyDepths(l.depths, a.depthUpdates), a.event.tid) else 0
  }

  /** The thread is in the same call as before, or in none as before. */
  ghost predicate SameCall(l: Loop, r: Loop, t: Tid) {
    (AtExit(r, t) <==> AtExit(l, t)) && (AtExit(l, t) ==> r.states[t].internal == l.states[t].internal && r.states[t].call == l.states[t].call)
  }

  lemma {:induction false} ResumeKeepsCalls(cfg: LoopConfig, l: Loop, t: Tid)
    ensures SameCall(l, ResumeWaiting(cfg, l), t) && ResumeWaiting(cfg, l).depths == l.depths
    decreases |l.waiting|
  {
    hide BeginCapture;
    if l.active == None && l.waiting != [] {
      var tid, rest := l.waiting[0], l.(waiting := l.waiting[1..]);
      if tid !in l.states || !l.states[tid].active || !l.states[tid].fgraphWaiting {
        ResumeKeepsCalls(cfg, rest, t);
      } else {
        BeginTakesSlot(cfg, rest, tid, l.states[tid].(fgraphWaiting := false));
        ResumeKeepsCalls(cfg, ServeOne(cfg, rest, tid), t);
      }
    }
  }

  /** What a turn makes of a thread that lives on: its depth is the one last told, and only its own readable stops
      begin and end its calls. */
  lemma TurnFollows(cfg: LoopConfig, l: Loop, a: EventLoop.Action, t: Tid)
    requires a.Tracer? && a.event != Gone(t)
    ensures var r := EventLoop.Step(cfg, l, a); var stop := a.event.SyscallStop? && a.event.tid == t && a.event.regs.Some?;
      && DepthOf(r.depths, t) == DepthOf(ApplyDepths(l.depths, a.depthUpdates), t)
      && (!stop ==> SameCall(l, r, t))
      && (stop && AtExit(l, t) ==> !AtExit(r, t))
      && (stop && !AtExit(l, t) ==> AtExit(r, t) && r.states[t].internal == a.event.regs.value.internal)
  {
    hide BeginCapture, EnterSyscall, FinishCapture, ResumeWaiting, Update, Suppressed, ApplyDepths, ShouldCapture;
    var d := Halt(Drained(l, a.depthUpdates, a.windowUpdates), a.event);
    match a.event
    case Gone(tid) =>
      FinishFrees(cfg, d);
      ResumeKeepsCalls(cfg, Forget(if Names(d.active, tid) then FinishCapture(cfg, d) else d, tid), t);
    case SyscallStop(tid, Some(r)) =>
      if AtExit(d, tid) {
        var l1 := CompleteSyscall(cfg, d, tid, d.states[tid], r.raw);
        FinishFrees(cfg, l1);
        ResumeKeepsCalls(cfg, FinishCapture(cfg, l1), t);
      } else {
        EnterNotes(cfg, d, tid, r);
      }
    case _ =>
  }

  lemma MoveHidesIff(cfg: LoopConfig, w: World, m: Move)
    requires Hides(cfg.fd, w.loop.fds, w.kernel) && Plausible(w, m)
    ensures Hides(cfg.fd, Step(cfg, w, m).loop.fds, Step(cfg, w, m).kernel) <==> !TouchesSecret(cfg, w, m)
  {
    hide EventLoop.Step, Update, KernelStep, Hides, SecretUnfollowed;
    OnlyReturnsPrint(cfg, w.loop, m);
    var c := Returning(w.loop, m);
    if c.Some? {
      StepHidesIff(cfg.fd, w.loop.fds, w.kernel, c.value);
    } else {
      HiddenOnly(cfg, w.loop.fds, Step(cfg, w, m).loop.fds, w.kernel);
    }
  }

  lemma HiddenOnly(cfg: LoopConfig, m: FdMaps, n: FdMaps, k: Kernel)
    requires m == n
    ensures Hides(cfg.fd, m, k) <==> Hides(cfg.fd, n, k)
  {}

  /** Over every run of the event loop, whatever descriptors other calls create and release, the hidden set is right
      at every point if and only if no call creates or releases a file of the tracer behind its back. */
  lemma {:induction false} LoopHidesIff(cfg: LoopConfig, w: World, moves: seq<Move>)
    requires Hides(cfg.fd, w.loop.fds, w.kernel) && PlausibleRun(cfg, w, moves)
    ensures AlwaysHides(cfg, w, moves) <==> SecretsUntouched(cfg, w, moves)
    ensures AlwaysHides(cfg, w, moves) ==> Hides(cfg.fd, Run(cfg, w, moves).loop.fds, Run(cfg, w, moves).kernel)
    decreases |moves|
  {
    hide Step, Hides, Plausible, TouchesSecret;
    if moves != [] {
      var prefix := moves[..|moves| - 1];
      LoopHidesIff(cfg, w, prefix);
      if AlwaysHides(cfg, w, prefix) {
        MoveHidesIff(cfg, Run(cfg, w, prefix), moves[|moves| - 1]);
      }
    }
  }

  /** Over every run in which no known descriptor is released behind the tracer's back, a path in the map is the path
      of the file behind the descriptor. */
  lemma {:induction false} LoopPathsNeverLie(cfg: LoopConfig, w: World, moves: seq<Move>)
    requires Partial(w.loop.fds.paths, w.kernel) && PlausibleRun(cfg, w, moves) && KnownKept(cfg, w, moves)
    ensures Partial(Run(cfg, w, moves).loop.fds.paths, Run(cfg, w, moves).kernel)
    decreases |moves|
  {
    hide EventLoop.Step, UpdateHidden, UpdatePaths, KernelStep, Partial, KnownReleased;
    if moves != [] {
      var prefix, m := moves[..|moves| - 1], moves[|moves| - 1];
      LoopPathsNeverLie(cfg, w, prefix);
      var now := Run(cfg, w, prefix);
      OnlyReturnsPrint(cfg, now.loop, m);
      if Returning(now.loop, m).Some? {
        PartialStep(now.loop.fds.paths, now.kernel, Returning(now.loop, m).value);
      }
    }
  }

  /** Main result: over every run that starts with the right hidden set and in which no call touches the tracer's
      files behind its back, a call that returns gets one line if and only if it is not the tracer's own business;
      nothing else prints a line. */
  lemma EachForeignCallIsPrinted(cfg: LoopConfig, w: World, moves: seq<Move>, m: Move)
    requires Hides(cfg.fd, w.loop.fds, w.kernel) && PlausibleRun(cfg, w, moves) && SecretsUntouched(cfg, w, moves)
    requires Plausible(Run(cfg, w, moves), m)
    ensures var now := Run(cfg, w, moves); var c := Returning(now.loop, m);
      Step(cfg, now, m).loop.lines ==
        now.loop.lines + if c == None || Own(cfg, now, now.loop.states[m.action.event.tid].internal, c.value) then []
          else [Line(m.action.event.tid, LineIndent(cfg, now.loop, m.action), c.value.sys, if -4095 <= c.value.raw <= -1 then -1 else c.value.raw)]
  {
    hide EventLoop.Step, Suppressed, OnOwnFile, Run, Hides, KernelStep, AlwaysHides, SecretsUntouched, PlausibleRun;
    LoopHidesIff(cfg, w, moves);
    var now := Run(cfg, w, moves);
    OnlyReturnsPrint(cfg, now.loop, m);
    var c := Returning(now.loop, m);
    if c.Some? {
      SuppressesExactly(cfg.fd, now.loop.fds, now.kernel, c.value);
    }
  }
}
