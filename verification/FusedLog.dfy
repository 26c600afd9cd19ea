/** One thread's file, written by two processes: the thread prints its span lines, the tracer the lines of
    its system calls. The tracer knows the thread's depth only from messages in a pipe shared by all
    threads. The thread's hooks are cut into their single writes, between which the tracer may run. */
module FusedLog {
  import opened Common
  import opened FdTables
  import opened Spans
  import opened EventLoop
  import PrintedCalls
  import Windows

  /** A hook has still to publish the new depth (at most one) and to print the given lines. */
  datatype Phase = Running | Hooking(publish: Option<nat>, toPrint: seq<Spans.Line>)

  datatype Entry = Span(line: Spans.Line) | CallLine(indent: nat)

  /** `heard` is history: the depth message of the thread's latest hook got into the pipe. */
  datatype World = World(
    stack: seq<Frame>, phase: Phase, pipe: seq<DepthUpdate>, loop: Loop, file: seq<Entry>, heard: bool)

  /** `Turn` is a turn of the tracer's loop, which drains the pipe before it handles the event. */
  datatype Move =
    | EnterHook(func: string, args: string)
    | ExitHook(ret: string)
    | Publish(delivered: bool)
    | Print
    | Return
    | OtherThread(tid: Tid, depth: nat)
    | Turn(windowUpdates: seq<Windows.Update>, event: Event)

  function TurnAction(w: World, m: Move): Action
    requires m.Turn?
  {
    Tracer(w.pipe, m.windowUpdates, m.event)
  }

  /** The thread lives, its registers can be read when it stops at a system call, and the calls its hooks make are
      classified as internal. */
  predicate Expected(t: Tid, w: World, ev: Event) {
    ev != Gone(t) && ev != SyscallStop(t, None)
    && (ev.SyscallStop? && ev.tid == t && !AtExit(w.loop, t) && w.phase.Hooking? ==> ev.regs.value.internal)
  }

  /** The lines of thread `t` that a turn adds to the file. */
  function Printed(t: Tid, before: seq<EventLoop.Line>, after: seq<EventLoop.Line>): seq<Entry> {
    if |after| > |before| && after[|after| - 1].tid == t then [CallLine(after[|after| - 1].indent)] else []
  }

  /** The move of thread `t`, of another thread or of the tracer; a move that is not possible does nothing, and a
      thread inside a system call takes no step. System calls are traced, so printing is eager. */
  function Step(cfg: LoopConfig, t: Tid, w: World, m: Move): World {
    match m
    case OtherThread(tid, depth) => if tid == t then w else w.(pipe := w.pipe + [DepthUpdate(tid, depth)])
    case Turn(_, ev) =>
      if !Expected(t, w, ev) then w
      else
        var loop := EventLoop.Step(cfg, w.loop, TurnAction(w, m));
        w.(loop := loop, pipe := [], file := w.file + Printed(t, w.loop.lines, loop.lines))
    case _ => if AtExit(w.loop, t) then w else HookStep(t, w, m)
  }

  function HookStep(t: Tid, w: World, m: Move): World
    requires !m.OtherThread? && !m.Turn?
  {
    match m
    case EnterHook(func, args) =>
      if w.phase != Running then w
      else
        var s := EnterSpan(SpanState(w.stack, [], []), true, func, args);
        w.(stack := s.stack, phase := Hooking(Some(s.published[0]), s.log), heard := false)
    case ExitHook(ret) =>
      if w.phase != Running || w.stack == [] then w
      else
        var s := ExitSpan(SpanState(w.stack, [], []), true, ret);
        w.(stack := s.stack, phase := Hooking(Some(s.published[0]), s.log), heard := false)
    case Publish(delivered) =>
      if !w.phase.Hooking? || w.phase.publish == None then w
      else w.(phase := Hooking(None, w.phase.toPrint), heard := delivered,
              pipe := w.pipe + if delivered then [DepthUpdate(t, Min(w.phase.publish.value, U32_MAX))] else [])
    case Print =>
      if !w.phase.Hooking? || w.phase.publish.Some? || w.phase.toPrint == [] then w
      else w.(phase := Hooking(None, w.phase.toPrint[1..]), file := w.file + [Span(w.phase.toPrint[0])])
    case Return => if w.phase == Hooking(None, []) then w.(phase := Running) else w
  }

  function Run(cfg: LoopConfig, t: Tid, w: World, moves: seq<Move>): World
    decreases |moves|
  {
    if moves == [] then w else Step(cfg, t, Run(cfg, t, w, moves[..|moves| - 1]), moves[|moves| - 1])
  }

  /** Nothing has happened yet, and the tracer knows nothing of the thread. */
  ghost predicate Fresh(t: Tid, w: World) {
    w == World([], Running, [], w.loop, [], true) && t !in w.loop.states && t !in w.loop.depths
  }

  /** Braces opened and not yet closed. */
  function Braces(file: seq<Entry>): int
    decreases |file|
  {
    if file == [] then 0
    else
      Braces(file[..|file| - 1]) +
      match file[|file| - 1] { case Span(Open(_, _, _)) => 1 case Span(Close(_, _)) => -1 case _ => 0 }
  }

  /** Every span line stands at the depth of the braces around it, and no brace is closed that is not open. */
  ghost predicate SpansNest(file: seq<Entry>)
    decreases |file|
  {
    file == [] ||
    (SpansNest(file[..|file| - 1]) &&
     var around := Braces(file[..|file| - 1]);
     match file[|file| - 1] {
       case Span(Open(d, _, _)) => d == around
       case Span(Leaf(d, _, _, _)) => d == around
       case Span(Close(d, _)) => d + 1 == around
       case CallLine(_) => true
     })
  }

  function AsEntries(lines: seq<Spans.Line>): seq<Entry> {
    seq(|lines|, i requires 0 <= i < |lines| => Span(lines[i]))
  }

  /** The file once the lines the hook still has to print are in it. */
  function Pending(w: World): seq<Entry> { if w.phase.Hooking? then w.file + AsEntries(w.phase.toPrint) else w.file }

  function Received(w: World): map<Tid, nat> { ApplyDepths(w.loop.depths, w.pipe) }

  ghost predicate Inv(t: Tid, w: World) {
    && FramesOk(w.stack, true)
    && SpansNest(Pending(w)) && Braces(Pending(w)) == |w.stack|
    && (w.phase.Hooking? && w.phase.publish.Some? ==> w.phase.publish.value == |w.stack| && !w.heard)
    && (w.heard ==> DepthOf(Received(w), t) == Min(|w.stack|, U32_MAX))
    && (AtExit(w.loop, t) && w.phase.Hooking? ==> w.loop.states[t].internal)
  }

  lemma SendDepth(w: World, u: DepthUpdate)
    ensures ApplyDepths(w.loop.depths, w.pipe + [u]) == Received(w)[u.tid := u.depth]
  {
    assert (w.pipe + [u])[..|w.pipe|] == w.pipe;
  }

  lemma OneMore(file: seq<Entry>, e: Entry)
    ensures SpansNest(file + [e]) <==> SpansNest(file) && match e {
      case Span(Open(d, _, _)) => d == Braces(file)
      case Span(Leaf(d, _, _, _)) => d == Braces(file)
      case Span(Close(d, _)) => d + 1 == Braces(file)
      case CallLine(_) => true }
    ensures Braces(file + [e]) == Braces(file) + match e { case Span(Open(_, _, _)) => 1 case Span(Close(_, _)) => -1 case _ => 0 }
  {
    assert (file + [e])[..|file|] == file;
  }

  /** An eager hook has one line to print. */
  lemma EnterKeeps(t: Tid, w: World, func: string, args: string)
    requires Inv(t, w) && w.phase == Running && !AtExit(w.loop, t)
    ensures Inv(t, HookStep(t, w, EnterHook(func, args)))
  {
    hide SpansNest, Braces, ApplyDepths;
    var w' := HookStep(t, w, EnterHook(func, args));
    var line := Open(|w.stack|, func, args);
    assert w'.phase.toPrint == [line];
    assert Pending(w') == w.file + [Span(line)];
    OneMore(w.file, Span(line));
  }

  lemma ExitKeeps(t: Tid, w: World, ret: string)
    requires Inv(t, w) && w.phase == Running && w.stack != [] && !AtExit(w.loop, t)
    ensures Inv(t, HookStep(t, w, ExitHook(ret)))
  {
    hide SpansNest, Braces, ApplyDepths;
    var w' := HookStep(t, w, ExitHook(ret));
    LateOpenUnreachable(w.stack, true, ret);
    var line := Close(|w.stack| - 1, ret);
    assert w'.phase.toPrint == [line];
    assert Pending(w') == w.file + [Span(line)];
    OneMore(w.file, Span(line));
  }

  lemma HookKeeps(t: Tid, w: World, m: Move)
    requires !m.OtherThread? && !m.Turn?
    requires Inv(t, w) && !AtExit(w.loop, t)
    ensures Inv(t, HookStep(t, w, m))
  {
    hide SpansNest, Braces, EnterSpan, ExitSpan, ApplyDepths;
    var w' := HookStep(t, w, m);
    match m
    case EnterHook(func, args) => if w.phase == Running { EnterKeeps(t, w, func, args); }
    case ExitHook(ret) => if w.phase == Running && w.stack != [] { ExitKeeps(t, w, ret); }
    case Publish(_) =>
      if w.phase.Hooking? && w.phase.publish.Some? {
        assert w.pipe + [] == w.pipe;
        SendDepth(w, DepthUpdate(t, Min(w.phase.publish.value, U32_MAX)));
      }
    case Print =>
      if w.phase.Hooking? && w.phase.publish == None && w.phase.toPrint != [] {
        assert Pending(w') == Pending(w);
      }
    case Return => if w.phase == Hooking(None, []) { assert Pending(w) == w.file; }
  }

  /** What a turn that the thread expects adds to its file: a line if its call returns, is the program's own and is
      not suppressed, and then at the depth last told. */
  lemma TurnPrints(cfg: LoopConfig, t: Tid, w: World, m: Move)
    requires cfg.spans && m.Turn? && Expected(t, w, m.event)
    ensures var w' := Step(cfg, t, w, m); var c := PrintedCalls.Returning(w.loop, PrintedCalls.Move(TurnAction(w, m), {}, map[]));
      w'.file == w.file +
        if c.Some? && m.event.tid == t && !w.loop.states[t].internal && !Suppressed(cfg.fd, w.loop.fds, c.value.sys, c.value.raw)
        then [CallLine(DepthOf(Received(w), t))] else []
  {
    hide EventLoop.Step, Suppressed, Update, ApplyDepths;
    PrintedCalls.OnlyReturnsPrint(cfg, w.loop, PrintedCalls.Move(TurnAction(w, m), {}, map[]));
  }

  lemma TurnKeeps(cfg: LoopConfig, t: Tid, w: World, m: Move)
    requires cfg.spans && Inv(t, w) && m.Turn? && Expected(t, w, m.event)
    ensures Inv(t, Step(cfg, t, w, m))
  {
    hide SpansNest, Braces, ApplyDepths, EventLoop.Step, FramesOk;
    TurnPrints(cfg, t, w, m);
    PrintedCalls.TurnFollows(cfg, w.loop, TurnAction(w, m), t);
    var w' := Step(cfg, t, w, m);
    NothingToDrain(w'.loop.depths);
    if w'.file != w.file {
      OneMore(w.file, CallLine(DepthOf(Received(w), t)));
    } else {
      assert Pending(w') == Pending(w);
    }
  }

  lemma NothingToDrain(table: map<Tid, nat>)
    ensures ApplyDepths(table, []) == table
  {}

  lemma StepKeeps(cfg: LoopConfig, t: Tid, w: World, m: Move)
    requires cfg.spans && Inv(t, w)
    ensures Inv(t, Step(cfg, t, w, m))
  {
    hide SpansNest, Braces, HookStep, ApplyDepths, EventLoop.Step;
    match m
    case OtherThread(tid, depth) => SendDepth(w, DepthUpdate(tid, depth));
    case Turn(_, ev) => if Expected(t, w, ev) { TurnKeeps(cfg, t, w, m); }
    case _ => if !AtExit(w.loop, t) { HookKeeps(t, w, m); }
  }

  lemma FreshInv(t: Tid, w: World)
    requires Fresh(t, w)
    ensures Inv(t, w)
  {}

  lemma {:induction false} RunKeeps(cfg: LoopConfig, t: Tid, w: World, moves: seq<Move>)
    requires cfg.spans && Fresh(t, w)
    ensures Inv(t, Run(cfg, t, w, moves))
    decreases |moves|
  {
    hide Step, Inv;
    if moves == [] {
      FreshInv(t, w);
    } else {
      RunKeeps(cfg, t, w, moves[..|moves| - 1]);
      StepKeeps(cfg, t, Run(cfg, t, w, moves[..|moves| - 1]), moves[|moves| - 1]);
    }
  }

  /** When a call of the program itself returns and its line is not suppressed, the line is indented by the number of
      open braces if and only if the tracer's depth is the height of the thread's stack, which holds whenever the
      message of the thread's latest hook was not lost, whatever was lost before. Any other turn prints nothing. */
  lemma CallLineRightIff(cfg: LoopConfig, t: Tid, w: World, moves: seq<Move>, m: Move)
    requires cfg.spans && Fresh(t, w) && m.Turn? && Expected(t, Run(cfg, t, w, moves), m.event)
    ensures var now := Run(cfg, t, w, moves); var file := Step(cfg, t, now, m).file;
      var c := PrintedCalls.Returning(now.loop, PrintedCalls.Move(TurnAction(now, m), {}, map[]));
      if c.Some? && m.event.tid == t && !now.loop.states[t].internal && !Suppressed(cfg.fd, now.loop.fds, c.value.sys, c.value.raw) then
        && file == now.file + [CallLine(DepthOf(Received(now), t))]
        && (DepthOf(Received(now), t) == Braces(now.file) <==> DepthOf(Received(now), t) == |now.stack|)
        && (now.heard ==> DepthOf(Received(now), t) == Min(Braces(now.file), U32_MAX))
      else file == now.file
  {
    hide Step, Run, SpansNest, Braces, Suppressed, ApplyDepths;
    RunKeeps(cfg, t, w, moves);
    TurnPrints(cfg, t, Run(cfg, t, w, moves), m);
  }

  predicate Lossless(moves: seq<Move>) {
    forall i :: 0 <= i < |moves| ==> moves[i] != Publish(false)
  }

  ghost predicate CallsIndented(file: seq<Entry>) {
    forall i :: 0 <= i < |file| && file[i].CallLine? ==> file[i].indent == Min(Braces(file[..i]), U32_MAX)
  }

  /** What holds besides when no message is lost. */
  ghost predicate Fused(w: World) {
    && (!w.phase.Hooking? || w.phase.publish == None ==> w.heard)
    && SpansNest(w.file) && CallsIndented(w.file)
  }

  /** Main result: if no depth message is lost, then in every interleaving of the thread, other threads and the turns
      of the tracer's loop the file is well nested and each system-call line is indented by exactly the braces open
      where it stands (a message cannot say more than 2^32-1). */
  lemma {:induction false} FileIsFused(cfg: LoopConfig, t: Tid, w: World, moves: seq<Move>)
    requires cfg.spans && Fresh(t, w) && Lossless(moves)
    ensures var now := Run(cfg, t, w, moves);
      Fused(now) && (!now.phase.Hooking? ==> Braces(now.file) == |now.stack|)
    decreases |moves|
  {
    hide Step, SpansNest, Braces, Fused;
    RunKeeps(cfg, t, w, moves);
    if moves == [] {
      EmptyFile(w);
    } else {
      var prefix, m := moves[..|moves| - 1], moves[|moves| - 1];
      FileIsFused(cfg, t, w, prefix);
      RunKeeps(cfg, t, w, prefix);
      FusedStep(cfg, t, Run(cfg, t, w, prefix), m);
    }
  }

  lemma EmptyFile(w: World)
    requires w.file == [] && w.heard
    ensures Fused(w) && Braces([]) == 0
  {}

  lemma FusedStep(cfg: LoopConfig, t: Tid, w: World, m: Move)
    requires cfg.spans && Inv(t, w) && Inv(t, Step(cfg, t, w, m)) && m != Publish(false) && Fused(w)
    ensures Fused(Step(cfg, t, w, m))
  {
    hide SpansNest, Braces, ApplyDepths, EventLoop.Step, HookStep, Inv;
    match m
    case OtherThread(_, _) =>
    case Turn(_, ev) =>
      if Expected(t, w, ev) {
        TurnPrints(cfg, t, w, m);
        if Step(cfg, t, w, m).file != w.file {
          LineIsIndented(t, w);
          CallAppended(w.file, DepthOf(Received(w), t));
        }
      }
    case _ =>
      if !AtExit(w.loop, t) {
        HookFused(t, w, m);
      }
  }

  /** Where a line of the thread's own call is printed the thread is not in a hook. */
  lemma LineIsIndented(t: Tid, w: World)
    requires Inv(t, w) && Fused(w) && AtExit(w.loop, t) && !w.loop.states[t].internal
    ensures DepthOf(Received(w), t) == Min(Braces(w.file), U32_MAX)
  {
    hide SpansNest, Braces, ApplyDepths;
  }

  lemma CallAppended(file: seq<Entry>, indent: nat)
    requires SpansNest(file) && CallsIndented(file) && indent == Min(Braces(file), U32_MAX)
    ensures SpansNest(file + [CallLine(indent)]) && CallsIndented(file + [CallLine(indent)])
  {
    hide SpansNest, Braces;
    OneMore(file, CallLine(indent));
    var longer := file + [CallLine(indent)];
    assert forall i :: 0 <= i <= |file| ==> longer[..i] == file[..i];
  }

  lemma HookFused(t: Tid, w: World, m: Move)
    requires !m.OtherThread? && !m.Turn? && m != Publish(false)
    requires Fused(w) && Inv(t, HookStep(t, w, m))
    ensures Fused(HookStep(t, w, m))
  {
    hide SpansNest, Braces, EnterSpan, ExitSpan, ApplyDepths;
    var w' := HookStep(t, w, m);
    if w'.file != w.file {
      var e := w'.file[|w.file|];
      assert w'.file == w.file + [e] && e.Span?;
      assert Pending(w') == w'.file + AsEntries(w'.phase.toPrint);
      PrefixNests(w'.file, AsEntries(w'.phase.toPrint));
      assert forall i :: 0 <= i <= |w.file| ==> w'.file[..i] == w.file[..i];
    }
  }

  lemma {:induction false} PrefixNests(file: seq<Entry>, more: seq<Entry>)
    requires SpansNest(file + more)
    ensures SpansNest(file)
    decreases |more|
  {
    if more == [] {
      assert file + more == file;
    } else {
      assert (file + more)[..|file + more| - 1] == file + more[..|more| - 1];
      PrefixNests(file, more[..|more| - 1]);
    }
  }
}
