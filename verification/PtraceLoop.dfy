/** The tracer's loop in the form it has in the program: maps, a queue and a slot updated in place. Every
    method is tied to the function of module EventLoop that specifies it. */
module PtraceLoop {
  import opened Common
  import opened Tracefs
  import opened FdTables
  import opened EventLoop
  import Windows

  class Tracer {
    const cfg: LoopConfig
    const tracker: FdTracker
    const controller: TraceFsController?
    var states: map<Tid, SyscallState>
    var depthByTid: map<Tid, nat>
    var windowByTid: Windows.Table
    var activeCapture: Option<Capture>
    var waitingTids: seq<Tid>
    var files: seq<(Capture, seq<KernelEvent>)>  // the function-graph files written so far
    var lines: seq<Line>
    ghost var held: set<Tid>
    ghost var since: seq<KernelEvent>
    ghost var turns: map<Tid, TraceFs>
    ghost var outputs: seq<Output>  // `files` with the history that belongs to each

    ghost predicate Valid()
      reads this, tracker, controller
    {
      && tracker.cfg == cfg.fd && (controller != null ==> controller.faults == cfg.faults)
      && |files| == |outputs| && forall i :: 0 <= i < |files| ==> files[i] == (outputs[i].capture, outputs[i].text)
    }

    ghost function View(): Loop
      reads this, tracker, controller
    {
      Loop(states, depthByTid, windowByTid, activeCapture, waitingTids, tracker.Maps(),
           if controller == null then None else Some(controller.fs), held, since, turns, outputs, lines)
    }

    constructor (cfg: LoopConfig, tracker: FdTracker, controller: TraceFsController?)
      requires tracker.cfg == cfg.fd && (controller != null ==> controller.faults == cfg.faults && !controller.fs.on)
      ensures Valid() && Initial(View()) && this.cfg == cfg && this.tracker == tracker && this.controller == controller
    {
      this.cfg, this.tracker, this.controller := cfg, tracker, controller;
      states, depthByTid, windowByTid, activeCapture, waitingTids := map[], map[], map[], None, [];
      files, outputs, lines, held, since, turns := [], [], [], {}, [], map[];
    }

    method DrainDepthUpdates(us: seq<DepthUpdate>)
      modifies this`depthByTid
      ensures depthByTid == ApplyDepths(old(depthByTid), us)
    {
      var i := 0;
      while i < |us|
        invariant 0 <= i <= |us|
        invariant depthByTid == ApplyDepths(old(depthByTid), us[..i])
      {
        depthByTid := depthByTid[us[i].tid := us[i].depth];
        assert us[..i + 1][..i] == us[..i];
        i := i + 1;
      }
      assert us[..i] == us;
    }

    method ApplyWindowUpdate(u: Windows.Update)
      modifies this`windowByTid
      ensures windowByTid == Windows.ApplyUpdate(old(windowByTid), u)
    {
      if u.depth == 0 {
        windowByTid := windowByTid - {u.tid};
        return;
      }
      var state := if u.tid in windowByTid then windowByTid[u.tid] else Windows.WindowState(0, []);
      state := state.(depth := u.depth);
      if u.enter {
        state := state.(labels := Windows.Truncate(state.labels, SaturatingSub(u.depth)));
        state := state.(labels := state.labels + [Windows.Label(Windows.UpToNul(u.func), u.seqNo)]);
      } else {
        state := state.(labels := Windows.Truncate(state.labels, u.depth));
      }
      windowByTid := windowByTid[u.tid := state];
    }

    method DrainWindowUpdates(us: seq<Windows.Update>)
      modifies this`windowByTid
      ensures windowByTid == Windows.ApplyAll(old(windowByTid), us)
    {
      var i := 0;
      while i < |us|
        invariant 0 <= i <= |us|
        invariant windowByTid == Windows.ApplyAll(old(windowByTid), us[..i])
      {
        ApplyWindowUpdate(us[i]);
        assert us[..i + 1][..i] == us[..i];
        i := i + 1;
      }
      assert us[..i] == us;
    }

    method BeginFgraphCapture(tid: Tid, st: SyscallState) returns (ok: bool)
      requires Valid()
      modifies this, controller
      ensures Valid() && (View(), ok) == BeginCapture(cfg, old(View()), tid, st)
    {
      if controller == null {
        return false;
      }
      var func := cfg.graphFunction(st.call.nr);
      turns := turns[tid := controller.fs];
      ok := controller.BeginCapture(tid, func);
      if !ok {
        return;
      }
      activeCapture := Some(Capture(tid, st.call, st.entryTs, ScopeLabel(windowByTid, tid), func));
      since := [];
    }

    method FinishActiveCapture()
      requires Valid()
      modifies this, controller
      ensures Valid() && View() == FinishCapture(cfg, old(View()))
    {
      if activeCapture == None {
        return;
      }
      var capture := activeCapture.value;
      activeCapture := None;
      if controller == null {
        return;
      }
      var text := controller.EndCaptureAndRead();
      if text == None {
        var _ := controller.ResetState();
        return;
      }
      files := files + [(capture, text.value)];
      outputs := outputs + [Output(capture, text.value, since, old(controller.fs.graph))];
    }

    method ShouldCaptureNow(tid: Tid, st: SyscallState) returns (b: bool)
      ensures b == ShouldCapture(View(), tid, st)
    {
      b := controller != null && !st.internal && (if tid in windowByTid then windowByTid[tid].depth else 0) > 0;
    }

    /** A stopped thread runs on to its next stop. */
    method PtraceSyscall(tid: Tid)
      modifies this`held
      ensures held == old(held) - {tid}
    {
      held := held - {tid};
    }

    /** The part of the queue loop that deals with one thread still waiting. */
    method ServeWaiting(tid: Tid)
      requires Valid() && tid in states
      modifies this, controller
      ensures Valid() && View() == ServeOne(cfg, old(View()), tid)
      ensures waitingTids == old(waitingTids)
    {
      var state := states[tid].(fgraphWaiting := false);
      var wants := ShouldCaptureNow(tid, state);
      var capturing := false;
      if wants {
        capturing := BeginFgraphCapture(tid, state);
      }
      states := states[tid := state.(fgraphCapturing := capturing)];
      PtraceSyscall(tid);
    }

    method MaybeResumeWaiting()
      requires Valid()
      modifies this, controller
      ensures Valid() && View() == ResumeWaiting(cfg, old(View()))
    {
      hide ServeOne;
      if activeCapture.Some? {
        return;
      }
      while |waitingTids| > 0
        invariant Valid() && activeCapture == None
        invariant ResumeWaiting(cfg, View()) == ResumeWaiting(cfg, old(View()))
        decreases |waitingTids|
      {
        var tid := waitingTids[0];
        waitingTids := waitingTids[1..];
        if tid !in states {
          continue;
        }
        var state := states[tid];
        if !state.active || !state.fgraphWaiting {
          continue;
        }
        ServeWaiting(tid);
        if activeCapture.Some? {
          break;
        }
      }
    }

    method EntryStop(tid: Tid, regs: Regs)
      requires Valid()
      modifies this, controller
      ensures Valid() && View() == EnterSyscall(cfg, old(View()), tid, regs)
    {
      var state := SyscallState(true, regs.internal, regs.call, regs.ts, false, false);
      var wants := ShouldCaptureNow(tid, state);
      var hold := false;
      if wants {
        if activeCapture == None {
          var capturing := BeginFgraphCapture(tid, state);
          state := state.(fgraphCapturing := capturing);
        } else {
          state := state.(fgraphWaiting := true);
          if tid !in waitingTids {
            waitingTids := waitingTids + [tid];
          }
          hold := true;
        }
      }
      states := states[tid := state];
      if hold {
        return;
      }
      PtraceSyscall(tid);
    }

    /** The line, the descriptor maps and the thread's state at an exit stop. */
    method Complete(tid: Tid, raw: int)
      requires Valid() && tid in states
      modifies this, tracker
      ensures Valid() && View() == CompleteSyscall(cfg, old(View()), tid, old(states[tid]), raw)
    {
      hide UpdatePaths, UpdateHidden, Suppressed, NormalizeRet;
      var state := states[tid];
      var ret := NormalizeRet(raw);
      if !state.internal && !Suppressed(cfg.fd, tracker.Maps(), state.call, raw) {
        var depth := if tid in depthByTid then depthByTid[tid] else 0;
        lines := lines + [Line(tid, if cfg.spans then depth else 0, state.call, ret)];
      }
      tracker.UpdateHiddenFds(state.call, ret);
      tracker.UpdateFdPaths(state.call, ret);
      states := states[tid := SyscallState(false, false, state.call.(path := None), 0, false, false)];
      PtraceSyscall(tid);
      turns := turns - {tid};
    }

    method ExitStop(tid: Tid, raw: int)
      requires Valid() && tid in states
      modifies this, controller, tracker
      ensures Valid() && View() == LeaveSyscall(cfg, old(View()), tid, raw)
    {
      hide FinishCapture, ResumeWaiting, CompleteSyscall;
      var finished := states[tid].fgraphCapturing;
      Complete(tid, raw);
      if finished {
        FinishActiveCapture();
        MaybeResumeWaiting();
      }
    }

    /** Nothing the loop keeps mentions the thread afterwards, the slot apart. */
    method ForgetThread(tid: Tid)
      requires Valid()
      modifies this
      ensures Valid() && View() == Forget(old(View()), tid)
    {
      hide Without;
      states := states - {tid};
      depthByTid := depthByTid - {tid};
      windowByTid := windowByTid - {tid};
      waitingTids := Without(waitingTids, tid);
      held := held - {tid};
      turns := turns - {tid};
    }

    method ThreadExited(tid: Tid)
      requires Valid()
      modifies this, controller
      ensures Valid() && View() == ThreadGone(cfg, old(View()), tid)
    {
      hide FinishCapture, ResumeWaiting, Forget;
      if activeCapture.Some? && activeCapture.value.tid == tid {
        FinishActiveCapture();
      }
      ForgetThread(tid);
      MaybeResumeWaiting();
    }

    /** One turn of the wait loop. */
    method HandleEvent(depthUpdates: seq<DepthUpdate>, windowUpdates: seq<Windows.Update>, ev: Event)
      requires Valid()
      modifies this, controller, tracker
      ensures Valid() && View() == Step(cfg, old(View()), EventLoop.Action.Tracer(depthUpdates, windowUpdates, ev))
    {
      hide EnterSyscall, LeaveSyscall, ThreadGone, ApplyDepths, Windows.ApplyAll;
      DrainDepthUpdates(depthUpdates);
      DrainWindowUpdates(windowUpdates);
      assert View() == Drained(old(View()), depthUpdates, windowUpdates);
      held := held + StoppedBy(ev);
      match ev
      case Gone(tid) => ThreadExited(tid);
      case SyscallStop(tid, None) => PtraceSyscall(tid);
      case SyscallStop(tid, Some(regs)) =>
        if tid in states && states[tid].active {
          ExitStop(tid, regs.raw);
        } else {
          EntryStop(tid, regs);
        }
      case Spawned(tid, child) =>
        if child.Some? {
          PtraceSyscall(child.value);
        }
        PtraceSyscall(tid);
      case OtherStop(tid) => PtraceSyscall(tid);
    }

    /** The kernel produces a function-graph event while the tracer waits. */
    method KernelRuns(e: KernelEvent)
      requires Valid()
      modifies this, controller
      ensures Valid() && View() == Step(cfg, old(View()), Kernel(e))
    {
      if controller != null {
        controller.fs := Record(controller.fs, e);
        since := since + [e];
      }
    }

    method RunLoop(actions: seq<Action>)
      requires Valid()
      modifies this, controller, tracker
      ensures Valid() && View() == Shutdown(cfg, Run(cfg, old(View()), actions))
    {
      hide Step;
      var i := 0;
      while i < |actions|
        invariant 0 <= i <= |actions| && Valid()
        invariant View() == Run(cfg, old(View()), actions[..i])
      {
        match actions[i] {
          case Kernel(e) => KernelRuns(e);
          case Tracer(ds, ws, ev) => HandleEvent(ds, ws, ev);
        }
        assert actions[..i + 1][..i] == actions[..i];
        i := i + 1;
      }
      assert actions[..i] == actions;
      if activeCapture.Some? {
        FinishActiveCapture();
      }
      if controller != null {
        var _ := controller.ResetState();
      }
    }
  }
}
