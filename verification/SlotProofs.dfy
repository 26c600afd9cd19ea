/** Safety and progress of the capture slot over every run of the event loop. */
module SlotProofs {
  import opened Common
  import opened Tracefs
  import opened EventLoop
  import opened FdTables

  /** The queue has no duplicates and only known threads; a waiting flag means queued and inside a call; a
      thread left stopped has the flag. */
  ghost predicate QueueOk(l: Loop) {
    && NoDuplicates(l.waiting)
    && (forall t :: t in l.waiting ==> t in l.states)
    && (forall t :: t in l.states && l.states[t].fgraphWaiting ==> t in l.waiting && l.states[t].active)
    && (forall t :: t in l.held ==> t in l.states && l.states[t].fgraphWaiting)
  }

  /** A thread's capturing flag is set exactly when the active capture names it; the capture is about the
      call the thread is in, and its thread is not queued. */
  ghost predicate SlotOk(l: Loop) {
    && (forall t :: t in l.states && l.states[t].fgraphCapturing ==> Names(l.active, t))
    && (l.active.Some? ==>
          var c := l.active.value;
          && l.fs.Some? && c.tid in l.states && c.tid !in l.waiting
          && l.states[c.tid].fgraphCapturing && l.states[c.tid].active
          && c.call == l.states[c.tid].call && c.entryTs == l.states[c.tid].entryTs)
  }

  ghost predicate Inv(l: Loop) {
    QueueOk(l) && SlotOk(l) && (l.waiting != [] ==> l.active.Some?)
  }

  /** Trying for the slot touches tracefs and the slot only, and the slot only on success; the turn is noted. */
  lemma BeginTakesSlot(cfg: LoopConfig, l: Loop, tid: Tid, st: SyscallState)
    ensures var (r, ok) := BeginCapture(cfg, l, tid, st);
      && r == l.(fs := r.fs, since := r.since, turns := r.turns, active := r.active)
      && r.fs.Some? == l.fs.Some? && r.turns == (if l.fs.Some? then l.turns[tid := l.fs.value] else l.turns)
      && (ok ==> l.fs.Some? && r.active == Some(Capture(tid, st.call, st.entryTs, ScopeLabel(l.windows, tid), cfg.graphFunction(st.call.nr))))
      && (!ok ==> r.active == l.active)
  {
    hide Begin;
  }

  /** Serving the popped thread `tid`: it is resumed, and it holds the slot or nobody does. */
  lemma ServeKeeps(cfg: LoopConfig, l: Loop, tid: Tid)
    requires QueueOk(l) && SlotOk(l) && l.active == None
    requires l.waiting != [] && l.waiting[0] == tid && l.states[tid].active
    ensures var r := ServeOne(cfg, l.(waiting := l.waiting[1..]), tid);
      && QueueOk(r) && SlotOk(r)
      && r == l.(waiting := l.waiting[1..], states := l.states[tid := r.states[tid]], held := l.held - {tid},
                 fs := r.fs, since := r.since, turns := r.turns, active := r.active)
      && (r.active.Some? ==> r.active.value.tid == tid)
  {
    hide Begin, BeginCapture;
    var rest := l.(waiting := l.waiting[1..]);
    assert l.waiting == [tid] + rest.waiting;
    BeginTakesSlot(cfg, rest, tid, l.states[tid].(fgraphWaiting := false));
    var r := ServeOne(cfg, rest, tid);
    assert tid in r.states;
  }

  /** `r` is `l` after the first `n` queued threads were popped and resumed. */
  ghost predicate PassedOn(l: Loop, r: Loop, n: int) {
    && 0 <= n <= |l.waiting| && r.waiting == l.waiting[n..]
    && (forall t :: t in r.held <==> t in l.held && t !in l.waiting[..n])
    && r.states.Keys == l.states.Keys
    && (forall t :: t in l.states && t !in l.waiting[..n] ==> r.states[t] == l.states[t])
    && (r.active != l.active ==> r.active.Some? && n > 0 && r.active.value.tid == l.waiting[n - 1])
    && r == l.(waiting := r.waiting, states := r.states, held := r.held, fs := r.fs, since := r.since, turns := r.turns, active := r.active)
  }

  lemma PassedOnNothing(l: Loop)
    ensures PassedOn(l, l, 0)
    ensures QueueOk(l) && SlotOk(l) && l.waiting == [] ==> Inv(l)
  {}

  lemma QueueHead(l: Loop)
    requires QueueOk(l) && l.waiting != []
    ensures l.waiting[0] in l.states
  {
    assert forall t :: t in l.waiting ==> t in l.states;
    assert l.waiting[0] in l.waiting;
  }

  /** A queued thread that no longer waits was not left stopped, so popping it is enough. */
  lemma PopStale(l: Loop)
    requires QueueOk(l) && SlotOk(l) && l.active == None && l.waiting != []
    requires l.waiting[0] in l.states
    requires !l.states[l.waiting[0]].active || !l.states[l.waiting[0]].fgraphWaiting
    ensures QueueOk(l.(waiting := l.waiting[1..])) && SlotOk(l.(waiting := l.waiting[1..]))
    ensures forall t :: t in l.held ==> t != l.waiting[0]
  {
    assert l.waiting == [l.waiting[0]] + l.waiting[1..];
  }

  lemma SlotTaken(l: Loop)
    requires QueueOk(l) && SlotOk(l) && l.active.Some?
    ensures Inv(l) && PassedOn(l, l, 0)
  {}

  lemma PassedOnOneMore(l: Loop, next: Loop, r: Loop, n: int)
    requires l.waiting != [] && l.active == None && PassedOn(next, r, n)
    requires next.active.Some? ==> n == 0 && r == next && next.active.value.tid == l.waiting[0]
    requires next == l.(waiting := l.waiting[1..], states := next.states, held := next.held, fs := next.fs, since := next.since, turns := next.turns, active := next.active)
    requires next.states.Keys == l.states.Keys && forall t :: t in l.states && t != l.waiting[0] ==> next.states[t] == l.states[t]
    requires forall t :: t in next.held <==> t in l.held && t != l.waiting[0]
    ensures PassedOn(l, r, n + 1)
  {
    assert l.waiting[..n + 1] == [l.waiting[0]] + next.waiting[..n];
    assert l.waiting[n + 1..] == next.waiting[n..];
  }

  /** Passing the slot on: what is left of the queue is a suffix, everything before it was resumed, a new
      capture belongs to the last thread popped, and nobody waits beside an empty slot. */
  lemma {:induction false} ResumePassesOn(cfg: LoopConfig, l: Loop)
    requires QueueOk(l) && SlotOk(l) && l.active == None
    ensures var r := ResumeWaiting(cfg, l);
      Inv(r) && PassedOn(l, r, |l.waiting| - |r.waiting|) && (l.waiting != [] ==> |r.waiting| < |l.waiting|)
    decreases |l.waiting|
  {
    hide ServeOne, PassedOn, QueueOk, SlotOk;
    PassedOnNothing(l);
    if l.waiting == [] {
    } else {
      var tid, rest := l.waiting[0], l.(waiting := l.waiting[1..]);
      QueueHead(l);
      var next := if !l.states[tid].active || !l.states[tid].fgraphWaiting then rest else ServeOne(cfg, rest, tid);
      if l.states[tid].active && l.states[tid].fgraphWaiting {
        ServeKeeps(cfg, l, tid);
      } else {
        PopStale(l);
      }
      if next.active == None {
        ResumePassesOn(cfg, next);
      } else {
        SlotTaken(next);
      }
      var r := ResumeWaiting(cfg, next);
      PassedOnOneMore(l, next, r, |next.waiting| - |r.waiting|);
    }
  }

  lemma FinishFrees(cfg: LoopConfig, l: Loop)
    ensures var r := FinishCapture(cfg, l);
      r == l.(active := None, fs := r.fs, outputs := r.outputs) && r.fs.Some? == l.fs.Some?
  {
    hide End, Reset;
  }

  /** The thread has just stopped. */
  function Hold(l: Loop, tid: Tid): Loop { l.(held := l.held + {tid}) }

  /** The three outcomes of an entry stop, on the queue and slot alone: the thread is resumed, or queued and not. */
  lemma EnterRunsOn(l: Loop, tid: Tid, st: SyscallState)
    requires Inv(l) && !AtExit(l, tid) && !st.fgraphWaiting && !st.fgraphCapturing
    ensures Inv(Release(l.(states := l.states[tid := st]), tid))
  {}

  lemma EnterQueues(l: Loop, tid: Tid, st: SyscallState)
    requires Inv(l) && !AtExit(l, tid) && st.fgraphWaiting && !st.fgraphCapturing && st.active && l.active.Some?
    ensures Inv(l.(states := l.states[tid := st], held := l.held + {tid},
                   waiting := if tid in l.waiting then l.waiting else l.waiting + [tid]))
  {}

  lemma EnterTakes(l: Loop, tid: Tid, st: SyscallState, r: Loop, c: Capture)
    requires Inv(l) && !AtExit(l, tid) && !st.fgraphWaiting && st.fgraphCapturing && st.active && l.active == None
    requires r == Hold(l, tid).(fs := r.fs, since := r.since, turns := r.turns, active := Some(c)) && r.fs.Some? && c.tid == tid && c.call == st.call && c.entryTs == st.entryTs
    ensures Inv(Release(r.(states := r.states[tid := st]), tid))
  {}

  lemma CaptureNeedsTracefs(l: Loop, tid: Tid, st: SyscallState)
    ensures ShouldCapture(l, tid, st) ==> l.fs.Some?
  {}

  /** What an entry stop notes of the call. */
  lemma EnterNotes(cfg: LoopConfig, l: Loop, tid: Tid, r: Regs)
    ensures var st := SyscallState(true, r.internal, r.call, r.ts, false, false); var wants := ShouldCapture(l, tid, st);
      var e := EnterSyscall(cfg, l, tid, r); var tries := wants && l.active == None;
      && e.states == l.states[tid := st.(fgraphWaiting := wants && !tries, fgraphCapturing := tries && BeginCapture(cfg, l, tid, st).1)]
      && e.windows == l.windows && e.fs.Some? == l.fs.Some? && e.outputs == l.outputs && (l.active == None ==> e.waiting == l.waiting)
      && e.depths == l.depths && e.fds == l.fds && e.lines == l.lines
      && e.turns == if tries then l.turns[tid := l.fs.value] else l.turns
  {
    hide Begin, BeginCapture, ShouldCapture;
    var st := SyscallState(true, r.internal, r.call, r.ts, false, false);
    CaptureNeedsTracefs(l, tid, st);
    BeginTakesSlot(cfg, l, tid, st);
  }

  lemma EnterKeeps(cfg: LoopConfig, l: Loop, tid: Tid, r: Regs)
    requires Inv(l) && !AtExit(l, tid)
    ensures Inv(EnterSyscall(cfg, Hold(l, tid), tid, r))
  {
    hide BeginCapture, Inv;
    var h, st := Hold(l, tid), SyscallState(true, r.internal, r.call, r.ts, false, false);
    assert h.held - {tid} == l.held - {tid};
    if !ShouldCapture(h, tid, st) {
      EnterRunsOn(l, tid, st);
    } else if h.active.Some? {
      EnterQueues(l, tid, st.(fgraphWaiting := true));
    } else {
      var (b, ok) := BeginCapture(cfg, h, tid, st);
      BeginTakesSlot(cfg, h, tid, st);
      if ok {
        EnterTakes(l, tid, st.(fgraphCapturing := true), b, b.active.value);
      } else {
        EnterRunsOn(l, tid, st);
        InvIgnoresTracefs(Release(l.(states := l.states[tid := st]), tid), b.fs, b.since, b.turns);
      }
    }
  }

  lemma InvIgnoresTracefs(l: Loop, fs: Option<TraceFs>, since: seq<KernelEvent>, turns: map<Tid, TraceFs>)
    requires Inv(l) && fs.Some? == l.fs.Some?
    ensures Inv(l.(fs := fs, since := since, turns := turns))
  {}

  lemma CompleteKeeps(cfg: LoopConfig, l: Loop, tid: Tid, raw: int)
    requires Inv(l) && AtExit(l, tid)
    ensures var st := l.states[tid]; var l1 := CompleteSyscall(cfg, l, tid, st, raw);
      && QueueOk(l1) && l1.waiting == l.waiting && l1.held == l.held - {tid}
      && (st.fgraphCapturing ==> Names(l.active, tid) && SlotOk(l1.(active := None)))
      && (!st.fgraphCapturing ==> Inv(l1))
  {}

  /** The state in which a finished capture is about to pass its slot on. */
  lemma FinishBeforePassing(cfg: LoopConfig, l: Loop, tid: Tid, raw: int)
    requires Inv(l) && AtExit(l, tid) && l.states[tid].fgraphCapturing
    ensures var f := FinishCapture(cfg, CompleteSyscall(cfg, l, tid, l.states[tid], raw));
      QueueOk(f) && SlotOk(f) && f.active == None && f.waiting == l.waiting && Names(l.active, tid)
  {
    hide FinishCapture, CompleteSyscall;
    var l1 := CompleteSyscall(cfg, l, tid, l.states[tid], raw);
    CompleteKeeps(cfg, l, tid, raw);
    FinishFrees(cfg, l1);
  }

  lemma LeaveKeeps(cfg: LoopConfig, l: Loop, tid: Tid, raw: int)
    requires Inv(l) && AtExit(l, tid)
    ensures Inv(LeaveSyscall(cfg, l, tid, raw))
  {
    hide FinishCapture, ResumeWaiting, CompleteSyscall;
    CompleteKeeps(cfg, l, tid, raw);
    if l.states[tid].fgraphCapturing {
      FinishBeforePassing(cfg, l, tid, raw);
      ResumePassesOn(cfg, FinishCapture(cfg, CompleteSyscall(cfg, l, tid, l.states[tid], raw)));
    }
  }

  /** Forgetting a dead thread after its capture, if it had one, was finished. */
  lemma ForgetKeeps(cfg: LoopConfig, l: Loop, tid: Tid)
    requires Inv(l)
    ensures var r := Forget(if Names(l.active, tid) then FinishCapture(cfg, l) else l, tid);
      && QueueOk(r) && SlotOk(r) && (r.active.Some? ==> Inv(r))
      && r.waiting == Without(l.waiting, tid) && (r.active == None <==> l.active == None || Names(l.active, tid))
  {
    hide FinishCapture;
    FinishFrees(cfg, l);
    var r := Forget(if Names(l.active, tid) then FinishCapture(cfg, l) else l, tid);
    assert forall t :: t in r.states <==> t in l.states && t != tid;
    assert forall t :: t in r.states ==> r.states[t] == l.states[t];
  }

  lemma GoneKeeps(cfg: LoopConfig, l: Loop, tid: Tid)
    requires Inv(l)
    ensures Inv(ThreadGone(cfg, l, tid))
  {
    hide FinishCapture, Forget, QueueOk, SlotOk;
    ForgetKeeps(cfg, l, tid);
    var r := Forget(if Names(l.active, tid) then FinishCapture(cfg, l) else l, tid);
    if r.active == None {
      ResumePassesOn(cfg, r);
    }
  }

  predicate IsEntry(l: Loop, ev: Event) { ev.SyscallStop? && ev.regs.Some? && !AtExit(l, ev.tid) }

  /** Every stop but an entry stop ends with the stopped threads resumed, so it is as if they had not stopped. */
  lemma HaltedHandle(cfg: LoopConfig, l: Loop, ev: Event)
    ensures !IsEntry(l, ev) ==> Handle(cfg, Halt(l, ev), ev) == Handle(cfg, l, ev)
    ensures IsEntry(l, ev) ==> Handle(cfg, Halt(l, ev), ev) == EnterSyscall(cfg, Hold(l, ev.tid), ev.tid, ev.regs.value)
  {
    hide EnterSyscall, FinishCapture, ResumeWaiting, Update, Suppressed;
    var h := Halt(l, ev);
    match ev
    case Gone(_) => assert h.held == l.held;
    case SyscallStop(tid, _) => assert h.held - {tid} == l.held - {tid};
    case OtherStop(tid) => assert h.held - {tid} == l.held - {tid};
    case Spawned(tid, None) => assert h.held - {tid} == l.held - {tid};
    case Spawned(tid, Some(child)) => assert h.held - {child} - {tid} == l.held - {child} - {tid};
  }

  lemma HandleKeeps(cfg: LoopConfig, l: Loop, ev: Event)
    requires Inv(l)
    ensures Inv(Handle(cfg, Halt(l, ev), ev))
  {
    hide ThreadGone, LeaveSyscall, EnterSyscall, Halt, QueueOk, SlotOk, Inv;
    HaltedHandle(cfg, l, ev);
    match ev
    case Gone(tid) => GoneKeeps(cfg, l, tid);
    case SyscallStop(tid, Some(r)) =>
      if AtExit(l, tid) {
        LeaveKeeps(cfg, l, tid, r.raw);
      } else {
        EnterKeeps(cfg, l, tid, r);
      }
    case _ => ReleaseKeeps(l, Handle(cfg, l, ev));
  }

  lemma ReleaseKeeps(l: Loop, r: Loop)
    requires Inv(l) && r == l.(held := r.held) && forall t :: t in r.held ==> t in l.held
    ensures Inv(r)
  {}

  lemma StepKeeps(cfg: LoopConfig, l: Loop, a: Action)
    requires Inv(l)
    ensures Inv(Step(cfg, l, a))
  {
    hide Handle, Halt, Record;
    if a.Tracer? {
      HandleKeeps(cfg, Drained(l, a.depthUpdates, a.windowUpdates), a.event);
    }
  }

  /** Main result, no lost wakeup: after every prefix of every run, a thread that stopped and was not resumed is in
      the queue, a non-empty queue has a capture running ahead of it, that capture's thread is not itself
      queued, and nobody is queued twice. No assumption is made about the order of events, about which
      control writes fail, or about messages. */
  lemma {:induction false} NoLostWakeup(cfg: LoopConfig, l: Loop, actions: seq<Action>)
    requires Initial(l)
    ensures var r := Run(cfg, l, actions);
      && Inv(r)
      && (forall t :: t in r.held ==> t in r.waiting)
      && (r.waiting != [] ==> r.active.Some? && r.active.value.tid !in r.waiting)
      && NoDuplicates(r.waiting)
    decreases |actions|
  {
    hide Step;
    if actions != [] {
      NoLostWakeup(cfg, l, actions[..|actions| - 1]);
      StepKeeps(cfg, Run(cfg, l, actions[..|actions| - 1]), actions[|actions| - 1]);
    }
  }
}
