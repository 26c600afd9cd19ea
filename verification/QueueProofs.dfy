/** Who waits for the capture slot and for how long: flags against queue, order, bounded waiting. */
module QueueProofs {
  import opened Common
  import opened Tracefs
  import opened FdTables
  import opened EventLoop
  import opened SlotProofs
  import Windows

  ghost predicate FlagsMatchQueue(l: Loop) {
    forall t :: t in l.waiting <==> t in l.states && l.states[t].fgraphWaiting
  }

  /** A readable system-call stop of a thread the tracer believes it left stopped. */
  predicate QueuedThreadRan(l: Loop, a: Action) {
    a.Tracer? && a.event.SyscallStop? && a.event.regs.Some? && a.event.tid in l.waiting
  }

  /** The queue as the death of a thread leaves it, before the slot is passed on. */
  function Survivors(l: Loop, a: Action): seq<Tid> {
    if a.Tracer? && a.event.Gone? then Without(l.waiting, a.event.tid) else l.waiting
  }

  /** The action ends the active capture: its thread stops at its exit with readable registers, or dies. */
  predicate Finishing(l: Loop, a: Action) {
    a.Tracer? && (a.event.Gone? || (a.event.SyscallStop? && a.event.regs.Some?)) && Names(l.active, a.event.tid)
  }

  /** `r` follows `l`: from what is left of the queue, `q`, the first `n` threads leave, only when a capture
      finishes and then at least one if any is left, the last of them taking the slot if anyone does; a
      newcomer goes to the back. */
  ghost predicate Shape(l: Loop, r: Loop, q: seq<Tid>, finishing: bool, n: nat, joined: seq<Tid>) {
    && n <= |q| && r.waiting == q[n..] + joined
    && (if finishing then q != [] ==> n > 0 else n == 0 && (l.active.Some? ==> r.active == l.active))
    && (finishing && r.active.Some? ==> n > 0 && r.active.value.tid == q[n - 1])
    && (joined != [] ==> n == 0)
  }

  lemma GoneShape(cfg: LoopConfig, l: Loop, tid: Tid) returns (n: nat)
    requires Inv(l)
    ensures Shape(l, ThreadGone(cfg, l, tid), Without(l.waiting, tid), Names(l.active, tid), n, [])
  {
    hide ResumeWaiting, FinishCapture, Forget, QueueOk, SlotOk;
    ForgetKeeps(cfg, l, tid);
    var f := Forget(if Names(l.active, tid) then FinishCapture(cfg, l) else l, tid);
    n := 0;
    if Names(l.active, tid) {
      ResumePassesOn(cfg, f);
      n := |f.waiting| - |ResumeWaiting(cfg, f).waiting|;
    } else {
      ForgetKeepsActive(l, tid);
      if f.active == None {
        NobodyWaitsBesideEmptySlot(l, tid);
      }
      NothingToPassOn(cfg, f);
    }
  }

  lemma LeaveShape(cfg: LoopConfig, l: Loop, tid: Tid, raw: int) returns (n: nat)
    requires Inv(l) && AtExit(l, tid)
    ensures Shape(l, LeaveSyscall(cfg, l, tid, raw), l.waiting, Names(l.active, tid), n, [])
  {
    hide ResumeWaiting, FinishCapture, CompleteSyscall, QueueOk, SlotOk, Inv;
    CapturingIsAtExit(l, tid);
    var l1 := CompleteSyscall(cfg, l, tid, l.states[tid], raw);
    n := 0;
    if l.states[tid].fgraphCapturing {
      FinishBeforePassing(cfg, l, tid, raw);
      ResumePassesOn(cfg, FinishCapture(cfg, l1));
      n := |l.waiting| - |ResumeWaiting(cfg, FinishCapture(cfg, l1)).waiting|;
    } else {
      CompleteLeavesSlot(cfg, l, tid, raw);
    }
  }

  lemma CompleteLeavesSlot(cfg: LoopConfig, l: Loop, tid: Tid, raw: int)
    requires tid in l.states
    ensures var r := CompleteSyscall(cfg, l, tid, l.states[tid], raw); r.waiting == l.waiting && r.active == l.active
  {
    hide Update, Suppressed;
  }

  /** What an event that is no entry stop does; a stop with nothing to do only resumes. */
  lemma HandleCases(cfg: LoopConfig, l: Loop, ev: Event)
    ensures var r := Handle(cfg, l, ev);
      match ev
      case Gone(tid) => r == ThreadGone(cfg, l, tid)
      case SyscallStop(tid, Some(regs)) => AtExit(l, tid) ==> r == LeaveSyscall(cfg, l, tid, regs.raw)
      case SyscallStop(tid, None) => r == Release(l, tid)
      case OtherStop(tid) => r == Release(l, tid)
      case Spawned(tid, None) => r == Release(l, tid)
      case Spawned(tid, Some(child)) => r == Release(Release(l, child), tid)
  {
    hide ThreadGone, LeaveSyscall, EnterSyscall;
  }

  /** How any one action changes queue and slot. */
  lemma QueueShape(cfg: LoopConfig, l: Loop, a: Action) returns (n: nat, joined: seq<Tid>)
    requires Inv(l)
    ensures Shape(l, Step(cfg, l, a), Survivors(l, a), Finishing(l, a), n, joined)
    ensures joined != [] ==> a.Tracer? && joined == [a.event.tid] && a.event.tid !in Survivors(l, a) && !a.event.Gone?
  {
    hide Handle, Halt, ThreadGone, LeaveSyscall, EnterSyscall, Record, Inv;
    n, joined := 0, [];
    if a.Tracer? {
      var d, tid := Drained(l, a.depthUpdates, a.windowUpdates), a.event.tid;
      DrainKeepsInv(l, a.depthUpdates, a.windowUpdates);
      HaltedHandle(cfg, d, a.event);
      HandleCases(cfg, d, a.event);
      match a.event
      case Gone(_) => n := GoneShape(cfg, d, tid);
      case SyscallStop(_, Some(regs)) =>
        CapturingIsAtExit(d, tid);
        if AtExit(d, tid) {
          n := LeaveShape(cfg, d, tid, regs.raw);
        } else {
          EnterShape(cfg, Hold(d, tid), tid, regs);
          joined := Step(cfg, l, a).waiting[|l.waiting|..];
        }
      case _ =>
    }
  }

  lemma DrainKeepsInv(l: Loop, ds: seq<DepthUpdate>, ws: seq<Windows.Update>)
    requires Inv(l)
    ensures Inv(Drained(l, ds, ws))
  {}

  lemma ForgetKeepsActive(l: Loop, tid: Tid)
    ensures Forget(l, tid).active == l.active
  {}

  lemma NobodyWaitsBesideEmptySlot(l: Loop, tid: Tid)
    requires Inv(l) && l.active == None
    ensures l.waiting == [] && Forget(l, tid).waiting == []
  {}

  lemma NothingToPassOn(cfg: LoopConfig, l: Loop)
    requires l.active.Some? || l.waiting == []
    ensures ResumeWaiting(cfg, l) == l
  {
    hide ServeOne;
  }

  lemma CapturingIsAtExit(l: Loop, tid: Tid)
    requires Inv(l)
    ensures Names(l.active, tid) ==> AtExit(l, tid)
    ensures AtExit(l, tid) ==> (l.states[tid].fgraphCapturing <==> Names(l.active, tid))
  {}

  lemma EnterShape(cfg: LoopConfig, l: Loop, tid: Tid, r: Regs)
    requires !AtExit(l, tid)
    ensures var e := EnterSyscall(cfg, l, tid, r);
      && (e.waiting == l.waiting || (tid !in l.waiting && e.waiting == l.waiting + [tid]))
      && (l.active.Some? ==> e.active == l.active)
  {
    hide BeginCapture;
    BeginTakesSlot(cfg, l, tid, SyscallState(true, r.internal, r.call, r.ts, false, false));
  }

  /** The flags agree with the queue after a turn if and only if the turn is not a readable system-call
      stop of a thread that is queued: waking a thread behind the tracer's back is the one way out. */
  lemma AgreementStep(cfg: LoopConfig, l: Loop, a: Action)
    requires Inv(l) && FlagsMatchQueue(l)
    ensures FlagsMatchQueue(Step(cfg, l, a)) <==> !QueuedThreadRan(l, a)
  {
    StepKeeps(cfg, l, a);
    var n, joined := QueueShape(cfg, l, a);
    if QueuedThreadRan(l, a) {
      RunningWhileQueued(cfg, l, a);
    } else {
      FlagsAfter(cfg, l, a);
    }
  }

  lemma RunningWhileQueued(cfg: LoopConfig, l: Loop, a: Action)
    requires Inv(l) && FlagsMatchQueue(l) && QueuedThreadRan(l, a)
    ensures var r := Step(cfg, l, a); a.event.tid in r.waiting && a.event.tid in r.states && !r.states[a.event.tid].fgraphWaiting && !r.states[a.event.tid].active
  {
    hide Halt, ResumeWaiting, FinishCapture, BeginCapture, Update, Suppressed;
    var d, tid := Drained(l, a.depthUpdates, a.windowUpdates), a.event.tid;
    assert d.states == l.states && AtExit(d, tid);
    HaltedHandle(cfg, d, a.event);
    assert !d.states[tid].fgraphCapturing;
  }

  lemma GoneFlags(cfg: LoopConfig, l: Loop, tid: Tid)
    requires Inv(l) && FlagsMatchQueue(l)
    ensures FlagsMatchQueue(ThreadGone(cfg, l, tid))
  {
    hide ResumeWaiting, FinishCapture, Forget, SlotOk, FlagsMatchQueue;
    ForgetKeeps(cfg, l, tid);
    ForgetFlags(cfg, l, tid);
    PassedFlags(cfg, Forget(if Names(l.active, tid) then FinishCapture(cfg, l) else l, tid));
  }

  lemma PassedFlags(cfg: LoopConfig, l: Loop)
    requires QueueOk(l) && SlotOk(l) && FlagsMatchQueue(l)
    ensures FlagsMatchQueue(ResumeWaiting(cfg, l))
  {
    hide ResumeWaiting, SlotOk, FlagsMatchQueue;
    if l.active == None {
      ResumePassesOn(cfg, l);
      FlagsOfRest(l, ResumeWaiting(cfg, l), |l.waiting| - |ResumeWaiting(cfg, l).waiting|);
    } else {
      NothingToPassOn(cfg, l);
    }
  }

  lemma LeaveFlags(cfg: LoopConfig, l: Loop, tid: Tid, raw: int)
    requires Inv(l) && FlagsMatchQueue(l) && tid !in l.waiting && AtExit(l, tid)
    ensures FlagsMatchQueue(LeaveSyscall(cfg, l, tid, raw))
  {
    hide ResumeWaiting, FinishCapture, CompleteSyscall, Inv, QueueOk, SlotOk;
    var l1 := CompleteSyscall(cfg, l, tid, l.states[tid], raw);
    CompleteFlags(cfg, l, tid, raw);
    if l.states[tid].fgraphCapturing {
      FinishBeforePassing(cfg, l, tid, raw);
      FinishFrees(cfg, l1);
      PassedFlags(cfg, FinishCapture(cfg, l1));
    }
  }

  lemma CompleteFlags(cfg: LoopConfig, l: Loop, tid: Tid, raw: int)
    requires FlagsMatchQueue(l) && tid !in l.waiting && AtExit(l, tid)
    ensures FlagsMatchQueue(CompleteSyscall(cfg, l, tid, l.states[tid], raw))
  {
    hide Update, Suppressed;
  }

  lemma FlagsAfter(cfg: LoopConfig, l: Loop, a: Action)
    requires Inv(l) && FlagsMatchQueue(l) && !QueuedThreadRan(l, a)
    ensures FlagsMatchQueue(Step(cfg, l, a))
  {
    hide Handle, Halt, ThreadGone, LeaveSyscall, EnterSyscall, Record, Inv;
    if a.Tracer? {
      var d, tid := Drained(l, a.depthUpdates, a.windowUpdates), a.event.tid;
      DrainKeepsInv(l, a.depthUpdates, a.windowUpdates);
      HaltedHandle(cfg, d, a.event);
      HandleCases(cfg, d, a.event);
      match a.event
      case Gone(_) => GoneFlags(cfg, d, tid);
      case SyscallStop(_, Some(regs)) =>
        if AtExit(d, tid) {
          LeaveFlags(cfg, d, tid, regs.raw);
        } else {
          EnterFlags(cfg, Hold(d, tid), tid, regs);
        }
      case _ =>
    }
  }

  lemma ForgetFlags(cfg: LoopConfig, l: Loop, tid: Tid)
    requires FlagsMatchQueue(l)
    ensures FlagsMatchQueue(Forget(if Names(l.active, tid) then FinishCapture(cfg, l) else l, tid))
  {
    hide FinishCapture;
    FinishFrees(cfg, l);
  }

  lemma FlagsOfRest(l: Loop, r: Loop, n: int)
    requires FlagsMatchQueue(l) && NoDuplicates(l.waiting) && PassedOn(l, r, n) && Inv(r)
    ensures FlagsMatchQueue(r)
  {
    forall t | t in r.waiting
      ensures t in r.states && r.states[t].fgraphWaiting
    {
      var i :| 0 <= i < |r.waiting| && r.waiting[i] == t;
      assert t == l.waiting[n + i] && t in l.waiting;
    }
  }

  lemma EnterFlags(cfg: LoopConfig, l: Loop, tid: Tid, r: Regs)
    requires FlagsMatchQueue(l) && tid !in l.waiting && !AtExit(l, tid)
    ensures FlagsMatchQueue(EnterSyscall(cfg, l, tid, r))
  {
    hide BeginCapture;
    BeginTakesSlot(cfg, l, tid, SyscallState(true, r.internal, r.call, r.ts, false, false));
  }

  /** As long as no queued thread makes its call behind the tracer's back, being queued and having the waiting flag
      are the same thing in every reachable state. */
  lemma {:induction false} RunAgreement(cfg: LoopConfig, l: Loop, actions: seq<Action>)
    requires Initial(l)
    requires forall k {:trigger actions[k]} :: 0 <= k < |actions| ==> !QueuedThreadRan(Run(cfg, l, actions[..k]), actions[k])
    ensures FlagsMatchQueue(Run(cfg, l, actions))
    decreases |actions|
  {
    hide Step, Inv;
    if actions != [] {
      var prefix := actions[..|actions| - 1];
      forall k {:trigger prefix[k]} | 0 <= k < |prefix|
        ensures !QueuedThreadRan(Run(cfg, l, prefix[..k]), prefix[k])
      {
        assert prefix[..k] == actions[..k] && prefix[k] == actions[k];
      }
      RunAgreement(cfg, l, prefix);
      NoLostWakeup(cfg, l, prefix);
      AgreementStep(cfg, Run(cfg, l, prefix), actions[|actions| - 1]);
    }
  }

  /** The threads left stopped are the queued ones. */
  ghost predicate HeldMatchesQueue(l: Loop) { forall t :: t in l.held <==> t in l.waiting }

  /** A thread that is queued is reported to have stopped or to be new, so that the tracer resumes it for that. */
  ghost predicate WokenOutside(l: Loop, a: Action) { a.Tracer? && exists t :: t in StoppedBy(a.event) && t in l.waiting }

  lemma PassedHeld(l: Loop, r: Loop, n: int)
    requires HeldMatchesQueue(l) && NoDuplicates(l.waiting) && PassedOn(l, r, n)
    ensures HeldMatchesQueue(r)
  {
    assert l.waiting == l.waiting[..n] + l.waiting[n..];
    forall t | t in l.waiting[..n]
      ensures t !in l.waiting[n..]
    {
      PoppedIsGone(l.waiting, n, t);
    }
  }

  lemma PoppedIsGone(q: seq<Tid>, n: nat, t: Tid)
    requires n <= |q| && NoDuplicates(q) && t in q[..n]
    ensures t !in q[n..]
  {
    var i :| 0 <= i < n && q[i] == t;
    assert forall j :: n <= j < |q| ==> q[j] != q[i];
  }

  lemma ResumeHeld(cfg: LoopConfig, l: Loop)
    requires QueueOk(l) && SlotOk(l) && HeldMatchesQueue(l)
    ensures HeldMatchesQueue(ResumeWaiting(cfg, l))
  {
    hide ResumeWaiting, SlotOk, HeldMatchesQueue, PassedOn;
    if l.active == None {
      ResumePassesOn(cfg, l);
      PassedHeld(l, ResumeWaiting(cfg, l), |l.waiting| - |ResumeWaiting(cfg, l).waiting|);
    } else {
      NothingToPassOn(cfg, l);
    }
  }

  lemma GoneHeld(cfg: LoopConfig, l: Loop, tid: Tid)
    requires Inv(l) && HeldMatchesQueue(l)
    ensures HeldMatchesQueue(ThreadGone(cfg, l, tid))
  {
    hide ResumeWaiting, FinishCapture, Forget, SlotOk, HeldMatchesQueue;
    ForgetKeeps(cfg, l, tid);
    ForgetHeld(cfg, l, tid);
    ResumeHeld(cfg, Forget(if Names(l.active, tid) then FinishCapture(cfg, l) else l, tid));
  }

  lemma ForgetHeld(cfg: LoopConfig, l: Loop, tid: Tid)
    requires HeldMatchesQueue(l)
    ensures HeldMatchesQueue(Forget(if Names(l.active, tid) then FinishCapture(cfg, l) else l, tid))
  {
    hide FinishCapture;
    FinishFrees(cfg, l);
  }

  lemma LeaveHeld(cfg: LoopConfig, l: Loop, tid: Tid, raw: int)
    requires Inv(l) && HeldMatchesQueue(l) && AtExit(l, tid)
    ensures HeldMatchesQueue(LeaveSyscall(cfg, l, tid, raw)) <==> tid !in l.waiting
  {
    hide ResumeWaiting, FinishCapture, CompleteSyscall, Inv, QueueOk, SlotOk;
    var l1 := CompleteSyscall(cfg, l, tid, l.states[tid], raw);
    CompleteKeeps(cfg, l, tid, raw);
    CapturingIsNotQueued(l, tid);
    if l.states[tid].fgraphCapturing {
      FinishBeforePassing(cfg, l, tid, raw);
      FinishFrees(cfg, l1);
      ResumeHeld(cfg, FinishCapture(cfg, l1));
    }
  }

  lemma CapturingIsNotQueued(l: Loop, tid: Tid)
    requires Inv(l) && AtExit(l, tid)
    ensures l.states[tid].fgraphCapturing ==> tid !in l.waiting
  {}

  lemma QueuedIsAtExit(l: Loop, tid: Tid)
    requires Inv(l) && HeldMatchesQueue(l) && tid in l.waiting
    ensures AtExit(l, tid)
  {}

  lemma EnterHeld(cfg: LoopConfig, l: Loop, tid: Tid, r: Regs)
    requires HeldMatchesQueue(l) && tid !in l.waiting
    ensures HeldMatchesQueue(EnterSyscall(cfg, Hold(l, tid), tid, r))
  {
    hide BeginCapture;
    BeginTakesSlot(cfg, Hold(l, tid), tid, SyscallState(true, r.internal, r.call, r.ts, false, false));
  }

  lemma ReleasedHeld(cfg: LoopConfig, l: Loop, ev: Event)
    requires HeldMatchesQueue(l) && !ev.Gone? && !(ev.SyscallStop? && ev.regs.Some?)
    ensures HeldMatchesQueue(Handle(cfg, l, ev)) <==> forall t :: t in StoppedBy(ev) ==> t !in l.waiting
  {
    hide ThreadGone, LeaveSyscall, EnterSyscall;
    var r := Handle(cfg, l, ev);
    assert r.waiting == l.waiting && forall t :: t in r.held <==> t in l.held && t !in StoppedBy(ev);
  }

  /** One turn leaves exactly the queued threads stopped if and only if none of them is reported by the event: a
      thread that has to wait is not resumed, and every other thread that stopped is. */
  lemma HeldStep(cfg: LoopConfig, l: Loop, a: Action)
    requires Inv(l) && HeldMatchesQueue(l)
    ensures HeldMatchesQueue(Step(cfg, l, a)) <==> !WokenOutside(l, a)
  {
    hide Handle, Halt, ThreadGone, LeaveSyscall, EnterSyscall, Record, Inv;
    if a.Tracer? {
      var d, tid := Drained(l, a.depthUpdates, a.windowUpdates), a.event.tid;
      DrainKeepsInv(l, a.depthUpdates, a.windowUpdates);
      HaltedHandle(cfg, d, a.event);
      HandleCases(cfg, d, a.event);
      match a.event
      case Gone(_) => GoneHeld(cfg, d, tid);
      case SyscallStop(_, Some(regs)) =>
        assert tid in StoppedBy(a.event);
        if AtExit(d, tid) {
          LeaveHeld(cfg, d, tid, regs.raw);
        } else {
          if tid in d.waiting {
            QueuedIsAtExit(d, tid);
          }
          EnterHeld(cfg, d, tid, regs);
        }
      case _ => ReleasedHeld(cfg, d, a.event);
    }
  }

  /** Main result, left stopped: over every run in which only the queue wakes queued threads, the threads that stopped
      and were not resumed are exactly the queued ones. */
  lemma {:induction false} StoppedIsQueued(cfg: LoopConfig, l: Loop, actions: seq<Action>)
    requires Initial(l)
    requires forall k {:trigger actions[k]} :: 0 <= k < |actions| ==> !WokenOutside(Run(cfg, l, actions[..k]), actions[k])
    ensures HeldMatchesQueue(Run(cfg, l, actions))
    decreases |actions|
  {
    hide Step, Inv, WokenOutside;
    if actions != [] {
      var prefix := actions[..|actions| - 1];
      forall k {:trigger prefix[k]} | 0 <= k < |prefix|
        ensures !WokenOutside(Run(cfg, l, prefix[..k]), prefix[k])
      {
        assert prefix[..k] == actions[..k] && prefix[k] == actions[k];
      }
      StoppedIsQueued(cfg, l, prefix);
      NoLostWakeup(cfg, l, prefix);
      HeldStep(cfg, Run(cfg, l, prefix), actions[|actions| - 1]);
    }
  }

  /** When the creation of a thread is reported only after the thread was queued at its first call, the tracer
      itself sets it running: the thread makes that call uncaptured and stays behind in the queue. */
  lemma LateSpawnWakesQueued(cfg: LoopConfig, l: Loop, parent: Tid, child: Tid, r: Regs)
    requires Inv(l) && FlagsMatchQueue(l) && child in l.waiting
    ensures var woken := Step(cfg, l, Tracer([], [], Spawned(parent, Some(child))));
      var later := Step(cfg, woken, Tracer([], [], SyscallStop(child, Some(r))));
      child !in woken.held && child in later.waiting && !later.states[child].active && !FlagsMatchQueue(later)
  {
    hide CompleteSyscall, FinishCapture, ResumeWaiting;
    var woken := Step(cfg, l, Tracer([], [], Spawned(parent, Some(child))));
    StepKeeps(cfg, l, Tracer([], [], Spawned(parent, Some(child))));
    AgreementStep(cfg, woken, Tracer([], [], SyscallStop(child, Some(r))));
    RunningWhileQueued(cfg, woken, Tracer([], [], SyscallStop(child, Some(r))));
  }

  lemma FirstTakesSlot(cfg: LoopConfig, l: Loop, tid: Tid, r: Regs)
    requires l.active == None && l.fs.Some? && ArmsOk(l.fs.value, cfg.faults, cfg.graphFunction(r.call.nr))
    requires ShouldCapture(l, tid, SyscallState(true, r.internal, r.call, r.ts, false, false))
    ensures var e := EnterSyscall(cfg, l, tid, r); e.active.Some? && e.waiting == l.waiting && e.windows == l.windows && e.fs.Some? && e.states.Keys == l.states.Keys + {tid}
  {
    hide Begin, ArmsOk, ShouldCapture;
    BeginTakesSlot(cfg, l, tid, SyscallState(true, r.internal, r.call, r.ts, false, false));
    BeginSucceedsIff(l.fs.value, cfg.faults, tid, cfg.graphFunction(r.call.nr));
  }

  /** The first message of a window that thread `t` opens. */
  function Opening(t: Tid): Windows.Update { Windows.Update(t, 1, 1, true, Windows.Zeros(Windows.FUNC_NAME_MAX)) }

  /** A parent takes the slot with the call that creates its child, and the child reaches its first call before the
      creation is reported. */
  function ChildOvertakes(parent: Tid, pr: Regs, child: Tid, cr: Regs): seq<Action> {
    [Tracer([], [Opening(parent), Opening(child)], SyscallStop(parent, Some(pr))), Tracer([], [], SyscallStop(child, Some(cr)))]
  }

  lemma BothInWindows(table: Windows.Table, parent: Tid, child: Tid)
    ensures var r := Windows.ApplyAll(table, [Opening(parent), Opening(child)]);
      Windows.StateOf(r, parent).depth > 0 && Windows.StateOf(r, child).depth > 0
  {
    var us := [Opening(parent), Opening(child)];
    assert us[..1] == [Opening(parent)] && us[..1][..0] == [];
    assert Windows.ApplyAll(table, us[..1]) == Windows.ApplyUpdate(Windows.ApplyAll(table, []), Opening(parent));
  }

  lemma ParentFirst(cfg: LoopConfig, l: Loop, parent: Tid, pr: Regs, child: Tid)
    requires Initial(l) && l.fs.Some? && !pr.internal && ArmsOk(l.fs.value, cfg.faults, cfg.graphFunction(pr.call.nr))
    ensures var first := Step(cfg, l, Tracer([], [Opening(parent), Opening(child)], SyscallStop(parent, Some(pr))));
      && Inv(first) && FlagsMatchQueue(first) && first.active.Some? && first.fs.Some? && first.waiting == []
      && first.states.Keys == {parent} && Windows.StateOf(first.windows, child).depth > 0
  {
    hide EnterSyscall, ArmsOk, Windows.ApplyAll, Inv, FlagsMatchQueue, Opening;
    var a := Tracer([], [Opening(parent), Opening(child)], SyscallStop(parent, Some(pr)));
    InitialInv(cfg, l);
    BothInWindows(l.windows, parent, child);
    FirstTakesSlot(cfg, Hold(Drained(l, [], [Opening(parent), Opening(child)]), parent), parent, pr);
    StepKeeps(cfg, l, a);
    AgreementStep(cfg, l, a);
  }

  /** A run from the start of tracing in which a child is queued before its creation is reported, so that the report
      then wakes it. */
  lemma ChildIsQueuedFirst(cfg: LoopConfig, l: Loop, parent: Tid, pr: Regs, child: Tid, cr: Regs)
    requires Initial(l) && l.fs.Some? && parent != child && !pr.internal && !cr.internal
    requires ArmsOk(l.fs.value, cfg.faults, cfg.graphFunction(pr.call.nr))
    ensures var now := Run(cfg, l, ChildOvertakes(parent, pr, child, cr)); Inv(now) && FlagsMatchQueue(now) && now.waiting == [child]
  {
    hide Step, ArmsOk, Inv, FlagsMatchQueue;
    var actions := ChildOvertakes(parent, pr, child, cr);
    assert actions[..0] == [] && actions[..1] == [actions[0]] && actions[..1][..0] == [];
    var first := Step(cfg, l, actions[0]);
    assert Run(cfg, l, actions[..1]) == first;
    assert Run(cfg, l, actions) == Step(cfg, first, actions[1]);
    ParentFirst(cfg, l, parent, pr, child);
    NextQueues(cfg, first, child, cr);
    StepKeeps(cfg, first, actions[1]);
    AgreementStep(cfg, first, actions[1]);
  }

  lemma InitialInv(cfg: LoopConfig, l: Loop)
    requires Initial(l)
    ensures Inv(l) && FlagsMatchQueue(l)
  {}

  lemma NextQueues(cfg: LoopConfig, l: Loop, tid: Tid, r: Regs)
    requires l.active.Some? && l.fs.Some? && l.waiting == [] && !AtExit(l, tid) && !r.internal && Windows.StateOf(l.windows, tid).depth > 0
    ensures Step(cfg, l, Tracer([], [], SyscallStop(tid, Some(r)))).waiting == [tid]
  {
    hide BeginCapture;
    assert Windows.ApplyAll(l.windows, []) == l.windows;
  }

  lemma ForgetMentions(cfg: LoopConfig, l: Loop, tid: Tid)
    requires Inv(l)
    ensures Forgotten(Forget(if Names(l.active, tid) then FinishCapture(cfg, l) else l, tid), tid)
  {
    hide FinishCapture, Inv;
    FinishFrees(cfg, l);
  }

  /** Nothing in the tracer mentions the thread. */
  ghost predicate Forgotten(l: Loop, tid: Tid) {
    && tid !in l.states && tid !in l.depths && tid !in l.windows && tid !in l.waiting && tid !in l.held
    && !Names(l.active, tid)
  }

  /** Passing the slot on does not bring a thread back that is not queued. */
  lemma PassedOnForgets(l: Loop, r: Loop, n: int, tid: Tid)
    requires PassedOn(l, r, n) && Forgotten(l, tid)
    ensures Forgotten(r, tid)
  {
    if r.active != l.active {
      assert l.waiting[n - 1] in l.waiting;
    }
  }

  lemma ThreadGoneForgets(cfg: LoopConfig, l: Loop, tid: Tid)
    requires Inv(l)
    ensures Forgotten(ThreadGone(cfg, l, tid), tid)
  {
    hide ResumeWaiting, FinishCapture, Forget, Inv, QueueOk, SlotOk, PassedOn, Forgotten;
    ForgetKeeps(cfg, l, tid);
    ForgetMentions(cfg, l, tid);
    var f := Forget(if Names(l.active, tid) then FinishCapture(cfg, l) else l, tid);
    if f.active == None {
      ResumePassesOn(cfg, f);
      PassedOnForgets(f, ResumeWaiting(cfg, f), |f.waiting| - |ResumeWaiting(cfg, f).waiting|, tid);
    } else {
      NothingToPassOn(cfg, f);
    }
  }

  /** After a thread's exit event nothing in the tracer mentions it, and a capture it held is over. */
  lemma GoneForgets(cfg: LoopConfig, l: Loop, ds: seq<DepthUpdate>, ws: seq<Windows.Update>, tid: Tid)
    requires Inv(l)
    ensures Forgotten(Step(cfg, l, Tracer(ds, ws, Gone(tid))), tid)
  {
    hide ThreadGone, Inv, Forgotten;
    DrainKeepsInv(l, ds, ws);
    HaltedHandle(cfg, Drained(l, ds, ws), Gone(tid));
    ThreadGoneForgets(cfg, Drained(l, ds, ws), tid);
  }

  /** Succession: while anyone is queued the slot changes hands only by a capture finishing, and then it
      goes to a queued thread, past which everybody ahead of it has already left the queue. */
  lemma SlotGoesToTheQueue(cfg: LoopConfig, l: Loop, a: Action)
    requires Inv(l) && l.waiting != []
    ensures var r := Step(cfg, l, a); var q := Survivors(l, a);
      r.active == l.active
      || (Finishing(l, a) && (r.active == None ==> r.waiting == [])
          && (r.active.Some? ==> exists i :: 0 <= i < |q| && q[i] == r.active.value.tid && r.waiting == q[i + 1..]))
  {
    hide Step;
    var n, joined := QueueShape(cfg, l, a);
    StepKeeps(cfg, l, a);
    var r, q := Step(cfg, l, a), Survivors(l, a);
    if Finishing(l, a) {
      if r.active.Some? {
        assert joined == [] && q[n - 1] == r.active.value.tid && r.waiting == q[n - 1 + 1..];
      }
    }
  }

  /** The thread at the head, if it still wants the slot and tracing can begin for it, gets it and nobody
      else is popped. */
  lemma HeadTakesSlot(cfg: LoopConfig, l: Loop)
    requires QueueOk(l) && l.active == None && l.waiting != [] && l.waiting[0] in l.states
    requires l.states[l.waiting[0]].fgraphWaiting && ShouldCapture(l, l.waiting[0], l.states[l.waiting[0]])
    requires Begin(l.fs.value, cfg.faults, l.waiting[0], cfg.graphFunction(l.states[l.waiting[0]].call.nr)).1
    ensures var r := ResumeWaiting(cfg, l); Names(r.active, l.waiting[0]) && r.waiting == l.waiting[1..]
  {
    hide Begin;
    var rest := l.(waiting := l.waiting[1..]);
    NothingToPassOn(cfg, ServeOne(cfg, rest, l.waiting[0]));
  }

  /** No overtaking: of two queued threads the earlier one stays ahead, and the later one stays queued at
      least as long, unless it dies. */
  lemma NeverOvertaken(cfg: LoopConfig, l: Loop, a: Action, x: Tid, y: Tid)
    requires Inv(l) && x in l.waiting && y in l.waiting && IndexOf(l.waiting, x) < IndexOf(l.waiting, y)
    requires !(a.Tracer? && a.event == Gone(y))
    ensures var q := Step(cfg, l, a).waiting; x in q ==> y in q && IndexOf(q, x) < IndexOf(q, y)
  {
    hide Step;
    var n, joined := QueueShape(cfg, l, a);
    var q, q' := Survivors(l, a), Step(cfg, l, a).waiting;
    if x in q' {
      if a.Tracer? && a.event.Gone? {
        OrderWithout(l.waiting, a.event.tid, x, y);
      }
      StaysBehind(q, n, joined, x, y);
    }
  }

  lemma StaysBehind(q: seq<Tid>, n: nat, joined: seq<Tid>, x: Tid, y: Tid)
    requires n <= |q| && NoDuplicates(q) && x in q && y in q && IndexOf(q, x) < IndexOf(q, y)
    requires x in q[n..] + joined && x !in joined
    ensures y in q[n..] && IndexOf(q[n..] + joined, x) < IndexOf(q[n..] + joined, y)
  {
    IndexOfSuffix(q, n, x);
    assert q[n..][IndexOf(q, y) - n] == y;
    IndexOfSuffix(q, n, y);
    IndexOfAppend(q[n..], joined, x);
    IndexOfAppend(q[n..], joined, y);
  }

  /** Every finished capture moves a thread that stays queued at least one place forward; nothing moves it
      back. */
  lemma MovesForward(cfg: LoopConfig, l: Loop, a: Action, t: Tid)
    requires Inv(l) && t in l.waiting && t in Step(cfg, l, a).waiting
    ensures IndexOf(Step(cfg, l, a).waiting, t) + (if Finishing(l, a) then 1 else 0) <= IndexOf(l.waiting, t)
  {
    hide Step;
    var n, joined := QueueShape(cfg, l, a);
    var q := Survivors(l, a);
    if a.Tracer? && a.event.Gone? {
      IndexOfWithout(l.waiting, a.event.tid, t);
    }
    assert t in q[n..];
    IndexOfSuffix(q, n, t);
    IndexOfAppend(q[n..], joined, t);
  }

  /** How many captures finish in a run. */
  function Finishes(cfg: LoopConfig, l: Loop, actions: seq<Action>): nat
    decreases |actions|
  {
    if actions == [] then 0
    else
      var prefix := actions[..|actions| - 1];
      Finishes(cfg, l, prefix) + if Finishing(Run(cfg, l, prefix), actions[|actions| - 1]) then 1 else 0
  }

  lemma {:induction false} StaysQueued(cfg: LoopConfig, l: Loop, actions: seq<Action>, t: Tid)
    requires Inv(l)
    requires forall j {:trigger actions[..j]} :: 0 <= j <= |actions| ==> t in Run(cfg, l, actions[..j]).waiting
    ensures Inv(Run(cfg, l, actions)) && t in l.waiting && t in Run(cfg, l, actions).waiting
    ensures IndexOf(Run(cfg, l, actions).waiting, t) + Finishes(cfg, l, actions) <= IndexOf(l.waiting, t)
    decreases |actions|
  {
    hide Step, Inv;
    assert actions[..|actions|] == actions && actions[..0] == [];
    if actions != [] {
      var prefix := actions[..|actions| - 1];
      forall j {:trigger prefix[..j]} | 0 <= j <= |prefix|
        ensures t in Run(cfg, l, prefix[..j]).waiting
      {
        assert prefix[..j] == actions[..j];
      }
      StaysQueued(cfg, l, prefix, t);
      StepKeeps(cfg, Run(cfg, l, prefix), actions[|actions| - 1]);
      MovesForward(cfg, Run(cfg, l, prefix), actions[|actions| - 1], t);
    }
  }

  predicate OutAndRunning(l: Loop, t: Tid) { t !in l.waiting && t !in l.held }

  /** Main result, bounded waiting: a thread with k threads ahead of it is out of the queue and no longer
      stopped at some point of any run in which k+1 captures finish. */
  lemma BoundedWaiting(cfg: LoopConfig, l: Loop, actions: seq<Action>, t: Tid)
    requires Inv(l) && t in l.waiting && Finishes(cfg, l, actions) >= IndexOf(l.waiting, t) + 1
    ensures exists j {:trigger actions[..j]} :: 0 <= j <= |actions| && OutAndRunning(Run(cfg, l, actions[..j]), t)
  {
    hide Step;
    if forall j {:trigger actions[..j]} :: 0 <= j <= |actions| ==> t in Run(cfg, l, actions[..j]).waiting {
      StaysQueued(cfg, l, actions, t);
      assert false;
    }
    var j :| 0 <= j <= |actions| && t !in Run(cfg, l, actions[..j]).waiting;
    RunKeeps(cfg, l, actions[..j]);
    assert OutAndRunning(Run(cfg, l, actions[..j]), t);
  }

  lemma {:induction false} RunKeeps(cfg: LoopConfig, l: Loop, actions: seq<Action>)
    requires Inv(l)
    ensures Inv(Run(cfg, l, actions))
    decreases |actions|
  {
    hide Step, Inv;
    if actions != [] {
      RunKeeps(cfg, l, actions[..|actions| - 1]);
      StepKeeps(cfg, Run(cfg, l, actions[..|actions| - 1]), actions[|actions| - 1]);
    }
  }
}
