/** What the tracer knows of a thread's windows when messages get lost, in terms of which ones were. */
module WindowLoss {
  import opened Common
  import opened Windows

  /** The two processes with a record of losses: for each open window whether the message of its entry got
      through, for each thread the nesting when its latest message that got through was sent, and the threads
      whose latest message was lost. */
  datatype History = History(sys: System, heard: map<Tid, seq<bool>>, told: map<Tid, nat>, missed: set<Tid>)

  const Unheard := History(Start, map[], map[], {})

  function Heard(h: History, t: Tid): seq<bool> { if t in h.heard then h.heard[t] else [] }
  function Told(h: History, t: Tid): nat { if t in h.told then h.told[t] else 0 }

  function After(h: History, a: Action): History {
    if a.Drain? || (a.Exit? && Stack(h.sys, a.tid) == []) then h.(sys := Step(h.sys, a))
    else
      var s, t := Step(h.sys, a), a.tid;
      History(s, h.heard[t := if a.Enter? then Heard(h, t) + [a.delivered] else Heard(h, t)[..SaturatingSub(|Heard(h, t)|)]],
              if a.delivered then h.told[t := |Stack(s, t)|] else h.told,
              if a.delivered then h.missed - {t} else h.missed + {t})
  }

  function Replay(actions: seq<Action>): History
    decreases |actions|
  {
    if actions == [] then Unheard else After(Replay(actions[..|actions| - 1]), actions[|actions| - 1])
  }

  lemma {:induction false} ReplayRuns(actions: seq<Action>)
    ensures Replay(actions).sys == Run(Start, actions)
    decreases |actions|
  {
    hide Step;
    if actions != [] {
      ReplayRuns(actions[..|actions| - 1]);
    }
  }

  /** How many entries, from the outermost, were heard without a gap. */
  function Gapless(heard: seq<bool>): (g: nat)
    ensures g <= |heard| && (g < |heard| ==> !heard[g])
  {
    if heard == [] || !heard[0] then 0 else 1 + Gapless(heard[1..])
  }

  lemma {:induction false} GaplessAppend(heard: seq<bool>, b: bool)
    ensures Gapless(heard + [b]) == if b && Gapless(heard) == |heard| then |heard| + 1 else Gapless(heard)
  {
    if heard != [] && heard[0] {
      assert (heard + [b])[1..] == heard[1..] + [b];
      GaplessAppend(heard[1..], b);
    } else if heard == [] {
      assert heard + [b] == [b] && [b][1..] == [];
    }
  }

  lemma {:induction false} GaplessTake(heard: seq<bool>, d: nat)
    requires d <= |heard|
    ensures Gapless(heard[..d]) == Min(Gapless(heard), d)
  {
    if d > 0 && heard[0] {
      assert heard[..d][1..] == heard[1..][..d - 1];
      GaplessTake(heard[1..], d - 1);
    }
  }

  /** The entry of every window the thread has open got through. */
  predicate AllHeard(h: History, t: Tid) { Gapless(Heard(h, t)) == |Heard(h, t)| }

  /** The depth is the one last told, and as far as entries were heard without a gap the labels are right. */
  ghost predicate Knows(w: WindowState, stack: seq<Label>, heard: seq<bool>, told: nat) {
    var g := Gapless(heard);
    |heard| == |stack| && w.depth == told && g <= |w.labels| <= told && w.labels[..g] == Wire(stack)[..g]
  }

  ghost predicate KnowsThread(h: History, t: Tid) {
    && Cell(h.sys, t) == |Stack(h.sys, t)|
    && Knows(StateOf(Received(h.sys), t), Stack(h.sys, t), Heard(h, t), Told(h, t))
    && (t !in h.missed ==> Told(h, t) == |Stack(h.sys, t)|)
  }

  ghost predicate Follows(h: History) { forall t :: KnowsThread(h, t) }

  lemma WireAppend(stack: seq<Label>, l: Label)
    ensures Wire(stack + [l]) == Wire(stack) + [Label(OnWire(l.func), l.seqNo)]
  {
    hide OnWire;
  }

  lemma KnowsEntered(w: WindowState, stack: seq<Label>, heard: seq<bool>, told: nat, l: Label)
    requires Knows(w, stack, heard, told)
    ensures Knows(w, stack + [l], heard + [false], told)
    ensures Knows(WindowState(|stack| + 1, Truncate(w.labels, |stack|) + [Label(OnWire(l.func), l.seqNo)]), stack + [l], heard + [true], |stack| + 1)
  {
    hide OnWire, Gapless;
    WireAppend(stack, l);
    GaplessAppend(heard, false);
    GaplessAppend(heard, true);
  }

  lemma KnowsLeft(w: WindowState, stack: seq<Label>, heard: seq<bool>, told: nat)
    requires Knows(w, stack, heard, told) && stack != []
    ensures var d := |stack| - 1;
      && Knows(w, stack[..d], heard[..d], told)
      && Knows(WindowState(d, Truncate(w.labels, d)), stack[..d], heard[..d], d)
  {
    hide OnWire, Gapless;
    var d := |stack| - 1;
    GaplessTake(heard, d);
    WireAppend(stack[..d], stack[d]);
    assert stack == stack[..d] + [stack[d]];
  }

  /** What a delivered message makes of the sender's state. */
  lemma DeliveredState(s: System, a: Action)
    requires !a.Drain? && a.delivered && (a.Exit? ==> Stack(s, a.tid) != []) && Counted(s, a)
    ensures var w, now, n := StateOf(Received(s), a.tid), StateOf(Received(Step(s, a)), a.tid), |Stack(s, a.tid)|;
      now == if a.Enter? then WindowState(n + 1, Truncate(w.labels, n) + [Label(OnWire(a.func), SaturatingAdd(Count(s, a.func), U32_MAX))])
             else WindowState(n - 1, Truncate(w.labels, n - 1))
  {
    hide ApplyAll, OnWire, Field, Zeros;
    SendAppends(s, a);
    if a.Enter? {
      EntryApplied(Received(s), a.tid, Stack(s, a.tid), Label(a.func, SaturatingAdd(Count(s, a.func), U32_MAX)));
    } else {
      LeaveApplied(Received(s), a.tid, |Stack(s, a.tid)| - 1);
    }
  }

  lemma LeaveApplied(table: Table, t: Tid, d: nat)
    ensures StateOf(ApplyUpdate(table, Update(t, d, 0, false, Zeros(FUNC_NAME_MAX))), t) == WindowState(d, Truncate(StateOf(table, t).labels, d))
  {}

  lemma LostChangesNothing(s: System, a: Action)
    requires !a.Drain? && !a.delivered
    ensures Received(Step(s, a)) == Received(s)
  {
    assert s.pipe + [] == s.pipe;
  }

  lemma MoverFollows(h: History, a: Action)
    requires !a.Drain? && KnowsThread(h, a.tid) && (a.Exit? ==> Stack(h.sys, a.tid) != []) && Counted(h.sys, a)
    ensures KnowsThread(After(h, a), a.tid)
  {
    hide Received, Knows, Wire, OnWire, Gapless;
    var t, s := a.tid, h.sys;
    var w, stack, heard := StateOf(Received(s), t), Stack(s, t), Heard(h, t);
    KnowsLengths(w, stack, heard, Told(h, t));
    if a.Enter? {
      KnowsEntered(w, stack, heard, Told(h, t), Label(a.func, SaturatingAdd(Count(s, a.func), U32_MAX)));
    } else {
      KnowsLeft(w, stack, heard, Told(h, t));
    }
    if a.delivered {
      DeliveredState(s, a);
    } else {
      LostChangesNothing(s, a);
    }
  }

  lemma KnowsLengths(w: WindowState, stack: seq<Label>, heard: seq<bool>, told: nat)
    requires Knows(w, stack, heard, told)
    ensures |heard| == |stack|
  {}

  /** A move leaves everything that is said of another thread as it was. */
  lemma OthersFollow(h: History, a: Action, t: Tid)
    requires !a.Drain? && (a.Exit? ==> Stack(h.sys, a.tid) != []) && t != a.tid
    ensures var g := After(h, a);
      && StateOf(Received(g.sys), t) == StateOf(Received(h.sys), t)
      && Stack(g.sys, t) == Stack(h.sys, t) && Cell(g.sys, t) == Cell(h.sys, t)
      && Heard(g, t) == Heard(h, t) && Told(g, t) == Told(h, t) && (t in g.missed <==> t in h.missed)
  {
    hide Received;
    if a.delivered {
      OthersUntouched(h.sys, a, t);
    } else {
      LostChangesNothing(h.sys, a);
    }
  }

  lemma AfterFollows(h: History, a: Action)
    requires Follows(h) && Bounded(h.sys) && Bounded(After(h, a).sys)
    ensures Follows(After(h, a))
  {
    hide Received, Knows;
    var g := After(h, a);
    if a.Drain? {
      DrainKeepsReceived(h.sys, a.n);
      assert forall t :: KnowsThread(h, t) ==> KnowsThread(g, t);
    } else if a.Enter? || Stack(h.sys, a.tid) != [] {
      forall t
        ensures KnowsThread(g, t)
      {
        assert KnowsThread(h, t);
        if t == a.tid {
          MoverFollows(h, a);
        } else {
          OthersFollow(h, a, t);
        }
      }
    }
  }

  lemma UnheardFollows()
    ensures Follows(Unheard) && Bounded(Unheard.sys)
  {}

  lemma BoundedAt(actions: seq<Action>, k: nat)
    requires BoundedRun(Start, actions) && k <= |actions|
    ensures Bounded(Replay(actions[..k]).sys)
  {
    ReplayRuns(actions[..k]);
    assert Bounded(Run(Start, actions[..k]));
  }

  lemma BoundedPrefix(actions: seq<Action>)
    requires BoundedRun(Start, actions) && actions != []
    ensures BoundedRun(Start, actions[..|actions| - 1])
  {
    var prefix := actions[..|actions| - 1];
    forall k {:trigger prefix[..k]} | 0 <= k <= |prefix|
      ensures Bounded(Run(Start, prefix[..k]))
    {
      assert prefix[..k] == actions[..k];
    }
  }

  lemma {:induction false} ReplayFollows(actions: seq<Action>)
    requires BoundedRun(Start, actions)
    ensures Follows(Replay(actions)) && Bounded(Replay(actions).sys)
    decreases |actions|
  {
    hide After, Follows, Bounded;
    if actions == [] {
      UnheardFollows();
    } else {
      var n := |actions|;
      BoundedPrefix(actions);
      ReplayFollows(actions[..n - 1]);
      BoundedAt(actions, n);
      assert actions[..n] == actions;
      AfterFollows(Replay(actions[..n - 1]), actions[n - 1]);
    }
  }

  /** The tracer's state of the thread, once the pipe is drained, is the thread's own. */
  ghost predicate Right(s: System, t: Tid) {
    StateOf(Received(s), t) == WindowState(|Stack(s, t)|, Wire(Stack(s, t)))
  }

  lemma HeardIsRight(h: History, t: Tid)
    requires KnowsThread(h, t) && AllHeard(h, t) && Told(h, t) == |Stack(h.sys, t)|
    ensures Right(h.sys, t)
  {
    hide Received, Gapless;
  }

  /** Main result, whatever is lost: the depth is the nesting last told, so it is right if the thread's latest
      message got through; and if besides the entry of every window it has open got through, depth and labels are
      exactly the thread's own. */
  lemma LossyRunKnows(actions: seq<Action>, t: Tid)
    requires BoundedRun(Start, actions)
    ensures var h := Replay(actions); var n := |Stack(h.sys, t)|;
      && h.sys == Run(Start, actions)
      && StateOf(Received(h.sys), t).depth == Told(h, t) && (t !in h.missed ==> Told(h, t) == n)
      && (AllHeard(h, t) && Told(h, t) == n ==> Right(h.sys, t))
  {
    hide Replay, Run, Received, Wire;
    ReplayRuns(actions);
    ReplayFollows(actions);
    var h := Replay(actions);
    assert KnowsThread(h, t);
    if AllHeard(h, t) && Told(h, t) == |Stack(h.sys, t)| {
      HeardIsRight(h, t);
    }
  }

  /** The label of the entry identifies it: its name survives the message and its counter has not saturated. */
  ghost predicate Identified(s: System, a: Action) {
    a.Enter? ==> |a.func| <= FUNC_NAME_MAX && 0 !in a.func && Count(s, a.func) < U32_MAX
  }

  ghost predicate IdentifiedRun(actions: seq<Action>) {
    forall k {:trigger actions[k]} :: 0 <= k < |actions| ==> Identified(Run(Start, actions[..k]), actions[k])
  }

  /** Labels issued read on the wire as they are; the tracer holds only such labels, and none of an open window
      whose entry was lost. */
  ghost predicate Unmistaken(h: History) {
    && CountsOpened(h.sys)
    && (forall l :: l in h.sys.issued ==> OnWire(l.func) == l.func)
    && forall t :: UnmistakenThread(h, t)
  }

  ghost predicate UnmistakenThread(h: History, t: Tid) {
    var stack, labels := Stack(h.sys, t), StateOf(Received(h.sys), t).labels;
    && |Heard(h, t)| == |stack|
    && (forall l :: l in labels ==> l in h.sys.issued)
    && (forall l :: l in stack ==> l in h.sys.issued)
    && forall i :: 0 <= i < |stack| && !Heard(h, t)[i] ==> stack[i] !in labels
  }

  lemma MoverUnmistaken(h: History, a: Action)
    requires !a.Drain? && UnmistakenThread(h, a.tid) && (a.Exit? ==> Stack(h.sys, a.tid) != []) && Counted(h.sys, a)
    requires a.Enter? ==> OnWire(a.func) == a.func && Label(a.func, SaturatingAdd(Count(h.sys, a.func), U32_MAX)) !in h.sys.issued
    ensures UnmistakenThread(After(h, a), a.tid)
  {
    hide Received, OnWire;
    var t, s := a.tid, h.sys;
    var w, stack, heard := StateOf(Received(s), t), Stack(s, t), Heard(h, t);
    assert forall n: nat, l :: l in Truncate(w.labels, n) ==> l in w.labels;
    if a.delivered {
      DeliveredState(s, a);
    } else {
      LostChangesNothing(s, a);
    }
  }

  lemma AfterUnmistaken(h: History, a: Action)
    requires Unmistaken(h) && Follows(h) && Bounded(h.sys) && Bounded(After(h, a).sys) && Identified(h.sys, a)
    requires CountsOpened(After(h, a).sys)
    ensures Unmistaken(After(h, a))
  {
    hide Received, OnWire, Knows, CountsOpened;
    var g := After(h, a);
    if a.Drain? {
      DrainKeepsReceived(h.sys, a.n);
      assert forall t :: UnmistakenThread(h, t) ==> UnmistakenThread(g, t);
    } else if a.Enter? || Stack(h.sys, a.tid) != [] {
      if a.Enter? {
        ShortNamesSurvive(a.func);
        NextIsFresh(h.sys, a.func);
      }
      forall t
        ensures UnmistakenThread(g, t)
      {
        assert KnowsThread(h, t) && UnmistakenThread(h, t);
        if t == a.tid {
          MoverUnmistaken(h, a);
        } else {
          OthersFollow(h, a, t);
        }
      }
    }
  }

  lemma NextIsFresh(s: System, func: Name)
    requires CountsOpened(s) && Count(s, func) < U32_MAX
    ensures Label(func, SaturatingAdd(Count(s, func), U32_MAX)) !in s.issued
  {}

  lemma UnheardUnmistaken()
    ensures Unmistaken(Unheard)
  {}

  lemma IdentifiedPrefix(actions: seq<Action>)
    requires IdentifiedRun(actions) && actions != []
    ensures IdentifiedRun(actions[..|actions| - 1])
    ensures Identified(Run(Start, actions[..|actions| - 1]), actions[|actions| - 1])
  {
    var prefix := actions[..|actions| - 1];
    forall k {:trigger prefix[k]} | 0 <= k < |prefix|
      ensures Identified(Run(Start, prefix[..k]), prefix[k])
    {
      assert prefix[..k] == actions[..k] && prefix[k] == actions[k];
    }
  }

  lemma {:induction false} ReplayUnmistaken(actions: seq<Action>)
    requires BoundedRun(Start, actions) && IdentifiedRun(actions)
    ensures Unmistaken(Replay(actions))
    decreases |actions|
  {
    hide After, Follows, Bounded, Unmistaken, Identified, CountsOpened;
    if actions == [] {
      UnheardUnmistaken();
    } else {
      var prefix := actions[..|actions| - 1];
      BoundedPrefix(actions);
      IdentifiedPrefix(actions);
      ReplayUnmistaken(prefix);
      ReplayFollows(prefix);
      ReplayFollows(actions);
      ReplayRuns(prefix);
      ReplayRuns(actions);
      RunCountsOpened(actions);
      AfterUnmistaken(Replay(prefix), actions[|actions| - 1]);
    }
  }

  /** Main result, exactly when nothing is wrong: as long as labels identify windows, the tracer has the thread's
      depth and labels right if and only if the entry of every window the thread has open got through and the
      thread is as deep as it last told. */
  lemma RightIff(actions: seq<Action>, t: Tid)
    requires BoundedRun(Start, actions) && IdentifiedRun(actions)
    ensures var h := Replay(actions);
      Right(h.sys, t) <==> AllHeard(h, t) && Told(h, t) == |Stack(h.sys, t)|
  {
    hide Replay, Run, Received, OnWire, CountsOpened;
    LossyRunKnows(actions, t);
    ReplayUnmistaken(actions);
    var h := Replay(actions);
    assert UnmistakenThread(h, t);
    var stack, g := Stack(h.sys, t), Gapless(Heard(h, t));
    if g < |stack| {
      assert stack[g] in stack;
      RightHolds(h.sys, t, g);
    }
  }

  lemma RightHolds(s: System, t: Tid, i: nat)
    requires i < |Stack(s, t)|
    ensures var l := Stack(s, t)[i]; Right(s, t) && OnWire(l.func) == l.func ==> l in StateOf(Received(s), t).labels
  {
    hide Received, OnWire;
    var stack := Stack(s, t);
    assert Wire(stack)[i] in Wire(stack);
  }
}
