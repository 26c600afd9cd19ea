/** Function-graph windows: the traced threads keep a depth counter and send one message per window
    entry and exit; the tracer rebuilds depth and scope labels from the messages that arrive. */
module Windows {
  import opened Common

  type Name = seq<byte>

  const FUNC_NAME_MAX: nat := 96

  datatype Label = Label(func: Name, seqNo: nat)
  datatype WindowState = WindowState(depth: nat, labels: seq<Label>)
  datatype Update = Update(tid: Tid, depth: nat, seqNo: nat, enter: bool, func: Name)

  type Table = map<Tid, WindowState>

  function UpToNul(s: Name): Name {
    if s == [] || s[0] == 0 then [] else [s[0]] + UpToNul(s[1..])
  }

  /** The part of a name that fits the fixed message field. */
  function Clip(name: Name): Name { name[..Min(|name|, FUNC_NAME_MAX)] }

  function Zeros(n: nat): (z: Name)
    ensures |z| == n && forall i :: 0 <= i < n ==> z[i] == 0
  {
    seq(n, _ => 0)
  }

  function Field(name: Name): Name { Clip(name) + Zeros(FUNC_NAME_MAX - |Clip(name)|) }

  /** The name as the tracer reads it back. */
  function OnWire(name: Name): Name { UpToNul(Clip(name)) }

  lemma {:induction false} PaddingIsInvisible(s: Name, n: nat)
    ensures UpToNul(s + Zeros(n)) == UpToNul(s)
  {
    if s == [] {
    } else if s[0] != 0 {
      assert (s + Zeros(n))[1..] == s[1..] + Zeros(n);
      PaddingIsInvisible(s[1..], n);
    }
  }

  /** The message carries every NUL-free name of up to 96 bytes unchanged. */
  lemma {:induction false} ShortNamesSurvive(name: Name)
    ensures OnWire(name) == name <==> |name| <= FUNC_NAME_MAX && 0 !in name
  {
    UpToNulIsPrefix(Clip(name));
    if |name| <= FUNC_NAME_MAX && 0 !in name {
      assert Clip(name) == name;
    }
  }

  lemma {:induction false} UpToNulIsPrefix(s: Name)
    ensures UpToNul(s) <= s && 0 !in UpToNul(s)
    ensures 0 !in s ==> UpToNul(s) == s
    ensures |UpToNul(s)| < |s| ==> s[|UpToNul(s)|] == 0
  {
    if s != [] && s[0] != 0 {
      UpToNulIsPrefix(s[1..]);
    }
  }

  /** The fixed-size name field of a window message. */
  class NameField {
    const bytes: array<byte>

    constructor ()
      ensures fresh(bytes) && bytes.Length == FUNC_NAME_MAX
      ensures bytes[..] == Zeros(FUNC_NAME_MAX)
    {
      bytes := new byte[FUNC_NAME_MAX](_ => 0);
    }

    method SetFunc(func: Name)
      requires bytes.Length == FUNC_NAME_MAX
      modifies bytes
      ensures bytes[..] == Field(func)
    {
      forall i | 0 <= i < bytes.Length { bytes[i] := 0; }
      var copyLen := Min(|func|, bytes.Length);
      forall i | 0 <= i < copyLen { bytes[i] := func[i]; }
    }

    method FuncName() returns (name: Name)
      ensures name == UpToNul(bytes[..])
    {
      var len := 0;
      while len < bytes.Length && bytes[len] != 0
        invariant 0 <= len <= bytes.Length
        invariant UpToNul(bytes[..]) == bytes[..len] + UpToNul(bytes[len..])
      {
        assert bytes[len..] == [bytes[len]] + bytes[len + 1..];
        len := len + 1;
        assert bytes[..len] == bytes[..len - 1] + [bytes[len - 1]];
      }
      name := bytes[..len];
    }
  }

  function Truncate(labels: seq<Label>, n: nat): seq<Label> { labels[..Min(|labels|, n)] }

  function StateOf(table: Table, tid: Tid): WindowState {
    if tid in table then table[tid] else WindowState(0, [])
  }

  function ApplyUpdate(table: Table, u: Update): Table {
    if u.depth == 0 then table - {u.tid}
    else if u.enter then
      table[u.tid := WindowState(u.depth, Truncate(StateOf(table, u.tid).labels, u.depth - 1) + [Label(UpToNul(u.func), u.seqNo)])]
    else
      table[u.tid := WindowState(u.depth, Truncate(StateOf(table, u.tid).labels, u.depth))]
  }

  function ApplyAll(table: Table, us: seq<Update>): Table
    decreases |us|
  {
    if us == [] then table else ApplyUpdate(ApplyAll(table, us[..|us| - 1]), us[|us| - 1])
  }

  /** However the pipe is cut into batches, the table ends the same. */
  lemma {:induction false} BatchesDoNotMatter(table: Table, us: seq<Update>, vs: seq<Update>)
    ensures ApplyAll(table, us + vs) == ApplyAll(ApplyAll(table, us), vs)
    decreases |vs|
  {
    if vs == [] {
      assert us + vs == us;
    } else {
      assert (us + vs)[..|us + vs| - 1] == us + vs[..|vs| - 1];
      BatchesDoNotMatter(table, us, vs[..|vs| - 1]);
    }
  }

  /** A stored depth is positive and at least the number of labels. */
  ghost predicate Sane(table: Table) {
    forall t :: t in table ==> 1 <= table[t].depth && |table[t].labels| <= table[t].depth
  }

  /** No message sequence at all, lossy or not, breaks the table. */
  lemma {:induction false} AnyMessagesKeepSane(table: Table, us: seq<Update>)
    requires Sane(table)
    ensures Sane(ApplyAll(table, us))
    decreases |us|
  {
    if us != [] {
      AnyMessagesKeepSane(table, us[..|us| - 1]);
    }
  }

  /** The two processes together. `cells` holds each thread's depth counter, `counts` the entries seen so
      far per function, `stacks` the windows each thread really has open, innermost last, and `issued`
      every window ever opened. */
  datatype System = System(
    cells: map<Tid, nat>, counts: map<Name, nat>, stacks: map<Tid, seq<Label>>, issued: set<Label>,
    pipe: seq<Update>, table: Table)

  datatype Action =
    | Enter(tid: Tid, func: Name, delivered: bool)
    | Exit(tid: Tid, delivered: bool)
    | Drain(n: nat)

  function Cell(s: System, t: Tid): nat { if t in s.cells then s.cells[t] else 0 }
  function Stack(s: System, t: Tid): seq<Label> { if t in s.stacks then s.stacks[t] else [] }
  function Count(s: System, f: Name): nat { if f in s.counts then s.counts[f] else 0 }

  /** `delivered` is false when the non-blocking pipe was full. A scope leaves only a window it entered, so
      an exit without an open window is no step. */
  function Step(s: System, a: Action): System {
    match a
    case Enter(tid, func, delivered) =>
      var seqNo := SaturatingAdd(Count(s, func), U32_MAX);
      var depth := SaturatingAdd(Cell(s, tid), USIZE_MAX);
      var u := Update(tid, Min(depth, U32_MAX), seqNo, true, Field(func));
      s.(cells := s.cells[tid := depth], counts := s.counts[func := seqNo],
         stacks := s.stacks[tid := Stack(s, tid) + [Label(func, seqNo)]],
         issued := s.issued + {Label(func, seqNo)},
         pipe := s.pipe + if delivered then [u] else [])
    case Exit(tid, delivered) =>
      if Stack(s, tid) == [] then s
      else
        var depth := SaturatingSub(Cell(s, tid));
        var u := Update(tid, Min(depth, U32_MAX), 0, false, Zeros(FUNC_NAME_MAX));
        s.(cells := s.cells[tid := depth],
           stacks := s.stacks[tid := Stack(s, tid)[..|Stack(s, tid)| - 1]],
           pipe := s.pipe + if delivered then [u] else [])
    case Drain(n) =>
      var k := Min(n, |s.pipe|);
      s.(table := ApplyAll(s.table, s.pipe[..k]), pipe := s.pipe[k..])
  }

  function Run(s: System, actions: seq<Action>): System
    decreases |actions|
  {
    if actions == [] then s else Step(Run(s, actions[..|actions| - 1]), actions[|actions| - 1])
  }

  const Start := System(map[], map[], map[], {}, [], map[])

  ghost predicate Bounded(s: System) { forall t :: t in s.stacks ==> |s.stacks[t]| <= U32_MAX }

  /** Every prefix of the run stays below 2^32 nested windows per thread. */
  ghost predicate BoundedRun(s: System, actions: seq<Action>) {
    forall k {:trigger actions[..k]} :: 0 <= k <= |actions| ==> Bounded(Run(s, actions[..k]))
  }

  predicate Lossless(actions: seq<Action>) {
    forall i :: 0 <= i < |actions| ==> !actions[i].Drain? ==> actions[i].delivered
  }

  function Wire(stack: seq<Label>): (w: seq<Label>)
    ensures |w| == |stack|
    ensures forall i :: 0 <= i < |stack| ==> w[i] == Label(OnWire(stack[i].func), stack[i].seqNo)
  {
    seq(|stack|, i requires 0 <= i < |stack| => Label(OnWire(stack[i].func), stack[i].seqNo))
  }

  /** What the tracer ought to hold for a thread with these open windows. */
  ghost predicate Mirrors(table: Table, t: Tid, stack: seq<Label>) {
    if stack == [] then t !in table else t in table && table[t] == WindowState(|stack|, Wire(stack))
  }

  /** Once the pipe is empty the table is `Received`. */
  function Received(s: System): Table { ApplyAll(s.table, s.pipe) }

  ghost predicate CellsCount(s: System) { forall t :: Cell(s, t) == |Stack(s, t)| }

  ghost predicate Refines(s: System) {
    CellsCount(s) && forall t :: Mirrors(Received(s), t, Stack(s, t))
  }

  lemma DrainKeepsReceived(s: System, n: nat)
    ensures Received(Step(s, Drain(n))) == Received(s)
  {
    var k := Min(n, |s.pipe|);
    assert s.pipe == s.pipe[..k] + s.pipe[k..];
    BatchesDoNotMatter(s.table, s.pipe[..k], s.pipe[k..]);
  }

  lemma SendAppends(s: System, a: Action)
    requires !a.Drain? && a.delivered && (a.Exit? ==> Stack(s, a.tid) != [])
    ensures var s' := Step(s, a);
      s'.pipe != [] && Received(s') == ApplyUpdate(Received(s), s'.pipe[|s'.pipe| - 1])
  {
    var s' := Step(s, a);
    assert s'.pipe[..|s'.pipe| - 1] == s.pipe;
  }

  lemma EntryApplied(table: Table, t: Tid, stack: seq<Label>, w: Label)
    ensures var r := ApplyUpdate(table, Update(t, |stack| + 1, w.seqNo, true, Field(w.func))); var labels := StateOf(table, t).labels;
      && r == table[t := r[t]] && r[t].depth == |stack| + 1
      && r[t].labels == Truncate(labels, |stack|) + [Label(OnWire(w.func), w.seqNo)]
      && (r[t].labels == Wire(stack + [w]) <==> |labels| >= |stack| && labels[..|stack|] == Wire(stack))
  {
    PaddingIsInvisible(Clip(w.func), FUNC_NAME_MAX - |Clip(w.func)|);
    var top := Label(OnWire(w.func), w.seqNo);
    assert Wire(stack + [w]) == Wire(stack) + [top];
    var cut := Truncate(StateOf(table, t).labels, |stack|);
    assert cut + [top] == Wire(stack) + [top] <==> cut == Wire(stack) by {
      assert (cut + [top])[..|cut|] == cut && (Wire(stack) + [top])[..|stack|] == Wire(stack);
    }
  }

  lemma ExitApplied(table: Table, t: Tid, stack: seq<Label>)
    requires stack != []
    ensures var r := ApplyUpdate(table, Update(t, |stack|, 0, false, Zeros(FUNC_NAME_MAX))); var labels := StateOf(table, t).labels;
      && r == table[t := r[t]] && r[t].depth == |stack|
      && (r[t].labels == Wire(stack) <==> |labels| >= |stack| && labels[..|stack|] == Wire(stack))
  {}

  /** The windows whose labels a message leaves untouched. */
  function Below(s: System, a: Action): seq<Label>
    requires !a.Drain?
  {
    if a.Enter? then Stack(s, a.tid) else Stack(Step(s, a), a.tid)
  }

  /** The counter of the thread that moves is exact before and does not saturate. */
  ghost predicate Counted(s: System, a: Action)
    requires !a.Drain?
  {
    Cell(s, a.tid) == |Stack(s, a.tid)| && |Stack(s, a.tid)| <= U32_MAX && |Stack(Step(s, a), a.tid)| <= U32_MAX
  }

  /** How one delivered message leaves the tracer: whatever was lost before, the depth is right again, the
      innermost label is right after an entry, and the whole stack is right if and only if the labels
      below were right already. */
  lemma DeliveredResync(s: System, a: Action)
    requires !a.Drain? && a.delivered && (a.Exit? ==> Stack(s, a.tid) != []) && Counted(s, a)
    ensures var now := Received(Step(s, a)); var stack := Stack(Step(s, a), a.tid); var labels := StateOf(Received(s), a.tid).labels;
      && StateOf(now, a.tid).depth == |stack|
      && (a.Enter? ==> stack != [] && ScopeIs(now, a.tid, stack[|stack| - 1]))
      && (Mirrors(now, a.tid, stack) <==> stack == [] || (|labels| >= |Below(s, a)| && labels[..|Below(s, a)|] == Wire(Below(s, a))))
  {
    SendAppends(s, a);
    var stack := Stack(Step(s, a), a.tid);
    if a.Enter? {
      var seqNo := SaturatingAdd(Count(s, a.func), U32_MAX);
      EntryApplied(Received(s), a.tid, Stack(s, a.tid), Label(a.func, seqNo));
    } else if stack != [] {
      ExitApplied(Received(s), a.tid, stack);
    }
  }

  /** The innermost label the tracer holds for the thread is the one of window `w`. */
  ghost predicate ScopeIs(table: Table, t: Tid, w: Label) {
    var labels := StateOf(table, t).labels;
    labels != [] && labels[|labels| - 1] == Label(OnWire(w.func), w.seqNo)
  }

  /** A delivered message reports the nesting exactly if and only if it fits 32 bits. */
  lemma DepthReportedIff(s: System, a: Action)
    requires !a.Drain? && a.delivered && (a.Exit? ==> Stack(s, a.tid) != [])
    requires Cell(s, a.tid) == |Stack(s, a.tid)| < USIZE_MAX
    ensures var stack := Stack(Step(s, a), a.tid);
      StateOf(Received(Step(s, a)), a.tid).depth == |stack| <==> |stack| <= U32_MAX
  {
    SendAppends(s, a);
  }

  lemma StepRefinesThread(s: System, a: Action)
    requires !a.Drain? && a.delivered && (a.Exit? ==> Stack(s, a.tid) != []) && Counted(s, a)
    requires Mirrors(Received(s), a.tid, Stack(s, a.tid))
    ensures var s' := Step(s, a);
      Mirrors(Received(s'), a.tid, Stack(s', a.tid)) && Cell(s', a.tid) == |Stack(s', a.tid)|
  {
    hide ApplyUpdate, ApplyAll, Received, Wire, ScopeIs;
    DeliveredResync(s, a);
    var stack, keep := Stack(s, a.tid), Below(s, a);
    WirePrefix(stack, |keep|);
    assert keep == stack[..|keep|];
    assert stack != [] ==> StateOf(Received(s), a.tid).labels == Wire(stack);
  }

  lemma WirePrefix(stack: seq<Label>, n: nat)
    requires n <= |stack|
    ensures Wire(stack)[..n] == Wire(stack[..n])
  {
    hide OnWire;
  }

  lemma OthersUntouched(s: System, a: Action, t: Tid)
    requires !a.Drain? && a.delivered && (a.Exit? ==> Stack(s, a.tid) != []) && t != a.tid
    ensures var s' := Step(s, a);
      && Stack(s', t) == Stack(s, t) && Cell(s', t) == Cell(s, t)
      && (t in Received(s') <==> t in Received(s)) && StateOf(Received(s'), t) == StateOf(Received(s), t)
  {
    SendAppends(s, a);
  }

  lemma StepRefines(s: System, a: Action)
    requires Refines(s) && Bounded(s) && Bounded(Step(s, a))
    requires !a.Drain? ==> a.delivered
    ensures Refines(Step(s, a))
  {
    hide ApplyUpdate, Received, Wire;
    var s' := Step(s, a);
    if a.Drain? {
      DrainKeepsReceived(s, a.n);
      assert forall t :: Stack(s', t) == Stack(s, t) && Cell(s', t) == Cell(s, t);
    } else if a.Enter? || Stack(s, a.tid) != [] {
      StepRefinesThread(s, a);
      forall t
        ensures Mirrors(Received(s'), t, Stack(s', t)) && Cell(s', t) == |Stack(s', t)|
      {
        if t != a.tid {
          OthersUntouched(s, a, t);
          assert Mirrors(Received(s), t, Stack(s, t));
        }
      }
    }
  }

  /** Main result: over every interleaving of entries, exits and drains of any number of threads, once the
      messages still in the pipe are applied the tracer holds exactly each thread's open windows. */
  lemma {:induction false} LosslessRunRefines(actions: seq<Action>)
    requires Lossless(actions) && BoundedRun(Start, actions)
    ensures Refines(Run(Start, actions))
    ensures Run(Start, actions).pipe == [] ==>
      forall t :: Mirrors(Run(Start, actions).table, t, Stack(Run(Start, actions), t))
    decreases |actions|
  {
    if actions != [] {
      var prefix := actions[..|actions| - 1];
      assert actions[..|actions|] == actions;
      assert forall k {:trigger prefix[..k]} :: 0 <= k <= |prefix| ==> prefix[..k] == actions[..k];
      LosslessRunRefines(prefix);
      assert Bounded(Run(Start, actions[..|prefix|])) && Bounded(Run(Start, actions[..|actions|]));
      StepRefines(Run(Start, prefix), actions[|actions| - 1]);
    }
  }

  /** Under any loss the tracer's table stays sane. */
  lemma {:induction false} LossyRunSane(s: System, actions: seq<Action>)
    requires Sane(s.table)
    ensures Sane(Run(s, actions).table)
    decreases |actions|
  {
    if actions != [] {
      var prefix := actions[..|actions| - 1];
      LossyRunSane(s, prefix);
      var mid := Run(s, prefix);
      match actions[|actions| - 1]
      case Drain(n) => AnyMessagesKeepSane(mid.table, mid.pipe[..Min(n, |mid.pipe|)]);
      case _ =>
    }
  }

  /** One lost entry is enough for a wrong label. */
  lemma LostEntryIsUnheard(t: Tid, outer: Name)
    ensures var s := Step(Start, Enter(t, outer, false));
      Stack(s, t) == [Label(outer, 1)] && Cell(s, t) == 1 && t !in Received(s)
  {}

  /** A thread is in one window the tracer has not heard of. After it enters and leaves an inner window,
      both heard, the tracer names the inner window although the thread is in the outer one. */
  lemma LossMislabels(s: System, t: Tid, inner: Name)
    requires |Stack(s, t)| == 1 && Cell(s, t) == 1 && t !in Received(s)
    ensures var s' := Step(Step(s, Enter(t, inner, true)), Exit(t, true));
      && Stack(s', t) == Stack(s, t)
      && StateOf(Received(s'), t) == WindowState(1, [Label(OnWire(inner), SaturatingAdd(Count(s, inner), U32_MAX))])
  {
    hide ApplyUpdate, Received, Wire, Mirrors, Field, OnWire;
    var seqNo := SaturatingAdd(Count(s, inner), U32_MAX);
    var s1 := Step(s, Enter(t, inner, true));
    SendAppends(s, Enter(t, inner, true));
    assert s1.pipe[|s1.pipe| - 1] == Update(t, 2, seqNo, true, Field(inner));
    EntryApplied(Received(s), t, Stack(s, t), Label(inner, seqNo));
    assert Received(s1)[t] == WindowState(2, [Label(OnWire(inner), seqNo)]);
    var s2 := Step(s1, Exit(t, true));
    SendAppends(s1, Exit(t, true));
    assert s2.pipe[|s2.pipe| - 1] == Update(t, 1, 0, false, Zeros(FUNC_NAME_MAX));
    ExitOfOne(Received(s1), t);
    assert Stack(s2, t) == Stack(s, t);
  }

  lemma ExitOfOne(table: Table, t: Tid)
    requires |StateOf(table, t).labels| == 1
    ensures StateOf(ApplyUpdate(table, Update(t, 1, 0, false, Zeros(FUNC_NAME_MAX))), t) == WindowState(1, StateOf(table, t).labels)
  {}

  /** `issued` is exactly what the per-function counters have handed out. */
  ghost predicate CountsOpened(s: System) {
    && (forall f :: Count(s, f) <= U32_MAX)
    && forall f, k: nat :: Label(f, k) in s.issued <==> 1 <= k <= Count(s, f)
  }

  lemma {:induction false} RunCountsOpened(actions: seq<Action>)
    ensures CountsOpened(Run(Start, actions))
    decreases |actions|
  {
    if actions != [] {
      var prefix := actions[..|actions| - 1];
      RunCountsOpened(prefix);
      var s, a := Run(Start, prefix), actions[|actions| - 1];
      var s' := Step(s, a);
      assert forall f :: Count(s', f) == if a.Enter? && f == a.func then SaturatingAdd(Count(s, f), U32_MAX) else Count(s, f);
      assert s'.issued == if a.Enter? then s.issued + {Label(a.func, Count(s', a.func))} else s.issued;
    }
  }

  /** Scope labels identify windows across all threads of a run: an entry gets a label never used before
      if and only if its function's 32-bit counter has not saturated. */
  lemma FreshLabel(actions: seq<Action>, t: Tid, func: Name, delivered: bool)
    ensures var s := Run(Start, actions); var stack' := Stack(Step(s, Enter(t, func, delivered)), t);
      stack'[|stack'| - 1] !in s.issued <==> Count(s, func) < U32_MAX
  {
    RunCountsOpened(actions);
  }
}
