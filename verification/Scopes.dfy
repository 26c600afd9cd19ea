/** Hooked calls on one thread: function-graph windows, spans and the re-entrancy guard together. */
module Scopes {
  import opened Common
  import opened Spans

  /** The guard's counter is 32 bits wide and saturates both ways. */
  function GuardEnter(bypass: nat): nat { SaturatingAdd(bypass, U32_MAX) }
  function GuardDrop(bypass: nat): nat { SaturatingSub(bypass) }

  /** Dropping a guard undoes entering it if and only if the counter was not at its maximum. */
  lemma GuardRestores(bypass: nat)
    requires bypass <= U32_MAX
    ensures GuardDrop(GuardEnter(bypass)) == bypass <==> bypass < U32_MAX
  {}

  /** A window message as the thread sends it: the function entered, or None for an exit, and the depth. */
  datatype WindowMessage = WindowMessage(func: Option<string>, depth: nat)

  /** The thread-local cells, what the thread printed and published, and the window messages it sent. */
  datatype Thread = Thread(spans: SpanState, windowDepth: nat, bypass: nat, sent: seq<WindowMessage>)

  /** One hooked call with everything that depends on configuration left open: whether its domain is traced,
      whether its function opens a window, and the hooked calls made while its arguments are formatted and
      while the real function runs. A guarded piece of code may make hooked calls too. */
  datatype Call =
    | Hooked(func: string, args: string, ret: string, enabled: bool, matched: bool, whileFormatting: seq<Call>, body: seq<Call>)
    | Guarded(body: seq<Call>)

  function EnterWindow(t: Thread, func: string): Thread {
    var depth := SaturatingAdd(t.windowDepth, USIZE_MAX);
    t.(windowDepth := depth, sent := t.sent + [WindowMessage(Some(func), depth)])
  }

  function ExitWindow(t: Thread): Thread {
    var depth := SaturatingSub(t.windowDepth);
    t.(windowDepth := depth, sent := t.sent + [WindowMessage(None, depth)])
  }

  function WithGuard(t: Thread, up: bool): Thread {
    t.(bypass := if up then GuardEnter(t.bypass) else GuardDrop(t.bypass))
  }

  predicate OpensWindow(t: Thread, c: Call) requires c.Hooked? { t.bypass == 0 && c.matched }
  predicate OpensSpan(t: Thread, c: Call) requires c.Hooked? { t.bypass == 0 && c.enabled }

  function AfterWindow(t: Thread, c: Call): Thread requires c.Hooked? {
    if OpensWindow(t, c) then EnterWindow(t, c.func) else t
  }

  /** The scope is left: the window first, then the span, under a guard. */
  function Finish(t: Thread, eager: bool, c: Call, window: bool, span: bool): Thread requires c.Hooked? {
    var t1 := if window then ExitWindow(t) else t;
    if span then WithGuard(WithGuard(t1, true).(spans := ExitSpan(t1.spans, eager, c.ret)), false) else t1
  }

  function PerformCall(t: Thread, eager: bool, c: Call): Thread
    decreases c
  {
    match c
    case Guarded(body) => WithGuard(PerformCalls(WithGuard(t, true), eager, body), false)
    case Hooked(func, args, ret, _, _, whileFormatting, body) =>
      var t1 := AfterWindow(t, c);
      var t2 :=
        if !OpensSpan(t, c) then t1
        else
          var formatted := PerformCalls(WithGuard(t1, true), eager, whileFormatting);
          WithGuard(formatted.(spans := EnterSpan(formatted.spans, eager, func, args)), false);
      Finish(PerformCalls(t2, eager, body), eager, c, OpensWindow(t, c), OpensSpan(t, c))
  }

  function PerformCalls(t: Thread, eager: bool, calls: seq<Call>): Thread
    decreases calls
  {
    if calls == [] then t else PerformCalls(PerformCall(t, eager, calls[0]), eager, calls[1..])
  }

  /** How deeply guards and windows can nest in a call. */
  function Height(c: Call): nat
    decreases c
  {
    match c
    case Guarded(body) => 1 + HeightOf(body)
    case Hooked(_, _, _, _, _, f, b) => 1 + if HeightOf(f) > HeightOf(b) then HeightOf(f) else HeightOf(b)
  }

  function HeightOf(calls: seq<Call>): (h: nat)
    ensures calls != [] ==> h >= Height(calls[0]) && h >= HeightOf(calls[1..])
    decreases calls
  {
    if calls == [] then 0
    else if Height(calls[0]) > HeightOf(calls[1..]) then Height(calls[0]) else HeightOf(calls[1..])
  }

  /** Neither counter reaches its maximum. */
  ghost predicate Room(t: Thread, h: nat) { t.bypass + h <= U32_MAX && t.windowDepth + h <= USIZE_MAX }

  lemma GuardLowers(t: Thread, h: nat)
    requires t.bypass + h + 1 <= U32_MAX && t.windowDepth + h <= USIZE_MAX
    ensures Room(WithGuard(t, true), h) && WithGuard(t, true).bypass == t.bypass + 1
    ensures WithGuard(WithGuard(t, true), false) == t
  {}

  /** Under a guard no hooked call leaves any trace: no frame, no line, no window, no message. */
  lemma {:induction false} BlockedCallsAreInvisible(t: Thread, eager: bool, calls: seq<Call>)
    requires t.bypass > 0 && Room(t, HeightOf(calls))
    ensures PerformCalls(t, eager, calls) == t
    decreases calls
  {
    if calls != [] {
      match calls[0] {
        case Guarded(body) =>
          GuardLowers(t, HeightOf(body));
          BlockedCallsAreInvisible(WithGuard(t, true), eager, body);
        case Hooked(_, _, _, _, _, _, body) =>
          BlockedCallsAreInvisible(t, eager, body);
      }
      BlockedCallsAreInvisible(t, eager, calls[1..]);
    }
  }

  /** The spans one expects: traced calls nest, the calls inside an untraced one move up to its caller, and
      what happens under a guard or while arguments are formatted does not show. */
  function VisibleOf(c: Call): seq<Node>
    decreases c
  {
    match c
    case Guarded(_) => []
    case Hooked(func, args, ret, enabled, _, _, body) =>
      if enabled then [Node(func, args, ret, Visible(body))] else Visible(body)
  }

  function Visible(calls: seq<Call>): seq<Node>
    decreases calls
  {
    if calls == [] then [] else VisibleOf(calls[0]) + Visible(calls[1..])
  }

  /** The window messages one expects, starting from depth `d`. */
  function MessagesOf(d: nat, c: Call): seq<WindowMessage>
    decreases c
  {
    match c
    case Guarded(_) => []
    case Hooked(func, _, _, _, matched, _, body) =>
      if matched then [WindowMessage(Some(func), d + 1)] + Messages(d + 1, body) + [WindowMessage(None, d)]
      else Messages(d, body)
  }

  function Messages(d: nat, calls: seq<Call>): seq<WindowMessage>
    decreases calls
  {
    if calls == [] then [] else MessagesOf(d, calls[0]) + Messages(d, calls[1..])
  }

  lemma {:induction false} PerformAppend(s: SpanState, eager: bool, a: seq<Node>, b: seq<Node>)
    ensures Perform(s, eager, a + b) == Perform(Perform(s, eager, a), eager, b)
    decreases a
  {
    hide PerformNode;
    if a == [] {
      assert a + b == b;
    } else {
      assert (a + b)[1..] == a[1..] + b;
      PerformAppend(PerformNode(s, eager, a[0]), eager, a[1..], b);
    }
  }

  /** Main result: outside any guard, whatever is enabled, matched or nested, the hooked calls produce the
      spans of the visible forest and the expected window messages, and leave window depth and guard
      counter where they were. */
  lemma {:induction false} CallsBalance(t: Thread, eager: bool, calls: seq<Call>)
    requires t.bypass == 0 && Room(t, HeightOf(calls))
    ensures PerformCalls(t, eager, calls) ==
      Thread(Perform(t.spans, eager, Visible(calls)), t.windowDepth, 0, t.sent + Messages(t.windowDepth, calls))
    decreases calls, 1
  {
    hide PerformCall, VisibleOf, MessagesOf, Height, Perform;
    if calls == [] {
      NothingPerformed(t.spans, eager);
      assert t.sent + [] == t.sent;
    } else {
      var t1 := PerformCall(t, eager, calls[0]);
      CallBalances(t, eager, calls[0]);
      CallsBalance(t1, eager, calls[1..]);
      PerformAppend(t.spans, eager, VisibleOf(calls[0]), Visible(calls[1..]));
      assert t.sent + MessagesOf(t.windowDepth, calls[0]) + Messages(t.windowDepth, calls[1..]) == t.sent + Messages(t.windowDepth, calls);
    }
  }

  lemma {:induction false} CallBalances(t: Thread, eager: bool, c: Call)
    requires t.bypass == 0 && Room(t, Height(c))
    ensures PerformCall(t, eager, c) ==
      Thread(Perform(t.spans, eager, VisibleOf(c)), t.windowDepth, 0, t.sent + MessagesOf(t.windowDepth, c))
    decreases c, 0
  {
    hide PerformCalls, Visible, Messages, EnterSpan, ExitSpan, Perform, HeightOf;
    match c
    case Guarded(body) =>
      GuardLowers(t, HeightOf(body));
      BlockedCallsAreInvisible(WithGuard(t, true), eager, body);
      NothingPerformed(t.spans, eager);
    case Hooked(func, args, ret, enabled, _, whileFormatting, body) =>
      var t1 := AfterWindow(t, c);
      var t2 := t1.(spans := if enabled then EnterSpan(t.spans, eager, func, args) else t.spans);
      FormattingIsInvisible(t, eager, c);
      CallsBalance(t2, eager, body);
      OnePerformed(t.spans, eager, Node(func, args, ret, Visible(body)));
      FinishUndoes(t, eager, c, Perform(t2.spans, eager, Visible(body)));
  }

  lemma HeightAbove(c: Call)
    requires c.Hooked?
    ensures Height(c) >= 1 + HeightOf(c.whileFormatting) && Height(c) >= 1 + HeightOf(c.body)
  {}

  lemma FormattingIsInvisible(t: Thread, eager: bool, c: Call)
    requires c.Hooked? && t.bypass == 0 && Room(t, Height(c))
    ensures var t1 := AfterWindow(t, c);
      && Room(t1, HeightOf(c.body)) && t1.bypass == 0 && t1.spans == t.spans
      && WithGuard(PerformCalls(WithGuard(t1, true), eager, c.whileFormatting), false) == t1
      && PerformCalls(WithGuard(t1, true), eager, c.whileFormatting).spans == t.spans
  {
    hide PerformCalls, HeightOf, Height;
    HeightAbove(c);
    var t1 := AfterWindow(t, c);
    assert t1.windowDepth <= t.windowDepth + 1 && t1.bypass == 0;
    GuardLowers(t1, HeightOf(c.whileFormatting));
    BlockedCallsAreInvisible(WithGuard(t1, true), eager, c.whileFormatting);
  }

  lemma FinishUndoes(t: Thread, eager: bool, c: Call, inner: SpanState)
    requires c.Hooked? && t.bypass == 0 && Room(t, 1)
    ensures var t1 := AfterWindow(t, c);
      Finish(Thread(inner, t1.windowDepth, 0, t1.sent + Messages(t1.windowDepth, c.body)), eager, c, c.matched, c.enabled)
      == Thread(if c.enabled then ExitSpan(inner, eager, c.ret) else inner, t.windowDepth, 0, t.sent + MessagesOf(t.windowDepth, c))
  {
    hide Messages, ExitSpan;
    var t1 := AfterWindow(t, c);
    var msgs := Messages(t1.windowDepth, c.body);
    if c.matched {
      var enter, exit := [WindowMessage(Some(c.func), t.windowDepth + 1)], [WindowMessage(None, t.windowDepth)];
      assert t.sent + enter + msgs + exit == t.sent + (enter + msgs + exit);
    }
  }

  lemma NothingPerformed(s: SpanState, eager: bool)
    ensures Perform(s, eager, []) == s
  {}

  lemma OnePerformed(s: SpanState, eager: bool, n: Node)
    ensures Perform(s, eager, [n]) == ExitSpan(Perform(EnterSpan(s, eager, n.func, n.args), eager, n.children), eager, n.ret)
  {
    assert [n][1..] == [];
  }

  /** A thread that starts idle ends idle, its file the rendering of its visible calls. */
  lemma ThreadFile(eager: bool, calls: seq<Call>)
    requires HeightOf(calls) <= U32_MAX
    ensures PerformCalls(Thread(SpanState([], [], []), 0, 0, []), eager, calls)
      == Thread(SpanState([], Render(0, Visible(calls), eager), Depths(0, Visible(calls))), 0, 0, Messages(0, calls))
  {
    hide PerformCalls, Messages, Visible, Perform, Render, Depths, HeightOf;
    CallsBalance(Thread(SpanState([], [], []), 0, 0, []), eager, calls);
    FileRendersCalls(eager, Visible(calls));
  }

  /** The thread-local state in place; `Perform` is a hooked call from entry to return. */
  class HookThread {
    const spans: SpanStack
    var windowDepth: nat
    var bypassDepth: nat
    var sent: seq<WindowMessage>

    function View(): Thread reads this, spans { Thread(spans.View(), windowDepth, bypassDepth, sent) }

    constructor (eager: bool)
      ensures View() == Thread(SpanState([], [], []), 0, 0, []) && spans.eager == eager && fresh(spans)
    {
      spans := new SpanStack(eager);
      windowDepth, bypassDepth, sent := 0, 0, [];
    }

    method EnterWindowIfMatched(func: string, matches: bool) returns (matched: bool)
      modifies this
      ensures matched == matches && View() == if matches then EnterWindow(old(View()), func) else old(View())
    {
      if !matches {
        return false;
      }
      windowDepth := SaturatingAdd(windowDepth, USIZE_MAX);
      sent := sent + [WindowMessage(Some(func), windowDepth)];
      return true;
    }

    method ExitWindowIfNeeded(matched: bool)
      modifies this
      ensures View() == if matched then ExitWindow(old(View())) else old(View())
    {
      if !matched {
        return;
      }
      windowDepth := SaturatingSub(windowDepth);
      sent := sent + [WindowMessage(None, windowDepth)];
    }

    method EnterGuard()
      modifies this`bypassDepth
      ensures bypassDepth == GuardEnter(old(bypassDepth))
    {
      bypassDepth := SaturatingAdd(bypassDepth, U32_MAX);
    }

    method DropGuard()
      modifies this`bypassDepth
      ensures bypassDepth == GuardDrop(old(bypassDepth))
    {
      bypassDepth := SaturatingSub(bypassDepth);
    }

    method Perform(c: Call)
      modifies this, spans
      ensures View() == PerformCall(old(View()), spans.eager, c)
      decreases c
    {
      hide EnterSpan, ExitSpan;
      match c
      case Guarded(body) =>
        EnterGuard();
        PerformAll(body);
        DropGuard();
      case Hooked(func, args, ret, enabled, matches, whileFormatting, body) =>
        var blocked := bypassDepth > 0;
        var matched := false;
        if !blocked {
          matched := EnterWindowIfMatched(func, matches);
        }
        var span := enabled && !blocked;
        if span {
          EnterGuard();
          PerformAll(whileFormatting);
          spans.Enter(func, args);
          DropGuard();
        }
        PerformAll(body);
        ExitWindowIfNeeded(matched);
        if span {
          EnterGuard();
          spans.Exit(ret);
          DropGuard();
        }
    }

    method PerformAll(calls: seq<Call>)
      modifies this, spans
      ensures View() == PerformCalls(old(View()), spans.eager, calls)
      decreases calls
    {
      if calls == [] {
        return;
      }
      Perform(calls[0]);
      PerformAll(calls[1..]);
    }
  }
}
