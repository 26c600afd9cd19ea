/** The per-thread span stack and its printer. A span's opening line is printed at once when system calls
    are traced (eager), otherwise not before its first child; a span without children is one leaf line. */
module Spans {
  import opened Text

  datatype Frame = Frame(func: string, args: string, depth: nat, hasChild: bool, enterPrinted: bool)

  datatype Line =
    | Open(depth: nat, func: string, args: string)
    | Close(depth: nat, ret: string)
    | Leaf(depth: nat, func: string, args: string, ret: string)

  /** The stack, the lines written so far and the depths sent to the tracer so far. */
  datatype SpanState = SpanState(stack: seq<Frame>, log: seq<Line>, published: seq<nat>)

  function ParentOpen(stack: seq<Frame>): seq<Line> {
    if stack == [] then []
    else
      var p := stack[|stack| - 1];
      if p.hasChild || p.enterPrinted then [] else [Open(p.depth, p.func, p.args)]
  }

  function MarkParent(stack: seq<Frame>): seq<Frame> {
    if stack == [] then []
    else
      var p := stack[|stack| - 1];
      if p.hasChild then stack else stack[|stack| - 1 := p.(hasChild := true, enterPrinted := true)]
  }

  function EnterSpan(s: SpanState, eager: bool, func: string, args: string): SpanState {
    var depth := |s.stack|;
    SpanState(MarkParent(s.stack) + [Frame(func, args, depth, false, eager)],
              s.log + ParentOpen(s.stack) + (if eager then [Open(depth, func, args)] else []),
              s.published + [depth + 1])
  }

  function ExitLines(f: Frame, eager: bool, ret: string): seq<Line> {
    if eager || f.hasChild then
      (if f.enterPrinted then [] else [Open(f.depth, f.func, f.args)]) + [Close(f.depth, ret)]
    else [Leaf(f.depth, f.func, f.args, ret)]
  }

  function ExitSpan(s: SpanState, eager: bool, ret: string): SpanState {
    if s.stack == [] then s
    else
      var top := |s.stack| - 1;
      SpanState(s.stack[..top], s.log + ExitLines(s.stack[top], eager, ret), s.published + [top])
  }

  /** Depth is position; every frame but the top has a child; a frame's opening line is out exactly when
      printing is eager or it has a child. */
  ghost predicate FramesOk(stack: seq<Frame>, eager: bool) {
    && (forall i :: 0 <= i < |stack| ==> stack[i].depth == i)
    && (forall i :: 0 <= i < |stack| ==> (stack[i].enterPrinted <==> eager || stack[i].hasChild))
    && (forall i :: 0 <= i < |stack| - 1 ==> stack[i].hasChild)
  }

  /** The stack as the hooks use it. */
  class SpanStack {
    const eager: bool
    var stack: seq<Frame>
    var log: seq<Line>
    var published: seq<nat>

    function View(): SpanState reads this { SpanState(stack, log, published) }

    constructor (eager: bool)
      ensures View() == SpanState([], [], []) && this.eager == eager
    {
      this.eager := eager;
      stack, log, published := [], [], [];
    }

    method Enter(func: string, args: string)
      modifies this
      ensures View() == EnterSpan(old(View()), eager, func, args)
      ensures FramesOk(old(stack), eager) ==> FramesOk(stack, eager)
    {
      var parentToOpen: seq<Line>, selfToOpen: seq<Line> := [], [];
      if |stack| > 0 {
        var parent := stack[|stack| - 1];
        if !parent.hasChild {
          parent := parent.(hasChild := true);
          if !parent.enterPrinted {
            parent := parent.(enterPrinted := true);
            parentToOpen := [Open(parent.depth, parent.func, parent.args)];
          }
          stack := stack[|stack| - 1 := parent];
        }
      }
      var depth := |stack|;
      if eager {
        selfToOpen := [Open(depth, func, args)];
      }
      stack := stack + [Frame(func, args, depth, false, eager)];
      published := published + [|stack|];
      log := log + parentToOpen;
      log := log + selfToOpen;
    }

    method Exit(ret: string)
      modifies this
      ensures View() == ExitSpan(old(View()), eager, ret)
      ensures FramesOk(old(stack), eager) ==> FramesOk(stack, eager)
    {
      if |stack| == 0 {
        return;
      }
      var frame := stack[|stack| - 1];
      stack := stack[..|stack| - 1];
      published := published + [|stack|];
      if eager || frame.hasChild {
        if !frame.enterPrinted {
          log := log + [Open(frame.depth, frame.func, frame.args)];
        }
        log := log + [Close(frame.depth, ret)];
      } else {
        log := log + [Leaf(frame.depth, frame.func, frame.args, ret)];
      }
    }
  }

  /** A span that is being closed never still has its opening line to print. */
  lemma LateOpenUnreachable(stack: seq<Frame>, eager: bool, ret: string)
    requires FramesOk(stack, eager) && stack != []
    ensures var f := stack[|stack| - 1];
      ExitLines(f, eager, ret) == [Close(|stack| - 1, ret)] || ExitLines(f, eager, ret) == [Leaf(|stack| - 1, f.func, f.args, ret)]
  {}

  datatype Node = Node(func: string, args: string, ret: string, children: seq<Node>)

  /** The log one expects for one call at the given depth. */
  function RenderNode(depth: nat, n: Node, eager: bool): seq<Line>
    decreases n
  {
    if eager || n.children != [] then [Open(depth, n.func, n.args)] + Render(depth + 1, n.children, eager) + [Close(depth, n.ret)]
    else [Leaf(depth, n.func, n.args, n.ret)]
  }

  function Render(depth: nat, forest: seq<Node>, eager: bool): seq<Line>
    decreases forest
  {
    if forest == [] then [] else RenderNode(depth, forest[0], eager) + Render(depth, forest[1..], eager)
  }

  function DepthsNode(depth: nat, n: Node): seq<nat>
    decreases n
  {
    [depth + 1] + Depths(depth + 1, n.children) + [depth]
  }

  function Depths(depth: nat, forest: seq<Node>): seq<nat>
    decreases forest
  {
    if forest == [] then [] else DepthsNode(depth, forest[0]) + Depths(depth, forest[1..])
  }

  /** The thread makes one call, or the calls of a forest one after the other. */
  function PerformNode(s: SpanState, eager: bool, n: Node): SpanState
    decreases n
  {
    ExitSpan(Perform(EnterSpan(s, eager, n.func, n.args), eager, n.children), eager, n.ret)
  }

  function Perform(s: SpanState, eager: bool, forest: seq<Node>): SpanState
    decreases forest
  {
    if forest == [] then s else Perform(PerformNode(s, eager, forest[0]), eager, forest[1..])
  }

  /** `r` is what `s` becomes when spans with the given lines and depths are entered and left in it. */
  ghost predicate Printed(s: SpanState, r: SpanState, lines: seq<Line>, depths: seq<nat>) {
    && r.stack == MarkParent(s.stack)
    && r.log == s.log + ParentOpen(s.stack) + lines
    && r.published == s.published + depths
  }

  /** Main result: from any stack that can arise, performing a forest prints its rendering (after the
      opening line the enclosing span may still owe) and gives the stack back. */
  lemma {:induction false} PerformRenders(s: SpanState, eager: bool, forest: seq<Node>)
    requires FramesOk(s.stack, eager)
    ensures var r := Perform(s, eager, forest);
      && (forest == [] ==> r == s)
      && (forest != [] ==> Printed(s, r, Render(|s.stack|, forest, eager), Depths(|s.stack|, forest)))
      && FramesOk(r.stack, eager)
    decreases forest
  {
    hide RenderNode, DepthsNode, PerformNode, FramesOk, Printed;
    if forest != [] {
      var n, rest := forest[0], forest[1..];
      var mid := PerformNode(s, eager, n);
      NodeRenders(s, eager, n);
      PerformRenders(mid, eager, rest);
      PrintedThen(s, mid, eager, n, rest, Perform(mid, eager, rest));
    }
  }

  lemma {:induction false} NodeRenders(s: SpanState, eager: bool, n: Node)
    requires FramesOk(s.stack, eager)
    ensures var r := PerformNode(s, eager, n);
      Printed(s, r, RenderNode(|s.stack|, n, eager), DepthsNode(|s.stack|, n)) && FramesOk(r.stack, eager)
    decreases n
  {
    hide Render, Depths, Perform, EnterSpan, ExitSpan, FramesOk, Printed, RenderNode, DepthsNode;
    var s1 := EnterSpan(s, eager, n.func, n.args);
    EnterKeepsFrames(s, eager, n.func, n.args);
    PerformRenders(s1, eager, n.children);
    SpanCloses(s, eager, n, Perform(s1, eager, n.children));
  }

  lemma EnterKeepsFrames(s: SpanState, eager: bool, func: string, args: string)
    requires FramesOk(s.stack, eager)
    ensures FramesOk(EnterSpan(s, eager, func, args).stack, eager)
  {}

  /** Closing a span around children that printed. */
  lemma SpanCloses(s: SpanState, eager: bool, n: Node, inner: SpanState)
    requires FramesOk(s.stack, eager)
    requires var s1 := EnterSpan(s, eager, n.func, n.args); var d := |s1.stack|;
      if n.children == [] then inner == s1 else Printed(s1, inner, Render(d, n.children, eager), Depths(d, n.children))
    ensures var r := ExitSpan(inner, eager, n.ret);
      Printed(s, r, RenderNode(|s.stack|, n, eager), DepthsNode(|s.stack|, n)) && FramesOk(r.stack, eager)
  {
    hide Render, Depths;
    var s1, r, d := EnterSpan(s, eager, n.func, n.args), ExitSpan(inner, eager, n.ret), |s.stack|;
    assert |s1.stack| == d + 1 && s1.stack[..d] == MarkParent(s.stack);
    assert r.stack == MarkParent(s.stack);
    var base := s.log + ParentOpen(s.stack);
    if n.children == [] {
      NothingRendered(d + 1, eager);
      assert r.published == s.published + ([d + 1] + [] + [d]);
      if eager {
        assert r.log == base + ([Open(d, n.func, n.args)] + [] + [Close(d, n.ret)]);
      } else {
        assert s1.log == base;
        assert r.log == base + [Leaf(d, n.func, n.args, n.ret)];
      }
    } else {
      var lines, depths := Render(d + 1, n.children, eager), Depths(d + 1, n.children);
      assert r.published == s.published + ([d + 1] + depths + [d]);
      if eager {
        assert r.log == base + ([Open(d, n.func, n.args)] + lines + [Close(d, n.ret)]);
      } else {
        assert s1.log == base;
        assert r.log == base + ([Open(d, n.func, n.args)] + lines + [Close(d, n.ret)]);
      }
    }
  }

  lemma NothingRendered(depth: nat, eager: bool)
    ensures Render(depth, [], eager) == [] && Depths(depth, []) == []
  {}

  lemma PrintedThen(s: SpanState, mid: SpanState, eager: bool, n: Node, rest: seq<Node>, r: SpanState)
    requires Printed(s, mid, RenderNode(|s.stack|, n, eager), DepthsNode(|s.stack|, n))
    requires if rest == [] then r == mid else Printed(mid, r, Render(|mid.stack|, rest, eager), Depths(|mid.stack|, rest))
    ensures Printed(s, r, RenderNode(|s.stack|, n, eager) + Render(|s.stack|, rest, eager), DepthsNode(|s.stack|, n) + Depths(|s.stack|, rest))
  {
    hide RenderNode, DepthsNode, Render, Depths;
    assert |mid.stack| == |s.stack| && ParentOpen(mid.stack) == [] && MarkParent(mid.stack) == mid.stack;
    if rest == [] {
      NothingRendered(|s.stack|, eager);
    } else {
      var lines, more := RenderNode(|s.stack|, n, eager), Render(|s.stack|, rest, eager);
      assert s.log + ParentOpen(s.stack) + lines + [] + more == s.log + ParentOpen(s.stack) + (lines + more);
    }
  }

  /** A thread's complete file renders its calls. */
  lemma FileRendersCalls(eager: bool, forest: seq<Node>)
    ensures Perform(SpanState([], [], []), eager, forest) == SpanState([], Render(0, forest, eager), Depths(0, forest))
  {
    PerformRenders(SpanState([], [], []), eager, forest);
  }

  /** Reading a log back: the forest at the front, and what follows it. */
  function Parse(lines: seq<Line>): (r: (seq<Node>, seq<Line>))
    ensures |r.1| <= |lines|
    decreases |lines|
  {
    if lines == [] || lines[0].Close? then ([], lines)
    else if lines[0].Leaf? then
      var (rest, tail) := Parse(lines[1..]);
      ([Node(lines[0].func, lines[0].args, lines[0].ret, [])] + rest, tail)
    else
      var (children, after) := Parse(lines[1..]);
      if after == [] || !after[0].Close? then ([], lines)
      else
        var (rest, tail) := Parse(after[1..]);
        ([Node(lines[0].func, lines[0].args, after[0].ret, children)] + rest, tail)
  }

  /** Both renderings can be read back, whatever line closes the enclosing span. */
  lemma {:induction false} ParseInvertsRender(depth: nat, forest: seq<Node>, eager: bool, tail: seq<Line>)
    requires tail == [] || tail[0].Close?
    ensures Parse(Render(depth, forest, eager) + tail) == (forest, tail)
    decreases forest, 0
  {
    hide RenderNode, Parse;
    if forest == [] {
      ParseStops(tail);
      assert [] + tail == tail;
    } else {
      var n, rest := forest[0], forest[1..];
      var follow := Render(depth, rest, eager) + tail;
      ParseInvertsRender(depth, rest, eager, tail);
      ParseInvertsNode(depth, n, eager, follow);
      assert Render(depth, forest, eager) + tail == RenderNode(depth, n, eager) + follow;
      assert forest == [n] + rest;
    }
  }

  lemma ParseStops(tail: seq<Line>)
    requires tail == [] || tail[0].Close?
    ensures Parse(tail) == ([], tail)
  {}

  lemma {:induction false} ParseInvertsNode(depth: nat, n: Node, eager: bool, follow: seq<Line>)
    ensures Parse(RenderNode(depth, n, eager) + follow) == ([n] + Parse(follow).0, Parse(follow).1)
    decreases n, 1
  {
    hide Render;
    var lines := RenderNode(depth, n, eager) + follow;
    if eager || n.children != [] {
      var closing := [Close(depth, n.ret)] + follow;
      var inner := Render(depth + 1, n.children, eager);
      ParseInvertsRender(depth + 1, n.children, eager, closing);
      assert lines == [Open(depth, n.func, n.args)] + (inner + closing);
      assert lines[1..] == inner + closing;
      assert closing[1..] == follow;
    } else {
      assert lines[1..] == follow;
    }
  }

  function Expand(lines: seq<Line>): seq<Line> {
    if lines == [] then []
    else
      (match lines[0] case Leaf(d, f, a, r) => [Open(d, f, a), Close(d, r)] case _ => [lines[0]]) + Expand(lines[1..])
  }

  lemma {:induction false} ExpandConcat(a: seq<Line>, b: seq<Line>)
    ensures Expand(a + b) == Expand(a) + Expand(b)
  {
    if a == [] {
      assert a + b == b;
    } else {
      assert (a + b)[1..] == a[1..] + b;
      ExpandConcat(a[1..], b);
    }
  }

  /** Writing every leaf line out as an opening and a closing line turns lazy output into eager output. */
  lemma {:induction false} LazyExpandsToEager(depth: nat, forest: seq<Node>)
    ensures Expand(Render(depth, forest, false)) == Render(depth, forest, true)
    decreases forest, 0
  {
    hide RenderNode;
    if forest != [] {
      LazyExpandsToEagerNode(depth, forest[0]);
      LazyExpandsToEager(depth, forest[1..]);
      ExpandConcat(RenderNode(depth, forest[0], false), Render(depth, forest[1..], false));
    }
  }

  lemma {:induction false} LazyExpandsToEagerNode(depth: nat, n: Node)
    ensures Expand(RenderNode(depth, n, false)) == RenderNode(depth, n, true)
    decreases n, 1
  {
    var open, close := [Open(depth, n.func, n.args)], [Close(depth, n.ret)];
    if n.children != [] {
      var inner := Render(depth + 1, n.children, false);
      LazyExpandsToEager(depth + 1, n.children);
      ExpandConcat(open + inner, close);
      ExpandConcat(open, inner);
      assert Expand(open) == open && Expand(close) == close;
    } else {
      var leaf := [Leaf(depth, n.func, n.args, n.ret)];
      assert Expand(leaf) == open + close;
      assert open + [] + close == open + close;
    }
  }

  /** The text of a line; `elapsed` is the measured time with its unit. */
  function Format(line: Line, elapsed: string): string {
    match line
    case Open(d, f, a) => Tabs(d) + f + "(" + a + ") {"
    case Close(d, r) => Tabs(d) + "} = " + r + "  /* " + elapsed + " */"
    case Leaf(d, f, a, r) => Tabs(d) + f + "(" + a + ") = " + r + "  /* " + elapsed + " */"
  }

  function LeadingTabs(text: string): nat { if text != [] && text[0] == '\t' then 1 + LeadingTabs(text[1..]) else 0 }

  lemma {:induction false} LeadingTabsOf(n: nat, rest: string)
    requires rest == [] || rest[0] != '\t'
    ensures LeadingTabs(Tabs(n) + rest) == n
  {
    if n > 0 {
      assert (Tabs(n) + rest)[1..] == Tabs(n - 1) + rest;
      LeadingTabsOf(n - 1, rest);
    }
  }

  /** Depth and kind can be read off the text, whatever the arguments and results contain: the indentation
      is the depth, a closing line starts with a brace and only an opening line ends with one. */
  lemma TextShowsShape(line: Line, elapsed: string)
    requires !line.Close? ==> line.func != "" && line.func[0] != '\t' && line.func[0] != '}'
    ensures var text := Format(line, elapsed);
      && LeadingTabs(text) == line.depth < |text|
      && (text[line.depth] == '}' <==> line.Close?)
      && (text[|text| - 1] == '{' <==> line.Open?)
  {
    hide Tabs, LeadingTabs;
    match line
    case Open(d, f, a) => IndentedText(d, f + "(" + a, ") {", Format(line, elapsed));
    case Close(d, r) => IndentedText(d, "} = " + r + "  /* " + elapsed, " */", Format(line, elapsed));
    case Leaf(d, f, a, r) => IndentedText(d, f + "(" + a + ") = " + r + "  /* " + elapsed, " */", Format(line, elapsed));
  }

  lemma IndentedText(n: nat, head: string, end: string, text: string)
    requires head != "" && head[0] != '\t' && end != "" && text == Tabs(n) + head + end
    ensures LeadingTabs(text) == n < |text| && text[n] == head[0] && text[|text| - 1] == end[|end| - 1]
  {
    assert text == Tabs(n) + (head + end);
    LeadingTabsOf(n, head + end);
  }

  lemma Assoc(a: string, b: string, c: string)
    ensures a + b + c == a + (b + c)
  {}

  lemma PartOccurs(a: string, part: string, b: string)
    ensures OccursAt(a + part + b, part, |a|)
  {}

  /** The pieces of a text in a row: the first three and what follows. */
  lemma ThreeOccur(lead: string, a: string, b: string, c: string, tail: string)
    ensures var text := lead + a + b + c + tail;
      OccursAt(text, a, |lead|) && OccursAt(text, b, |lead| + |a|) && OccursAt(text, c, |lead| + |a| + |b|)
  {
    hide OccursAt;
    PartOccurs(lead + a + b, c, tail);
    PartOccurs(lead + a, b, c + tail);
    Assoc(lead + a + b, c, tail);
    PartOccurs(lead, a, b + (c + tail));
    Assoc(lead + a, b, c + tail);
  }

  /** Function, arguments and result stand in the text at their places, behind the indentation and in this order. */
  lemma TextShowsContent(line: Line, elapsed: string)
    ensures var text, d := Format(line, elapsed), line.depth;
      match line
      case Open(_, f, a) => OccursAt(text, f, d) && OccursAt(text, "(", d + |f|) && OccursAt(text, a, d + |f| + 1)
      case Close(_, r) => OccursAt(text, "} = ", d) && OccursAt(text, r, d + 4) && OccursAt(text, "  /* " + elapsed + " */", d + 4 + |r|)
      case Leaf(_, f, a, r) =>
        && OccursAt(text, f, d) && OccursAt(text, "(", d + |f|) && OccursAt(text, a, d + |f| + 1)
        && OccursAt(text, ") = ", d + |f| + 1 + |a|) && OccursAt(text, r, d + |f| + 1 + |a| + 4)
        && OccursAt(text, "  /* " + elapsed + " */", d + |f| + 1 + |a| + 4 + |r|)
  {
    hide OccursAt, Tabs;
    match line
    case Open(d, f, a) => ThreeOccur(Tabs(d), f, "(", a, ") {");
    case Close(d, r) => CloseShows(Tabs(d), r, elapsed);
    case Leaf(d, f, a, r) => LeafShows(Tabs(d), f, a, r, elapsed);
  }

  lemma CloseShows(head: string, r: string, elapsed: string)
    ensures var text := head + "} = " + r + "  /* " + elapsed + " */";
      OccursAt(text, "} = ", |head|) && OccursAt(text, r, |head| + 4) && OccursAt(text, "  /* " + elapsed + " */", |head| + 4 + |r|)
  {
    hide OccursAt;
    TimeJoins(head + "} = " + r, elapsed);
    ThreeOccur(head, "} = ", r, "  /* " + elapsed + " */", "");
    EmptyTail(head + "} = " + r + ("  /* " + elapsed + " */"));
  }

  lemma EmptyTail(s: string)
    ensures s + "" == s
  {}

  lemma TimeJoins(head: string, elapsed: string)
    ensures head + "  /* " + elapsed + " */" == head + ("  /* " + elapsed + " */")
  {
    Assoc(head + "  /* ", elapsed, " */");
    Assoc(head, "  /* ", elapsed + " */");
    Assoc("  /* ", elapsed, " */");
  }

  lemma LeafShows(tabs: string, f: string, a: string, r: string, elapsed: string)
    ensures var text := tabs + f + "(" + a + ") = " + r + "  /* " + elapsed + " */"; var d := |tabs| + |f| + 1 + |a|;
      && OccursAt(text, f, |tabs|) && OccursAt(text, "(", |tabs| + |f|) && OccursAt(text, a, |tabs| + |f| + 1)
      && OccursAt(text, ") = ", d) && OccursAt(text, r, d + 4) && OccursAt(text, "  /* " + elapsed + " */", d + 4 + |r|)
  {
    hide OccursAt;
    var time := "  /* " + elapsed + " */";
    var head := tabs + f + "(" + a;
    TimeJoins(head + ") = " + r, elapsed);
    ThreeOccur(head, ") = ", r, time, "");
    EmptyTail(head + ") = " + r + time);
    Assoc(head + ") = ", r, time);
    Assoc(head, ") = ", r + time);
    ThreeOccur(tabs, f, "(", a, ") = " + (r + time));
  }
}
