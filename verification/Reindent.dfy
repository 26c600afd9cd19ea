/** Re-indenting function-graph text by its braces. */
module Reindent {
  import opened Common
  import opened Text

  const DASHES: string := "------------------------------------------"

  /** Position of the first line feed, or |s|. */
  function LineEnd(s: string): (n: nat)
    ensures n <= |s| && (n < |s| ==> s[n] == '\n')
  {
    if s == "" || s[0] == '\n' then 0 else 1 + LineEnd(s[1..])
  }

  function DropCr(line: string): string {
    if line != "" && line[|line| - 1] == '\r' then line[..|line| - 1] else line
  }

  /** The lines of a text; a carriage return before a line feed belongs to the line's end. */
  function Lines(s: string): seq<string>
    decreases |s|
  {
    if s == "" then []
    else
      var n := LineEnd(s);
      if n == |s| then [s] else [DropCr(s[..n])] + Lines(s[n + 1..])
  }

  function AfterBar(line: string): string
    requires '|' in line
  {
    if line[0] == '|' then line[1..] else AfterBar(line[1..])
  }

  /** The part of a line that is kept, if any. */
  function Body(line: string): Option<string> {
    var trimmed := TrimStart(line);
    if "#" <= trimmed || DASHES <= trimmed || Contains(line, "=>") then None
    else
      var body := if '|' in line then Trim(AfterBar(line)) else Trim(trimmed);
      if body == "" then None else Some(body)
  }

  /** The mark is the first thing on the line, white space aside. */
  ghost predicate StartsWith(line: string, mark: string) { exists k: nat :: OccursAt(line, mark, k) && AllSpace(line[..k]) }

  /** Comment lines, separator lines and lines with an arrow are dropped. */
  ghost predicate Dropped(line: string) {
    StartsWith(line, "#") || StartsWith(line, DASHES) || exists k: nat :: OccursAt(line, "=>", k)
  }

  ghost predicate FirstBar(line: string, k: nat) { OccursAt(line, "|", k) && '|' !in line[..k] }

  /** What is kept of a line, if it is not dropped: what stands alone behind its first bar, or on the whole line if it
      has no bar. */
  ghost predicate Keeps(line: string, body: string) {
    && !Dropped(line) && body != "" && IsTrimmed(body)
    && ((exists k: nat :: FirstBar(line, k) && StandsAlone(line[k + 1..], body)) || ('|' !in line && StandsAlone(line, body)))
  }

  ghost predicate StandsAlone(s: string, body: string) { exists i: nat :: Alone(s, body, i) }

  lemma StartsWithIff(line: string, mark: string)
    requires mark != "" && !IsSpace(mark[0])
    ensures mark <= TrimStart(line) <==> StartsWith(line, mark)
  {
    hide TrimStart;
    if mark <= TrimStart(line) {
      TrimStartTrims(line);
      TrimStartBlank(line);
      assert OccursAt(line, mark, |line| - |TrimStart(line)|);
    }
    forall k: nat | OccursAt(line, mark, k) && AllSpace(line[..k])
      ensures mark <= TrimStart(line)
    {
      assert line[k] == mark[0];
      TrimStartAt(line, k);
    }
  }

  lemma {:induction false} AfterFirstBar(line: string) returns (k: nat)
    requires '|' in line
    ensures FirstBar(line, k) && AfterBar(line) == line[k + 1..]
  {
    k := 0;
    if line[0] != '|' {
      k := AfterFirstBar(line[1..]);
      assert line[1..][k..k + 1] == line[k + 1..k + 2];
      assert line[..k + 1] == [line[0]] + line[1..][..k];
      k := k + 1;
    }
  }

  lemma NoBarBefore(line: string, a: nat, b: nat)
    requires FirstBar(line, a) && FirstBar(line, b)
    ensures a >= b
  {
    assert line[a..a + 1][0] == line[a];
    assert forall i :: 0 <= i < b ==> line[..b][i] == line[i];
  }

  lemma FirstBarIsIn(line: string, k: nat)
    requires FirstBar(line, k)
    ensures '|' in line
  {
    assert line[k..k + 1][0] == line[k];
  }

  lemma DroppedIff(line: string)
    ensures "#" <= TrimStart(line) || DASHES <= TrimStart(line) || Contains(line, "=>") <==> Dropped(line)
  {
    hide TrimStart, Contains, StartsWith;
    StartsWithIff(line, "#");
    StartsWithIff(line, DASHES);
    ContainsIff(line, "=>");
  }

  /** Main result on single lines: which lines are dropped and what is kept of the others. */
  lemma BodyIff(line: string, body: string)
    ensures Body(line) == Some(body) <==> Keeps(line, body)
  {
    hide TrimStart, Trim, Contains, AfterBar, Dropped, Alone, FirstBar;
    DroppedIff(line);
    TrimOfStart(line);
    if body != "" && IsTrimmed(body) {
      if '|' in line {
        var k := AfterFirstBar(line);
        TrimIff(line[k + 1..], body);
        forall j: nat | FirstBar(line, j)
          ensures j == k
        {
          NoBarBefore(line, j, k);
          NoBarBefore(line, k, j);
        }
      } else {
        TrimIff(line, body);
        forall j: nat
          ensures !FirstBar(line, j)
        {
          if FirstBar(line, j) {
            FirstBarIsIn(line, j);
          }
        }
      }
    } else if Body(line).Some? {
      TrimTrims(line);
      if '|' in line {
        TrimTrims(AfterBar(line));
      }
    }
  }

  function Bodies(lines: seq<string>): seq<string>
    decreases |lines|
  {
    if lines == [] then []
    else Bodies(lines[..|lines| - 1]) + match Body(lines[|lines| - 1]) { case None => [] case Some(b) => [b] }
  }

  predicate Closes(body: string) { body != "" && body[0] == '}' }
  predicate Opens(body: string) { body != "" && body[|body| - 1] == '{' }

  /** Indentation in force after the bodies; it never goes below zero. */
  function Depth(bodies: seq<string>): nat
    decreases |bodies|, 0
  {
    if bodies == [] then 0
    else IndentOf(bodies[..|bodies| - 1], bodies[|bodies| - 1]) + if Opens(bodies[|bodies| - 1]) then 1 else 0
  }

  /** Indentation of the body `b` after `before`. */
  function IndentOf(before: seq<string>, b: string): nat
    decreases |before|, 1
  {
    if Closes(b) then SaturatingSub(Depth(before)) else Depth(before)
  }

  function Layout(bodies: seq<string>): string
    decreases |bodies|
  {
    if bodies == [] then ""
    else
      var last := |bodies| - 1;
      Layout(bodies[..last]) + Tabs(IndentOf(bodies[..last], bodies[last])) + bodies[last] + "\n"
  }

  /** The function as a whole: a text with nothing to keep is returned as it is. */
  function Sanitize(graph: string): string {
    var bodies := Bodies(Lines(graph));
    if bodies == [] then graph else Layout(bodies)
  }

  /** How the source finds the bar: index, then the text behind it, then one blank less. */
  method BodyOf(line: string) returns (body: Option<string>)
    ensures body == Body(line)
    ensures match body case Some(b) => Keeps(line, b) case None => forall b :: !Keeps(line, b)
  {
    forall b
      ensures Body(line) == Some(b) <==> Keeps(line, b)
    {
      BodyIff(line, b);
    }
    hide Keeps;
    var trimmed := TrimStart(line);
    if "#" <= trimmed || DASHES <= trimmed || Contains(line, "=>") {
      return None;
    }
    var text;
    if '|' in line {
      text := AfterBar(line);
      if text != "" && text[0] == ' ' {
        OneBlankLess(text);
        text := text[1..];
      }
      text := Trim(text);
    } else {
      text := Trim(trimmed);
    }
    body := if text == "" then None else Some(text);
  }

  lemma OneBlankLess(text: string)
    requires text != "" && text[0] == ' '
    ensures Trim(text[1..]) == Trim(text)
  {}

  method SanitizeFgraphTraceOutput(graph: string) returns (out: string)
    ensures out == Sanitize(graph)
  {
    hide Body, Lines, IndentOf;
    var lines := Lines(graph);
    out := "";
    var depth: nat := 0;
    ghost var bodies: seq<string> := [];
    var i := 0;
    while i < |lines|
      invariant 0 <= i <= |lines|
      invariant bodies == Bodies(lines[..i]) && out == Layout(bodies) && depth == Depth(bodies)
      invariant bodies == [] <==> out == ""
    {
      assert lines[..i + 1][..i] == lines[..i];
      var kept := BodyOf(lines[i]);
      i := i + 1;
      if kept == None {
        continue;
      }
      var body := kept.value;
      NextBody(bodies, body);
      if Closes(body) {
        depth := SaturatingSub(depth);
      }
      out := out + Tabs(depth);
      out := out + body;
      out := out + "\n";
      if Opens(body) {
        depth := depth + 1;
      }
      bodies := bodies + [body];
    }
    assert lines[..i] == lines;
    if out == "" {
      out := graph;
    }
  }

  lemma NextBody(bodies: seq<string>, b: string)
    ensures IndentOf(bodies, b) == if Closes(b) then SaturatingSub(Depth(bodies)) else Depth(bodies)
    ensures Depth(bodies + [b]) == IndentOf(bodies, b) + if Opens(b) then 1 else 0
    ensures Layout(bodies + [b]) == Layout(bodies) + Tabs(IndentOf(bodies, b)) + b + "\n"
  {
    assert (bodies + [b])[..|bodies|] == bodies;
  }

  /** Braces opened minus braces closed. */
  function Balance(bodies: seq<string>): int
    decreases |bodies|
  {
    if bodies == [] then 0
    else
      var b := bodies[|bodies| - 1];
      Balance(bodies[..|bodies| - 1]) - (if Closes(b) then 1 else 0) + if Opens(b) then 1 else 0
  }

  /** The lowest balance met, zero included, looking right after each closing brace. */
  function Lowest(bodies: seq<string>): int
    decreases |bodies|
  {
    if bodies == [] then 0
    else
      var init, b := bodies[..|bodies| - 1], bodies[|bodies| - 1];
      Min(Lowest(init), Balance(init) - if Closes(b) then 1 else 0)
  }

  /** The running indentation is the balance measured from its lowest point: closing braces without an
      opening one do not push later lines to the left. */
  lemma {:induction false} DepthIsBalanceAboveLowest(bodies: seq<string>)
    ensures Depth(bodies) == Balance(bodies) - Lowest(bodies)
    decreases |bodies|
  {
    if bodies != [] {
      DepthIsBalanceAboveLowest(bodies[..|bodies| - 1]);
    }
  }

  /** A properly nested trace: plain lines and blocks. */
  datatype Item = Plain(body: string) | Block(open: string, items: seq<Item>, close: string)

  ghost predicate WellFormed(items: seq<Item>)
    decreases items
  {
    items == [] || (WellFormedItem(items[0]) && WellFormed(items[1..]))
  }

  predicate FirstIs(s: string, c: char) { s != "" && s[0] == c }
  predicate LastIs(s: string, c: char) { s != "" && s[|s| - 1] == c }

  ghost predicate WellFormedItem(item: Item)
    decreases item
  {
    match item
    case Plain(b) => !LastIs(b, '{') && !FirstIs(b, '}')
    case Block(o, inner, c) => LastIs(o, '{') && !FirstIs(o, '}') && FirstIs(c, '}') && !LastIs(c, '{') && WellFormed(inner)
  }

  function Flat(items: seq<Item>): seq<string>
    decreases items
  {
    if items == [] then [] else FlatItem(items[0]) + Flat(items[1..])
  }

  function FlatItem(item: Item): seq<string>
    decreases item
  {
    match item case Plain(b) => [b] case Block(o, inner, c) => [o] + Flat(inner) + [c]
  }

  /** The text one expects: a block's braces at the block's depth, its contents one deeper. */
  function Pretty(items: seq<Item>, depth: nat): string
    decreases items
  {
    if items == [] then "" else PrettyItem(items[0], depth) + Pretty(items[1..], depth)
  }

  function PrettyItem(item: Item, depth: nat): string
    decreases item
  {
    match item
    case Plain(b) => Row(depth, b)
    case Block(o, inner, c) => Row(depth, o) + Pretty(inner, depth + 1) + Row(depth, c)
  }

  function Row(depth: nat, body: string): string { Tabs(depth) + body + "\n" }

  /** Main result: on a nested trace each closing brace has its opener's indentation and everything between
      them is indented one deeper. */
  lemma {:induction false} NestedTraceIsPretty(before: seq<string>, items: seq<Item>)
    requires WellFormed(items)
    ensures Layout(before + Flat(items)) == Layout(before) + Pretty(items, Depth(before))
    ensures Depth(before + Flat(items)) == Depth(before)
    decreases items
  {
    hide Layout, Depth, FlatItem, PrettyItem;
    if items == [] {
      assert before + [] == before;
    } else {
      NestedItemIsPretty(before, items[0]);
      NestedTraceIsPretty(before + FlatItem(items[0]), items[1..]);
      assert before + FlatItem(items[0]) + Flat(items[1..]) == before + Flat(items);
    }
  }

  lemma {:induction false} NestedItemIsPretty(before: seq<string>, item: Item)
    requires WellFormedItem(item)
    ensures Layout(before + FlatItem(item)) == Layout(before) + PrettyItem(item, Depth(before))
    ensures Depth(before + FlatItem(item)) == Depth(before)
    decreases item
  {
    hide Layout, Depth, Flat, Pretty;
    match item
    case Plain(b) => NextBody(before, b);
    case Block(o, inner, c) =>
      NextBody(before, o);
      NestedTraceIsPretty(before + [o], inner);
      NextBody(before + [o] + Flat(inner), c);
      assert before + [o] + Flat(inner) + [c] == before + FlatItem(item);
      var d := Depth(before);
      assert Layout(before) + Row(d, o) + Pretty(inner, d + 1) + Row(d, c) == Layout(before) + PrettyItem(item, d);
  }

  /** A trace read up to some point: the blocks still open, outermost first, each with what came before it and its
      opening line, and the items read since. */
  datatype Partial = Partial(blocks: seq<(seq<Item>, string)>, items: seq<Item>)

  function Read(bodies: seq<string>): Partial
    decreases |bodies|
  {
    if bodies == [] then Partial([], [])
    else ReadOne(Read(bodies[..|bodies| - 1]), bodies[|bodies| - 1])
  }

  function ReadOne(p: Partial, b: string): Partial {
    if Opens(b) then Partial(p.blocks + [(p.items, b)], [])
    else if Closes(b) && p.blocks != [] then
      var (before, open) := p.blocks[|p.blocks| - 1];
      Partial(p.blocks[..|p.blocks| - 1], before + [Block(open, p.items, b)])
    else Partial(p.blocks, p.items + [Plain(b)])
  }

  /** The bodies read so far. */
  function Written(p: Partial): seq<string>
    decreases |p.blocks|
  {
    if p.blocks == [] then Flat(p.items)
    else
      var (before, open) := p.blocks[|p.blocks| - 1];
      Written(Partial(p.blocks[..|p.blocks| - 1], before)) + [open] + Flat(p.items)
  }

  ghost predicate WellRead(p: Partial) {
    WellFormed(p.items)
    && forall i :: 0 <= i < |p.blocks| ==> WellFormed(p.blocks[i].0) && Opens(p.blocks[i].1) && !Closes(p.blocks[i].1)
  }

  lemma {:induction false} ItemsAppend(items: seq<Item>, last: Item)
    ensures Flat(items + [last]) == Flat(items) + FlatItem(last)
    ensures WellFormed(items + [last]) <==> WellFormed(items) && WellFormedItem(last)
    decreases items
  {
    hide FlatItem, WellFormedItem;
    if items == [] {
      assert [] + [last] == [last] && [last][1..] == [];
      assert Flat([last]) == FlatItem(last) + Flat([]);
    } else {
      assert (items + [last])[1..] == items[1..] + [last];
      ItemsAppend(items[1..], last);
      assert FlatItem(items[0]) + (Flat(items[1..]) + FlatItem(last)) == FlatItem(items[0]) + Flat(items[1..]) + FlatItem(last);
    }
  }

  /** Reading one more body writes it behind what was read, as long as no brace closes a block that is not open. */
  lemma ReadOneWrites(p: Partial, b: string)
    requires WellRead(p) && !(Opens(b) && Closes(b)) && (Closes(b) ==> p.blocks != [])
    ensures var r := ReadOne(p, b);
      && WellRead(r) && Written(r) == Written(p) + [b]
      && |r.blocks| == |p.blocks| - (if Closes(b) then 1 else 0) + if Opens(b) then 1 else 0
  {
    hide Opens, Closes;
    if Opens(b) {
      NothingFlat();
      var r := ReadOne(p, b);
      assert r.blocks[..|p.blocks|] == p.blocks;
      assert Written(r) == Written(Partial(p.blocks, p.items)) + [b] + Flat([]);
    } else if Closes(b) {
      var (before, open) := p.blocks[|p.blocks| - 1];
      BlockCloses(p.blocks[..|p.blocks| - 1], before, open, p.items, b);
      BlockWellFormed(open, p.items, b);
      ItemsAppend(before, Block(open, p.items, b));
    } else {
      PlainWritten(p, b);
      PlainWellFormed(b);
      ItemsAppend(p.items, Plain(b));
    }
  }

  lemma NothingFlat()
    ensures Flat([]) == [] && WellFormed([])
  {}

  lemma BlockWellFormed(open: string, items: seq<Item>, close: string)
    requires Opens(open) && !Closes(open) && Closes(close) && !Opens(close) && WellFormed(items)
    ensures WellFormedItem(Block(open, items, close))
  {}

  lemma PlainWellFormed(b: string)
    requires !Opens(b) && !Closes(b)
    ensures WellFormedItem(Plain(b))
  {}

  lemma FlatBlock(open: string, items: seq<Item>, close: string)
    ensures FlatItem(Block(open, items, close)) == [open] + Flat(items) + [close] && FlatItem(Plain(close)) == [close]
  {}

  /** More items behind what was read. */
  lemma WrittenAppend(blocks: seq<(seq<Item>, string)>, items: seq<Item>, last: Item)
    ensures Written(Partial(blocks, items + [last])) == Written(Partial(blocks, items)) + FlatItem(last)
  {
    hide Flat, FlatItem;
    ItemsAppend(items, last);
    if blocks != [] {
      var (before, open) := blocks[|blocks| - 1];
      var front := Written(Partial(blocks[..|blocks| - 1], before)) + [open];
      assert front + (Flat(items) + FlatItem(last)) == front + Flat(items) + FlatItem(last);
    }
  }

  lemma BlockCloses(blocks: seq<(seq<Item>, string)>, before: seq<Item>, open: string, items: seq<Item>, close: string)
    ensures Written(Partial(blocks, before + [Block(open, items, close)])) == Written(Partial(blocks + [(before, open)], items)) + [close]
  {
    hide Flat, FlatItem;
    WrittenAppend(blocks, before, Block(open, items, close));
    FlatBlock(open, items, close);
    assert (blocks + [(before, open)])[..|blocks|] == blocks;
    var front := Written(Partial(blocks, before));
    assert front + ([open] + Flat(items) + [close]) == front + [open] + Flat(items) + [close];
  }

  lemma PlainWritten(p: Partial, b: string)
    ensures Written(Partial(p.blocks, p.items + [Plain(b)])) == Written(p) + [b]
  {
    hide Flat, FlatItem, Written;
    WrittenAppend(p.blocks, p.items, Plain(b));
    FlatBlock("", [], b);
  }

  /** A trace all of whose closing braces close a block. */
  lemma {:induction false} ReadsAll(bodies: seq<string>)
    requires Lowest(bodies) == 0 && forall i :: 0 <= i < |bodies| ==> !(Opens(bodies[i]) && Closes(bodies[i]))
    ensures WellRead(Read(bodies)) && Written(Read(bodies)) == bodies && |Read(bodies).blocks| == Balance(bodies)
    decreases |bodies|
  {
    hide Opens, Closes, ReadOne, Written, WellRead;
    if bodies == [] {
      NothingRead();
    } else {
      var init, b := bodies[..|bodies| - 1], bodies[|bodies| - 1];
      LowestOfPrefix(bodies);
      ReadsAll(init);
      ReadOneWrites(Read(init), b);
      assert bodies == init + [b];
    }
  }

  lemma NothingRead()
    ensures WellRead(Read([])) && Written(Read([])) == []
  {}

  lemma LowestOfPrefix(bodies: seq<string>)
    requires bodies != [] && Lowest(bodies) == 0
    ensures Lowest(bodies[..|bodies| - 1]) == 0
    ensures Closes(bodies[|bodies| - 1]) ==> Balance(bodies[..|bodies| - 1]) > 0
  {
    hide Balance, Closes;
    LowestIsLow(bodies[..|bodies| - 1]);
  }

  lemma {:induction false} LowestIsLow(bodies: seq<string>)
    ensures Lowest(bodies) <= 0
    decreases |bodies|
  {
    hide Balance, Closes;
    if bodies != [] {
      LowestIsLow(bodies[..|bodies| - 1]);
    }
  }

  /** Main result on balanced traces: if every closing brace closes a block and every block is closed, the trace is
      nested and its layout is the pretty one. */
  lemma BalancedTraceIsPretty(bodies: seq<string>)
    requires Balance(bodies) == 0 && Lowest(bodies) == 0
    requires forall i :: 0 <= i < |bodies| ==> !(Opens(bodies[i]) && Closes(bodies[i]))
    ensures var items := Read(bodies).items;
      WellFormed(items) && Flat(items) == bodies && Layout(bodies) == Pretty(items, 0)
  {
    hide Balance, Lowest, Read, Flat, Layout, Pretty, WellFormed;
    ReadsAll(bodies);
    var items := Read(bodies).items;
    NestedTraceIsPretty([], items);
    assert [] + Flat(items) == Flat(items);
    NothingLaidOut();
    assert "" + Pretty(items, 0) == Pretty(items, 0);
  }

  lemma NothingLaidOut()
    ensures Layout([]) == "" && Depth([]) == 0
  {}

  /** A body as it comes out of a line: trimmed, not empty, without arrow or line feed. */
  ghost predicate IsBody(b: string) { b != "" && IsTrimmed(b) && !Contains(b, "=>") && '\n' !in b }

  /** A body that looks the same when it is read again. */
  ghost predicate IsStable(b: string) { IsBody(b) && '|' !in b && !("#" <= b) && !(DASHES <= b) }

  lemma {:induction false} AfterBarIsSuffix(line: string)
    requires '|' in line
    ensures |AfterBar(line)| < |line| && AfterBar(line) == line[|line| - |AfterBar(line)|..]
  {
    if line[0] != '|' {
      AfterBarIsSuffix(line[1..]);
    }
  }

  /** What is inside a trimmed text was inside the text. */
  lemma TrimInside(s: string, part: string)
    requires !Contains(s, part)
    ensures !Contains(Trim(s), part)
  {
    hide Contains, Trim;
    var mid := TrimStart(s);
    TrimStartTrims(s);
    TrimEndKeepsStart(mid);
    var body := TrimEnd(mid);
    TrimIsEndOfStart(s);
    var a, c := s[..|s| - |mid|], mid[|body|..];
    assert s == a + body + c;
    if Contains(body, part) {
      ContainsInside(a, body, c, part);
    }
  }

  lemma TrimIsEndOfStart(s: string)
    ensures Trim(s) == TrimEnd(TrimStart(s))
  {}

  lemma SuffixInside(s: string, k: nat, part: string)
    requires k <= |s| && !Contains(s, part)
    ensures !Contains(s[k..], part)
  {
    hide Contains;
    assert s == s[..k] + s[k..] + "";
    if Contains(s[k..], part) {
      ContainsInside(s[..k], s[k..], "", part);
    }
  }

  lemma BodyIsBody(line: string)
    requires '\n' !in line && Body(line).Some?
    ensures IsBody(Body(line).value)
  {
    hide Contains, Trim, TrimStart, AfterBar;
    if '|' in line {
      AfterBarIsSuffix(line);
      var from := AfterBar(line);
      SuffixInside(line, |line| - |from|, "=>");
      TrimTrims(from);
      TrimInside(from, "=>");
    } else {
      TrimOfStart(line);
      TrimTrims(line);
      TrimInside(line, "=>");
    }
  }

  lemma {:induction false} TrimOfStart(line: string)
    ensures Trim(TrimStart(line)) == Trim(line)
  {
    TrimStartTrims(line);
    var t := TrimStart(line);
    assert TrimStart(t) == t;
  }

  lemma {:induction false} LinesLackFeeds(s: string)
    ensures forall i :: 0 <= i < |Lines(s)| ==> '\n' !in Lines(s)[i]
    decreases |s|
  {
    if s != "" {
      LineEndIsFirst(s);
      var n := LineEnd(s);
      if n < |s| {
        LinesLackFeeds(s[n + 1..]);
      }
    }
  }

  lemma {:induction false} LineEndIsFirst(s: string)
    ensures forall i :: 0 <= i < LineEnd(s) ==> s[i] != '\n'
  {
    if s != "" && s[0] != '\n' {
      LineEndIsFirst(s[1..]);
      assert forall i :: 1 <= i < LineEnd(s) ==> s[i] == s[1..][i - 1];
    }
  }

  lemma {:induction false} BodiesAreBodies(lines: seq<string>)
    requires forall i :: 0 <= i < |lines| ==> '\n' !in lines[i]
    ensures forall i :: 0 <= i < |Bodies(lines)| ==> IsBody(Bodies(lines)[i])
    decreases |lines|
  {
    hide Body, IsBody;
    if lines != [] {
      BodiesAreBodies(lines[..|lines| - 1]);
      if Body(lines[|lines| - 1]).Some? {
        BodyIsBody(lines[|lines| - 1]);
      }
    }
  }

  /** The rows of a layout, without their line feeds. */
  function Rows(bodies: seq<string>): seq<string>
    decreases |bodies|
  {
    if bodies == [] then []
    else
      var last := |bodies| - 1;
      Rows(bodies[..last]) + [Tabs(IndentOf(bodies[..last], bodies[last])) + bodies[last]]
  }

  lemma {:induction false} LineEndAfter(row: string, rest: string)
    requires '\n' !in row
    ensures LineEnd(row + "\n" + rest) == |row|
  {
    var s := row + "\n" + rest;
    if row != "" {
      assert s[1..] == row[1..] + "\n" + rest;
      LineEndAfter(row[1..], rest);
    }
  }

  /** The first line of a text that has one. */
  lemma FirstLine(line: string, rest: string)
    requires '\n' !in line
    ensures Lines(line + "\n" + rest) == [DropCr(line)] + Lines(rest)
  {
    var s := line + "\n" + rest;
    LineEndAfter(line, rest);
    assert s[..|line|] == line && s[|line| + 1..] == rest;
  }

  /** A text is read line by line, whichever way its lines end; the last one may lack its end. */
  lemma LineByLine(line: string, rest: string)
    requires '\n' !in line && (line != "" ==> line[|line| - 1] != '\r')
    ensures Lines(line + "\n" + rest) == [line] + Lines(rest) && Lines(line + "\r\n" + rest) == [line] + Lines(rest)
    ensures line != "" ==> Lines(line) == [line]
  {
    FirstLine(line, rest);
    FirstLine(line + "\r", rest);
    assert line + "\r\n" + rest == line + "\r" + "\n" + rest;
    assert (line + "\r")[..|line|] == line;
    LineEndIsFirst(line);
  }

  lemma {:induction false} LinesAppend(s: string, row: string)
    requires (s == "" || s[|s| - 1] == '\n') && '\n' !in row
    ensures Lines(s + row + "\n") == Lines(s) + [DropCr(row)]
    decreases |s|
  {
    hide Lines, DropCr;
    NoLines();
    if s == "" {
      FirstLine(row, "");
      assert s + row + "\n" == row + "\n" + "";
    } else {
      var n := LineEnd(s);
      LineEndIsFirst(s);
      assert n < |s|;
      var first, rest := s[..n], s[n + 1..];
      assert '\n' !in first;
      assert s == first + "\n" + rest;
      assert s + row + "\n" == first + "\n" + (rest + row + "\n");
      assert rest == "" || rest[|rest| - 1] == s[|s| - 1];
      FirstLine(first, rest);
      FirstLine(first, rest + row + "\n");
      LinesAppend(rest, row);
    }
  }

  lemma RowIsLine(n: nat, b: string)
    requires IsBody(b)
    ensures var row := Tabs(n) + b; DropCr(row) == row && '\n' !in row
  {
    var row := Tabs(n) + b;
    assert row[|row| - 1] == b[|b| - 1];
  }

  lemma LastRow(bodies: seq<string>, b: string)
    ensures var row := Tabs(IndentOf(bodies, b)) + b;
      Layout(bodies + [b]) == Layout(bodies) + row + "\n" && Rows(bodies + [b]) == Rows(bodies) + [row]
  {
    hide IndentOf;
    assert (bodies + [b])[..|bodies|] == bodies;
    var tabs := Tabs(IndentOf(bodies, b));
    assert Layout(bodies) + tabs + b + "\n" == Layout(bodies) + (tabs + b) + "\n";
  }

  lemma {:induction false} LinesOfLayout(bodies: seq<string>)
    requires forall i :: 0 <= i < |bodies| ==> IsBody(bodies[i])
    ensures Lines(Layout(bodies)) == Rows(bodies)
    ensures Layout(bodies) == "" || Layout(bodies)[|Layout(bodies)| - 1] == '\n'
    decreases |bodies|
  {
    if bodies == [] {
      NoLines();
    } else {
      hide Lines, IndentOf, IsBody, DropCr, Layout, Rows, Tabs;
      var init, b := bodies[..|bodies| - 1], bodies[|bodies| - 1];
      LinesOfLayout(init);
      LastRow(init, b);
      assert bodies == init + [b];
      RowIsLine(IndentOf(init, b), b);
      LinesAppend(Layout(init), Tabs(IndentOf(init, b)) + b);
    }
  }

  lemma NoLines()
    ensures Lines("") == []
  {}

  lemma {:induction false} TabsHideNothing(n: nat, b: string)
    requires !Contains(b, "=>")
    ensures !Contains(Tabs(n) + b, "=>")
  {
    if n == 0 {
      assert Tabs(0) + b == b;
    } else {
      var s := Tabs(n) + b;
      assert s[1..] == Tabs(n - 1) + b;
      TabsHideNothing(n - 1, b);
      assert s[0] == '\t' && "=>"[0] == '=';
    }
  }

  lemma StableRow(n: nat, b: string)
    requires IsStable(b)
    ensures Body(Tabs(n) + b) == Some(b)
  {
    TrimIndented(Tabs(n), b);
    TrimOfTrimmed(b);
    TabsHideNothing(n, b);
  }

  lemma BodiesAppend(lines: seq<string>, line: string)
    ensures Bodies(lines + [line]) == Bodies(lines) + match Body(line) { case None => [] case Some(b) => [b] }
  {
    hide Body;
    assert (lines + [line])[..|lines|] == lines;
  }

  lemma {:induction false} BodiesOfRows(bodies: seq<string>)
    requires forall i :: 0 <= i < |bodies| ==> IsStable(bodies[i])
    ensures Bodies(Rows(bodies)) == bodies
    decreases |bodies|
  {
    hide Body, Bodies, IsStable, IndentOf;
    if bodies == [] {
      NoBodies();
    } else {
      var init, b := bodies[..|bodies| - 1], bodies[|bodies| - 1];
      BodiesOfRows(init);
      StableRow(IndentOf(init, b), b);
      BodiesAppend(Rows(init), Tabs(IndentOf(init, b)) + b);
      assert bodies == init + [b];
    }
  }

  lemma NoBodies()
    ensures Bodies([]) == []
  {}

  /** The kept bodies come out in input order and unchanged, one per line, behind their tabs only. */
  lemma OutputLines(graph: string)
    requires Bodies(Lines(graph)) != []
    ensures Lines(Sanitize(graph)) == Rows(Bodies(Lines(graph)))
  {
    hide Lines, Bodies, Layout;
    LinesLackFeeds(graph);
    BodiesAreBodies(Lines(graph));
    LinesOfLayout(Bodies(Lines(graph)));
  }

  /** The bodies in a text are what is kept of its lines, line by line. */
  lemma {:induction false} BodiesAreKept(lines: seq<string>)
    ensures forall b :: b in Bodies(lines) <==> exists i :: 0 <= i < |lines| && Keeps(lines[i], b)
    decreases |lines|
  {
    hide Body, Keeps;
    if lines != [] {
      var init, last := lines[..|lines| - 1], lines[|lines| - 1];
      BodiesAreKept(init);
      forall b
        ensures b in Bodies(lines) <==> exists i :: 0 <= i < |lines| && Keeps(lines[i], b)
      {
        BodyIff(last, b);
        assert (exists i :: 0 <= i < |init| && Keeps(init[i], b)) <==> (exists i :: 0 <= i < |init| && Keeps(lines[i], b));
      }
    }
  }

  /** Lines are read one after the other. */
  lemma {:induction false} BodiesInOrder(a: seq<string>, b: seq<string>)
    ensures Bodies(a + b) == Bodies(a) + Bodies(b)
    decreases |b|
  {
    hide Body;
    if b == [] {
      assert a + b == a;
    } else {
      assert (a + b)[..|a + b| - 1] == a + b[..|b| - 1];
      BodiesInOrder(a, b[..|b| - 1]);
    }
  }

  ghost predicate KeptOf(lines: seq<string>, body: string) { exists i :: 0 <= i < |lines| && Keeps(lines[i], body) }
  ghost predicate IsRow(row: string, body: string) { exists n :: row == Tabs(n) + body }

  /** Every line of the output is tabs and what is kept of a line of the input, and what is kept of any line of the
      input is there; if nothing is kept of any line the text comes back as it is. */
  lemma SanitizedIsKept(graph: string)
    ensures var lines, out := Lines(graph), Lines(Sanitize(graph));
      && ((forall b :: !KeptOf(lines, b)) ==> Sanitize(graph) == graph)
      && ((exists b :: KeptOf(lines, b)) ==>
            && (forall j :: 0 <= j < |out| ==> exists b :: KeptOf(lines, b) && IsRow(out[j], b))
            && (forall b :: KeptOf(lines, b) ==> exists j :: 0 <= j < |out| && IsRow(out[j], b)))
  {
    hide Lines, Bodies, KeptOf, Layout, IsRow;
    var lines := Lines(graph);
    var bodies := Bodies(lines);
    KeptAreBodies(lines);
    if bodies == [] {
      assert forall b :: !KeptOf(lines, b);
    } else {
      OutputLines(graph);
      RowsAreBodies(bodies);
      assert forall j :: 0 <= j < |bodies| ==> bodies[j] in bodies;
    }
  }

  lemma KeptAreBodies(lines: seq<string>)
    ensures forall b :: b in Bodies(lines) <==> KeptOf(lines, b)
  {
    hide Keeps;
    BodiesAreKept(lines);
  }

  lemma {:induction false} RowsAreBodies(bodies: seq<string>)
    ensures |Rows(bodies)| == |bodies| && forall j :: 0 <= j < |bodies| ==> IsRow(Rows(bodies)[j], bodies[j])
    decreases |bodies|
  {
    if bodies != [] {
      RowsAreBodies(bodies[..|bodies| - 1]);
    }
  }

  /** Re-indenting twice changes nothing more, as long as no body contains a bar or starts with a hash or the
      separator dashes. */
  lemma SanitizeIdempotent(graph: string)
    requires forall b :: b in Bodies(Lines(graph)) ==> '|' !in b && !("#" <= b) && !(DASHES <= b)
    ensures Sanitize(Sanitize(graph)) == Sanitize(graph)
  {
    hide Lines, Bodies, Layout, Contains, IsTrimmed;
    var bodies := Bodies(Lines(graph));
    if bodies != [] {
      LinesLackFeeds(graph);
      BodiesAreBodies(Lines(graph));
      forall i | 0 <= i < |bodies|
        ensures IsStable(bodies[i])
      {
        assert bodies[i] in bodies;
      }
      OutputLines(graph);
      BodiesOfRows(bodies);
    }
  }
}
