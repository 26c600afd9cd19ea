/** Removing the calls of a macro from a parameter at build time. */
module Macros {
  import opened Common
  import opened Text

  /** First occurrence of a needle. */
  function Find(s: string, needle: string): (r: Option<nat>)
    ensures r.Some? ==> r.value + |needle| <= |s| && s[r.value..r.value + |needle|] == needle
    decreases |s|
  {
    if needle <= s then Some(0)
    else if s == "" then None
    else match Find(s[1..], needle) case None => None case Some(i) => Some(i + 1)
  }

  lemma {:induction false} FindIsContains(s: string, needle: string)
    ensures Find(s, needle) == None <==> !Contains(s, needle)
    decreases |s|
  {
    if !(needle <= s) && s != "" {
      FindIsContains(s[1..], needle);
    }
  }

  /** The parenthesis that brings `depth` open ones down to zero, scanning from `i`. */
  function Closing(s: string, i: nat, depth: nat): (r: Option<nat>)
    requires i <= |s| && depth > 0
    ensures r.Some? ==> i <= r.value < |s|
    decreases |s| - i
  {
    if i == |s| then None
    else if s[i] == '(' then Closing(s, i + 1, depth + 1)
    else if s[i] == ')' then if depth == 1 then Some(i) else Closing(s, i + 1, depth - 1)
    else Closing(s, i + 1, depth)
  }

  /** Where the first call of the macro begins and where it ends, if there is one and it is closed. */
  function FirstCall(s: string, needle: string): (r: Option<(nat, nat)>)
    requires needle != ""
    ensures r.Some? ==> var (start, end) := r.value; start + |needle| <= end < |s| && s[start..start + |needle|] == needle
  {
    match Find(s, needle)
    case None => None
    case Some(start) =>
      match Closing(s, start + |needle|, 1)
      case None => None
      case Some(end) => Some((start, end))
  }

  /** `s` without the calls of the macro, as far as they are closed. */
  function Stripped(s: string, needle: string): string
    requires needle != ""
    decreases |s|
  {
    match FirstCall(s, needle)
    case None => s
    case Some((start, end)) => Stripped(s[..start] + s[end + 1..], needle)
  }

  /** The scan for the closing parenthesis; `depth` is what is still open where it stopped. */
  method ScanArguments(s: string, from: nat) returns (i: nat, depth: nat)
    requires from <= |s|
    ensures depth == 0 <==> Closing(s, from, 1).Some?
    ensures depth == 0 ==> i < |s| && Closing(s, from, 1) == Some(i)
    ensures depth != 0 ==> i == |s|
  {
    i, depth := from, 1;
    while i < |s|
      invariant from <= i <= |s| && depth > 0
      invariant Closing(s, from, 1) == Closing(s, i, depth)
    {
      if s[i] == '(' {
        depth := depth + 1;
      } else if s[i] == ')' {
        depth := depth - 1;
        if depth == 0 {
          return;
        }
      }
      i := i + 1;
    }
  }

  method RemoveMacroInvocation(input: string, macroName: string) returns (s: string)
    ensures s == Stripped(input, macroName + "(")
  {
    hide Find, Closing;
    s := input;
    var needle := macroName + "(";
    while true
      invariant Stripped(s, needle) == Stripped(input, needle)
      decreases |s|
    {
      var found := Find(s, needle);
      if found == None {
        return;
      }
      var start := found.value;
      var i, depth := ScanArguments(s, start + |needle|);
      if depth != 0 || i >= |s| {
        return;
      }
      assert FirstCall(s, needle) == Some((start, i));
      s := s[..start] + s[i + 1..];
    }
  }

  function Weight(c: char): int { if c == '(' then 1 else if c == ')' then -1 else 0 }

  /** Opening minus closing parentheses. */
  function Parens(s: string): int { if s == "" then 0 else Weight(s[0]) + Parens(s[1..]) }

  lemma {:induction false} ParensAppend(a: string, b: string)
    ensures Parens(a + b) == Parens(a) + Parens(b)
  {
    if a == "" {
      assert a + b == b;
    } else {
      assert (a + b)[1..] == a[1..] + b;
      ParensAppend(a[1..], b);
    }
  }

  lemma {:induction false} NoParens(s: string)
    requires '(' !in s && ')' !in s
    ensures Parens(s) == 0
  {
    if s != "" {
      NoParens(s[1..]);
    }
  }

  /** A needle `name(` opens exactly one parenthesis. */
  lemma NeedleOpensOne(name: string)
    requires '(' !in name && ')' !in name
    ensures Parens(name + "(") == 1
  {
    ParensAppend(name, "(");
    NoParens(name);
    assert "("[1..] == "";
  }

  lemma ParensStep(s: string, i: nat, end: nat)
    requires i < end <= |s|
    ensures Parens(s[i..end]) == Weight(s[i]) + Parens(s[i + 1..end])
  {
    assert s[i..end][1..] == s[i + 1..end];
  }

  /** More parentheses are open after `s[i..k]` than closed, `depth` being open before. */
  ghost predicate OpenAt(s: string, i: nat, k: nat, depth: nat)
    requires i <= k <= |s|
  {
    Parens(s[i..k]) + depth > 0
  }

  /** The closing parenthesis is where the balance first drops to zero. */
  lemma {:induction false} ClosingIsFirstZero(s: string, i: nat, depth: nat)
    requires i <= |s| && depth > 0
    ensures match Closing(s, i, depth)
      case Some(end) => Parens(s[i..end + 1]) + depth == 0 && forall k :: i <= k <= end ==> OpenAt(s, i, k, depth)
      case None => forall k :: i <= k <= |s| ==> OpenAt(s, i, k, depth)
    decreases |s| - i
  {
    assert s[i..i] == "";
    if i < |s| {
      forall k | i < k <= |s|
        ensures Parens(s[i..k]) == Weight(s[i]) + Parens(s[i + 1..k])
      {
        ParensStep(s, i, k);
      }
      if s[i] == ')' && depth == 1 {
        assert s[i + 1..i + 1] == "";
      } else {
        var next := depth + Weight(s[i]);
        ClosingIsFirstZero(s, i + 1, next);
        assert forall k :: i < k <= |s| ==> OpenAt(s, i, k, depth) == OpenAt(s, i + 1, k, next);
      }
    }
  }

  /** Cutting out a balanced part keeps the balance. */
  lemma CutBalances(a: string, cut: string, b: string)
    requires Parens(cut) == 0
    ensures Parens(a + b) == Parens(a + cut + b)
  {
    hide Parens;
    ParensAppend(a + cut, b);
    ParensAppend(a, cut);
    ParensAppend(a, b);
  }

  lemma FirstCallBalances(s: string, name: string)
    requires '(' !in name && ')' !in name
    requires FirstCall(s, name + "(").Some?
    ensures var (start, end) := FirstCall(s, name + "(").value; Parens(s[..start] + s[end + 1..]) == Parens(s)
  {
    hide Parens, Find, Closing;
    var needle := name + "(";
    var (start, end) := FirstCall(s, needle).value;
    var args := s[start + |needle|..end + 1];
    ClosingIsFirstZero(s, start + |needle|, 1);
    NeedleOpensOne(name);
    ParensAppend(needle, args);
    assert s[start..end + 1] == needle + args;
    CutBalances(s[..start], s[start..end + 1], s[end + 1..]);
    assert s == s[..start] + s[start..end + 1] + s[end + 1..];
  }

  /** Main result about macro removal: the balance of parentheses is kept, and in the end no call of the macro
      is left or the first one left is never closed. */
  lemma {:induction false} StrippedBalances(s: string, name: string)
    requires '(' !in name && ')' !in name
    ensures var r := Stripped(s, name + "(");
      && Parens(r) == Parens(s)
      && match Find(r, name + "(") {
           case None => !Contains(r, name + "(")
           case Some(i) => Closing(r, i + |name| + 1, 1) == None
         }
    decreases |s|
  {
    hide Parens, Find, Closing, Contains;
    var needle := name + "(";
    if FirstCall(s, needle).Some? {
      var (start, end) := FirstCall(s, needle).value;
      FirstCallBalances(s, name);
      StrippedBalances(s[..start] + s[end + 1..], name);
    } else {
      FindIsContains(s, needle);
    }
  }

  lemma {:induction false} StrippedAddsNothing(s: string, needle: string, c: char)
    requires needle != "" && c !in s
    ensures c !in Stripped(s, needle)
    decreases |s|
  {
    hide FirstCall;
    if FirstCall(s, needle).Some? {
      var (start, end) := FirstCall(s, needle).value;
      StrippedAddsNothing(s[..start] + s[end + 1..], needle, c);
    }
  }

  /** A text without a call of the macro stays as it is. */
  lemma StrippedPlain(s: string, needle: string)
    requires needle != "" && !Contains(s, needle)
    ensures Stripped(s, needle) == s
  {
    hide Contains, Find;
    FindIsContains(s, needle);
  }

  lemma {:induction false} FindsParenthesis(q: string, name: string, rest: string)
    requires '(' !in q && '(' !in name
    ensures Find(q + name + "(" + rest, name + "(") == Some(|q|)
  {
    var s, needle := q + name + "(" + rest, name + "(";
    if q == "" {
      assert needle <= s;
    } else {
      assert s[1..] == q[1..] + name + "(" + rest;
      var front := s[..|needle|];
      assert front[|name|] == (q + name)[|name|] && needle[|name|] == '(';
      FindsParenthesis(q[1..], name, rest);
    }
  }

  lemma {:induction false} ClosesAt(s: string, i: nat, end: nat)
    requires i <= end < |s| && s[end] == ')' && forall k :: i <= k < end ==> s[k] != '(' && s[k] != ')'
    ensures Closing(s, i, 1) == Some(end)
    decreases end - i
  {
    if i < end {
      ClosesAt(s, i + 1, end);
    }
  }

  lemma FirstCallAt(q: string, name: string, args: string, rest: string)
    requires '(' !in q && '(' !in name && '(' !in args && ')' !in args
    ensures FirstCall(q + name + "(" + args + ")" + rest, name + "(") == Some((|q|, |q| + |name| + 1 + |args|))
  {
    hide Find, Closing;
    var s, needle := q + name + "(" + args + ")" + rest, name + "(";
    assert s == q + name + "(" + (args + ")" + rest);
    FindsParenthesis(q, name, args + ")" + rest);
    var from := |q| + |needle|;
    var end := from + |args|;
    assert s[from..end] == args;
    assert forall k :: from <= k < end ==> s[k] == s[from..end][k - from];
    ClosesAt(s, from, end);
  }

  /** The first call is cut out with its arguments, and nothing else is. */
  lemma StrippedCuts(q: string, name: string, args: string, rest: string)
    requires '(' !in q && '(' !in name && '(' !in args && ')' !in args
    ensures Stripped(q + name + "(" + args + ")" + rest, name + "(") == Stripped(q + rest, name + "(")
  {
    hide FirstCall;
    var s := q + name + "(" + args + ")" + rest;
    FirstCallAt(q, name, args, rest);
    var end := |q| + |name| + 1 + |args|;
    assert s[..|q|] == q && s[end + 1..] == rest;
  }
}
