/** Turning C prototypes into wrapper declarations at build time. */
module Prototypes {
  import opened Common
  import opened Macros
  import opened Text

  /** Length of the word at the front. */
  function WordLength(s: string): (n: nat)
    ensures n <= |s|
  {
    if s == "" || IsSpace(s[0]) then 0 else 1 + WordLength(s[1..])
  }

  function Words(s: string): seq<string>
    decreases |s|
  {
    var t := TrimStart(s);
    TrimStartTrims(s);
    if t == "" then [] else [t[..WordLength(t)]] + Words(t[WordLength(t)..])
  }

  function Join(parts: seq<string>, sep: string): string {
    if parts == [] then "" else if |parts| == 1 then parts[0] else parts[0] + sep + Join(parts[1..], sep)
  }

  function CollapseSpaces(s: string): string { Join(Words(s), " ") }

  /** A word: not empty, without white space, without the separators of parameter lists. */
  ghost predicate IsWord(w: string) { w != "" && ',' !in w && forall i :: 0 <= i < |w| ==> !IsSpace(w[i]) }

  lemma {:induction false} WordLengthWord(s: string)
    ensures forall i :: 0 <= i < WordLength(s) ==> !IsSpace(s[i])
  {
    if s != "" && !IsSpace(s[0]) {
      WordLengthWord(s[1..]);
      assert forall i :: 1 <= i < WordLength(s) ==> s[i] == s[1..][i - 1];
    }
  }

  lemma {:induction false} WordsAreWords(s: string)
    requires ',' !in s
    ensures forall i :: 0 <= i < |Words(s)| ==> IsWord(Words(s)[i])
    decreases |s|
  {
    var t := TrimStart(s);
    TrimStartTrims(s);
    if t != "" {
      WordLengthWord(t);
      WordsAreWords(t[WordLength(t)..]);
    }
  }

  lemma {:induction false} JoinedWords(words: seq<string>)
    requires forall i :: 0 <= i < |words| ==> IsWord(words[i])
    ensures IsTrimmed(Join(words, " ")) && ',' !in Join(words, " ")
    ensures words != [] ==> Join(words, " ") != ""
  {
    if |words| > 1 {
      JoinedWords(words[1..]);
    }
  }

  /** One parameter as it is kept: trimmed, without the macro, without a default value, single-spaced; ""
      when nothing is left of it. */
  function Cleaned(raw: string): string {
    var p := Trim(raw);
    if p == "" || p == "void" then ""
    else
      var q := CollapseSpaces(CutDefault(Stripped(p, "__dv(")));
      if q == "void" then "" else q
  }

  function BeforeEquals(s: string): string
    requires '=' in s
  {
    if s[0] == '=' then "" else [s[0]] + BeforeEquals(s[1..])
  }

  function CutDefault(s: string): string { if '=' in s then Trim(BeforeEquals(s)) else s }

  function Kept(raws: seq<string>): seq<string>
    decreases |raws|
  {
    if raws == [] then []
    else
      var last := Cleaned(raws[|raws| - 1]);
      Kept(raws[..|raws| - 1]) + if last == "" then [] else [last]
  }

  predicate Blank(params: string) { Trim(params) == "" || Trim(params) == "void" }

  /** The parameters a wrapper declares. */
  function Declared(params: string): seq<string> { if Blank(params) then [] else Kept(Split(params, ',')) }

  function Sanitized(params: string): string { Join(Declared(params), ", ") }

  lemma KeptStep(raws: seq<string>, i: nat)
    requires i < |raws|
    ensures Kept(raws[..i + 1]) == Kept(raws[..i]) + if Cleaned(raws[i]) == "" then [] else [Cleaned(raws[i])]
  {
    assert raws[..i + 1][..i] == raws[..i];
  }

  /** A text without white space. */
  predicate Solid(w: string) { w != "" && forall i :: 0 <= i < |w| ==> !IsSpace(w[i]) }

  lemma {:induction false} WordLengthOf(w: string, rest: string)
    requires (forall i :: 0 <= i < |w| ==> !IsSpace(w[i])) && (rest != "" ==> IsSpace(rest[0]))
    ensures WordLength(w + rest) == |w|
  {
    if w == "" {
      assert w + rest == rest;
    } else {
      assert (w + rest)[1..] == w[1..] + rest;
      WordLengthOf(w[1..], rest);
    }
  }

  /** The word at the front, white space aside, and the words behind it. */
  lemma WordsNext(lead: string, w: string, rest: string)
    requires AllSpace(lead) && Solid(w) && (rest != "" ==> IsSpace(rest[0]))
    ensures Words(lead + w + rest) == [w] + Words(rest)
  {
    var s := lead + w + rest;
    assert s[..|lead|] == lead && s[|lead|..] == w + rest;
    TrimStartAt(s, |lead|);
    WordLengthOf(w, rest);
    assert (w + rest)[..|w|] == w && (w + rest)[|w|..] == rest;
  }

  lemma NoWords(s: string)
    requires AllSpace(s)
    ensures Words(s) == []
  {
    assert s[..|s|] == s;
    TrimStartAt(s, |s|);
  }

  /** Words with gaps of white space before, between and behind them. */
  function Spread(gaps: seq<string>, words: seq<string>): string
    requires |gaps| == |words| + 1
    decreases |words|
  {
    if words == [] then gaps[0] else gaps[0] + words[0] + Spread(gaps[1..], words[1..])
  }

  ghost predicate Spaced(gaps: seq<string>, words: seq<string>) {
    && |gaps| == |words| + 1 && (forall i :: 0 <= i < |gaps| ==> AllSpace(gaps[i]))
    && (forall i :: 0 <= i < |words| ==> Solid(words[i])) && forall i :: 0 < i < |words| ==> gaps[i] != ""
  }

  /** Whatever white space is between words, collapsing leaves one blank. */
  lemma {:induction false} SpreadCollapses(gaps: seq<string>, words: seq<string>)
    requires Spaced(gaps, words)
    ensures Words(Spread(gaps, words)) == words && CollapseSpaces(Spread(gaps, words)) == Join(words, " ")
    decreases |words|
  {
    hide Words, Join;
    if words == [] {
      NoWords(gaps[0]);
    } else {
      var rest := Spread(gaps[1..], words[1..]);
      SpreadCollapses(gaps[1..], words[1..]);
      SpreadStartsBlank(gaps[1..], words[1..]);
      WordsNext(gaps[0], words[0], rest);
      assert words == [words[0]] + words[1..];
    }
  }

  lemma SpreadStartsBlank(gaps: seq<string>, words: seq<string>)
    requires |gaps| == |words| + 1 && AllSpace(gaps[0]) && (words != [] ==> gaps[0] != "")
    ensures Spread(gaps, words) != "" ==> IsSpace(Spread(gaps, words)[0])
  {}

  lemma {:induction false} LastWord(a: string, w: string)
    requires Solid(w) && (a != "" ==> IsSpace(a[|a| - 1]))
    ensures Words(a + w) != [] && Words(a + w)[|Words(a + w)| - 1] == w
    decreases |a|
  {
    hide Words, TrimStart, WordLength;
    assert a + w + "" == a + w;
    if AllSpace(a) {
      WordsNext(a, w, "");
      NoWords("");
    } else {
      var lead, u, rest := FirstOfMany(a);
      WordsNext(lead, u, rest + w);
      assert lead + u + (rest + w) == a + w;
      assert rest[|rest| - 1] == a[|a| - 1];
      LastWord(rest, w);
    }
  }

  lemma BlankInFront(a: string, lead: string)
    requires lead <= a && AllSpace(lead) && lead != ""
    ensures IsSpace(a[0])
  {
    assert lead[0] == a[0];
  }

  lemma {:induction false} FirstOfMany(a: string) returns (lead: string, u: string, rest: string)
    requires !AllSpace(a) && IsSpace(a[|a| - 1])
    ensures a == lead + u + rest && AllSpace(lead) && Solid(u) && rest != "" && IsSpace(rest[0])
  {
    if IsSpace(a[0]) {
      assert !AllSpace(a[1..]) by {
        assert a == [a[0]] + a[1..];
      }
      lead, u, rest := FirstOfMany(a[1..]);
      lead := [a[0]] + lead;
    } else {
      lead, u, rest := "", a[..1], a[1..];
      if !IsSpace(a[1]) {
        var tail := a[1..];
        var l, v, r := FirstOfMany(tail);
        if l != "" {
          BlankInFront(tail, l);
        }
        u, rest := a[..1] + v, r;
      }
    }
  }

  lemma {:induction false} BeforeEqualsOf(s: string, q: string, rest: string)
    requires s == q + "=" + rest && '=' !in q && '=' in s
    ensures BeforeEquals(s) == q
  {
    if q != "" {
      assert s[1..] == q[1..] + "=" + rest && s[1..][|q| - 1] == '=';
      BeforeEqualsOf(s[1..], q[1..], rest);
      assert q == [q[0]] + q[1..];
    }
  }

  /** A parameter without macro and default value: its words, single-spaced. */
  lemma CleanedPlain(raw: string, gaps: seq<string>, words: seq<string>)
    requires Spaced(gaps, words) && raw == Spread(gaps, words)
    requires !Contains(Trim(raw), "__dv(") && '=' !in Trim(raw)
    ensures Cleaned(raw) == if words == [] || Join(words, " ") == "void" then "" else Join(words, " ")
  {
    hide Trim, Words, Spread, Contains, Stripped, Join;
    SpreadCollapses(gaps, words);
    WordsOfTrim(raw);
    WordsOfBlankAndVoid();
    StrippedPlain(Trim(raw), "__dv(");
    NothingJoins();
    OneJoins("void");
  }

  lemma NothingJoins()
    ensures Join([], " ") == ""
  {}

  lemma OneJoins(w: string)
    ensures Join([w], " ") == w
  {}

  lemma WordsOfBlankAndVoid()
    ensures Words("") == [] && Words("void") == ["void"]
  {
    hide Words;
    NoWords("");
    assert "" + "void" + "" == "void";
    WordsNext("", "void", "");
  }

  /** White space around a text does not matter to its words. */
  lemma WordsOfTrim(s: string)
    ensures Words(Trim(s)) == Words(s)
  {
    hide TrimStart, TrimEnd, WordLength;
    TrimStartTrims(s);
    var t := TrimStart(s);
    TrimEndKeepsStart(t);
    TrimEndBlank(t);
    assert t == TrimEnd(t) + t[|TrimEnd(t)|..];
    WordsIgnoreTail(TrimEnd(t), t[|TrimEnd(t)|..]);
    WordsIgnoreLead(s);
  }

  lemma WordsIgnoreLead(s: string)
    ensures Words(TrimStart(s)) == Words(s)
  {
    TrimStartTrims(s);
    TrimStartOnce(s);
  }

  lemma TrimStartOnce(s: string)
    ensures TrimStart(TrimStart(s)) == TrimStart(s)
  {
    TrimStartTrims(s);
  }

  lemma {:induction false} WordsIgnoreTail(s: string, tail: string)
    requires AllSpace(tail)
    ensures Words(s + tail) == Words(s)
    decreases |s|
  {
    hide Words, TrimStart, WordLength;
    if AllSpace(s) {
      NoWords(s);
      NoWords(s + tail);
    } else {
      var lead, u, rest := FirstWord(s);
      WordsNext(lead, u, rest);
      WordsNext(lead, u, rest + tail);
      assert lead + u + (rest + tail) == s + tail;
      assert lead + u + rest == s;
      WordsIgnoreTail(rest, tail);
    }
  }

  /** The first word of a text that has one. */
  lemma {:induction false} FirstWord(a: string) returns (lead: string, u: string, rest: string)
    requires !AllSpace(a)
    ensures a == lead + u + rest && AllSpace(lead) && Solid(u) && (rest != "" ==> IsSpace(rest[0]))
  {
    if IsSpace(a[0]) {
      assert a == [a[0]] + a[1..];
      lead, u, rest := FirstWord(a[1..]);
      lead := [a[0]] + lead;
    } else if |a| == 1 || IsSpace(a[1]) {
      lead, u, rest := "", a[..1], a[1..];
    } else {
      var tail := a[1..];
      assert !IsSpace(tail[0]);
      var l, v, r := FirstWord(tail);
      if l != "" {
        BlankInFront(tail, l);
      }
      lead, u, rest := "", a[..1] + v, r;
    }
  }

  /** A default value is cut off with its equals sign. */
  lemma CleanedDefault(raw: string, q: string, dflt: string)
    requires Trim(raw) == q + "=" + dflt && '=' !in q && !Contains(Trim(raw), "__dv(")
    ensures Cleaned(raw) == if CollapseSpaces(q) == "void" then "" else CollapseSpaces(q)
  {
    hide Trim, Words, Contains, Stripped, Join, BeforeEquals;
    var p := Trim(raw);
    assert p[|q|] == '=' && '=' in p;
    assert '=' !in "void";
    StrippedPlain(p, "__dv(");
    BeforeEqualsOf(p, q, dflt);
    WordsOfTrim(q);
  }

  /** A macro call is cut out with its arguments, wherever it stands. */
  lemma CleanedMacro(raw: string, q: string, args: string, rest: string)
    requires Trim(raw) == q + "__dv(" + args + ")" + rest && '(' !in q && '(' !in args && ')' !in args
    requires !Contains(q + rest, "__dv(") && '=' !in q + rest
    ensures Cleaned(raw) == if CollapseSpaces(q + rest) == "void" then "" else CollapseSpaces(q + rest)
  {
    hide Trim, Words, Contains, Stripped, Join;
    var p := Trim(raw);
    assert "__dv" + "(" == "__dv(";
    assert p == q + "__dv" + "(" + args + ")" + rest;
    assert p[|q| + 4] == '(' && '(' in p;
    assert '(' !in "void";
    StrippedCuts(q, "__dv", args, rest);
    StrippedPlain(q + rest, "__dv(");
  }

  /** Pieces without commas, joined with commas, are split apart again. */
  function Commas(raws: seq<string>): string
    requires raws != []
  {
    if |raws| == 1 then raws[0] else raws[0] + "," + Commas(raws[1..])
  }

  lemma {:induction false} SplitCommas(raws: seq<string>)
    requires raws != [] && forall i :: 0 <= i < |raws| ==> ',' !in raws[i]
    ensures Split(Commas(raws), ',') == raws
  {
    hide Split;
    if |raws| == 1 {
      SplitWhole(raws[0], ',');
    } else {
      SplitAtFirst(raws[0], ',', Commas(raws[1..]));
      assert raws[0] + [','] + Commas(raws[1..]) == Commas(raws);
      SplitCommas(raws[1..]);
      assert raws == [raws[0]] + raws[1..];
    }
  }

  lemma {:induction false} KeptInOrder(a: seq<string>, b: seq<string>)
    ensures Kept(a + b) == Kept(a) + Kept(b)
    decreases |b|
  {
    hide Cleaned;
    if b == [] {
      assert a + b == a;
    } else {
      assert (a + b)[..|a + b| - 1] == a + b[..|b| - 1];
      KeptInOrder(a, b[..|b| - 1]);
    }
  }

  /** Main result about what is declared: of a list that is not blank each piece between commas is declared as it is
      cleaned, in order, unless nothing is left of it. */
  lemma DeclaresPieces(raws: seq<string>)
    requires raws != [] && !Blank(Commas(raws)) && forall i :: 0 <= i < |raws| ==> ',' !in raws[i]
    ensures Declared(Commas(raws)) == Kept(raws)
  {
    hide Split, Kept, Trim, Commas;
    SplitCommas(raws);
  }

  method SanitizeParams(params: string) returns (r: string)
    ensures r == Sanitized(params)
  {
    hide Trim, Split, Join, Stripped, Kept, Words, BeforeEquals;
    KeptNothing();
    if Blank(params) {
      JoinNothing();
      return "";
    }
    var raws := Split(params, ',');
    var out: seq<string> := [];
    for i := 0 to |raws|
      invariant out == Kept(raws[..i])
    {
      KeptStep(raws, i);
      var p := Trim(raws[i]);
      if p == "" || p == "void" {
        continue;
      }
      p := RemoveMacroInvocation(p, "__dv");
      assert "__dv" + "(" == "__dv(";
      if '=' in p {
        p := Trim(BeforeEquals(p));
      }
      p := CollapseSpaces(p);
      if p != "" && p != "void" {
        out := out + [p];
      }
    }
    assert raws[..|raws|] == raws;
    r := Join(out, ", ");
  }

  lemma KeptNothing()
    ensures Kept([]) == []
  {}

  /** A kept parameter is one that reading the list again will find unchanged. */
  ghost predicate IsParam(p: string) { p != "" && p != "void" && IsTrimmed(p) && ',' !in p }

  lemma {:induction false} BeforeEqualsAddsNothing(s: string, c: char)
    requires '=' in s && c !in s
    ensures c !in BeforeEquals(s)
  {
    if s[0] != '=' {
      BeforeEqualsAddsNothing(s[1..], c);
    }
  }

  lemma CleanedIsParam(raw: string)
    requires ',' !in raw && Cleaned(raw) != ""
    ensures IsParam(Cleaned(raw))
  {
    hide Trim, Stripped, BeforeEquals, Words, Join, IsTrimmed;
    var p := Trim(raw);
    TrimTrims(raw);
    var q := Stripped(p, "__dv(");
    StrippedAddsNothing(p, "__dv(", ',');
    if '=' in q {
      BeforeEqualsAddsNothing(q, ',');
      TrimTrims(BeforeEquals(q));
    }
    WordsAreWords(CutDefault(q));
    JoinedWords(Words(CutDefault(q)));
  }

  lemma {:induction false} KeptAreParams(raws: seq<string>)
    requires forall i :: 0 <= i < |raws| ==> ',' !in raws[i]
    ensures forall i :: 0 <= i < |Kept(raws)| ==> IsParam(Kept(raws)[i])
    decreases |raws|
  {
    hide Cleaned, IsParam;
    if raws != [] {
      KeptAreParams(raws[..|raws| - 1]);
      if Cleaned(raws[|raws| - 1]) != "" {
        CleanedIsParam(raws[|raws| - 1]);
      }
    }
  }

  /** The parameters found in a list when it is read piece by piece. */
  function Found(raws: seq<string>): seq<string>
    decreases |raws|
  {
    if raws == [] then []
    else
      var p := Trim(raws[|raws| - 1]);
      Found(raws[..|raws| - 1]) + if p == "" || p == "void" then [] else [p]
  }

  function ParamsOf(params: string): seq<string> { if Blank(params) then [] else Found(Split(params, ',')) }

  lemma {:induction false} FoundPrepend(raw: string, raws: seq<string>)
    ensures Found([raw] + raws) == (if Trim(raw) == "" || Trim(raw) == "void" then [] else [Trim(raw)]) + Found(raws)
    decreases |raws|
  {
    hide Trim;
    if raws == [] {
      assert [raw] + raws == [raw] && [raw][..0] == [];
    } else {
      FoundPrepend(raw, raws[..|raws| - 1]);
      assert ([raw] + raws)[..|raws|] == [raw] + raws[..|raws| - 1];
    }
  }

  /** Splitting a joined list at its commas gives its parts back. */
  lemma {:induction false} SplitJoined(lead: string, params: seq<string>)
    requires params != [] && (lead == "" || lead == " ") && forall i :: 0 <= i < |params| ==> IsParam(params[i])
    ensures Found(Split(lead + Join(params, ", "), ',')) == params
    decreases |params|
  {
    hide Split, Found, Trim;
    var first := lead + params[0];
    TrimIndented(lead, params[0]);
    if |params| == 1 {
      SplitWhole(first, ',');
      FoundPrepend(first, []);
      FoundNothing();
      assert [first] + [] == [first];
    } else {
      var rest := " " + Join(params[1..], ", ");
      assert lead + Join(params, ", ") == first + [','] + rest;
      SplitAtFirst(first, ',', rest);
      SplitJoined(" ", params[1..]);
      FoundPrepend(first, Split(rest, ','));
      assert params == [params[0]] + params[1..];
    }
  }

  lemma FoundNothing()
    ensures Found([]) == []
  {}

  lemma {:induction false} JoinedNotBlank(params: seq<string>)
    requires params != [] && forall i :: 0 <= i < |params| ==> IsParam(params[i])
    ensures !Blank(Join(params, ", "))
  {
    var s := Join(params, ", ");
    JoinedTrimmed(params);
    TrimOfTrimmed(s);
    if |params| > 1 {
      assert ',' == s[|params[0]|];
      assert s == "void" ==> false;
    }
  }

  lemma {:induction false} JoinedTrimmed(params: seq<string>)
    requires params != [] && forall i :: 0 <= i < |params| ==> IsParam(params[i])
    ensures IsTrimmed(Join(params, ", ")) && Join(params, ", ") != ""
  {
    if |params| > 1 {
      JoinedTrimmed(params[1..]);
    }
  }

  /** Main result about parameters: reading a sanitized list again finds exactly the parameters it declares. */
  lemma SanitizedSplitsBack(params: string)
    ensures ParamsOf(Sanitized(params)) == Declared(params)
  {
    hide Kept, Split, Found, Join;
    if !Blank(params) {
      SplitPiecesLackSep(params, ',');
      KeptAreParams(Split(params, ','));
    }
    var ps := Declared(params);
    if ps == [] {
      JoinNothing();
    } else {
      SplitJoined("", ps);
      assert "" + Join(ps, ", ") == Join(ps, ", ");
      JoinedNotBlank(ps);
    }
  }

  lemma JoinNothing()
    ensures Join([], ", ") == "" && Blank("")
  {}

  predicate IsIdentChar(c: char) { '0' <= c <= '9' || 'a' <= c <= 'z' || 'A' <= c <= 'Z' || c == '_' }
  predicate IsAsciiSpace(c: char) { c == ' ' || c == '\t' || c == '\n' || c as int == 12 || c == '\r' }

  /** `name` is the identifier a parameter ends with, blanks aside. */
  ghost predicate EndsWithName(param: string, name: string, start: nat) {
    && name != "" && start + |name| <= |param| && param[start..start + |name|] == name
    && (forall i :: start <= i < start + |name| ==> IsIdentChar(param[i]))
    && (forall i :: start + |name| <= i < |param| ==> IsAsciiSpace(param[i]))
    && (start > 0 ==> !IsIdentChar(param[start - 1]))
  }

  ghost predicate NamedBy(param: string, name: string) { exists start :: EndsWithName(param, name, start) }

  ghost predicate Nameless(param: string) { forall name :: !NamedBy(param, name) }

  /** Each parameter has its name in the other list. */
  ghost predicate NamedAs(params: seq<string>, names: seq<string>) {
    |names| == |params| && forall i :: 0 <= i < |params| ==> NamedBy(params[i], names[i])
  }

  /** A parameter has at most one name. */
  lemma NameIsUnique(param: string, a: string, from: nat, b: string, start: nat)
    requires EndsWithName(param, a, from) && EndsWithName(param, b, start)
    ensures a == b
  {
    NameEndsFirst(param, a, from, b, start);
    NameEndsFirst(param, b, start, a, from);
    NameStartsFirst(param, a, from, b, start);
    NameStartsFirst(param, b, start, a, from);
  }

  lemma NameEndsFirst(param: string, a: string, from: nat, b: string, start: nat)
    requires EndsWithName(param, a, from) && EndsWithName(param, b, start)
    ensures from + |a| >= start + |b|
  {
    assert IsIdentChar(param[start + |b| - 1]);
  }

  lemma NameStartsFirst(param: string, a: string, from: nat, b: string, start: nat)
    requires EndsWithName(param, a, from) && EndsWithName(param, b, start) && from + |a| == start + |b|
    ensures from <= start
  {
    assert from > 0 ==> !IsIdentChar(param[from - 1]);
  }

  lemma BlankIsNameless(param: string)
    requires forall i :: 0 <= i < |param| ==> IsAsciiSpace(param[i])
    ensures Nameless(param)
  {
    forall name, start: nat
      ensures !EndsWithName(param, name, start)
    {
      assert name != "" && start < |param| ==> !IsIdentChar(param[start]);
    }
  }

  lemma OtherEndIsNameless(param: string, end: nat)
    requires 0 < end <= |param| && !IsAsciiSpace(param[end - 1]) && !IsIdentChar(param[end - 1])
    requires forall i :: end <= i < |param| ==> IsAsciiSpace(param[i])
    ensures Nameless(param)
  {
    forall name, start: nat
      ensures !EndsWithName(param, name, start)
    {
      assert EndsWithName(param, name, start) ==> IsIdentChar(param[start + |name| - 1]);
    }
  }

  method ExtractParamName(param: string) returns (name: Option<string>)
    ensures name.Some? ==> NamedBy(param, name.value)
    ensures name == None ==> Nameless(param)
  {
    hide Nameless;
    var end := |param|;
    while end > 0 && IsAsciiSpace(param[end - 1])
      invariant 0 <= end <= |param|
      invariant forall i :: end <= i < |param| ==> IsAsciiSpace(param[i])
    {
      end := end - 1;
    }
    if end == 0 {
      BlankIsNameless(param);
      return None;
    }
    var start := end;
    while start > 0
      invariant 0 <= start <= end
      invariant forall i :: start <= i < end ==> IsIdentChar(param[i])
    {
      if IsIdentChar(param[start - 1]) {
        start := start - 1;
      } else {
        break;
      }
    }
    if start == end {
      OtherEndIsNameless(param, end);
      return None;
    }
    name := Some(param[start..end]);
    assert EndsWithName(param, name.value, start);
  }

  /** The names passed on, one for each parameter found, or None if one has no name. */
  method ParseParamNames(params: string) returns (names: Option<seq<string>>)
    ensures names.Some? ==> NamedAs(ParamsOf(params), names.value)
    ensures names == None ==> !AllNamed(ParamsOf(params))
  {
    hide Trim, Split, NamedBy, Nameless;
    if Blank(params) {
      return Some([]);
    }
    var raws := Split(params, ',');
    var out: seq<string> := [];
    for i := 0 to |raws|
      invariant NamedAs(Found(raws[..i]), out)
    {
      assert raws[..i + 1][..i] == raws[..i];
      var param := Trim(raws[i]);
      if param == "" || param == "void" {
        continue;
      }
      assert Found(raws[..i + 1]) == Found(raws[..i]) + [param];
      var name := ExtractParamName(param);
      if name == None {
        FoundPrefix(raws, i + 1);
        assert Found(raws)[|Found(raws[..i])|] == param;
        return None;
      }
      out := out + [name.value];
    }
    assert raws[..|raws|] == raws;
    names := Some(out);
  }

  ghost predicate AllNamed(params: seq<string>) { forall i :: 0 <= i < |params| ==> !Nameless(params[i]) }

  lemma {:induction false} FoundPrefix(raws: seq<string>, n: nat)
    requires n <= |raws|
    ensures Found(raws[..n]) <= Found(raws)
    decreases |raws| - n
  {
    hide Trim;
    if n < |raws| {
      assert raws[..n + 1][..n] == raws[..n];
      FoundPrefix(raws, n + 1);
    } else {
      assert raws[..n] == raws;
    }
  }

  datatype Wrapper = Wrapper(declPrefix: string, name: string, params: string, argNames: seq<string>)

  /** Strict order of strings by their characters. */
  predicate Before(a: string, b: string) {
    b != "" && (a == "" || a[0] < b[0] || (a[0] == b[0] && Before(a[1..], b[1..])))
  }

  lemma {:induction false} BeforeIsTotal(a: string, b: string)
    ensures a == b || Before(a, b) || Before(b, a)
  {
    if a != "" && b != "" && a[0] == b[0] {
      BeforeIsTotal(a[1..], b[1..]);
      if a[1..] == b[1..] {
        assert a == [a[0]] + a[1..] && b == [b[0]] + b[1..];
      }
    }
  }

  lemma {:induction false} BeforeIsTransitive(a: string, b: string, c: string)
    requires Before(a, b) && Before(b, c)
    ensures Before(a, c)
  {
    if a != "" && a[0] == b[0] && b[0] == c[0] {
      BeforeIsTransitive(a[1..], b[1..], c[1..]);
    }
  }

  ghost predicate Ascending(ws: seq<Wrapper>) { forall i, j :: 0 <= i < j < |ws| ==> Before(ws[i].name, ws[j].name) }

  ghost predicate UniqueNames(ws: seq<Wrapper>) { forall i, j :: 0 <= i < j < |ws| ==> ws[i].name != ws[j].name }

  function Insert(ws: seq<Wrapper>, w: Wrapper): seq<Wrapper> {
    if ws == [] then [w] else if Before(w.name, ws[0].name) then [w] + ws else [ws[0]] + Insert(ws[1..], w)
  }

  function Sorted(ws: seq<Wrapper>): seq<Wrapper>
    decreases |ws|
  {
    if ws == [] then [] else Insert(Sorted(ws[..|ws| - 1]), ws[|ws| - 1])
  }

  lemma {:induction false} InsertKeepsOrder(ws: seq<Wrapper>, w: Wrapper)
    requires Ascending(ws) && forall i :: 0 <= i < |ws| ==> ws[i].name != w.name
    ensures Ascending(Insert(ws, w)) && multiset(Insert(ws, w)) == multiset(ws) + multiset{w}
  {
    hide Before;
    if ws != [] {
      if Before(w.name, ws[0].name) {
        forall j | 0 <= j < |ws|
          ensures Before(w.name, ws[j].name)
        {
          if j > 0 {
            BeforeIsTransitive(w.name, ws[0].name, ws[j].name);
          }
        }
      } else {
        BeforeIsTotal(w.name, ws[0].name);
        InsertKeepsOrder(ws[1..], w);
        var rest := Insert(ws[1..], w);
        assert ws == [ws[0]] + ws[1..];
        forall j | 0 <= j < |rest|
          ensures Before(ws[0].name, rest[j].name)
        {
          assert rest[j] in multiset(rest);
          assert rest[j] == w || rest[j] in ws[1..];
        }
      }
    }
  }

  lemma {:induction false} SortedAscends(ws: seq<Wrapper>)
    requires UniqueNames(ws)
    ensures Ascending(Sorted(ws)) && multiset(Sorted(ws)) == multiset(ws)
    decreases |ws|
  {
    hide Before, Ascending, Insert;
    if ws == [] {
      NothingAscends();
    } else {
      var init, w := ws[..|ws| - 1], ws[|ws| - 1];
      SortedAscends(init);
      NameNotAmong(init, Sorted(init), w.name);
      InsertKeepsOrder(Sorted(init), w);
      assert ws == init + [w];
    }
  }

  lemma NothingAscends()
    ensures Ascending([])
  {}

  lemma NameNotAmong(ws: seq<Wrapper>, sorted: seq<Wrapper>, name: string)
    requires multiset(ws) == multiset(sorted) && forall i :: 0 <= i < |ws| ==> ws[i].name != name
    ensures forall i :: 0 <= i < |sorted| ==> sorted[i].name != name
  {
    SameElements(ws, sorted);
    forall i | 0 <= i < |sorted|
      ensures sorted[i].name != name
    {
      assert sorted[i] in ws;
    }
  }

  lemma SameElements(a: seq<Wrapper>, b: seq<Wrapper>)
    requires multiset(a) == multiset(b)
    ensures forall w :: w in a <==> w in b
  {
    assert forall w :: w in a <==> w in multiset(a);
    assert forall w :: w in b <==> w in multiset(b);
  }

  function TrimSemicolons(s: string): string {
    if s != "" && s[|s| - 1] == ';' then TrimSemicolons(s[..|s| - 1]) else s
  }

  /** Last occurrence of a character. */
  function FindLast(s: string, c: char): (r: Option<nat>)
    ensures r.Some? ==> r.value < |s|
  {
    if s == "" then None else if s[|s| - 1] == c then Some(|s| - 1) else FindLast(s[..|s| - 1], c)
  }

  datatype Prototype = Prototype(declPrefix: string, name: string, params: string)

  /** The part before the parameters: return type and name. */
  function ParseHead(before: string, prefix: string): Option<(string, string)> {
    var words := Words(before);
    if words == [] then None
    else
      var name := words[|words| - 1];
      if !(prefix <= name) || |name| > |before| then None
      else
        var decl := Trim(before[..|before| - |name|]);
        if decl == "" then None else Some((decl, name))
  }

  function ParsePrototype(raw: string, prefix: string): Option<Prototype> {
    var line := TrimSemicolons(Trim(raw));
    var open, close := Find(line, "("), FindLast(line, ')');
    if Trim(raw) == "" || open == None || close == None || close.value <= open.value then None
    else
      match ParseHead(Trim(line[..open.value]), prefix)
      case None => None
      case Some((decl, name)) => Some(Prototype(decl, name, Trim(line[open.value + 1..close.value])))
  }

  lemma {:induction false} SemicolonsTrimmed(s: string, semis: string)
    requires (s != "" ==> s[|s| - 1] != ';') && forall i :: 0 <= i < |semis| ==> semis[i] == ';'
    ensures TrimSemicolons(s + semis) == s
    decreases |semis|
  {
    var t := s + semis;
    if semis == "" {
      assert t == s;
    } else {
      assert t[..|t| - 1] == s + semis[..|semis| - 1];
      SemicolonsTrimmed(s, semis[..|semis| - 1]);
    }
  }

  /** Head and parameter text of a prototype. */
  lemma HeadReads(decl: string, gap: string, name: string, prefix: string)
    requires decl != "" && IsTrimmed(decl) && gap != "" && AllSpace(gap) && Solid(name)
    ensures Trim(decl + gap + name) == decl + gap + name
    ensures ParseHead(decl + gap + name, prefix) == if prefix <= name then Some((decl, name)) else None
  {
    hide Words, TrimStart, TrimEnd, Trim;
    var before := decl + gap + name;
    assert before[0] == decl[0] && before[|before| - 1] == name[|name| - 1];
    TrimOfTrimmed(before);
    assert (decl + gap)[|decl + gap| - 1] == gap[|gap| - 1];
    LastWord(decl + gap, name);
    var front := before[..|before| - |name|];
    assert front == decl + gap;
    assert front[..0] == "" && front[|decl|..] == gap && front[0..|decl|] == decl;
    assert Alone(front, decl, 0);
    AloneIsTrim(front, decl, 0);
  }

  lemma ParenthesesAt(head: string, params: string)
    requires '(' !in head
    ensures var line := head + "(" + params + ")";
      && Find(line, "(") == Some(|head|) && FindLast(line, ')') == Some(|line| - 1)
      && line[..|head|] == head && line[|head| + 1..|line| - 1] == params
  {
    hide Find;
    var line, rest := head + "(" + params + ")", params + ")";
    assert head + "" + "(" + rest == line && "" + "(" == "(" && head + "" == head;
    FindsParenthesis(head, "", rest);
    assert line[|line| - 1] == ')';
  }

  /** Main result about single prototypes: a line with a return type, a name and a parameter list in parentheses is read
      as just these, whatever the parameters contain. */
  lemma PrototypeReads(raw: string, prefix: string, decl: string, gap: string, name: string, params: string, semis: string)
    requires decl != "" && IsTrimmed(decl) && '(' !in decl && gap != "" && AllSpace(gap) && Solid(name) && '(' !in name
    requires forall i :: 0 <= i < |semis| ==> semis[i] == ';'
    requires Trim(raw) == decl + gap + name + "(" + params + ")" + semis
    ensures ParsePrototype(raw, prefix) == if prefix <= name then Some(Prototype(decl, name, Trim(params))) else None
  {
    hide Find, FindLast, TrimSemicolons, Trim, Words, ParseHead;
    var head := decl + gap + name;
    var line := head + "(" + params + ")";
    SemicolonsTrimmed(line, semis);
    assert line + semis == Trim(raw);
    BlanksHaveNoParenthesis(gap);
    ParenthesesAt(head, params);
    HeadReads(decl, gap, name, prefix);
  }

  lemma BlanksHaveNoParenthesis(gap: string)
    requires AllSpace(gap)
    ensures '(' !in gap
  {
    assert !IsSpace('(');
  }

  ghost predicate HasName(lines: seq<string>, i: nat, prefix: string, name: string)
    requires i < |lines|
  {
    ParsePrototype(lines[i], prefix).Some? && ParsePrototype(lines[i], prefix).value.name == name
  }

  /** Line `i` holds the first prototype of its name and the name is not hooked by hand. */
  ghost predicate Wanted(lines: seq<string>, i: nat, prefix: string, manualHooks: set<string>)
    requires i < |lines|
  {
    var p := ParsePrototype(lines[i], prefix);
    p.Some? && p.value.name !in manualHooks && !NamedBefore(lines, i, prefix, p.value.name)
  }

  ghost predicate NamedBefore(lines: seq<string>, n: nat, prefix: string, name: string)
    requires n <= |lines|
  {
    exists i :: 0 <= i < n && HasName(lines, i, prefix, name)
  }

  /** Wrapper `w` is made from line `i`: it declares the sanitized parameters and passes on their names. */
  ghost predicate Describes(lines: seq<string>, i: nat, prefix: string, w: Wrapper)
    requires i < |lines|
  {
    var p := ParsePrototype(lines[i], prefix);
    p.Some? && w.name == p.value.name && w.declPrefix == p.value.declPrefix && w.params == Sanitized(p.value.params)
    && NamedAs(Declared(p.value.params), w.argNames)
  }

  /** `w` is made from one of the first `n` lines. */
  ghost predicate From(lines: seq<string>, n: nat, prefix: string, manualHooks: set<string>, w: Wrapper)
    requires n <= |lines|
  {
    exists i :: 0 <= i < n && Wanted(lines, i, prefix, manualHooks) && Describes(lines, i, prefix, w)
  }

  /** Line `i` asks for a wrapper that can be made. */
  ghost predicate Makes(lines: seq<string>, i: nat, prefix: string, manualHooks: set<string>)
    requires i < |lines|
  {
    Wanted(lines, i, prefix, manualHooks) && AllNamed(Declared(ParsePrototype(lines[i], prefix).value.params))
  }

  ghost predicate Made(lines: seq<string>, i: nat, prefix: string, ws: seq<Wrapper>)
    requires i < |lines|
  {
    exists w :: w in ws && Describes(lines, i, prefix, w)
  }

  /** What holds of the names and wrappers collected from the first `n` lines. */
  ghost predicate Collected(lines: seq<string>, n: nat, prefix: string, manualHooks: set<string>, seen: set<string>, ws: seq<Wrapper>)
    requires n <= |lines|
  {
    && (forall name :: name in seen <==> name !in manualHooks && NamedBefore(lines, n, prefix, name))
    && (forall w :: w in ws ==> w.name in seen && From(lines, n, prefix, manualHooks, w))
    && (forall i :: 0 <= i < n && Makes(lines, i, prefix, manualHooks) ==> Made(lines, i, prefix, ws))
    && UniqueNames(ws)
  }

  lemma NamedBeforeStep(lines: seq<string>, n: nat, prefix: string, name: string)
    requires n < |lines|
    ensures NamedBefore(lines, n + 1, prefix, name) <==> NamedBefore(lines, n, prefix, name) || HasName(lines, n, prefix, name)
  {
    hide HasName;
  }

  lemma FromStep(lines: seq<string>, n: nat, prefix: string, manualHooks: set<string>, w: Wrapper)
    requires n < |lines| && From(lines, n, prefix, manualHooks, w)
    ensures From(lines, n + 1, prefix, manualHooks, w)
  {
    hide Wanted, Describes;
  }

  /** A line that asks for nothing new leaves everything as it was. */
  lemma SkipLine(lines: seq<string>, n: nat, prefix: string, manualHooks: set<string>, seen: set<string>, ws: seq<Wrapper>)
    requires n < |lines| && Collected(lines, n, prefix, manualHooks, seen, ws)
    requires ParsePrototype(lines[n], prefix).Some? ==> ParsePrototype(lines[n], prefix).value.name in manualHooks + seen
    ensures Collected(lines, n + 1, prefix, manualHooks, seen, ws)
  {
    hide ParsePrototype, Describes, NamedBefore, From, Made;
    forall name
      ensures name !in manualHooks && NamedBefore(lines, n + 1, prefix, name) <==> name in seen
    {
      NamedBeforeStep(lines, n, prefix, name);
    }
    forall w | w in ws
      ensures From(lines, n + 1, prefix, manualHooks, w)
    {
      FromStep(lines, n, prefix, manualHooks, w);
    }
  }

  /** A wanted line adds its name, and its wrapper if all its parameters are named. */
  lemma TakeLine(lines: seq<string>, n: nat, prefix: string, manualHooks: set<string>, seen: set<string>, ws: seq<Wrapper>, more: seq<Wrapper>)
    requires n < |lines| && Collected(lines, n, prefix, manualHooks, seen, ws)
    requires ParsePrototype(lines[n], prefix).Some? && ParsePrototype(lines[n], prefix).value.name !in manualHooks + seen
    requires |more| <= 1 && (more == [] ==> !Makes(lines, n, prefix, manualHooks)) && (more != [] ==> Describes(lines, n, prefix, more[0]))
    ensures Collected(lines, n + 1, prefix, manualHooks, seen + {ParsePrototype(lines[n], prefix).value.name}, ws + more)
  {
    hide ParsePrototype, NamedBefore, From, Made, Sanitized, Declared, NamedAs;
    forall name
      ensures NamedBefore(lines, n + 1, prefix, name) <==> NamedBefore(lines, n, prefix, name) || HasName(lines, n, prefix, name)
    {
      NamedBeforeStep(lines, n, prefix, name);
    }
    forall w | w in ws + more
      ensures From(lines, n + 1, prefix, manualHooks, w)
    {
      if w in ws {
        FromStep(lines, n, prefix, manualHooks, w);
      } else {
        FromLast(lines, n, prefix, manualHooks, w);
      }
    }
    forall i | 0 <= i <= n && Makes(lines, i, prefix, manualHooks)
      ensures Made(lines, i, prefix, ws + more)
    {
      MadeOfMore(lines, i, prefix, ws, more);
    }
  }

  lemma FromLast(lines: seq<string>, n: nat, prefix: string, manualHooks: set<string>, w: Wrapper)
    requires n < |lines| && Wanted(lines, n, prefix, manualHooks) && Describes(lines, n, prefix, w)
    ensures From(lines, n + 1, prefix, manualHooks, w)
  {
    hide Wanted, Describes;
  }

  lemma MadeOfMore(lines: seq<string>, i: nat, prefix: string, ws: seq<Wrapper>, more: seq<Wrapper>)
    requires i < |lines| && (Made(lines, i, prefix, ws) || (more != [] && Describes(lines, i, prefix, more[0])))
    ensures Made(lines, i, prefix, ws + more)
  {
    hide Describes;
    if !Made(lines, i, prefix, ws) {
      assert more[0] in ws + more;
    }
  }

  /** The wrappers of a header: strictly ascending by name, none for a hook written by hand; each is made from the
      first prototype of its name, and each such prototype whose parameters all have names has its wrapper. */
  method ParseMissingPrototypes(lines: seq<string>, manualHooks: set<string>, prefix: string) returns (wrappers: seq<Wrapper>)
    ensures Ascending(wrappers)
    ensures forall w :: w in wrappers ==> w.name !in manualHooks && From(lines, |lines|, prefix, manualHooks, w)
    ensures forall i :: 0 <= i < |lines| && Makes(lines, i, prefix, manualHooks) ==> Made(lines, i, prefix, wrappers)
  {
    hide ParsePrototype, NamedBefore, From, Made, Sanitized, Declared, NamedAs, ParamsOf, AllNamed, Collected, Wanted, Sorted, Ascending;
    wrappers := [];
    var seen: set<string> := {};
    NothingCollected(lines, prefix, manualHooks);
    for i := 0 to |lines|
      invariant Collected(lines, i, prefix, manualHooks, seen, wrappers)
    {
      var parsed := ParsePrototype(lines[i], prefix);
      if parsed == None || parsed.value.name in manualHooks || parsed.value.name in seen {
        SkipLine(lines, i, prefix, manualHooks, seen, wrappers);
        continue;
      }
      var proto := parsed.value;
      var params := SanitizeParams(proto.params);
      var names := ParseParamNames(params);
      SanitizedSplitsBack(proto.params);
      if names == None {
        TakeLine(lines, i, prefix, manualHooks, seen, wrappers, []);
        assert wrappers + [] == wrappers;
      } else {
        var w := Wrapper(proto.declPrefix, proto.name, params, names.value);
        TakeLine(lines, i, prefix, manualHooks, seen, wrappers, [w]);
        wrappers := wrappers + [w];
      }
      seen := seen + {proto.name};
    }
    FinishCollection(lines, prefix, manualHooks, seen, wrappers);
    wrappers := Sorted(wrappers);
  }

  lemma NothingCollected(lines: seq<string>, prefix: string, manualHooks: set<string>)
    ensures Collected(lines, 0, prefix, manualHooks, {}, [])
  {}

  lemma FinishCollection(lines: seq<string>, prefix: string, manualHooks: set<string>, seen: set<string>, ws: seq<Wrapper>)
    requires Collected(lines, |lines|, prefix, manualHooks, seen, ws)
    ensures Ascending(Sorted(ws))
    ensures forall w :: w in Sorted(ws) ==> w.name !in manualHooks && From(lines, |lines|, prefix, manualHooks, w)
    ensures forall i :: 0 <= i < |lines| && Makes(lines, i, prefix, manualHooks) ==> Made(lines, i, prefix, Sorted(ws))
  {
    hide NamedBefore, From, Makes, Describes, Ascending, Sorted;
    SortedAscends(ws);
    SameElements(ws, Sorted(ws));
  }

  /** Main result about the wrappers: each has the prefix and passes on exactly as many arguments as reading its
      own parameter list finds. */
  lemma WrapperPassesItsParams(lines: seq<string>, manualHooks: set<string>, prefix: string, w: Wrapper)
    requires From(lines, |lines|, prefix, manualHooks, w)
    ensures prefix <= w.name && NamedAs(ParamsOf(w.params), w.argNames)
  {
    hide ParsePrototype, Sanitized, Declared, NamedAs, ParamsOf;
    var i: nat :| i < |lines| && Wanted(lines, i, prefix, manualHooks) && Describes(lines, i, prefix, w);
    assert Describes(lines, i, prefix, w);
    ParsedHasPrefix(lines[i], prefix);
    SanitizedSplitsBack(ParsePrototype(lines[i], prefix).value.params);
  }

  lemma ParsedHasPrefix(raw: string, prefix: string)
    requires ParsePrototype(raw, prefix).Some?
    ensures prefix <= ParsePrototype(raw, prefix).value.name
  {
    hide Find, FindLast, TrimSemicolons, Trim, Words;
  }
}
