/** Printing JSON objects field by field, and a reader for the grammar of RFC 8259 to read them back with. */
module Json {
  import opened Common
  import opened Text

  predicate IsControl(c: char) { c as int < 0x20 || 0x7F <= c as int <= 0x9F }

  function Hex4(n: nat): (s: string)
    requires n < 0x1_0000
    ensures |s| == 4
  {
    Hex2(n / 0x100) + Hex2(n % 0x100)
  }

  function QuoteChar(c: char): string {
    if c == '"' then "\\\""
    else if c == '\\' then "\\\\"
    else if c == '\n' then "\\n"
    else if c == '\r' then "\\r"
    else if c == '\t' then "\\t"
    else if IsControl(c) then "\\u" + Hex4(c as int)
    else [c]
  }

  function QuoteChars(s: string): string { if s == "" then "" else QuoteChar(s[0]) + QuoteChars(s[1..]) }

  function Quote(s: string): string { "\"" + QuoteChars(s) + "\"" }

  lemma {:induction false} QuoteCharsAppend(s: string, c: char)
    ensures QuoteChars(s + [c]) == QuoteChars(s) + QuoteChar(c)
  {
    if s == "" {
      assert s + [c] == [c] && [c][1..] == "";
    } else {
      assert (s + [c])[1..] == s[1..] + [c];
      QuoteCharsAppend(s[1..], c);
    }
  }

  /** Characters that need no escape stand for themselves. */
  lemma {:induction false} QuotePlain(s: string)
    requires forall i :: 0 <= i < |s| ==> (' ' <= s[i] <= '~' || 0xA0 <= s[i] as int) && s[i] != '"' && s[i] != '\\'
    ensures Quote(s) == "\"" + s + "\""
  {
    if s != "" {
      QuotePlain(s[1..]);
      assert s == [s[0]] + s[1..];
      assert QuoteChars(s[1..]) == s[1..] by {
        assert Quote(s[1..])[1..|s|] == QuoteChars(s[1..])[..|s| - 1];
      }
    }
  }

  method EscapeChar(ch: char) returns (piece: string)
    ensures piece == QuoteChar(ch)
  {
    match ch
    case '"' => piece := "\\\"";
    case '\\' => piece := "\\\\";
    case '\n' => piece := "\\n";
    case '\r' => piece := "\\r";
    case '\t' => piece := "\\t";
    case c =>
      if IsControl(c) {
        piece := "\\u" + Hex4(c as int);
      } else {
        piece := [c];
      }
  }

  method JsonQuote(value: string) returns (out: string)
    ensures out == Quote(value)
  {
    hide QuoteChar;
    out := "\"";
    var i := 0;
    while i < |value|
      invariant 0 <= i <= |value|
      invariant out == "\"" + QuoteChars(value[..i])
    {
      assert value[..i + 1] == value[..i] + [value[i]];
      QuoteCharsAppend(value[..i], value[i]);
      var piece := EscapeChar(value[i]);
      out := out + piece;
      i := i + 1;
    }
    assert value[..i] == value;
    out := out + "\"";
  }

  datatype Value =
    | Null | Bool(b: bool) | Number(text: string) | Str(s: string)
    | Array(items: seq<Value>) | Object(members: seq<(string, Value)>)

  datatype Parsed<T> = Fail | Ok(value: T, rest: string)

  function SkipWs(s: string): (r: string)
    ensures |r| <= |s|
  {
    if s != "" && (s[0] == ' ' || s[0] == '\t' || s[0] == '\n' || s[0] == '\r') then SkipWs(s[1..]) else s
  }

  /** Four hexadecimal digits as a number, or 0x1_0000. */
  function ReadHex4(s: string): nat {
    if |s| < 4 || ReadHex2(s[0], s[1]) == 0x100 || ReadHex2(s[2], s[3]) == 0x100 then 0x1_0000
    else ReadHex2(s[0], s[1]) * 0x100 + ReadHex2(s[2], s[3])
  }

  /** Two hexadecimal digits as a number, or 0x100. */
  function ReadHex2(a: char, b: char): (n: nat)
    ensures n <= 0x100
  {
    if HexValue(a) == 16 || HexValue(b) == 16 then 0x100 else HexValue(a) * 0x10 + HexValue(b)
  }

  /** One escape after the backslash; a surrogate must come as a pair. */
  function ParseEscape(s: string): (p: Parsed<char>)
    ensures p.Ok? ==> |p.rest| < |s|
  {
    if s == "" then Fail
    else if s[0] == '"' || s[0] == '\\' || s[0] == '/' then Ok(s[0], s[1..])
    else if s[0] == 'b' then Ok(8 as char, s[1..])
    else if s[0] == 'f' then Ok(12 as char, s[1..])
    else if s[0] == 'n' then Ok('\n', s[1..])
    else if s[0] == 'r' then Ok('\r', s[1..])
    else if s[0] == 't' then Ok('\t', s[1..])
    else if s[0] == 'u' && |s| >= 5 then
      var code := ReadHex4(s[1..5]);
      if code < 0xD800 || 0xE000 <= code < 0x1_0000 then Ok(code as char, s[5..])
      else if code < 0xDC00 && |s| >= 11 && s[5] == '\\' && s[6] == 'u' then
        var low := ReadHex4(s[7..11]);
        if 0xDC00 <= low < 0xE000 then Ok((0x1_0000 + (code - 0xD800) * 0x400 + (low - 0xDC00)) as char, s[11..]) else Fail
      else Fail
    else Fail
  }

  /** The characters of a string up to and including the closing quote. */
  function ParseChars(s: string): (p: Parsed<string>)
    ensures p.Ok? ==> |p.rest| < |s|
    decreases |s|
  {
    if s == "" || s[0] as int < 0x20 then Fail
    else if s[0] == '"' then Ok("", s[1..])
    else if s[0] == '\\' then
      match ParseEscape(s[1..])
      case Fail => Fail
      case Ok(c, rest) => Prepend(c, ParseChars(rest))
    else Prepend(s[0], ParseChars(s[1..]))
  }

  function Prepend(c: char, p: Parsed<string>): Parsed<string> {
    match p case Fail => Fail case Ok(v, rest) => Ok([c] + v, rest)
  }

  predicate IsDigit(c: char) { '0' <= c <= '9' }

  function Digits(s: string): (n: nat)
    ensures n <= |s| && (forall i :: 0 <= i < n ==> IsDigit(s[i])) && (n < |s| ==> !IsDigit(s[n]))
  {
    if s != "" && IsDigit(s[0]) then 1 + Digits(s[1..]) else 0
  }

  /** Length of the number at the front of `s`, or 0 when there is none. */
  function NumberLength(s: string): (n: nat)
    ensures n <= |s|
  {
    var sign := if s != "" && s[0] == '-' then 1 else 0;
    var whole := Digits(s[sign..]);
    if whole == 0 || (whole > 1 && s[sign] == '0') then 0
    else FractionLength(s, sign + whole)
  }

  function FractionLength(s: string, at: nat): (n: nat)
    requires at <= |s|
    ensures n <= |s|
  {
    if at < |s| && s[at] == '.' then
      var digits := Digits(s[at + 1..]);
      if digits == 0 then 0 else ExponentLength(s, at + 1 + digits)
    else ExponentLength(s, at)
  }

  function ExponentLength(s: string, at: nat): (n: nat)
    requires at <= |s|
    ensures n <= |s|
  {
    if at < |s| && (s[at] == 'e' || s[at] == 'E') then
      var from := at + 1 + SignAt(s, at + 1);
      var digits := Digits(s[from..]);
      if digits == 0 then 0 else from + digits
    else at
  }

  function SignAt(s: string, at: nat): (n: nat)
    ensures n <= 1 && (at <= |s| ==> at + n <= |s|)
  {
    if at < |s| && (s[at] == '+' || s[at] == '-') then 1 else 0
  }

  function ParseLiteral(s: string): (p: Parsed<Value>)
    ensures p.Ok? ==> |p.rest| < |s|
  {
    if "true" <= s then Ok(Bool(true), s[4..])
    else if "false" <= s then Ok(Bool(false), s[5..])
    else if "null" <= s then Ok(Null, s[4..])
    else
      var n := NumberLength(s);
      if n == 0 then Fail else Ok(Number(s[..n]), s[n..])
  }

  function ParseValue(s: string): (p: Parsed<Value>)
    ensures p.Ok? ==> |p.rest| < |s|
    decreases |s|, 2
  {
    var t := SkipWs(s);
    if t == "" then Fail
    else if t[0] == '"' then
      match ParseChars(t[1..])
      case Fail => Fail
      case Ok(v, rest) => Ok(Str(v), rest)
    else if t[0] == '{' then
      var u := SkipWs(t[1..]);
      if u != "" && u[0] == '}' then Ok(Object([]), u[1..])
      else
        match ParseMembers(t[1..])
        case Fail => Fail
        case Ok(members, rest) => Ok(Object(members), rest)
    else if t[0] == '[' then
      var u := SkipWs(t[1..]);
      if u != "" && u[0] == ']' then Ok(Array([]), u[1..])
      else
        match ParseItems(t[1..])
        case Fail => Fail
        case Ok(items, rest) => Ok(Array(items), rest)
    else ParseLiteral(t)
  }

  /** One member and whatever follows it up to the closing brace. */
  function ParseMembers(s: string): (p: Parsed<seq<(string, Value)>>)
    ensures p.Ok? ==> |p.rest| < |s|
    decreases |s|, 1
  {
    match ParseKey(s)
    case Fail => Fail
    case Ok(key, afterKey) =>
      match ParseValue(afterKey)
      case Fail => Fail
      case Ok(v, afterValue) =>
        var u := SkipWs(afterValue);
        if u != "" && u[0] == '}' then Ok([(key, v)], u[1..])
        else if u != "" && u[0] == ',' then
          match ParseMembers(u[1..])
          case Fail => Fail
          case Ok(more, rest) => Ok([(key, v)] + more, rest)
        else Fail
  }

  /** A member's name and the colon after it. */
  function ParseKey(s: string): (p: Parsed<string>)
    ensures p.Ok? ==> |p.rest| < |s|
  {
    var t := SkipWs(s);
    if t == "" || t[0] != '"' then Fail
    else
      match ParseChars(t[1..])
      case Fail => Fail
      case Ok(key, rest) =>
        var u := SkipWs(rest);
        if u != "" && u[0] == ':' then Ok(key, u[1..]) else Fail
  }

  function ParseItems(s: string): (p: Parsed<seq<Value>>)
    ensures p.Ok? ==> |p.rest| < |s|
    decreases |s|, 3
  {
    match ParseValue(s)
    case Fail => Fail
    case Ok(v, afterValue) =>
      var u := SkipWs(afterValue);
      if u != "" && u[0] == ']' then Ok([v], u[1..])
      else if u != "" && u[0] == ',' then
        match ParseItems(u[1..])
        case Fail => Fail
        case Ok(more, rest) => Ok([v] + more, rest)
      else Fail
  }

  /** A whole JSON text: one value with white space around it. */
  function ParseText(s: string): Option<Value> {
    match ParseValue(s)
    case Fail => None
    case Ok(v, rest) => if SkipWs(rest) == "" then Some(v) else None
  }

  lemma ReadHex2Inverts(n: nat)
    requires n < 0x100
    ensures ReadHex2(Hex2(n)[0], Hex2(n)[1]) == n
  {
    HexDigitValue(n / 0x10);
    HexDigitValue(n % 0x10);
  }

  lemma ReadHex4Inverts(n: nat)
    requires n < 0x1_0000
    ensures ReadHex4(Hex4(n)) == n
  {
    hide Hex2, ReadHex2;
    var hi, lo := Hex2(n / 0x100), Hex2(n % 0x100);
    ReadHex2Inverts(n / 0x100);
    ReadHex2Inverts(n % 0x100);
    assert Hex4(n) == [hi[0], hi[1], lo[0], lo[1]];
  }

  lemma ControlEscapeReads(c: char, t: string)
    requires IsControl(c)
    ensures ParseEscape("u" + Hex4(c as int) + t) == Ok(c, t)
  {
    var s := "u" + Hex4(c as int) + t;
    assert s[1..5] == Hex4(c as int) && s[5..] == t;
    ReadHex4Inverts(c as int);
  }

  /** An escape that reads as `c` stands for `c` inside a string. */
  lemma EscapeInString(c: char, escape: string, t: string)
    requires ParseEscape(escape + t) == Ok(c, t)
    ensures ParseChars("\\" + escape + t) == Prepend(c, ParseChars(t))
  {
    hide ParseEscape;
    var s := "\\" + escape + t;
    assert s[0] == '\\' && s[1..] == escape + t;
  }

  lemma ShortEscapeReads(letter: char, c: char, t: string)
    requires (letter == c && (c == '"' || c == '\\')) || (letter == 'n' && c == '\n') || (letter == 'r' && c == '\r') || (letter == 't' && c == '\t')
    ensures ParseEscape([letter] + t) == Ok(c, t)
  {
    assert ([letter] + t)[1..] == t;
  }

  lemma PlainCharReads(c: char, t: string)
    requires c as int >= 0x20 && c != '"' && c != '\\'
    ensures ParseChars([c] + t) == Prepend(c, ParseChars(t))
  {
    assert ([c] + t)[1..] == t;
  }

  lemma QuotedCharReads(c: char, t: string)
    ensures ParseChars(QuoteChar(c) + t) == Prepend(c, ParseChars(t))
  {
    hide ParseEscape, ParseChars, Hex4;
    if c == '"' || c == '\\' || c == '\n' || c == '\r' || c == '\t' {
      var letter := if c == '\n' then 'n' else if c == '\r' then 'r' else if c == '\t' then 't' else c;
      ShortEscapeReads(letter, c, t);
      EscapeInString(c, [letter], t);
      assert QuoteChar(c) == "\\" + [letter];
    } else if IsControl(c) {
      ControlEscapeReads(c, t);
      EscapeInString(c, "u" + Hex4(c as int), t);
      assert QuoteChar(c) == "\\" + ("u" + Hex4(c as int));
    } else {
      PlainCharReads(c, t);
    }
  }

  /** Quoting is undone by the reader for every character sequence, whatever follows the closing quote. */
  lemma {:induction false} QuoteRoundTrip(s: string, t: string)
    ensures ParseChars(QuoteChars(s) + "\"" + t) == Ok(s, t)
  {
    hide QuoteChar, ParseEscape;
    if s == "" {
      assert QuoteChars(s) + "\"" + t == ['"'] + t;
    } else {
      var more := QuoteChars(s[1..]) + "\"" + t;
      assert QuoteChars(s) + "\"" + t == QuoteChar(s[0]) + more;
      QuotedCharReads(s[0], more);
      QuoteRoundTrip(s[1..], t);
      assert [s[0]] + s[1..] == s;
    }
  }

  /** A value may be followed by what follows a member: a comma or a closing brace. */
  predicate Follows(t: string) { t != "" && (t[0] == ',' || t[0] == '}') }

  lemma {:induction false} SkipWsThen(s: string, t: string)
    requires SkipWs(s) != "" || Follows(t)
    ensures SkipWs(s + t) == SkipWs(s) + t
  {
    if s == "" {
      assert s + t == t;
    } else if SkipWs(s) != s {
      assert (s + t)[1..] == s[1..] + t;
      SkipWsThen(s[1..], t);
    }
  }

  lemma EscapeThen(s: string, t: string)
    requires ParseEscape(s).Ok?
    ensures ParseEscape(s + t) == Ok(ParseEscape(s).value, ParseEscape(s).rest + t)
  {
    assert (s + t)[1..] == s[1..] + t;
    if |s| >= 5 {
      assert (s + t)[1..5] == s[1..5] && (s + t)[5..] == s[5..] + t;
    }
    if |s| >= 11 {
      assert (s + t)[7..11] == s[7..11] && (s + t)[11..] == s[11..] + t;
    }
  }

  lemma {:induction false} CharsThen(s: string, t: string)
    requires ParseChars(s).Ok?
    ensures ParseChars(s + t) == Ok(ParseChars(s).value, ParseChars(s).rest + t)
    decreases |s|
  {
    hide ParseEscape;
    assert (s + t)[1..] == s[1..] + t;
    if s[0] == '"' {
    } else if s[0] == '\\' {
      EscapeThen(s[1..], t);
      CharsThen(ParseEscape(s[1..]).rest, t);
    } else {
      CharsThen(s[1..], t);
    }
  }

  lemma {:induction false} DigitsThen(s: string, t: string)
    requires Follows(t)
    ensures Digits(s + t) == Digits(s)
  {
    if s == "" {
      assert s + t == t;
    } else {
      assert (s + t)[1..] == s[1..] + t;
      if IsDigit(s[0]) {
        DigitsThen(s[1..], t);
      }
    }
  }

  lemma SignThen(s: string, at: nat, t: string)
    requires Follows(t) && at <= |s|
    ensures SignAt(s + t, at) == SignAt(s, at)
  {}

  lemma SomethingFollows(t: string)
    requires Follows(t)
    ensures t != "" && t[0] != 'e' && t[0] != 'E'
  {}

  lemma ExponentThen(s: string, at: nat, t: string)
    requires Follows(t) && at <= |s|
    ensures ExponentLength(s + t, at) == ExponentLength(s, at)
  {
    hide SignAt, Digits, Follows;
    SomethingFollows(t);
    assert at < |s| ==> (s + t)[at] == s[at];
    assert at == |s| ==> (s + t)[at] == t[0];
    if at < |s| && (s[at] == 'e' || s[at] == 'E') {
      SignThen(s, at + 1, t);
      var from := at + 1 + SignAt(s, at + 1);
      assert (s + t)[from..] == s[from..] + t;
      DigitsThen(s[from..], t);
    }
  }

  lemma FractionThen(s: string, at: nat, t: string)
    requires Follows(t) && at <= |s|
    ensures FractionLength(s + t, at) == FractionLength(s, at)
  {
    hide ExponentLength;
    if at < |s| && s[at] == '.' {
      assert (s + t)[at + 1..] == s[at + 1..] + t;
      DigitsThen(s[at + 1..], t);
      ExponentThen(s, at + 1 + Digits(s[at + 1..]), t);
    } else {
      ExponentThen(s, at, t);
    }
  }

  lemma NumberThen(s: string, t: string)
    requires Follows(t)
    ensures NumberLength(s + t) == NumberLength(s)
  {
    hide FractionLength;
    var sign := if s != "" && s[0] == '-' then 1 else 0;
    assert (s + t)[sign..] == s[sign..] + t;
    DigitsThen(s[sign..], t);
    FractionThen(s, sign + Digits(s[sign..]), t);
  }

  lemma LiteralThen(s: string, t: string)
    requires ParseLiteral(s).Ok? && Follows(t)
    ensures ParseLiteral(s + t) == Ok(ParseLiteral(s).value, ParseLiteral(s).rest + t)
  {
    hide NumberLength;
    NumberThen(s, t);
    var r := ParseLiteral(s).rest;
    var n := |s| - |r|;
    assert s[..n] + r == s;
    assert (s + t)[..n] == s[..n] && (s + t)[n..] == r + t;
    WordThen("true", s, t);
    WordThen("false", s, t);
    WordThen("null", s, t);
  }

  lemma SpillsOver(word: string, s: string, t: string)
    requires t != "" && |word| > |s|
    ensures word <= s + t ==> t[0] in word
  {
    if word <= s + t {
      assert word[|s|] == (s + t)[|s|];
    }
  }

  lemma WordThen(word: string, s: string, t: string)
    requires Follows(t) && ',' !in word && '}' !in word
    ensures word <= s + t <==> word <= s
  {
    if |word| > |s| {
      SpillsOver(word, s, t);
    }
    if word <= s {
      assert forall i :: 0 <= i < |word| ==> word[i] == (s + t)[i];
    }
    if |word| <= |s| {
      assert forall i :: 0 <= i < |word| ==> (s + t)[i] == s[i];
    }
  }

  lemma KeyThen(s: string, t: string)
    requires ParseKey(s).Ok?
    ensures ParseKey(s + t) == Ok(ParseKey(s).value, ParseKey(s).rest + t)
  {
    hide ParseChars;
    var u := SkipWs(s);
    SkipWsThen(s, t);
    assert (u + t)[1..] == u[1..] + t;
    CharsThen(u[1..], t);
    var rest := ParseChars(u[1..]).rest;
    SkipWsThen(rest, t);
    assert (SkipWs(rest) + t)[1..] == SkipWs(rest)[1..] + t;
  }

  /** What a value parsed to does not depend on what follows it. */
  lemma {:induction false} ValueThen(s: string, t: string)
    requires ParseValue(s).Ok? && Follows(t)
    ensures ParseValue(s + t) == Ok(ParseValue(s).value, ParseValue(s).rest + t)
    decreases |s|, 2
  {
    hide ParseChars, ParseLiteral, ParseMembers, ParseItems;
    var u := SkipWs(s);
    SkipWsThen(s, t);
    assert (u + t)[1..] == u[1..] + t;
    if u[0] == '"' {
      CharsThen(u[1..], t);
    } else if u[0] == '{' || u[0] == '[' {
      var v := SkipWs(u[1..]);
      if v != "" {
        SkipWsThen(u[1..], t);
        assert (v + t)[1..] == v[1..] + t;
      }
      if u[0] == '{' && (v == "" || v[0] != '}') {
        MembersThen(u[1..], t);
        MembersNeedText(u[1..]);
      } else if u[0] == '[' && (v == "" || v[0] != ']') {
        ItemsThen(u[1..], t);
        ItemsNeedText(u[1..]);
      }
    } else {
      LiteralThen(u, t);
    }
  }

  lemma MembersNeedText(s: string)
    requires ParseMembers(s).Ok?
    ensures SkipWs(s) != ""
  {}

  lemma ItemsNeedText(s: string)
    requires ParseItems(s).Ok?
    ensures SkipWs(s) != ""
  {}

  lemma {:induction false} MembersThen(s: string, t: string)
    requires ParseMembers(s).Ok? && Follows(t)
    ensures ParseMembers(s + t) == Ok(ParseMembers(s).value, ParseMembers(s).rest + t)
    decreases |s|, 1
  {
    hide ParseKey, ParseValue;
    KeyThen(s, t);
    var afterKey := ParseKey(s).rest;
    ValueThen(afterKey, t);
    var afterValue := ParseValue(afterKey).rest;
    var u := SkipWs(afterValue);
    SkipWsThen(afterValue, t);
    assert (u + t)[1..] == u[1..] + t;
    if u[0] == ',' {
      MembersThen(u[1..], t);
    }
  }

  lemma {:induction false} ItemsThen(s: string, t: string)
    requires ParseItems(s).Ok? && Follows(t)
    ensures ParseItems(s + t) == Ok(ParseItems(s).value, ParseItems(s).rest + t)
    decreases |s|, 3
  {
    hide ParseValue;
    ValueThen(s, t);
    var afterValue := ParseValue(s).rest;
    var u := SkipWs(afterValue);
    SkipWsThen(afterValue, t);
    assert (u + t)[1..] == u[1..] + t;
    if u[0] == ',' {
      ItemsThen(u[1..], t);
    }
  }

  /** A field as it is passed to the printer. */
  datatype Field = FieldStr(s: string) | FieldBool(b: bool) | FieldInt(n: int) | FieldRaw(raw: string)

  function FieldText(f: Field): string {
    match f
    case FieldStr(s) => Quote(s)
    case FieldBool(b) => if b then "true" else "false"
    case FieldInt(n) => Signed(n)
    case FieldRaw(raw) => raw
  }

  /** The value denotes what the field was given: the same characters, the same truth value, an integer number of the
      same value, or what the raw text says. */
  predicate Denotes(v: Value, f: Field) {
    match f
    case FieldStr(s) => v == Str(s)
    case FieldBool(b) => v == Bool(b)
    case FieldInt(n) => v.Number? && IsInteger(v.text) && ReadSigned(v.text) == n
    case FieldRaw(raw) => ParseText(raw) == Some(v)
  }

  /** The value a field's text reads as, if it is JSON. */
  function Meaning(f: Field): Option<Value> {
    match f
    case FieldStr(s) => Some(Str(s))
    case FieldBool(b) => Some(Bool(b))
    case FieldInt(n) => Some(Number(Signed(n)))
    case FieldRaw(raw) => ParseText(raw)
  }

  function MembersText(fields: seq<(string, Field)>): string
    decreases |fields|
  {
    if fields == [] then ""
    else
      var (key, f) := fields[|fields| - 1];
      MembersText(fields[..|fields| - 1]) + KeyText(|fields| == 1, key) + FieldText(f)
  }

  function KeyText(first: bool, key: string): string { (if first then "" else ",") + Quote(key) + ":" }

  function ObjectText(fields: seq<(string, Field)>): string { "{" + MembersText(fields) + "}" }

  lemma MembersTextAppend(fields: seq<(string, Field)>, key: string, f: Field)
    ensures MembersText(fields + [(key, f)]) == MembersText(fields) + KeyText(fields == [], key) + FieldText(f)
  {
    assert (fields + [(key, f)])[..|fields|] == fields;
  }

  /** The text so far with one member more. */
  lemma PushedText(fields: seq<(string, Field)>, key: string, f: Field)
    ensures "{" + MembersText(fields) + KeyText(fields == [], key) + FieldText(f) == "{" + MembersText(fields + [(key, f)])
  {
    hide MembersText, KeyText, FieldText;
    MembersTextAppend(fields, key, f);
    Regroup("{", MembersText(fields), KeyText(fields == [], key), FieldText(f));
  }

  lemma Regroup(a: string, b: string, c: string, d: string)
    ensures a + b + c + d == a + (b + c + d)
  {}

  lemma KeyJoins(base: string, first: bool, key: string)
    ensures (if first then base else base + ",") + Quote(key) + ":" == base + KeyText(first, key)
  {
    hide Quote;
    var comma := if first then "" else ",";
    assert (if first then base else base + ",") == base + comma;
    assert base + comma + Quote(key) + ":" == base + (comma + Quote(key) + ":");
  }

  method FieldTextOf(f: Field) returns (value: string)
    ensures value == FieldText(f)
  {
    hide Quote, Signed;
    match f {
      case FieldStr(s) => value := JsonQuote(s);
      case FieldBool(b) => value := if b then "true" else "false";
      case FieldInt(n) => value := Signed(n);
      case FieldRaw(raw) => value := raw;
    }
  }

  class JsonObject {
    var out: string
    var first: bool
    ghost var fields: seq<(string, Field)>

    ghost predicate Valid() reads this { out == "{" + MembersText(fields) && (first <==> fields == []) }

    constructor ()
      ensures Valid() && fields == []
    {
      out, first, fields := "{", true, [];
    }

    method PushFieldKey(key: string)
      modifies this
      ensures out == old(out) + KeyText(old(first), key) && !first && fields == old(fields)
    {
      hide Quote, KeyText;
      if !first {
        out := out + ",";
      }
      first := false;
      var quoted := JsonQuote(key);
      out := out + quoted;
      out := out + ":";
      KeyJoins(old(out), old(first), key);
    }

    method Push(key: string, f: Field)
      requires Valid()
      modifies this
      ensures Valid() && fields == old(fields) + [(key, f)]
    {
      hide MembersText, Quote, KeyText, FieldText;
      PushFieldKey(key);
      var value := FieldTextOf(f);
      out := out + value;
      fields := fields + [(key, f)];
      PushedText(old(fields), key, f);
    }

    method Finish() returns (text: string)
      requires Valid()
      ensures text == ObjectText(fields)
    {
      text := out + "}";
    }
  }

  lemma {:induction false} DigitsAll(s: string)
    requires forall i :: 0 <= i < |s| ==> IsDigit(s[i])
    ensures Digits(s) == |s|
  {
    if s != "" {
      DigitsAll(s[1..]);
    }
  }

  lemma SignedIsNumber(n: int)
    ensures NumberLength(Signed(n)) == |Signed(n)|
    ensures ParseValue(Signed(n)) == Ok(Number(Signed(n)), "")
  {
    var s := Signed(n);
    if n < 0 {
      assert s[1..] == Decimal(-n);
      DigitsAll(Decimal(-n));
      assert s[1] == Decimal(-n)[0];
    } else {
      assert s[0..] == s;
      DigitsAll(Decimal(n));
    }
    assert s[|s|..] == "" && s[..|s|] == s;
    assert SkipWs(s) == s;
    assert s[0] != 't' && s[0] != 'f' && s[0] != 'n';
    assert !("true" <= s) && !("false" <= s) && !("null" <= s);
  }

  /** Each field's text reads as its meaning, with only white space left over. */
  lemma FieldReads(f: Field)
    requires Meaning(f).Some?
    ensures var p := ParseValue(FieldText(f)); p.Ok? && p.value == Meaning(f).value && SkipWs(p.rest) == ""
  {
    match f
    case FieldStr(s) =>
      assert Quote(s)[1..] == QuoteChars(s) + "\"" + "";
      QuoteRoundTrip(s, "");
      assert SkipWs(Quote(s)) == Quote(s);
    case FieldBool(b) =>
      assert "true"[4..] == "" && "false"[5..] == "";
      assert SkipWs("true") == "true" && SkipWs("false") == "false";
    case FieldInt(n) => SignedIsNumber(n);
    case FieldRaw(_) =>
  }

  function Members(fields: seq<(string, Field)>): seq<(string, Value)>
    requires forall i :: 0 <= i < |fields| ==> Meaning(fields[i].1).Some?
  {
    seq(|fields|, i requires 0 <= i < |fields| => (fields[i].0, Meaning(fields[i].1).value))
  }

  /** One printed member, followed by a comma or the closing brace. */
  lemma MemberReads(key: string, f: Field, t: string)
    requires Meaning(f).Some? && Follows(t)
    ensures var s := Quote(key) + ":" + FieldText(f) + t;
      && ParseKey(s) == Ok(key, FieldText(f) + t)
      && ParseValue(FieldText(f) + t).Ok? && ParseValue(FieldText(f) + t).value == Meaning(f).value
      && SkipWs(ParseValue(FieldText(f) + t).rest) == t
  {
    hide ParseValue, Meaning, FieldText;
    var after := ":" + (FieldText(f) + t);
    var s := Quote(key) + ":" + FieldText(f) + t;
    assert s[1..] == QuoteChars(key) + "\"" + after;
    QuoteRoundTrip(key, after);
    assert SkipWs(s) == s && SkipWs(after) == after && after[1..] == FieldText(f) + t;
    FieldReads(f);
    ValueThen(FieldText(f), t);
    SkipWsThen(ParseValue(FieldText(f)).rest, t);
    assert "" + t == t;
  }

  lemma LastMemberReads(key: string, f: Field, tail: string)
    requires Meaning(f).Some?
    requires tail == "}" || (tail != "" && tail[0] == ',' && ParseMembers(tail[1..]).Ok?)
    ensures ParseMembers(Quote(key) + ":" + FieldText(f) + tail) ==
      if tail == "}" then Ok([(key, Meaning(f).value)], "")
      else Ok([(key, Meaning(f).value)] + ParseMembers(tail[1..]).value, ParseMembers(tail[1..]).rest)
  {
    hide ParseKey, ParseValue, Meaning, FieldText, Quote;
    MemberReads(key, f, tail);
    assert tail == "}" ==> tail[1..] == "";
  }

  lemma MembersAppend(fields: seq<(string, Field)>, key: string, f: Field)
    requires Meaning(f).Some? && forall i :: 0 <= i < |fields| ==> Meaning(fields[i].1).Some?
    ensures Members(fields + [(key, f)]) == Members(fields) + [(key, Meaning(f).value)]
  {
    hide Meaning;
  }

  /** The members of the first fields in front of those of a tail that reads. */
  lemma {:induction false} MembersRead(fields: seq<(string, Field)>, tail: string)
    requires fields != [] && forall i :: 0 <= i < |fields| ==> Meaning(fields[i].1).Some?
    requires tail == "}" || (tail != "" && tail[0] == ',' && ParseMembers(tail[1..]).Ok?)
    ensures ParseMembers(MembersText(fields) + tail) ==
      if tail == "}" then Ok(Members(fields), "")
      else Ok(Members(fields) + ParseMembers(tail[1..]).value, ParseMembers(tail[1..]).rest)
    decreases |fields|
  {
    hide ParseMembers, Meaning, FieldText, Quote, MembersText;
    var front := fields[..|fields| - 1];
    var (key, f) := fields[|fields| - 1];
    var member := Quote(key) + ":" + FieldText(f);
    LastMemberReads(key, f, tail);
    assert fields == front + [(key, f)];
    MembersTextAppend(front, key, f);
    MembersAppend(front, key, f);
    if front == [] {
      NoMembersText();
      assert MembersText(fields) == member;
      assert Members(fields) == [(key, Meaning(f).value)];
    } else {
      var more := "," + (member + tail);
      assert more[1..] == member + tail;
      MembersRead(front, more);
      assert MembersText(fields) + tail == MembersText(front) + more;
      if tail != "}" {
        assert Members(front) + ([(key, Meaning(f).value)] + ParseMembers(tail[1..]).value) == Members(fields) + ParseMembers(tail[1..]).value;
      }
    }
  }

  lemma NoMembersText()
    ensures MembersText([]) == "" && Members([]) == []
  {}

  lemma EmptyObjectReads()
    ensures ParseText("{}") == Some(Object([]))
  {
    var s := "{}";
    assert SkipWs(s) == s && s[1..] == "}" && s[1..][1..] == "";
    assert SkipWs("}") == "}";
  }

  lemma ObjectReads(fields: seq<(string, Field)>)
    requires forall i :: 0 <= i < |fields| ==> Meaning(fields[i].1).Some?
    ensures ParseText(ObjectText(fields)) == Some(Object(Members(fields)))
  {
    hide ParseMembers, Quote, FieldText, Meaning, MembersText;
    if fields == [] {
      NoMembersText();
      EmptyObjectReads();
      assert ObjectText(fields) == "{}";
    } else {
      MembersRead(fields, "}");
      var body := MembersText(fields) + "}";
      var s := ObjectText(fields);
      assert s[1..] == body && SkipWs(s) == s;
      StartsWithQuote(fields);
      assert SkipWs(body) == body;
      assert ParseValue(s) == Ok(Object(Members(fields)), "");
    }
  }

  lemma MeaningDenotes(f: Field)
    requires f.FieldRaw? ==> ParseText(f.raw).Some?
    ensures Meaning(f).Some? && Denotes(Meaning(f).value, f)
  {
    hide ParseText, Signed, ReadSigned, IsInteger;
    if f.FieldInt? {
      SignedReadsBack(f.n);
    }
  }

  /** Main result: what the printer yields for any fields whose raw texts are JSON is a JSON text, and it reads back as
      an object with the same keys in the same order, each with a value that denotes what its field was given. */
  lemma ObjectRoundTrip(fields: seq<(string, Field)>)
    requires forall i :: 0 <= i < |fields| && fields[i].1.FieldRaw? ==> ParseText(fields[i].1.raw).Some?
    ensures var r := ParseText(ObjectText(fields));
      && r.Some? && r.value.Object? && |r.value.members| == |fields|
      && forall i :: 0 <= i < |fields| ==> r.value.members[i].0 == fields[i].0 && Denotes(r.value.members[i].1, fields[i].1)
  {
    hide ParseText, ObjectText, Meaning, Denotes;
    forall i | 0 <= i < |fields|
      ensures Meaning(fields[i].1).Some? && Denotes(Meaning(fields[i].1).value, fields[i].1)
    {
      MeaningDenotes(fields[i].1);
    }
    ObjectReads(fields);
  }

  lemma {:induction false} StartsWithQuote(fields: seq<(string, Field)>)
    requires fields != []
    ensures MembersText(fields) != "" && MembersText(fields)[0] == '"'
    decreases |fields|
  {
    if |fields| > 1 {
      StartsWithQuote(fields[..|fields| - 1]);
    }
  }
}
