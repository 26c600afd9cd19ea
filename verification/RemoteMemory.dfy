/** Reading strings and buffers out of the traced process, and showing bytes as text. */
module RemoteMemory {
  import opened Common
  import opened Text

  const U64_MAX: nat := 0xFFFF_FFFF_FFFF_FFFF
  const CHUNK: nat := 256
  const MAX_LEN: nat := 4096

  /** The byte at an address, if it can be read. */
  type Memory = nat -> Option<byte>

  /** The bytes from `at` up to the first one that cannot be read, at most `len` of them. */
  function Readable(mem: Memory, at: nat, len: nat): (s: seq<byte>)
    ensures |s| <= len
    decreases len
  {
    if len == 0 || mem(at) == None then [] else [mem(at).value] + Readable(mem, at + 1, len - 1)
  }

  lemma {:induction false} ReadableBytes(mem: Memory, at: nat, len: nat)
    ensures var s := Readable(mem, at, len);
      && (forall i :: 0 <= i < |s| ==> mem(at + i) == Some(s[i]))
      && (|s| < len ==> mem(at + |s|) == None)
    decreases len
  {
    if len > 0 && mem(at).Some? {
      ReadableBytes(mem, at + 1, len - 1);
      var s, rest := Readable(mem, at, len), Readable(mem, at + 1, len - 1);
      assert forall i :: 1 <= i < |s| ==> s[i] == rest[i - 1] && mem(at + 1 + (i - 1)) == Some(rest[i - 1]);
    }
  }

  /** One remote read: a short answer means the next byte cannot be read, an empty one fails. */
  function ReadRemoteBytes(mem: Memory, at: nat, len: nat): Option<seq<byte>> {
    if len == 0 then Some([])
    else
      var bytes := Readable(mem, at, len);
      if bytes == [] then None else Some(bytes)
  }

  function FirstNul(s: seq<byte>): (n: nat)
    ensures n <= |s| && (n < |s| ==> s[n] == 0)
  {
    if s == [] || s[0] == 0 then 0 else 1 + FirstNul(s[1..])
  }

  /** The bytes of the C string at `at`: up to the first NUL, unreadable byte or `limit` bytes. */
  function CString(mem: Memory, at: nat, limit: nat): seq<byte>
    decreases limit
  {
    if limit == 0 || mem(at) == None || mem(at) == Some(0) then [] else [mem(at).value] + CString(mem, at + 1, limit - 1)
  }

  /** Whether the string ends at a NUL rather than at an unreadable byte or the limit. */
  predicate EndsAtNul(mem: Memory, at: nat, limit: nat) {
    |CString(mem, at, limit)| < limit && mem(at + |CString(mem, at, limit)|) == Some(0)
  }

  datatype RemoteString = NullPointer | Unreadable(addr: nat) | Bytes(bytes: seq<byte>)

  /** The source's loop over chunks, with `limit` bytes still wanted: what it adds to its buffer, and whether
      it met a NUL. The cursor saturates at the top of the address space. */
  function Collect(mem: Memory, cursor: nat, limit: nat, chunk: nat): (seq<byte>, bool)
    requires chunk > 0
    decreases limit
  {
    if limit == 0 then ([], false)
    else
      var want := Min(limit, chunk);
      var read := ReadRemoteBytes(mem, cursor, want);
      if read == None then ([], false)
      else
        var bytes := read.value;
        var nul := FirstNul(bytes);
        if nul < |bytes| then (bytes[..nul], true)
        else if |bytes| < want then (bytes, false)
        else
          var (more, ended) := Collect(mem, Min(cursor + want, U64_MAX), limit - want, chunk);
          (bytes + more, ended)
  }

  lemma {:induction false} FirstNulIsFirst(s: seq<byte>)
    ensures forall i :: 0 <= i < FirstNul(s) ==> s[i] != 0
  {
    if s != [] && s[0] != 0 {
      FirstNulIsFirst(s[1..]);
      assert forall i :: 1 <= i < FirstNul(s) ==> s[i] == s[1..][i - 1];
    }
  }

  /** What makes `s` the C string at `at`, byte by byte. */
  ghost predicate IsCString(mem: Memory, at: nat, limit: nat, s: seq<byte>) {
    && |s| <= limit
    && (forall i :: 0 <= i < |s| ==> mem(at + i) == Some(s[i]) && s[i] != 0)
    && (|s| < limit ==> mem(at + |s|) == None || mem(at + |s|) == Some(0))
  }

  lemma {:induction false} CStringUnique(mem: Memory, at: nat, limit: nat, s: seq<byte>)
    requires IsCString(mem, at, limit, s)
    ensures s == CString(mem, at, limit)
    decreases limit
  {
    if s != [] {
      assert mem(at + 0) == Some(s[0]);
      var rest := s[1..];
      forall i | 0 <= i < |rest|
        ensures mem(at + 1 + i) == Some(rest[i]) && rest[i] != 0
      {
        assert mem(at + (1 + i)) == Some(s[1 + i]);
      }
      CStringUnique(mem, at + 1, limit - 1, s[1..]);
      assert s == [s[0]] + s[1..];
    }
  }

  /** What one chunk says about the string. */
  lemma ReadableIsCString(mem: Memory, at: nat, limit: nat, n: nat)
    requires n <= limit
    ensures var bytes := Readable(mem, at, n); var nul := FirstNul(bytes);
      && (nul < |bytes| ==> IsCString(mem, at, limit, bytes[..nul]) && mem(at + nul) == Some(0))
      && (nul == |bytes| < n ==> IsCString(mem, at, limit, bytes) && mem(at + nul) == None)
      && (nul == |bytes| ==> forall i :: 0 <= i < |bytes| ==> mem(at + i) == Some(bytes[i]) && bytes[i] != 0)
  {
    var bytes := Readable(mem, at, n);
    ReadableBytes(mem, at, n);
    FirstNulIsFirst(bytes);
  }

  /** Nothing can be read above the top of the address space. */
  ghost predicate EndsAtTop(mem: Memory) { forall a: nat :: a > U64_MAX ==> mem(a) == None }

  predicate IsMultiple(n: nat, chunk: nat)
    requires chunk > 0
    decreases n
  {
    n == 0 || (n >= chunk && IsMultiple(n - chunk, chunk))
  }

  /** The string runs up to the very last address and a whole chunk ends there with bytes still wanted: the
      saturating cursor then stays on the last address. */
  predicate Sticks(mem: Memory, at: nat, limit: nat, chunk: nat)
    requires chunk > 0
  {
    var n := |CString(mem, at, limit)|;
    at + n == U64_MAX + 1 && n < limit && IsMultiple(n, chunk)
  }

  lemma {:induction false} CStringIsCString(mem: Memory, at: nat, limit: nat)
    ensures IsCString(mem, at, limit, CString(mem, at, limit))
    decreases limit
  {
    if limit > 0 && mem(at).Some? && mem(at) != Some(0) {
      CStringIsCString(mem, at + 1, limit - 1);
      JoinedIsCString(mem, at, limit, [mem(at).value], CString(mem, at + 1, limit - 1));
    }
  }

  /** A string longer than one full chunk is that chunk and the string behind it. */
  lemma ChunkThenRest(mem: Memory, at: nat, limit: nat, bytes: seq<byte>)
    requires |bytes| <= limit && forall i :: 0 <= i < |bytes| ==> mem(at + i) == Some(bytes[i]) && bytes[i] != 0
    ensures CString(mem, at, limit) == bytes + CString(mem, at + |bytes|, limit - |bytes|)
  {
    hide CString, IsCString;
    CStringIsCString(mem, at + |bytes|, limit - |bytes|);
    JoinedIsCString(mem, at, limit, bytes, CString(mem, at + |bytes|, limit - |bytes|));
    CStringUnique(mem, at, limit, bytes + CString(mem, at + |bytes|, limit - |bytes|));
  }

  lemma SticksLater(mem: Memory, at: nat, limit: nat, chunk: nat, bytes: seq<byte>)
    requires chunk > 0 && |bytes| == Min(limit, chunk) && limit > 0
    requires CString(mem, at, limit) == bytes + CString(mem, at + |bytes|, limit - |bytes|)
    ensures Sticks(mem, at, limit, chunk) <==> Sticks(mem, at + |bytes|, limit - |bytes|, chunk)
    ensures EndsAtNul(mem, at, limit) <==> EndsAtNul(mem, at + |bytes|, limit - |bytes|)
  {}

  /** A chunk that ends the loop by itself ends it with the string. */
  lemma LastChunk(mem: Memory, at: nat, limit: nat, chunk: nat)
    requires chunk > 0 && limit > 0 && at <= U64_MAX && EndsAtTop(mem)
    ensures var want := Min(limit, chunk); var bytes := Readable(mem, at, want); var nul := FirstNul(bytes);
      nul < want ==>
        && !Sticks(mem, at, limit, chunk) && (EndsAtNul(mem, at, limit) <==> nul < |bytes|)
        && CString(mem, at, limit) == bytes[..nul]
  {
    hide Readable, FirstNul, CString;
    var want := Min(limit, chunk);
    var bytes := Readable(mem, at, want);
    ReadableIsCString(mem, at, limit, want);
    if FirstNul(bytes) < |bytes| {
      CStringUnique(mem, at, limit, bytes[..FirstNul(bytes)]);
    } else if |bytes| < want {
      assert bytes[..FirstNul(bytes)] == bytes;
      CStringUnique(mem, at, limit, bytes);
    }
  }

  /** At the last address the loop finds one more byte of a string that runs up to it. */
  lemma LastByteAgain(mem: Memory, limit: nat, chunk: nat)
    requires chunk > 0 && limit > 0 && mem(U64_MAX).Some? && mem(U64_MAX) != Some(0)
    ensures Collect(mem, U64_MAX, limit, chunk).0 != []
  {
    var bytes := Readable(mem, U64_MAX, Min(limit, chunk));
    assert bytes != [] && bytes[0] != 0;
  }

  /** The loop collects the string and knows what ended it, if and only if the cursor does not stick; if it
      does, bytes come twice. */
  lemma {:induction false} CollectedIsCString(mem: Memory, at: nat, limit: nat, chunk: nat)
    requires chunk > 0 && at <= U64_MAX && EndsAtTop(mem)
    ensures var (s, ended) := Collect(mem, at, limit, chunk); var c := CString(mem, at, limit);
      if Sticks(mem, at, limit, chunk) then |s| > |c| else s == c && (ended <==> EndsAtNul(mem, at, limit))
    decreases limit
  {
    hide Readable, FirstNul, CString, EndsAtTop, Sticks, EndsAtNul;
    if limit == 0 {
      NothingToCollect(mem, at, chunk);
    } else {
      var want := Min(limit, chunk);
      var bytes := Readable(mem, at, want);
      LastChunk(mem, at, limit, chunk);
      if FirstNul(bytes) == want {
        ReadableIsCString(mem, at, limit, want);
        ChunkThenRest(mem, at, limit, bytes);
        SticksLater(mem, at, limit, chunk, bytes);
        if at + want <= U64_MAX {
          CollectedIsCString(mem, at + want, limit - want, chunk);
        } else {
          TopReached(mem, at, limit, chunk, bytes);
        }
      } else {
        assert bytes[..|bytes|] == bytes;
      }
    }
  }

  lemma NothingToCollect(mem: Memory, at: nat, chunk: nat)
    requires chunk > 0
    ensures CString(mem, at, 0) == [] && !Sticks(mem, at, 0, chunk) && !EndsAtNul(mem, at, 0)
  {}

  lemma TopReached(mem: Memory, at: nat, limit: nat, chunk: nat, bytes: seq<byte>)
    requires chunk > 0 && limit > 0 && at <= U64_MAX < at + |bytes| && |bytes| == Min(limit, chunk) && EndsAtTop(mem)
    requires forall i :: 0 <= i < |bytes| ==> mem(at + i) == Some(bytes[i]) && bytes[i] != 0
    ensures at + |bytes| == U64_MAX + 1
    ensures CString(mem, at + |bytes|, limit - |bytes|) == [] && !EndsAtNul(mem, at + |bytes|, limit - |bytes|)
    ensures Sticks(mem, at + |bytes|, limit - |bytes|, chunk) <==> limit > |bytes|
    ensures limit > |bytes| ==> Collect(mem, U64_MAX, limit - |bytes|, chunk).0 != []
  {
    hide Collect;
    assert mem(at + (|bytes| - 1)) == Some(bytes[|bytes| - 1]);
    assert at + (|bytes| - 1) <= U64_MAX;
    if limit > |bytes| {
      LastByteAgain(mem, limit - |bytes|, chunk);
    }
  }

  lemma JoinedIsCString(mem: Memory, at: nat, limit: nat, a: seq<byte>, b: seq<byte>)
    requires |a| <= limit && forall i :: 0 <= i < |a| ==> mem(at + i) == Some(a[i]) && a[i] != 0
    requires IsCString(mem, at + |a|, limit - |a|, b)
    ensures IsCString(mem, at, limit, a + b)
  {
    forall i | 0 <= i < |a + b|
      ensures mem(at + i) == Some((a + b)[i]) && (a + b)[i] != 0
    {
      if i >= |a| {
        assert mem(at + |a| + (i - |a|)) == Some(b[i - |a|]);
      }
    }
  }

  /** Main result: the loop collects exactly the string's bytes and knows whether a NUL ended it, whatever the
      chunk size, if and only if the string does not fill whole chunks up to the last address. */
  lemma ChunksDoNotMatter(mem: Memory, at: nat, limit: nat, chunk: nat)
    requires chunk > 0 && at <= U64_MAX && EndsAtTop(mem)
    ensures Collect(mem, at, limit, chunk) == (CString(mem, at, limit), EndsAtNul(mem, at, limit)) <==> !Sticks(mem, at, limit, chunk)
  {
    CollectedIsCString(mem, at, limit, chunk);
  }

  /** Where nothing can be read from some address below the top on, as in the user memory of a process, the loop is
      right for every string. */
  lemma UserMemoryIsReadRight(mem: Memory, at: nat, limit: nat, chunk: nat, top: nat)
    requires chunk > 0 && at <= U64_MAX && top <= U64_MAX && forall a: nat :: a >= top ==> mem(a) == None
    ensures Collect(mem, at, limit, chunk) == (CString(mem, at, limit), EndsAtNul(mem, at, limit))
  {
    hide Collect, CString;
    CStringIsCString(mem, at, limit);
    var c := CString(mem, at, limit);
    assert c != [] ==> mem(at + (|c| - 1)) == Some(c[|c| - 1]);
    CollectedIsCString(mem, at, limit, chunk);
  }

  /** Readable up to the last address, without any NUL. */
  function AllLetters(a: nat): Option<byte> { if a <= U64_MAX then Some(65) else None }

  /** In such an address space a string that starts one chunk below the top is read with a byte too many. */
  lemma TopOfMemoryIsReadTwice()
    ensures var at := U64_MAX + 1 - CHUNK;
      |CString(AllLetters, at, MAX_LEN)| == CHUNK < |Collect(AllLetters, at, MAX_LEN, CHUNK).0|
  {
    var at := U64_MAX + 1 - CHUNK;
    var bytes: seq<byte> := seq(CHUNK, _ => 65);
    ChunkThenRest(AllLetters, at, MAX_LEN, bytes);
    assert CString(AllLetters, U64_MAX + 1, MAX_LEN - CHUNK) == [];
    assert IsMultiple(0, CHUNK) && IsMultiple(CHUNK, CHUNK);
    CollectedIsCString(AllLetters, at, MAX_LEN, CHUNK);
  }

  /** What the caller is given for the collected bytes. */
  function Shown(addr: nat, collected: (seq<byte>, bool)): RemoteString {
    if addr == 0 then NullPointer
    else if collected == ([], false) then Unreadable(addr)
    else Bytes(collected.0)
  }

  /** The outcome read off the memory itself. */
  lemma WhatIsShown(mem: Memory, at: nat, limit: nat, chunk: nat)
    requires chunk > 0 && limit > 0 && 0 < at <= U64_MAX && EndsAtTop(mem)
    ensures var r := Shown(at, Collect(mem, at, limit, chunk));
      if mem(at) == None then r == Unreadable(at)
      else !Sticks(mem, at, limit, chunk) ==> r.Bytes? && IsCString(mem, at, limit, r.bytes)
  {
    hide Collect, IsCString, EndsAtTop, IsMultiple;
    CollectedIsCString(mem, at, limit, chunk);
    CStringIsCString(mem, at, limit);
  }

  method ReadRemoteCstring(mem: Memory, addr: nat) returns (r: RemoteString)
    requires addr <= U64_MAX && EndsAtTop(mem)
    ensures r == Shown(addr, Collect(mem, addr, MAX_LEN, CHUNK))
    ensures r == NullPointer <==> addr == 0
    ensures addr != 0 && mem(addr) == None ==> r == Unreadable(addr)
    ensures addr != 0 && mem(addr).Some? && !Sticks(mem, addr, MAX_LEN, CHUNK) ==> r.Bytes? && IsCString(mem, addr, MAX_LEN, r.bytes)
  {
    hide CString, IsCString, EndsAtNul, Sticks, Readable, FirstNul;
    if addr == 0 {
      return NullPointer;
    }
    WhatIsShown(mem, addr, MAX_LEN, CHUNK);
    ChunksDoNotMatter(mem, addr, MAX_LEN, CHUNK);
    var out: seq<byte> := [];
    var cursor: nat := addr;
    ghost var all := Collect(mem, addr, MAX_LEN, CHUNK);
    ghost var rest := all;
    assert [] + all.0 == all.0;
    while |out| < MAX_LEN
      invariant |out| <= MAX_LEN
      invariant rest == Collect(mem, cursor, MAX_LEN - |out|, CHUNK) && all == (out + rest.0, rest.1)
      decreases MAX_LEN - |out|
    {
      var want := Min(MAX_LEN - |out|, CHUNK);
      var read := ReadRemoteBytes(mem, cursor, want);
      if read == None {
        assert rest == ([], false);
        break;
      }
      var bytes := read.value;
      var zeroPos := FirstNul(bytes);
      if zeroPos < |bytes| {
        out := out + bytes[..zeroPos];
        return Bytes(out);
      }
      ghost var before := out;
      out := out + bytes;
      if |bytes| < want {
        assert rest == (bytes, false);
        rest := ([], false);
        break;
      }
      cursor := Min(cursor + |bytes|, U64_MAX);
      ghost var more := Collect(mem, cursor, MAX_LEN - |out|, CHUNK);
      assert rest == (bytes + more.0, more.1);
      assert before + (bytes + more.0) == out + more.0;
      rest := more;
    }
    assert rest == ([], false) && out + [] == out;
    r := if out == [] then Unreadable(addr) else Bytes(out);
  }

  function EscapeByte(b: byte): string {
    if b == 92 then "\\\\"
    else if b == 34 then "\\\""
    else if b == 10 then "\\n"
    else if b == 13 then "\\r"
    else if b == 9 then "\\t"
    else if 0x20 <= b <= 0x7E then [b as char]
    else "\\x" + Hex2(b)
  }

  function Escaped(bytes: seq<byte>): string {
    if bytes == [] then "" else EscapeByte(bytes[0]) + Escaped(bytes[1..])
  }

  lemma {:induction false} EscapedAppend(bytes: seq<byte>, b: byte)
    ensures Escaped(bytes + [b]) == Escaped(bytes) + EscapeByte(b)
  {
    if bytes == [] {
      assert bytes + [b] == [b] && [b][1..] == [];
    } else {
      assert (bytes + [b])[1..] == bytes[1..] + [b];
      EscapedAppend(bytes[1..], b);
    }
  }

  predicate IsPrintable(b: byte) { 0x20 <= b <= 0x7E && b != 34 && b != 92 }

  /** Printable bytes are shown as they are. */
  lemma {:induction false} PrintableIsPlain(bytes: seq<byte>)
    requires forall i :: 0 <= i < |bytes| ==> IsPrintable(bytes[i])
    ensures |Escaped(bytes)| == |bytes| && forall i :: 0 <= i < |bytes| ==> Escaped(bytes)[i] == bytes[i] as char
  {
    if bytes != [] {
      PrintableIsPlain(bytes[1..]);
    }
  }

  method BytesToAsciiPreview(bytes: seq<byte>) returns (out: string)
    ensures out == Escaped(bytes)
  {
    hide EscapeByte;
    out := "";
    for i := 0 to |bytes|
      invariant out == Escaped(bytes[..i])
    {
      assert bytes[..i + 1] == bytes[..i] + [bytes[i]];
      EscapedAppend(bytes[..i], bytes[i]);
      out := out + EscapeByte(bytes[i]);
    }
    assert bytes[..|bytes|] == bytes;
  }

  /** Reading a preview back up to the first quote that no backslash precedes: the bytes it shows and the
      text after that quote. */
  function ReadPreview(s: string): Option<(seq<byte>, string)>
    decreases |s|
  {
    if s == "" then None
    else if s[0] == '"' then Some(([], s[1..]))
    else if s[0] != '\\' then if s[0] as int < 256 then Then(s[0] as int, ReadPreview(s[1..])) else None
    else if |s| < 2 then None
    else if s[1] == '\\' || s[1] == '"' then Then(s[1] as int, ReadPreview(s[2..]))
    else if s[1] == 'n' then Then(10, ReadPreview(s[2..]))
    else if s[1] == 'r' then Then(13, ReadPreview(s[2..]))
    else if s[1] == 't' then Then(9, ReadPreview(s[2..]))
    else if s[1] == 'x' && |s| >= 4 && HexValue(s[2]) < 16 && HexValue(s[3]) < 16 then
      Then(HexValue(s[2]) * 16 + HexValue(s[3]), ReadPreview(s[4..]))
    else None
  }

  function Then(b: byte, r: Option<(seq<byte>, string)>): Option<(seq<byte>, string)> {
    match r case None => None case Some((bytes, rest)) => Some(([b] + bytes, rest))
  }

  lemma EscapedByteReads(b: byte, t: string)
    ensures ReadPreview(EscapeByte(b) + t) == Then(b, ReadPreview(t))
  {
    var s := EscapeByte(b) + t;
    if 0x20 <= b <= 0x7E && b != 92 && b != 34 {
      assert s[1..] == t;
    } else if b == 92 || b == 34 || b == 10 || b == 13 || b == 9 {
      assert s[2..] == t;
    } else {
      assert s[4..] == t;
      HexDigitValue(b / 16);
      HexDigitValue(b % 16);
    }
  }

  /** Main result: a preview between quotes shows every byte sequence unambiguously, and the quote that ends
      it is the first one not escaped. */
  lemma {:induction false} PreviewRoundTrip(bytes: seq<byte>, t: string)
    ensures ReadPreview(Escaped(bytes) + "\"" + t) == Some((bytes, t))
  {
    hide EscapeByte;
    if bytes == [] {
      assert Escaped(bytes) + "\"" + t == ['"'] + t;
    } else {
      var more := Escaped(bytes[1..]) + "\"" + t;
      assert Escaped(bytes) + "\"" + t == EscapeByte(bytes[0]) + more;
      EscapedByteReads(bytes[0], more);
      PreviewRoundTrip(bytes[1..], t);
      assert [bytes[0]] + bytes[1..] == bytes;
    }
  }

  /** The data part of a read or write line. */
  datatype BufferPreview = Nothing | OnlyTruncated | UnreadableData(addr: nat) | Data(text: string, truncated: bool)

  method FormatBufferPreview(mem: Memory, addr: nat, requested: nat, ret: int, maxBlob: nat) returns (p: BufferPreview)
    ensures p == Nothing <==> ret <= 0 || requested == 0
    ensures p == OnlyTruncated <==> ret > 0 && requested > 0 && maxBlob == 0
    ensures ret > 0 && requested > 0 && maxBlob > 0 ==>
      p == if mem(addr) == None then UnreadableData(addr)
           else
             var shown := Readable(mem, addr, Min(Min(ret, requested), maxBlob));
             Data(Escaped(shown), |shown| < ret && |shown| < requested)
  {
    if ret <= 0 {
      return Nothing;
    }
    var expected := Min(ret, requested);
    if expected == 0 {
      return Nothing;
    }
    var previewLen := Min(expected, maxBlob);
    if previewLen == 0 {
      return OnlyTruncated;
    }
    var read := ReadRemoteBytes(mem, addr, previewLen);
    if read == None {
      return UnreadableData(addr);
    }
    var ascii := BytesToAsciiPreview(read.value);
    var truncated := |read.value| < expected || expected > previewLen;
    p := Data(ascii, truncated);
  }
}
