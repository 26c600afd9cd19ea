/** Splitting flag words into named masks and a remainder. */
module Flags {
  import opened Words

  datatype Spec = Spec(mask: Word, name: string)

  /** A piece of the printed word: a named mask, or a bare number. */
  datatype Piece = Named(mask: Word, name: string) | Number(value: Word)

  function Bits(p: Piece): Word { if p.Named? then p.mask else p.value }

  /** What is left of `flags` after the first `n` masks of the table took their turn. */
  function Left(flags: Word, specs: seq<Spec>, n: nat): Word
    requires n <= |specs|
  {
    if n == 0 then flags
    else if Has(Left(flags, specs, n - 1), specs[n - 1].mask) then Drop(Left(flags, specs, n - 1), specs[n - 1].mask)
    else Left(flags, specs, n - 1)
  }

  /** The mask is still wholly there when its turn comes. */
  predicate Claims(flags: Word, specs: seq<Spec>, i: nat)
    requires i < |specs|
  {
    Has(Left(flags, specs, i), specs[i].mask)
  }

  function Claimed(flags: Word, specs: seq<Spec>, n: nat): seq<Piece>
    requires n <= |specs|
  {
    if n == 0 then []
    else Claimed(flags, specs, n - 1) + if Claims(flags, specs, n - 1) then [Named(specs[n - 1].mask, specs[n - 1].name)] else []
  }

  /** The bits of all pieces together. */
  function Union(pieces: seq<Piece>): Word
    decreases |pieces|
  {
    if pieces == [] then 0 else Or(Union(pieces[..|pieces| - 1]), Bits(pieces[|pieces| - 1]))
  }

  /** No bit belongs to two pieces. */
  ghost predicate Disjoint(pieces: seq<Piece>) {
    forall i, j :: 0 <= i < j < |pieces| ==> Apart(Bits(pieces[i]), Bits(pieces[j]))
  }

  lemma UnionAppend(pieces: seq<Piece>, p: Piece)
    ensures Union(pieces + [p]) == Or(Union(pieces), Bits(p))
  {
    hide Or;
    assert (pieces + [p])[..|pieces|] == pieces;
  }

  /** What is disjoint from the whole is disjoint from every piece. */
  lemma {:induction false} PartOfUnion(pieces: seq<Piece>, other: Word)
    requires Apart(Union(pieces), other)
    ensures forall i :: 0 <= i < |pieces| ==> Apart(Bits(pieces[i]), other)
    decreases |pieces|
  {
    hide Or, Apart;
    if pieces != [] {
      PartsApart(Union(pieces[..|pieces| - 1]), Bits(pieces[|pieces| - 1]), other);
      PartOfUnion(pieces[..|pieces| - 1], other);
    }
  }

  lemma DisjointAppend(pieces: seq<Piece>, p: Piece)
    requires Disjoint(pieces) && Apart(Union(pieces), Bits(p))
    ensures Disjoint(pieces + [p])
  {
    hide Apart, Union;
    PartOfUnion(pieces, Bits(p));
  }

  /** Main result, conservation: named masks and remainder together are the word, and share no bit. */
  lemma {:induction false} ClaimsConserve(flags: Word, specs: seq<Spec>, n: nat)
    requires n <= |specs|
    ensures var pieces := Claimed(flags, specs, n);
      Or(Union(pieces), Left(flags, specs, n)) == flags && Apart(Union(pieces), Left(flags, specs, n)) && Disjoint(pieces)
  {
    hide Or, Apart, Has, Drop, Union;
    if n == 0 {
      EmptyUnion();
      ZeroIsNeutral(flags);
    } else {
      ClaimsConserve(flags, specs, n - 1);
      var pieces, left, mask := Claimed(flags, specs, n - 1), Left(flags, specs, n - 1), specs[n - 1].mask;
      if Claims(flags, specs, n - 1) {
        var p := Named(mask, specs[n - 1].name);
        UnionAppend(pieces, p);
        ApartFromPart(Union(pieces), left, mask);
        DropIsApart(left, mask);
        DropPutBack(left, mask);
        OrAssoc(Union(pieces), mask, Drop(left, mask));
        BothApart(Union(pieces), mask, Drop(left, mask));
        DisjointAppend(pieces, p);
      } else {
        assert pieces + [] == pieces;
      }
    }
  }

  lemma EmptyUnion()
    ensures Union([]) == 0
  {}

  /** Nothing nameable is left over: no mask of the table remains wholly inside the remainder. */
  lemma {:induction false} RemainderNamesNothing(flags: Word, specs: seq<Spec>, n: nat, i: nat)
    requires i < n <= |specs| && specs[i].mask != 0
    ensures !Has(Left(flags, specs, n), specs[i].mask)
  {
    hide Has, Drop;
    var before, taken := Left(flags, specs, n - 1), specs[n - 1].mask;
    if i < n - 1 {
      RemainderNamesNothing(flags, specs, n - 1, i);
      if Has(Drop(before, taken), specs[i].mask) {
        DropShrinks(before, taken, specs[i].mask);
      }
    } else {
      DropIsApart(before, taken);
    }
  }

  /** The masks before position `i` that overlap `mask` all failed to claim. */
  ghost predicate Untouched(flags: Word, specs: seq<Spec>, i: nat, mask: Word)
    requires i <= |specs|
  {
    forall j :: 0 <= j < i ==> Apart(specs[j].mask, mask) || !Claims(flags, specs, j)
  }

  /** A mask whose bits nobody before it takes is named exactly when the word contains it. */
  lemma {:induction false} NamedIfUntouched(flags: Word, specs: seq<Spec>, i: nat, mask: Word)
    requires i <= |specs| && Untouched(flags, specs, i, mask)
    ensures Has(Left(flags, specs, i), mask) <==> Has(flags, mask)
  {
    hide Has, Drop, Apart;
    if i > 0 {
      NamedIfUntouched(flags, specs, i - 1, mask);
      if Claims(flags, specs, i - 1) {
        DropKeeps(Left(flags, specs, i - 1), specs[i - 1].mask, mask);
      }
    }
  }

  /** A mask inside one that was claimed before it is not named. */
  lemma {:induction false} NotNamedIfTaken(flags: Word, specs: seq<Spec>, i: nat, j: nat, mask: Word)
    requires j < i <= |specs| && mask != 0 && Claims(flags, specs, j) && Has(specs[j].mask, mask)
    ensures Apart(Left(flags, specs, i), mask) && !Has(Left(flags, specs, i), mask)
  {
    hide Has, Drop, Apart;
    var before, taken := Left(flags, specs, i - 1), specs[i - 1].mask;
    if j < i - 1 {
      NotNamedIfTaken(flags, specs, i - 1, j, mask);
      DropStaysApart(before, taken, mask);
    } else {
      DropTakesAll(before, taken, mask);
    }
    DropStaysApart(Left(flags, specs, i), taken, mask);
  }

  /** The loop shared by all flag printers. */
  method NameFlags(remaining: Word, specs: seq<Spec>) returns (parts: seq<Piece>, rest: Word)
    ensures parts == Claimed(remaining, specs, |specs|) && rest == Left(remaining, specs, |specs|)
  {
    hide Has, Drop;
    parts, rest := [], remaining;
    for i := 0 to |specs|
      invariant parts == Claimed(remaining, specs, i) && rest == Left(remaining, specs, i)
    {
      if Has(rest, specs[i].mask) {
        parts := parts + [Named(specs[i].mask, specs[i].name)];
        rest := Drop(rest, specs[i].mask);
      }
    }
  }

  /** The pieces of a word: those in front, the named ones of what is left, and the remainder if any. */
  function Pieces(front: seq<Piece>, remaining: Word, specs: seq<Spec>): seq<Piece> {
    front + (Claimed(remaining, specs, |specs|) + Remainder(Left(remaining, specs, |specs|)))
  }

  function Remainder(rest: Word): seq<Piece> { if rest != 0 then [Number(rest)] else [] }

  const O_ACCMODE: Word := 0x3
  const O_TMPFILE := Spec(0x410000, "O_TMPFILE")

  const OPEN_SPECS: seq<Spec> := [
    Spec(0x40, "O_CREAT"), Spec(0x80, "O_EXCL"), Spec(0x100, "O_NOCTTY"), Spec(0x200, "O_TRUNC"),
    Spec(0x400, "O_APPEND"), Spec(0x800, "O_NONBLOCK"), Spec(0x4000, "O_DIRECT"), Spec(0x101000, "O_SYNC"),
    Spec(0x1000, "O_DSYNC"), Spec(0x8000, "O_LARGEFILE"), Spec(0x10000, "O_DIRECTORY"), Spec(0x20000, "O_NOFOLLOW"),
    Spec(0x40000, "O_NOATIME"), Spec(0x80000, "O_CLOEXEC"), Spec(0x200000, "O_PATH")]

  /** The table as it is consulted: O_TMPFILE has its turn before the others. */
  const OPEN_TABLE: seq<Spec> := [O_TMPFILE] + OPEN_SPECS

  function AccessMode(flags: Word): Piece {
    var mode := And(flags, O_ACCMODE);
    if mode == 0 then Named(0, "O_RDONLY")
    else if mode == 1 then Named(1, "O_WRONLY")
    else if mode == 2 then Named(2, "O_RDWR")
    else Number(mode)
  }

  function OpenPieces(flags: Word): seq<Piece> { Pieces([AccessMode(flags)], Drop(flags, O_ACCMODE), OPEN_TABLE) }

  lemma {:induction false} FrontFirst(flags: Word, first: Spec, specs: seq<Spec>, n: nat)
    requires n <= |specs|
    ensures var taken := Has(flags, first.mask); var rest := if taken then Drop(flags, first.mask) else flags;
      && Left(flags, [first] + specs, n + 1) == Left(rest, specs, n)
      && Claimed(flags, [first] + specs, n + 1) == (if taken then [Named(first.mask, first.name)] else []) + Claimed(rest, specs, n)
  {
    hide Has, Drop;
    var all := [first] + specs;
    if n == 0 {
      assert all[0] == first;
      assert Left(flags, all, 0) == flags && Claimed(flags, all, 0) == [];
      assert Left(flags, all, 1) == if Has(flags, first.mask) then Drop(flags, first.mask) else flags;
    } else {
      var taken := Has(flags, first.mask);
      var rest := if taken then Drop(flags, first.mask) else flags;
      FrontFirst(flags, first, specs, n - 1);
      assert all[n] == specs[n - 1];
      assert Left(flags, all, n) == Left(rest, specs, n - 1);
      assert Claims(flags, all, n) == Claims(rest, specs, n - 1);
    }
  }

  /** One mask ahead of the table, then the table, then the remainder. */
  method NameWithFirst(front: seq<Piece>, flags: Word, first: Spec, specs: seq<Spec>) returns (parts: seq<Piece>)
    ensures parts == Pieces(front, flags, [first] + specs)
  {
    hide Left, Claimed, Drop, Has;
    FrontFirst(flags, first, specs, |specs|);
    parts := front;
    var remaining := flags;
    if Has(remaining, first.mask) {
      parts := parts + [Named(first.mask, first.name)];
      remaining := Drop(remaining, first.mask);
    }
    var named, rest := NameFlags(remaining, specs);
    parts := parts + named;
    if rest != 0 {
      parts := parts + [Number(rest)];
    }
  }

  method FormatOpenFlags(flags: Word) returns (parts: seq<Piece>)
    ensures parts == OpenPieces(flags)
  {
    hide Left, Claimed, And, Drop, Has, Pieces;
    var mode := And(flags, O_ACCMODE);
    if mode == 0 {
      parts := [Named(0, "O_RDONLY")];
    } else if mode == 1 {
      parts := [Named(1, "O_WRONLY")];
    } else if mode == 2 {
      parts := [Named(2, "O_RDWR")];
    } else {
      parts := [Number(mode)];
    }
    parts := NameWithFirst(parts, Drop(flags, O_ACCMODE), O_TMPFILE, OPEN_SPECS);
  }

  const MAP_TYPE: Word := 0xF

  const MAP_SPECS: seq<Spec> := [
    Spec(0x10, "MAP_FIXED"), Spec(0x20, "MAP_ANONYMOUS"), Spec(0x40, "MAP_32BIT"), Spec(0x100, "MAP_GROWSDOWN"),
    Spec(0x800, "MAP_DENYWRITE"), Spec(0x1000, "MAP_EXECUTABLE"), Spec(0x2000, "MAP_LOCKED"), Spec(0x4000, "MAP_NORESERVE"),
    Spec(0x8000, "MAP_POPULATE"), Spec(0x1_0000, "MAP_NONBLOCK"), Spec(0x2_0000, "MAP_STACK"), Spec(0x4_0000, "MAP_HUGETLB"),
    Spec(0x8_0000, "MAP_SYNC"), Spec(0x10_0000, "MAP_FIXED_NOREPLACE")]

  function MapType(flags: Word): seq<Piece> {
    var kind := And(flags, MAP_TYPE);
    if kind == 1 then [Named(1, "MAP_SHARED")]
    else if kind == 2 then [Named(2, "MAP_PRIVATE")]
    else if kind == 3 then [Named(3, "MAP_SHARED_VALIDATE")]
    else if kind == 0 then []
    else [Number(kind)]
  }

  function MapPieces(flags: Word): seq<Piece> { Pieces(MapType(flags), Drop(flags, MAP_TYPE), MAP_SPECS) }

  method FormatMmapFlags(flags: Word) returns (parts: seq<Piece>)
    ensures parts == MapPieces(flags)
  {
    hide Left, Claimed, And, Drop;
    if flags == 0 {
      NothingInZero();
      return [];
    }
    var kind := And(flags, MAP_TYPE);
    var remaining := Drop(flags, MAP_TYPE);
    parts := [];
    if kind == 1 {
      parts := parts + [Named(1, "MAP_SHARED")];
    } else if kind == 2 {
      parts := parts + [Named(2, "MAP_PRIVATE")];
    } else if kind == 3 {
      parts := parts + [Named(3, "MAP_SHARED_VALIDATE")];
    } else if kind != 0 {
      parts := parts + [Number(kind)];
    }
    assert parts == MapType(flags);
    var named, rest := NameFlags(remaining, MAP_SPECS);
    parts := parts + named;
    if rest != 0 {
      parts := parts + [Number(rest)];
    }
  }

  lemma {:induction false} ZeroClaimsNothing(specs: seq<Spec>, n: nat)
    requires n <= |specs| && forall i :: 0 <= i < |specs| ==> specs[i].mask != 0
    ensures Left(0, specs, n) == 0 && Claimed(0, specs, n) == []
  {
    hide Has, Drop;
    if n > 0 {
      ZeroClaimsNothing(specs, n - 1);
      ZeroIsNeutral(specs[n - 1].mask);
    }
  }

  lemma NothingInZero()
    ensures MapPieces(0) == []
  {
    hide Left, Claimed, And, Drop;
    ZeroIsNeutral(MAP_TYPE);
    ZeroClaimsNothing(MAP_SPECS, |MAP_SPECS|);
  }

  /** Named pieces followed by the remainder. */
  lemma TailConserves(rest: Word, specs: seq<Spec>)
    ensures var tail := Claimed(rest, specs, |specs|) + Remainder(Left(rest, specs, |specs|));
      Union(tail) == rest && Disjoint(tail)
  {
    hide Or, Apart, Left, Claimed, Union;
    ClaimsConserve(rest, specs, |specs|);
    var named, left := Claimed(rest, specs, |specs|), Left(rest, specs, |specs|);
    if left != 0 {
      UnionAppend(named, Number(left));
      DisjointAppend(named, Number(left));
    } else {
      assert named + [] == named;
      ZeroIsNeutral(Union(named));
    }
  }

  /** With the leading field in front, the pieces still make up the word and share no bit. */
  lemma PiecesConserve(front: seq<Piece>, flags: Word, low: Word, specs: seq<Spec>)
    requires (front == [] && And(flags, low) == 0) || (|front| == 1 && Bits(front[0]) == And(flags, low))
    ensures var all := Pieces(front, Drop(flags, low), specs);
      Union(all) == flags && Disjoint(all)
  {
    hide Or, And, Drop, Apart, Left, Claimed, Union;
    var rest := Drop(flags, low);
    SplitWord(flags, low);
    TailConserves(rest, specs);
    var tail := Claimed(rest, specs, |specs|) + Remainder(Left(rest, specs, |specs|));
    if front == [] {
      assert front + tail == tail;
      ZeroIsNeutral(rest);
    } else {
      assert front == [front[0]];
      UnionPrepend(front[0], tail);
      ApartCommutes(And(flags, low), rest);
      PartOfUnion(tail, Bits(front[0]));
      forall i | 0 <= i < |tail|
        ensures Apart(Bits(front[0]), Bits(tail[i]))
      {
        ApartCommutes(Bits(tail[i]), Bits(front[0]));
      }
    }
  }

  lemma {:induction false} UnionPrepend(p: Piece, pieces: seq<Piece>)
    ensures Union([p] + pieces) == Or(Bits(p), Union(pieces))
    decreases |pieces|
  {
    hide Or;
    if pieces == [] {
      assert [p] + pieces == [p] && [p][..0] == [];
      ZeroIsNeutral(Bits(p));
    } else {
      var init, last := pieces[..|pieces| - 1], pieces[|pieces| - 1];
      UnionPrepend(p, init);
      assert ([p] + pieces)[..|pieces|] == [p] + init;
      OrAssoc(Bits(p), Union(init), Bits(last));
    }
  }

  /** The first piece names the access mode, which stands in the two lowest bits. */
  lemma AccessModeComesFirst(flags: Word)
    ensures OpenPieces(flags) != []
    ensures And(flags, 3) == 0 ==> OpenPieces(flags)[0] == Named(0, "O_RDONLY")
    ensures And(flags, 3) == 1 ==> OpenPieces(flags)[0] == Named(1, "O_WRONLY")
    ensures And(flags, 3) == 2 ==> OpenPieces(flags)[0] == Named(2, "O_RDWR")
    ensures And(flags, 3) == 3 ==> OpenPieces(flags)[0] == Number(3)
  {
    hide And, Drop, Left, Claimed;
  }

  /** The first piece names the mapping type, which stands in the four lowest bits, if there is one. */
  lemma MapTypeComesFirst(flags: Word)
    ensures And(flags, 15) != 0 ==> MapPieces(flags) != []
    ensures And(flags, 15) == 1 ==> MapPieces(flags)[0] == Named(1, "MAP_SHARED")
    ensures And(flags, 15) == 2 ==> MapPieces(flags)[0] == Named(2, "MAP_PRIVATE")
    ensures And(flags, 15) == 3 ==> MapPieces(flags)[0] == Named(3, "MAP_SHARED_VALIDATE")
    ensures And(flags, 15) > 3 ==> MapPieces(flags)[0] == Number(And(flags, 15))
  {
    hide And, Drop, Left, Claimed;
  }

  /** Open flags: every bit is shown once, and a whole named flag never hides in the trailing number. */
  lemma OpenFlagsExact(flags: Word)
    ensures Union(OpenPieces(flags)) == flags && Disjoint(OpenPieces(flags))
    ensures forall i :: 0 <= i < |OPEN_TABLE| ==> !Has(Left(Drop(flags, O_ACCMODE), OPEN_TABLE, |OPEN_TABLE|), OPEN_TABLE[i].mask)
  {
    hide Or, And, Drop, Has, Apart, Left, Claimed, Union, Disjoint;
    PiecesConserve([AccessMode(flags)], flags, O_ACCMODE, OPEN_TABLE);
    forall i | 0 <= i < |OPEN_TABLE|
      ensures !Has(Left(Drop(flags, O_ACCMODE), OPEN_TABLE, |OPEN_TABLE|), OPEN_TABLE[i].mask)
    {
      RemainderNamesNothing(Drop(flags, O_ACCMODE), OPEN_TABLE, |OPEN_TABLE|, i);
    }
  }

  /** Mapping flags likewise; and a non-zero word always has a piece, so the printer's fallback for an empty
      list is never used. */
  lemma MapFlagsExact(flags: Word)
    ensures Union(MapPieces(flags)) == flags && Disjoint(MapPieces(flags))
    ensures flags != 0 ==> MapPieces(flags) != []
    ensures forall i :: 0 <= i < |MAP_SPECS| ==> !Has(Left(Drop(flags, MAP_TYPE), MAP_SPECS, |MAP_SPECS|), MAP_SPECS[i].mask)
  {
    hide Or, And, Drop, Has, Apart, Left, Claimed, Disjoint;
    PiecesConserve(MapType(flags), flags, MAP_TYPE, MAP_SPECS);
    forall i | 0 <= i < |MAP_SPECS|
      ensures !Has(Left(Drop(flags, MAP_TYPE), MAP_SPECS, |MAP_SPECS|), MAP_SPECS[i].mask)
    {
      RemainderNamesNothing(Drop(flags, MAP_TYPE), MAP_SPECS, |MAP_SPECS|, i);
    }
  }

  /** The masks that share bits with O_SYNC, O_DSYNC or O_DIRECTORY, before these have their turn. */
  lemma TableOverlaps(i: nat)
    requires i < |OPEN_TABLE|
    ensures i < 8 ==> Apart(OPEN_TABLE[i].mask, 0x101000)
    ensures i < 9 && i != 8 ==> Apart(OPEN_TABLE[i].mask, 0x1000)
    ensures 0 < i < 11 ==> Apart(OPEN_TABLE[i].mask, 0x10000)
  {
    if i > 0 {
      assert OPEN_TABLE[i] == OPEN_SPECS[i - 1];
    }
  }

  lemma OverlappingMasks()
    ensures OPEN_TABLE[0].mask == 0x410000 && OPEN_TABLE[8].mask == 0x101000 && OPEN_TABLE[9].mask == 0x1000 && OPEN_TABLE[11].mask == 0x10000
    ensures Has(0x101000, 0x1000) && Has(0x410000, 0x10000)
  {}

  /** The overlapping open flags: O_SYNC is named exactly when all its bits are set, O_DSYNC when its bit is
      set without the whole of O_SYNC, O_DIRECTORY when its bit is set without the whole of O_TMPFILE. */
  lemma OverlappingOpenFlags(flags: Word)
    ensures var f := Drop(flags, O_ACCMODE);
      && (Claims(f, OPEN_TABLE, 0) <==> Has(f, 0x410000))
      && (Claims(f, OPEN_TABLE, 8) <==> Has(f, 0x101000))
      && (Claims(f, OPEN_TABLE, 9) <==> Has(f, 0x1000) && !Has(f, 0x101000))
      && (Claims(f, OPEN_TABLE, 11) <==> Has(f, 0x10000) && !Has(f, 0x410000))
  {
    hide Left, Has, Drop, Apart;
    var f := Drop(flags, O_ACCMODE);
    OverlappingMasks();
    forall i | 0 <= i < |OPEN_TABLE|
      ensures i < 8 ==> Apart(OPEN_TABLE[i].mask, 0x101000)
      ensures i < 9 && i != 8 ==> Apart(OPEN_TABLE[i].mask, 0x1000)
      ensures 0 < i < 11 ==> Apart(OPEN_TABLE[i].mask, 0x10000)
    {
      TableOverlaps(i);
    }
    NamedIfUntouched(f, OPEN_TABLE, 0, 0x410000);
    NamedIfUntouched(f, OPEN_TABLE, 8, 0x101000);
    if Claims(f, OPEN_TABLE, 8) {
      NotNamedIfTaken(f, OPEN_TABLE, 9, 8, 0x1000);
    } else {
      NamedIfUntouched(f, OPEN_TABLE, 9, 0x1000);
    }
    if Claims(f, OPEN_TABLE, 0) {
      NotNamedIfTaken(f, OPEN_TABLE, 11, 0, 0x10000);
    } else {
      NamedIfUntouched(f, OPEN_TABLE, 11, 0x10000);
    }
  }
}
