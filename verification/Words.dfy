/** 64-bit words as sets of bits: the few laws the flag printers rest on. */
module Words {
  type Word = bv64

  function And(a: Word, b: Word): Word { a & b }
  function Or(a: Word, b: Word): Word { a | b }

  /** `a` without the bits of `mask`. */
  function Drop(a: Word, mask: Word): Word { a & !mask }

  /** All bits of `mask` are set in `a`. */
  predicate Has(a: Word, mask: Word) { a & mask == mask }

  predicate Apart(a: Word, b: Word) { a & b == 0 }

  lemma ZeroIsNeutral(a: Word)
    ensures Or(0, a) == a && Or(a, 0) == a && Apart(0, a) && Apart(a, 0)
    ensures And(0, a) == 0 && Drop(0, a) == 0 && (a != 0 ==> !Has(0, a))
  {}

  lemma OrAssoc(a: Word, b: Word, c: Word)
    ensures Or(Or(a, b), c) == Or(a, Or(b, c))
  {}

  lemma ApartCommutes(a: Word, b: Word)
    ensures Apart(a, b) == Apart(b, a)
  {}

  lemma PartsApart(a: Word, b: Word, other: Word)
    requires Apart(Or(a, b), other)
    ensures Apart(a, other) && Apart(b, other)
  {}

  lemma BothApart(a: Word, b: Word, other: Word)
    requires Apart(a, other) && Apart(b, other)
    ensures Apart(Or(a, b), other)
  {}

  lemma DropIsApart(a: Word, mask: Word)
    ensures Apart(mask, Drop(a, mask)) && (mask != 0 ==> !Has(Drop(a, mask), mask))
  {}

  lemma DropPutBack(a: Word, mask: Word)
    requires Has(a, mask)
    ensures Or(mask, Drop(a, mask)) == a
  {}

  lemma ApartFromPart(a: Word, b: Word, mask: Word)
    requires Apart(a, b)
    ensures Apart(a, Drop(b, mask)) && (Has(b, mask) ==> Apart(a, mask))
  {}

  lemma DropShrinks(a: Word, mask: Word, other: Word)
    requires Has(Drop(a, mask), other)
    ensures Has(a, other)
  {}

  lemma AndOfDrop(a: Word, taken: Word, mask: Word)
    requires taken & mask == 0
    ensures (a & !taken) & mask == a & mask
  {}

  lemma DropKeeps(a: Word, taken: Word, mask: Word)
    requires Apart(taken, mask)
    ensures Has(Drop(a, taken), mask) == Has(a, mask)
  {
    AndOfDrop(a, taken, mask);
  }

  lemma DropTakesAll(a: Word, taken: Word, mask: Word)
    requires Has(taken, mask)
    ensures Apart(Drop(a, taken), mask)
  {}

  lemma DropStaysApart(a: Word, taken: Word, mask: Word)
    requires Apart(a, mask)
    ensures Apart(Drop(a, taken), mask) && (mask != 0 ==> !Has(a, mask))
  {}

  lemma SplitWord(a: Word, low: Word)
    ensures Or(And(a, low), Drop(a, low)) == a && Apart(And(a, low), Drop(a, low))
  {}
}
