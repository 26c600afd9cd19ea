/** Small facts about options, saturating counters and duplicate-free queues. */
module Common {

  datatype Option<+T> = None | Some(value: T)

  type byte = b: int | 0 <= b < 256

  type Tid = int

  const U32_MAX: nat := 0xFFFF_FFFF
  const USIZE_MAX: nat := 0xFFFF_FFFF_FFFF_FFFF

  function Min(a: int, b: int): (m: int)
    ensures a >= 0 && b >= 0 ==> m >= 0
  {
    if a <= b then a else b
  }

  function SaturatingAdd(a: nat, max: nat): nat { if a >= max then max else a + 1 }

  function SaturatingSub(a: nat): nat { if a == 0 then 0 else a - 1 }

  ghost predicate NoDuplicates<T>(s: seq<T>) {
    forall i, j :: 0 <= i < j < |s| ==> s[i] != s[j]
  }

  /** `s` without the occurrences of `x`, order kept. */
  function Without<T(==,!new)>(s: seq<T>, x: T): (r: seq<T>)
    ensures forall y :: y in r <==> y in s && y != x
    ensures NoDuplicates(s) ==> NoDuplicates(r)
    ensures |r| <= |s|
    ensures x !in s ==> r == s
  {
    if s == [] then []
    else
      var rest := Without(s[1..], x);
      assert s == [s[0]] + s[1..];
      assert NoDuplicates(s) ==> NoDuplicates(s[1..]) && s[0] !in s[1..];
      assert NoDuplicates(s) && s[0] != x ==> NoDuplicates([s[0]] + rest);
      if s[0] == x then rest else [s[0]] + rest
  }

  /** Position of the first `x` in `s`, or |s| when there is none. */
  function IndexOf<T(==,!new)>(s: seq<T>, x: T): (k: nat)
    ensures k <= |s|
    ensures x in s ==> k < |s| && s[k] == x
    ensures x !in s ==> k == |s|
    ensures forall i :: 0 <= i < k ==> s[i] != x
  {
    if s == [] || s[0] == x then 0 else 1 + IndexOf(s[1..], x)
  }

  lemma {:induction false} IndexOfWithout<T(!new)>(s: seq<T>, x: T, y: T)
    requires x != y && y in s
    ensures IndexOf(Without(s, x), y) <= IndexOf(s, y)
  {
    if s[0] != y {
      IndexOfWithout(s[1..], x, y);
    }
  }

  /** Removing `x` keeps any two other elements in their order. */
  lemma {:induction false} OrderWithout<T(!new)>(s: seq<T>, x: T, a: T, b: T)
    requires a in s && b in s && x != a && x != b
    requires IndexOf(s, a) < IndexOf(s, b)
    ensures IndexOf(Without(s, x), a) < IndexOf(Without(s, x), b)
  {
    if s[0] != a {
      OrderWithout(s[1..], x, a, b);
    }
  }

  lemma {:induction false} IndexOfSuffix<T(!new)>(s: seq<T>, k: nat, x: T)
    requires k <= |s| && NoDuplicates(s) && x in s[k..]
    ensures IndexOf(s, x) == k + IndexOf(s[k..], x)
  {
    if k > 0 {
      assert s[1..][k - 1..] == s[k..];
      IndexOfSuffix(s[1..], k - 1, x);
      assert s[0] != x;
    }
  }

  lemma {:induction false} IndexOfAppend<T(!new)>(s: seq<T>, t: seq<T>, x: T)
    requires x in s
    ensures IndexOf(s + t, x) == IndexOf(s, x)
  {
    if s[0] != x {
      assert (s + t)[1..] == s[1..] + t;
      IndexOfAppend(s[1..], t, x);
    }
  }
}
