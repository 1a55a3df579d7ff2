/** The order of strings, as Go compares strings and byte slices. */
module Lexical {

  /** The lexical order, as -1, 0 or 1. */
  function Cmp(a: string, b: string): (r: int)
    ensures -1 <= r <= 1
  {
    if a == [] && b == [] then 0
    else if a == [] then -1
    else if b == [] then 1
    else if a[0] < b[0] then -1
    else if b[0] < a[0] then 1
    else Cmp(a[1..], b[1..])
  }

  lemma {:induction false} CmpEqual(a: string, b: string)
    ensures Cmp(a, b) == 0 <==> a == b
    ensures Cmp(b, a) == -Cmp(a, b)
  {
    if a != [] && b != [] {
      CmpEqual(a[1..], b[1..]);
      assert a == [a[0]] + a[1..] && b == [b[0]] + b[1..];
    }
  }

  lemma {:induction false} CmpTransitive(a: string, b: string, c: string)
    requires Cmp(a, b) <= 0 && Cmp(b, c) <= 0
    ensures Cmp(a, c) <= 0
    ensures Cmp(a, b) < 0 || Cmp(b, c) < 0 ==> Cmp(a, c) < 0
  {
    if a != [] && b != [] && c != [] && a[0] == b[0] == c[0] {
      CmpTransitive(a[1..], b[1..], c[1..]);
    }
  }

  /** A proper prefix comes before what it begins. */
  lemma {:induction false} CmpPrefix(a: string, b: string)
    requires a < b
    ensures Cmp(a, b) < 0
  {
    if a != [] {
      assert a[0] == b[0] && a[1..] < b[1..];
      CmpPrefix(a[1..], b[1..]);
    }
  }

  lemma CmpChain(a: string, b: string, c: string)
    ensures Cmp(a, b) < 0 && Cmp(b, c) < 0 ==> Cmp(a, c) < 0
    ensures Cmp(a, b) > 0 && Cmp(b, c) > 0 ==> Cmp(a, c) > 0
    ensures Cmp(a, b) == 0 ==> Cmp(a, c) == Cmp(b, c)
    ensures Cmp(b, c) == 0 ==> Cmp(a, c) == Cmp(a, b)
  {
    CmpEqual(a, b);
    CmpEqual(b, c);
    CmpEqual(a, c);
    if Cmp(a, b) < 0 && Cmp(b, c) < 0 {
      CmpTransitive(a, b, c);
    }
    if Cmp(c, b) < 0 && Cmp(b, a) < 0 {
      CmpTransitive(c, b, a);
    }
  }
}
