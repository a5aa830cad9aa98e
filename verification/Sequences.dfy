/** Facts about sequences that several modules need. */
module Sequences {

  predicate Distinct<T(==)>(s: seq<T>) {
    forall i, j | 0 <= i < j < |s| :: s[i] != s[j]
  }

  /** The list without the first occurrence of x. */
  function Erase<T(==)>(s: seq<T>, x: T): (r: seq<T>)
    ensures forall y | y in r :: y in s
    ensures forall y | y in s && y != x :: y in r
    ensures Distinct(s) ==> Distinct(r) && x !in r
    ensures x !in s ==> r == s
  {
    if s == [] then []
    else if s[0] == x then
      assert Distinct(s) ==> x !in s[1..];
      s[1..]
    else
      assert Distinct(s) ==> s[0] !in s[1..];
      var r := Erase(s[1..], x);
      assert forall j | 0 <= j < |r| :: r[j] in s[1..];
      [s[0]] + r
  }

  lemma {:induction false} EraseAt<T>(s: seq<T>, x: T, i: nat)
    requires i < |s| && s[i] == x && forall j | 0 <= j < i :: s[j] != x
    ensures Erase(s, x) == s[..i] + s[i + 1..]
    decreases i
  {
    if i > 0 {
      EraseAt(s[1..], x, i - 1);
      assert s[..i] + s[i + 1..] == [s[0]] + (s[1..][..i - 1] + s[1..][i..]);
    }
  }

  lemma EraseAbsent<T>(s: seq<T>, x: T)
    ensures x !in s ==> Erase(s, x) == s
    ensures Distinct(s) ==> x !in Erase(s, x) && Erase(Erase(s, x), x) == Erase(s, x)
  {
  }
}
