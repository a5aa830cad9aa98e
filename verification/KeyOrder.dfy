/** Iteration over the keys of a std::map: each key once, in ascending order. */
module KeyOrder {
  import opened Sequences

  lemma LeastExists(s: set<nat>, x: nat)
    requires x in s
    ensures exists z :: z in s && forall y | y in s :: z <= y
    decreases x
  {
    if y :| y in s && y < x {
      LeastExists(s, y);
    } else {
      assert x in s && forall y | y in s :: x <= y;
    }
  }

  function Least(s: set<nat>): (x: nat)
    requires s != {}
    ensures x in s && forall y | y in s :: x <= y
  {
    var any :| any in s;
    LeastExists(s, any);
    var x :| x in s && forall y | y in s :: x <= y;
    x
  }

  function Ascending(s: set<nat>): (ks: seq<nat>)
    ensures forall k :: k in ks <==> k in s
    ensures Distinct(ks)
    ensures forall i, j | 0 <= i < j < |ks| :: ks[i] < ks[j]
    decreases s
  {
    if s == {} then [] else
    var x := Least(s);
    [x] + Ascending(s - {x})
  }

  lemma AscendingAt(s: set<nat>, k: nat) returns (p: nat)
    requires k in s
    ensures p < |Ascending(s)| && Ascending(s)[p] == k
    ensures forall j :: j in Ascending(s)[..p] <==> j in s && j < k
  {
    var ks := Ascending(s);
    p :| 0 <= p < |ks| && ks[p] == k;
    forall j | j in s && j < k ensures j in ks[..p] {
      var q :| 0 <= q < |ks| && ks[q] == j;
      assert q < p && ks[..p][q] == j;
    }
  }

  lemma PrefixGrows(ks: seq<nat>, i: nat)
    requires i < |ks|
    ensures ks[..i + 1] == ks[..i] + [ks[i]] && ks[i..][1..] == ks[i + 1..]
  {
  }

  // ------------------------------------------------------ sums in any order

  ghost predicate SameElements(es: seq<nat>, fs: seq<nat>) {
    Distinct(es) && Distinct(fs) && forall e :: e in es <==> e in fs
  }

  function Sum(f: nat -> int, es: seq<nat>): int {
    if es == [] then 0 else f(es[0]) + Sum(f, es[1..])
  }

  function Without(es: seq<nat>, i: nat): (fs: seq<nat>)
    requires i < |es|
    ensures Distinct(es) ==> Distinct(fs) && forall e :: e in fs <==> e in es && e != es[i]
  {
    var fs := es[..i] + es[i + 1..];
    assert forall e | e in es && e != es[i] :: e in fs by {
      forall e | e in es && e != es[i] ensures e in fs {
        var j :| 0 <= j < |es| && es[j] == e;
        assert j < i ==> fs[j] == e;
        assert j > i ==> fs[j - 1] == e;
      }
    }
    fs
  }

  lemma SumWithout(f: nat -> int, es: seq<nat>, i: nat)
    requires i < |es|
    ensures Sum(f, es) == f(es[i]) + Sum(f, Without(es, i))
  {
    if i > 0 {
      SumWithout(f, es[1..], i - 1);
      assert Without(es, i)[1..] == Without(es[1..], i - 1);
    } else {
      assert Without(es, 0) == es[1..];
    }
  }

  lemma HasElement(es: seq<nat>)
    ensures es == [] || exists e :: e in es
  {
    assert es != [] ==> es[0] in es;
  }

  lemma {:induction false} SumOrderFree(f: nat -> int, es: seq<nat>, fs: seq<nat>)
    requires SameElements(es, fs)
    ensures Sum(f, es) == Sum(f, fs)
    decreases |es|
  {
    if es == [] {
      HasElement(fs);
    } else {
      assert es[0] in fs;
      var i :| 0 <= i < |fs| && fs[i] == es[0];
      assert Without(es, 0) == es[1..];
      assert SameElements(es[1..], Without(fs, i));
      SumOrderFree(f, es[1..], Without(fs, i));
      SumWithout(f, fs, i);
    }
  }

  lemma SumSame(f: nat -> int, g: nat -> int, es: seq<nat>)
    requires forall e | e in es :: f(e) == g(e)
    ensures Sum(f, es) == Sum(g, es)
  {
  }

  /** Only the elements with a property count. */
  lemma {:induction false} SumWithin(f: nat -> int, g: nat -> int, es: seq<nat>, fs: seq<nat>)
    requires Distinct(es) && Distinct(fs)
    requires forall e | e in es :: e in fs && f(e) == g(e)
    requires forall e | e in fs && e !in es :: g(e) == 0
    ensures Sum(f, es) == Sum(g, fs)
    decreases |es|
  {
    if es == [] {
      SumZero(g, fs);
    } else {
      assert es[0] in es && es[0] in fs;
      var i :| 0 <= i < |fs| && fs[i] == es[0];
      assert Without(es, 0) == es[1..];
      SumWithin(f, g, es[1..], Without(fs, i));
      SumWithout(g, fs, i);
    }
  }

  lemma SumZero(g: nat -> int, fs: seq<nat>)
    requires forall e | e in fs :: g(e) == 0
    ensures Sum(g, fs) == 0
  {
  }
}
