/** What Python's `sorted` promises: the ordered permutation of its argument. The models
    apply it to dictionary keys (numbers or strings) and to lists of names. */
module Ordering {
  import opened Collections

  ghost predicate TotalOrder<T(!new)>(leq: (T, T) -> bool) {
    && (forall a, b :: leq(a, b) || leq(b, a))
    && (forall a, b :: leq(a, b) && leq(b, a) ==> a == b)
    && (forall a, b, c :: leq(a, b) && leq(b, c) ==> leq(a, c))
  }

  predicate IsSorted<T>(xs: seq<T>, leq: (T, T) -> bool) {
    forall i, j :: 0 <= i < j < |xs| ==> leq(xs[i], xs[j])
  }

  predicate Distinct<T(==)>(xs: seq<T>) {
    forall i, j :: 0 <= i < j < |xs| ==> xs[i] != xs[j]
  }

  function Insert<T(!new)>(xs: seq<T>, x: T, leq: (T, T) -> bool): (r: seq<T>)
    requires TotalOrder(leq) && IsSorted(xs, leq)
    ensures IsSorted(r, leq)
    ensures multiset(r) == multiset(xs) + multiset{x}
  {
    if xs == [] || leq(x, xs[0]) then [x] + xs
    else
      var t := Insert(xs[1..], x, leq);
      InsertedAfter(xs, x, t, leq);
      [xs[0]] + t
  }

  lemma InsertedAfter<T(!new)>(xs: seq<T>, x: T, t: seq<T>, leq: (T, T) -> bool)
    requires xs != [] && IsSorted(xs, leq) && leq(xs[0], x)
    requires multiset(t) == multiset(xs[1..]) + multiset{x}
    ensures forall i :: 0 <= i < |t| ==> leq(xs[0], t[i])
    ensures multiset([xs[0]] + t) == multiset(xs) + multiset{x}
  {
    forall i | 0 <= i < |t|
      ensures leq(xs[0], t[i])
    {
      assert t[i] in multiset(t);
      assert t[i] in xs[1..] || t[i] == x;
    }
    assert xs == [xs[0]] + xs[1..];
  }

  function SortList<T(!new)>(xs: seq<T>, leq: (T, T) -> bool): (r: seq<T>)
    requires TotalOrder(leq)
    ensures IsSorted(r, leq)
    ensures multiset(r) == multiset(xs)
  {
    if xs == [] then []
    else
      assert xs == xs[..|xs| - 1] + [xs[|xs| - 1]];
      Insert(SortList(xs[..|xs| - 1], leq), xs[|xs| - 1], leq)
  }

  predicate IsLeast<T(!new, ==)>(s: set<T>, m: T, leq: (T, T) -> bool) {
    m in s && forall x :: x in s ==> leq(m, x)
  }

  lemma {:induction false} LeastExists<T(!new)>(s: set<T>, leq: (T, T) -> bool)
    requires TotalOrder(leq) && s != {}
    ensures exists m :: IsLeast(s, m, leq)
  {
    var a :| a in s;
    if s == {a} {
      assert leq(a, a);
      assert IsLeast(s, a, leq);
    } else {
      LeastExists(s - {a}, leq);
      var b :| IsLeast(s - {a}, b, leq);
      LeastOfTwo(s, a, b, leq);
    }
  }

  lemma LeastOfTwo<T(!new)>(s: set<T>, a: T, b: T, leq: (T, T) -> bool)
    requires TotalOrder(leq) && a in s && IsLeast(s - {a}, b, leq)
    ensures IsLeast(s, if leq(a, b) then a else b, leq)
  {
    var m := if leq(a, b) then a else b;
    forall x | x in s
      ensures leq(m, x)
    {
      assert x == a || leq(b, x);
      assert leq(a, b) || leq(b, a);
      assert leq(a, a);
    }
  }

  lemma LeastIsUnique<T(!new)>(s: set<T>, a: T, b: T, leq: (T, T) -> bool)
    requires TotalOrder(leq) && IsLeast(s, a, leq) && IsLeast(s, b, leq)
    ensures a == b
  {
    assert leq(a, b) && leq(b, a);
  }

  /** `sorted` on the keys of a dictionary: strictly increasing, each key once. */
  function SortSet<T(!new)>(s: set<T>, leq: (T, T) -> bool): (r: seq<T>)
    requires TotalOrder(leq)
    ensures IsSorted(r, leq) && Distinct(r)
    ensures forall x :: x in r <==> x in s
  {
    if s == {} then []
    else
      LeastExists(s, leq);
      assert forall a, b :: IsLeast(s, a, leq) && IsLeast(s, b, leq) ==> a == b by {
        forall a, b | IsLeast(s, a, leq) && IsLeast(s, b, leq)
          ensures a == b
        {
          LeastIsUnique(s, a, b, leq);
        }
      }
      var m :| m in s && IsLeast(s, m, leq);
      [m] + SortSet(s - {m}, leq)
  }

  predicate IntLeq(a: int, b: int) {
    a <= b
  }

  lemma IntOrder()
    ensures TotalOrder(IntLeq)
  {
  }

  /** Python's order on strings: lexicographic by character. */
  predicate LexLeq(a: string, b: string) {
    a == [] || (b != [] && (a[0] < b[0] || (a[0] == b[0] && LexLeq(a[1..], b[1..]))))
  }

  /** One string is a prefix of the other, or the first character in which they differ is smaller. */
  lemma {:induction false} LexLeqIff(a: string, b: string)
    ensures LexLeq(a, b) <==> a <= b || exists k: nat :: k < |a| && k < |b| && a[..k] == b[..k] && a[k] < b[k]
  {
    if a != [] && b != [] && a[0] == b[0] {
      LexLeqIff(a[1..], b[1..]);
      LexLater(a, b);
      assert a <= b <==> a[1..] <= b[1..];
    } else if a != [] && b != [] {
      assert a[..0] == b[..0];
      assert forall k: nat :: 0 < k < |a| && k < |b| && a[..k] == b[..k] ==> a[..k][0] == b[..k][0];
    }
  }

  lemma LexLater(a: string, b: string)
    requires a != [] && b != [] && a[0] == b[0]
    ensures (exists k: nat :: k < |a| && k < |b| && a[..k] == b[..k] && a[k] < b[k])
       <==> exists k: nat :: k < |a[1..]| && k < |b[1..]| && a[1..][..k] == b[1..][..k] && a[1..][k] < b[1..][k]
  {
    if k: nat :| k < |a| && k < |b| && a[..k] == b[..k] && a[k] < b[k] {
      assert a[1..][..k - 1] == a[..k][1..] == b[..k][1..] == b[1..][..k - 1];
      assert a[1..][k - 1] < b[1..][k - 1];
    }
    if k: nat :| k < |a[1..]| && k < |b[1..]| && a[1..][..k] == b[1..][..k] && a[1..][k] < b[1..][k] {
      assert a[..k + 1] == [a[0]] + a[1..][..k] == [b[0]] + b[1..][..k] == b[..k + 1];
      assert a[k + 1] < b[k + 1];
    }
  }

  lemma {:induction false} LexTotal(a: string, b: string)
    ensures LexLeq(a, b) || LexLeq(b, a)
  {
    if a != [] && b != [] {
      LexTotal(a[1..], b[1..]);
    }
  }

  lemma {:induction false} LexAntisymmetric(a: string, b: string)
    requires LexLeq(a, b) && LexLeq(b, a)
    ensures a == b
  {
    if a != [] {
      LexAntisymmetric(a[1..], b[1..]);
      assert a == [a[0]] + a[1..] && b == [b[0]] + b[1..];
    }
  }

  lemma {:induction false} LexTransitive(a: string, b: string, c: string)
    requires LexLeq(a, b) && LexLeq(b, c)
    ensures LexLeq(a, c)
  {
    if a != [] && a[0] == b[0] == c[0] {
      LexTransitive(a[1..], b[1..], c[1..]);
    }
  }

  lemma LexOrder()
    ensures TotalOrder(LexLeq)
  {
    forall a, b
      ensures LexLeq(a, b) || LexLeq(b, a)
    {
      LexTotal(a, b);
    }
    forall a, b | LexLeq(a, b) && LexLeq(b, a)
      ensures a == b
    {
      LexAntisymmetric(a, b);
    }
    forall a, b, c | LexLeq(a, b) && LexLeq(b, c)
      ensures LexLeq(a, c)
    {
      LexTransitive(a, b, c);
    }
  }

  /** `sorted` on a set of strings, on a list of strings, and on a set of numbers. */
  function SortNames(s: set<string>): (r: seq<string>)
    ensures IsSorted(r, LexLeq) && Distinct(r)
    ensures forall x :: x in r <==> x in s
  {
    LexOrder();
    SortSet(s, LexLeq)
  }

  function SortNameList(xs: seq<string>): (r: seq<string>)
    ensures IsSorted(r, LexLeq)
    ensures multiset(r) == multiset(xs)
  {
    LexOrder();
    SortList(xs, LexLeq)
  }

  function SortInts(s: set<int>): (r: seq<int>)
    ensures forall i, j :: 0 <= i < j < |r| ==> r[i] < r[j]
    ensures forall x :: x in r <==> x in s
  {
    IntOrder();
    SortSet(s, IntLeq)
  }
}
