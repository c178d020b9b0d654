/** Sequence vocabulary shared by the models: optional values, filtering, mapping,
    flattening and summing, with the laws the other modules rely on. */
module Collections {

  datatype Option<+T> = None | Some(value: T) {
    function GetOr(default: T): T {
      if Some? then value else default
    }
  }

  lemma SnocCases<T>(xs: seq<T>)
    requires xs != []
    ensures xs == xs[..|xs| - 1] + [xs[|xs| - 1]] && xs[|xs| - 1] in xs
    ensures forall x :: x in xs <==> x in xs[..|xs| - 1] || x == xs[|xs| - 1]
  {
    assert xs == xs[..|xs| - 1] + [xs[|xs| - 1]];
  }

  lemma AnyElement<T>(s: set<T>) returns (x: T)
    requires s != {}
    ensures x in s
  {
    x :| x in s;
  }

  function Filter<T>(xs: seq<T>, p: T -> bool): (r: seq<T>)
    ensures |r| <= |xs|
  {
    if xs == [] then []
    else if p(xs[|xs| - 1]) then Filter(xs[..|xs| - 1], p) + [xs[|xs| - 1]]
    else Filter(xs[..|xs| - 1], p)
  }

  lemma FilterSnoc<T>(xs: seq<T>, x: T, p: T -> bool)
    ensures Filter(xs + [x], p) == if p(x) then Filter(xs, p) + [x] else Filter(xs, p)
  {
    assert (xs + [x])[..|xs|] == xs;
  }

  lemma {:induction false} FilterMember<T>(xs: seq<T>, p: T -> bool, x: T)
    ensures x in Filter(xs, p) <==> x in xs && p(x)
  {
    if xs != [] {
      FilterMember(xs[..|xs| - 1], p, x);
      assert xs == xs[..|xs| - 1] + [xs[|xs| - 1]];
    }
  }

  /** Each entry is smaller than the next. */
  ghost predicate Increasing(at: seq<nat>) {
    forall j, k :: 0 <= j < k < |at| ==> at[j] < at[k]
  }

  /** Filtering keeps exactly the elements at the positions where `p` holds, in their order. */
  lemma {:induction false} FilterPositions<T>(xs: seq<T>, p: T -> bool) returns (at: seq<nat>)
    ensures Increasing(at) && forall n: nat :: n in at <==> n < |xs| && p(xs[n])
    ensures |at| == |Filter(xs, p)| && forall k :: 0 <= k < |at| ==> at[k] in at && Filter(xs, p)[k] == xs[at[k]]
  {
    if xs == [] {
      at := [];
    } else {
      var last := |xs| - 1;
      at := FilterPositions(xs[..last], p);
      if p(xs[last]) {
        at := at + [last];
      }
    }
  }

  function Map<A, B>(xs: seq<A>, f: A -> B): (r: seq<B>)
    ensures |r| == |xs|
    ensures forall i :: 0 <= i < |xs| ==> r[i] == f(xs[i])
  {
    seq(|xs|, i requires 0 <= i < |xs| => f(xs[i]))
  }

  lemma MapAppend<A, B>(xs: seq<A>, ys: seq<A>, f: A -> B)
    ensures Map(xs + ys, f) == Map(xs, f) + Map(ys, f)
  {
  }

  lemma MapInverse<A, B>(xs: seq<A>, f: A -> B, g: B -> A)
    requires forall i :: 0 <= i < |xs| ==> g(f(xs[i])) == xs[i]
    ensures Map(Map(xs, f), g) == xs
  {
  }

  function Flatten<T>(xss: seq<seq<T>>): seq<T> {
    if xss == [] then [] else Flatten(xss[..|xss| - 1]) + xss[|xss| - 1]
  }

  lemma FlattenSnoc<T>(xss: seq<seq<T>>, xs: seq<T>)
    ensures Flatten(xss + [xs]) == Flatten(xss) + xs
  {
    assert (xss + [xs])[..|xss|] == xss;
  }

  function Sum(xs: seq<real>): real {
    if xs == [] then 0.0 else Sum(xs[..|xs| - 1]) + xs[|xs| - 1]
  }

  lemma SumSnoc(xs: seq<real>, x: real)
    ensures Sum(xs + [x]) == Sum(xs) + x
  {
    assert (xs + [x])[..|xs|] == xs;
  }

  /** The arithmetic mean of a non-empty list. */
  function Mean(xs: seq<real>): real
    requires xs != []
  {
    Sum(xs) / |xs| as real
  }

  lemma MeanTimesCount(xs: seq<real>)
    requires xs != []
    ensures Mean(xs) * |xs| as real == Sum(xs)
  {
    var n := |xs| as real;
    assert n != 0.0;
    assert Sum(xs) / n * n == Sum(xs);
  }

  /** Repeated addition, which keeps the bounds below linear. */
  function Times(a: real, n: nat): real {
    if n == 0 then 0.0 else Times(a, n - 1) + a
  }

  lemma {:induction false} TimesIsProduct(a: real, n: nat)
    ensures Times(a, n) == a * n as real
  {
    if n != 0 {
      TimesIsProduct(a, n - 1);
      var m := (n - 1) as real;
      assert n as real == m + 1.0;
      assert a * (m + 1.0) == a * m + a;
    }
  }

  lemma {:induction false} SumBounds(xs: seq<real>, lo: real, hi: real)
    requires forall x :: x in xs ==> lo <= x <= hi
    ensures Times(lo, |xs|) <= Sum(xs) <= Times(hi, |xs|)
  {
    if xs != [] {
      var init := xs[..|xs| - 1];
      assert forall x :: x in init ==> x in xs;
      SumBounds(init, lo, hi);
      assert xs[|xs| - 1] in xs;
    }
  }

  lemma {:induction false} TimesIncreases(a: real, b: real, n: nat)
    requires a < b
    ensures Times(a, n) <= Times(b, n) && (n > 0 ==> Times(a, n) < Times(b, n))
  {
    if n > 0 {
      TimesIncreases(a, b, n - 1);
    }
  }

  lemma TimesMean(xs: seq<real>)
    requires xs != []
    ensures Times(Mean(xs), |xs|) == Sum(xs)
  {
    MeanTimesCount(xs);
    TimesIsProduct(Mean(xs), |xs|);
  }

  /** A mean lies between any bounds on its terms. */
  lemma MeanBounds(xs: seq<real>, lo: real, hi: real)
    requires xs != []
    requires forall x :: x in xs ==> lo <= x <= hi
    ensures lo <= Mean(xs) <= hi
  {
    SumBounds(xs, lo, hi);
    TimesMean(xs);
    if Mean(xs) < lo {
      TimesIncreases(Mean(xs), lo, |xs|);
    } else if Mean(xs) > hi {
      TimesIncreases(hi, Mean(xs), |xs|);
    }
  }
}
