/** Dictionaries of lists: what `d.setdefault(key, []).append(value)` builds in a loop, and
    what regrouping conserves. */
module Grouping {
  import opened Collections
  import opened Ordering

  /** The elements with a given key, in their original order. */
  function Group<K(==), V>(xs: seq<V>, key: V -> K, k: K): seq<V> {
    if xs == [] then []
    else if key(xs[|xs| - 1]) == k then Group(xs[..|xs| - 1], key, k) + [xs[|xs| - 1]]
    else Group(xs[..|xs| - 1], key, k)
  }

  function KeysOf<K(==), V(==)>(xs: seq<V>, key: V -> K): set<K> {
    set x | x in xs :: key(x)
  }

  /** The finished dictionary: one entry per key that occurs, holding that key's elements in order. */
  function GroupBy<K(==), V(==)>(xs: seq<V>, key: V -> K): map<K, seq<V>> {
    map k | k in KeysOf(xs, key) :: Group(xs, key, k)
  }

  /** `groups.setdefault(k, []).append(v)` */
  function Append<K, V>(groups: map<K, seq<V>>, k: K, v: V): map<K, seq<V>> {
    groups[k := (if k in groups then groups[k] else []) + [v]]
  }

  lemma GroupSnoc<K, V>(xs: seq<V>, x: V, key: V -> K, k: K)
    ensures Group(xs + [x], key, k) == if key(x) == k then Group(xs, key, k) + [x] else Group(xs, key, k)
  {
    assert (xs + [x])[..|xs|] == xs;
  }

  lemma {:induction false} GroupMember<K, V>(xs: seq<V>, key: V -> K, k: K, x: V)
    ensures x in Group(xs, key, k) <==> x in xs && key(x) == k
  {
    if xs != [] {
      SnocCases(xs);
      GroupMember(xs[..|xs| - 1], key, k, x);
    }
  }

  lemma {:induction false} GroupCount<K, V>(xs: seq<V>, key: V -> K, k: K, x: V)
    ensures multiset(Group(xs, key, k))[x] == if key(x) == k then multiset(xs)[x] else 0
  {
    if xs != [] {
      SnocCases(xs);
      GroupCount(xs[..|xs| - 1], key, k, x);
    }
  }

  lemma GroupNonEmpty<K, V>(xs: seq<V>, key: V -> K, k: K)
    ensures k in KeysOf(xs, key) <==> Group(xs, key, k) != []
  {
    if k in KeysOf(xs, key) {
      var x :| x in xs && key(x) == k;
      GroupMember(xs, key, k, x);
    }
    if Group(xs, key, k) != [] {
      GroupMember(xs, key, k, Group(xs, key, k)[0]);
    }
  }

  /** One `setdefault(..).append(..)` carries the dictionary of a prefix to that of one more element. */
  lemma GroupBySnoc<K, V>(xs: seq<V>, x: V, key: V -> K)
    ensures GroupBy(xs + [x], key) == Append(GroupBy(xs, key), key(x), x)
  {
    assert KeysOf(xs + [x], key) == KeysOf(xs, key) + {key(x)} by {
      forall y | y in xs
        ensures key(y) in KeysOf(xs + [x], key)
      {
        assert y in xs + [x];
      }
      assert x in xs + [x];
    }
    forall k | k in KeysOf(xs + [x], key)
      ensures GroupBy(xs + [x], key)[k] == Append(GroupBy(xs, key), key(x), x)[k]
    {
      GroupSnoc(xs, x, key, k);
      GroupNonEmpty(xs, key, k);
    }
  }

  /** The groups of the listed keys, one after another. */
  function Regroup<K(==), V>(ks: seq<K>, xs: seq<V>, key: V -> K): seq<V> {
    if ks == [] then [] else Regroup(ks[..|ks| - 1], xs, key) + Group(xs, key, ks[|ks| - 1])
  }

  lemma {:induction false} RegroupCount<K, V>(ks: seq<K>, xs: seq<V>, key: V -> K, x: V)
    requires Distinct(ks)
    ensures multiset(Regroup(ks, xs, key))[x] == if key(x) in ks then multiset(xs)[x] else 0
  {
    if ks != [] {
      SnocCases(ks);
      RegroupCount(ks[..|ks| - 1], xs, key, x);
      GroupCount(xs, key, ks[|ks| - 1], x);
    }
  }

  /** The sum of the group sums of `f` over the listed keys. */
  function GroupTotal<K(==), V>(ks: seq<K>, xs: seq<V>, key: V -> K, f: V -> real): real {
    if ks == [] then 0.0
    else GroupTotal(ks[..|ks| - 1], xs, key, f) + Sum(Map(Group(xs, key, ks[|ks| - 1]), f))
  }

  lemma MapSnoc<A, B>(xs: seq<A>, x: A, f: A -> B)
    ensures Map(xs + [x], f) == Map(xs, f) + [f(x)]
  {
  }

  lemma {:induction false} GroupTotalSnoc<K, V>(ks: seq<K>, xs: seq<V>, x: V, key: V -> K, f: V -> real)
    requires Distinct(ks)
    ensures GroupTotal(ks, xs + [x], key, f)
         == GroupTotal(ks, xs, key, f) + if key(x) in ks then f(x) else 0.0
  {
    if ks != [] {
      var k := ks[|ks| - 1];
      SnocCases(ks);
      GroupTotalSnoc(ks[..|ks| - 1], xs, x, key, f);
      GroupSnoc(xs, x, key, k);
      MapSnoc(Group(xs, key, k), x, f);
      SumSnoc(Map(Group(xs, key, k), f), f(x));
    }
  }

  lemma {:induction false} GroupTotalOfNothing<K, V>(ks: seq<K>, key: V -> K, f: V -> real)
    ensures GroupTotal(ks, [], key, f) == 0.0
  {
    if ks != [] {
      GroupTotalOfNothing(ks[..|ks| - 1], key, f);
    }
  }

  /** Conservation: the group sums add up to the sum over the whole list. */
  lemma {:induction false} GroupTotalIsTotal<K, V>(ks: seq<K>, xs: seq<V>, key: V -> K, f: V -> real)
    requires Distinct(ks) && forall x :: x in xs ==> key(x) in ks
    ensures GroupTotal(ks, xs, key, f) == Sum(Map(xs, f))
  {
    if xs == [] {
      GroupTotalOfNothing(ks, key, f);
    } else {
      var init, x := xs[..|xs| - 1], xs[|xs| - 1];
      SnocCases(xs);
      GroupTotalIsTotal(ks, init, key, f);
      GroupTotalSnoc(ks, init, x, key, f);
      MapSnoc(init, x, f);
      SumSnoc(Map(init, f), f(x));
    }
  }
}
