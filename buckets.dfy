/** Dictionaries of lists, as the blocks build them with
    `defaultdict(list)`: a sequence of (key, list) pairs in the order the
    keys were first used, each key at most once. */
module Buckets {

  /** The list under `key`; empty when the key is not there. */
  function Lookup<K(==), V>(d: seq<(K, seq<V>)>, key: K): seq<V>
  {
    if d == [] then []
    else if d[0].0 == key then d[0].1
    else Lookup(d[1..], key)
  }

  /** `d[key].append(x)`: a new key is added last. */
  function AppendTo<K(==), V>(d: seq<(K, seq<V>)>, key: K, x: V): seq<(K, seq<V>)>
  {
    if d == [] then [(key, [x])]
    else if d[0].0 == key then [(key, d[0].1 + [x])] + d[1..]
    else [d[0]] + AppendTo(d[1..], key, x)
  }

  /** The keys, in order. */
  function KeysOf<K, V>(d: seq<(K, seq<V>)>): (ks: seq<K>)
    ensures |ks| == |d| && forall i :: 0 <= i < |d| ==> ks[i] == d[i].0
  {
    if d == [] then [] else [d[0].0] + KeysOf(d[1..])
  }

  /** No key twice, and no empty list. */
  ghost predicate WellFormed<K, V>(d: seq<(K, seq<V>)>)
  {
    && (forall i, j :: 0 <= i < j < |d| ==> d[i].0 != d[j].0)
    && (forall i :: 0 <= i < |d| ==> d[i].1 != [])
  }

  /** The elements of `xs` whose key is `k`, in order. */
  function Where<K(==), V>(xs: seq<V>, key: V -> K, k: K): (r: seq<V>)
    ensures |r| <= |xs|
  {
    if xs == [] then []
    else Where(xs[..|xs| - 1], key, k) + (if key(xs[|xs| - 1]) == k then [xs[|xs| - 1]] else [])
  }

  /** `Where` keeps exactly the elements of key `k`, each no more often
      than `xs` holds it. */
  lemma {:induction false} WhereSelects<K, V>(xs: seq<V>, key: V -> K, k: K)
    ensures forall x :: x in Where(xs, key, k) <==> x in xs && key(x) == k
    ensures multiset(Where(xs, key, k)) <= multiset(xs)
    decreases |xs|
  {
    if xs != [] {
      var init, x := xs[..|xs| - 1], xs[|xs| - 1];
      WhereSelects(init, key, k);
      assert xs == init + [x];
      var tail := if key(x) == k then [x] else [];
      assert Where(xs, key, k) == Where(init, key, k) + tail;
      assert multiset(tail) <= multiset([x]);
    }
  }

  /** The keys of `xs`, each once, in the order of first occurrence. */
  function FirstKeys<K(==), V>(xs: seq<V>, key: V -> K): seq<K>
  {
    if xs == [] then []
    else
      var ks := FirstKeys(xs[..|xs| - 1], key);
      if key(xs[|xs| - 1]) in ks then ks else ks + [key(xs[|xs| - 1])]
  }

  /** Grouping `xs` by `key` one element at a time (the `defaultdict`
      loop), from an empty dictionary. */
  function GroupBy<K(==), V>(xs: seq<V>, key: V -> K): seq<(K, seq<V>)>
  {
    if xs == [] then [] else AppendTo(GroupBy(xs[..|xs| - 1], key), key(xs[|xs| - 1]), xs[|xs| - 1])
  }

  /** The grouping puts each element in the list of its own key, in order,
      lists every key once in the order of first occurrence, and leaves no
      list empty. */
  lemma {:induction false} GroupByBuckets<K, V>(xs: seq<V>, key: V -> K)
    ensures WellFormed(GroupBy(xs, key))
    ensures KeysOf(GroupBy(xs, key)) == FirstKeys(xs, key)
    ensures forall k :: Lookup(GroupBy(xs, key), k) == Where(xs, key, k)
    decreases |xs|
  {
    if xs != [] {
      var init := xs[..|xs| - 1];
      var x := xs[|xs| - 1];
      GroupByBuckets(init, key);
      AppendToWellFormed(GroupBy(init, key), key(x), x);
      AppendToKeys(GroupBy(init, key), key(x), x);
      forall k
        ensures Lookup(GroupBy(xs, key), k) == Where(xs, key, k)
      {
        AppendToLookup(GroupBy(init, key), key(x), x, k);
      }
    }
  }

  /** The grouping lists no key twice and no empty list. */
  lemma {:induction false} GroupByWellFormed<K, V>(xs: seq<V>, key: V -> K)
    ensures WellFormed(GroupBy(xs, key))
    decreases |xs|
  {
    if xs != [] {
      GroupByWellFormed(xs[..|xs| - 1], key);
      AppendToWellFormed(GroupBy(xs[..|xs| - 1], key), key(xs[|xs| - 1]), xs[|xs| - 1]);
    }
  }

  /** Keeping a prefix of one more element adds that element to its own
      key's list. */
  lemma GroupByStep<K, V>(xs: seq<V>, key: V -> K, i: nat)
    requires i < |xs|
    ensures GroupBy(xs[..i + 1], key) == AppendTo(GroupBy(xs[..i], key), key(xs[i]), xs[i])
  {
    assert xs[..i + 1][..i] == xs[..i];
  }

  /** Appending extends the list under its key by that one element and no
      other list. */
  lemma {:induction false} AppendToLookup<K, V>(d: seq<(K, seq<V>)>, key: K, x: V, other: K)
    ensures Lookup(AppendTo(d, key, x), other) ==
              if other == key then Lookup(d, key) + [x] else Lookup(d, other)
    decreases |d|
  {
    if d != [] && d[0].0 != key {
      AppendToLookup(d[1..], key, x, other);
      assert AppendTo(d, key, x)[1..] == AppendTo(d[1..], key, x);
    }
  }

  /** Appending adds `key` last when it is new, and no other key. */
  lemma {:induction false} AppendToKeys<K, V>(d: seq<(K, seq<V>)>, key: K, x: V)
    ensures KeysOf(AppendTo(d, key, x)) == if key in KeysOf(d) then KeysOf(d) else KeysOf(d) + [key]
    decreases |d|
  {
    if d != [] && d[0].0 != key {
      AppendToKeys(d[1..], key, x);
      assert KeysOf(d) == [d[0].0] + KeysOf(d[1..]);
    }
  }

  /** Appending keeps the dictionary well formed. */
  lemma {:induction false} AppendToWellFormed<K, V>(d: seq<(K, seq<V>)>, key: K, x: V)
    requires WellFormed(d)
    ensures WellFormed(AppendTo(d, key, x))
    decreases |d|
  {
    if d == [] {
    } else if d[0].0 == key {
      var r := AppendTo(d, key, x);
      assert r == [(key, d[0].1 + [x])] + d[1..];
      assert forall i :: 0 < i < |r| ==> r[i] == d[i];
    } else {
      AppendToWellFormed(d[1..], key, x);
      AppendToKeys(d[1..], key, x);
      var t := AppendTo(d[1..], key, x);
      var r := AppendTo(d, key, x);
      assert r == [d[0]] + t;
      assert d[0].0 !in KeysOf(d[1..]) by {
        forall i | 0 <= i < |d[1..]|
          ensures KeysOf(d[1..])[i] != d[0].0
        {
          assert d[1..][i] == d[i + 1];
        }
      }
      assert d[0].0 !in KeysOf(t);
      ConsWellFormed(d[0], t);
    }
  }

  /** A new key with a non-empty list in front of a well-formed dictionary
      keeps it well formed. */
  lemma ConsWellFormed<K, V>(h: (K, seq<V>), t: seq<(K, seq<V>)>)
    requires WellFormed(t) && h.0 !in KeysOf(t) && h.1 != []
    ensures WellFormed([h] + t)
  {
    var r := [h] + t;
    forall i, j | 0 <= i < j < |r|
      ensures r[i].0 != r[j].0
    {
      assert r[j] == t[j - 1];
      if i == 0 {
        assert r[j].0 == KeysOf(t)[j - 1];
      } else {
        assert r[i] == t[i - 1];
      }
    }
    assert forall i :: 0 < i < |r| ==> r[i] == t[i - 1];
  }

  /** A well-formed dictionary has the whole list of a key at the key's
      position. */
  lemma {:induction false} LookupAt<K, V>(d: seq<(K, seq<V>)>, i: nat)
    requires WellFormed(d) && i < |d|
    ensures Lookup(d, d[i].0) == d[i].1
    decreases i
  {
    if i > 0 {
      LookupAt(d[1..], i - 1);
    }
  }

  /** A key that is not there has the empty list. */
  lemma {:induction false} LookupAbsent<K, V>(d: seq<(K, seq<V>)>, k: K)
    requires k !in KeysOf(d)
    ensures Lookup(d, k) == []
    decreases |d|
  {
    if d != [] {
      assert KeysOf(d[1..]) == KeysOf(d)[1..];
      LookupAbsent(d[1..], k);
    }
  }
}
