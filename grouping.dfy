/** Grouping into a dict of lists: `if k not in d: d[k] = []` then `d[k].append(v)`. */
module Grouping {

  /** The values of the items with key `k`, in item order. */
  function Collect<T, K(==), V>(items: seq<T>, key: T -> K, val: T -> V, k: K): (r: seq<V>)
    ensures |r| <= |items|
  {
    if items == [] then []
    else
      var last := items[|items| - 1];
      Collect(items[..|items| - 1], key, val, k) + (if key(last) == k then [val(last)] else [])
  }

  /** A value is in group `k` exactly when some item with key `k` carries it. */
  lemma {:induction false} CollectMembers<T, K, V>(items: seq<T>, key: T -> K, val: T -> V, k: K, v: V)
    ensures v in Collect(items, key, val, k) <==>
            exists i :: 0 <= i < |items| && key(items[i]) == k && val(items[i]) == v
  {
    if items != [] {
      var init := items[..|items| - 1];
      CollectMembers(init, key, val, k, v);
      if exists i :: 0 <= i < |items| && key(items[i]) == k && val(items[i]) == v {
        var i :| 0 <= i < |items| && key(items[i]) == k && val(items[i]) == v;
        if i < |init| { assert init[i] == items[i]; }
      }
      if exists i :: 0 <= i < |init| && key(init[i]) == k && val(init[i]) == v {
        var i :| 0 <= i < |init| && key(init[i]) == k && val(init[i]) == v;
        assert items[i] == init[i];
      }
    }
  }

  /**
   * The position of the first item with key `k`, or `|items|` when there is none:
   * where the dict receives `k`.
   */
  function FirstKeyIndex<T, K(==)>(items: seq<T>, key: T -> K, k: K): (p: nat)
    ensures p <= |items|
    ensures p < |items| ==> key(items[p]) == k
    ensures forall q :: 0 <= q < p ==> key(items[q]) != k
  {
    if items == [] then 0
    else if key(items[0]) == k then 0
    else
      var p := FirstKeyIndex(items[1..], key, k);
      assert forall q :: 1 <= q < p + 1 ==> items[q] == items[1..][q - 1];
      p + 1
  }

  /**
   * Builds the dict of groups. `order` lists the keys in the order the dict
   * received them: by the position of each key's first item.
   */
  method GroupBy<T, K(==, !new), V>(items: seq<T>, key: T -> K, val: T -> V) returns (groups: map<K, seq<V>>, order: seq<K>)
    ensures forall k :: k in groups <==> exists i :: 0 <= i < |items| && key(items[i]) == k
    ensures forall k :: k in groups ==> groups[k] == Collect(items, key, val, k)
    ensures forall k :: k in order <==> k in groups
    ensures forall i, j :: 0 <= i < j < |order| ==> order[i] != order[j]
    ensures forall i, j :: 0 <= i < j < |order| ==>
      FirstKeyIndex(items, key, order[i]) < FirstKeyIndex(items, key, order[j])
  {
    groups, order := map[], [];
    for n := 0 to |items|
      invariant KeysUpTo(items, key, n, groups.Keys)
      invariant CollectedUpTo(items, key, val, n, groups)
      invariant KeysInOrder(groups, order)
      invariant FirstSeenOrder(items, key, order)
    {
      groups, order := AddItem(items, key, val, n, groups, order);
    }
    GroupedAll(items, key, val, groups);
  }

  /** One pass of the loop: item `n` goes to the end of its key's group, a new key to the end of `order`. */
  method AddItem<T, K(==, !new), V>(items: seq<T>, key: T -> K, val: T -> V, n: nat, groups0: map<K, seq<V>>, order0: seq<K>)
    returns (groups: map<K, seq<V>>, order: seq<K>)
    requires n < |items|
    requires KeysUpTo(items, key, n, groups0.Keys)
    requires CollectedUpTo(items, key, val, n, groups0)
    requires KeysInOrder(groups0, order0)
    requires FirstSeenOrder(items, key, order0)
    ensures KeysUpTo(items, key, n + 1, groups.Keys)
    ensures CollectedUpTo(items, key, val, n + 1, groups)
    ensures KeysInOrder(groups, order)
    ensures FirstSeenOrder(items, key, order)
  {
    var k := key(items[n]);
    var v := val(items[n]);
    var group := if k in groups0 then groups0[k] else [];
    groups := groups0[k := group + [v]];
    order := if k in groups0 then order0 else order0 + [k];
    KeysStep(items, key, n, groups0.Keys, groups.Keys);
    CollectsStep(items, key, val, n, groups0, groups);
    OrderStep(groups0, order0, k, groups, order);
    FirstSeenStep(items, key, n, groups0, order0, order);
  }

  /** `keys` are exactly the keys of the first `n` items. */
  ghost predicate KeysUpTo<T, K(!new)>(items: seq<T>, key: T -> K, n: nat, keys: set<K>)
    requires n <= |items|
  {
    forall k :: k in keys <==> KeyAmong(items, key, n, k)
  }

  /** The dict holds exactly the grouping of the first `n` items. */
  ghost predicate CollectedUpTo<T, K(!new), V>(items: seq<T>, key: T -> K, val: T -> V, n: nat, groups: map<K, seq<V>>)
    requires n <= |items|
  {
    forall k :: Collect(items[..n], key, val, k) == if k in groups then groups[k] else []
  }

  /** `order` lists the dict's keys, each once. */
  ghost predicate KeysInOrder<K(!new), V>(groups: map<K, seq<V>>, order: seq<K>)
  {
    (forall k :: k in order <==> k in groups)
    && (forall i, j :: 0 <= i < j < |order| ==> order[i] != order[j])
  }

  /** `order` lists keys by the position of their first item. */
  ghost predicate FirstSeenOrder<T, K>(items: seq<T>, key: T -> K, order: seq<K>)
  {
    forall i, j :: 0 <= i < j < |order| ==> FirstKeyIndex(items, key, order[i]) < FirstKeyIndex(items, key, order[j])
  }

  /**
   * A key first met at item `n` comes after every key already in the dict,
   * whose first items all lie before `n`.
   */
  lemma FirstSeenStep<T, K(!new), V>(items: seq<T>, key: T -> K, n: nat, before: map<K, seq<V>>, orderBefore: seq<K>, order: seq<K>)
    requires n < |items|
    requires KeysUpTo(items, key, n, before.Keys)
    requires KeysInOrder(before, orderBefore)
    requires FirstSeenOrder(items, key, orderBefore)
    requires order == if key(items[n]) in before then orderBefore else orderBefore + [key(items[n])]
    ensures FirstSeenOrder(items, key, order)
  {
    var k := key(items[n]);
    if k !in before {
      assert !KeyAmong(items, key, n, k);
      assert FirstKeyIndex(items, key, k) == n;
      forall i | 0 <= i < |orderBefore| ensures FirstKeyIndex(items, key, orderBefore[i]) < n {
        assert KeyAmong(items, key, n, orderBefore[i]);
      }
    }
  }

  /** Item `n` adds its key to the keys seen so far. */
  lemma KeysStep<T, K(!new)>(items: seq<T>, key: T -> K, n: nat, before: set<K>, after: set<K>)
    requires n < |items|
    requires KeysUpTo(items, key, n, before)
    requires after == before + {key(items[n])}
    ensures KeysUpTo(items, key, n + 1, after)
  {
    forall k ensures k in after <==> KeyAmong(items, key, n + 1, k) {
      KeyAmongStep(items, key, n, k);
    }
  }

  /** Appending item `n` to its group keeps the dict equal to the grouping of `items[..n + 1]`. */
  lemma CollectsStep<T, K(!new), V>(items: seq<T>, key: T -> K, val: T -> V, n: nat, before: map<K, seq<V>>, after: map<K, seq<V>>)
    requires n < |items|
    requires CollectedUpTo(items, key, val, n, before)
    requires after == before[key(items[n]) := (if key(items[n]) in before then before[key(items[n])] else []) + [val(items[n])]]
    ensures CollectedUpTo(items, key, val, n + 1, after)
  {
    forall k ensures Collect(items[..n + 1], key, val, k) == if k in after then after[k] else [] {
      CollectStep(items, key, val, k, n);
    }
  }

  /** A key met for the first time goes to the end of `order`. */
  lemma OrderStep<K(!new), V>(before: map<K, seq<V>>, orderBefore: seq<K>, k: K, after: map<K, seq<V>>, order: seq<K>)
    requires KeysInOrder(before, orderBefore)
    requires after.Keys == before.Keys + {k}
    requires order == if k in before then orderBefore else orderBefore + [k]
    ensures KeysInOrder(after, order)
  {
  }

  lemma GroupedAll<T, K(!new), V>(items: seq<T>, key: T -> K, val: T -> V, groups: map<K, seq<V>>)
    requires KeysUpTo(items, key, |items|, groups.Keys)
    requires CollectedUpTo(items, key, val, |items|, groups)
    ensures forall k :: k in groups <==> exists i :: 0 <= i < |items| && key(items[i]) == k
    ensures forall k :: k in groups ==> groups[k] == Collect(items, key, val, k)
  {
    assert items[..|items|] == items;
  }

  /** Some item among the first `n` has key `k`. */
  predicate KeyAmong<T, K(==)>(items: seq<T>, key: T -> K, n: nat, k: K)
    requires n <= |items|
  {
    exists i :: 0 <= i < n && key(items[i]) == k
  }

  lemma KeyAmongStep<T, K>(items: seq<T>, key: T -> K, n: nat, k: K)
    requires n < |items|
    ensures KeyAmong(items, key, n + 1, k) <==> KeyAmong(items, key, n, k) || key(items[n]) == k
  {
    if KeyAmong(items, key, n + 1, k) && key(items[n]) != k {
      var i :| 0 <= i < n + 1 && key(items[i]) == k;
      assert KeyAmong(items, key, n, k);
    }
  }

  lemma CollectStep<T, K, V>(items: seq<T>, key: T -> K, val: T -> V, k: K, n: nat)
    requires n < |items|
    ensures Collect(items[..n + 1], key, val, k) ==
            Collect(items[..n], key, val, k) + (if key(items[n]) == k then [val(items[n])] else [])
  {
    assert items[..n + 1][..n] == items[..n];
  }

  /**
   * With distinct values (the names of a dict's keys), item `i`'s value is in
   * group `k` exactly when `k` is item `i`'s own key: the groups partition the values.
   */
  lemma CollectPartition<T, K, V>(items: seq<T>, key: T -> K, val: T -> V, i: int, k: K)
    requires 0 <= i < |items|
    requires forall j, l :: 0 <= j < l < |items| ==> val(items[j]) != val(items[l])
    ensures val(items[i]) in Collect(items, key, val, k) <==> key(items[i]) == k
  {
    CollectMembers(items, key, val, k, val(items[i]));
    if val(items[i]) in Collect(items, key, val, k) {
      var j :| 0 <= j < |items| && key(items[j]) == k && val(items[j]) == val(items[i]);
      assert j == i;
    }
  }

  /** The positions of the items with key `k`, in increasing order. */
  function Positions<T, K(==)>(items: seq<T>, key: T -> K, k: K): (ps: seq<nat>)
    ensures forall j :: 0 <= j < |ps| ==> ps[j] < |items| && key(items[ps[j]]) == k
    ensures forall j, l :: 0 <= j < l < |ps| ==> ps[j] < ps[l]
    ensures forall i :: 0 <= i < |items| && key(items[i]) == k ==> i in ps
  {
    if items == [] then []
    else
      var n := |items| - 1;
      var init := items[..n];
      assert forall i :: 0 <= i < n ==> init[i] == items[i];
      Positions(init, key, k) + (if key(items[n]) == k then [n] else [])
  }

  /**
   * Group `k` holds the values of the items at `Positions(items, key, k)`,
   * one for one: grouping keeps the items' order within each group.
   */
  lemma {:induction false} CollectInOrder<T, K, V>(items: seq<T>, key: T -> K, val: T -> V, k: K)
    ensures |Collect(items, key, val, k)| == |Positions(items, key, k)|
    ensures forall j :: 0 <= j < |Positions(items, key, k)| ==>
      Collect(items, key, val, k)[j] == val(items[Positions(items, key, k)[j]])
  {
    if items != [] {
      var n := |items| - 1;
      var init := items[..n];
      CollectInOrder(init, key, val, k);
      var ps, ps0 := Positions(items, key, k), Positions(init, key, k);
      var c, c0 := Collect(items, key, val, k), Collect(init, key, val, k);
      assert ps == ps0 + (if key(items[n]) == k then [n] else []);
      assert c == c0 + (if key(items[n]) == k then [val(items[n])] else []);
      forall j | 0 <= j < |ps| ensures c[j] == val(items[ps[j]]) {
        if j < |ps0| {
          assert c[j] == c0[j] && ps[j] == ps0[j];
          assert init[ps0[j]] == items[ps0[j]];
        }
      }
    }
  }

  /** The total size of the groups named in `ks`. */
  function GroupSizes<T, K(==), V>(items: seq<T>, key: T -> K, val: T -> V, ks: seq<K>): nat
  {
    if ks == [] then 0 else |Collect(items, key, val, ks[0])| + GroupSizes(items, key, val, ks[1..])
  }

  /** Appending an item grows exactly one of the distinct groups `ks`, if its key is among them. */
  lemma {:induction false} GroupSizesAppend<T, K, V>(items: seq<T>, key: T -> K, val: T -> V, x: T, ks: seq<K>)
    requires forall i, j :: 0 <= i < j < |ks| ==> ks[i] != ks[j]
    ensures GroupSizes(items + [x], key, val, ks) ==
            GroupSizes(items, key, val, ks) + (if key(x) in ks then 1 else 0)
  {
    if ks != [] {
      GroupSizesAppend(items, key, val, x, ks[1..]);
      assert (items + [x])[..|items|] == items;
      assert forall j :: 0 <= j < |ks| - 1 ==> ks[1..][j] == ks[j + 1];
      assert key(x) in ks <==> key(x) == ks[0] || key(x) in ks[1..];
    }
  }

  /**
   * The groups partition the items: when the distinct keys `ks` cover every
   * item's key, the group sizes add up to the number of items.
   */
  lemma {:induction false} GroupSizesTotal<T, K, V>(items: seq<T>, key: T -> K, val: T -> V, ks: seq<K>)
    requires forall i, j :: 0 <= i < j < |ks| ==> ks[i] != ks[j]
    requires forall i :: 0 <= i < |items| ==> key(items[i]) in ks
    ensures GroupSizes(items, key, val, ks) == |items|
  {
    if items == [] {
      GroupSizesEmpty(key, val, ks);
    } else {
      var init := items[..|items| - 1];
      var x := items[|items| - 1];
      assert forall i :: 0 <= i < |init| ==> init[i] == items[i];
      GroupSizesTotal(init, key, val, ks);
      GroupSizesAppend(init, key, val, x, ks);
      assert init + [x] == items;
    }
  }

  lemma {:induction false} GroupSizesEmpty<T, K, V>(key: T -> K, val: T -> V, ks: seq<K>)
    ensures GroupSizes([], key, val, ks) == 0
  {
    if ks != [] {
      GroupSizesEmpty(key, val, ks[1..]);
    }
  }
}
