/** Python's `dict` (and `defaultdict(list)`): a finite map together with
    the order in which its keys were first inserted, which is the order
    `items()` walks them in. */
module Dicts {

  datatype Dict<K, V> = Dict(order: seq<K>, m: map<K, V>)

  predicate NoDuplicates<K(==)>(xs: seq<K>) {
    forall i, j :: 0 <= i < j < |xs| ==> xs[i] != xs[j]
  }

  /** Every key is listed once, and exactly the keys are listed. */
  predicate Valid<K, V>(d: Dict<K, V>) {
    && NoDuplicates(d.order)
    && (forall k :: k in d.m ==> k in d.order)
    && (forall k :: k in d.order ==> k in d.m)
  }

  function Empty<K, V>(): (d: Dict<K, V>)
    ensures Valid(d) && d.m == map[]
  {
    Dict([], map[])
  }

  /** `d.get(k, dflt)`, and `d[k]` of a `defaultdict`. */
  function Lookup<K, V>(d: Dict<K, V>, k: K, dflt: V): V {
    if k in d.m then d.m[k] else dflt
  }

  /** `d[k] = v`: a present key keeps its place, a new one goes last. */
  function Set<K, V>(d: Dict<K, V>, k: K, v: V): (r: Dict<K, V>)
    requires Valid(d)
    ensures Valid(r)
    ensures r.m == d.m[k := v]
    ensures r.order == if k in d.m then d.order else d.order + [k]
  {
    Dict(if k in d.m then d.order else d.order + [k], d.m[k := v])
  }

  /** A dict is empty exactly when it lists no key. */
  lemma EmptyIffNoOrder<K, V>(d: Dict<K, V>)
    requires Valid(d)
    ensures d.m == map[] <==> d.order == []
  {
    if d.order != [] {
      assert d.order[0] in d.m;
    }
  }

  /** The list without `k`. */
  function Remove<K(==)>(xs: seq<K>, k: K): (r: seq<K>)
    ensures forall i :: 0 <= i < |r| ==> r[i] in xs && r[i] != k
    ensures forall i :: 0 <= i < |xs| && xs[i] != k ==> xs[i] in r
    ensures NoDuplicates(xs) ==> NoDuplicates(r)
  {
    if xs == [] then []
    else if xs[0] == k then Remove(xs[1..], k)
    else [xs[0]] + Remove(xs[1..], k)
  }

  /** `del d[k]`, for a key that is present. */
  function Delete<K, V>(d: Dict<K, V>, k: K): (r: Dict<K, V>)
    requires Valid(d)
    ensures Valid(r)
    ensures r.m == d.m - {k}
    ensures r.order == Remove(d.order, k)
  {
    Dict(Remove(d.order, k), d.m - {k})
  }

  /** `d[k].append(x)` on a `defaultdict(list)`. */
  function AppendTo<K, X>(d: Dict<K, seq<X>>, k: K, x: X): (r: Dict<K, seq<X>>)
    requires Valid(d)
    ensures Valid(r)
    ensures r.m == d.m[k := Lookup(d, k, []) + [x]]
  {
    Set(d, k, Lookup(d, k, []) + [x])
  }

  /** The entries as a set of pairs: `set(d.items())`. */
  function Items<K, V(==)>(d: Dict<K, V>): set<(K, V)> {
    set k | k in d.m :: (k, d.m[k])
  }

  /** The values of the keys of `ks`, one after the other. */
  function Concat<K, X>(ks: seq<K>, m: map<K, seq<X>>): seq<X>
    requires forall k :: k in ks ==> k in m
  {
    if ks == [] then []
    else Concat(ks[..|ks| - 1], m) + m[ks[|ks| - 1]]
  }

  /** All the values of a `dict` of lists, in order. */
  function Flatten<K, X>(d: Dict<K, seq<X>>): seq<X>
    requires Valid(d)
  {
    Concat(d.order, d.m)
  }

  lemma {:induction false} ConcatUnchanged<K, X>(ks: seq<K>, m: map<K, seq<X>>, k: K, v: seq<X>)
    requires forall j :: j in ks ==> j in m
    requires k !in ks
    ensures Concat(ks, m[k := v]) == Concat(ks, m)
  {
    if ks != [] {
      ConcatUnchanged(ks[..|ks| - 1], m, k, v);
    }
  }

  /** Appending to the one list of a listed key adds exactly that element
      to the flattened values. */
  lemma {:induction false} ConcatAppend<K, X>(ks: seq<K>, m: map<K, seq<X>>, k: K, x: X)
    requires forall j :: j in ks ==> j in m
    requires NoDuplicates(ks) && k in ks
    ensures multiset(Concat(ks, m[k := m[k] + [x]])) == multiset(Concat(ks, m)) + multiset{x}
  {
    var n := |ks| - 1;
    var init := ks[..n];
    assert NoDuplicates(init);
    if ks[n] == k {
      assert k !in init;
      ConcatUnchanged(init, m, k, m[k] + [x]);
    } else {
      assert k in init;
      ConcatAppend(init, m, k, x);
    }
  }

  /** `d[k].append(x)` adds `x`, and nothing else, to the values. */
  lemma AppendToFlatten<K, X>(d: Dict<K, seq<X>>, k: K, x: X)
    requires Valid(d)
    ensures multiset(Flatten(AppendTo(d, k, x))) == multiset(Flatten(d)) + multiset{x}
  {
    if k in d.m {
      ConcatAppend(d.order, d.m, k, x);
    } else {
      var m' := d.m[k := [x]];
      assert Lookup(d, k, []) + [x] == [x];
      assert AppendTo(d, k, x) == Dict(d.order + [k], m');
      ConcatUnchanged(d.order, d.m, k, [x]);
      assert (d.order + [k])[..|d.order|] == d.order;
      assert Concat(d.order + [k], m') == Concat(d.order, m') + [x];
    }
  }

  /** The list without the members of `ks`. */
  function Drop<K(==)>(xs: seq<K>, ks: set<K>): (r: seq<K>)
    ensures forall i :: 0 <= i < |r| ==> r[i] in xs && r[i] !in ks
    ensures forall i :: 0 <= i < |xs| && xs[i] !in ks ==> xs[i] in r
    ensures NoDuplicates(xs) ==> NoDuplicates(r)
  {
    if xs == [] then []
    else
      var rest := Drop(xs[1..], ks);
      assert NoDuplicates(xs) ==> NoDuplicates(xs[1..]) && xs[0] !in xs[1..];
      (if xs[0] in ks then [] else [xs[0]]) + rest
  }

  /** `del d[k]` for every key `k` of `ks` that is present. */
  function DeleteAll<K, V>(d: Dict<K, V>, ks: set<K>): (r: Dict<K, V>)
    requires Valid(d)
    ensures Valid(r)
    ensures r.m == map k | k in d.m && k !in ks :: d.m[k]
  {
    Dict(Drop(d.order, ks), map k | k in d.m && k !in ks :: d.m[k])
  }

  lemma {:induction false} DropStep<K>(xs: seq<K>, ks: set<K>, k: K)
    ensures Remove(Drop(xs, ks), k) == Drop(xs, ks + {k})
  {
    if xs != [] {
      DropStep(xs[1..], ks, k);
      var rest := Drop(xs[1..], ks);
      var rest' := Drop(xs[1..], ks + {k});
      if xs[0] in ks {
        assert Drop(xs, ks) == rest;
        assert Drop(xs, ks + {k}) == rest';
      } else {
        assert Drop(xs, ks) == [xs[0]] + rest;
        assert ([xs[0]] + rest)[1..] == rest;
        if xs[0] == k {
          assert Drop(xs, ks + {k}) == rest';
        } else {
          assert Drop(xs, ks + {k}) == [xs[0]] + rest';
        }
      }
    }
  }

  /** Deleting the keys one at a time, in any order, deletes them all. */
  lemma DeleteStep<K, V>(d: Dict<K, V>, ks: set<K>, k: K)
    requires Valid(d)
    ensures Delete(DeleteAll(d, ks), k) == DeleteAll(d, ks + {k})
  {
    DropStep(d.order, ks, k);
  }

  lemma DeleteNothing<K, V>(d: Dict<K, V>)
    requires Valid(d)
    ensures DeleteAll(d, {}) == d
  {
    DropNothing(d.order);
  }

  lemma {:induction false} DropNothing<K>(xs: seq<K>)
    ensures Drop(xs, {}) == xs
  {
    if xs != [] {
      DropNothing(xs[1..]);
      assert [xs[0]] + xs[1..] == xs;
    }
  }

  /** `d` with the keys `ss`, one after the other, given their values
      from `t` in place. */
  function Install<K, V>(a: Dict<K, V>, ss: seq<K>, t: map<K, V>): (r: Dict<K, V>)
    requires forall s :: s in ss ==> s in a.m && s in t
    ensures r.order == a.order && r.m.Keys == a.m.Keys
    ensures forall s :: s in ss ==> r.m[s] == t[s]
    ensures forall s :: s in a.m && s !in ss ==> r.m[s] == a.m[s]
    decreases |ss|
  {
    if ss == [] then a
    else
      var n := |ss| - 1;
      var prev := Install(a, ss[..n], t);
      assert forall s :: s in ss[..n] ==> s in ss;
      assert ss == ss[..n] + [ss[n]];
      Dict(prev.order, prev.m[ss[n] := t[ss[n]]])
  }

  /** One more key installed: the one at `i`, still untouched. */
  lemma InstallNext<K, V>(a: Dict<K, V>, t: map<K, V>, i: nat)
    requires Valid(a) && a.m.Keys <= t.Keys && i < |a.order|
    ensures a.order[i] !in a.order[..i]
    ensures Install(a, a.order[..i], t).m[a.order[i]] == a.m[a.order[i]]
    ensures Install(a, a.order[..i + 1], t) == Dict(a.order, Install(a, a.order[..i], t).m[a.order[i] := t[a.order[i]]])
  {
    assert a.order[..i + 1][..i] == a.order[..i];
  }

  /** Installing every key of a dict with the same keys and order gives
      that dict. */
  lemma InstallAll<K, V>(a: Dict<K, V>, b: Dict<K, V>)
    requires Valid(a) && b.order == a.order && b.m.Keys == a.m.Keys
    ensures Install(a, a.order, b.m) == b
  {
    var r := Install(a, a.order, b.m);
    forall s | s in b.m
      ensures r.m[s] == b.m[s]
    {
      assert s in a.order;
    }
    assert r.m == b.m;
  }

  /** The same, reached as the loop's last prefix. */
  lemma InstallAllPrefix<K, V>(a: Dict<K, V>, b: Dict<K, V>)
    requires Valid(a) && b.order == a.order && b.m.Keys == a.m.Keys
    ensures Install(a, a.order[..|a.order|], b.m) == b
  {
    assert a.order[..|a.order|] == a.order;
    InstallAll(a, b);
  }
}
