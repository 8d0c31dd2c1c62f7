/** The dictionaries the miner passes between its stages.

    - An observation table maps a connective (or a word) to the list of
      surface strings it was aligned to, one entry per observation; it is
      Python's `defaultdict(list)`, whose read of a missing key is `[]`.
    - A count table maps a connective to a `Counter` of its aligned
      values; a `Counter` is a multiset (a missing value counts 0).
    - A probability table maps a connective to a map from aligned value to
      its relative frequency, an exact ratio here. */
module Tables {

  type ObsTable = map<string, seq<string>>
  type CountTable = map<string, multiset<string>>
  type ProbTable = map<string, map<string, real>>

  /** Reading a `defaultdict(list)`: a missing key reads as empty. */
  function Get(t: ObsTable, k: string): seq<string> {
    if k in t then t[k] else []
  }

  /** The values `vs` appended one by one with `t[k].append` on a
      `defaultdict(list)`; nothing is created when there are none. */
  function Extend(t: ObsTable, k: string, vs: seq<string>): (r: ObsTable)
    ensures r.Keys == if vs == [] then t.Keys else t.Keys + {k}
    ensures Get(r, k) == Get(t, k) + vs
    ensures forall k' :: k' != k ==> Get(r, k') == Get(t, k')
  {
    if vs == [] then t else t[k := Get(t, k) + vs]
  }

  /** Appending twice to the same key is appending the concatenation. */
  lemma ExtendTwice(t: ObsTable, k: string, a: seq<string>, b: seq<string>)
    ensures Extend(Extend(t, k, a), k, b) == Extend(t, k, a + b)
  {
    if a == [] {
      assert a + b == b;
    } else if b == [] {
      assert a + b == a;
    } else {
      ConcatAssoc(Get(t, k), a, b);
    }
  }

  lemma ConcatAssoc<T>(a: seq<T>, b: seq<T>, c: seq<T>)
    ensures (a + b) + c == a + (b + c)
  {
  }

  lemma TakeSnoc<T>(s: seq<T>, k: nat)
    requires k < |s|
    ensures s[..k + 1] == s[..k] + [s[k]]
  {
  }

  lemma TakeTake<T>(s: seq<T>, k: nat)
    requires k < |s|
    ensures s[..k + 1][..k] == s[..k]
  {
  }

  lemma TakeOfTake<T>(s: seq<T>, n: nat, m: nat)
    requires m <= n <= |s|
    ensures s[..n][..m] == s[..m]
  {
  }

  lemma ConcatAt<T>(a: seq<T>, b: seq<T>, j: nat)
    requires j < |a| + |b|
    ensures (a + b)[j] == if j < |a| then a[j] else b[j - |a|]
  {
  }

  lemma TakeAll<T>(s: seq<T>)
    ensures s[..|s|] == s
  {
  }

  lemma SliceWhole<T>(s: seq<T>)
    ensures s[0..|s|] == s
  {
  }

  lemma SliceDropFirst<T>(s: seq<T>, lo: nat, hi: nat)
    requires lo < hi <= |s|
    ensures s[lo..hi][1..] == s[lo + 1..hi]
  {
  }

  lemma SliceDropLast<T>(s: seq<T>, lo: nat, hi: nat)
    requires lo < hi <= |s|
    ensures s[lo..hi][..hi - lo - 1] == s[lo..hi - 1]
  {
  }

  /** `vs` repeated `n` times, one after the other. */
  function Repeat<T>(vs: seq<T>, n: nat): (r: seq<T>)
    ensures |r| == n * |vs|
  {
    if n == 0 then [] else vs + Repeat(vs, n - 1)
  }

  lemma {:induction false} RepeatSnoc<T>(vs: seq<T>, n: nat)
    ensures Repeat(vs, n) + vs == Repeat(vs, n + 1)
  {
    if n > 0 {
      RepeatSnoc(vs, n - 1);
      ConcatAssoc(vs, Repeat(vs, n - 1), vs);
    }
  }

  /** How many times `x` occurs in `xs`. */
  function Count<T(==)>(xs: seq<T>, x: T): nat {
    if xs == [] then 0 else (if xs[0] == x then 1 else 0) + Count(xs[1..], x)
  }

  /** `Count` is the multiplicity of the element in the list. */
  lemma {:induction false} CountIsMultiplicity<T>(xs: seq<T>, x: T)
    ensures Count(xs, x) == multiset(xs)[x]
  {
    if xs != [] {
      CountIsMultiplicity(xs[1..], x);
      assert xs == [xs[0]] + xs[1..];
    }
  }

  lemma {:induction false} CountSnoc<T>(xs: seq<T>, x: T)
    requires xs != []
    ensures Count(xs, x) == Count(xs[..|xs| - 1], x) + (if xs[|xs| - 1] == x then 1 else 0)
  {
    if |xs| > 1 {
      CountSnoc(xs[1..], x);
      assert xs[1..][..|xs| - 2] == xs[..|xs| - 1][1..];
    }
  }

  /** `t[ks[i]] += vs[i]` for every `i` in turn. */
  function ExtendAll(t: ObsTable, ks: seq<string>, vs: seq<seq<string>>): ObsTable
    requires |ks| == |vs|
  {
    if ks == [] then t
    else
      var n := |ks| - 1;
      Extend(ExtendAll(t, ks[..n], vs[..n]), ks[n], vs[n])
  }

  lemma ExtendAllSnoc(t: ObsTable, ks: seq<string>, vs: seq<seq<string>>, m: nat)
    requires |ks| == |vs| && m < |ks|
    ensures ExtendAll(t, ks[..m + 1], vs[..m + 1]) == Extend(ExtendAll(t, ks[..m], vs[..m]), ks[m], vs[m])
  {
    TakeTake(ks, m);
    TakeTake(vs, m);
  }

  /** Appending two runs is appending their concatenation. */
  lemma ExtendAllLast(t: ObsTable, ks: seq<string>, vs: seq<seq<string>>)
    requires |ks| == |vs| && ks != []
    ensures ExtendAll(t, ks, vs) == Extend(ExtendAll(t, ks[..|ks| - 1], vs[..|vs| - 1]), ks[|ks| - 1], vs[|vs| - 1])
  {
  }

  lemma {:induction false} ExtendAllConcat(t: ObsTable, ks1: seq<string>, ks2: seq<string>, vs1: seq<seq<string>>, vs2: seq<seq<string>>)
    requires |ks1| == |vs1| && |ks2| == |vs2|
    ensures ExtendAll(ExtendAll(t, ks1, vs1), ks2, vs2) == ExtendAll(t, ks1 + ks2, vs1 + vs2)
  {
    if ks2 == [] {
      assert ks1 + ks2 == ks1 && vs1 + vs2 == vs1;
    } else {
      var n := |ks2| - 1;
      ConcatInit(ks1, ks2);
      ConcatInit(vs1, vs2);
      calc {
        ExtendAll(t, ks1 + ks2, vs1 + vs2);
        { ExtendAllLast(t, ks1 + ks2, vs1 + vs2); }
        Extend(ExtendAll(t, ks1 + ks2[..n], vs1 + vs2[..n]), ks2[n], vs2[n]);
        { ExtendAllConcat(t, ks1, ks2[..n], vs1, vs2[..n]); }
        Extend(ExtendAll(ExtendAll(t, ks1, vs1), ks2[..n], vs2[..n]), ks2[n], vs2[n]);
        { ExtendAllLast(ExtendAll(t, ks1, vs1), ks2, vs2); }
        ExtendAll(ExtendAll(t, ks1, vs1), ks2, vs2);
      }
    }
  }

  /** A concatenation without its last element, and that element. */
  lemma ConcatInit<T>(a: seq<T>, b: seq<T>)
    requires b != []
    ensures (a + b)[..|a + b| - 1] == a + b[..|b| - 1]
    ensures (a + b)[|a + b| - 1] == b[|b| - 1]
  {
  }

  /** When every append to `k` appends the same `v`, the key ends up with
      `v` once for every time it is listed. */
  lemma {:induction false} ExtendAllGet(t: ObsTable, ks: seq<string>, vs: seq<seq<string>>, k: string, v: seq<string>)
    requires |ks| == |vs|
    requires forall i :: 0 <= i < |ks| && ks[i] == k ==> vs[i] == v
    ensures Get(ExtendAll(t, ks, vs), k) == Get(t, k) + Repeat(v, Count(ks, k))
  {
    if ks != [] {
      var n := |ks| - 1;
      var prev := ExtendAll(t, ks[..n], vs[..n]);
      var c := Count(ks[..n], k);
      ExtendAllGet(t, ks[..n], vs[..n], k, v);
      CountSnoc(ks, k);
      ExtendAllLast(t, ks, vs);
      if ks[n] == k {
        calc {
          Get(ExtendAll(t, ks, vs), k);
          Get(prev, k) + v;
          (Get(t, k) + Repeat(v, c)) + v;
          { ConcatAssoc(Get(t, k), Repeat(v, c), v); }
          Get(t, k) + (Repeat(v, c) + v);
          { RepeatSnoc(v, c); }
          Get(t, k) + Repeat(v, Count(ks, k));
        }
      }
    }
  }

  /** What a key holds after the appends: what it held, and whatever an
      append to it added, and nothing else. */
  lemma {:induction false} ExtendAllMembers(t: ObsTable, ks: seq<string>, vs: seq<seq<string>>, k: string, v: string)
    requires |ks| == |vs|
    ensures v in Get(ExtendAll(t, ks, vs), k) <==>
      v in Get(t, k) || exists i :: 0 <= i < |ks| && ks[i] == k && v in vs[i]
  {
    if ks != [] {
      var n := |ks| - 1;
      ExtendAllMembers(t, ks[..n], vs[..n], k, v);
      ExtendAllLast(t, ks, vs);
      ExtendHas(ExtendAll(t, ks[..n], vs[..n]), ks[n], vs[n], k, v);
      RunHasSnoc(ks, vs, k, v);
    }
  }

  /** Membership after one append. */
  lemma ExtendHas(t: ObsTable, w: string, vals: seq<string>, k: string, v: string)
    ensures v in Get(Extend(t, w, vals), k) <==> v in Get(t, k) || (w == k && v in vals)
  {
  }

  /** A run with one more append has an entry iff the shorter run has it or
      the last append is it. */
  lemma RunHasSnoc(ks: seq<string>, vs: seq<seq<string>>, k: string, v: string)
    requires |ks| == |vs| && ks != []
    ensures RunHas(ks, vs, k, v) <==>
      RunHas(ks[..|ks| - 1], vs[..|ks| - 1], k, v) || (ks[|ks| - 1] == k && v in vs[|ks| - 1])
  {
    var n := |ks| - 1;
    if RunHas(ks, vs, k, v) {
      var i :| 0 <= i < |ks| && ks[i] == k && v in vs[i];
      if i < n {
        assert ks[..n][i] == k && v in vs[..n][i];
      }
    }
    if RunHas(ks[..n], vs[..n], k, v) {
      var i :| 0 <= i < n && ks[..n][i] == k && v in vs[..n][i];
      assert ks[i] == k && v in vs[i];
    }
  }

  /** The same when every append adds a single value. */
  lemma ExtendAllSingles(t: ObsTable, ks: seq<string>, vs: seq<seq<string>>, k: string, v: string)
    requires |ks| == |vs| && forall i :: 0 <= i < |vs| ==> |vs[i]| == 1
    ensures v in Get(ExtendAll(t, ks, vs), k) <==>
      v in Get(t, k) || exists i :: 0 <= i < |ks| && ks[i] == k && vs[i] == [v]
  {
    ExtendAllMembers(t, ks, vs, k, v);
    assert forall i :: 0 <= i < |vs| ==> (v in vs[i] <==> vs[i] == [v]);
  }

  /** Every value of the table is a non-empty list: a key is only created
      by appending to it. */
  predicate NoEmptyLists(t: ObsTable) {
    forall k :: k in t ==> t[k] != []
  }

  lemma ExtendKeepsNoEmptyLists(t: ObsTable, k: string, vs: seq<string>)
    requires NoEmptyLists(t)
    ensures NoEmptyLists(Extend(t, k, vs))
  {
    var r := Extend(t, k, vs);
    forall k' | k' in r
      ensures r[k'] != []
    {
      assert Get(r, k') == r[k'];
    }
  }

  /** Appending only creates the keys listed, and never an empty list. */
  lemma {:induction false} ExtendAllShape(t: ObsTable, ks: seq<string>, vs: seq<seq<string>>)
    requires |ks| == |vs|
    requires NoEmptyLists(t)
    ensures NoEmptyLists(ExtendAll(t, ks, vs))
    ensures ExtendAll(t, ks, vs).Keys <= t.Keys + set k | k in ks
  {
    if ks != [] {
      var n := |ks| - 1;
      ExtendAllShape(t, ks[..n], vs[..n]);
      ExtendKeepsNoEmptyLists(ExtendAll(t, ks[..n], vs[..n]), ks[n], vs[n]);
      assert (set k | k in ks[..n]) <= (set k | k in ks);
    }
  }

  /** The sum of the values of a finite map, in no particular order. */
  ghost function Sum<K>(m: map<K, real>): real
    decreases |m|
  {
    if m.Keys == {} then 0.0
    else
      var k :| k in m.Keys;
      m[k] + Sum(m - {k})
  }

  /** Any key may be taken out first: the sum does not depend on the
      order in which the values are added. */
  lemma {:induction false} SumRemove<K>(m: map<K, real>, k: K)
    requires k in m
    ensures Sum(m) == m[k] + Sum(m - {k})
    decreases |m|
  {
    var k' :| k' in m.Keys && Sum(m) == m[k'] + Sum(m - {k'});
    if k' != k {
      assert |m - {k'}| < |m| && |m - {k}| < |m|;
      SumRemove(m - {k'}, k);
      SumRemove(m - {k}, k');
      assert m - {k'} - {k} == m - {k} - {k'};
    }
  }

  /** Setting one value: the sum is that value plus the sum of the rest. */
  lemma SumUpdate<K>(m: map<K, real>, k: K, v: real)
    ensures Sum(m[k := v]) == v + Sum(m - {k})
  {
    SumRemove(m[k := v], k);
    assert m[k := v] - {k} == m - {k};
  }

  /** Positive values have a positive sum. */
  lemma {:induction false} SumPositive<K>(m: map<K, real>)
    requires m != map[] && forall k :: k in m ==> m[k] > 0.0
    ensures Sum(m) > 0.0
    decreases |m|
  {
    var k :| k in m;
    SumRemove(m, k);
    var rest := m - {k};
    if rest != map[] {
      SumPositive(rest);
    } else {
      assert rest.Keys == {};
    }
  }

  lemma DivAdd(a: real, b: real, t: real)
    requires t != 0.0
    ensures a / t + b / t == (a + b) / t
  {
  }

  /** Dividing every value by `t` divides the sum by `t`. */
  lemma {:induction false} SumScaled<K>(m: map<K, real>, t: real)
    requires t != 0.0
    ensures Sum(map k | k in m :: m[k] / t) == Sum(m) / t
    decreases |m|
  {
    var d := map k | k in m :: m[k] / t;
    if m.Keys != {} {
      var k :| k in m.Keys;
      var rest := m - {k};
      SumRemove(m, k);
      SumRemove(d, k);
      assert d - {k} == map k' | k' in rest :: rest[k'] / t;
      SumScaled(rest, t);
      DivAdd(m[k], Sum(rest), t);
    } else {
      assert d.Keys == {};
    }
  }

  /** The counts of a multiset, divided by `n`, add up to its size over `n`. */
  lemma {:induction false} SumOfCounts(ms: multiset<string>, n: real)
    requires n != 0.0
    ensures Sum(map w | w in ms :: (ms[w] as real) / n) == (|ms| as real) / n
    decreases |ms|
  {
    var p := map w | w in ms :: (ms[w] as real) / n;
    if ms == multiset{} {
      assert p.Keys == {};
    } else {
      var w :| w in ms;
      var rest := ms[w := 0];
      assert |ms| == |rest| + ms[w] by {
        assert ms == rest + multiset{}[w := ms[w]];
      }
      SumRemove(p, w);
      assert p - {w} == map v | v in rest :: (rest[v] as real) / n;
      SumOfCounts(rest, n);
      DivAdd(ms[w] as real, |rest| as real, n);
    }
  }

  // ---------------------------------------------------------------------
  // Runs of appends, one run after the other

  /** Appending, for every `x` of `xs` in turn, the run `keys(x)`/`vals(x)`. */
  function Accumulate<S(!new)>(t: ObsTable, xs: seq<S>, keys: S -> seq<string>, vals: S -> seq<seq<string>>): ObsTable
    requires forall x :: |keys(x)| == |vals(x)|
  {
    if xs == [] then t
    else
      var n := |xs| - 1;
      ExtendAll(Accumulate(t, xs[..n], keys, vals), keys(xs[n]), vals(xs[n]))
  }

  lemma AccumulateSnoc<S(!new)>(t: ObsTable, xs: seq<S>, keys: S -> seq<string>, vals: S -> seq<seq<string>>, n: nat)
    requires forall x :: |keys(x)| == |vals(x)|
    requires n < |xs|
    ensures Accumulate(t, xs[..n + 1], keys, vals) == ExtendAll(Accumulate(t, xs[..n], keys, vals), keys(xs[n]), vals(xs[n]))
  {
    TakeTake(xs, n);
  }

  /** Some append of the run `ks`/`vs` puts `v` under `w`. */
  predicate RunHas(ks: seq<string>, vs: seq<seq<string>>, w: string, v: string)
    requires |ks| == |vs|
  {
    exists j :: 0 <= j < |ks| && ks[j] == w && v in vs[j]
  }

  lemma RunHasAt(ks: seq<string>, vs: seq<seq<string>>, j: nat, w: string, v: string)
    requires |ks| == |vs| && j < |ks| && ks[j] == w && v in vs[j]
    ensures RunHas(ks, vs, w, v)
  {
  }

  /** An entry of an appended run is found at its shifted position. */
  lemma RunHasSuffix(ws: seq<string>, bs: seq<seq<string>>, kp: seq<string>, vp: seq<seq<string>>, i: nat, v: string)
    requires |ws| == |bs| && |kp| == |vp| && i < |kp| && v in vp[i]
    ensures RunHas(ws + kp, bs + vp, kp[i], v)
  {
    ConcatAt(ws, kp, |ws| + i);
    ConcatAt(bs, vp, |bs| + i);
    RunHasAt(ws + kp, bs + vp, |ws| + i, kp[i], v);
  }

  /** A key holds what it held and whatever some run appended to it, and
      nothing else. */
  lemma {:induction false} AccumulateMembers<S(!new)>(t: ObsTable, xs: seq<S>, keys: S -> seq<string>, vals: S -> seq<seq<string>>, w: string, v: string)
    requires forall x :: |keys(x)| == |vals(x)|
    ensures v in Get(Accumulate(t, xs, keys, vals), w) <==>
      v in Get(t, w) || exists n :: 0 <= n < |xs| && RunHas(keys(xs[n]), vals(xs[n]), w, v)
  {
    if xs != [] {
      var n := |xs| - 1;
      var xs' := xs[..n];
      AccumulateMembers(t, xs', keys, vals, w, v);
      ExtendAllMembers(Accumulate(t, xs', keys, vals), keys(xs[n]), vals(xs[n]), w, v);
      if exists m :: 0 <= m < |xs| && RunHas(keys(xs[m]), vals(xs[m]), w, v) {
        var m :| 0 <= m < |xs| && RunHas(keys(xs[m]), vals(xs[m]), w, v);
        if m < n {
          assert xs'[m] == xs[m];
        }
      }
      if exists m :: 0 <= m < n && RunHas(keys(xs'[m]), vals(xs'[m]), w, v) {
        var m :| 0 <= m < n && RunHas(keys(xs'[m]), vals(xs'[m]), w, v);
        assert xs'[m] == xs[m];
      }
    }
  }

  lemma {:induction false} AccumulateShape<S(!new)>(t: ObsTable, xs: seq<S>, keys: S -> seq<string>, vals: S -> seq<seq<string>>)
    requires forall x :: |keys(x)| == |vals(x)|
    requires NoEmptyLists(t)
    ensures NoEmptyLists(Accumulate(t, xs, keys, vals))
  {
    if xs != [] {
      var n := |xs| - 1;
      AccumulateShape(t, xs[..n], keys, vals);
      ExtendAllShape(Accumulate(t, xs[..n], keys, vals), keys(xs[n]), vals(xs[n]));
    }
  }
}
