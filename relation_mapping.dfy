/** `discourse_relation_mapping`: which relations of the source
    connectives line up with which relations of their aligned target
    words, and in what proportion.

    A source connective with relations contributes its normalised label
    set as a key; the entry under a key counts the source connectives
    with that label set and adds up, per target label set, the alignment
    probabilities of their targets that have relations. A second pass
    turns each entry's weights into proportions of their total. */
module RelationMapping {
  import opened Wrappers
  import opened Dicts
  import opened Tables
  import opened DiscourseRelations

  /** A rendered label key, `str(sorted(set(labels)))`: the rendering is
      one-to-one, so the set itself stands for it. */
  type Label = set<string>

  /** `[count, {target label: weight}]`. */
  datatype RelEntry = RelEntry(count: nat, targets: map<Label, real>)

  type RelMapping = map<Label, RelEntry>

  // ---------------------------------------------------------------------
  // The first pass, as folds over the sources and their targets

  /** The targets `ts` of one source added to the weights `w`: a target
      with relations adds its probability under its label set. */
  function AddWeights(w: map<Label, real>, ts: seq<string>, probs: map<string, real>, tm: map<string, seq<string>>): map<Label, real>
    requires forall t :: t in ts ==> t in probs
    decreases |ts|
  {
    if ts == [] then w
    else
      var n := |ts| - 1;
      var prev := AddWeights(w, ts[..n], probs, tm);
      var t := ts[n];
      assert forall u :: u in ts[..n] ==> u in ts;
      if t !in tm then prev
      else
        var key := LabelSet(tm[t]);
        if key !in prev then prev[key := probs[t]] else prev[key := prev[key] + probs[t]]
  }

  /** The source `s`, when it has relations, counted under its label set
      and its targets' weights added there. */
  function TallyOne(prev: RelMapping, a: Alignment, s: string, sm: map<string, seq<string>>, tm: map<string, seq<string>>): (r: RelMapping)
    requires ValidAlignment(a) && s in a.m
    ensures r.Keys == if s in sm then prev.Keys + {LabelSet(sm[s])} else prev.Keys
  {
    if s !in sm then prev
    else
      var key := LabelSet(sm[s]);
      var e := if key !in prev then RelEntry(1, map[]) else prev[key].(count := prev[key].count + 1);
      prev[key := e.(targets := AddWeights(e.targets, a.m[s].order, a.m[s].m, tm))]
  }

  /** The first loop of `discourse_relation_mapping` over the sources `ss`. */
  function Tally(a: Alignment, ss: seq<string>, sm: map<string, seq<string>>, tm: map<string, seq<string>>): RelMapping
    requires ValidAlignment(a) && forall s :: s in ss ==> s in a.m
    decreases |ss|
  {
    if ss == [] then map[]
    else
      var n := |ss| - 1;
      assert forall s :: s in ss[..n] ==> s in ss;
      TallyOne(Tally(a, ss[..n], sm, tm), a, ss[n], sm, tm)
  }

  lemma TallySnoc(a: Alignment, ss: seq<string>, sm: map<string, seq<string>>, tm: map<string, seq<string>>, i: nat)
    requires ValidAlignment(a) && forall s :: s in ss ==> s in a.m
    requires i < |ss|
    ensures forall s :: s in ss[..i] ==> s in a.m
    ensures Tally(a, ss[..i + 1], sm, tm) == TallyOne(Tally(a, ss[..i], sm, tm), a, ss[i], sm, tm)
  {
    assert ss[..i + 1][..i] == ss[..i];
  }

  // ---------------------------------------------------------------------
  // The second pass

  /** Every weight divided by their total. */
  ghost function Scaled(m: map<Label, real>): (r: map<Label, real>)
    requires m == map[] || Sum(m) != 0.0
    ensures r.Keys == m.Keys
  {
    map k | k in m :: m[k] / Sum(m)
  }

  /** Some entry has weights whose total is zero: its first division
      raises `ZeroDivisionError`. An entry without weights divides
      nothing. */
  ghost predicate ZeroTotal(t: RelMapping) {
    exists key :: key in t && t[key].targets != map[] && Sum(t[key].targets) == 0.0
  }

  /** The second loop of `discourse_relation_mapping`. */
  ghost function Proportions(t: RelMapping): (r: Result<RelMapping, Error>)
    ensures r.Failure? <==> ZeroTotal(t)
    ensures r.Failure? ==> r.error == ZeroDivisionError
    ensures r.Success? ==> r.value.Keys == t.Keys
    ensures r.Success? ==> forall key :: key in t ==> r.value[key].count == t[key].count
    ensures r.Success? ==> forall key :: key in t ==> r.value[key].targets.Keys == t[key].targets.Keys
  {
    if ZeroTotal(t) then Failure(ZeroDivisionError)
    else Success(map key | key in t :: t[key].(targets := Scaled(t[key].targets)))
  }

  /** `discourse_relation_mapping` as a whole. */
  ghost function RelationMappingOf(a: Alignment, sm: map<string, seq<string>>, tm: map<string, seq<string>>): Result<RelMapping, Error>
    requires ValidAlignment(a)
  {
    Proportions(Tally(a, a.order, sm, tm))
  }

  // ---------------------------------------------------------------------
  // What the folds compute

  /** The source `s` is one with relations whose label set is `key`. */
  predicate HasKey(s: string, sm: map<string, seq<string>>, key: Label) {
    s in sm && LabelSet(sm[s]) == key
  }

  /** The keys are exactly the label sets of the sources with relations. */
  lemma {:induction false} TallyKeys(a: Alignment, ss: seq<string>, sm: map<string, seq<string>>, tm: map<string, seq<string>>, key: Label)
    requires ValidAlignment(a) && forall s :: s in ss ==> s in a.m
    ensures key in Tally(a, ss, sm, tm) <==> exists s :: s in ss && HasKey(s, sm, key)
    decreases |ss|
  {
    if ss != [] {
      var n := |ss| - 1;
      var init := ss[..n];
      assert forall s :: s in init ==> s in ss;
      TallyKeys(a, init, sm, tm, key);
      if key in Tally(a, ss, sm, tm) {
        if key in Tally(a, init, sm, tm) {
          var s :| s in init && HasKey(s, sm, key);
          assert s in ss;
        } else {
          assert ss[n] in ss && HasKey(ss[n], sm, key);
        }
      }
      if exists s :: s in ss && HasKey(s, sm, key) {
        var s :| s in ss && HasKey(s, sm, key);
        var i :| 0 <= i < |ss| && ss[i] == s;
        if i < n {
          assert init[i] == s;
        }
      }
    }
  }

  /** The sources with relations whose label set is `key`. */
  function Holders(ss: seq<string>, sm: map<string, seq<string>>, key: Label): set<string> {
    set s | s in ss && HasKey(s, sm, key)
  }

  lemma HoldersSnoc(ss: seq<string>, sm: map<string, seq<string>>, key: Label)
    requires ss != []
    ensures Holders(ss, sm, key) == Holders(ss[..|ss| - 1], sm, key) + (if HasKey(ss[|ss| - 1], sm, key) then {ss[|ss| - 1]} else {})
  {
    assert ss == ss[..|ss| - 1] + [ss[|ss| - 1]];
  }

  lemma HoldersNone(ss: seq<string>, sm: map<string, seq<string>>, key: Label)
    requires !exists s :: s in ss && HasKey(s, sm, key)
    ensures Holders(ss, sm, key) == {}
  {
  }

  /** One source adds one to the count of its own label set only. */
  lemma TallyOneCount(prev: RelMapping, a: Alignment, s: string, sm: map<string, seq<string>>, tm: map<string, seq<string>>, key: Label)
    requires ValidAlignment(a) && s in a.m
    requires key in TallyOne(prev, a, s, sm, tm)
    ensures TallyOne(prev, a, s, sm, tm)[key].count == (if key in prev then prev[key].count else 0) + (if HasKey(s, sm, key) then 1 else 0)
  {
  }

  /** The count under a key is the number of distinct sources with that
      label set. */
  lemma {:induction false} TallyCount(a: Alignment, ss: seq<string>, sm: map<string, seq<string>>, tm: map<string, seq<string>>, key: Label)
    requires ValidAlignment(a) && forall s :: s in ss ==> s in a.m
    requires NoDuplicates(ss)
    requires key in Tally(a, ss, sm, tm)
    ensures Tally(a, ss, sm, tm)[key].count == |Holders(ss, sm, key)|
    decreases |ss|
  {
    var n := |ss| - 1;
    var init := ss[..n];
    assert forall s :: s in init ==> s in ss;
    var s := ss[n];
    assert s !in init;
    HoldersSnoc(ss, sm, key);
    TallyOneCount(Tally(a, init, sm, tm), a, s, sm, tm, key);
    if key in Tally(a, init, sm, tm) {
      assert NoDuplicates(init);
      TallyCount(a, init, sm, tm, key);
    } else {
      TallyKeys(a, init, sm, tm, key);
      HoldersNone(init, sm, key);
    }
  }

  /** The probabilities of the targets in `ts` that have relations. */
  function LabelledMass(ts: seq<string>, probs: map<string, real>, tm: map<string, seq<string>>): real
    requires forall t :: t in ts ==> t in probs
    decreases |ts|
  {
    if ts == [] then 0.0
    else
      var n := |ts| - 1;
      assert forall u :: u in ts[..n] ==> u in ts;
      LabelledMass(ts[..n], probs, tm) + (if ts[n] in tm then probs[ts[n]] else 0.0)
  }

  /** Adding a source's targets adds their labelled probability to the
      total weight, nothing more and nothing less. */
  lemma {:induction false} AddWeightsMass(w: map<Label, real>, ts: seq<string>, probs: map<string, real>, tm: map<string, seq<string>>)
    requires forall t :: t in ts ==> t in probs
    ensures Sum(AddWeights(w, ts, probs, tm)) == Sum(w) + LabelledMass(ts, probs, tm)
    decreases |ts|
  {
    if ts != [] {
      var n := |ts| - 1;
      assert forall u :: u in ts[..n] ==> u in ts;
      var prev := AddWeights(w, ts[..n], probs, tm);
      AddWeightsMass(w, ts[..n], probs, tm);
      var t := ts[n];
      if t in tm {
        var key := LabelSet(tm[t]);
        if key in prev {
          SumRemove(prev, key);
          SumUpdate(prev, key, prev[key] + probs[t]);
        } else {
          assert prev - {key} == prev;
          SumUpdate(prev, key, probs[t]);
        }
      }
    }
  }

  /** The labelled probability of the sources in `ss` with label set `key`. */
  function KeyMass(a: Alignment, ss: seq<string>, sm: map<string, seq<string>>, tm: map<string, seq<string>>, key: Label): real
    requires ValidAlignment(a) && forall s :: s in ss ==> s in a.m
    decreases |ss|
  {
    if ss == [] then 0.0
    else
      var n := |ss| - 1;
      var s := ss[n];
      assert forall u :: u in ss[..n] ==> u in ss;
      KeyMass(a, ss[..n], sm, tm, key) + (if HasKey(s, sm, key) then LabelledMass(a.m[s].order, a.m[s].m, tm) else 0.0)
  }

  /** The weights under a key add up to the labelled probability of the
      targets of the sources with that label set. */
  lemma {:induction false} TallyMass(a: Alignment, ss: seq<string>, sm: map<string, seq<string>>, tm: map<string, seq<string>>, key: Label)
    requires ValidAlignment(a) && forall s :: s in ss ==> s in a.m
    requires key in Tally(a, ss, sm, tm)
    ensures Sum(Tally(a, ss, sm, tm)[key].targets) == KeyMass(a, ss, sm, tm, key)
    decreases |ss|
  {
    var n := |ss| - 1;
    var init := ss[..n];
    assert forall s :: s in init ==> s in ss;
    var s := ss[n];
    var prev := Tally(a, init, sm, tm);
    if HasKey(s, sm, key) {
      if key in prev {
        TallyMass(a, init, sm, tm, key);
        AddWeightsMass(prev[key].targets, a.m[s].order, a.m[s].m, tm);
      } else {
        TallyKeys(a, init, sm, tm, key);
        KeyMassNone(a, init, sm, tm, key);
        var none: map<Label, real> := map[];
        AddWeightsMass(none, a.m[s].order, a.m[s].m, tm);
        assert none.Keys == {};
      }
    } else {
      TallyMass(a, init, sm, tm, key);
    }
  }

  /** No source with the label set: no mass either. */
  lemma {:induction false} KeyMassNone(a: Alignment, ss: seq<string>, sm: map<string, seq<string>>, tm: map<string, seq<string>>, key: Label)
    requires ValidAlignment(a) && forall s :: s in ss ==> s in a.m
    requires !exists s :: s in ss && HasKey(s, sm, key)
    ensures KeyMass(a, ss, sm, tm, key) == 0.0
    decreases |ss|
  {
    if ss != [] {
      var n := |ss| - 1;
      assert forall u :: u in ss[..n] ==> u in ss;
      assert ss[n] in ss;
      KeyMassNone(a, ss[..n], sm, tm, key);
    }
  }

  // ---------------------------------------------------------------------
  // What the second pass promises

  /** After the second pass the proportions of every entry with weights
      add up to one. */
  lemma ProportionsSumToOne(t: RelMapping, key: Label)
    requires Proportions(t).Success? && key in t && t[key].targets != map[]
    ensures Sum(Proportions(t).value[key].targets) == 1.0
  {
    var m := t[key].targets;
    assert !ZeroTotal(t);
    var total := Sum(m);
    assert total != 0.0;
    assert Proportions(t).value[key].targets == Scaled(m);
    SumScaled(m, total);
    assert total / total == 1.0;
  }

  /** Every proportion is the weight's share of its entry's total. */
  lemma ProportionsShare(t: RelMapping, key: Label, target: Label)
    requires Proportions(t).Success? && key in t && target in t[key].targets
    ensures Proportions(t).value[key].targets[target] * Sum(t[key].targets) == t[key].targets[target]
  {
    var m := t[key].targets;
    assert Sum(m) != 0.0;
    assert Proportions(t).value[key].targets[target] == m[target] / Sum(m);
  }

  /** Positive weights. */
  predicate Positive<K>(m: map<K, real>) {
    forall k :: k in m ==> m[k] > 0.0
  }

  lemma {:induction false} AddWeightsPositive(w: map<Label, real>, ts: seq<string>, probs: map<string, real>, tm: map<string, seq<string>>)
    requires forall t :: t in ts ==> t in probs
    requires Positive(w) && Positive(probs)
    ensures Positive(AddWeights(w, ts, probs, tm))
    decreases |ts|
  {
    if ts != [] {
      var n := |ts| - 1;
      assert forall u :: u in ts[..n] ==> u in ts;
      AddWeightsPositive(w, ts[..n], probs, tm);
    }
  }

  /** Every entry's weights stay positive when every probability is. */
  lemma {:induction false} TallyPositive(a: Alignment, ss: seq<string>, sm: map<string, seq<string>>, tm: map<string, seq<string>>)
    requires ValidAlignment(a) && forall s :: s in ss ==> s in a.m
    requires forall s :: s in a.m ==> Positive(a.m[s].m)
    ensures forall key :: key in Tally(a, ss, sm, tm) ==> Positive(Tally(a, ss, sm, tm)[key].targets)
    decreases |ss|
  {
    if ss != [] {
      var n := |ss| - 1;
      assert forall u :: u in ss[..n] ==> u in ss;
      var prev := Tally(a, ss[..n], sm, tm);
      TallyPositive(a, ss[..n], sm, tm);
      var s := ss[n];
      if s in sm {
        var key := LabelSet(sm[s]);
        var e := if key !in prev then RelEntry(1, map[]) else prev[key].(count := prev[key].count + 1);
        AddWeightsPositive(e.targets, a.m[s].order, a.m[s].m, tm);
      }
    }
  }

  /** With positive probabilities, as `alignment_probabilities` yields,
      the division never meets a zero total. */
  lemma NoZeroDivision(a: Alignment, sm: map<string, seq<string>>, tm: map<string, seq<string>>)
    requires ValidAlignment(a)
    requires forall s :: s in a.m ==> Positive(a.m[s].m)
    ensures RelationMappingOf(a, sm, tm).Success?
  {
    var t := Tally(a, a.order, sm, tm);
    TallyPositive(a, a.order, sm, tm);
    if ZeroTotal(t) {
      var key :| key in t && t[key].targets != map[] && Sum(t[key].targets) == 0.0;
      SumPositive(t[key].targets);
    }
  }

  // ---------------------------------------------------------------------
  // The loops

  /** The inner loop over one source's targets, adding each labelled
      target's probability to the entry's weights. */
  method AddTargetWeights(targetDict: map<Label, real>, targets: Dict<string, real>, targetMapping: RelationDict)
    returns (r: map<Label, real>)
    requires Valid(targets)
    ensures r == AddWeights(targetDict, targets.order, targets.m, targetMapping.m)
  {
    var keys := targets.order;
    r := targetDict;
    for j := 0 to |keys|
      invariant r == AddWeights(targetDict, keys[..j], targets.m, targetMapping.m)
    {
      var target := keys[j];
      assert keys[..j + 1][..j] == keys[..j];
      if target in targetMapping.m {
        var targetRel := RelationKey(targetMapping.m[target]);
        if targetRel !in r {
          r := r[targetRel := targets.m[target]];
        } else {
          r := r[targetRel := r[targetRel] + targets.m[target]];
        }
      }
    }
    assert keys[..|keys|] == keys;
  }

  /** The first loop, over the sources of the alignment. */
  method TallyRelations(alignment: Alignment, sourceMapping: RelationDict, targetMapping: RelationDict)
    returns (relMapping: RelMapping)
    requires ValidAlignment(alignment)
    ensures relMapping == Tally(alignment, alignment.order, sourceMapping.m, targetMapping.m)
  {
    var sources := alignment.order;
    relMapping := map[];
    for i := 0 to |sources|
      invariant relMapping == Tally(alignment, sources[..i], sourceMapping.m, targetMapping.m)
    {
      var source := sources[i];
      TallySnoc(alignment, sources, sourceMapping.m, targetMapping.m, i);
      if source in sourceMapping.m {
        var sourceRel := RelationKey(sourceMapping.m[source]);
        var entry;
        if sourceRel !in relMapping {
          entry := RelEntry(1, map[]);
        } else {
          entry := relMapping[sourceRel].(count := relMapping[sourceRel].count + 1);
        }
        var targetDict := AddTargetWeights(entry.targets, alignment.m[source], targetMapping);
        relMapping := relMapping[sourceRel := entry.(targets := targetDict)];
      }
    }
    assert sources[..|sources|] == sources;
  }

  /** `sum(d.values())`. */
  method SumValues(m: map<Label, real>) returns (total: real)
    ensures total == Sum(m)
  {
    total := 0.0;
    var rest := m;
    while rest != map[]
      invariant total + Sum(rest) == Sum(m)
      decreases |rest|
    {
      var k :| k in rest;
      SumRemove(rest, k);
      total := total + rest[k];
      rest := rest - {k};
    }
    assert rest.Keys == {};
  }

  /** Every weight divided, in place, by `total`. */
  method Divide(m: map<Label, real>, total: real) returns (r: map<Label, real>)
    requires total != 0.0
    ensures r.Keys == m.Keys
    ensures forall k :: k in m ==> r[k] == m[k] / total
    ensures Sum(r) == Sum(m) / total
  {
    r := m;
    var keys := m.Keys;
    while keys != {}
      invariant keys <= m.Keys && r.Keys == m.Keys
      invariant forall k :: k in m ==> r[k] == if k in keys then m[k] else m[k] / total
      decreases keys
    {
      var k :| k in keys;
      r := r[k := r[k] / total];
      keys := keys - {k};
    }
    assert r == map k | k in m :: m[k] / total;
    SumScaled(m, total);
  }

  /** The second loop: the weights of each entry divided by their total. */
  method NormaliseProportions(t: RelMapping) returns (r: Result<RelMapping, Error>)
    ensures r == Proportions(t)
  {
    var out := t;
    var keys := t.Keys;
    while keys != {}
      invariant keys <= t.Keys && out.Keys == t.Keys
      invariant forall key :: key in t && key !in keys ==> t[key].targets == map[] || Sum(t[key].targets) != 0.0
      invariant forall key :: key in t ==> out[key] == if key in keys then t[key] else t[key].(targets := Scaled(t[key].targets))
      decreases keys
    {
      var key :| key in keys;
      var targets := t[key].targets;
      var total := SumValues(targets);
      if targets != map[] {
        if total == 0.0 {
          return Failure(ZeroDivisionError);
        }
        var scaled := Divide(targets, total);
        assert scaled == Scaled(targets);
        out := out[key := out[key].(targets := scaled)];
      } else {
        assert Scaled(targets) == targets;
      }
      keys := keys - {key};
    }
    assert !ZeroTotal(t);
    assert out == map key | key in t :: t[key].(targets := Scaled(t[key].targets));
    return Success(out);
  }

  /** `discourse_relation_mapping`. */
  method DiscourseRelationMapping(alignment: Alignment, sourceMapping: RelationDict, targetMapping: RelationDict)
    returns (r: Result<RelMapping, Error>)
    requires ValidAlignment(alignment)
    ensures r == RelationMappingOf(alignment, sourceMapping.m, targetMapping.m)
  {
    var relMapping := TallyRelations(alignment, sourceMapping, targetMapping);
    r := NormaliseProportions(relMapping);
  }
}
