/** The relation-labelling transforms applied to a finished connective
    alignment: tagging connectives with their discourse relations,
    selecting the connectives of one relation, and aggregating which
    relations of one language align with which of the other. The
    alignments and relation dictionaries are Python dicts, so they keep
    their insertion order (`Dicts.Dict`). */
module DiscourseRelations {
  import opened Wrappers
  import opened Text
  import opened Tables
  import opened Dicts

  /** A connective alignment as loaded from JSON: source connective to
      target connective to probability. */
  type Alignment = Dict<string, Dict<string, real>>

  /** A connective (or relation group) to its list of relations. */
  type RelationDict = Dict<string, seq<string>>

  predicate ValidAlignment(a: Alignment) {
    Valid(a) && forall s :: s in a.m ==> Valid(a.m[s])
  }

  // ----- Relation labels -------------------------------------------------------

  lemma {:induction false} LowerLower(s: string)
    ensures Lower(Lower(s)) == Lower(s)
  {
    var l := Lower(s);
    assert forall i :: 0 <= i < |s| ==> LowerChar(LowerChar(s[i])) == LowerChar(s[i]);
    assert Lower(l) == l;
  }

  /** `str.capitalize` is idempotent. */
  lemma CapitalizeTwice(s: string)
    ensures Capitalize(Capitalize(s)) == Capitalize(s)
  {
    if s != [] {
      var c := Capitalize(s);
      assert c == [UpperChar(s[0])] + Lower(s[1..]);
      assert c[1..] == Lower(s[1..]);
      LowerLower(s[1..]);
    }
  }

  lemma NoColonChar(s: string)
    ensures !Contains(s, ":") <==> forall i :: 0 <= i < |s| ==> s[i] != ':'
  {
    ContainsIff(s, ":");
    if Contains(s, ":") {
      var i: nat :| OccursAt(s, ":", i);
      assert s[i] == s[i..i + 1][0];
    } else {
      forall i | 0 <= i < |s|
        ensures s[i] != ':'
      {
        if s[i] == ':' {
          assert s[i..i + 1] == ":";
          assert OccursAt(s, ":", i);
        }
      }
    }
  }

  /** The label of one relation: everything through the first `:` is
      dropped, the rest is cut at the next `:` (the argument part), and
      the remainder is capitalised. A relation without `:` is only
      capitalised. */
  function Normalise(rel: string): (r: string)
    ensures |r| <= |rel|
  {
    var sense := match Find(rel, ":") case Some(i) => rel[i + 1..] case None => rel;
    var cut := match Find(sense, ":") case Some(j) => sense[..j] case None => sense;
    Capitalize(cut)
  }

  /** The label is the capitalised second `:`-separated field of the
      relation, or the whole relation when it has no `:`; it never holds
      a `:` itself. */
  lemma NormaliseIsSecondField(rel: string)
    ensures Normalise(rel) == Capitalize(SplitOn(rel, ":")[if Contains(rel, ":") then 1 else 0])
    ensures forall i :: 0 <= i < |Normalise(rel)| ==> Normalise(rel)[i] != ':'
  {
    var parts := SplitOn(rel, ":");
    var field;
    match Find(rel, ":") {
      case None =>
        assert parts == [rel];
        field := rel;
      case Some(i) =>
        var sense := rel[i + 1..];
        assert parts == [rel[..i]] + SplitOn(sense, ":");
        var rest := SplitOn(sense, ":");
        match Find(sense, ":") {
          case None =>
            assert rest == [sense];
          case Some(j) =>
            assert rest == [sense[..j]] + SplitOn(sense[j + 1..], ":");
        }
        field := rest[0];
    }
    assert parts[if Contains(rel, ":") then 1 else 0] == field;
    assert !Contains(field, ":");
    NoColonChar(field);
  }

  /** Normalising a label again changes nothing. */
  lemma NormaliseTwice(rel: string)
    ensures Normalise(Normalise(rel)) == Normalise(rel)
  {
    var l := Normalise(rel);
    NormaliseIsSecondField(rel);
    NoColonChar(l);
    var sense := match Find(rel, ":") case Some(i) => rel[i + 1..] case None => rel;
    var cut := match Find(sense, ":") case Some(j) => sense[..j] case None => sense;
    assert l == Capitalize(cut);
    CapitalizeTwice(cut);
  }

  /** The relation key of a connective: its set of labels. The source
      renders it as the string of the sorted set, which identifies the
      set. */
  function LabelSet(rels: seq<string>): set<string> {
    set r | r in rels :: Normalise(r)
  }

  /** The label loop of `discourse_relation_mapping`. */
  method RelationKey(rels: seq<string>) returns (key: set<string>)
    ensures key == LabelSet(rels)
    ensures forall l :: l in key ==> exists r :: r in rels && l == Normalise(r)
  {
    var labels: seq<string> := [];
    for k := 0 to |rels|
      invariant |labels| == k
      invariant forall i :: 0 <= i < k ==> labels[i] == Normalise(rels[i])
    {
      labels := labels + [Normalise(rels[k])];
    }
    key := set l | l in labels;
    assert forall l :: l in key <==> exists i :: 0 <= i < |rels| && l == Normalise(rels[i]);
  }

  // ----- Tagging keys with their relations --------------------------------------

  /** `w + " " + f"({', '.join(rels)})"`. */
  function Tagged(w: string, rels: seq<string>): string {
    w + " (" + Join(rels, ", ") + ")"
  }

  /** `d[k'] = d.pop(k)`: the value moves to the new key, which keeps its
      place when it already exists and goes last otherwise. */
  function Rename<V>(d: Dict<string, V>, k: string, k': string): (r: Dict<string, V>)
    requires Valid(d) && k in d.m
    ensures Valid(r)
    ensures r.m == (d.m - {k})[k' := d.m[k]]
  {
    Set(Delete(d, k), k', d.m[k])
  }

  /** Each key of `ks`, in turn, that is present and has relations is
      renamed to its tagged form. */
  function RenameEach<V>(d: Dict<string, V>, ks: seq<string>, rels: map<string, seq<string>>): (r: Dict<string, V>)
    requires Valid(d)
    ensures Valid(r)
    ensures forall k :: k in d.m && k !in ks ==> k in r.m
    decreases |ks|
  {
    if ks == [] then d
    else
      var n := |ks| - 1;
      var prev := RenameEach(d, ks[..n], rels);
      var k := ks[n];
      assert forall j :: j in ks[..n] ==> j in ks;
      if k in prev.m && k in rels then Rename(prev, k, Tagged(k, rels[k])) else prev
  }

  /** A key is renamed when it is present, listed and has relations. */
  predicate Picked<V>(m: map<string, V>, ks: seq<string>, rels: map<string, seq<string>>, k: string) {
    k in m && k in rels && k in ks
  }

  /** The tagged names are new: none is an existing key or a listed key,
      and no two renamed keys get the same tagged name. */
  ghost predicate FreshTags<V>(m: map<string, V>, ks: seq<string>, rels: map<string, seq<string>>) {
    && (forall k :: Picked(m, ks, rels, k) ==> Tagged(k, rels[k]) !in m && Tagged(k, rels[k]) !in ks)
    && (forall k, j :: Picked(m, ks, rels, k) && Picked(m, ks, rels, j) && k != j ==> Tagged(k, rels[k]) != Tagged(j, rels[j]))
  }

  lemma FreshTagsPrefix<V>(m: map<string, V>, ks: seq<string>, rels: map<string, seq<string>>, n: nat)
    requires n <= |ks| && FreshTags(m, ks, rels)
    ensures FreshTags(m, ks[..n], rels)
  {
    assert forall k :: k in ks[..n] ==> k in ks;
  }

  /** Every picked key is gone and its value sits under its tagged name. */
  ghost predicate TagsHoldValues<V>(m: map<string, V>, ks: seq<string>, rels: map<string, seq<string>>, r: map<string, V>) {
    forall k :: Picked(m, ks, rels, k) ==> k !in r && Tagged(k, rels[k]) in r && r[Tagged(k, rels[k])] == m[k]
  }

  /** Every key that is not picked keeps its value. */
  ghost predicate OthersKept<V>(m: map<string, V>, ks: seq<string>, rels: map<string, seq<string>>, r: map<string, V>) {
    forall k :: k in m && !Picked(m, ks, rels, k) ==> k in r && r[k] == m[k]
  }

  /** The keys of `r` are the unpicked keys and the tagged names. */
  ghost predicate NoOtherKeys<V>(m: map<string, V>, ks: seq<string>, rels: map<string, seq<string>>, r: map<string, V>) {
    forall k :: k in r ==> (k in m && !Picked(m, ks, rels, k)) || exists j :: Picked(m, ks, rels, j) && k == Tagged(j, rels[j])
  }

  /** `r` is `m` with every picked key renamed to its tagged form. */
  ghost predicate Rekeyed<V>(m: map<string, V>, ks: seq<string>, rels: map<string, seq<string>>, r: map<string, V>) {
    TagsHoldValues(m, ks, rels, r) && OthersKept(m, ks, rels, r) && NoOtherKeys(m, ks, rels, r)
  }

  /** The key renamed in a step was an original, not yet renamed key, and
      its tagged name is new. */
  lemma RenameStepKey<V>(m: map<string, V>, pre: seq<string>, kn: string, rels: map<string, seq<string>>, prev: map<string, V>)
    requires Rekeyed(m, pre, rels, prev) && FreshTags(m, pre + [kn], rels)
    requires kn in prev && kn in rels
    ensures kn in m && !Picked(m, pre, rels, kn) && Picked(m, pre + [kn], rels, kn)
    ensures prev[kn] == m[kn]
    ensures Tagged(kn, rels[kn]) !in m && Tagged(kn, rels[kn]) !in pre + [kn]
  {
    var ks := pre + [kn];
    if !(kn in m && !Picked(m, pre, rels, kn)) {
      var j :| Picked(m, pre, rels, j) && kn == Tagged(j, rels[j]);
      assert Picked(m, ks, rels, j);
    }
  }

  lemma RenameStepValues<V>(m: map<string, V>, pre: seq<string>, kn: string, rels: map<string, seq<string>>, prev: map<string, V>)
    requires Rekeyed(m, pre, rels, prev) && FreshTags(m, pre + [kn], rels)
    requires kn in prev && kn in rels
    ensures TagsHoldValues(m, pre + [kn], rels, (prev - {kn})[Tagged(kn, rels[kn]) := prev[kn]])
  {
    var ks := pre + [kn];
    var tn := Tagged(kn, rels[kn]);
    var r := (prev - {kn})[tn := prev[kn]];
    RenameStepKey(m, pre, kn, rels, prev);
    forall k | Picked(m, ks, rels, k)
      ensures k !in r && Tagged(k, rels[k]) in r && r[Tagged(k, rels[k])] == m[k]
    {
      if k != kn {
        assert Picked(m, pre, rels, k);
        assert Tagged(k, rels[k]) != tn;
      }
    }
  }

  lemma RenameStepKept<V>(m: map<string, V>, pre: seq<string>, kn: string, rels: map<string, seq<string>>, prev: map<string, V>)
    requires Rekeyed(m, pre, rels, prev) && FreshTags(m, pre + [kn], rels)
    requires kn in prev && kn in rels
    ensures OthersKept(m, pre + [kn], rels, (prev - {kn})[Tagged(kn, rels[kn]) := prev[kn]])
  {
    var ks := pre + [kn];
    RenameStepKey(m, pre, kn, rels, prev);
    forall k | k in m && !Picked(m, ks, rels, k)
      ensures !Picked(m, pre, rels, k)
    {
      assert k in pre ==> k in ks;
    }
  }

  lemma RenameStepKeys<V>(m: map<string, V>, pre: seq<string>, kn: string, rels: map<string, seq<string>>, prev: map<string, V>)
    requires Rekeyed(m, pre, rels, prev) && FreshTags(m, pre + [kn], rels)
    requires kn in prev && kn in rels
    ensures NoOtherKeys(m, pre + [kn], rels, (prev - {kn})[Tagged(kn, rels[kn]) := prev[kn]])
  {
    var ks := pre + [kn];
    var tn := Tagged(kn, rels[kn]);
    var r := (prev - {kn})[tn := prev[kn]];
    RenameStepKey(m, pre, kn, rels, prev);
    forall k | k in r
      ensures (k in m && !Picked(m, ks, rels, k)) || exists j :: Picked(m, ks, rels, j) && k == Tagged(j, rels[j])
    {
      if k != tn {
        assert k in prev && k != kn;
        if !(k in m && !Picked(m, pre, rels, k)) {
          var j :| Picked(m, pre, rels, j) && k == Tagged(j, rels[j]);
          assert Picked(m, ks, rels, j);
        }
      }
    }
  }

  lemma RekeyedSkip<V>(m: map<string, V>, pre: seq<string>, kn: string, rels: map<string, seq<string>>, prev: map<string, V>)
    requires Rekeyed(m, pre, rels, prev) && FreshTags(m, pre + [kn], rels)
    requires !(kn in prev && kn in rels)
    ensures Rekeyed(m, pre + [kn], rels, prev)
  {
    var ks := pre + [kn];
    assert forall k :: k in ks <==> k in pre || k == kn;
    assert !Picked(m, ks, rels, kn) || Picked(m, pre, rels, kn);
    assert forall k :: Picked(m, ks, rels, k) <==> Picked(m, pre, rels, k);
  }

  /** When the tagged names are new, renaming the keys one at a time
      renames each picked key to its tagged form and leaves the rest. */
  lemma {:induction false} RenameEachRekeys<V>(d: Dict<string, V>, ks: seq<string>, rels: map<string, seq<string>>)
    requires Valid(d) && FreshTags(d.m, ks, rels)
    ensures Rekeyed(d.m, ks, rels, RenameEach(d, ks, rels).m)
    decreases |ks|
  {
    if ks == [] {
      assert forall k :: !Picked(d.m, ks, rels, k);
    } else {
      var n := |ks| - 1;
      var pre := ks[..n];
      var prev := RenameEach(d, pre, rels);
      var kn := ks[n];
      FreshTagsPrefix(d.m, ks, rels, n);
      RenameEachRekeys(d, pre, rels);
      assert ks == pre + [kn];
      if kn in prev.m && kn in rels {
        RenameStepValues(d.m, pre, kn, rels, prev.m);
        RenameStepKept(d.m, pre, kn, rels, prev.m);
        RenameStepKeys(d.m, pre, kn, rels, prev.m);
      } else {
        RekeyedSkip(d.m, pre, kn, rels, prev.m);
      }
    }
  }

  /** The target step of `add_discourse_relation` for one source: each of
      its targets with relations is tagged, in the order of the targets. */
  function TagTargets(targets: Dict<string, real>, tm: map<string, seq<string>>): Dict<string, real>
    requires Valid(targets)
  {
    RenameEach(targets, targets.order, tm)
  }

  /** The target step of `add_discourse_relation` on the whole alignment:
      the sources and their order stay, their targets are tagged. */
  function TagAllTargets(a: Alignment, tm: map<string, seq<string>>): (r: Alignment)
    requires ValidAlignment(a)
    ensures Valid(r)
  {
    Dict(a.order, map s | s in a.m :: TagTargets(a.m[s], tm))
  }

  /** `add_discourse_relation`: the targets of every source are tagged,
      then every source of `sm`, in its order, that is in the alignment. */
  function AddRelations(a: Alignment, sm: RelationDict, tm: RelationDict): Alignment
    requires ValidAlignment(a)
  {
    RenameEach(TagAllTargets(a, tm.m), sm.order, sm.m)
  }

  lemma {:induction false} RenameNothing<V>(d: Dict<string, V>, ks: seq<string>)
    requires Valid(d)
    ensures RenameEach(d, ks, map[]) == d
    decreases |ks|
  {
    if ks != [] {
      RenameNothing(d, ks[..|ks| - 1]);
    }
  }

  /** One more key of `ks` handled: the key at `j`, which no earlier step
      touched, is renamed when it has relations. */
  lemma RenameEachNext<V>(d: Dict<string, V>, ks: seq<string>, rels: map<string, seq<string>>, j: nat)
    requires Valid(d) && ks == d.order && j < |ks|
    ensures ks[j] in RenameEach(d, ks[..j], rels).m
    ensures RenameEach(d, ks[..j + 1], rels)
      == var prev := RenameEach(d, ks[..j], rels);
         if ks[j] in rels then Rename(prev, ks[j], Tagged(ks[j], rels[ks[j]])) else prev
  {
    assert ks[..j + 1][..j] == ks[..j];
    assert ks[j] !in ks[..j];
  }

  /** The loop's last prefix is the whole list. */
  lemma RenameEachWhole<V>(d: Dict<string, V>, ks: seq<string>, rels: map<string, seq<string>>)
    requires Valid(d)
    ensures RenameEach(d, ks[..|ks|], rels) == RenameEach(d, ks, rels)
  {
    assert ks[..|ks|] == ks;
  }

  /** The tagging of one source's targets, with a target popped and
      reinserted under its tagged name whenever it has relations. */
  method TagTargetsOf(targets: Dict<string, real>, targetMapping: RelationDict) returns (tagged: Dict<string, real>)
    requires Valid(targets)
    ensures tagged == TagTargets(targets, targetMapping.m)
  {
    var keys := targets.order;
    tagged := targets;
    for j := 0 to |keys|
      invariant tagged == RenameEach(targets, keys[..j], targetMapping.m)
    {
      var target := keys[j];
      RenameEachNext(targets, keys, targetMapping.m, j);
      if target in targetMapping.m {
        var probability := tagged.m[target];
        tagged := Set(Delete(tagged, target), Tagged(target, targetMapping.m[target]), probability);
      }
    }
    RenameEachWhole(targets, keys, targetMapping.m);
  }

  /** The target loop of `add_discourse_relation`, skipped when there
      is no target relation at all. */
  method TagAlignmentTargets(alignment: Alignment, targetMapping: RelationDict) returns (relAlignment: Alignment)
    requires ValidAlignment(alignment)
    ensures relAlignment == TagAllTargets(alignment, targetMapping.m)
  {
    if targetMapping.m != map[] {
      relAlignment := TagEachSource(alignment, targetMapping);
    } else {
      relAlignment := alignment;
      TagNoTargets(alignment);
    }
  }

  /** The loop over the sources, tagging the targets of each in turn. */
  method TagEachSource(alignment: Alignment, targetMapping: RelationDict) returns (relAlignment: Alignment)
    requires ValidAlignment(alignment)
    ensures relAlignment == TagAllTargets(alignment, targetMapping.m)
  {
    var sources := alignment.order;
    ghost var tagged := TagAllTargets(alignment, targetMapping.m);
    relAlignment := alignment;
    for i := 0 to |sources|
      invariant relAlignment == Install(alignment, sources[..i], tagged.m)
    {
      var source := sources[i];
      InstallNext(alignment, tagged.m, i);
      var targets := TagTargetsOf(relAlignment.m[source], targetMapping);
      relAlignment := Dict(relAlignment.order, relAlignment.m[source := targets]);
    }
    InstallAllPrefix(alignment, tagged);
  }

  /** Without target relations the target step changes nothing. */
  lemma TagNoTargets(a: Alignment)
    requires ValidAlignment(a)
    ensures TagAllTargets(a, map[]) == a
  {
    forall s | s in a.m
      ensures TagTargets(a.m[s], map[]) == a.m[s]
    {
      RenameNothing(a.m[s], a.m[s].order);
    }
  }

  /** The source loop of `add_discourse_relation`: a source of
      `sourceMapping` that is not in the alignment makes `pop` raise
      `KeyError`, which is caught and the source skipped. */
  method TagAlignmentSources(alignment: Alignment, sourceMapping: RelationDict) returns (relAlignment: Alignment)
    requires Valid(alignment) && Valid(sourceMapping)
    ensures relAlignment == RenameEach(alignment, sourceMapping.order, sourceMapping.m)
  {
    relAlignment := alignment;
    var sources := sourceMapping.order;
    for i := 0 to |sources|
      invariant Valid(relAlignment)
      invariant relAlignment == RenameEach(alignment, sources[..i], sourceMapping.m)
    {
      var source := sources[i];
      assert sources[..i + 1][..i] == sources[..i];
      var relation := sourceMapping.m[source];
      if source in relAlignment.m {
        relAlignment := Set(Delete(relAlignment, source), Tagged(source, relation), relAlignment.m[source]);
      }
    }
    assert sources[..|sources|] == sources;
  }

  /** `add_discourse_relation`, on a copy of the alignment: the targets
      are tagged first, then the sources. */
  method AddDiscourseRelation(alignment: Alignment, sourceMapping: RelationDict, targetMapping: RelationDict)
    returns (relAlignment: Alignment)
    requires ValidAlignment(alignment) && Valid(sourceMapping)
    ensures relAlignment == AddRelations(alignment, sourceMapping, targetMapping)
  {
    relAlignment := TagAlignmentTargets(alignment, targetMapping);
    if sourceMapping.m != map[] {
      relAlignment := TagAlignmentSources(relAlignment, sourceMapping);
    } else {
      EmptyIffNoOrder(sourceMapping);
    }
  }

  /** Every target with relations is renamed to its tagged form with its
      probability unchanged, and the other targets are untouched, when the
      tagged names are new among the source's targets. */
  lemma AddRelationsRekeysTargets(a: Alignment, tm: RelationDict, s: string)
    requires ValidAlignment(a) && s in a.m && FreshTags(a.m[s].m, a.m[s].order, tm.m)
    ensures s in TagAllTargets(a, tm.m).m
    ensures forall t :: t in a.m[s].m && t in tm.m ==>
      && t !in TagAllTargets(a, tm.m).m[s].m
      && Tagged(t, tm.m[t]) in TagAllTargets(a, tm.m).m[s].m
      && TagAllTargets(a, tm.m).m[s].m[Tagged(t, tm.m[t])] == a.m[s].m[t]
    ensures forall t :: t in a.m[s].m && t !in tm.m ==>
      t in TagAllTargets(a, tm.m).m[s].m && TagAllTargets(a, tm.m).m[s].m[t] == a.m[s].m[t]
  {
    RenameEachRekeys(a.m[s], a.m[s].order, tm.m);
    assert forall t :: t in a.m[s].m <==> t in a.m[s].order;
  }

  /** Every source of `sm` that is in the alignment is renamed to its
      tagged form and keeps its (tagged) targets, and the other sources
      are untouched, when the tagged names are new. */
  lemma AddRelationsRekeysSources(a: Alignment, sm: RelationDict, tm: RelationDict)
    requires ValidAlignment(a) && Valid(sm)
    requires FreshTags(a.m, sm.order, sm.m)
    ensures forall s :: s in a.m && s in sm.m ==>
      && s !in AddRelations(a, sm, tm).m
      && Tagged(s, sm.m[s]) in AddRelations(a, sm, tm).m
      && AddRelations(a, sm, tm).m[Tagged(s, sm.m[s])] == TagAllTargets(a, tm.m).m[s]
    ensures forall s :: s in a.m && s !in sm.m ==>
      s in AddRelations(a, sm, tm).m && AddRelations(a, sm, tm).m[s] == TagAllTargets(a, tm.m).m[s]
  {
    var tagged := TagAllTargets(a, tm.m);
    assert tagged.m.Keys == a.m.Keys;
    assert FreshTags(tagged.m, sm.order, sm.m) by {
      assert forall k :: Picked(tagged.m, sm.order, sm.m, k) <==> Picked(a.m, sm.order, sm.m, k);
    }
    RenameEachRekeys(tagged, sm.order, sm.m);
    assert forall s :: s in sm.m <==> s in sm.order;
  }

  // ----- Selecting the connectives of one relation -----------------------------

  /** Python's `set(a) & set(b)` is non-empty. */
  predicate Shares(a: seq<string>, b: seq<string>) {
    exists x :: x in a && x in b
  }

  /** The connectives of `conns`, in order, that have relations and share
      one with `relations`; each kept connective keeps all its
      occurrences. */
  function Matching(conns: seq<string>, connRel: map<string, seq<string>>, relations: seq<string>): (r: seq<string>)
    ensures forall c :: multiset(r)[c] == if c in connRel && Shares(connRel[c], relations) then multiset(conns)[c] else 0
  {
    if conns == [] then []
    else
      var n := |conns| - 1;
      var c := conns[n];
      assert conns == conns[..n] + [c];
      Matching(conns[..n], connRel, relations) + (if c in connRel && Shares(connRel[c], relations) then [c] else [])
  }

  /** `filter_for_discourse_relation`: a `relation` that is not a group of
      `relMapping` raises `KeyError`; connectives without relations are
      skipped. */
  method FilterForDiscourseRelation(connLex: seq<string>, connRel: RelationDict, relation: string, relMapping: RelationDict)
    returns (r: Result<seq<string>, Error>)
    ensures relation !in relMapping.m ==> r == Failure(KeyError)
    ensures relation in relMapping.m ==> r == Success(Matching(connLex, connRel.m, relMapping.m[relation]))
  {
    if relation !in relMapping.m {
      return Failure(KeyError);
    }
    var relations := relMapping.m[relation];
    var filtered: seq<string> := [];
    for i := 0 to |connLex|
      invariant filtered == Matching(connLex[..i], connRel.m, relations)
    {
      var conn := connLex[i];
      assert connLex[..i + 1][..i] == connLex[..i];
      if conn in connRel.m {
        var common := (set x | x in connRel.m[conn]) * (set x | x in relations);
        assert common != {} <==> Shares(connRel.m[conn], relations) by {
          if Shares(connRel.m[conn], relations) {
            var x :| x in connRel.m[conn] && x in relations;
            assert x in common;
          }
        }
        if common != {} {
          filtered := filtered + [conn];
        }
      }
    }
    assert connLex[..|connLex|] == connLex;
    return Success(filtered);
  }
}
