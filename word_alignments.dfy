/** The per-sentence body of `parse_word_alignments`: unaligned words
    observe `""`; the `i-j` pairs are grouped into phrases on both sides;
    groups one side does not mirror are dropped when both sides have
    such groups; gaps inside a group are marked; and every group is
    emitted as an observation, in both directions. */
module WordAlignments {
  import opened Wrappers
  import opened Text
  import opened Tables
  import opened Dicts
  import opened Corpus
  import opened Projection
  import opened Filtering

  // ---------------------------------------------------------------------
  // Unaligned words

  /** The indices the pairs give for `side`, in pair order. */
  function IndicesOn(pairs: seq<(nat, nat)>, side: Side): (r: seq<nat>)
    ensures |r| == |pairs|
    ensures forall k :: 0 <= k < |pairs| ==> r[k] == IndexOn(pairs[k], side)
  {
    seq(|pairs|, k requires 0 <= k < |pairs| => IndexOn(pairs[k], side))
  }

  /** `list(range(0, n))`. */
  function Range(n: nat): (r: seq<nat>)
    ensures |r| == n
    ensures forall i :: 0 <= i < n ==> r[i] == i
    ensures forall x :: x in r ==> x < n
  {
    seq(n, i requires 0 <= i < n => i)
  }

  /** The members of `xs` that `ys` does not hold, in order. */
  function Without(xs: seq<nat>, ys: seq<nat>): (r: seq<nat>)
    ensures forall x :: x in r <==> x in xs && x !in ys
    ensures Distinct(xs) ==> Distinct(r)
  {
    if xs == [] then []
    else
      var rest := Without(xs[1..], ys);
      assert Distinct(xs) ==> xs[0] !in xs[1..];
      (if xs[0] in ys then [] else [xs[0]]) + rest
  }

  lemma {:induction false} WithoutSnoc(xs: seq<nat>, ys: seq<nat>, y: nat)
    ensures Remove(Without(xs, ys), y) == Without(xs, ys + [y])
  {
    if xs != [] {
      WithoutSnoc(xs[1..], ys, y);
      var rest := Without(xs[1..], ys);
      var rest' := Without(xs[1..], ys + [y]);
      assert Remove(rest, y) == rest';
      if xs[0] in ys {
        assert Without(xs, ys) == rest;
        assert Without(xs, ys + [y]) == rest';
      } else {
        assert Without(xs, ys) == [xs[0]] + rest;
        assert ([xs[0]] + rest)[1..] == rest;
        if xs[0] == y {
          assert Without(xs, ys + [y]) == rest';
        } else {
          assert Without(xs, ys + [y]) == [xs[0]] + rest';
        }
      }
    }
  }

  lemma {:induction false} WithoutNothing(xs: seq<nat>)
    ensures Without(xs, []) == xs
  {
    if xs != [] {
      WithoutNothing(xs[1..]);
      assert [xs[0]] + xs[1..] == xs;
    }
  }

  /** `lang1_missing` (or `lang2_missing`) once every pair has removed its
      index: the indices of `side` below `n` that no pair uses. */
  function Unaligned(n: nat, pairs: seq<(nat, nat)>, side: Side): (r: seq<nat>)
    ensures InRange(r, n)
  {
    var r := Without(Range(n), IndicesOn(pairs, side));
    assert forall k :: 0 <= k < |r| ==> r[k] in Range(n);
    r
  }

  /** Every index that no pair uses is listed, exactly once, and no other. */
  lemma UnalignedSpec(n: nat, pairs: seq<(nat, nat)>, side: Side, i: nat)
    ensures Distinct(Unaligned(n, pairs, side))
    ensures i in Unaligned(n, pairs, side) <==> i < n && forall k :: 0 <= k < |pairs| ==> IndexOn(pairs[k], side) != i
  {
    var used := IndicesOn(pairs, side);
    if i < n {
      assert Range(n)[i] == i;
    }
    if i in used {
      var k :| 0 <= k < |used| && used[k] == i;
      assert IndexOn(pairs[k], side) == i;
    }
  }

  /** The removal loop: every pair's index is taken off the list of all
      indices. */
  method MissingIndices(n: nat, pairs: seq<(nat, nat)>, side: Side) returns (missing: seq<nat>)
    ensures missing == Unaligned(n, pairs, side)
  {
    ghost var used := IndicesOn(pairs, side);
    missing := Range(n);
    WithoutNothing(Range(n));
    assert used[..0] == [];
    for k := 0 to |pairs|
      invariant missing == Without(Range(n), used[..k])
    {
      WithoutSnoc(Range(n), used[..k], used[k]);
      TakeSnoc(used, k);
      missing := Remove(missing, IndexOn(pairs[k], side));
    }
    TakeAll(used);
  }

  /** The words at the given indices. */
  function WordsAt(toks: seq<string>, xs: seq<nat>): (ws: seq<string>)
    requires InRange(xs, |toks|)
    ensures |ws| == |xs|
    ensures forall j :: 0 <= j < |xs| ==> ws[j] == toks[xs[j]]
  {
    seq(|xs|, j requires 0 <= j < |xs| => toks[xs[j]])
  }

  function Blanks(n: nat): (vs: seq<seq<string>>)
    ensures |vs| == n
    ensures forall j :: 0 <= j < n ==> vs[j] == [""]
  {
    seq(n, j requires 0 <= j < n => [""])
  }

  /** `table[toks[m]].append("")` for every missing index `m`. */
  function AddBlanks(t: ObsTable, toks: seq<string>, missing: seq<nat>): ObsTable
    requires InRange(missing, |toks|)
  {
    ExtendAll(t, WordsAt(toks, missing), Blanks(|missing|))
  }

  /** A word gains one `""` for every missing index it stands at, and
      nothing else changes. */
  lemma AddBlanksGet(t: ObsTable, toks: seq<string>, missing: seq<nat>, w: string)
    requires InRange(missing, |toks|)
    ensures Get(AddBlanks(t, toks, missing), w) == Get(t, w) + Repeat([""], Count(WordsAt(toks, missing), w))
  {
    ExtendAllGet(t, WordsAt(toks, missing), Blanks(|missing|), w, [""]);
  }

  method AppendBlanks(t: ObsTable, toks: seq<string>, missing: seq<nat>) returns (t': ObsTable)
    requires InRange(missing, |toks|)
    ensures t' == AddBlanks(t, toks, missing)
  {
    ghost var ws := WordsAt(toks, missing);
    ghost var bs := Blanks(|missing|);
    t' := t;
    for j := 0 to |missing|
      invariant t' == ExtendAll(t, ws[..j], bs[..j])
    {
      ExtendAllSnoc(t, ws, bs, j);
      t' := Extend(t', toks[missing[j]], [""]);
    }
    TakeAll(ws);
    TakeAll(bs);
  }

  // ---------------------------------------------------------------------
  // Grouping the pairs

  /** `phrase_align_lang1_r` for `side == Source` (`phrase_align_lang2_r`
      for `Target`): each index of `side`, in order of first use, with the
      opposite indices the pairs give it, in pair order. */
  function Partners(pairs: seq<(nat, nat)>, side: Side): (d: Dict<nat, seq<nat>>)
    ensures Valid(d)
  {
    if pairs == [] then Empty()
    else
      var n := |pairs| - 1;
      AppendTo(Partners(pairs[..n], side), IndexOn(pairs[n], side), IndexOn(pairs[n], Flip(side)))
  }

  /** The keys are exactly the indices some pair uses. */
  lemma {:induction false} PartnersKeys(pairs: seq<(nat, nat)>, side: Side, i: nat)
    ensures i in Partners(pairs, side).m <==> i in IndicesOn(pairs, side)
  {
    if pairs != [] {
      var n := |pairs| - 1;
      PartnersKeys(pairs[..n], side, i);
      IndicesOnSnoc(pairs, side);
    }
  }

  lemma IndicesOnSnoc(pairs: seq<(nat, nat)>, side: Side)
    requires pairs != []
    ensures IndicesOn(pairs, side) == IndicesOn(pairs[..|pairs| - 1], side) + [IndexOn(pairs[|pairs| - 1], side)]
  {
  }

  /** The grouping loop over the pairs, filling both tables at once. */
  method GroupPairs(pairs: seq<(nat, nat)>) returns (bySource: Dict<nat, seq<nat>>, byTarget: Dict<nat, seq<nat>>)
    ensures bySource == Partners(pairs, Source)
    ensures byTarget == Partners(pairs, Target)
  {
    bySource, byTarget := Empty(), Empty();
    assert pairs[..0] == [];
    for k := 0 to |pairs|
      invariant bySource == Partners(pairs[..k], Source)
      invariant byTarget == Partners(pairs[..k], Target)
    {
      TakeTake(pairs, k);
      bySource := AppendTo(bySource, pairs[k].0, pairs[k].1);
      byTarget := AppendTo(byTarget, pairs[k].1, pairs[k].0);
    }
    TakeAll(pairs);
  }

  /** A group of indices (a dict key or value of the grouped tables);
      after the gap pass it may also hold placeholders. */
  type Group = seq<Slot>

  type Groups = Dict<Group, Group>

  /** `phrase_align_lang1` from `phrase_align_lang2_r` (and its mirror):
      every key of `r`, in order, appended to the group its partner list
      names. */
  function Regroup(ks: seq<nat>, m: map<nat, seq<nat>>): (g: Groups)
    requires forall k :: k in ks ==> k in m
    ensures Valid(g)
  {
    if ks == [] then Empty()
    else
      var n := |ks| - 1;
      AppendTo(Regroup(ks[..n], m), AsSlots(m[ks[n]]), Pos(ks[n]))
  }

  lemma AsSlotsSnoc(ks: seq<nat>)
    requires ks != []
    ensures AsSlots(ks) == AsSlots(ks[..|ks| - 1]) + [Pos(ks[|ks| - 1])]
  {
  }

  lemma {:induction false} RegroupFlatten(ks: seq<nat>, m: map<nat, seq<nat>>)
    requires forall k :: k in ks ==> k in m
    ensures multiset(Flatten(Regroup(ks, m))) == multiset(AsSlots(ks))
  {
    if ks != [] {
      var n := |ks| - 1;
      RegroupFlatten(ks[..n], m);
      AppendToFlatten(Regroup(ks[..n], m), AsSlots(m[ks[n]]), Pos(ks[n]));
      AsSlotsSnoc(ks);
    }
  }

  lemma {:induction false} SlotsOnce(ks: seq<nat>, t: nat)
    requires NoDuplicates(ks)
    ensures multiset(AsSlots(ks))[Pos(t)] == if t in ks then 1 else 0
  {
    if ks != [] {
      var n := |ks| - 1;
      assert NoDuplicates(ks[..n]);
      SlotsOnce(ks[..n], t);
      AsSlotsSnoc(ks);
      assert t in ks <==> t in ks[..n] || t == ks[n];
    }
  }

  /** Every index of `side` that some pair uses is in exactly one of the
      groups built from it, once; an index no pair uses is in none. */
  lemma GroupedOnce(pairs: seq<(nat, nat)>, side: Side, t: nat)
    ensures var r := Partners(pairs, side);
      multiset(Flatten(Regroup(r.order, r.m)))[Pos(t)] == if t in IndicesOn(pairs, side) then 1 else 0
  {
    var r := Partners(pairs, side);
    RegroupFlatten(r.order, r.m);
    SlotsOnce(r.order, t);
    PartnersKeys(pairs, side, t);
  }

  /** The loop that reverses a partner table into groups. */
  method RegroupPartners(r: Dict<nat, seq<nat>>) returns (g: Groups)
    requires Valid(r)
    ensures g == Regroup(r.order, r.m)
  {
    g := Empty();
    assert r.order[..0] == [];
    for j := 0 to |r.order|
      invariant g == Regroup(r.order[..j], r.m)
    {
      TakeTake(r.order, j);
      var k := r.order[j];
      g := AppendTo(g, AsSlots(r.m[k]), Pos(k));
    }
    TakeAll(r.order);
  }

  // ---------------------------------------------------------------------
  // Dropping groups the other side does not mirror

  /** `(value, key)` for every `(key, value)`. */
  function Mirror(s: set<(Group, Group)>): set<(Group, Group)> {
    set e | e in s :: (e.1, e.0)
  }

  /** `source_error`: source groups whose target group does not name them back. */
  function SourceErrors(g1: Groups, g2: Groups): set<(Group, Group)> {
    Items(g1) - Mirror(Items(g2))
  }

  /** `target_error`: the same seen from the target side. */
  function TargetErrors(g1: Groups, g2: Groups): set<(Group, Group)> {
    Mirror(Items(g2)) - Items(g1)
  }

  function FirstOf(s: set<(Group, Group)>): set<Group> {
    set e | e in s :: e.0
  }

  function SecondOf(s: set<(Group, Group)>): set<Group> {
    set e | e in s :: e.1
  }

  /** Both tables lose their unmirrored groups, but only when both sides
      have some. */
  function Symmetrize(g1: Groups, g2: Groups): (Groups, Groups)
    requires Valid(g1) && Valid(g2)
  {
    var se, te := SourceErrors(g1, g2), TargetErrors(g1, g2);
    if se != {} && te != {} then (DeleteAll(g1, FirstOf(se)), DeleteAll(g2, SecondOf(te)))
    else (g1, g2)
  }

  /** When either side has no unmirrored group nothing changes;
      otherwise what is left on each side is exactly what both sides
      agreed on, so the two tables mirror each other. */
  lemma SymmetrizeSpec(g1: Groups, g2: Groups)
    requires Valid(g1) && Valid(g2)
    ensures SourceErrors(g1, g2) == {} || TargetErrors(g1, g2) == {} ==> Symmetrize(g1, g2) == (g1, g2)
    ensures SourceErrors(g1, g2) != {} && TargetErrors(g1, g2) != {} ==>
      && Items(Symmetrize(g1, g2).0) == Items(g1) * Mirror(Items(g2))
      && Mirror(Items(Symmetrize(g1, g2).1)) == Items(g1) * Mirror(Items(g2))
  {
    var se, te := SourceErrors(g1, g2), TargetErrors(g1, g2);
    if se != {} && te != {} {
      SymmetrizeSource(g1, g2);
      SymmetrizeTarget(g1, g2);
    }
  }

  lemma SymmetrizeSource(g1: Groups, g2: Groups)
    requires Valid(g1) && Valid(g2)
    ensures Items(DeleteAll(g1, FirstOf(SourceErrors(g1, g2)))) == Items(g1) * Mirror(Items(g2))
  {
    var se := SourceErrors(g1, g2);
    var h := DeleteAll(g1, FirstOf(se));
    forall e | e in Items(g1)
      ensures e.0 in FirstOf(se) <==> e in se
    {
      if e.0 in FirstOf(se) {
        var e' :| e' in se && e'.0 == e.0;
      }
    }
    assert Items(h) <= Items(g1) * Mirror(Items(g2));
    forall e | e in Items(g1) * Mirror(Items(g2))
      ensures e in Items(h)
    {
      assert e.0 in h.m;
    }
  }

  lemma SymmetrizeTarget(g1: Groups, g2: Groups)
    requires Valid(g1) && Valid(g2)
    ensures Mirror(Items(DeleteAll(g2, SecondOf(TargetErrors(g1, g2))))) == Items(g1) * Mirror(Items(g2))
  {
    var te := TargetErrors(g1, g2);
    var h := DeleteAll(g2, SecondOf(te));
    forall e | e in Mirror(Items(g2))
      ensures e.1 in SecondOf(te) <==> e in te
    {
      if e.1 in SecondOf(te) {
        var e' :| e' in te && e'.1 == e.1;
        var f :| f in Items(g2) && e' == (f.1, f.0);
        var f' :| f' in Items(g2) && e == (f'.1, f'.0);
      }
    }
    forall e | e in Mirror(Items(h))
      ensures e in Items(g1) * Mirror(Items(g2))
    {
      var f :| f in Items(h) && e == (f.1, f.0);
      assert f in Items(g2);
    }
    forall e | e in Items(g1) * Mirror(Items(g2))
      ensures e in Mirror(Items(h))
    {
      var f :| f in Items(g2) && e == (f.1, f.0);
      assert f in Items(h);
    }
  }

  /** A deletion loop: `del d[k]` for each key of the set, in whatever
      order the set yields them. */
  method DeleteKeys(d: Groups, ks: set<Group>) returns (r: Groups)
    requires Valid(d)
    ensures r == DeleteAll(d, ks)
  {
    var rest := ks;
    r := d;
    DeleteNothing(d);
    assert ks - rest == {};
    while rest != {}
      invariant rest <= ks
      invariant r == DeleteAll(d, ks - rest)
      decreases rest
    {
      var k :| k in rest;
      DeleteStep(d, ks - rest, k);
      assert ks - (rest - {k}) == (ks - rest) + {k};
      r := Delete(r, k);
      rest := rest - {k};
    }
    assert ks - rest == ks;
  }

  /** The symmetry step: the error sets, and the two deletion loops when
      both are non-empty. */
  method SymmetrizeGroups(g1: Groups, g2: Groups) returns (h1: Groups, h2: Groups)
    requires Valid(g1) && Valid(g2)
    ensures (h1, h2) == Symmetrize(g1, g2)
  {
    var se := Items(g1) - Mirror(Items(g2));
    var te := Mirror(Items(g2)) - Items(g1);
    h1, h2 := g1, g2;
    if se != {} && te != {} {
      h1 := DeleteKeys(g1, FirstOf(se));
      h2 := DeleteKeys(g2, SecondOf(te));
    }
  }

  // ---------------------------------------------------------------------
  // Marking gaps inside groups

  /** Every entry is an index below `n`: what `isnumeric` and the token
      lookups of the gap loop need. */
  predicate AllPosIn(v: Group, n: nat) {
    forall p :: 0 <= p < |v| ==> v[p].Pos? && v[p].i < n
  }

  /** Every value of the table is such a group. */
  predicate ValuesIn(d: Groups, n: nat) {
    forall k :: k in d.m ==> AllPosIn(d.m[k], n)
  }

  /** The indices of a group of indices. */
  function Numbers(v: Group): (xs: seq<nat>)
    ensures |xs| == |v|
    ensures forall p :: 0 <= p < |v| && v[p].Pos? ==> xs[p] == v[p].i
  {
    seq(|v|, p requires 0 <= p < |v| => if v[p].Pos? then v[p].i else 0)
  }

  lemma {:induction false} IndicesOfNoMarks(r: seq<Slot>)
    requires forall p :: 0 <= p < |r| ==> r[p].Pos?
    ensures Indices(r) == Numbers(r)
  {
    if r != [] {
      var n := |r| - 1;
      IndicesOfNoMarks(r[..n]);
      assert Numbers(r) == Numbers(r[..n]) + [r[n].i];
    }
  }

  /** A list with a placeholder has fewer indices than entries. */
  lemma {:induction false} IndicesShorter(r: seq<Slot>)
    requires exists p :: 0 <= p < |r| && r[p].Mark?
    ensures |Indices(r)| < |r|
  {
    var n := |r| - 1;
    if r[n].Mark? {
      IndicesAtMost(r[..n]);
    } else {
      var p :| 0 <= p < |r| && r[p].Mark?;
      assert r[..n][p].Mark?;
      IndicesShorter(r[..n]);
    }
  }

  lemma {:induction false} IndicesAtMost(r: seq<Slot>)
    ensures |Indices(r)| <= |r|
  {
    if r != [] {
      IndicesAtMost(r[..|r| - 1]);
    }
  }

  /** The gap loop as its authors meant it: between every two adjacent
      indices of a group of two or more, the placeholder the gap rule
      gives. Groups of one index are left alone, and so are groups that
      are not all indices of `toks`, which the pass never meets
      (`WordGapsMarked`). */
  function Filled(v: Group, toks: seq<string>): (f: Group)
    ensures |f| >= |v|
    ensures !(|v| > 1 && AllPosIn(v, |toks|)) ==> f == v
  {
    if |v| > 1 && AllPosIn(v, |toks|) then
      FillGaps(Numbers(v), toks)
    else v
  }

  /** A filled group has its placeholders exactly where the gap rule puts
      them and, placeholders dropped, is the group it was; it has grown
      exactly when it received a placeholder. */
  lemma FilledSpec(v: Group, toks: seq<string>)
    requires AllPosIn(v, |toks|)
    ensures GapsMarked(Filled(v, toks), toks)
    ensures Indices(Filled(v, toks)) == Numbers(v)
    ensures |Filled(v, toks)| != |v| <==> exists p :: 0 <= p < |Filled(v, toks)| && Filled(v, toks)[p].Mark?
  {
    var f := Filled(v, toks);
    if |v| > 1 {
      FillGapsMarked(Numbers(v), toks);
      FillGapsIndices(Numbers(v), toks);
    } else {
      IndicesOfNoMarks(v);
    }
    if exists p :: 0 <= p < |f| && f[p].Mark? {
      IndicesShorter(f);
    } else {
      IndicesOfNoMarks(f);
    }
  }

  // ---------------------------------------------------------------------
  // The gap loop as written

  /** `lst.insert(pos, Mark(text))`. */
  function InsertMark(lst: Group, pos: nat, text: string): (r: Group)
    requires pos <= |lst|
    ensures |r| == |lst| + 1
  {
    lst[..pos] + [Mark(text)] + lst[pos..]
  }

  /** The loop of `parse_alignments.py` as it runs: `pos` walks up to the
      `last` fixed before the loop started while the loop inserts into the
      very list it walks, and the comma probe reads the token after the
      first index of the pair, even when that index is the larger one. A
      probe past the end of the sentence is Python's `IndexError`. */
  function GapWalkAsWritten(lst: Group, pos: nat, last: nat, toks: seq<string>): (r: Result<Group, Error>)
    requires last < |lst|
    ensures r.Success? ==> |r.value| >= |lst|
    decreases last - pos
  {
    if pos >= last then Success(lst)
    else if lst[pos].Pos? && lst[pos + 1].Pos? then
      var a, b := lst[pos].i, lst[pos + 1].i;
      if Dist(a, b) == 2 then
        if a + 1 >= |toks| then Failure(IndexError)
        else GapWalkAsWritten(InsertMark(lst, pos + 1, if toks[a + 1] == "," then "," else Ellipsis), pos + 1, last, toks)
      else if Dist(a, b) > 2 then GapWalkAsWritten(InsertMark(lst, pos + 1, Ellipsis), pos + 1, last, toks)
      else GapWalkAsWritten(lst, pos + 1, last, toks)
    else GapWalkAsWritten(lst, pos + 1, last, toks)
  }

  /** One group through the loop as written. */
  function GapLoopAsWritten(v: Group, toks: seq<string>): (r: Result<Group, Error>)
    ensures r.Success? ==> |r.value| >= |v|
  {
    if |v| > 1 then GapWalkAsWritten(v, 0, |v| - 1, toks) else Success(v)
  }

  /** The loop as written stops at the length the group had before its
      first insertion, so a group with three gaps keeps its last one
      unmarked, where the gap rule (`FilledSpec`) marks all three. */
  lemma GapLoopSkipsTail()
    ensures var toks := ["a", "b", "c", "d", "e", "f", "g"];
      var v := [Pos(0), Pos(2), Pos(4), Pos(6)];
      && GapLoopAsWritten(v, toks) == Success([Pos(0), Mark(Ellipsis), Pos(2), Mark(Ellipsis), Pos(4), Pos(6)])
      && !NoUnmarkedGap(GapLoopAsWritten(v, toks).value)
      && Filled(v, toks) == [Pos(0), Mark(Ellipsis), Pos(2), Mark(Ellipsis), Pos(4), Mark(Ellipsis), Pos(6)]
  {
    var v2 := [Pos(0), Mark(Ellipsis), Pos(2), Mark(Ellipsis), Pos(4), Pos(6)];
    SkipsTailWalk();
    assert v2[4].Pos? && v2[5].Pos? && Dist(v2[4].i, v2[5].i) == 2;
    ThreeGapsFilled();
  }

  lemma SkipsTailWalk()
    ensures GapLoopAsWritten([Pos(0), Pos(2), Pos(4), Pos(6)], ["a", "b", "c", "d", "e", "f", "g"]) ==
      Success([Pos(0), Mark(Ellipsis), Pos(2), Mark(Ellipsis), Pos(4), Pos(6)])
  {
    var toks := ["a", "b", "c", "d", "e", "f", "g"];
    var v := [Pos(0), Pos(2), Pos(4), Pos(6)];
    var v1 := [Pos(0), Mark(Ellipsis), Pos(2), Pos(4), Pos(6)];
    var v2 := [Pos(0), Mark(Ellipsis), Pos(2), Mark(Ellipsis), Pos(4), Pos(6)];
    assert InsertMark(v1, 3, Ellipsis) == v2;
    assert GapWalkAsWritten(v1, 1, 3, toks) == Success(v2);
    assert InsertMark(v, 1, Ellipsis) == v1;
  }

  lemma ThreeGapsFilled()
    ensures Filled([Pos(0), Pos(2), Pos(4), Pos(6)], ["a", "b", "c", "d", "e", "f", "g"]) ==
      [Pos(0), Mark(Ellipsis), Pos(2), Mark(Ellipsis), Pos(4), Mark(Ellipsis), Pos(6)]
  {
    var toks := ["a", "b", "c", "d", "e", "f", "g"];
    assert Numbers([Pos(0), Pos(2), Pos(4), Pos(6)]) == [0, 2, 4, 6];
    TwoGapsFilled();
    assert [0, 2, 4, 6][..3] == [0, 2, 4];
  }

  lemma TwoGapsFilled()
    ensures FillGaps([0, 2, 4], ["a", "b", "c", "d", "e", "f", "g"]) ==
      [Pos(0), Mark(Ellipsis), Pos(2), Mark(Ellipsis), Pos(4)]
  {
    var toks := ["a", "b", "c", "d", "e", "f", "g"];
    assert [0, 2][..1] == [0];
    assert FillGaps([0, 2], toks) == [Pos(0), Mark(Ellipsis), Pos(2)];
    assert [0, 2, 4][..2] == [0, 2];
  }

  /** A pair whose indices descend by two makes the loop as written probe
      the token after the larger one, past the end of a sentence whose
      last index it is; the gap rule probes the token between them. */
  lemma GapLoopIndexError()
    ensures var toks := ["x", ",", "y"];
      var v := [Pos(2), Pos(0)];
      && GapLoopAsWritten(v, toks) == Failure(IndexError)
      && Filled(v, toks) == [Pos(2), Mark(","), Pos(0)]
  {
    var toks := ["x", ",", "y"];
    assert Numbers([Pos(2), Pos(0)]) == [2, 0];
    assert [2, 0][..1] == [2];
  }

  /** The placeholder between two indices in either order: the token
      probed is the one after the smaller of the two. */
  method GapPlaceholder(a: nat, b: nat, toks: seq<string>) returns (m: seq<Slot>)
    requires a < |toks| && b < |toks|
    ensures m == Between(a, b, toks)
  {
    m := [];
    if Dist(a, b) == 2 {
      var lo := if a < b then a else b;
      if toks[lo + 1] == "," {
        m := [Mark(",")];
      } else {
        m := [Mark(Ellipsis)];
      }
    } else if Dist(a, b) > 2 {
      m := [Mark(Ellipsis)];
    }
  }

  /** The corrected inner loop: the walk over the group that puts the
      gap rule's placeholder after every index whose successor is two or
      more away, whichever of the two is smaller, and then steps past
      it. */
  method FillGroup(xs: seq<nat>, toks: seq<string>) returns (phrase: seq<Slot>)
    requires |xs| > 1 && InRange(xs, |toks|)
    ensures phrase == FillGaps(xs, toks)
  {
    phrase := AsSlots(xs);
    var pos := 0;
    ghost var j := 0;
    ghost var atMark := false;
    WalkStart(xs, toks);
    while pos < |phrase| - 1
      invariant Walked(xs, toks, phrase, pos, j, atMark)
      decreases 2 * (|xs| - 1 - j) + (if atMark then 1 else 0)
    {
      phrase, pos, j, atMark := FillStep(xs, toks, phrase, pos, j, atMark);
    }
    WalkEnd(xs, toks, phrase, pos, j, atMark);
  }

  /** One pass of the loop body of `FillGroup`. */
  method FillStep(xs: seq<nat>, toks: seq<string>, phrase: seq<Slot>, pos: int, ghost j: nat, ghost atMark: bool)
    returns (phrase': seq<Slot>, pos': int, ghost j': nat, ghost atMark': bool)
    requires InRange(xs, |toks|)
    requires Walked(xs, toks, phrase, pos, j, atMark)
    requires pos < |phrase| - 1
    ensures Walked(xs, toks, phrase', pos', j', atMark')
    ensures pos' == pos + 1
    ensures 2 * (|xs| - 1 - j') + (if atMark' then 1 else 0) < 2 * (|xs| - 1 - j) + (if atMark then 1 else 0)
  {
    WalkLookAnyOrder(xs, toks, phrase, pos, j, atMark);
    if phrase[pos].Pos? && phrase[pos + 1].Pos? {
      var a, b := phrase[pos].i, phrase[pos + 1].i;
      var m := GapPlaceholder(a, b, toks);
      WalkFill(xs, toks, phrase, pos, j, m);
      phrase' := phrase[..pos + 1] + m + phrase[pos + 1..];
      j', atMark' := j + 1, m != [];
    } else {
      WalkSkip(xs, toks, phrase, pos, j);
      phrase', j', atMark' := phrase, j, false;
    }
    pos' := pos + 1;
  }

  /** Every group of the table, filled in place. */
  function FillAll(d: Groups, toks: seq<string>): (r: Groups)
    requires Valid(d)
    ensures Valid(r)
  {
    Dict(d.order, map k | k in d.m :: Filled(d.m[k], toks))
  }

  /** `d[to] = d[from]; del d[from]` on a `defaultdict(list)`: a
      missing `from` is first created empty. */
  function Rename(d: Groups, from: Group, to: Group): (r: Groups)
    requires Valid(d)
    ensures Valid(r)
  {
    Delete(Set(d, to, Lookup(d, from, [])), from)
  }

  /** The groups of a table, in its order. */
  function GroupsOf(d: Groups): (vs: seq<Group>)
    requires Valid(d)
    ensures |vs| == |d.order|
    ensures forall i :: 0 <= i < |vs| ==> vs[i] == d.m[d.order[i]]
  {
    seq(|d.order|, i requires 0 <= i < |d.order| => d.m[d.order[i]])
  }

  /** Each group filled. */
  function Fillings(vs: seq<Group>, toks: seq<string>): (fs: seq<Group>)
    ensures |fs| == |vs|
    ensures forall i :: 0 <= i < |vs| ==> fs[i] == Filled(vs[i], toks)
  {
    seq(|vs|, i requires 0 <= i < |vs| => Filled(vs[i], toks))
  }

  /** The renames for groups `vs` that became `fs`, in order: one for
      every group that grew. */
  function Renames(vs: seq<Group>, fs: seq<Group>): (rs: seq<(Group, Group)>)
    requires |vs| == |fs|
  {
    if vs == [] then []
    else
      var n := |vs| - 1;
      Renames(vs[..n], fs[..n]) + (if |fs[n]| != |vs[n]| then [(vs[n], fs[n])] else [])
  }

  /** The renames one pass over a table makes in the mirrored table. */
  function PassRenames(d: Groups, toks: seq<string>): seq<(Group, Group)>
    requires Valid(d)
  {
    var vs := GroupsOf(d);
    Renames(vs, Fillings(vs, toks))
  }

  /** The renames done one after the other. */
  function RenameAll(d: Groups, rs: seq<(Group, Group)>): (r: Groups)
    requires Valid(d)
    ensures Valid(r)
  {
    if rs == [] then d
    else
      var n := |rs| - 1;
      Rename(RenameAll(d, rs[..n]), rs[n].0, rs[n].1)
  }

  lemma RenameAllSnoc(d: Groups, rs: seq<(Group, Group)>, x: (Group, Group))
    requires Valid(d)
    ensures RenameAll(d, rs + [x]) == Rename(RenameAll(d, rs), x.0, x.1)
  {
    assert (rs + [x])[..|rs|] == rs;
  }

  /** The groups that grew, each with what it became. */
  function GrownPairs(vs: seq<Group>, fs: seq<Group>): set<(Group, Group)>
    requires |vs| == |fs|
  {
    set i | 0 <= i < |vs| && |fs[i]| != |vs[i]| :: (vs[i], fs[i])
  }

  /** Every rename is of a group that grew to what it became. */
  lemma {:induction false} RenamesGrown(vs: seq<Group>, fs: seq<Group>)
    requires |vs| == |fs|
    ensures forall x :: x in Renames(vs, fs) ==> x in GrownPairs(vs, fs)
  {
    if vs != [] {
      var n := |vs| - 1;
      RenamesGrown(vs[..n], fs[..n]);
      forall x | x in GrownPairs(vs[..n], fs[..n])
        ensures x in GrownPairs(vs, fs)
      {
        var i :| 0 <= i < n && |fs[..n][i]| != |vs[..n][i]| && x == (vs[..n][i], fs[..n][i]);
        assert vs[..n][i] == vs[i] && fs[..n][i] == fs[i];
      }
    }
  }

  /** Every group that grew is renamed. */
  lemma {:induction false} RenamesAllGrown(vs: seq<Group>, fs: seq<Group>, i: nat)
    requires |vs| == |fs|
    requires i < |vs| && |fs[i]| != |vs[i]|
    ensures (vs[i], fs[i]) in Renames(vs, fs)
  {
    var n := |vs| - 1;
    if i < n {
      assert vs[..n][i] == vs[i] && fs[..n][i] == fs[i];
      RenamesAllGrown(vs[..n], fs[..n], i);
    }
  }

  /** One group filled, as the body of the pass does it. */
  method FillOne(v: Group, toks: seq<string>) returns (f: Group)
    requires AllPosIn(v, |toks|)
    ensures f == Filled(v, toks)
  {
    f := v;
    if |v| > 1 {
      f := FillGroup(Numbers(v), toks);
    }
  }

  lemma RenamesStep(vs: seq<Group>, fs: seq<Group>, j: nat)
    requires |vs| == |fs| && j < |vs|
    ensures |fs[j]| != |vs[j]| ==> Renames(vs[..j + 1], fs[..j + 1]) == Renames(vs[..j], fs[..j]) + [(vs[j], fs[j])]
    ensures |fs[j]| == |vs[j]| ==> Renames(vs[..j + 1], fs[..j + 1]) == Renames(vs[..j], fs[..j])
  {
    assert vs[..j + 1][..j] == vs[..j];
    assert fs[..j + 1][..j] == fs[..j];
    assert Renames(vs[..j], fs[..j]) + [] == Renames(vs[..j], fs[..j]);
  }

  /** One of the two `for` loops over a grouped table: every group of
      two or more is filled, and when it grew, the mirrored key is
      renamed. */
  method GapPass(d1: Groups, d2: Groups, toks: seq<string>) returns (e1: Groups, e2: Groups)
    requires Valid(d1) && Valid(d2)
    requires ValuesIn(d1, |toks|)
    ensures e1 == FillAll(d1, toks)
    ensures e2 == RenameAll(d2, PassRenames(d1, toks))
  {
    e1, e2 := d1, d2;
    PassStart(d1, d2, toks);
    for j := 0 to |d1.order|
      invariant e1 == FilledUpTo(d1, toks, j)
      invariant e2 == RenamedUpTo(d1, d2, toks, j)
    {
      e1, e2 := GapPassStep(d1, d2, toks, j, e1, e2);
    }
    PassEnd(d1, d2, toks);
  }

  /** The first table with its first `j` listed groups filled. */
  ghost function FilledUpTo(d1: Groups, toks: seq<string>, j: nat): Groups
    requires Valid(d1) && j <= |d1.order|
  {
    Install(d1, d1.order[..j], FillAll(d1, toks).m)
  }

  /** The mirrored table after the renames of the first `j` groups. */
  ghost function RenamedUpTo(d1: Groups, d2: Groups, toks: seq<string>, j: nat): Groups
    requires Valid(d1) && Valid(d2) && j <= |d1.order|
  {
    var vs := GroupsOf(d1);
    RenameAll(d2, Renames(vs[..j], Fillings(vs, toks)[..j]))
  }

  lemma PassStart(d1: Groups, d2: Groups, toks: seq<string>)
    requires Valid(d1) && Valid(d2)
    ensures FilledUpTo(d1, toks, 0) == d1 && RenamedUpTo(d1, d2, toks, 0) == d2
  {
    var vs := GroupsOf(d1);
    assert vs[..0] == [] && Fillings(vs, toks)[..0] == [];
  }

  lemma PassEnd(d1: Groups, d2: Groups, toks: seq<string>)
    requires Valid(d1) && Valid(d2)
    ensures FilledUpTo(d1, toks, |d1.order|) == FillAll(d1, toks)
    ensures RenamedUpTo(d1, d2, toks, |d1.order|) == RenameAll(d2, PassRenames(d1, toks))
  {
    var vs := GroupsOf(d1);
    TakeAll(vs);
    TakeAll(Fillings(vs, toks));
    InstallAllPrefix(d1, FillAll(d1, toks));
  }

  /** The body of the pass for the `j`-th listed group. */
  method GapPassStep(d1: Groups, ghost d2: Groups, toks: seq<string>, j: nat, e1: Groups, e2: Groups)
    returns (e1': Groups, e2': Groups)
    requires Valid(d1) && Valid(d2) && ValuesIn(d1, |toks|) && j < |d1.order|
    requires e1 == FilledUpTo(d1, toks, j)
    requires e2 == RenamedUpTo(d1, d2, toks, j)
    ensures e1' == FilledUpTo(d1, toks, j + 1)
    ensures e2' == RenamedUpTo(d1, d2, toks, j + 1)
  {
    ghost var vs := GroupsOf(d1);
    ghost var fs := Fillings(vs, toks);
    var k := d1.order[j];
    InstallNext(d1, FillAll(d1, toks).m, j);
    PassRenameStep(d2, vs, fs, j);
    var v := e1.m[k];
    assert v == vs[j];
    var f := FillOne(v, toks);
    assert f == fs[j];
    e1' := Set(e1, k, f);
    e2' := e2;
    if |f| != |v| {
      e2' := Rename(e2, v, f);
    }
  }

  /** The renames after one more group: one more when it grew. */
  lemma PassRenameStep(d2: Groups, vs: seq<Group>, fs: seq<Group>, j: nat)
    requires Valid(d2) && |vs| == |fs| && j < |vs|
    ensures var before := RenameAll(d2, Renames(vs[..j], fs[..j]));
      RenameAll(d2, Renames(vs[..j + 1], fs[..j + 1]))
        == if |fs[j]| != |vs[j]| then Rename(before, vs[j], fs[j]) else before
  {
    RenamesStep(vs, fs, j);
    if |fs[j]| != |vs[j]| {
      RenameAllSnoc(d2, Renames(vs[..j], fs[..j]), (vs[j], fs[j]));
    }
  }

  // ---------------------------------------------------------------------
  // Which tokens the groups may name

  /** Every index of the group is an index of a list of `n` tokens. */
  predicate SlotsIn(v: Group, n: nat) {
    forall p :: 0 <= p < |v| && v[p].Pos? ==> v[p].i < n
  }

  /** Keys index the `nk` tokens of one side, values the `nv` of the other. */
  predicate Shaped(d: Groups, nk: nat, nv: nat) {
    forall k :: k in d.m ==> SlotsIn(k, nk) && SlotsIn(d.m[k], nv)
  }

  /** Every value has its gaps marked. */
  predicate ValuesMarked(d: Groups, toks: seq<string>) {
    forall k :: k in d.m ==> GapsMarked(d.m[k], toks)
  }

  /** The partners of every index of a well-formed sentence are indices
      of the other side. */
  lemma {:induction false} PartnersRange(pairs: seq<(nat, nat)>, side: Side, n: nat, nf: nat)
    requires forall k :: 0 <= k < |pairs| ==> IndexOn(pairs[k], side) < n && IndexOn(pairs[k], Flip(side)) < nf
    ensures forall i :: i in Partners(pairs, side).order ==> i < n
    ensures forall i :: i in Partners(pairs, side).m ==> InRange(Partners(pairs, side).m[i], nf)
  {
    if pairs != [] {
      var k := |pairs| - 1;
      PartnersRange(pairs[..k], side, n, nf);
    }
  }

  /** A regrouped table names the indices it was built from. */
  lemma {:induction false} RegroupShaped(ks: seq<nat>, m: map<nat, seq<nat>>, nk: nat, nv: nat)
    requires forall k :: k in ks ==> k in m && k < nv && InRange(m[k], nk)
    ensures Shaped(Regroup(ks, m), nk, nv) && ValuesIn(Regroup(ks, m), nv)
  {
    if ks != [] {
      var n := |ks| - 1;
      assert forall k :: k in ks[..n] ==> k in ks;
      RegroupShaped(ks[..n], m, nk, nv);
      AppendToShaped(Regroup(ks[..n], m), AsSlots(m[ks[n]]), ks[n], nk, nv);
    }
  }

  /** Appending an index of the value side under a key of the key side. */
  lemma AppendToShaped(d: Groups, key: Group, i: nat, nk: nat, nv: nat)
    requires Valid(d) && Shaped(d, nk, nv) && ValuesIn(d, nv)
    requires SlotsIn(key, nk) && i < nv
    ensures Shaped(AppendTo(d, key, Pos(i)), nk, nv) && ValuesIn(AppendTo(d, key, Pos(i)), nv)
  {
    var v := Lookup(d, key, []) + [Pos(i)];
    assert AllPosIn(v, nv);
  }

  /** Deleting keys keeps what held of every entry. */
  lemma DeleteAllShaped(d: Groups, ks: set<Group>, nk: nat, nv: nat)
    requires Valid(d) && Shaped(d, nk, nv) && ValuesIn(d, nv)
    ensures Shaped(DeleteAll(d, ks), nk, nv) && ValuesIn(DeleteAll(d, ks), nv)
  {
  }

  /** Filling the values keeps the keys, marks every value and keeps it
      within the tokens it indexes. */
  lemma FillAllSpec(d: Groups, nk: nat, toks: seq<string>)
    requires Valid(d) && Shaped(d, nk, |toks|) && ValuesIn(d, |toks|)
    ensures FillAll(d, toks).m.Keys == d.m.Keys
    ensures Shaped(FillAll(d, toks), nk, |toks|) && ValuesMarked(FillAll(d, toks), toks)
  {
    forall k | k in d.m
      ensures GapsMarked(Filled(d.m[k], toks), toks)
    {
      FilledSpec(d.m[k], toks);
    }
  }

  /** One rename moves an entry to a new key without changing its value
      (a missing key moves an empty group). */
  lemma RenameShaped(d: Groups, from: Group, to: Group, nk: nat, nv: nat, vt: seq<string>)
    requires Valid(d) && SlotsIn(to, nk) && Shaped(d, nk, nv)
    ensures Shaped(Rename(d, from, to), nk, nv)
    ensures ValuesIn(d, nv) ==> ValuesIn(Rename(d, from, to), nv)
    ensures ValuesMarked(d, vt) ==> ValuesMarked(Rename(d, from, to), vt)
  {
    var r := Rename(d, from, to);
    RenameEntries(d, from, to);
    forall k | k in r.m
      ensures SlotsIn(k, nk) && SlotsIn(r.m[k], nv)
    {
      if k !in d.m || r.m[k] != d.m[k] {
        assert k == to && r.m[k] == Lookup(d, from, []);
      }
    }
    if ValuesIn(d, nv) {
      forall k | k in r.m
        ensures AllPosIn(r.m[k], nv)
      {
        if k !in d.m || r.m[k] != d.m[k] {
          assert r.m[k] == Lookup(d, from, []);
        }
      }
    }
    if ValuesMarked(d, vt) {
      forall k | k in r.m
        ensures GapsMarked(r.m[k], vt)
      {
        if k !in d.m || r.m[k] != d.m[k] {
          assert r.m[k] == Lookup(d, from, []);
          assert GapsMarked([], vt);
        }
      }
    }
  }

  /** After a rename, an entry is the moved one or an untouched one. */
  lemma RenameEntries(d: Groups, from: Group, to: Group)
    requires Valid(d)
    ensures var r := Rename(d, from, to);
      forall k :: k in r.m ==> (k == to && r.m[k] == Lookup(d, from, [])) || (k in d.m && r.m[k] == d.m[k])
  {
  }

  /** Renames move entries to new keys without changing any value, so
      they keep what holds of every entry. */
  lemma {:induction false} RenameAllShaped(d: Groups, rs: seq<(Group, Group)>, nk: nat, nv: nat, vt: seq<string>)
    requires Valid(d)
    requires forall j :: 0 <= j < |rs| ==> SlotsIn(rs[j].1, nk)
    requires Shaped(d, nk, nv)
    ensures Shaped(RenameAll(d, rs), nk, nv)
    ensures ValuesIn(d, nv) ==> ValuesIn(RenameAll(d, rs), nv)
    ensures ValuesMarked(d, vt) ==> ValuesMarked(RenameAll(d, rs), vt)
  {
    if rs != [] {
      var n := |rs| - 1;
      assert forall j :: 0 <= j < n ==> rs[..n][j] == rs[j];
      RenameAllShaped(d, rs[..n], nk, nv, vt);
      RenameShaped(RenameAll(d, rs[..n]), rs[n].0, rs[n].1, nk, nv, vt);
    }
  }

  /** No rename's new key is any rename's old key. */
  predicate Separate(rs: seq<(Group, Group)>) {
    forall a, b :: 0 <= a < |rs| && 0 <= b < |rs| ==> rs[a].0 != rs[b].1
  }

  /** What the renames do to the map of a table. */
  function RenameMap(m: map<Group, Group>, rs: seq<(Group, Group)>): map<Group, Group> {
    if rs == [] then m
    else
      var n := |rs| - 1;
      var r := RenameMap(m, rs[..n]);
      var from, to := rs[n].0, rs[n].1;
      r[to := if from in r then r[from] else []] - {from}
  }

  lemma {:induction false} RenameAllMap(d: Groups, rs: seq<(Group, Group)>)
    requires Valid(d)
    ensures RenameAll(d, rs).m == RenameMap(d.m, rs)
  {
    if rs != [] {
      RenameAllMap(d, rs[..|rs| - 1]);
    }
  }

  /** When no new key is an old key, every new key is there at the end
      and no old key is. */
  lemma {:induction false} RenameMapKey(m: map<Group, Group>, rs: seq<(Group, Group)>, i: nat)
    requires Separate(rs) && i < |rs|
    ensures rs[i].1 in RenameMap(m, rs) && rs[i].0 !in RenameMap(m, rs)
  {
    var n := |rs| - 1;
    if i < n {
      SeparatePrefix(rs, n, i);
      RenameMapKey(m, rs[..n], i);
    }
  }

  lemma SeparatePrefix(rs: seq<(Group, Group)>, n: nat, i: nat)
    requires Separate(rs) && i < n < |rs|
    ensures Separate(rs[..n]) && rs[..n][i] == rs[i]
    ensures rs[n].0 != rs[i].1 && rs[i].0 != rs[n].1
  {
    forall a, b | 0 <= a < n && 0 <= b < n
      ensures rs[..n][a].0 != rs[..n][b].1
    {
      assert rs[..n][a] == rs[a] && rs[..n][b] == rs[b];
    }
  }

  /** A group holds a placeholder. */
  predicate HasMark(v: Group) {
    exists p :: 0 <= p < |v| && v[p].Mark?
  }

  /** Groups of indices never share a key with groups that grew, since
      those hold a placeholder: so no rename's new key is another's old
      key. */
  lemma {:induction false} RenamesSeparate(vs: seq<Group>, fs: seq<Group>, n: nat)
    requires |vs| == |fs|
    requires forall i :: 0 <= i < |vs| ==> AllPosIn(vs[i], n) && (|fs[i]| != |vs[i]| ==> HasMark(fs[i]))
    ensures Separate(Renames(vs, fs))
  {
    var rs := Renames(vs, fs);
    RenamesGrown(vs, fs);
    forall a, b | 0 <= a < |rs| && 0 <= b < |rs|
      ensures rs[a].0 != rs[b].1
    {
      assert rs[a] in GrownPairs(vs, fs) && rs[b] in GrownPairs(vs, fs);
      var i :| 0 <= i < |vs| && |fs[i]| != |vs[i]| && rs[a] == (vs[i], fs[i]);
      var i' :| 0 <= i' < |vs| && |fs[i']| != |vs[i']| && rs[b] == (vs[i'], fs[i']);
      var p :| 0 <= p < |fs[i']| && fs[i'][p].Mark?;
      if |vs[i]| > p {
        assert vs[i][p].Pos?;
      }
    }
  }

  /** The groups of a pass's table are groups of indices, and those that
      grow gain a placeholder. */
  lemma PassGroups(d: Groups, toks: seq<string>)
    requires Valid(d) && ValuesIn(d, |toks|)
    ensures var vs := GroupsOf(d);
      var fs := Fillings(vs, toks);
      forall i :: 0 <= i < |vs| ==> AllPosIn(vs[i], |toks|) && (|fs[i]| != |vs[i]| ==> HasMark(fs[i]))
  {
    var vs := GroupsOf(d);
    forall i | 0 <= i < |vs| && |Filled(vs[i], toks)| != |vs[i]|
      ensures HasMark(Filled(vs[i], toks))
    {
      FilledSpec(vs[i], toks);
    }
  }

  /** The pass's renames keep step with the groups: for every group that
      grew, its old key is gone from the mirrored table and the grown
      group is a key there. */
  lemma GapPassRenames(d1: Groups, d2: Groups, toks: seq<string>)
    requires Valid(d1) && Valid(d2) && ValuesIn(d1, |toks|)
    ensures var e2 := RenameAll(d2, PassRenames(d1, toks));
      forall k :: k in d1.m && |Filled(d1.m[k], toks)| != |d1.m[k]| ==>
        Filled(d1.m[k], toks) in e2.m && d1.m[k] !in e2.m
  {
    var vs := GroupsOf(d1);
    var fs := Fillings(vs, toks);
    var rs := Renames(vs, fs);
    PassGroups(d1, toks);
    RenamesSeparate(vs, fs, |toks|);
    RenameAllMap(d2, rs);
    forall k | k in d1.m && |Filled(d1.m[k], toks)| != |d1.m[k]|
      ensures Filled(d1.m[k], toks) in RenameMap(d2.m, rs) && d1.m[k] !in RenameMap(d2.m, rs)
    {
      var i :| 0 <= i < |d1.order| && d1.order[i] == k;
      assert vs[i] == d1.m[k] && fs[i] == Filled(d1.m[k], toks);
      GrownRenamed(vs, fs, d2.m, i);
    }
  }

  /** A group that grew is renamed: its grown form is a key at the end and
      its old form is not. */
  lemma GrownRenamed(vs: seq<Group>, fs: seq<Group>, m: map<Group, Group>, i: nat)
    requires |vs| == |fs| && Separate(Renames(vs, fs))
    requires i < |vs| && |fs[i]| != |vs[i]|
    ensures fs[i] in RenameMap(m, Renames(vs, fs)) && vs[i] !in RenameMap(m, Renames(vs, fs))
  {
    var rs := Renames(vs, fs);
    RenamesAllGrown(vs, fs, i);
    var j :| 0 <= j < |rs| && rs[j] == (vs[i], fs[i]);
    RenameMapKey(m, rs, j);
  }

  // ---------------------------------------------------------------------
  // Emitting the groups

  /** A group written out: indices become their tokens, placeholders stay,
      the edges are tidied and the words joined with spaces. Unlike the
      projection of a phrase, `", ..."` is not collapsed here. */
  function Phrase(v: Group, toks: seq<string>): string
    requires SlotsIn(v, |toks|)
  {
    Join(RemovePunctPhrases(Surface(v, toks)), " ")
  }

  /** The key phrases of the listed groups, in order. */
  function KeyPhrases(ks: seq<Group>, toks: seq<string>): (ws: seq<string>)
    requires forall k :: k in ks ==> SlotsIn(k, |toks|)
    ensures |ws| == |ks|
    ensures forall i :: 0 <= i < |ks| ==> ws[i] == Phrase(ks[i], toks)
  {
    seq(|ks|, i requires 0 <= i < |ks| => Phrase(ks[i], toks))
  }

  /** The value phrases of the listed groups, one observation each. */
  function ValuePhrases(ks: seq<Group>, m: map<Group, Group>, toks: seq<string>): (vs: seq<seq<string>>)
    requires forall k :: k in ks ==> k in m && SlotsIn(m[k], |toks|)
    ensures |vs| == |ks|
    ensures forall i :: 0 <= i < |ks| ==> vs[i] == [Phrase(m[ks[i]], toks)]
  {
    seq(|ks|, i requires 0 <= i < |ks| => [Phrase(m[ks[i]], toks)])
  }

  /** The emission loop: `alignments[key].append(value)` for every group,
      in the table's order. */
  function Emit(t: ObsTable, d: Groups, kt: seq<string>, vt: seq<string>): ObsTable
    requires Valid(d) && Shaped(d, |kt|, |vt|)
  {
    ExtendAll(t, KeyPhrases(d.order, kt), ValuePhrases(d.order, d.m, vt))
  }

  /** A key phrase holds, after the emission, what it held before and the
      value phrase of every listed group it writes, and nothing else. */
  lemma EmitSpec(t: ObsTable, d: Groups, kt: seq<string>, vt: seq<string>, w: string, v: string)
    requires Valid(d) && Shaped(d, |kt|, |vt|)
    ensures v in Get(Emit(t, d, kt, vt), w) <==>
      v in Get(t, w) || exists i :: 0 <= i < |d.order| && KeyPhrases(d.order, kt)[i] == w && ValuePhrases(d.order, d.m, vt)[i] == [v]
  {
    ExtendAllSingles(t, KeyPhrases(d.order, kt), ValuePhrases(d.order, d.m, vt), w, v);
  }

  /** Emitting only ever appends a list of one phrase. */
  lemma EmitShape(t: ObsTable, d: Groups, kt: seq<string>, vt: seq<string>)
    requires Valid(d) && Shaped(d, |kt|, |vt|)
    requires NoEmptyLists(t)
    ensures NoEmptyLists(Emit(t, d, kt, vt))
  {
    ExtendAllShape(t, KeyPhrases(d.order, kt), ValuePhrases(d.order, d.m, vt));
  }

  method EmitGroups(t: ObsTable, d: Groups, kt: seq<string>, vt: seq<string>) returns (t': ObsTable)
    requires Valid(d) && Shaped(d, |kt|, |vt|)
    ensures t' == Emit(t, d, kt, vt)
  {
    ghost var ks := KeyPhrases(d.order, kt);
    ghost var vs := ValuePhrases(d.order, d.m, vt);
    t' := t;
    for j := 0 to |d.order|
      invariant t' == ExtendAll(t, ks[..j], vs[..j])
    {
      ExtendAllSnoc(t, ks, vs, j);
      var g := d.order[j];
      var k := Surface(g, kt);
      var v := Surface(d.m[g], vt);
      t' := Extend(t', Join(RemovePunctPhrases(k), " "), [Join(RemovePunctPhrases(v), " ")]);
    }
    TakeAll(ks);
    TakeAll(vs);
  }

  /** The new keys of a pass's renames index the tokens the pass fills
      from. */
  lemma PassRenamesIn(d: Groups, toks: seq<string>)
    requires Valid(d) && ValuesIn(d, |toks|)
    ensures var rs := PassRenames(d, toks);
      forall j :: 0 <= j < |rs| ==> SlotsIn(rs[j].1, |toks|)
  {
    var vs := GroupsOf(d);
    var fs := Fillings(vs, toks);
    var rs := Renames(vs, fs);
    RenamesGrown(vs, fs);
    forall j | 0 <= j < |rs|
      ensures SlotsIn(rs[j].1, |toks|)
    {
      assert rs[j] in GrownPairs(vs, fs);
      var i :| 0 <= i < |vs| && |fs[i]| != |vs[i]| && rs[j] == (vs[i], fs[i]);
      FilledSpec(vs[i], toks);
    }
  }

  // ---------------------------------------------------------------------
  // One sentence

  /** The two grouped tables of a sentence after the symmetry step and
      both gap passes: source groups to target groups, and target groups
      to source groups. Every value has its gaps marked, which is what
      the two passes are for. */
  function Grouped(s: SentencePair): (r: (Groups, Groups))
    requires WellFormed(s)
    ensures Valid(r.0) && Valid(r.1)
    ensures Shaped(r.0, |Tokens(s, Source)|, |Tokens(s, Target)|)
    ensures Shaped(r.1, |Tokens(s, Target)|, |Tokens(s, Source)|)
    ensures ValuesMarked(r.0, Tokens(s, Target)) && ValuesMarked(r.1, Tokens(s, Source))
  {
    var src, tgt := Tokens(s, Source), Tokens(s, Target);
    var r1, r2 := Partners(s.pairs, Source), Partners(s.pairs, Target);
    PartnersRange(s.pairs, Source, |src|, |tgt|);
    PartnersRange(s.pairs, Target, |tgt|, |src|);
    var g1, g2 := Regroup(r2.order, r2.m), Regroup(r1.order, r1.m);
    RegroupShaped(r2.order, r2.m, |src|, |tgt|);
    RegroupShaped(r1.order, r1.m, |tgt|, |src|);
    var (h1, h2) := Symmetrize(g1, g2);
    DeleteAllShaped(g1, FirstOf(SourceErrors(g1, g2)), |src|, |tgt|);
    DeleteAllShaped(g2, SecondOf(TargetErrors(g1, g2)), |tgt|, |src|);
    var e1 := FillAll(h1, tgt);
    FillAllSpec(h1, |src|, tgt);
    PassRenamesIn(h1, tgt);
    var e2 := RenameAll(h2, PassRenames(h1, tgt));
    RenameAllShaped(h2, PassRenames(h1, tgt), |tgt|, |src|, src);
    var f2 := FillAll(e2, src);
    FillAllSpec(e2, |tgt|, src);
    PassRenamesIn(e2, src);
    var f1 := RenameAll(e1, PassRenames(e2, src));
    RenameAllShaped(e1, PassRenames(e2, src), |src|, |tgt|, tgt);
    (f1, f2)
  }

  /** The grouped table whose keys are groups of `side`. */
  function GroupsFor(s: SentencePair, side: Side): (g: Groups)
    requires WellFormed(s)
    ensures Valid(g) && Shaped(g, |Tokens(s, side)|, |Tokens(s, Flip(side))|)
    ensures ValuesMarked(g, Tokens(s, Flip(side)))
  {
    if side == Source then Grouped(s).0 else Grouped(s).1
  }

  /** The keys one sentence appends to the table of `side`, in order:
      each unaligned word, then each group's key phrase. */
  function SentenceKeys(s: SentencePair, side: Side): (ks: seq<string>)
    requires WellFormed(s)
    ensures |ks| == |Unaligned(|Tokens(s, side)|, s.pairs, side)| + |GroupsFor(s, side).order|
  {
    var toks := Tokens(s, side);
    WordsAt(toks, Unaligned(|toks|, s.pairs, side)) + KeyPhrases(GroupsFor(s, side).order, toks)
  }

  /** What it appends to each: `""`, then each group's value phrase. */
  function SentenceValues(s: SentencePair, side: Side): (vs: seq<seq<string>>)
    requires WellFormed(s)
    ensures |vs| == |SentenceKeys(s, side)|
  {
    var toks := Tokens(s, side);
    var g := GroupsFor(s, side);
    Blanks(|Unaligned(|toks|, s.pairs, side)|) + ValuePhrases(g.order, g.m, Tokens(s, Flip(side)))
  }

  /** Both tables after one sentence. */
  function SentenceTables(t1: ObsTable, t2: ObsTable, s: SentencePair): (ObsTable, ObsTable)
    requires WellFormed(s)
  {
    (ExtendAll(t1, SentenceKeys(s, Source), SentenceValues(s, Source)),
     ExtendAll(t2, SentenceKeys(s, Target), SentenceValues(s, Target)))
  }

  /** The per-sentence body of the loop, step by step: the `""` appends
      of both sides come first, then the two emission loops. */
  method ParseSentenceWords(t1: ObsTable, t2: ObsTable, s: SentencePair) returns (u1: ObsTable, u2: ObsTable)
    requires WellFormed(s)
    ensures (u1, u2) == SentenceTables(t1, t2, s)
  {
    var src, tgt := Tokens(s, Source), Tokens(s, Target);
    var missing1 := MissingIndices(|src|, s.pairs, Source);
    var missing2 := MissingIndices(|tgt|, s.pairs, Target);
    u1 := AppendBlanks(t1, src, missing1);
    u2 := AppendBlanks(t2, tgt, missing2);
    var f1, f2 := GroupSentence(s);
    u1 := EmitGroups(u1, f1, src, tgt);
    u2 := EmitGroups(u2, f2, tgt, src);
    ExtendAllConcat(t1, WordsAt(src, missing1), KeyPhrases(f1.order, src), Blanks(|missing1|), ValuePhrases(f1.order, f1.m, tgt));
    ExtendAllConcat(t2, WordsAt(tgt, missing2), KeyPhrases(f2.order, tgt), Blanks(|missing2|), ValuePhrases(f2.order, f2.m, src));
  }

  /** The grouping, symmetry and gap steps of one sentence. */
  method GroupSentence(s: SentencePair) returns (f1: Groups, f2: Groups)
    requires WellFormed(s)
    ensures (f1, f2) == Grouped(s)
  {
    var src, tgt := Tokens(s, Source), Tokens(s, Target);
    var r1, r2 := GroupPairs(s.pairs);
    var g1 := RegroupPartners(r2);
    var g2 := RegroupPartners(r1);
    PartnersRange(s.pairs, Source, |src|, |tgt|);
    PartnersRange(s.pairs, Target, |tgt|, |src|);
    RegroupShaped(r2.order, r2.m, |src|, |tgt|);
    RegroupShaped(r1.order, r1.m, |tgt|, |src|);
    DeleteAllShaped(g1, FirstOf(SourceErrors(g1, g2)), |src|, |tgt|);
    DeleteAllShaped(g2, SecondOf(TargetErrors(g1, g2)), |tgt|, |src|);
    var h1, h2 := SymmetrizeGroups(g1, g2);
    var e1, e2 := GapPass(h1, h2, tgt);
    FillAllSpec(h1, |src|, tgt);
    PassRenamesIn(h1, tgt);
    RenameAllShaped(h2, PassRenames(h1, tgt), |tgt|, |src|, src);
    f2, f1 := GapPass(e2, e1, src);
  }

  /** A word that no pair aligns is appended `""` by its sentence. */
  lemma SentenceUnaligned(s: SentencePair, side: Side, i: nat)
    requires WellFormed(s)
    requires i < |Tokens(s, side)|
    requires forall k :: 0 <= k < |s.pairs| ==> IndexOn(s.pairs[k], side) != i
    ensures RunHas(SentenceKeys(s, side), SentenceValues(s, side), Tokens(s, side)[i], "")
  {
    var toks := Tokens(s, side);
    var miss := Unaligned(|toks|, s.pairs, side);
    UnalignedSpec(|toks|, s.pairs, side, i);
    var j :| 0 <= j < |miss| && miss[j] == i;
    SentenceAt(s, side, j);
  }

  /** The `j`-th append of a sentence: a blank under an unaligned word,
      then a group's value phrase under its key phrase. */
  lemma SentenceAt(s: SentencePair, side: Side, j: nat)
    requires WellFormed(s) && j < |SentenceKeys(s, side)|
    ensures var toks := Tokens(s, side);
      var miss := Unaligned(|toks|, s.pairs, side);
      var g := GroupsFor(s, side);
      && (j < |miss| ==> SentenceKeys(s, side)[j] == toks[miss[j]] && SentenceValues(s, side)[j] == [""])
      && (j >= |miss| ==> (j - |miss| < |g.order|
            && SentenceKeys(s, side)[j] == KeyPhrases(g.order, toks)[j - |miss|]
            && SentenceValues(s, side)[j] == ValuePhrases(g.order, g.m, Tokens(s, Flip(side)))[j - |miss|]))
  {
    var toks := Tokens(s, side);
    var miss := Unaligned(|toks|, s.pairs, side);
    var g := GroupsFor(s, side);
    ConcatAt(WordsAt(toks, miss), KeyPhrases(g.order, toks), j);
    ConcatAt(Blanks(|miss|), ValuePhrases(g.order, g.m, Tokens(s, Flip(side))), j);
  }

  /** Emitting a table of groups after any run of appends puts each
      group's value phrase under its key phrase. */
  lemma EmittedGroup(ws: seq<string>, bs: seq<seq<string>>, g: Groups, toks: seq<string>, other: seq<string>, k: Group)
    requires |ws| == |bs| && Valid(g) && Shaped(g, |toks|, |other|) && k in g.m
    ensures RunHas(ws + KeyPhrases(g.order, toks), bs + ValuePhrases(g.order, g.m, other), Phrase(k, toks), Phrase(g.m[k], other))
  {
    var i :| 0 <= i < |g.order| && g.order[i] == k;
    var kp, vp := KeyPhrases(g.order, toks), ValuePhrases(g.order, g.m, other);
    assert vp[i] == [Phrase(g.m[k], other)];
    RunHasSuffix(ws, bs, kp, vp, i, Phrase(g.m[k], other));
  }

  /** Every group of a sentence is appended: its value phrase under its
      key phrase. */
  lemma SentenceGroupObserved(s: SentencePair, side: Side, k: Group)
    requires WellFormed(s)
    requires k in GroupsFor(s, side).m
    ensures RunHas(SentenceKeys(s, side), SentenceValues(s, side),
      Phrase(k, Tokens(s, side)), Phrase(GroupsFor(s, side).m[k], Tokens(s, Flip(side))))
  {
    var toks := Tokens(s, side);
    var miss := Unaligned(|toks|, s.pairs, side);
    EmittedGroup(WordsAt(toks, miss), Blanks(|miss|), GroupsFor(s, side), toks, Tokens(s, Flip(side)), k);
  }

  /** What a sentence appends, and nothing else, is `""` under an
      unaligned word or a group's value phrase under its key phrase. */
  lemma SentenceAppends(s: SentencePair, side: Side, j: nat)
    requires WellFormed(s) && j < |SentenceKeys(s, side)|
    ensures var toks := Tokens(s, side);
      var g := GroupsFor(s, side);
      || (SentenceValues(s, side)[j] == [""] &&
          exists i :: 0 <= i < |toks| && SentenceKeys(s, side)[j] == toks[i] &&
            forall k :: 0 <= k < |s.pairs| ==> IndexOn(s.pairs[k], side) != i)
      || (exists k :: k in g.m && SentenceKeys(s, side)[j] == Phrase(k, toks) &&
            SentenceValues(s, side)[j] == [Phrase(g.m[k], Tokens(s, Flip(side)))])
  {
    if j < |Unaligned(|Tokens(s, side)|, s.pairs, side)| {
      SentenceAppendsBlank(s, side, j);
    } else {
      SentenceAppendsGroup(s, side, j);
    }
  }

  lemma SentenceAppendsBlank(s: SentencePair, side: Side, j: nat)
    requires WellFormed(s) && j < |Unaligned(|Tokens(s, side)|, s.pairs, side)|
    ensures |SentenceKeys(s, side)| > j
    ensures SentenceValues(s, side)[j] == [""]
    ensures exists i :: (0 <= i < |Tokens(s, side)| && SentenceKeys(s, side)[j] == Tokens(s, side)[i] &&
      forall k :: 0 <= k < |s.pairs| ==> IndexOn(s.pairs[k], side) != i)
  {
    var toks := Tokens(s, side);
    var miss := Unaligned(|toks|, s.pairs, side);
    SentenceAt(s, side, j);
    var i := miss[j];
    UnalignedSpec(|toks|, s.pairs, side, i);
    assert i < |toks| && SentenceKeys(s, side)[j] == toks[i];
  }

  lemma SentenceAppendsGroup(s: SentencePair, side: Side, j: nat)
    requires WellFormed(s) && |Unaligned(|Tokens(s, side)|, s.pairs, side)| <= j < |SentenceKeys(s, side)|
    ensures var g := GroupsFor(s, side);
      exists k :: k in g.m && SentenceKeys(s, side)[j] == Phrase(k, Tokens(s, side)) &&
        SentenceValues(s, side)[j] == [Phrase(g.m[k], Tokens(s, Flip(side)))]
  {
    var toks := Tokens(s, side);
    var g := GroupsFor(s, side);
    var miss := Unaligned(|toks|, s.pairs, side);
    SentenceAt(s, side, j);
    var k := g.order[j - |miss|];
    assert k in g.m;
    assert SentenceKeys(s, side)[j] == Phrase(k, toks);
    assert SentenceValues(s, side)[j] == [Phrase(g.m[k], Tokens(s, Flip(side)))];
  }

  // ---------------------------------------------------------------------
  // The corpus

  /** The run of keys each sentence appends to the table of `side`; the
      tables are only built from well-formed sentences, so the other case
      never arises. */
  function KeysOf(side: Side): SentencePair -> seq<string> {
    s => if WellFormed(s) then SentenceKeys(s, side) else []
  }

  function ValuesOf(side: Side): (f: SentencePair -> seq<seq<string>>)
    ensures forall s :: |f(s)| == |KeysOf(side)(s)|
  {
    s => if WellFormed(s) then SentenceValues(s, side) else []
  }

  /** `parse_word_alignments`: the table of one side after every sentence
      in turn, from an empty table. */
  function WordTable(corpus: seq<SentencePair>, side: Side): ObsTable
    requires AllWellFormed(corpus)
  {
    Accumulate(map[], corpus, KeysOf(side), ValuesOf(side))
  }

  method ParseWordAlignments(corpus: seq<SentencePair>) returns (t1: ObsTable, t2: ObsTable)
    requires AllWellFormed(corpus)
    ensures t1 == WordTable(corpus, Source) && t2 == WordTable(corpus, Target)
  {
    t1, t2 := map[], map[];
    for n := 0 to |corpus|
      invariant t1 == Accumulate(map[], corpus[..n], KeysOf(Source), ValuesOf(Source))
      invariant t2 == Accumulate(map[], corpus[..n], KeysOf(Target), ValuesOf(Target))
    {
      AccumulateSnoc(map[], corpus, KeysOf(Source), ValuesOf(Source), n);
      AccumulateSnoc(map[], corpus, KeysOf(Target), ValuesOf(Target), n);
      t1, t2 := ParseSentenceWords(t1, t2, corpus[n]);
    }
    assert corpus[..|corpus|] == corpus;
  }

  /** Every key of the table holds at least one observation. */
  lemma WordTableShape(corpus: seq<SentencePair>, side: Side)
    requires AllWellFormed(corpus)
    ensures NoEmptyLists(WordTable(corpus, side))
  {
    AccumulateShape(map[], corpus, KeysOf(side), ValuesOf(side));
  }

  /** What the table holds under `w` is exactly what the sentences
      appended to it. */
  lemma WordTableMembers(corpus: seq<SentencePair>, side: Side, w: string, v: string)
    requires AllWellFormed(corpus)
    ensures v in Get(WordTable(corpus, side), w) <==>
      exists n :: 0 <= n < |corpus| && RunHas(SentenceKeys(corpus[n], side), SentenceValues(corpus[n], side), w, v)
  {
    AccumulateMembers(map[], corpus, KeysOf(side), ValuesOf(side), w, v);
    assert forall n :: 0 <= n < |corpus| ==>
      KeysOf(side)(corpus[n]) == SentenceKeys(corpus[n], side) && ValuesOf(side)(corpus[n]) == SentenceValues(corpus[n], side);
  }

  /** A word left unaligned in some sentence observes `""`. */
  lemma WordTableUnaligned(corpus: seq<SentencePair>, n: nat, side: Side, i: nat)
    requires AllWellFormed(corpus)
    requires n < |corpus| && i < |Tokens(corpus[n], side)|
    requires forall k :: 0 <= k < |corpus[n].pairs| ==> IndexOn(corpus[n].pairs[k], side) != i
    ensures "" in Get(WordTable(corpus, side), Tokens(corpus[n], side)[i])
  {
    SentenceUnaligned(corpus[n], side, i);
    WordTableMembers(corpus, side, Tokens(corpus[n], side)[i], "");
  }

  /** Every group of every sentence is observed: its value phrase under
      its key phrase. */
  lemma WordTableGroups(corpus: seq<SentencePair>, n: nat, side: Side, k: Group)
    requires AllWellFormed(corpus) && n < |corpus|
    requires k in GroupsFor(corpus[n], side).m
    ensures Phrase(GroupsFor(corpus[n], side).m[k], Tokens(corpus[n], Flip(side))) in
      Get(WordTable(corpus, side), Phrase(k, Tokens(corpus[n], side)))
  {
    SentenceGroupObserved(corpus[n], side, k);
    WordTableMembers(corpus, side, Phrase(k, Tokens(corpus[n], side)),
      Phrase(GroupsFor(corpus[n], side).m[k], Tokens(corpus[n], Flip(side))));
  }
}
