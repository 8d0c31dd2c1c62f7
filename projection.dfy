/** Projecting a span of one side onto the other side of a sentence pair:
    the indices aligned to the span are deduplicated, sorted, and gaps
    between them are marked with `","` or `"..."`; the indices are then
    replaced by their tokens and the phrase is tidied up. This is the
    common core of the contiguous and the discontinuous phrase routines;
    the gap rule is shared with the word-level routine. */
module Projection {
  import opened Text
  import opened Filtering
  import opened Corpus
  import Tables

  /** An entry of a projected phrase: a token index, or a placeholder
      (`","` or `"..."`) inserted into a gap. */
  datatype Slot = Pos(i: nat) | Mark(text: string)

  predicate Distinct(xs: seq<nat>) {
    forall i, j :: 0 <= i < j < |xs| ==> xs[i] != xs[j]
  }

  predicate Sorted(xs: seq<nat>) {
    forall i, j :: 0 <= i < j < |xs| ==> xs[i] <= xs[j]
  }

  predicate StrictlySorted(xs: seq<nat>) {
    forall i, j :: 0 <= i < j < |xs| ==> xs[i] < xs[j]
  }

  predicate InRange(xs: seq<nat>, n: nat) {
    forall k :: 0 <= k < |xs| ==> xs[k] < n
  }

  // ---------------------------------------------------------------------
  // pd.unique and list.sort

  /** `pd.unique(xs)`: the first occurrence of each value, in order. */
  function Dedup(xs: seq<nat>): (r: seq<nat>)
    ensures forall x :: x in r <==> x in xs
    ensures Distinct(r)
    ensures |r| <= |xs|
  {
    if xs == [] then []
    else
      var r := Dedup(xs[..|xs| - 1]);
      var x := xs[|xs| - 1];
      assert xs == xs[..|xs| - 1] + [x];
      if x in r then r else r + [x]
  }

  /** A list without repetitions comes out of `Dedup` unchanged: the
      order is that of the input. */
  lemma {:induction false} DedupOfDistinct(xs: seq<nat>)
    requires Distinct(xs)
    ensures Dedup(xs) == xs
  {
    if xs != [] {
      var init := xs[..|xs| - 1];
      assert Distinct(init);
      DedupOfDistinct(init);
      assert xs[|xs| - 1] !in init;
      assert xs == init + [xs[|xs| - 1]];
    }
  }

  lemma {:induction false} DedupConstant(xs: seq<nat>, x: nat)
    requires xs != [] && forall k :: 0 <= k < |xs| ==> xs[k] == x
    ensures Dedup(xs) == [x]
  {
    if |xs| > 1 {
      DedupConstant(xs[..|xs| - 1], x);
    }
  }

  function InsertSorted(x: nat, s: seq<nat>): (r: seq<nat>)
    requires Sorted(s)
    ensures Sorted(r)
    ensures multiset(r) == multiset(s) + multiset{x}
  {
    if s == [] || x <= s[0] then [x] + s
    else
      assert s == [s[0]] + s[1..];
      var r := InsertSorted(x, s[1..]);
      InsertedAbove(s, x, r);
      SortedCons(s[0], r);
      [s[0]] + r
  }

  /** Every entry of `r`, the tail with `x` inserted, is at least the head. */
  lemma InsertedAbove(s: seq<nat>, x: nat, r: seq<nat>)
    requires Sorted(s) && s != [] && s[0] < x
    requires multiset(r) == multiset(s[1..]) + multiset{x}
    ensures forall k :: 0 <= k < |r| ==> s[0] <= r[k]
  {
    forall k | 0 <= k < |r|
      ensures s[0] <= r[k]
    {
      assert r[k] in multiset(r);
      if r[k] != x {
        assert r[k] in multiset(s[1..]);
        var i :| 0 <= i < |s[1..]| && s[1..][i] == r[k];
        assert s[i + 1] == r[k];
      }
    }
  }

  lemma SortedCons(h: nat, r: seq<nat>)
    requires Sorted(r) && forall k :: 0 <= k < |r| ==> h <= r[k]
    ensures Sorted([h] + r)
  {
  }

  /** `xs.sort()` on a list of integers. */
  function Sort(xs: seq<nat>): (r: seq<nat>)
    ensures Sorted(r)
    ensures multiset(r) == multiset(xs)
  {
    if xs == [] then []
    else
      assert xs == [xs[0]] + xs[1..];
      InsertSorted(xs[0], Sort(xs[1..]))
  }

  lemma DistinctMultiplicity(xs: seq<nat>)
    ensures Distinct(xs) <==> forall x :: multiset(xs)[x] <= 1
  {
    if Distinct(xs) {
      forall x
        ensures multiset(xs)[x] <= 1
      {
        DistinctCountsOnce(xs, x);
      }
    }
    if !Distinct(xs) {
      var i, j :| 0 <= i < j < |xs| && xs[i] == xs[j];
      var x := xs[i];
      assert xs == xs[..j] + [x] + xs[j + 1..];
      assert x in xs[..j];
      assert multiset(xs)[x] == multiset(xs[..j])[x] + 1 + multiset(xs[j + 1..])[x];
    }
  }

  lemma {:induction false} DistinctCountsOnce(xs: seq<nat>, x: nat)
    requires Distinct(xs)
    ensures multiset(xs)[x] <= 1
  {
    if xs != [] {
      var init := xs[..|xs| - 1];
      assert Distinct(init);
      DistinctCountsOnce(init, x);
      assert xs == init + [xs[|xs| - 1]];
      if xs[|xs| - 1] == x {
        assert x !in init;
      }
    }
  }

  /** Sorting a list without repetitions gives a strictly increasing one
      with the same values. */
  lemma SortDistinct(xs: seq<nat>)
    requires Distinct(xs)
    ensures StrictlySorted(Sort(xs))
    ensures forall x :: x in Sort(xs) <==> x in xs
  {
    var r := Sort(xs);
    DistinctMultiplicity(xs);
    DistinctMultiplicity(r);
    forall x
      ensures x in r <==> x in xs
    {
      assert x in r <==> x in multiset(r);
      assert x in xs <==> x in multiset(xs);
    }
  }

  // ---------------------------------------------------------------------
  // The gap rule

  function Dist(a: nat, b: nat): nat {
    if a < b then b - a else a - b
  }

  /** The placeholder for a gap of 2 or more: `","` when the one token
      skipped is a comma, `"..."` otherwise. */
  function GapText(a: nat, b: nat, toks: seq<string>): string
    requires a < |toks| && b < |toks|
    requires Dist(a, b) >= 2
  {
    var lo := if a < b then a else b;
    if Dist(a, b) == 2 && toks[lo + 1] == "," then "," else Ellipsis
  }

  /** What goes between two adjacent indices: nothing for neighbours (or
      equal indices), one placeholder otherwise. */
  function Between(a: nat, b: nat, toks: seq<string>): (m: seq<Slot>)
    requires a < |toks| && b < |toks|
  {
    if Dist(a, b) >= 2 then [Mark(GapText(a, b, toks))] else []
  }

  function AsSlots(xs: seq<nat>): (r: seq<Slot>)
    ensures |r| == |xs|
    ensures forall k :: 0 <= k < |xs| ==> r[k] == Pos(xs[k])
  {
    seq(|xs|, k requires 0 <= k < |xs| => Pos(xs[k]))
  }

  /** The indices with a placeholder between every two adjacent ones
      that are two or more apart. */
  function FillGaps(xs: seq<nat>, toks: seq<string>): (r: seq<Slot>)
    requires InRange(xs, |toks|)
    ensures |r| >= |xs|
    ensures xs != [] ==> r != [] && r[|r| - 1] == Pos(xs[|xs| - 1])
  {
    if |xs| <= 1 then AsSlots(xs)
    else
      var init := xs[..|xs| - 1];
      FillGaps(init, toks) + Between(xs[|xs| - 2], xs[|xs| - 1], toks) + [Pos(xs[|xs| - 1])]
  }

  /** The token indices of a projected phrase, placeholders skipped. */
  function Indices(r: seq<Slot>): seq<nat> {
    if r == [] then []
    else Indices(r[..|r| - 1]) + (if r[|r| - 1].Pos? then [r[|r| - 1].i] else [])
  }

  lemma IndicesSnoc(r: seq<Slot>, x: Slot)
    ensures Indices(r + [x]) == Indices(r) + (if x.Pos? then [x.i] else [])
  {
    assert (r + [x])[..|r|] == r;
  }

  /** Placeholders only ever separate indices: dropping them gives back
      the list that went in. */
  lemma {:induction false} FillGapsIndices(xs: seq<nat>, toks: seq<string>)
    requires InRange(xs, |toks|)
    ensures Indices(FillGaps(xs, toks)) == xs
  {
    if |xs| == 1 {
      IndicesSnoc([], Pos(xs[0]));
      assert [] + [Pos(xs[0])] == AsSlots(xs);
    } else if |xs| > 1 {
      var init := xs[..|xs| - 1];
      var a, b := xs[|xs| - 2], xs[|xs| - 1];
      assert xs == init + [b];
      var f := FillGaps(init, toks);
      FillGapsIndices(init, toks);
      FillGapsStep(xs, toks);
      var g := f + Between(a, b, toks);
      if Dist(a, b) >= 2 {
        IndicesSnoc(f, Mark(GapText(a, b, toks)));
      } else {
        assert g == f;
      }
      assert Indices(g) == init;
      IndicesSnoc(g, Pos(b));
      assert Indices(g + [Pos(b)]) == init + [b];
      assert FillGaps(xs, toks) == g + [Pos(b)];
    }
  }

  /** Every placeholder sits between two indices two or more apart and
      carries the text the gap rule gives for them. */
  predicate MarksPlaced(r: seq<Slot>, toks: seq<string>) {
    forall p :: 0 <= p < |r| ==> MarkPlacedAt(r, toks, p)
  }

  /** The slot at `p`, if a placeholder, sits where the gap rule puts it. */
  predicate MarkPlacedAt(r: seq<Slot>, toks: seq<string>, p: nat)
    requires p < |r|
  {
    r[p].Mark? ==>
      && 0 < p < |r| - 1 && r[p - 1].Pos? && r[p + 1].Pos?
      && r[p - 1].i < |toks| && r[p + 1].i < |toks|
      && Dist(r[p - 1].i, r[p + 1].i) >= 2
      && r[p].text == GapText(r[p - 1].i, r[p + 1].i, toks)
  }

  /** Two adjacent indices are never two or more apart. */
  predicate NoUnmarkedGap(r: seq<Slot>) {
    forall p :: 0 <= p < |r| - 1 && r[p].Pos? && r[p + 1].Pos? ==> Dist(r[p].i, r[p + 1].i) < 2
  }

  /** The placeholders are exactly where the gap rule puts them. */
  predicate GapsMarked(r: seq<Slot>, toks: seq<string>) {
    && (forall p :: 0 <= p < |r| && r[p].Pos? ==> r[p].i < |toks|)
    && MarksPlaced(r, toks)
    && NoUnmarkedGap(r)
  }

  lemma FillGapsStep(xs: seq<nat>, toks: seq<string>)
    requires |xs| > 1 && InRange(xs, |toks|)
    ensures var f := FillGaps(xs[..|xs| - 1], toks);
      && FillGaps(xs, toks) == f + Between(xs[|xs| - 2], xs[|xs| - 1], toks) + [Pos(xs[|xs| - 1])]
      && f != [] && f[|f| - 1] == Pos(xs[|xs| - 2])
  {
  }

  lemma {:induction false} FillGapsMarksPlaced(xs: seq<nat>, toks: seq<string>)
    requires InRange(xs, |toks|)
    ensures MarksPlaced(FillGaps(xs, toks), toks)
  {
    if |xs| > 1 {
      var init := xs[..|xs| - 1];
      var a, b := xs[|xs| - 2], xs[|xs| - 1];
      FillGapsMarksPlaced(init, toks);
      FillGapsStep(xs, toks);
      var f := FillGaps(init, toks);
      var m := Between(a, b, toks);
      var r := FillGaps(xs, toks);
      forall p | 0 <= p < |r|
        ensures MarkPlacedAt(r, toks, p)
      {
        if p < |f| {
          assert r[p] == f[p];
          if r[p].Mark? {
            assert MarkPlacedAt(f, toks, p);
            assert r[p - 1] == f[p - 1] && r[p + 1] == f[p + 1];
          }
        } else if p == |f| && m != [] {
          assert r[p - 1] == Pos(a) && r[p + 1] == Pos(b);
        } else {
          assert r[p] == Pos(b);
        }
      }
    } else if |xs| == 1 {
      assert FillGaps(xs, toks) == [Pos(xs[0])];
    }
  }

  lemma {:induction false} FillGapsNoUnmarkedGap(xs: seq<nat>, toks: seq<string>)
    requires InRange(xs, |toks|)
    ensures NoUnmarkedGap(FillGaps(xs, toks))
  {
    if |xs| > 1 {
      var init := xs[..|xs| - 1];
      var a, b := xs[|xs| - 2], xs[|xs| - 1];
      FillGapsNoUnmarkedGap(init, toks);
      FillGapsStep(xs, toks);
      var f := FillGaps(init, toks);
      var m := Between(a, b, toks);
      var r := FillGaps(xs, toks);
      forall p | 0 <= p < |r| - 1 && r[p].Pos? && r[p + 1].Pos?
        ensures Dist(r[p].i, r[p + 1].i) < 2
      {
        if p < |f| - 1 {
          assert r[p] == f[p] && r[p + 1] == f[p + 1];
        } else if p == |f| - 1 {
          assert r[p] == Pos(a);
          assert r[|f|..] == m + [Pos(b)];
        } else {
          assert false;
        }
      }
    } else if |xs| == 1 {
      assert FillGaps(xs, toks) == [Pos(xs[0])];
    }
  }

  lemma FillGapsMarked(xs: seq<nat>, toks: seq<string>)
    requires InRange(xs, |toks|)
    ensures GapsMarked(FillGaps(xs, toks), toks)
  {
    FillGapsMarksPlaced(xs, toks);
    FillGapsNoUnmarkedGap(xs, toks);
    FillGapsIndices(xs, toks);
    IndicesInRange(FillGaps(xs, toks), |toks|);
  }

  /** A slot is an index exactly when its value is among the indices. */
  lemma {:induction false} IndicesInRange(r: seq<Slot>, n: nat)
    requires InRange(Indices(r), n)
    ensures forall p :: 0 <= p < |r| && r[p].Pos? ==> r[p].i < n
  {
    if r != [] {
      var init := r[..|r| - 1];
      var ind := Indices(init);
      assert Indices(r) == ind + (if r[|r| - 1].Pos? then [r[|r| - 1].i] else []);
      assert InRange(ind, n) by {
        forall k | 0 <= k < |ind|
          ensures ind[k] < n
        {
          assert Indices(r)[k] == ind[k];
        }
      }
      IndicesInRange(init, n);
      forall p | 0 <= p < |r| && r[p].Pos?
        ensures r[p].i < n
      {
        if p < |r| - 1 {
          assert r[p] == init[p];
        } else {
          assert Indices(r)[|ind|] == r[p].i;
        }
      }
    }
  }

  /** Two placeholders are never adjacent. */
  lemma NoAdjacentMarks(r: seq<Slot>, toks: seq<string>, p: nat)
    requires GapsMarked(r, toks)
    requires p + 1 < |r|
    ensures !(r[p].Mark? && r[p + 1].Mark?)
  {
    assert MarkPlacedAt(r, toks, p);
  }

  // ---------------------------------------------------------------------
  // The placeholder loop of the phrase routines

  lemma FillGapsPrefixStep(xs: seq<nat>, toks: seq<string>, j: nat)
    requires InRange(xs, |toks|) && j + 1 < |xs|
    ensures var f := FillGaps(xs[..j + 1], toks);
      && FillGaps(xs[..j + 2], toks) == f + Between(xs[j], xs[j + 1], toks) + [Pos(xs[j + 1])]
      && f[|f| - 1] == Pos(xs[j])
  {
    var ys := xs[..j + 2];
    assert ys[..|ys| - 1] == xs[..j + 1];
    FillGapsStep(ys, toks);
  }

  lemma AsSlotsSplit(xs: seq<nat>, j: nat)
    requires j + 1 < |xs|
    ensures AsSlots(xs[j + 1..]) == [Pos(xs[j + 1])] + AsSlots(xs[j + 2..])
  {
  }

  /** Where the walk of `InsertGaps` stands: the first `j + 1` indices
      have their gaps filled and the rest are untouched; `pos` is on the
      last index filled, or on the placeholder just before it. */
  ghost predicate Walked(xs: seq<nat>, toks: seq<string>, phrase: seq<Slot>, pos: int, j: nat, atMark: bool)
    requires InRange(xs, |toks|)
  {
    && j < |xs|
    && 0 <= pos < |phrase|
    && phrase == FillGaps(xs[..j + 1], toks) + AsSlots(xs[j + 1..])
    && (!atMark ==> pos == |FillGaps(xs[..j + 1], toks)| - 1 && phrase[pos] == Pos(xs[j]))
    && (atMark ==> pos == |FillGaps(xs[..j + 1], toks)| - 2 && phrase[pos].Mark?)
  }

  lemma WalkStart(xs: seq<nat>, toks: seq<string>)
    requires InRange(xs, |toks|) && xs != []
    ensures Walked(xs, toks, AsSlots(xs), 0, 0, false)
  {
    assert xs[..1] == [xs[0]];
    assert FillGaps(xs[..1], toks) == [Pos(xs[0])];
    assert AsSlots(xs) == [Pos(xs[0])] + AsSlots(xs[1..]);
  }

  lemma WalkEnd(xs: seq<nat>, toks: seq<string>, phrase: seq<Slot>, pos: int, j: nat, atMark: bool)
    requires InRange(xs, |toks|)
    requires Walked(xs, toks, phrase, pos, j, atMark)
    requires pos >= |phrase| - 1
    ensures phrase == FillGaps(xs, toks)
  {
    assert !atMark;
    assert xs[..j + 1] == xs;
  }

  /** Facts about the two entries the walk compares. */
  lemma WalkLook(xs: seq<nat>, toks: seq<string>, phrase: seq<Slot>, pos: int, j: nat, atMark: bool)
    requires InRange(xs, |toks|)
    requires Walked(xs, toks, phrase, pos, j, atMark)
    requires StrictlySorted(xs)
    requires pos < |phrase| - 1
    ensures !atMark ==> j + 1 < |xs| && phrase[pos] == Pos(xs[j]) && phrase[pos + 1] == Pos(xs[j + 1])
    ensures !atMark ==> xs[j] < xs[j + 1] < |toks|
    ensures atMark ==> phrase[pos].Mark?
  {
    if !atMark {
      var f := FillGaps(xs[..j + 1], toks);
      assert phrase[|f|..] == AsSlots(xs[j + 1..]);
    }
  }

  /** The same facts for a list in any order. */
  lemma WalkLookAnyOrder(xs: seq<nat>, toks: seq<string>, phrase: seq<Slot>, pos: int, j: nat, atMark: bool)
    requires InRange(xs, |toks|)
    requires Walked(xs, toks, phrase, pos, j, atMark)
    requires pos < |phrase| - 1
    ensures !atMark ==> j + 1 < |xs| && phrase[pos] == Pos(xs[j]) && phrase[pos + 1] == Pos(xs[j + 1])
    ensures !atMark ==> xs[j] < |toks| && xs[j + 1] < |toks|
    ensures atMark ==> phrase[pos].Mark?
  {
    if !atMark {
      var f := FillGaps(xs[..j + 1], toks);
      assert phrase[|f|..] == AsSlots(xs[j + 1..]);
    }
  }

  /** The walk steps over a placeholder. */
  lemma WalkSkip(xs: seq<nat>, toks: seq<string>, phrase: seq<Slot>, pos: int, j: nat)
    requires InRange(xs, |toks|)
    requires Walked(xs, toks, phrase, pos, j, true)
    ensures Walked(xs, toks, phrase, pos + 1, j, false)
  {
    FillGapsPrefixEnds(xs, toks, j);
  }

  lemma FillGapsPrefixEnds(xs: seq<nat>, toks: seq<string>, j: nat)
    requires InRange(xs, |toks|) && j < |xs|
    ensures var f := FillGaps(xs[..j + 1], toks); f[|f| - 1] == Pos(xs[j])
  {
  }

  /** The walk fills the gap after index `j` with `m`, which is what the
      gap rule puts there. */
  lemma WalkFill(xs: seq<nat>, toks: seq<string>, phrase: seq<Slot>, pos: int, j: nat, m: seq<Slot>)
    requires InRange(xs, |toks|)
    requires Walked(xs, toks, phrase, pos, j, false)
    requires j + 1 < |xs|
    requires m == Between(xs[j], xs[j + 1], toks)
    ensures 0 <= pos + 1 <= |phrase|
    ensures Walked(xs, toks, phrase[..pos + 1] + m + phrase[pos + 1..], pos + 1, j + 1, m != [])
  {
    var f := FillGaps(xs[..j + 1], toks);
    var rest := AsSlots(xs[j + 1..]);
    SplitAt(f, rest, phrase);
    var next := phrase[..pos + 1] + m + phrase[pos + 1..];
    FillGapsPrefixStep(xs, toks, j);
    WalkFillShape(xs, toks, j, f, m);
    if m == [] {
      assert next[pos + 1] == Pos(xs[j + 1]);
    } else {
      assert next[pos + 1] == m[0];
    }
  }

  /** A concatenation cut where its first part ends. */
  lemma SplitAt<T>(f: seq<T>, rest: seq<T>, s: seq<T>)
    requires s == f + rest
    ensures s[..|f|] == f && s[|f|..] == rest
  {
  }

  /** The gap filled: the filled prefix grows by one index. */
  lemma WalkFillShape(xs: seq<nat>, toks: seq<string>, j: nat, f: seq<Slot>, m: seq<Slot>)
    requires InRange(xs, |toks|) && j + 1 < |xs|
    requires FillGaps(xs[..j + 2], toks) == f + m + [Pos(xs[j + 1])]
    ensures f + m + AsSlots(xs[j + 1..]) == FillGaps(xs[..j + 2], toks) + AsSlots(xs[j + 2..])
  {
    AsSlotsSplit(xs, j);
    Tables.ConcatAssoc(f + m, [Pos(xs[j + 1])], AsSlots(xs[j + 2..]));
  }

  /** The placeholder the walk inserts between `a` and `b`, if any: the
      `if`/`elif` chain that picks `","`, `"..."` or nothing. The last
      test is `> wideGap`, which agrees with `>= 2` once the difference 2
      has been handled. */
  method Placeholder(a: nat, b: nat, toks: seq<string>, wideGap: nat) returns (m: seq<Slot>)
    requires wideGap == 1 || wideGap == 2
    requires a < b < |toks|
    ensures m == Between(a, b, toks)
  {
    m := [];
    if Dist(a, b) == 2 {
      if toks[a + 1] == "," {
        m := [Mark(",")];
      } else {
        m := [Mark(Ellipsis)];
      }
    } else if Dist(a, b) > wideGap {
      m := [Mark(Ellipsis)];
    }
  }

  /** The `while` loop that walks a sorted list of indices and inserts a
      placeholder after every index whose successor is two or more
      further on; the position then moves onto the inserted placeholder
      and past it. After the case of a difference of exactly 2, the
      contiguous routine tests `> 2` and the discontinuous one `> 1`
      (`wideGap`); both give the same phrase. */
  method InsertGaps(xs: seq<nat>, toks: seq<string>, wideGap: nat) returns (phrase: seq<Slot>)
    requires wideGap == 1 || wideGap == 2
    requires |xs| > 1
    requires StrictlySorted(xs)
    requires InRange(xs, |toks|)
    ensures phrase == FillGaps(xs, toks)
  {
    phrase := AsSlots(xs);
    var pos := 0;
    ghost var j := 0;
    ghost var atMark := false;
    WalkStart(xs, toks);
    while pos < |phrase| - 1
      invariant Walked(xs, toks, phrase, pos, j, atMark)
      decreases 2 * (|xs| - 1 - j) + (if atMark then 1 else 0)
    {
      phrase, pos, j, atMark := GapStep(xs, toks, wideGap, phrase, pos, j, atMark);
    }
    WalkEnd(xs, toks, phrase, pos, j, atMark);
  }

  /** One pass of the loop body of `InsertGaps`: on two adjacent indices,
      insert the placeholder between them; on a placeholder, step over
      it. */
  method GapStep(xs: seq<nat>, toks: seq<string>, wideGap: nat, phrase: seq<Slot>, pos: int, ghost j: nat, ghost atMark: bool)
    returns (phrase': seq<Slot>, pos': int, ghost j': nat, ghost atMark': bool)
    requires wideGap == 1 || wideGap == 2
    requires StrictlySorted(xs)
    requires InRange(xs, |toks|)
    requires Walked(xs, toks, phrase, pos, j, atMark)
    requires pos < |phrase| - 1
    ensures Walked(xs, toks, phrase', pos', j', atMark')
    ensures pos' == pos + 1
    ensures 2 * (|xs| - 1 - j') + (if atMark' then 1 else 0) < 2 * (|xs| - 1 - j) + (if atMark then 1 else 0)
  {
    WalkLook(xs, toks, phrase, pos, j, atMark);
    if phrase[pos].Pos? && phrase[pos + 1].Pos? {
      var a, b := phrase[pos].i, phrase[pos + 1].i;
      var m := Placeholder(a, b, toks, wideGap);
      WalkFill(xs, toks, phrase, pos, j, m);
      phrase' := phrase[..pos + 1] + m + phrase[pos + 1..];
      j', atMark' := j + 1, m != [];
    } else {
      WalkSkip(xs, toks, phrase, pos, j);
      phrase', j', atMark' := phrase, j, false;
    }
    pos' := pos + 1;
  }

  // ---------------------------------------------------------------------
  // From indices to a phrase

  /** Indices replaced by their tokens; placeholders pass through. */
  function Surface(r: seq<Slot>, toks: seq<string>): (ws: seq<string>)
    requires forall p :: 0 <= p < |r| && r[p].Pos? ==> r[p].i < |toks|
    ensures |ws| == |r|
  {
    seq(|r|, p requires 0 <= p < |r| => if r[p].Pos? then toks[r[p].i] else r[p].text)
  }

  /** The separator left behind when a comma is followed by a gap. */
  const CommaGap: string := ", ..."

  /** Joining the tidied words with spaces and collapsing `", ..."`. */
  function Render(words: seq<string>): string {
    var s := Join(RemovePunctPhrases(words), " ");
    if Contains(s, CommaGap) then ReplaceAll(s, CommaGap, Ellipsis) else s
  }

  /** The indices a projection works on: deduplicated, and, when more than
      one remains, sorted with the gaps marked. */
  function Arrange(indices: seq<nat>, toks: seq<string>): (r: seq<Slot>)
    requires InRange(indices, |toks|)
    ensures GapsMarked(r, toks)
    ensures Indices(r) == Sort(Dedup(indices)) || (|Dedup(indices)| <= 1 && Indices(r) == Dedup(indices))
  {
    var u := Dedup(indices);
    assert InRange(u, |toks|) by {
      forall k | 0 <= k < |u|
        ensures u[k] < |toks|
      {
        assert u[k] in indices;
      }
    }
    if |u| > 1 then
      var s := Sort(u);
      SortDistinct(u);
      assert InRange(s, |toks|) by {
        forall k | 0 <= k < |s|
          ensures s[k] < |toks|
        {
          assert s[k] in u;
        }
      }
      FillGapsMarked(s, toks);
      FillGapsIndices(s, toks);
      FillGaps(s, toks)
    else
      FillGapsMarked(u, toks);
      FillGapsIndices(u, toks);
      AsSlots(u)
  }

  /** The phrase a collection of aligned indices projects to. */
  function Project(indices: seq<nat>, toks: seq<string>): string
    requires InRange(indices, |toks|)
  {
    Render(Surface(Arrange(indices, toks), toks))
  }

  method ProjectIndices(indices: seq<nat>, toks: seq<string>, wideGap: nat) returns (phrase: string)
    requires wideGap == 1 || wideGap == 2
    requires InRange(indices, |toks|)
    ensures phrase == Project(indices, toks)
  {
    var newPhrase := Dedup(indices);
    var slots := AsSlots(newPhrase);
    assert InRange(newPhrase, |toks|) by {
      forall k | 0 <= k < |newPhrase|
        ensures newPhrase[k] < |toks|
      {
        assert newPhrase[k] in indices;
      }
    }
    if |newPhrase| > 1 {
      var sorted := Sort(newPhrase);
      SortDistinct(newPhrase);
      assert InRange(sorted, |toks|) by {
        forall k | 0 <= k < |sorted|
          ensures sorted[k] < |toks|
        {
          assert sorted[k] in newPhrase;
        }
      }
      slots := InsertGaps(sorted, toks, wideGap);
      assert slots == Arrange(indices, toks);
    } else {
      assert slots == Arrange(indices, toks);
    }
    var words := Surface(slots, toks);
    words := RemovePunctPhrases(words);
    phrase := Join(words, " ");
    if Contains(phrase, CommaGap) {
      phrase := ReplaceAll(phrase, CommaGap, Ellipsis);
    }
  }

  /** One aligned index projects to its token, no index to `""`. */
  lemma ProjectSmall(indices: seq<nat>, toks: seq<string>)
    requires InRange(indices, |toks|)
    requires forall k :: 0 <= k < |indices| ==> indices[k] == indices[0]
    ensures indices == [] ==> Project(indices, toks) == ""
    ensures indices != [] && !Contains(toks[indices[0]], CommaGap) ==> Project(indices, toks) == toks[indices[0]]
  {
    var u := Dedup(indices);
    if indices != [] {
      assert forall x :: x in u ==> x == indices[0];
      DedupConstant(indices, indices[0]);
      assert u == [indices[0]];
      var w := toks[indices[0]];
      assert Surface(Arrange(indices, toks), toks) == [w];
      if !Contains(w, CommaGap) {
        ReplaceAllWithoutMatch(w, CommaGap, Ellipsis);
      }
    } else {
      assert Surface(Arrange(indices, toks), toks) == [];
      assert !Contains("", CommaGap);
    }
  }

  // ---------------------------------------------------------------------
  // Locating a phrase among the tokens

  predicate SpanAt(toks: seq<string>, pat: seq<string>, pos: nat) {
    pos + |pat| <= |toks| && toks[pos..pos + |pat|] == pat
  }

  /** Every position where the token sequence `pat` occurs, ascending;
      the empty pattern occurs at every position up to the end. */
  function SpanStarts(toks: seq<string>, pat: seq<string>, from: nat): (r: seq<nat>)
    ensures forall k :: 0 <= k < |r| ==> from <= r[k] && SpanAt(toks, pat, r[k])
    ensures forall pos :: from <= pos && SpanAt(toks, pat, pos) ==> pos in r
    ensures StrictlySorted(r)
    decreases |toks| - from
  {
    if from + |pat| > |toks| then []
    else
      var rest := SpanStarts(toks, pat, from + 1);
      if toks[from..from + |pat|] == pat then [from] + rest else rest
  }

  /** The loop over `range(0, len(source_tok) - len(phrase) + 1)` that
      records every exact occurrence of the phrase's tokens. */
  method LocateSpans(toks: seq<string>, pat: seq<string>) returns (starts: seq<nat>)
    ensures starts == SpanStarts(toks, pat, 0)
  {
    starts := [];
    if |pat| > |toks| {
      return;
    }
    var pos := 0;
    while pos < |toks| - |pat| + 1
      invariant 0 <= pos <= |toks| - |pat| + 1
      invariant starts + SpanStarts(toks, pat, pos) == SpanStarts(toks, pat, 0)
    {
      if toks[pos..pos + |pat|] == pat {
        starts := starts + [pos];
      }
      pos := pos + 1;
    }
  }

  /** `list(range(start, start + len))`. */
  function Span(start: nat, len: nat): (r: seq<nat>)
    ensures |r| == len
    ensures forall k :: 0 <= k < len ==> r[k] == start + k
  {
    seq(len, k requires 0 <= k < len => start + k)
  }

  /** The opposite-side indices aligned to the positions of a span, in
      span order (`new_phrase += alignment_index` for each position). */
  function Collect(pairs: seq<(nat, nat)>, side: Side, span: seq<nat>): (r: seq<nat>)
    ensures forall x :: x in r <==> exists k :: 0 <= k < |span| && x in PartnersOf(pairs, side, span[k])
  {
    if span == [] then []
    else
      var init := Collect(pairs, side, span[..|span| - 1]);
      assert forall k :: 0 <= k < |span| - 1 ==> span[..|span| - 1][k] == span[k];
      init + PartnersOf(pairs, side, span[|span| - 1])
  }

  lemma CollectInRange(s: SentencePair, side: Side, span: seq<nat>)
    requires WellFormed(s)
    ensures InRange(Collect(s.pairs, side, span), |Tokens(s, Flip(side))|)
  {
    var r := Collect(s.pairs, side, span);
    forall k | 0 <= k < |r|
      ensures r[k] < |Tokens(s, Flip(side))|
    {
      assert r[k] in r;
      var m :| 0 <= m < |span| && r[k] in PartnersOf(s.pairs, side, span[m]);
      PartnersInRange(s, side, span[m]);
    }
  }
}
