/** The phrase routines of the alignment parser. For every connective of
    one language that is written as several tokens, they record what the
    other language's words aligned to those tokens read like, one
    observation per occurrence, sentence by sentence. */
module PhraseAlignments {
  import opened Wrappers
  import opened Text
  import opened Tables
  import opened Corpus
  import opened Projection

  // ---------------------------------------------------------------------
  // Collecting aligned indices

  /** The `for word_pos in pos_range` loop: the partners of every position
      of a span, appended in span order. */
  method CollectSpan(pairs: seq<(nat, nat)>, side: Side, span: seq<nat>) returns (indices: seq<nat>)
    ensures indices == Collect(pairs, side, span)
  {
    indices := [];
    var k := 0;
    while k < |span|
      invariant 0 <= k <= |span|
      invariant indices == Collect(pairs, side, span[..k])
    {
      assert span[..k + 1][..k] == span[..k];
      indices := indices + PartnersOf(pairs, side, span[k]);
      k := k + 1;
    }
    assert span[..k] == span;
  }

  // ---------------------------------------------------------------------
  // Contiguous phrases

  /** What one occurrence of a phrase, the positions `span` on `side`,
      projects to on the other side. */
  function SpanObservation(s: SentencePair, side: Side, span: seq<nat>): string
    requires WellFormed(s)
  {
    CollectInRange(s, side, span);
    Project(Collect(s.pairs, side, span), Tokens(s, Flip(side)))
  }

  /** The observations one sentence gives phrase `p`: none unless the raw
      line contains `p`, and then one for every position where the tokens
      of `p` occur among the line's tokens, in order. */
  function ContiguousObservations(s: SentencePair, side: Side, p: string): seq<string>
    requires WellFormed(s)
  {
    if Contains(Line(s, side), p) then
      var pat := Words(p);
      SpanObservations(s, side, SpanStarts(Tokens(s, side), pat, 0), |pat|)
    else []
  }

  /** The projections of the occurrences starting at `starts`, in order. */
  function SpanObservations(s: SentencePair, side: Side, starts: seq<nat>, len: nat): (obs: seq<string>)
    requires WellFormed(s)
    ensures |obs| == |starts|
    ensures forall k :: 0 <= k < |starts| ==> obs[k] == SpanObservation(s, side, Span(starts[k], len))
  {
    seq(|starts|, k requires 0 <= k < |starts| => SpanObservation(s, side, Span(starts[k], len)))
  }

  /** The positions where the tokens of `pat` occur. */
  function Occurrences(toks: seq<string>, pat: seq<string>): set<nat> {
    set pos: nat | pos <= |toks| && SpanAt(toks, pat, pos)
  }

  function Elements(xs: seq<nat>): set<nat> {
    set x | x in xs
  }

  /** A strictly increasing list holds as many numbers as it is long. */
  lemma {:induction false} SortedSetSize(xs: seq<nat>)
    requires StrictlySorted(xs)
    ensures |Elements(xs)| == |xs|
  {
    if xs != [] {
      var tail := xs[1..];
      assert StrictlySorted(tail) by {
        forall i, j | 0 <= i < j < |tail|
          ensures tail[i] < tail[j]
        {
          assert tail[i] == xs[i + 1] && tail[j] == xs[j + 1];
        }
      }
      SortedSetSize(tail);
      assert xs[0] !in Elements(tail) by {
        forall k | 0 <= k < |tail|
          ensures xs[0] < tail[k]
        {
          assert tail[k] == xs[k + 1];
        }
      }
      assert Elements(xs) == Elements(tail) + {xs[0]} by {
        assert xs == [xs[0]] + tail;
      }
    }
  }

  /** A sentence contributes one observation per exact token-level
      occurrence of the phrase, each the projection of that occurrence,
      provided the raw line contains the phrase; a line that contains the
      phrase only as a substring (inside a longer word, say) contributes
      nothing. */
  lemma ContiguousOnePerOccurrence(s: SentencePair, side: Side, p: string)
    requires WellFormed(s)
    ensures var obs := ContiguousObservations(s, side, p);
      && (!Contains(Line(s, side), p) ==> obs == [])
      && (Contains(Line(s, side), p) ==> |obs| == |Occurrences(Tokens(s, side), Words(p))|)
      && (Contains(Line(s, side), p) ==> forall pos :: pos in Occurrences(Tokens(s, side), Words(p)) ==>
            SpanObservation(s, side, Span(pos, |Words(p)|)) in obs)
      && (Occurrences(Tokens(s, side), Words(p)) == {} ==> obs == [])
  {
    var toks, pat := Tokens(s, side), Words(p);
    var starts := SpanStarts(toks, pat, 0);
    assert Elements(starts) == Occurrences(toks, pat);
    SortedSetSize(starts);
    var obs := ContiguousObservations(s, side, p);
    if Contains(Line(s, side), p) {
      forall pos | pos in Occurrences(toks, pat)
        ensures SpanObservation(s, side, Span(pos, |pat|)) in obs
      {
        var k :| 0 <= k < |starts| && starts[k] == pos;
        assert obs[k] == SpanObservation(s, side, Span(pos, |pat|));
      }
    }
  }

  /** One sentence's observations for every phrase of the list. */
  function SentenceContiguous(s: SentencePair, side: Side, phrases: seq<string>): (obs: seq<seq<string>>)
    requires WellFormed(s)
    ensures |obs| == |phrases|
    ensures forall i :: 0 <= i < |phrases| ==> obs[i] == ContiguousObservations(s, side, phrases[i])
  {
    seq(|phrases|, i requires 0 <= i < |phrases| => ContiguousObservations(s, side, phrases[i]))
  }

  /** One sentence of `parse_phrase_alignments`: every phrase of the list,
      in order, gets this sentence's observations appended. */
  function AddContiguous(t: ObsTable, s: SentencePair, side: Side, phrases: seq<string>): ObsTable
    requires WellFormed(s)
  {
    ExtendAll(t, phrases, SentenceContiguous(s, side, phrases))
  }

  /** The table `parse_phrase_alignments` returns for a corpus. */
  function ContiguousTable(corpus: seq<SentencePair>, side: Side, phrases: seq<string>): ObsTable
    requires AllWellFormed(corpus)
  {
    if corpus == [] then map[]
    else
      var n := |corpus| - 1;
      AddContiguous(ContiguousTable(corpus[..n], side, phrases), corpus[n], side, phrases)
  }

  /** Everything the corpus says about `p`: per sentence, its observations
      of `p`, as many times over as `p` is listed. */
  function ContiguousEvidence(corpus: seq<SentencePair>, side: Side, phrases: seq<string>, p: string): seq<string>
    requires AllWellFormed(corpus)
  {
    if corpus == [] then []
    else
      var n := |corpus| - 1;
      ContiguousEvidence(corpus[..n], side, phrases, p) + Repeat(ContiguousObservations(corpus[n], side, p), Count(phrases, p))
  }

  /** What the table holds for a phrase is everything the corpus says
      about it, sentence after sentence; a phrase is a key exactly when
      there is something to say, and only listed phrases are keys. */
  lemma {:induction false} ContiguousTableGet(corpus: seq<SentencePair>, side: Side, phrases: seq<string>, p: string)
    requires AllWellFormed(corpus)
    ensures Get(ContiguousTable(corpus, side, phrases), p) == ContiguousEvidence(corpus, side, phrases, p)
    ensures p in ContiguousTable(corpus, side, phrases) <==> ContiguousEvidence(corpus, side, phrases, p) != []
    ensures p in ContiguousTable(corpus, side, phrases) ==> p in phrases
  {
    var t := ContiguousTable(corpus, side, phrases);
    ContiguousTableShape(corpus, side, phrases);
    if corpus != [] {
      var n := |corpus| - 1;
      ContiguousTableGet(corpus[..n], side, phrases, p);
      ExtendAllGet(ContiguousTable(corpus[..n], side, phrases), phrases, SentenceContiguous(corpus[n], side, phrases),
        p, ContiguousObservations(corpus[n], side, p));
    }
    if p in t {
      assert Get(t, p) == t[p];
    }
  }

  lemma {:induction false} ContiguousTableShape(corpus: seq<SentencePair>, side: Side, phrases: seq<string>)
    requires AllWellFormed(corpus)
    ensures NoEmptyLists(ContiguousTable(corpus, side, phrases))
    ensures ContiguousTable(corpus, side, phrases).Keys <= set q | q in phrases
  {
    if corpus != [] {
      var n := |corpus| - 1;
      ContiguousTableShape(corpus[..n], side, phrases);
      ExtendAllShape(ContiguousTable(corpus[..n], side, phrases), phrases, SentenceContiguous(corpus[n], side, phrases));
    }
  }

  /** The body of the phrase loop: when the raw line contains `p`, every
      exact occurrence is located, its aligned indices collected and
      projected, and the result appended to `p`'s list. */
  method AppendContiguous(table: ObsTable, s: SentencePair, side: Side, p: string) returns (table': ObsTable)
    requires WellFormed(s)
    ensures table' == Extend(table, p, ContiguousObservations(s, side, p))
  {
    table' := table;
    if Contains(Line(s, side), p) {
      var pat := Words(p);
      var starts := LocateSpans(Tokens(s, side), pat);
      table' := AppendSpans(table, s, side, p, starts, |pat|);
    }
  }

  /** The loop over the located occurrences: each one's projection is
      appended to `p`'s list, in order. */
  method AppendSpans(table: ObsTable, s: SentencePair, side: Side, p: string, starts: seq<nat>, len: nat)
    returns (table': ObsTable)
    requires WellFormed(s)
    ensures table' == Extend(table, p, SpanObservations(s, side, starts, len))
  {
    table' := table;
    ghost var obs := SpanObservations(s, side, starts, len);
    for k := 0 to |starts|
      invariant table' == Extend(table, p, obs[..k])
    {
      var o := ObserveSpan(s, side, Span(starts[k], len));
      ExtendTwice(table, p, obs[..k], [o]);
      TakeSnoc(obs, k);
      table' := Extend(table', p, [o]);
    }
    TakeAll(obs);
  }

  /** One occurrence: its aligned indices collected and projected. */
  method ObserveSpan(s: SentencePair, side: Side, span: seq<nat>) returns (o: string)
    requires WellFormed(s)
    ensures o == SpanObservation(s, side, span)
  {
    var indices := CollectSpan(s.pairs, side, span);
    CollectInRange(s, side, span);
    o := ProjectIndices(indices, Tokens(s, Flip(side)), 2);
  }

  /** The phrase loop for one sentence. */
  method ParseSentenceContiguous(table: ObsTable, s: SentencePair, side: Side, phrases: seq<string>) returns (table': ObsTable)
    requires WellFormed(s)
    ensures table' == AddContiguous(table, s, side, phrases)
  {
    table' := table;
    ghost var obs := SentenceContiguous(s, side, phrases);
    var m := 0;
    while m < |phrases|
      invariant 0 <= m <= |phrases|
      invariant table' == ExtendAll(table, phrases[..m], obs[..m])
    {
      ExtendAllSnoc(table, phrases, obs, m);
      table' := AppendContiguous(table', s, side, phrases[m]);
      m := m + 1;
    }
    TakeAll(phrases);
    TakeAll(obs);
  }

  lemma ContiguousTableSnoc(corpus: seq<SentencePair>, side: Side, phrases: seq<string>, n: nat)
    requires AllWellFormed(corpus) && n < |corpus|
    ensures AllWellFormed(corpus[..n])
    ensures ContiguousTable(corpus[..n + 1], side, phrases)
      == AddContiguous(ContiguousTable(corpus[..n], side, phrases), corpus[n], side, phrases)
  {
    TakeTake(corpus, n);
  }

  /** `parse_phrase_alignments` over an in-memory corpus. */
  method ParsePhraseAlignments(corpus: seq<SentencePair>, side: Side, phrases: seq<string>) returns (table: ObsTable)
    requires AllWellFormed(corpus)
    ensures table == ContiguousTable(corpus, side, phrases)
  {
    table := map[];
    var n := 0;
    while n < |corpus|
      invariant 0 <= n <= |corpus|
      invariant AllWellFormed(corpus[..n])
      invariant table == ContiguousTable(corpus[..n], side, phrases)
    {
      ContiguousTableSnoc(corpus, side, phrases, n);
      table := ParseSentenceContiguous(table, corpus[n], side, phrases);
      n := n + 1;
    }
    TakeAll(corpus);
  }

  // ---------------------------------------------------------------------
  // Discontinuous phrases

  /** `span` lists the positions of an occurrence of `part`'s tokens. */
  ghost predicate IsOccurrence(toks: seq<string>, part: string, span: seq<nat>) {
    exists pos: nat :: pos <= |toks| && SpanAt(toks, Words(part), pos) && span == Span(pos, |Words(part)|)
  }

  /** The span of the first of `starts` whose span is not yet recorded. */
  function FreeAmong(starts: seq<nat>, len: nat, recorded: seq<seq<nat>>): (r: Option<seq<nat>>)
    ensures r.Some? ==> r.value !in recorded
    ensures r.Some? ==> exists k :: (0 <= k < |starts| && r.value == Span(starts[k], len)
      && forall k' :: 0 <= k' < k ==> Span(starts[k'], len) in recorded)
    ensures r.None? ==> forall k :: 0 <= k < |starts| ==> Span(starts[k], len) in recorded
  {
    if starts == [] then None
    else if Span(starts[0], len) !in recorded then Some(Span(starts[0], len))
    else
      var r := FreeAmong(starts[1..], len, recorded);
      assert forall k :: 1 <= k < |starts| ==> starts[1..][k - 1] == starts[k];
      if r.Some? then
        var k :| 0 <= k < |starts[1..]| && r.value == Span(starts[1..][k], len)
          && forall k' :: 0 <= k' < k ==> Span(starts[1..][k'], len) in recorded;
        assert forall k' :: 0 <= k' < k + 1 ==> Span(starts[k'], len) in recorded by {
          forall k' | 0 <= k' < k + 1
            ensures Span(starts[k'], len) in recorded
          {
            if k' > 0 {
              assert starts[k'] == starts[1..][k' - 1];
            }
          }
        }
        r
      else r
  }

  /** The first occurrence of `pat` among the tokens whose positions are
      not yet recorded: the inner `for pos` loop with its `break`. */
  function FirstFreeSpan(toks: seq<string>, pat: seq<string>, recorded: seq<seq<nat>>): Option<seq<nat>> {
    FreeAmong(SpanStarts(toks, pat, 0), |pat|, recorded)
  }

  /** `FirstFreeSpan` finds an unrecorded occurrence before which every
      occurrence is recorded, and finds nothing only when every
      occurrence is recorded. */
  lemma FirstFreeSpanSpec(toks: seq<string>, pat: seq<string>, recorded: seq<seq<nat>>)
    ensures var r := FirstFreeSpan(toks, pat, recorded);
      && (r.Some? ==> r.value !in recorded)
      && (r.Some? ==> exists pos: nat :: (SpanAt(toks, pat, pos) && r.value == Span(pos, |pat|)
            && forall q: nat :: q < pos && SpanAt(toks, pat, q) ==> Span(q, |pat|) in recorded))
      && (r.None? ==> forall pos: nat :: SpanAt(toks, pat, pos) ==> Span(pos, |pat|) in recorded)
  {
    if FirstFreeSpan(toks, pat, recorded).Some? {
      FirstFreeSpanFound(toks, pat, recorded);
    } else {
      FirstFreeSpanNone(toks, pat, recorded);
    }
  }

  lemma FirstFreeSpanFound(toks: seq<string>, pat: seq<string>, recorded: seq<seq<nat>>)
    requires FirstFreeSpan(toks, pat, recorded).Some?
    ensures exists pos: nat :: (SpanAt(toks, pat, pos) && FirstFreeSpan(toks, pat, recorded).value == Span(pos, |pat|)
      && forall q: nat :: q < pos && SpanAt(toks, pat, q) ==> Span(q, |pat|) in recorded)
  {
    var starts := SpanStarts(toks, pat, 0);
    var r := FirstFreeSpan(toks, pat, recorded);
    FreeAmongEarlier(starts, |pat|, recorded);
    var k :| 0 <= k < |starts| && r.value == Span(starts[k], |pat|)
      && forall q :: q in starts && q < starts[k] ==> Span(q, |pat|) in recorded;
    var pos := starts[k];
    assert SpanAt(toks, pat, pos);
    forall q: nat | q < pos && SpanAt(toks, pat, q)
      ensures Span(q, |pat|) in recorded
    {
      assert q in starts;
    }
  }

  /** In an ascending list, the span found is preceded only by recorded
      spans. */
  lemma FreeAmongEarlier(starts: seq<nat>, len: nat, recorded: seq<seq<nat>>)
    requires StrictlySorted(starts)
    requires FreeAmong(starts, len, recorded).Some?
    ensures exists k :: (0 <= k < |starts| && FreeAmong(starts, len, recorded).value == Span(starts[k], len)
      && forall q :: q in starts && q < starts[k] ==> Span(q, len) in recorded)
  {
    var r := FreeAmong(starts, len, recorded);
    var k :| 0 <= k < |starts| && r.value == Span(starts[k], len)
      && forall k' :: 0 <= k' < k ==> Span(starts[k'], len) in recorded;
    forall q | q in starts && q < starts[k]
      ensures Span(q, len) in recorded
    {
      var k' :| 0 <= k' < |starts| && starts[k'] == q;
      assert k' < k;
    }
  }

  lemma FirstFreeSpanNone(toks: seq<string>, pat: seq<string>, recorded: seq<seq<nat>>)
    requires FirstFreeSpan(toks, pat, recorded).None?
    ensures forall pos: nat :: SpanAt(toks, pat, pos) ==> Span(pos, |pat|) in recorded
  {
    var starts := SpanStarts(toks, pat, 0);
    forall pos: nat | SpanAt(toks, pat, pos)
      ensures Span(pos, |pat|) in recorded
    {
      var k :| 0 <= k < |starts| && starts[k] == pos;
    }
  }

  /** The recorded spans after a part: the span found, if any, is added. */
  function Record(spans: seq<seq<nat>>, found: Option<seq<nat>>): seq<seq<nat>> {
    match found
    case Some(span) => spans + [span]
    case None => spans
  }

  /** The spans recorded for the parts of a discontinuous connective, one
      per part at most: the first occurrence of the part that is not
      already recorded. */
  function RecordSpans(toks: seq<string>, parts: seq<string>): (spans: seq<seq<nat>>)
    ensures |spans| <= |parts|
  {
    if parts == [] then []
    else
      var n := |parts| - 1;
      var before := RecordSpans(toks, parts[..n]);
      Record(before, FirstFreeSpan(toks, Words(parts[n]), before))
  }

  predicate NoRepeats(spans: seq<seq<nat>>) {
    forall i, j :: 0 <= i < j < |spans| ==> spans[i] != spans[j]
  }

  ghost predicate OccurrenceOfSome(toks: seq<string>, parts: seq<string>, span: seq<nat>) {
    exists q :: 0 <= q < |parts| && IsOccurrence(toks, parts[q], span)
  }

  /** Every span is an occurrence of one of the parts. */
  ghost predicate OccurrencesOf(toks: seq<string>, parts: seq<string>, spans: seq<seq<nat>>) {
    forall i :: 0 <= i < |spans| ==> OccurrenceOfSome(toks, parts, spans[i])
  }

  lemma OccurrencesOfPrefix(toks: seq<string>, parts: seq<string>, n: nat, spans: seq<seq<nat>>)
    requires n <= |parts|
    requires OccurrencesOf(toks, parts[..n], spans)
    ensures OccurrencesOf(toks, parts, spans)
  {
    forall i | 0 <= i < |spans|
      ensures OccurrenceOfSome(toks, parts, spans[i])
    {
      var q :| 0 <= q < n && IsOccurrence(toks, parts[..n][q], spans[i]);
      assert parts[..n][q] == parts[q];
    }
  }

  /** No span is recorded twice. */
  lemma {:induction false} RecordSpansDistinct(toks: seq<string>, parts: seq<string>)
    ensures NoRepeats(RecordSpans(toks, parts))
  {
    if parts != [] {
      var n := |parts| - 1;
      var before := RecordSpans(toks, parts[..n]);
      RecordSpansDistinct(toks, parts[..n]);
      var found := FirstFreeSpan(toks, Words(parts[n]), before);
      if found.Some? {
        assert found.value !in before;
        var spans := before + [found.value];
        assert RecordSpans(toks, parts) == spans;
        forall i, j | 0 <= i < j < |spans|
          ensures spans[i] != spans[j]
        {
          assert spans[i] == before[i];
          if j < |before| {
            assert spans[j] == before[j];
          } else {
            assert spans[j] == found.value;
            assert before[i] in before;
          }
        }
      }
    }
  }

  /** Every recorded span is an occurrence of one of the parts. */
  lemma {:induction false} RecordSpansAreOccurrences(toks: seq<string>, parts: seq<string>)
    ensures OccurrencesOf(toks, parts, RecordSpans(toks, parts))
  {
    if parts != [] {
      var n := |parts| - 1;
      var before := RecordSpans(toks, parts[..n]);
      RecordSpansAreOccurrences(toks, parts[..n]);
      OccurrencesOfPrefix(toks, parts, n, before);
      var found := FirstFreeSpan(toks, Words(parts[n]), before);
      if found.Some? {
        FoundIsOccurrence(toks, parts[n], before);
        OccurrencesSnoc(toks, parts, n, before, found.value);
      }
    }
  }

  /** The span found for a part is an occurrence of it. */
  lemma FoundIsOccurrence(toks: seq<string>, part: string, recorded: seq<seq<nat>>)
    requires FirstFreeSpan(toks, Words(part), recorded).Some?
    ensures IsOccurrence(toks, part, FirstFreeSpan(toks, Words(part), recorded).value)
  {
    var pat := Words(part);
    var span := FirstFreeSpan(toks, pat, recorded).value;
    FirstFreeSpanFound(toks, pat, recorded);
    var pos: nat :| SpanAt(toks, pat, pos) && span == Span(pos, |pat|);
    assert pos <= |toks|;
  }

  lemma OccurrencesSnoc(toks: seq<string>, parts: seq<string>, n: nat, spans: seq<seq<nat>>, span: seq<nat>)
    requires n < |parts|
    requires OccurrencesOf(toks, parts, spans)
    requires IsOccurrence(toks, parts[n], span)
    ensures OccurrencesOf(toks, parts, spans + [span])
  {
    var all := spans + [span];
    forall i | 0 <= i < |all|
      ensures OccurrenceOfSome(toks, parts, all[i])
    {
      if i < |spans| {
        assert all[i] == spans[i];
      } else {
        assert all[i] == span;
      }
    }
  }

  lemma FreeAmongStep(toks: seq<string>, pat: seq<string>, pos: nat, recorded: seq<seq<nat>>)
    requires pos + |pat| <= |toks|
    ensures FreeAmong(SpanStarts(toks, pat, pos), |pat|, recorded)
      == if toks[pos..pos + |pat|] == pat && Span(pos, |pat|) !in recorded then Some(Span(pos, |pat|))
         else FreeAmong(SpanStarts(toks, pat, pos + 1), |pat|, recorded)
  {
    var rest := SpanStarts(toks, pat, pos + 1);
    if toks[pos..pos + |pat|] == pat {
      assert ([pos] + rest)[1..] == rest;
    }
  }

  /** The inner loop for one part: the scan over token positions that
      records the first free occurrence and stops. */
  method RecordPart(toks: seq<string>, part: seq<string>, spans: seq<seq<nat>>) returns (spans': seq<seq<nat>>)
    ensures spans' == Record(spans, FirstFreeSpan(toks, part, spans))
  {
    spans' := spans;
    var pos := 0;
    while pos < |toks| - |part| + 1
      invariant 0 <= pos
      invariant spans' == spans
      invariant FreeAmong(SpanStarts(toks, part, pos), |part|, spans) == FirstFreeSpan(toks, part, spans)
    {
      FreeAmongStep(toks, part, pos, spans);
      if toks[pos..pos + |part|] == part {
        var sourcePos := Span(pos, |part|);
        if sourcePos !in spans' {
          spans' := spans' + [sourcePos];
          break;
        }
      }
      pos := pos + 1;
    }
  }

  /** The part loop of `parse_discontinuous`. */
  method RecordPartSpans(toks: seq<string>, parts: seq<string>) returns (spans: seq<seq<nat>>)
    ensures spans == RecordSpans(toks, parts)
  {
    spans := [];
    var q := 0;
    while q < |parts|
      invariant 0 <= q <= |parts|
      invariant spans == RecordSpans(toks, parts[..q])
    {
      TakeTake(parts, q);
      spans := RecordPart(toks, Words(parts[q]), spans);
      q := q + 1;
    }
    TakeAll(parts);
  }

  /** The indices aligned to all recorded spans, span after span. */
  function CollectAll(pairs: seq<(nat, nat)>, side: Side, spans: seq<seq<nat>>): seq<nat> {
    if spans == [] then []
    else
      var n := |spans| - 1;
      CollectAll(pairs, side, spans[..n]) + Collect(pairs, side, spans[n])
  }

  lemma {:induction false} CollectAllInRange(s: SentencePair, side: Side, spans: seq<seq<nat>>)
    requires WellFormed(s)
    ensures InRange(CollectAll(s.pairs, side, spans), |Tokens(s, Flip(side))|)
  {
    if spans != [] {
      var n := |spans| - 1;
      CollectAllInRange(s, side, spans[..n]);
      CollectInRange(s, side, spans[n]);
      var a, b := CollectAll(s.pairs, side, spans[..n]), Collect(s.pairs, side, spans[n]);
      assert forall k :: |a| <= k < |a + b| ==> (a + b)[k] == b[k - |a|];
    }
  }

  /** The nested loops over the recorded spans and their positions that
      build one list of aligned indices. */
  method CollectSpans(pairs: seq<(nat, nat)>, side: Side, spans: seq<seq<nat>>) returns (indices: seq<nat>)
    ensures indices == CollectAll(pairs, side, spans)
  {
    indices := [];
    var q := 0;
    while q < |spans|
      invariant 0 <= q <= |spans|
      invariant indices == CollectAll(pairs, side, spans[..q])
    {
      var span := spans[q];
      ghost var before := indices;
      var k := 0;
      while k < |span|
        invariant 0 <= k <= |span|
        invariant indices == before + Collect(pairs, side, span[..k])
      {
        TakeTake(span, k);
        ConcatAssoc(before, Collect(pairs, side, span[..k]), PartnersOf(pairs, side, span[k]));
        indices := indices + PartnersOf(pairs, side, span[k]);
        k := k + 1;
      }
      TakeAll(span);
      TakeTake(spans, q);
      q := q + 1;
    }
    TakeAll(spans);
  }

  /** What the recorded spans of a sentence project to. */
  function SpansObservation(s: SentencePair, side: Side, spans: seq<seq<nat>>): string
    requires WellFormed(s)
  {
    CollectAllInRange(s, side, spans);
    Project(CollectAll(s.pairs, side, spans), Tokens(s, Flip(side)))
  }

  /** What one sentence gives a discontinuous connective `p`: nothing
      unless the line contains its first part and then its second part,
      the first found before the second; an `IndexError` when the line
      contains `p`'s only part; otherwise exactly one observation. */
  function DiscontinuousObservation(s: SentencePair, side: Side, p: string): Result<Option<string>, Error>
    requires WellFormed(s)
  {
    var line := Line(s, side);
    var parts := SplitOn(p, PartSeparator);
    if !Contains(line, parts[0]) then Success(None)
    else if |parts| < 2 then Failure(IndexError)
    else if !Contains(line, parts[1]) then Success(None)
    else if Find(line, parts[0]).value >= Find(line, parts[1]).value then Success(None)
    else Success(Some(SpansObservation(s, side, RecordSpans(Tokens(s, side), parts))))
  }

  /** When a sentence fails, qualifies or is passed over, and that a
      qualifying sentence none of whose parts occur as tokens yields the
      empty string. */
  lemma DiscontinuousOutcome(s: SentencePair, side: Side, p: string)
    requires WellFormed(s)
    ensures var line, parts, r := Line(s, side), SplitOn(p, PartSeparator), DiscontinuousObservation(s, side, p);
      && (r.Failure? <==> Contains(line, parts[0]) && !Contains(p, PartSeparator))
      && (r.Failure? ==> r.error == IndexError)
      && (r.Success? && r.value.Some? <==>
            && Contains(p, PartSeparator) && Contains(line, parts[0]) && Contains(line, parts[1])
            && Find(line, parts[0]).value < Find(line, parts[1]).value)
      && (r.Success? && r.value.Some? && RecordSpans(Tokens(s, side), parts) == [] ==> r.value.value == "")
  {
    var toks := Tokens(s, side);
    var parts := SplitOn(p, PartSeparator);
    if RecordSpans(toks, parts) == [] {
      ProjectSmall([], Tokens(s, Flip(side)));
    }
  }

  /** What one phrase gives one sentence: an observation, nothing, or an
      exception. */
  type Outcome = Result<Option<string>, Error>

  /** The list one sentence appends to a phrase's list. */
  function Appended(r: Outcome): seq<string> {
    if r.Success? && r.value.Some? then [r.value.value] else []
  }

  /** The table after one phrase of one sentence, or the exception. */
  function AfterPhrase(t: ObsTable, p: string, r: Outcome): Result<ObsTable, Error> {
    if r.Failure? then Failure(r.error) else Success(Extend(t, p, Appended(r)))
  }

  /** Folds the outcomes of one sentence's phrases, in order, into the
      table, until one of them is an exception. */
  function FoldOutcomes(t: ObsTable, ks: seq<string>, rs: seq<Outcome>): Result<ObsTable, Error>
    requires |ks| == |rs|
  {
    if ks == [] then Success(t)
    else
      var n := |ks| - 1;
      var before := FoldOutcomes(t, ks[..n], rs[..n]);
      if before.Failure? then before else AfterPhrase(before.value, ks[n], rs[n])
  }

  predicate SomeFailure(rs: seq<Outcome>) {
    exists i :: 0 <= i < |rs| && rs[i].Failure?
  }

  lemma SomeFailureSnoc(rs: seq<Outcome>)
    requires rs != []
    ensures SomeFailure(rs) <==> SomeFailure(rs[..|rs| - 1]) || rs[|rs| - 1].Failure?
  {
    var n := |rs| - 1;
    if SomeFailure(rs[..n]) {
      var i :| 0 <= i < n && rs[..n][i].Failure?;
      assert rs[i].Failure?;
    }
  }

  /** What the outcomes of the phrases equal to `p` append, in order. */
  function Observed(ks: seq<string>, rs: seq<Outcome>, p: string): seq<string>
    requires |ks| == |rs|
  {
    if ks == [] then []
    else
      var n := |ks| - 1;
      Observed(ks[..n], rs[..n], p) + (if ks[n] == p then Appended(rs[n]) else [])
  }

  /** The fold raises exactly when one of the outcomes is an exception;
      otherwise every phrase's list grows by what its outcomes append,
      no list is left empty and only the phrases become new keys. */
  lemma {:induction false} FoldOutcomesSpec(t: ObsTable, ks: seq<string>, rs: seq<Outcome>, p: string)
    requires |ks| == |rs| && NoEmptyLists(t)
    ensures FoldOutcomes(t, ks, rs).Failure? <==> SomeFailure(rs)
    ensures FoldOutcomes(t, ks, rs).Success? ==>
      && Get(FoldOutcomes(t, ks, rs).value, p) == Get(t, p) + Observed(ks, rs, p)
      && NoEmptyLists(FoldOutcomes(t, ks, rs).value)
      && FoldOutcomes(t, ks, rs).value.Keys <= t.Keys + set k | k in ks
  {
    if ks != [] {
      var n := |ks| - 1;
      FoldOutcomesSpec(t, ks[..n], rs[..n], p);
      SomeFailureSnoc(rs);
      var before := FoldOutcomes(t, ks[..n], rs[..n]);
      if before.Success? && rs[n].Success? {
        var prev := before.value;
        var obs := Observed(ks[..n], rs[..n], p);
        assert FoldOutcomes(t, ks, rs).value == Extend(prev, ks[n], Appended(rs[n]));
        ExtendKeepsNoEmptyLists(prev, ks[n], Appended(rs[n]));
        assert (set k | k in ks[..n]) <= (set k | k in ks);
        if ks[n] == p {
          ConcatAssoc(Get(t, p), obs, Appended(rs[n]));
        }
      }
    }
  }

  lemma FoldOutcomesSnoc(t: ObsTable, ks: seq<string>, rs: seq<Outcome>, m: nat, current: ObsTable)
    requires |ks| == |rs| && m < |ks|
    requires FoldOutcomes(t, ks[..m], rs[..m]) == Success(current)
    ensures FoldOutcomes(t, ks[..m + 1], rs[..m + 1]) == AfterPhrase(current, ks[m], rs[m])
  {
    TakeTake(ks, m);
    TakeTake(rs, m);
  }

  lemma {:induction false} FoldOutcomesPrefixFails(t: ObsTable, ks: seq<string>, rs: seq<Outcome>, m: nat)
    requires |ks| == |rs| && m <= |ks|
    requires FoldOutcomes(t, ks[..m], rs[..m]).Failure?
    ensures FoldOutcomes(t, ks, rs) == FoldOutcomes(t, ks[..m], rs[..m])
    decreases |ks|
  {
    if m == |ks| {
      TakeAll(ks);
      TakeAll(rs);
    } else {
      var n := |ks| - 1;
      TakeOfTake(ks, n, m);
      TakeOfTake(rs, n, m);
      FoldOutcomesPrefixFails(t, ks[..n], rs[..n], m);
    }
  }

  /** When every listing of `p` has the same outcome, `p` receives that
      outcome's observation once per listing. */
  lemma {:induction false} ObservedUniform(ks: seq<string>, rs: seq<Outcome>, p: string, r: Outcome)
    requires |ks| == |rs|
    requires forall i :: 0 <= i < |ks| && ks[i] == p ==> rs[i] == r
    ensures Observed(ks, rs, p) == Repeat(Appended(r), Count(ks, p))
  {
    if ks != [] {
      var n := |ks| - 1;
      ObservedUniform(ks[..n], rs[..n], p, r);
      CountSnoc(ks, p);
      if ks[n] == p {
        RepeatSnoc(Appended(r), Count(ks[..n], p));
      }
    }
  }

  function AllSized(ks: seq<string>, rss: seq<seq<Outcome>>): bool {
    forall i :: 0 <= i < |rss| ==> |rss[i]| == |ks|
  }

  /** The sentences in order, each folding its outcomes into the table;
      the first exception ends the run. */
  function FoldCorpus(t: ObsTable, ks: seq<string>, rss: seq<seq<Outcome>>): Result<ObsTable, Error>
    requires AllSized(ks, rss)
  {
    if rss == [] then Success(t)
    else
      var n := |rss| - 1;
      var before := FoldCorpus(t, ks, rss[..n]);
      if before.Failure? then before else FoldOutcomes(before.value, ks, rss[n])
  }

  predicate AnyFailure(rss: seq<seq<Outcome>>) {
    exists i :: 0 <= i < |rss| && SomeFailure(rss[i])
  }

  lemma AnyFailureSnoc(rss: seq<seq<Outcome>>)
    requires rss != []
    ensures AnyFailure(rss) <==> AnyFailure(rss[..|rss| - 1]) || SomeFailure(rss[|rss| - 1])
  {
    var n := |rss| - 1;
    if AnyFailure(rss[..n]) {
      var i :| 0 <= i < n && SomeFailure(rss[..n][i]);
      assert SomeFailure(rss[i]);
    }
  }

  /** What the whole corpus appends to `p`, sentence after sentence. */
  function ObservedAll(ks: seq<string>, rss: seq<seq<Outcome>>, p: string): seq<string>
    requires AllSized(ks, rss)
  {
    if rss == [] then []
    else
      var n := |rss| - 1;
      ObservedAll(ks, rss[..n], p) + Observed(ks, rss[n], p)
  }

  lemma {:induction false} FoldCorpusSpec(t: ObsTable, ks: seq<string>, rss: seq<seq<Outcome>>, p: string)
    requires AllSized(ks, rss) && NoEmptyLists(t)
    ensures FoldCorpus(t, ks, rss).Failure? <==> AnyFailure(rss)
    ensures FoldCorpus(t, ks, rss).Success? ==>
      && Get(FoldCorpus(t, ks, rss).value, p) == Get(t, p) + ObservedAll(ks, rss, p)
      && NoEmptyLists(FoldCorpus(t, ks, rss).value)
      && FoldCorpus(t, ks, rss).value.Keys <= t.Keys + set k | k in ks
  {
    if rss != [] {
      var n := |rss| - 1;
      FoldCorpusSpec(t, ks, rss[..n], p);
      AnyFailureSnoc(rss);
      var before := FoldCorpus(t, ks, rss[..n]);
      if before.Success? {
        FoldOutcomesSpec(before.value, ks, rss[n], p);
        if FoldOutcomes(before.value, ks, rss[n]).Success? {
          ConcatAssoc(Get(t, p), ObservedAll(ks, rss[..n], p), Observed(ks, rss[n], p));
        }
      }
    }
  }

  lemma FoldCorpusSnoc(t: ObsTable, ks: seq<string>, rss: seq<seq<Outcome>>, m: nat, current: ObsTable)
    requires AllSized(ks, rss) && m < |rss|
    requires FoldCorpus(t, ks, rss[..m]) == Success(current)
    ensures FoldCorpus(t, ks, rss[..m + 1]) == FoldOutcomes(current, ks, rss[m])
  {
    TakeTake(rss, m);
  }

  lemma {:induction false} FoldCorpusPrefixFails(t: ObsTable, ks: seq<string>, rss: seq<seq<Outcome>>, m: nat)
    requires AllSized(ks, rss) && m <= |rss|
    requires FoldCorpus(t, ks, rss[..m]).Failure?
    ensures FoldCorpus(t, ks, rss) == FoldCorpus(t, ks, rss[..m])
    decreases |rss|
  {
    if m == |rss| {
      TakeAll(rss);
    } else {
      var n := |rss| - 1;
      TakeOfTake(rss, n, m);
      FoldCorpusPrefixFails(t, ks, rss[..n], m);
    }
  }

  /** What every phrase of the list gives one sentence. */
  function SentenceOutcomes(s: SentencePair, side: Side, phrases: seq<string>): (rs: seq<Outcome>)
    requires WellFormed(s)
    ensures |rs| == |phrases|
    ensures forall i :: 0 <= i < |phrases| ==> rs[i] == DiscontinuousObservation(s, side, phrases[i])
  {
    seq(|phrases|, i requires 0 <= i < |phrases| => DiscontinuousObservation(s, side, phrases[i]))
  }

  /** What every phrase of the list gives every sentence of the corpus. */
  function CorpusOutcomes(corpus: seq<SentencePair>, side: Side, phrases: seq<string>): (rss: seq<seq<Outcome>>)
    requires AllWellFormed(corpus)
    ensures |rss| == |corpus| && AllSized(phrases, rss)
    ensures forall i :: 0 <= i < |corpus| ==> rss[i] == SentenceOutcomes(corpus[i], side, phrases)
  {
    seq(|corpus|, i requires 0 <= i < |corpus| => SentenceOutcomes(corpus[i], side, phrases))
  }

  predicate IndexErrorsOnly(rs: seq<Outcome>) {
    forall i :: 0 <= i < |rs| && rs[i].Failure? ==> rs[i].error == IndexError
  }

  lemma {:induction false} FoldOutcomesError(t: ObsTable, ks: seq<string>, rs: seq<Outcome>)
    requires |ks| == |rs| && IndexErrorsOnly(rs)
    ensures FoldOutcomes(t, ks, rs).Failure? ==> FoldOutcomes(t, ks, rs).error == IndexError
  {
    if ks != [] {
      var n := |ks| - 1;
      FoldOutcomesError(t, ks[..n], rs[..n]);
    }
  }

  lemma {:induction false} FoldCorpusError(t: ObsTable, ks: seq<string>, rss: seq<seq<Outcome>>)
    requires AllSized(ks, rss)
    requires forall i :: 0 <= i < |rss| ==> IndexErrorsOnly(rss[i])
    ensures FoldCorpus(t, ks, rss).Failure? ==> FoldCorpus(t, ks, rss).error == IndexError
  {
    if rss != [] {
      var n := |rss| - 1;
      FoldCorpusError(t, ks, rss[..n]);
      var before := FoldCorpus(t, ks, rss[..n]);
      if before.Success? {
        FoldOutcomesError(before.value, ks, rss[n]);
      }
    }
  }

  /** One sentence of `parse_discontinuous`: the phrases in order, until
      one raises. */
  function AddDiscontinuous(t: ObsTable, s: SentencePair, side: Side, phrases: seq<string>): Result<ObsTable, Error>
    requires WellFormed(s)
  {
    FoldOutcomes(t, phrases, SentenceOutcomes(s, side, phrases))
  }

  /** The result of `parse_discontinuous` for a corpus. */
  function DiscontinuousTable(corpus: seq<SentencePair>, side: Side, phrases: seq<string>): Result<ObsTable, Error>
    requires AllWellFormed(corpus)
  {
    FoldCorpus(map[], phrases, CorpusOutcomes(corpus, side, phrases))
  }

  /** Everything the corpus says about a discontinuous connective `p`:
      per sentence, its observation, if any, as many times over as `p` is
      listed. */
  function DiscontinuousEvidence(corpus: seq<SentencePair>, side: Side, phrases: seq<string>, p: string): seq<string>
    requires AllWellFormed(corpus)
  {
    if corpus == [] then []
    else
      var n := |corpus| - 1;
      DiscontinuousEvidence(corpus[..n], side, phrases, p)
        + Repeat(Appended(DiscontinuousObservation(corpus[n], side, p)), Count(phrases, p))
  }

  lemma {:induction false} ObservedAllIsEvidence(corpus: seq<SentencePair>, side: Side, phrases: seq<string>, rss: seq<seq<Outcome>>, p: string)
    requires AllWellFormed(corpus) && |rss| == |corpus| && AllSized(phrases, rss)
    requires forall i :: 0 <= i < |corpus| ==> rss[i] == SentenceOutcomes(corpus[i], side, phrases)
    ensures ObservedAll(phrases, rss, p) == DiscontinuousEvidence(corpus, side, phrases, p)
  {
    if corpus != [] {
      var n := |corpus| - 1;
      ObservedAllIsEvidence(corpus[..n], side, phrases, rss[..n], p);
      ObservedUniform(phrases, rss[n], p, DiscontinuousObservation(corpus[n], side, p));
    }
  }

  /** `parse_discontinuous` raises exactly when some listed phrase raises
      on some sentence; otherwise the table holds, for every phrase,
      everything the corpus says about it, a phrase is a key exactly when
      there is something to say, and only listed phrases are keys. */
  lemma DiscontinuousTableSpec(corpus: seq<SentencePair>, side: Side, phrases: seq<string>, p: string)
    requires AllWellFormed(corpus)
    ensures DiscontinuousTable(corpus, side, phrases).Failure? <==>
      exists i, j :: 0 <= i < |corpus| && 0 <= j < |phrases| && DiscontinuousObservation(corpus[i], side, phrases[j]).Failure?
    ensures DiscontinuousTable(corpus, side, phrases).Success? ==>
      && Get(DiscontinuousTable(corpus, side, phrases).value, p) == DiscontinuousEvidence(corpus, side, phrases, p)
      && (p in DiscontinuousTable(corpus, side, phrases).value <==> DiscontinuousEvidence(corpus, side, phrases, p) != [])
      && DiscontinuousTable(corpus, side, phrases).value.Keys <= set q | q in phrases
  {
    var rss := CorpusOutcomes(corpus, side, phrases);
    FoldCorpusSpec(map[], phrases, rss, p);
    ObservedAllIsEvidence(corpus, side, phrases, rss, p);
    if AnyFailure(rss) {
      var i :| 0 <= i < |rss| && SomeFailure(rss[i]);
      var j :| 0 <= j < |rss[i]| && rss[i][j].Failure?;
      assert DiscontinuousObservation(corpus[i], side, phrases[j]).Failure?;
    }
  }

  /** The only exception `parse_discontinuous` raises is the
      `IndexError` of a phrase without a part separator. */
  lemma DiscontinuousTableError(corpus: seq<SentencePair>, side: Side, phrases: seq<string>)
    requires AllWellFormed(corpus)
    ensures DiscontinuousTable(corpus, side, phrases).Failure? ==>
      DiscontinuousTable(corpus, side, phrases).error == IndexError
  {
    var rss := CorpusOutcomes(corpus, side, phrases);
    forall i | 0 <= i < |rss|
      ensures IndexErrorsOnly(rss[i])
    {
      forall j | 0 <= j < |rss[i]|
        ensures rss[i][j].Failure? ==> rss[i][j].error == IndexError
      {
        DiscontinuousOutcome(corpus[i], side, phrases[j]);
      }
    }
    FoldCorpusError(map[], phrases, rss);
  }

  /** The tests of `parse_discontinuous` on one phrase and one sentence. */
  method ObserveDiscontinuous(s: SentencePair, side: Side, p: string) returns (r: Outcome)
    requires WellFormed(s)
    ensures r == DiscontinuousObservation(s, side, p)
  {
    var line := Line(s, side);
    var parts := SplitOn(p, PartSeparator);
    if !Contains(line, parts[0]) {
      return Success(None);
    }
    if |parts| < 2 {
      return Failure(IndexError);
    }
    if Contains(line, parts[1]) && Find(line, parts[0]).value < Find(line, parts[1]).value {
      var spans := RecordPartSpans(Tokens(s, side), parts);
      var indices := CollectSpans(s.pairs, side, spans);
      CollectAllInRange(s, side, spans);
      var o := ProjectIndices(indices, Tokens(s, Flip(side)), 1);
      return Success(Some(o));
    }
    return Success(None);
  }

  /** The phrase loop of `parse_discontinuous` for one sentence. */
  method ParseSentenceDiscontinuous(table: ObsTable, s: SentencePair, side: Side, phrases: seq<string>)
    returns (r: Result<ObsTable, Error>)
    requires WellFormed(s)
    ensures r == AddDiscontinuous(table, s, side, phrases)
  {
    ghost var rs := SentenceOutcomes(s, side, phrases);
    var current := table;
    var m := 0;
    while m < |phrases|
      invariant 0 <= m <= |phrases|
      invariant FoldOutcomes(table, phrases[..m], rs[..m]) == Success(current)
    {
      FoldOutcomesSnoc(table, phrases, rs, m, current);
      var o := ObserveDiscontinuous(s, side, phrases[m]);
      if o.Failure? {
        FoldOutcomesPrefixFails(table, phrases, rs, m + 1);
        return Failure(o.error);
      }
      current := Extend(current, phrases[m], Appended(o));
      m := m + 1;
    }
    TakeAll(phrases);
    TakeAll(rs);
    return Success(current);
  }

  /** `parse_discontinuous` over an in-memory corpus; an exception ends
      the whole run. */
  method ParseDiscontinuous(corpus: seq<SentencePair>, side: Side, phrases: seq<string>) returns (r: Result<ObsTable, Error>)
    requires AllWellFormed(corpus)
    ensures r == DiscontinuousTable(corpus, side, phrases)
  {
    ghost var rss := CorpusOutcomes(corpus, side, phrases);
    var table := map[];
    var n := 0;
    while n < |corpus|
      invariant 0 <= n <= |corpus|
      invariant FoldCorpus(map[], phrases, rss[..n]) == Success(table)
    {
      FoldCorpusSnoc(map[], phrases, rss, n, table);
      var next := ParseSentenceDiscontinuous(table, corpus[n], side, phrases);
      if next.Failure? {
        FoldCorpusPrefixFails(map[], phrases, rss, n + 1);
        return next;
      }
      table := next.value;
      n := n + 1;
    }
    TakeAll(rss);
    return Success(table);
  }
}
