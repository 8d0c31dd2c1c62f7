/** The processing and filtering stage of the miner: punctuation at the
    edges of phrases, punctuation values, counting observations, turning
    counts into relative frequencies and dropping rare or improbable
    alignments. Each loop of the original is a method proved equal to a
    declarative definition; the lemmas state what the stage promises. */
module Filtering {
  import opened Wrappers
  import opened Text
  import opened Tables

  /** Number of whitespace-separated tokens of an aligned value
      (`len(value.split())`). */
  function TokenCount(v: string): nat {
    |Words(v)|
  }

  // ---------------------------------------------------------------------
  // remove_punct_phrases

  /** `tok in string.punctuation + "¿"`: a substring test, so the empty
      token and runs such as `"()"` count as punctuation too. */
  predicate IsPunctToken(tok: string) {
    Contains(PunctuationWithInvertedQuestion, tok)
  }

  /** `s[1:]` when `cut` holds. */
  function DropFirstIf(s: seq<string>, cut: bool): seq<string>
    requires cut ==> s != []
  {
    if cut then s[1..] else s
  }

  /** `s[:-1]` when `cut` holds. */
  function DropLastIf(s: seq<string>, cut: bool): seq<string>
    requires cut ==> s != []
  {
    if cut then s[..|s| - 1] else s
  }

  /** Strips one leading and one trailing punctuation token, then one
      leading and one trailing `"..."`, from a phrase of two or more
      tokens; an emptied phrase becomes `[""]`. */
  function RemovePunctPhrases(tokens: seq<string>): (r: seq<string>)
    ensures |tokens| <= 1 ==> r == tokens
    ensures |tokens| > 1 ==> 1 <= |r| <= |tokens|
  {
    if |tokens| <= 1 then tokens
    else StripEnds(tokens, IsPunctToken(tokens[0]), IsPunctToken(tokens[|tokens| - 1]))
  }

  /** The stripping of a phrase of two or more tokens, given whether its
      first and its last token are punctuation. */
  function StripEnds(tokens: seq<string>, punctFirst: bool, punctLast: bool): (r: seq<string>)
    requires |tokens| > 1
    ensures 1 <= |r| <= |tokens|
  {
    var a := DropFirstIf(tokens, punctFirst);
    var b := DropLastIf(a, punctLast);
    var c := DropFirstIf(b, b != [] && b[0] == Ellipsis);
    var d := DropLastIf(c, c != [] && c[|c| - 1] == Ellipsis);
    if d == [] then [""] else d
  }

  /** Dropping the first element of a slice moves its start. */
  lemma DropFirstSlice(s: seq<string>, lo: nat, hi: nat, cut: bool)
    requires lo <= hi <= |s| && (cut ==> lo < hi)
    ensures DropFirstIf(s[lo..hi], cut) == s[(if cut then lo + 1 else lo)..hi]
  {
  }

  /** Dropping the last element of a slice moves its end. */
  lemma DropLastSlice(s: seq<string>, lo: nat, hi: nat, cut: bool)
    requires lo <= hi <= |s| && (cut ==> lo < hi)
    ensures DropLastIf(s[lo..hi], cut) == s[lo..(if cut then hi - 1 else hi)]
  {
  }

  /** What survives is `[""]` or a contiguous run of the phrase that lost
      at most two tokens at each end. */
  lemma RemovePunctPhrasesIsInnerRun(tokens: seq<string>)
    requires |tokens| > 1
    ensures var r := RemovePunctPhrases(tokens);
      || r == [""]
      || exists lo, hi :: 0 <= lo <= 2 && lo < hi && |tokens| - 2 <= hi <= |tokens| && r == tokens[lo..hi]
  {
    StripEndsIsInnerRun(tokens, IsPunctToken(tokens[0]), IsPunctToken(tokens[|tokens| - 1]));
  }

  lemma StripEndsIsInnerRun(tokens: seq<string>, punctFirst: bool, punctLast: bool)
    requires |tokens| > 1
    ensures var r := StripEnds(tokens, punctFirst, punctLast);
      || r == [""]
      || exists lo, hi :: 0 <= lo <= 2 && lo < hi && |tokens| - 2 <= hi <= |tokens| && r == tokens[lo..hi]
  {
    var n := |tokens|;
    SliceWhole(tokens);
    var a := DropFirstIf(tokens, punctFirst);
    DropFirstSlice(tokens, 0, n, punctFirst);
    var lo := if punctFirst then 1 else 0;
    var b := DropLastIf(a, punctLast);
    DropLastSlice(tokens, lo, n, punctLast);
    var hi := if punctLast then n - 1 else n;
    var cut2 := b != [] && b[0] == Ellipsis;
    var c := DropFirstIf(b, cut2);
    DropFirstSlice(tokens, lo, hi, cut2);
    var lo' := if cut2 then lo + 1 else lo;
    var cut3 := c != [] && c[|c| - 1] == Ellipsis;
    var d := DropLastIf(c, cut3);
    DropLastSlice(tokens, lo', hi, cut3);
    var hi' := if cut3 then hi - 1 else hi;
    assert d == tokens[lo'..hi'];
    if d != [] {
      assert 0 <= lo' <= 2 && lo' < hi' && n - 2 <= hi' <= n;
    }
  }

  /** A phrase whose first and last tokens are words, not punctuation and
      not `"..."`, is kept whole. */
  lemma RemovePunctPhrasesKeepsWordBoundedPhrase(tokens: seq<string>)
    requires |tokens| > 1
    requires !IsPunctToken(tokens[0]) && tokens[0] != Ellipsis
    requires !IsPunctToken(tokens[|tokens| - 1]) && tokens[|tokens| - 1] != Ellipsis
    ensures RemovePunctPhrases(tokens) == tokens
  {
  }

  // ---------------------------------------------------------------------
  // remove_punct_values

  /** One value: a non-empty value that occurs in `string.punctuation`
      becomes the empty string. */
  function BlankPunct(w: string): (b: string)
    ensures b == "" || b == w
  {
    if w != "" && Contains(Punctuation, w) then "" else w
  }

  function BlankAll(ws: seq<string>): (bs: seq<string>)
    ensures |bs| == |ws|
  {
    seq(|ws|, i requires 0 <= i < |ws| => BlankPunct(ws[i]))
  }

  /** The table `remove_punct_values` builds: connectives with no
      observation disappear, every other list keeps its length and order
      with punctuation values blanked. */
  function PunctBlanked(d: ObsTable): ObsTable {
    map s | s in d && d[s] != [] :: BlankAll(d[s])
  }

  method RemovePunctValues(d: ObsTable) returns (noPunct: ObsTable)
    ensures noPunct == PunctBlanked(d)
  {
    noPunct := map[];
    var todo := d.Keys;
    while todo != {}
      invariant todo <= d.Keys
      invariant noPunct.Keys == set s | s in d && s !in todo && d[s] != []
      invariant forall s :: s in noPunct ==> noPunct[s] == BlankAll(d[s])
      decreases todo
    {
      var source :| source in todo;
      noPunct := BlankInto(noPunct, source, d[source]);
      todo := todo - {source};
    }
  }

  /** The inner loop over one connective's values: each is appended to the
      connective's new list, blanked when it is punctuation. */
  method BlankInto(table: ObsTable, source: string, target: seq<string>) returns (table': ObsTable)
    requires source !in table
    ensures table' == if target == [] then table else table[source := BlankAll(target)]
  {
    table' := table;
    for i := 0 to |target|
      invariant table' == if i == 0 then table else table[source := BlankAll(target[..i])]
    {
      var word := target[i];
      BlankAllSnoc(target, i);
      if word != "" && Contains(Punctuation, word) {
        table' := Extend(table', source, [""]);
      } else {
        table' := Extend(table', source, [word]);
      }
    }
    TakeAll(target);
  }

  lemma BlankAllSnoc(ws: seq<string>, i: nat)
    requires i < |ws|
    ensures BlankAll(ws[..i + 1]) == BlankAll(ws[..i]) + [BlankPunct(ws[i])]
  {
    assert BlankAll(ws[..i + 1]) == BlankAll(ws[..i]) + [BlankPunct(ws[i])];
  }

  /** Blanking punctuation a second time changes nothing. */
  lemma PunctBlankedIdempotent(d: ObsTable)
    ensures PunctBlanked(PunctBlanked(d)) == PunctBlanked(d)
  {
    var once := PunctBlanked(d);
    forall s | s in once
      ensures BlankAll(once[s]) == once[s]
    {
      assert forall i :: 0 <= i < |once[s]| ==> BlankPunct(once[s][i]) == once[s][i];
    }
  }

  /** No value left in the table is a non-empty punctuation string, and a
      value that is not one is carried over at its position. */
  lemma PunctBlankedValues(d: ObsTable, s: string, i: nat)
    requires s in d && i < |d[s]|
    ensures s in PunctBlanked(d)
    ensures var w := PunctBlanked(d)[s][i];
      && !(w != "" && Contains(Punctuation, w))
      && (d[s][i] == "" || !Contains(Punctuation, d[s][i]) ==> w == d[s][i])
  {
  }

  // ---------------------------------------------------------------------
  // conn_count

  /** What `conn_count` builds from a plain dictionary: a `Counter` for
      every connective of the lexicon that has an entry. */
  function Counts(alignments: ObsTable, lex: seq<string>): CountTable {
    map k | k in lex && k in alignments :: multiset(alignments[k])
  }

  method ConnCount(alignments: ObsTable, lex: seq<string>) returns (count: CountTable)
    ensures count == Counts(alignments, lex)
  {
    count := map[];
    var i := 0;
    while i < |lex|
      invariant 0 <= i <= |lex|
      invariant count == map k | k in lex[..i] && k in alignments :: multiset(alignments[k])
    {
      var key := lex[i];
      if key in alignments {
        count := count[key := multiset(alignments[key])];
      }
      assert lex[..i + 1] == lex[..i] + [key];
      i := i + 1;
    }
    assert lex[..i] == lex;
  }

  /** What `conn_count` builds from a `defaultdict(list)`, where the read
      never raises: a `Counter` for every connective of the lexicon, empty
      for one never observed. */
  function DefaultCounts(alignments: ObsTable, lex: seq<string>): CountTable {
    map k | k in lex :: multiset(Get(alignments, k))
  }

  /** The `defaultdict(list)` as `conn_count` leaves it: each read of a
      missing connective has inserted it with `[]`. */
  function Padded(alignments: ObsTable, lex: seq<string>): ObsTable {
    map k | k in alignments.Keys + (set w | w in lex) :: Get(alignments, k)
  }

  /** `conn_count` on a `defaultdict(list)`: the counts, and the table
      after its reads. */
  method ConnCountDefault(alignments: ObsTable, lex: seq<string>) returns (count: CountTable, read: ObsTable)
    ensures count == DefaultCounts(alignments, lex)
    ensures read == Padded(alignments, lex)
  {
    count := map[];
    read := alignments;
    for i := 0 to |lex|
      invariant count == DefaultCounts(alignments, lex[..i])
      invariant read == Padded(alignments, lex[..i])
    {
      var key := lex[i];
      var seen := Get(read, key);
      DefaultCountsSnoc(alignments, lex, i);
      PaddedSnoc(alignments, lex, i);
      read := read[key := seen];
      count := count[key := multiset(seen)];
    }
    assert lex[..|lex|] == lex;
  }

  /** One more connective read: it is counted. */
  lemma DefaultCountsSnoc(alignments: ObsTable, lex: seq<string>, i: nat)
    requires i < |lex|
    ensures DefaultCounts(alignments, lex[..i + 1]) == DefaultCounts(alignments, lex[..i])[lex[i] := multiset(Get(alignments, lex[i]))]
  {
    assert lex[..i + 1] == lex[..i] + [lex[i]];
  }

  /** One more connective read: it is padded, and reads as before. */
  lemma PaddedSnoc(alignments: ObsTable, lex: seq<string>, i: nat)
    requires i < |lex|
    ensures Get(Padded(alignments, lex[..i]), lex[i]) == Get(alignments, lex[i])
    ensures Padded(alignments, lex[..i + 1]) == Padded(alignments, lex[..i])[lex[i] := Get(alignments, lex[i])]
  {
    assert lex[..i + 1] == lex[..i] + [lex[i]];
  }

  /** On a `defaultdict(list)`, `conn_count` counts every connective of the
      lexicon. One with an entry is counted as on a plain dictionary, and
      one without gets an empty `Counter` and is padded with `[]`. */
  lemma DefaultCountsExtend(alignments: ObsTable, lex: seq<string>, k: string)
    ensures k in DefaultCounts(alignments, lex) <==> k in lex
    ensures k in Counts(alignments, lex) ==> DefaultCounts(alignments, lex)[k] == Counts(alignments, lex)[k]
    ensures k in lex && k !in alignments ==> DefaultCounts(alignments, lex)[k] == multiset{}
    ensures k in Padded(alignments, lex) <==> k in alignments || k in lex
    ensures k in lex && k !in alignments ==> Padded(alignments, lex)[k] == []
  {
  }

  /** What one connective reads in the counts and in the padded table. */
  lemma DefaultCountsAt(alignments: ObsTable, lex: seq<string>, k: string)
    ensures k in DefaultCounts(alignments, lex) <==> k in lex
    ensures k in lex ==> DefaultCounts(alignments, lex)[k] == multiset(Get(alignments, k))
    ensures k in Padded(alignments, lex) <==> k in alignments || k in lex
    ensures k in Padded(alignments, lex) ==> Padded(alignments, lex)[k] == Get(alignments, k)
  {
  }

  /** The empty lists the reads add are dropped again by
      `remove_punct_values`. */
  lemma PaddingBlankedAway(alignments: ObsTable, lex: seq<string>)
    ensures PunctBlanked(Padded(alignments, lex)) == PunctBlanked(alignments)
  {
    var p := Padded(alignments, lex);
    assert forall s :: s in p && p[s] != [] ==> s in alignments && p[s] == alignments[s];
  }

  /** Every count covers exactly the observations of its connective. */
  lemma CountsAreObservations(alignments: ObsTable, lex: seq<string>, k: string, v: string)
    requires k in Counts(alignments, lex)
    ensures k in lex && k in alignments
    ensures Counts(alignments, lex)[k][v] == Count(alignments[k], v)
    ensures |Counts(alignments, lex)[k]| == |alignments[k]|
  {
    CountIsMultiplicity(alignments[k], v);
  }

  // ---------------------------------------------------------------------
  // alignment_probabilities

  lemma MultiplicityAtMostSize(ms: multiset<string>, w: string)
    ensures ms[w] <= |ms|
  {
    assert ms == ms[w := 0] + multiset{}[w := ms[w]];
  }

  /** The relative frequency of each value among the observations of one
      connective. */
  function Distribution(obs: seq<string>): map<string, real> {
    if obs == [] then map[]
    else map w | w in multiset(obs) :: (multiset(obs)[w] as real) / (|obs| as real)
  }

  /** The frequencies of the values seen lie in (0, 1] and add up to 1. */
  lemma {:induction false} DistributionIsProbability(obs: seq<string>)
    requires obs != []
    ensures Distribution(obs).Keys == set w | w in obs
    ensures forall w :: w in Distribution(obs) ==> 0.0 < Distribution(obs)[w] <= 1.0
    ensures Sum(Distribution(obs)) == 1.0
  {
    var ms := multiset(obs);
    var n := |obs|;
    var p := Distribution(obs);
    var q := map w | w in ms :: (ms[w] as real) / (n as real);
    forall w | w in p
      ensures 0.0 < p[w] <= 1.0
    {
      MultiplicityAtMostSize(ms, w);
      RatioInUnit(ms[w], n);
    }
    SumOfCounts(ms, n as real);
    assert |ms| == n;
    SelfRatio(n);
    assert p == q;
  }

  lemma SelfRatio(n: nat)
    requires n > 0
    ensures (n as real) / (n as real) == 1.0
  {
  }

  lemma RatioInUnit(a: nat, n: nat)
    requires 0 < a <= n
    ensures 0.0 < (a as real) / (n as real) <= 1.0
  {
    var q := (a as real) / (n as real);
    assert q * (n as real) == a as real;
  }

  /** The table `alignment_probabilities` returns. */
  function Probabilities(alignments: ObsTable): ProbTable {
    map k | k in alignments :: Distribution(alignments[k])
  }

  /** The relative frequency of `w` among `ms`, whose size is `n`. */
  function Frequency(ms: multiset<string>, w: string, n: nat): real
    requires n > 0
  {
    (ms[w] as real) / (n as real)
  }

  method AlignmentProbabilities(alignments: ObsTable) returns (connAlignments: ProbTable)
    ensures connAlignments == Probabilities(alignments)
  {
    // first pass: a Counter per connective
    var counters: map<string, multiset<string>> := map[];
    var todo := alignments.Keys;
    while todo != {}
      invariant todo <= alignments.Keys
      invariant counters == map k | k in alignments && k !in todo :: multiset(alignments[k])
      decreases todo
    {
      var key :| key in todo;
      counters := counters[key := multiset(alignments[key])];
      todo := todo - {key};
    }
    // second pass: each count over the sum of the counts
    connAlignments := map[];
    var keys := counters.Keys;
    while keys != {}
      invariant keys <= counters.Keys
      invariant connAlignments == map k | k in counters && k !in keys :: Distribution(alignments[k])
      decreases keys
    {
      var k :| k in keys;
      var exp := Frequencies(counters[k]);
      DistributionOfCounts(alignments[k]);
      connAlignments := connAlignments[k := exp];
      keys := keys - {k};
    }
  }

  /** The relative frequency of every value of a counter. */
  function CountRatios(v: multiset<string>): map<string, real> {
    map w | w in v :: (v[w] as real) / (|v| as real)
  }

  lemma DistributionOfCounts(obs: seq<string>)
    ensures Distribution(obs) == CountRatios(multiset(obs))
  {
  }

  /** The loop over one counter's values. */
  method Frequencies(v: multiset<string>) returns (exp: map<string, real>)
    ensures exp == CountRatios(v)
  {
    var total := |v|;
    exp := map[];
    var words := set w | w in v;
    while words != {}
      invariant forall w :: w in words ==> w in v
      invariant forall w :: w in words ==> total > 0
      invariant exp == map w | w in v && w !in words :: (v[w] as real) / (total as real)
      decreases words
    {
      var word :| word in words;
      exp := exp[word := Frequency(v, word, total)];
      words := words - {word};
    }
  }

  /** Every connective with observations gets a distribution: values in
      (0, 1] that add up to 1. */
  lemma ProbabilitiesAreDistributions(alignments: ObsTable, k: string)
    requires k in alignments && alignments[k] != []
    ensures k in Probabilities(alignments)
    ensures Sum(Probabilities(alignments)[k]) == 1.0
    ensures forall w :: w in Probabilities(alignments)[k] ==> 0.0 < Probabilities(alignments)[k][w] <= 1.0
    ensures Probabilities(alignments)[k].Keys == set w | w in alignments[k]
  {
    assert Probabilities(alignments)[k] == Distribution(alignments[k]);
    DistributionIsProbability(alignments[k]);
  }

  // ---------------------------------------------------------------------
  // filter_most_common_conns

  /** Whether an aligned value is dropped for a low probability: one-token
      values are held to the word threshold, longer ones to the phrase
      threshold, and the empty value (no tokens) to neither. */
  predicate ImprobableValue(v: string, p: real, wordThreshold: real, phraseThreshold: real) {
    || (TokenCount(v) == 1 && p < wordThreshold)
    || (TokenCount(v) > 1 && p < phraseThreshold)
  }

  function KeepProbable(targets: map<string, real>, wordThreshold: real, phraseThreshold: real): map<string, real> {
    map v | v in targets && !ImprobableValue(v, targets[v], wordThreshold, phraseThreshold) :: targets[v]
  }

  /** The table `filter_most_common_conns` returns. */
  function ProbabilityFiltered(d: ProbTable, wordThreshold: real, phraseThreshold: real): ProbTable {
    map s | s in d :: KeepProbable(d[s], wordThreshold, phraseThreshold)
  }

  method FilterMostCommonConns(d: ProbTable, wordThreshold: real, phraseThreshold: real)
    returns (filtered: ProbTable)
    ensures filtered == ProbabilityFiltered(d, wordThreshold, phraseThreshold)
  {
    filtered := d;
    var sources := d.Keys;
    while sources != {}
      invariant sources <= d.Keys
      invariant filtered.Keys == d.Keys
      invariant forall s :: s in d && s !in sources ==> filtered[s] == KeepProbable(d[s], wordThreshold, phraseThreshold)
      invariant forall s :: s in sources ==> filtered[s] == d[s]
      decreases sources
    {
      var source :| source in sources;
      var kept := DropImprobable(filtered[source], wordThreshold, phraseThreshold);
      filtered := filtered[source := kept];
      sources := sources - {source};
    }
  }

  /** The inner loop of `filter_most_common_conns`: every value below its
      threshold is deleted from one connective's dictionary. */
  method DropImprobable(target: map<string, real>, wordThreshold: real, phraseThreshold: real)
    returns (kept: map<string, real>)
    ensures kept == KeepProbable(target, wordThreshold, phraseThreshold)
  {
    kept := target;
    var conns := target.Keys;
    while conns != {}
      invariant conns <= target.Keys
      invariant kept == map v | v in target && (v in conns || !ImprobableValue(v, target[v], wordThreshold, phraseThreshold)) :: target[v]
      decreases conns
    {
      var conn :| conn in conns;
      var count := target[conn];
      if TokenCount(conn) == 1 {
        if count < wordThreshold {
          kept := kept - {conn};
        }
      }
      if TokenCount(conn) > 1 {
        if count < phraseThreshold {
          kept := kept - {conn};
        }
      }
      conns := conns - {conn};
    }
  }

  /** The probability filter keeps every connective and the empty value,
      and a value survives exactly when it meets its threshold, with its
      probability unchanged. */
  lemma ProbabilityFilterSpec(d: ProbTable, wordThreshold: real, phraseThreshold: real, s: string, v: string)
    requires s in d && v in d[s]
    ensures var f := ProbabilityFiltered(d, wordThreshold, phraseThreshold);
      && f.Keys == d.Keys
      && (v in f[s] <==> (TokenCount(v) == 1 ==> d[s][v] >= wordThreshold) && (TokenCount(v) > 1 ==> d[s][v] >= phraseThreshold))
      && (v in f[s] ==> f[s][v] == d[s][v])
      && (v == "" ==> v in f[s])
  {
    assert Words("") == [];
  }

  // ---------------------------------------------------------------------
  // remove_low_counts

  /** Whether an aligned value is dropped for a low count: one-token values
      are held to the word minimum, all others (the empty value included)
      to the phrase minimum. */
  predicate RareValue(v: string, n: nat, wordCount: int, phraseCount: int) {
    if TokenCount(v) == 1 then n < wordCount else n < phraseCount
  }

  /** Whether `remove_low_counts` raises `KeyError`: a connective with
      at least one aligned value has no counts. */
  predicate MissingCounts(prob: ProbTable, count: CountTable) {
    exists s :: s in prob && prob[s] != map[] && s !in count
  }

  function KeepFrequent(targets: map<string, real>, counter: multiset<string>, wordCount: int, phraseCount: int): map<string, real> {
    map v | v in targets && !RareValue(v, counter[v], wordCount, phraseCount) :: targets[v]
  }

  /** The table `remove_low_counts` returns when it does not raise: a
      connective without counts has no aligned values and stays as it is. */
  function FrequentOnly(prob: ProbTable, count: CountTable, wordCount: int, phraseCount: int): ProbTable {
    map s | s in prob :: if s in count then KeepFrequent(prob[s], count[s], wordCount, phraseCount) else prob[s]
  }

  /** The outcome of `remove_low_counts`. */
  function CountFiltered(prob: ProbTable, count: CountTable, wordCount: int, phraseCount: int): Result<ProbTable, Error> {
    if MissingCounts(prob, count) then Failure(KeyError)
    else Success(FrequentOnly(prob, count, wordCount, phraseCount))
  }

  method RemoveLowCounts(prob: ProbTable, count: CountTable, wordCount: int, phraseCount: int)
    returns (r: Result<ProbTable, Error>)
    ensures r == CountFiltered(prob, count, wordCount, phraseCount)
  {
    var filtered := prob;
    var sources := prob.Keys;
    while sources != {}
      invariant sources <= prob.Keys
      invariant filtered.Keys == prob.Keys
      invariant forall s :: s in prob && s !in sources ==> s in count || prob[s] == map[]
      invariant forall s :: s in prob && s !in sources ==> filtered[s] == FrequentOnly(prob, count, wordCount, phraseCount)[s]
      invariant forall s :: s in sources ==> filtered[s] == prob[s]
      decreases sources
    {
      var source :| source in sources;
      var alignment := prob[source];
      if alignment != map[] && source !in count {
        // the first `count_dict[source]` raises
        assert MissingCounts(prob, count) by {
          assert source in prob && prob[source] != map[] && source !in count;
        }
        return Failure(KeyError);
      }
      // `kept` is the copy's inner dictionary, from which values are popped
      var kept := alignment;
      if source in count {
        kept := DropRare(alignment, count[source], wordCount, phraseCount);
      }
      filtered := filtered[source := kept];
      sources := sources - {source};
    }
    assert !MissingCounts(prob, count);
    assert filtered == FrequentOnly(prob, count, wordCount, phraseCount);
    r := Success(filtered);
  }

  /** The inner loop of `remove_low_counts`: every value seen too rarely
      is popped from one connective's dictionary. */
  method DropRare(alignment: map<string, real>, counter: multiset<string>, wordCount: int, phraseCount: int)
    returns (kept: map<string, real>)
    ensures kept == KeepFrequent(alignment, counter, wordCount, phraseCount)
  {
    kept := alignment;
    var targets := alignment.Keys;
    while targets != {}
      invariant targets <= alignment.Keys
      invariant kept == map v | v in alignment && (v in targets || !RareValue(v, counter[v], wordCount, phraseCount)) :: alignment[v]
      decreases targets
    {
      var target :| target in targets;
      if TokenCount(target) == 1 {
        if counter[target] < wordCount {
          kept := kept - {target};
        }
      } else {
        if counter[target] < phraseCount {
          kept := kept - {target};
        }
      }
      targets := targets - {target};
    }
  }

  /** The count filter keeps every connective, and a value survives
      exactly when it was seen often enough; a value never counted counts
      as 0. The empty value is held to the phrase minimum. */
  lemma CountFilterSpec(prob: ProbTable, count: CountTable, wordCount: int, phraseCount: int, s: string, v: string)
    requires !MissingCounts(prob, count)
    requires s in prob && v in prob[s]
    ensures CountFiltered(prob, count, wordCount, phraseCount).Success?
    ensures var f := CountFiltered(prob, count, wordCount, phraseCount).value;
      && f.Keys == prob.Keys
      && s in count
      && (v in f[s] <==> count[s][v] >= (if TokenCount(v) == 1 then wordCount else phraseCount))
      && (v in f[s] ==> f[s][v] == prob[s][v])
  {
  }

  /** When every connective with aligned values has counts, no `KeyError`
      is raised. */
  lemma CountFilterSucceeds(prob: ProbTable, count: CountTable, wordCount: int, phraseCount: int)
    requires forall s :: s in prob && prob[s] != map[] ==> s in count
    ensures CountFiltered(prob, count, wordCount, phraseCount).Success?
  {
  }
}
