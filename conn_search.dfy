/** The bootstrap loop of `conn_search.py`: starting from the connective
    lexicons of both languages, each round probes one language's
    connectives against the aligned corpus, keeps the aligned values that
    are probable and frequent enough, and adds the new ones to the other
    language's lexicon; the next round probes in the other direction. */
module ConnSearch {
  import opened Wrappers
  import opened Text
  import opened Tables
  import opened Dicts
  import opened Corpus
  import opened Filtering
  import opened PhraseAlignments

  /** The probability thresholds and count minimums of `find_conns`, for
      one-token values and for longer ones. */
  datatype Thresholds = Thresholds(word: real, phrase: real, wordMinCount: int, phraseMinCount: int)

  // ----- Splitting the lexicon -------------------------------------------

  /** A connective of exactly one token. */
  predicate IsSingleWord(w: string) {
    TokenCount(w) == 1
  }

  /** A contiguous connective of several tokens. */
  predicate IsPhrase(w: string) {
    TokenCount(w) > 1 && !Contains(w, Ellipsis)
  }

  /** A connective with a gap, written with "...". */
  predicate IsDiscontinuous(w: string) {
    Contains(w, Ellipsis)
  }

  /** A list comprehension with a condition: the entries that pass, in
      their order. */
  function Select(lex: seq<string>, keep: string -> bool): (r: seq<string>)
    ensures |r| <= |lex|
    ensures forall w :: w in r <==> w in lex && keep(w)
  {
    if lex == [] then []
    else
      var n := |lex| - 1;
      assert lex == lex[..n] + [lex[n]];
      Select(lex[..n], keep) + (if keep(lex[n]) then [lex[n]] else [])
  }

  function SingleWords(lex: seq<string>): seq<string> {
    Select(lex, IsSingleWord)
  }

  function Phrases(lex: seq<string>): seq<string> {
    Select(lex, IsPhrase)
  }

  function DiscontinuousPhrases(lex: seq<string>): seq<string> {
    Select(lex, IsDiscontinuous)
  }

  /** The three tests pick up every connective with a token and only
      those, so a blank entry is never probed; phrases are neither single
      words nor discontinuous. */
  lemma LexiconPartition(w: string)
    ensures IsSingleWord(w) || IsPhrase(w) || IsDiscontinuous(w) <==> Words(w) != []
    ensures !(IsPhrase(w) && IsSingleWord(w))
    ensures !(IsPhrase(w) && IsDiscontinuous(w))
  {
    if Contains(w, Ellipsis) {
      ContainsIff(w, Ellipsis);
      var i: nat :| OccursAt(w, Ellipsis, i);
      assert w[i] == w[i..i + |Ellipsis|][0];
      NonSpaceHasWord(w, i);
    }
  }

  /** A single token with dots inside it passes two tests: it is probed
      both as a single word and as a discontinuous connective. */
  lemma DottedTokenProbedTwice()
    ensures IsSingleWord("a...b") && IsDiscontinuous("a...b")
  {
    var w := "a...b";
    assert WordEnd(w[5..]) == 0;
    assert WordEnd(w[4..]) == 1;
    assert WordEnd(w[3..]) == 2;
    assert WordEnd(w[2..]) == 3;
    assert WordEnd(w[1..]) == 4;
    assert WordEnd(w) == 5;
    assert w[..5] == w && w[5..] == [];
    assert Words(w) == [w];
    assert OccursAt(w, Ellipsis, 1);
  }

  // ----- One round, as values ----------------------------------------------

  /** The lexicon a round probes: the one passed in or, when that is empty,
      the probing language's whole lexicon. */
  function Probed(lex: seq<string>, own: seq<string>): (r: seq<string>)
    ensures lex != [] ==> r == lex
    ensures lex == [] ==> r == own
  {
    if lex == [] then own else lex
  }

  /** The word-alignment entries of the single words; a word without an
      entry is passed over. */
  function SingleAlignments(words: ObsTable, singles: seq<string>): ObsTable {
    map k | k in singles && k in words :: words[k]
  }

  /** What a round observes for its single words, its phrases and its
      discontinuous connectives. */
  datatype RoundTables = RoundTables(single: ObsTable, phrase: ObsTable, discontinuous: ObsTable)

  /** The three observation tables of a round, or the exception the
      discontinuous parse raises. */
  function Observe(words: ObsTable, corpus: seq<SentencePair>, side: Side, lex: seq<string>): Result<RoundTables, Error>
    requires AllWellFormed(corpus)
  {
    var dt := DiscontinuousTable(corpus, side, DiscontinuousPhrases(lex));
    if dt.Failure? then Failure(dt.error)
    else Success(RoundTables(SingleAlignments(words, SingleWords(lex)), ContiguousTable(corpus, side, Phrases(lex)), dt.value))
  }

  /** The counts after a round. The three tables `conn_count` reads are
      `defaultdict(list)`s, so every probed connective is counted: the
      single-word table is read for the whole probe, then the phrase and the
      discontinuous tables for their parts, each count replacing the one
      before. A connective without observations gets an empty `Counter`. */
  function CountsAfter(count: CountTable, tabs: RoundTables, lex: seq<string>): CountTable {
    count + DefaultCounts(tabs.single, lex) + DefaultCounts(tabs.phrase, Phrases(lex))
      + DefaultCounts(tabs.discontinuous, DiscontinuousPhrases(lex))
  }

  /** The three tables as the counting leaves them: each connective read is
      a key, with `[]` when it had no observation. */
  function ReadTables(tabs: RoundTables, lex: seq<string>): RoundTables {
    RoundTables(Padded(tabs.single, lex), Padded(tabs.phrase, Phrases(lex)),
      Padded(tabs.discontinuous, DiscontinuousPhrases(lex)))
  }

  /** `{**single, **phrase, **discontinuous}`: later tables win. */
  function Merge(tabs: RoundTables): ObsTable {
    tabs.single + tabs.phrase + tabs.discontinuous
  }

  /** The merged table of a round, built from the tables as the counting
      left them. */
  function Combined(tabs: RoundTables, lex: seq<string>): ObsTable {
    Merge(ReadTables(tabs, lex))
  }

  /** The filtered table a round commits from its merged table, or the
      exception the count filter raises. */
  function Committed(merged: ObsTable, count: CountTable, th: Thresholds): Result<ProbTable, Error> {
    var prob := Probabilities(PunctBlanked(merged));
    CountFiltered(ProbabilityFiltered(prob, th.word, th.phrase), count, th.wordMinCount, th.phraseMinCount)
  }

  /** The new connectives for the other language: the aligned values that
      survived, other than the empty value and the ones already listed. */
  function Harvest(t: ProbTable, otherLex: seq<string>): set<string> {
    set s, w | s in t && w in t[s] && w != "" && w !in otherLex :: w
  }

  /** Each table holds only connectives of the part of the lexicon it was
      built from. */
  predicate Attributed(tabs: RoundTables, lex: seq<string>) {
    && (forall k :: k in tabs.single ==> k in SingleWords(lex))
    && (forall k :: k in tabs.phrase ==> k in Phrases(lex))
    && (forall k :: k in tabs.discontinuous ==> k in DiscontinuousPhrases(lex))
  }

  lemma ObserveAttributed(words: ObsTable, corpus: seq<SentencePair>, side: Side, lex: seq<string>)
    requires AllWellFormed(corpus)
    ensures Observe(words, corpus, side, lex).Success? ==> Attributed(Observe(words, corpus, side, lex).value, lex)
  {
    ContiguousTableShape(corpus, side, Phrases(lex));
    DiscontinuousTableSpec(corpus, side, DiscontinuousPhrases(lex), "");
  }

  /** A round raises nothing but the `IndexError` of the discontinuous
      parse. */
  lemma ObserveError(words: ObsTable, corpus: seq<SentencePair>, side: Side, lex: seq<string>)
    requires AllWellFormed(corpus)
    ensures Observe(words, corpus, side, lex).Failure? ==> Observe(words, corpus, side, lex).error == IndexError
  {
    DiscontinuousTableError(corpus, side, DiscontinuousPhrases(lex));
  }

  /** The merged table holds every probed connective and no other. Each
      holds the observations of the last table that reads it: the
      discontinuous one for a connective with "...", even a single token
      with a word-alignment entry; the phrase one for a phrase; the
      single-word one otherwise. `[]` means no observation. */
  lemma CombinedEntry(tabs: RoundTables, lex: seq<string>, k: string)
    requires Attributed(tabs, lex)
    ensures k in Combined(tabs, lex) <==> k in lex
    ensures k in lex ==> (Combined(tabs, lex)[k] ==
      if IsDiscontinuous(k) then Get(tabs.discontinuous, k)
      else if IsPhrase(k) then Get(tabs.phrase, k)
      else Get(tabs.single, k))
  {
    var single, phrase, discontinuous := tabs.single, tabs.phrase, tabs.discontinuous;
    var ps, ds := Phrases(lex), DiscontinuousPhrases(lex);
    DefaultCountsAt(single, lex, k);
    DefaultCountsAt(phrase, ps, k);
    DefaultCountsAt(discontinuous, ds, k);
    assert k in ps <==> k in lex && IsPhrase(k);
    assert k in ds <==> k in lex && IsDiscontinuous(k);
    assert k in single ==> k in lex;
    assert k in phrase ==> k in ps;
    assert k in discontinuous ==> k in ds;
  }

  /** After a round, every probed connective is counted by the multiset of
      exactly the observations the merged table keeps for it, possibly
      none, and every other connective keeps its older counts. */
  lemma CountsFollowMerge(count: CountTable, tabs: RoundTables, lex: seq<string>, k: string)
    requires Attributed(tabs, lex)
    ensures k in CountsAfter(count, tabs, lex) <==> k in count || k in lex
    ensures k in lex ==> k in Combined(tabs, lex) && CountsAfter(count, tabs, lex)[k] == multiset(Combined(tabs, lex)[k])
    ensures k !in lex && k in count ==> CountsAfter(count, tabs, lex)[k] == count[k]
  {
    CombinedEntry(tabs, lex, k);
    var ps, ds := Phrases(lex), DiscontinuousPhrases(lex);
    DefaultCountsAt(tabs.single, lex, k);
    DefaultCountsAt(tabs.phrase, ps, k);
    DefaultCountsAt(tabs.discontinuous, ds, k);
    assert k in ps <==> k in lex && IsPhrase(k);
    assert k in ds <==> k in lex && IsDiscontinuous(k);
  }

  /** A connective the merged table lacks, or holds without observations,
      is not committed. */
  lemma UnobservedNotCommitted(merged: ObsTable, count: CountTable, th: Thresholds, k: string)
    requires k !in merged || merged[k] == []
    ensures Committed(merged, count, th).Success? ==> k !in Committed(merged, count, th).value
  {
  }

  /** A probed single word without a word-alignment entry, that is not
      also discontinuous, raises nothing: it is merged with `[]`, counted
      with an empty `Counter`, and not committed. */
  lemma MissingSingleWordSilent(words: ObsTable, corpus: seq<SentencePair>, side: Side, lex: seq<string>, count: CountTable, th: Thresholds, w: string)
    requires AllWellFormed(corpus)
    requires w in lex && IsSingleWord(w) && !IsDiscontinuous(w) && w !in words
    requires Observe(words, corpus, side, lex).Success?
    ensures var tabs := Observe(words, corpus, side, lex).value;
      && w in Combined(tabs, lex) && Combined(tabs, lex)[w] == []
      && CountsAfter(count, tabs, lex)[w] == multiset{}
      && (Committed(Combined(tabs, lex), CountsAfter(count, tabs, lex), th).Success? ==>
            w !in Committed(Combined(tabs, lex), CountsAfter(count, tabs, lex), th).value)
  {
    var tabs := Observe(words, corpus, side, lex).value;
    ObserveAttributed(words, corpus, side, lex);
    LexiconPartition(w);
    assert !IsPhrase(w);
    assert w !in tabs.single;
    var merged, counts := Combined(tabs, lex), CountsAfter(count, tabs, lex);
    CombinedEntry(tabs, lex, w);
    assert merged[w] == [];
    CountsFollowMerge(count, tabs, lex, w);
    UnobservedNotCommitted(merged, counts, th, w);
  }

  /** A probed token such as "a...b" is read by the discontinuous parse
      last. When the parse finds nothing for it, its word-alignment
      observations are overwritten with `[]` and its count with an empty
      `Counter`, so nothing is committed for it. */
  lemma DottedTokenLosesWordEntry(tabs: RoundTables, lex: seq<string>, count: CountTable, th: Thresholds)
    requires Attributed(tabs, lex)
    requires "a...b" in lex && "a...b" !in tabs.discontinuous
    ensures Combined(tabs, lex)["a...b"] == []
    ensures CountsAfter(count, tabs, lex)["a...b"] == multiset{}
    ensures var c := Committed(Combined(tabs, lex), CountsAfter(count, tabs, lex), th);
      c.Success? ==> "a...b" !in c.value
  {
    var w := "a...b";
    DottedTokenProbedTwice();
    CombinedEntry(tabs, lex, w);
    CountsFollowMerge(count, tabs, lex, w);
    UnobservedNotCommitted(Combined(tabs, lex), CountsAfter(count, tabs, lex), th, w);
  }

  /** The count filter of a round never raises `KeyError`: the counts were
      just updated for every connective the filtered table holds. */
  lemma RoundNeverKeyError(count: CountTable, tabs: RoundTables, lex: seq<string>, th: Thresholds)
    requires Attributed(tabs, lex)
    ensures Committed(Combined(tabs, lex), CountsAfter(count, tabs, lex), th).Success?
  {
    var merged, counts := Combined(tabs, lex), CountsAfter(count, tabs, lex);
    var prob := ProbabilityFiltered(Probabilities(PunctBlanked(merged)), th.word, th.phrase);
    forall s | s in prob
      ensures s in counts
    {
      assert s in merged;
      CombinedEntry(tabs, lex, s);
      CountsFollowMerge(count, tabs, lex, s);
    }
    CountFilterSucceeds(prob, counts, th.wordMinCount, th.phraseMinCount);
  }

  /** A round commits probabilities only for connectives it probed. */
  lemma CommittedKeys(tabs: RoundTables, lex: seq<string>, count: CountTable, th: Thresholds)
    requires Attributed(tabs, lex)
    ensures var c := Committed(Combined(tabs, lex), count, th);
      c.Success? ==> forall s :: s in c.value ==> s in lex
  {
    var c := Committed(Combined(tabs, lex), count, th);
    if c.Success? {
      forall s | s in c.value
        ensures s in lex
      {
        CombinedEntry(tabs, lex, s);
      }
    }
  }

  /** Adding a harvest, which has no repeats and nothing already listed,
      to a lexicon without repeats leaves it without repeats. */
  lemma HarvestKeepsDistinct(otherLex: seq<string>, newConns: seq<string>)
    requires NoDuplicates(otherLex) && NoDuplicates(newConns)
    requires forall w :: w in newConns ==> w !in otherLex
    ensures NoDuplicates(otherLex + newConns)
  {
    var all := otherLex + newConns;
    forall i, j | 0 <= i < j < |all|
      ensures all[i] != all[j]
    {
      if i < |otherLex| && j >= |otherLex| {
        assert all[j] == newConns[j - |otherLex|];
        assert all[i] in otherLex;
      } else if j >= |otherLex| {
        assert all[i] == newConns[i - |otherLex|];
      }
    }
  }

  // ----- The loops of a round ------------------------------------------------

  /** The loop over the single words, skipping a `KeyError`. */
  method CollectSingles(words: ObsTable, singles: seq<string>) returns (found: ObsTable)
    ensures found == SingleAlignments(words, singles)
  {
    found := map[];
    for i := 0 to |singles|
      invariant found == SingleAlignments(words, singles[..i])
    {
      var key := singles[i];
      if key in words {
        found := found[key := words[key]];
      }
      assert singles[..i + 1] == singles[..i] + [key];
    }
    assert singles[..|singles|] == singles;
  }

  /** The loop over the committed table's values, then `list(set(...))`:
      the harvest, each connective once, in no particular order. */
  method HarvestConns(t: ProbTable, otherLex: seq<string>) returns (newConns: seq<string>)
    ensures NoDuplicates(newConns)
    ensures forall w :: w in newConns <==> w in Harvest(t, otherLex)
  {
    var found: set<string> := {};
    var sources := t.Keys;
    while sources != {}
      invariant sources <= t.Keys
      invariant found <= Harvest(t, otherLex)
      invariant forall s, w :: s in t && s !in sources && w in t[s] && w != "" && w !in otherLex ==> w in found
      decreases sources
    {
      var s :| s in sources;
      var targets := t[s].Keys;
      while targets != {}
        invariant targets <= t[s].Keys
        invariant found <= Harvest(t, otherLex)
        invariant forall s', w :: s' in t && s' !in sources && w in t[s'] && w != "" && w !in otherLex ==> w in found
        invariant forall w :: w in t[s] && w !in targets && w != "" && w !in otherLex ==> w in found
        decreases targets
      {
        var w :| w in targets;
        if w != "" && w !in otherLex {
          found := found + {w};
        }
        targets := targets - {w};
      }
      sources := sources - {s};
    }
    newConns := [];
    var rest := found;
    while rest != {}
      invariant rest <= found
      invariant NoDuplicates(newConns)
      invariant forall w :: w in newConns <==> w in found && w !in rest
      decreases rest
    {
      var w :| w in rest;
      newConns := newConns + [w];
      rest := rest - {w};
    }
  }

  /** The observation half of a round: the single-word loop, then the
      phrase parse, then the discontinuous parse. */
  method ObserveRound(words: ObsTable, corpus: seq<SentencePair>, side: Side, lex: seq<string>)
    returns (r: Result<RoundTables, Error>)
    requires AllWellFormed(corpus)
    ensures r == Observe(words, corpus, side, lex)
  {
    var single := CollectSingles(words, SingleWords(lex));
    var phraseTable := ParsePhraseAlignments(corpus, side, Phrases(lex));
    var parsed := ParseDiscontinuous(corpus, side, DiscontinuousPhrases(lex));
    if parsed.Failure? {
      return Failure(parsed.error);
    }
    r := Success(RoundTables(single, phraseTable, parsed.value));
  }

  /** The three `conn_count` calls on the round's `defaultdict`s and the
      three updates of the counts; the tables come back as the reads left
      them. */
  method UpdateCounts(count: CountTable, tabs: RoundTables, lex: seq<string>) returns (count': CountTable, read: RoundTables)
    ensures count' == CountsAfter(count, tabs, lex)
    ensures read == ReadTables(tabs, lex)
  {
    var singleCount, single := ConnCountDefault(tabs.single, lex);
    var phraseCount, phrase := ConnCountDefault(tabs.phrase, Phrases(lex));
    var discontCount, discontinuous := ConnCountDefault(tabs.discontinuous, DiscontinuousPhrases(lex));
    count' := count + singleCount;
    count' := count' + phraseCount;
    count' := count' + discontCount;
    read := RoundTables(single, phrase, discontinuous);
  }

  /** The filtering half of a round: merge, blank punctuation, turn counts
      into probabilities, drop improbable and then rare values. */
  method CommitRound(tabs: RoundTables, count: CountTable, th: Thresholds) returns (r: Result<ProbTable, Error>)
    ensures r == Committed(Merge(tabs), count, th)
  {
    var merged := tabs.single + tabs.phrase + tabs.discontinuous;
    var noPunct := RemovePunctValues(merged);
    var prob := AlignmentProbabilities(noPunct);
    var probable := FilterMostCommonConns(prob, th.word, th.phrase);
    r := RemoveLowCounts(probable, count, th.wordMinCount, th.phraseMinCount);
  }

  /** What one round does, on values: from what the round observed, the
      probing language's counts and committed table and the other
      language's lexicon before it, to the counts, the committed table,
      the harvest and the exception after it. The counts change unless the
      discontinuous parse raised; the committed table and the harvest only
      when nothing raises. */
  ghost predicate RoundSpec(obs: Result<RoundTables, Error>, probe: seq<string>, th: Thresholds,
                            count: CountTable, conns: ProbTable, otherLex: seq<string>,
                            count': CountTable, conns': ProbTable, newConns: seq<string>, err: Option<Error>)
  {
    if obs.Failure? then
      err == Some(obs.error) && count' == count && conns' == conns && newConns == []
    else
      && count' == CountsAfter(count, obs.value, probe)
      && var c := Committed(Combined(obs.value, probe), count', th);
        if c.Failure? then
          err == Some(c.error) && conns' == conns && newConns == []
        else
          && err == None
          && conns' == conns + c.value
          && forall w :: w in newConns <==> w in Harvest(c.value, otherLex)
  }

  /** A round raises nothing but the `IndexError` of the discontinuous
      parse: the count filter finds counts for everything it filters. */
  lemma RoundRaisesOnlyIndexError(words: ObsTable, corpus: seq<SentencePair>, side: Side, probe: seq<string>, th: Thresholds,
                                  count: CountTable, conns: ProbTable, otherLex: seq<string>,
                                  count': CountTable, conns': ProbTable, newConns: seq<string>, err: Option<Error>)
    requires AllWellFormed(corpus)
    requires RoundSpec(Observe(words, corpus, side, probe), probe, th, count, conns, otherLex, count', conns', newConns, err)
    ensures err.Some? ==> err.value == IndexError
  {
    var obs := Observe(words, corpus, side, probe);
    ObserveError(words, corpus, side, probe);
    if obs.Success? {
      ObserveAttributed(words, corpus, side, probe);
      RoundNeverKeyError(count, obs.value, probe, th);
    }
  }

  /** The round for whatever the corpus shows: `RoundSpec` of the
      observations `Observe` makes. */
  ghost predicate RoundOf(words: ObsTable, corpus: seq<SentencePair>, side: Side, probe: seq<string>, th: Thresholds,
                          count: CountTable, conns: ProbTable, otherLex: seq<string>,
                          count': CountTable, conns': ProbTable, newConns: seq<string>, err: Option<Error>)
    requires AllWellFormed(corpus)
  {
    forall obs :: obs == Observe(words, corpus, side, probe) ==>
      RoundSpec(obs, probe, th, count, conns, otherLex, count', conns', newConns, err)
  }

  /** The body of `find_conns` between its choice of tables and its update
      of the object: observe, count, commit and harvest. */
  method RunRound(words: ObsTable, corpus: seq<SentencePair>, side: Side, probe: seq<string>, th: Thresholds,
                  count: CountTable, conns: ProbTable, otherLex: seq<string>)
    returns (count': CountTable, conns': ProbTable, newConns: seq<string>, err: Option<Error>)
    requires AllWellFormed(corpus)
    ensures NoDuplicates(newConns) && forall w :: w in newConns ==> w !in otherLex
    ensures RoundOf(words, corpus, side, probe, th, count, conns, otherLex, count', conns', newConns, err)
    ensures err.Some? ==> err.value == IndexError
  {
    var observed := ObserveRound(words, corpus, side, probe);
    if observed.Failure? {
      count', conns', newConns, err := count, conns, [], Some(observed.error);
    } else {
      var read;
      count', read := UpdateCounts(count, observed.value, probe);
      var frequent := CommitRound(read, count', th);
      if frequent.Failure? {
        conns', newConns, err := conns, [], Some(frequent.error);
      } else {
        conns' := conns + frequent.value;
        newConns := HarvestConns(frequent.value, otherLex);
        err := None;
      }
    }
    assert RoundSpec(observed, probe, th, count, conns, otherLex, count', conns', newConns, err);
    RoundRaisesOnlyIndexError(words, corpus, side, probe, th, count, conns, otherLex, count', conns', newConns, err);
    forall o | o == Observe(words, corpus, side, probe)
      ensures RoundSpec(o, probe, th, count, conns, otherLex, count', conns', newConns, err)
    {
    }
  }

  // ----- The miner ---------------------------------------------------------------

  /** What the rounds of `find_conns` change, frozen at one moment: per
      language, the lexicon, the counts and the committed probability
      table. */
  datatype Snapshot = Snapshot(sourceLex: seq<string>, targetLex: seq<string>,
                               sourceCount: CountTable, targetCount: CountTable,
                               sourceConns: ProbTable, targetConns: ProbTable)
  {
    function Lexicon(side: Side): seq<string> {
      if side == Source then sourceLex else targetLex
    }

    function CountsOf(side: Side): CountTable {
      if side == Source then sourceCount else targetCount
    }

    function ConnAlignments(side: Side): ProbTable {
      if side == Source then sourceConns else targetConns
    }
  }

  /** The harvests that went into `side`'s lexicon: those of the rounds
      that probed the other language, in round order. */
  function HarvestedInto(sides: seq<Side>, harvests: seq<seq<string>>, side: Side): seq<string>
    requires |sides| == |harvests|
  {
    if sides == [] then []
    else (if sides[0] == Flip(side) then harvests[0] else []) + HarvestedInto(sides[1..], harvests[1..], side)
  }

  /** A connective was harvested into `side`'s lexicon exactly when some
      round that probed the other language harvested it. */
  lemma {:induction false} HarvestedIntoMembers(sides: seq<Side>, harvests: seq<seq<string>>, side: Side, w: string)
    requires |sides| == |harvests|
    ensures w in HarvestedInto(sides, harvests, side) <==> exists i :: 0 <= i < |sides| && sides[i] == Flip(side) && w in harvests[i]
  {
    if sides != [] {
      HarvestedIntoMembers(sides[1..], harvests[1..], side, w);
      if w in HarvestedInto(sides[1..], harvests[1..], side) {
        var i :| 0 <= i < |sides[1..]| && sides[1..][i] == Flip(side) && w in harvests[1..][i];
        assert sides[i + 1] == Flip(side) && w in harvests[i + 1];
      }
      if exists i :: 0 <= i < |sides| && sides[i] == Flip(side) && w in harvests[i] {
        var i :| 0 <= i < |sides| && sides[i] == Flip(side) && w in harvests[i];
        if i > 0 {
          assert sides[1..][i - 1] == Flip(side) && w in harvests[1..][i - 1];
        }
      }
    }
  }

  /** `side`'s lexicon `lex` after the rounds: each round that probed the
      other language appends its harvest, in round order. */
  function Grown(lex: seq<string>, sides: seq<Side>, harvests: seq<seq<string>>, side: Side): seq<string>
    requires |sides| == |harvests|
    decreases |sides|
  {
    if sides == [] then lex
    else Grown(lex + (if sides[0] == Flip(side) then harvests[0] else []), sides[1..], harvests[1..], side)
  }

  /** The grown lexicon is the old one followed by everything harvested
      into it. */
  lemma {:induction false} GrownIsAppend(lex: seq<string>, sides: seq<Side>, harvests: seq<seq<string>>, side: Side)
    requires |sides| == |harvests|
    ensures Grown(lex, sides, harvests, side) == lex + HarvestedInto(sides, harvests, side)
    decreases |sides|
  {
    if sides != [] {
      var first := if sides[0] == Flip(side) then harvests[0] else [];
      var rest := HarvestedInto(sides[1..], harvests[1..], side);
      GrownIsAppend(lex + first, sides[1..], harvests[1..], side);
      assert (lex + first) + rest == lex + (first + rest);
    }
  }

  /** The arguments of a run of `find_conns` calls, the first of which was
      call number `start + 1`, given the state before each: the directions
      alternate; call 2 of all probes the whole lexicon its direction
      probes, and every later call probes what the call before it
      harvested. */
  predicate Called(states: seq<Snapshot>, probes: seq<seq<string>>, sides: seq<Side>, harvests: seq<seq<string>>, start: nat)
    decreases |probes|
  {
    && |states| == |probes| + 1 && |sides| == |probes| && |harvests| == |probes|
    && (|probes| > 1 ==>
          && sides[1] == Flip(sides[0])
          && probes[1] == (if start == 0 then states[1].Lexicon(sides[1]) else harvests[0])
          && Called(states[1..], probes[1..], sides[1..], harvests[1..], start + 1))
  }

  /** Growing by a first round and then by the rest is growing by all of them. */
  lemma GrownCons(lex: seq<string>, lex': seq<string>, first: Side, harvest: seq<string>,
                  sides: seq<Side>, harvests: seq<seq<string>>, side: Side)
    requires |sides| == |harvests|
    requires lex' == lex + (if first == Flip(side) then harvest else [])
    ensures Grown(lex, [first] + sides, [harvest] + harvests, side) == Grown(lex', sides, harvests, side)
  {
    assert ([first] + sides)[1..] == sides && ([harvest] + harvests)[1..] == harvests;
  }

  /** A call followed by the run of calls it makes is a run. */
  lemma CalledCons(s: Snapshot, lex: seq<string>, side: Side, harvest: seq<string>, start: nat, after: nat, next: seq<string>,
                   states: seq<Snapshot>, probes: seq<seq<string>>, sides: seq<Side>, harvests: seq<seq<string>>)
    requires after == start + 1
    requires Called(states, probes, sides, harvests, after) && probes != []
    requires probes[0] == next && sides[0] == Flip(side)
    requires next == (if after == 1 then states[0].Lexicon(Flip(side)) else harvest)
    ensures Called([s] + states, [lex] + probes, [side] + sides, [harvest] + harvests, start)
  {
    assert ([s] + states)[1..] == states && ([lex] + probes)[1..] == probes;
    assert ([side] + sides)[1..] == sides && ([harvest] + harvests)[1..] == harvests;
  }

  /** In a run, round `i` is called in the direction opposite to round
      `i - 1`, with the lexicon `find_conns` passes on. */
  lemma {:induction false} CalledAt(states: seq<Snapshot>, probes: seq<seq<string>>, sides: seq<Side>, harvests: seq<seq<string>>, start: nat, i: nat)
    requires Called(states, probes, sides, harvests, start) && 0 < i < |probes|
    ensures sides[i] == Flip(sides[i - 1])
    ensures probes[i] == (if start + i == 1 then states[i].Lexicon(sides[i]) else harvests[i - 1])
    decreases i
  {
    if i > 1 {
      CalledAt(states[1..], probes[1..], sides[1..], harvests[1..], start + 1, i - 1);
    }
  }

  /** The state of `FindAlignments`: the word-alignment indexes of both
      directions, the corpus, the unfiltered lexicons as given, and what
      the rounds change: the round counter, the growing lexicons and, per
      language, the counts and the committed probability tables. */
  class FindAlignments {
    const sourceTarget: ObsTable
    const targetSource: ObsTable
    const corpus: seq<SentencePair>
    const allSourceConns: seq<string>
    const allTargetConns: seq<string>
    var sourceLex: seq<string>
    var targetLex: seq<string>
    var counter: nat
    var sourceConnAlignments: ProbTable
    var targetConnAlignments: ProbTable
    var sourceCount: CountTable
    var targetCount: CountTable

    constructor (sourceTarget: ObsTable, targetSource: ObsTable, corpus: seq<SentencePair>, sourceLex: seq<string>, targetLex: seq<string>)
      ensures this.sourceTarget == sourceTarget && this.targetSource == targetSource && this.corpus == corpus
      ensures this.sourceLex == sourceLex && this.targetLex == targetLex
      ensures allSourceConns == sourceLex && allTargetConns == targetLex
      ensures counter == 0
      ensures sourceConnAlignments == map[] && targetConnAlignments == map[]
      ensures sourceCount == map[] && targetCount == map[]
    {
      this.sourceTarget := sourceTarget;
      this.targetSource := targetSource;
      this.corpus := corpus;
      this.sourceLex := sourceLex;
      this.targetLex := targetLex;
      allSourceConns := sourceLex;
      allTargetConns := targetLex;
      counter := 0;
      sourceConnAlignments := map[];
      targetConnAlignments := map[];
      sourceCount := map[];
      targetCount := map[];
    }

    /** The word-alignment index a direction probes. */
    function WordIndex(side: Side): ObsTable {
      if side == Source then sourceTarget else targetSource
    }

    /** The fields the rounds change, as one value. */
    function State(): Snapshot
      reads this
    {
      Snapshot(sourceLex, targetLex, sourceCount, targetCount, sourceConnAlignments, targetConnAlignments)
    }

    function Lexicon(side: Side): seq<string>
      reads this
    {
      if side == Source then sourceLex else targetLex
    }

    function CountsOf(side: Side): CountTable
      reads this
    {
      if side == Source then sourceCount else targetCount
    }

    function ConnAlignments(side: Side): ProbTable
      reads this
    {
      if side == Source then sourceConnAlignments else targetConnAlignments
    }

    /** One call of `find_conns` in direction `side` with argument `lex`,
        taking the state `s` to `s'`: the probed side's counts and
        committed table change as `RoundSpec` says for the probe `Probed(lex,
        ...)`, the other lexicon grows by the harvest, and nothing else
        changes. */
    ghost predicate Step(s: Snapshot, lex: seq<string>, side: Side, th: Thresholds,
                         s': Snapshot, harvest: seq<string>, err: Option<Error>)
      requires AllWellFormed(corpus)
    {
      var probe := Probed(lex, s.Lexicon(side));
      && RoundOf(WordIndex(side), corpus, side, probe, th, s.CountsOf(side), s.ConnAlignments(side), s.Lexicon(Flip(side)),
                 s'.CountsOf(side), s'.ConnAlignments(side), harvest, err)
      && s'.Lexicon(side) == s.Lexicon(side)
      && s'.Lexicon(Flip(side)) == s.Lexicon(Flip(side)) + harvest
      && s'.CountsOf(Flip(side)) == s.CountsOf(Flip(side))
      && s'.ConnAlignments(Flip(side)) == s.ConnAlignments(Flip(side))
    }

    /** A run of rounds: `states[i]` is the state before round `i`, which
        passed `probes[i]` in direction `sides[i]` and harvested
        `harvests[i]`; every round but the last raised nothing, and the last
        ended with `err`. */
    ghost predicate Trace(states: seq<Snapshot>, probes: seq<seq<string>>, sides: seq<Side>,
                          harvests: seq<seq<string>>, th: Thresholds, err: Option<Error>)
      requires AllWellFormed(corpus)
      decreases |probes|
    {
      && |states| == |probes| + 1 && |sides| == |probes| && |harvests| == |probes| && probes != []
      && Step(states[0], probes[0], sides[0], th, states[1], harvests[0], if |probes| == 1 then err else None)
      && (|probes| > 1 ==> Trace(states[1..], probes[1..], sides[1..], harvests[1..], th, err))
    }

    /** A round that raised nothing followed by a run is a run. */
    lemma TraceCons(s: Snapshot, lex: seq<string>, side: Side, harvest: seq<string>, th: Thresholds,
                    states: seq<Snapshot>, probes: seq<seq<string>>, sides: seq<Side>, harvests: seq<seq<string>>, err: Option<Error>)
      requires AllWellFormed(corpus)
      requires Trace(states, probes, sides, harvests, th, err)
      requires Step(s, lex, side, th, states[0], harvest, None)
      ensures Trace([s] + states, [lex] + probes, [side] + sides, [harvest] + harvests, th, err)
    {
      assert ([s] + states)[1..] == states && ([lex] + probes)[1..] == probes;
      assert ([side] + sides)[1..] == sides && ([harvest] + harvests)[1..] == harvests;
    }

    /** A single round is a run, and it grows each lexicon as its `Step` says. */
    lemma RunOne(s: Snapshot, lex: seq<string>, side: Side, harvest: seq<string>, th: Thresholds,
                 s': Snapshot, err: Option<Error>, start: nat)
      requires AllWellFormed(corpus)
      requires Step(s, lex, side, th, s', harvest, err)
      ensures Trace([s, s'], [lex], [side], [harvest], th, err)
      ensures Called([s, s'], [lex], [side], [harvest], start)
      ensures s'.sourceLex == Grown(s.sourceLex, [side], [harvest], Source)
      ensures s'.targetLex == Grown(s.targetLex, [side], [harvest], Target)
    {
      assert [side][1..] == [] && [harvest][1..] == [];
    }

    /** A round that raised nothing, followed by the run of calls it makes,
        is a run; the lexicons it grew are where the rest of the run starts. */
    lemma RunCons(s: Snapshot, lex: seq<string>, side: Side, harvest: seq<string>, th: Thresholds,
                  start: nat, after: nat, next: seq<string>,
                  states: seq<Snapshot>, probes: seq<seq<string>>, sides: seq<Side>, harvests: seq<seq<string>>, err: Option<Error>)
      requires AllWellFormed(corpus)
      requires Trace(states, probes, sides, harvests, th, err)
      requires Step(s, lex, side, th, states[0], harvest, None)
      requires after == start + 1 && Called(states, probes, sides, harvests, after)
      requires probes[0] == next && sides[0] == Flip(side)
      requires next == (if after == 1 then states[0].Lexicon(Flip(side)) else harvest)
      ensures Trace([s] + states, [lex] + probes, [side] + sides, [harvest] + harvests, th, err)
      ensures Called([s] + states, [lex] + probes, [side] + sides, [harvest] + harvests, start)
      ensures Grown(s.sourceLex, [side] + sides, [harvest] + harvests, Source) == Grown(states[0].sourceLex, sides, harvests, Source)
      ensures Grown(s.targetLex, [side] + sides, [harvest] + harvests, Target) == Grown(states[0].targetLex, sides, harvests, Target)
      ensures ([s] + states)[|probes| + 1] == states[|probes|]
    {
      TraceCons(s, lex, side, harvest, th, states, probes, sides, harvests, err);
      CalledCons(s, lex, side, harvest, start, after, next, states, probes, sides, harvests);
      GrownCons(s.sourceLex, states[0].sourceLex, side, harvest, sides, harvests, Source);
      GrownCons(s.targetLex, states[0].targetLex, side, harvest, sides, harvests, Target);
    }

    /** Round `i` of a run is a `Step` from the state before it to the one
        after it, which raised nothing unless it was the last. */
    lemma {:induction false} TraceAt(states: seq<Snapshot>, probes: seq<seq<string>>, sides: seq<Side>,
                                     harvests: seq<seq<string>>, th: Thresholds, err: Option<Error>, i: nat)
      requires AllWellFormed(corpus)
      requires Trace(states, probes, sides, harvests, th, err) && i < |probes|
      ensures Step(states[i], probes[i], sides[i], th, states[i + 1], harvests[i], if i == |probes| - 1 then err else None)
      decreases i
    {
      if i > 0 {
        TraceAt(states[1..], probes[1..], sides[1..], harvests[1..], th, err, i - 1);
      }
    }

    /** The body of `find_conns` with `lang` "source", up to its recursive
        call: the source connectives of `lex`, or of the whole source
        lexicon when `lex` is empty, are looked up; the source counts and
        committed table change as the round says, the harvest is appended
        to the target lexicon and the counter goes up; nothing else
        changes. */
    method RoundFromSource(lex: seq<string>, th: Thresholds) returns (newConns: seq<string>, err: Option<Error>)
      requires AllWellFormed(corpus)
      modifies this
      ensures counter == old(counter) + 1
      ensures Step(old(State()), lex, Source, th, State(), newConns, err)
      ensures NoDuplicates(newConns) && forall w :: w in newConns ==> w !in old(targetLex)
      ensures err.Some? ==> err.value == IndexError
    {
      ghost var before := State();
      var probe := Probed(lex, sourceLex);
      var count, conns;
      count, conns, newConns, err :=
        RunRound(sourceTarget, corpus, Source, probe, th, sourceCount, sourceConnAlignments, targetLex);
      sourceCount, sourceConnAlignments := count, conns;
      targetLex := targetLex + newConns;
      counter := counter + 1;
      assert State() == Snapshot(before.sourceLex, before.targetLex + newConns, count, before.targetCount, conns, before.targetConns);
    }

    /** The body of `find_conns` with `lang` "target", up to its recursive
        call: the mirror of `RoundFromSource`. */
    method RoundFromTarget(lex: seq<string>, th: Thresholds) returns (newConns: seq<string>, err: Option<Error>)
      requires AllWellFormed(corpus)
      modifies this
      ensures counter == old(counter) + 1
      ensures Step(old(State()), lex, Target, th, State(), newConns, err)
      ensures NoDuplicates(newConns) && forall w :: w in newConns ==> w !in old(sourceLex)
      ensures err.Some? ==> err.value == IndexError
    {
      ghost var before := State();
      var probe := Probed(lex, targetLex);
      var count, conns;
      count, conns, newConns, err :=
        RunRound(targetSource, corpus, Target, probe, th, targetCount, targetConnAlignments, sourceLex);
      targetCount, targetConnAlignments := count, conns;
      sourceLex := sourceLex + newConns;
      counter := counter + 1;
      assert State() == Snapshot(before.sourceLex + newConns, before.targetLex, before.sourceCount, count, before.sourceConns, conns);
    }

    /** One call of `find_conns` up to its recursive call, in either
        direction, with an empty `lex` standing for the own lexicon: a
        `Step`, so the probed side's counts and committed table change as
        `RoundSpec` says, the other side's lexicon grows by the harvest,
        and the other side's tables and the own lexicon stay as they
        were. */
    method Round(lex: seq<string>, side: Side, th: Thresholds) returns (newConns: seq<string>, err: Option<Error>)
      requires AllWellFormed(corpus)
      modifies this
      ensures counter == old(counter) + 1
      ensures Step(old(State()), lex, side, th, State(), newConns, err)
      ensures Lexicon(side) == old(Lexicon(side)) && Lexicon(Flip(side)) == old(Lexicon(Flip(side))) + newConns
      ensures NoDuplicates(newConns) && forall w :: w in newConns ==> w !in old(Lexicon(Flip(side)))
      ensures NoDuplicates(old(Lexicon(Flip(side)))) ==> NoDuplicates(Lexicon(Flip(side)))
      ensures err.Some? ==> err.value == IndexError
    {
      ghost var other := Lexicon(Flip(side));
      if side == Source {
        newConns, err := RoundFromSource(lex, th);
      } else {
        newConns, err := RoundFromTarget(lex, th);
      }
      if NoDuplicates(other) {
        HarvestKeepsDistinct(other, newConns);
      }
    }

    /** `find_conns`: a round, then, unless the counter has reached
        `limit`, the call for the opposite direction, which probes the whole
        lexicon just extended after the first round of all and only what
        this round harvested after any later one. The only exception is the
        `IndexError` of the discontinuous parse. `probes`, `sides` and
        `harvests` record, call by call, the lexicon passed in, the
        direction and the harvest, and `states` the state before each round
        and after the last: every round is a `Step` that did not raise,
        except possibly the last, so the final counts and committed tables
        are those the last rounds of each direction computed, and each
        lexicon is the old one followed by the harvests of the rounds that
        probed the other language. */
    method FindConns(lex: seq<string>, side: Side, th: Thresholds, limit: nat)
      returns (err: Option<Error>, ghost probes: seq<seq<string>>, ghost sides: seq<Side>,
               ghost harvests: seq<seq<string>>, ghost states: seq<Snapshot>)
      requires AllWellFormed(corpus)
      requires counter < limit
      modifies this
      ensures old(counter) < counter <= limit
      ensures err.None? ==> counter == limit
      ensures err.Some? ==> err.value == IndexError
      ensures |probes| == counter - old(counter)
      ensures Trace(states, probes, sides, harvests, th, err)
      ensures states[0] == old(State()) && states[|probes|] == State()
      ensures probes[0] == lex && sides[0] == side
      ensures Called(states, probes, sides, harvests, old(counter))
      ensures sourceLex == Grown(old(sourceLex), sides, harvests, Source)
      ensures targetLex == Grown(old(targetLex), sides, harvests, Target)
      ensures NoDuplicates(old(sourceLex)) && NoDuplicates(old(targetLex)) ==> NoDuplicates(sourceLex) && NoDuplicates(targetLex)
      decreases limit - counter
    {
      ghost var before, start := State(), counter;
      var newConns;
      newConns, err := Round(lex, side, th);
      if err.Some? || counter == limit {
        RunOne(before, lex, side, newConns, th, State(), err, start);
        probes, sides, harvests, states := [lex], [side], [newConns], [before, State()];
        return;
      }
      var next := if counter == 1 then Lexicon(Flip(side)) else newConns;
      ghost var mid, after := State(), counter;
      assert mid.Lexicon(Flip(side)) == Lexicon(Flip(side));
      ghost var probes', sides', harvests', states';
      err, probes', sides', harvests', states' := FindConns(next, Flip(side), th, limit);
      RunCons(before, lex, side, newConns, th, start, after, next, states', probes', sides', harvests', err);
      probes, sides, harvests, states := [lex] + probes', [side] + sides', [newConns] + harvests', [before] + states';
    }
  }
}
