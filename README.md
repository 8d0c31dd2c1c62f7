# Connective lexicon miner — a verified model

This project models the core of a tool that mines bilingual lexicons of
discourse connectives (words such as *weil*, *aunque*, *so ... dass*) from a
word-aligned parallel corpus. The corpus is a sequence of sentence pairs;
each pair carries the raw line of each language and the aligner's `i-j`
pairs, which link the `i`-th source token to the `j`-th target token.

The model covers four parts of the tool.

- **Alignment parsing** (`parse_alignments.py`), in `word_alignments.dfy`,
  `phrase_alignments.dfy` and `projection.dfy`:
  - Word-level parsing records `""` for every unaligned word. It groups the
    pairs into phrases on both sides and drops groups that the other side
    does not mirror. It marks gaps inside a group with `","` or `"..."`,
    then emits every group in both directions.
  - Contiguous-phrase parsing projects every exact token occurrence of a
    phrase onto the other language.
  - Discontinuous-phrase parsing projects the first free occurrence of each
    part of a connective such as `so ... dass`.
- **Filtering** (`processing_filtering.py`), in `filtering.dfy`:
  - stripping punctuation at phrase edges and blanking punctuation values;
  - counting observations and turning counts into exact relative
    frequencies;
  - the probability filter and the count filter.
- **The bootstrap loop** (`conn_search.py`), in `conn_search.dfy`. The
  class `FindAlignments` probes one language's lexicon against the corpus in
  each round. It keeps the aligned values that are probable and frequent
  enough and adds the new ones to the other language's lexicon. The next
  round then runs in the opposite direction.
- **Relation labelling** (`discourse_relations.py` and its twin
  `help_functions/discourse_relations.py`), in `discourse_relations.dfy` and
  `relation_mapping.dfy`:
  - tagging keys with their relations, as in `"w (r1, r2)"`;
  - selecting the connectives of one relation;
  - aggregating which relations align with which, and in what proportion.

Supporting modules:

| file | module | contents |
|---|---|---|
| `text.dfy` | Text | Python's `str.split()`, `join`, `in`, `index`, `split(sep)`, `replace` and `capitalize`, on `seq<char>` |
| `dict.dfy` | Dicts | Python's insertion-ordered `dict` |
| `tables.dfy` | Tables | observation, count and probability tables; a `Counter` is a multiset |
| `corpus.dfy` | Corpus | sentence pairs |
| `wrappers.dfy` | Wrappers | `Option` and `Result`; a Python exception is an `Error` value |

**How the model is built.**

- Each loop of the original is a `method` with the same loop. Its `ensures`
  ties the result to a declarative function.
- Lemmas state what that function promises.
- The `FindAlignments` object is a `class` whose fields the rounds update.
  `find_conns` recurses as in the original. Its ghost results record, for
  every round, the state before it, the lexicon passed in, the direction
  and the harvest. Its contract states each round against that record.
- Probabilities are exact `real` ratios.

## Model

| member | source | states |
|---|---|---|
| Text.Words | parse_alignments.py:52-53 | `str.split()`: every piece is a non-empty run without whitespace |
| Text.WordsOfJoin | parse_alignments.py:292 | splitting tokens joined by single spaces gives back exactly the tokens |
| Text.FindFrom | parse_alignments.py:352-353 | the index found is an occurrence with none before it; `None` only when there is no occurrence at all |
| Text.ContainsIff | parse_alignments.py:233 | Python's `in` on strings holds exactly when the pattern occurs at some position |
| Text.SplitOn | parse_alignments.py:349 | `str.split(sep)`: joining the parts with `sep` gives the string back; no part contains `sep`; there are two or more parts exactly when `sep` occurs |
| Text.ReplaceAllWithoutMatch | parse_alignments.py:293-294 | replacing `", ..."` in a string without it changes nothing, so the `if ... in` guard does not matter |
| Text.Capitalize | discourse_relations.py:133 | `str.capitalize` on ASCII: the same length, the first character upper-cased and every other one lowered |
| Text.Lower | discourse_relations.py:133 | `str.lower` on ASCII: the same length, every upper-case letter lowered and every other character kept |
| Tables.Extend | parse_alignments.py:165 | appending the values of `vs` one by one with `.append` to `k`'s list of a `defaultdict(list)`: that list ends with `vs`, every other key is unchanged, and a key is created only when `vs` is non-empty |
| Tables.ExtendHas | parse_alignments.py:165 | after `t[w] += vals`, a key holds a value exactly when it held it before or it is `w` and `vals` has it |
| Tables.ExtendAllMembers | parse_alignments.py:165 | after a run of appends, a key holds a value exactly when it held it before or some append to that key added it |
| Tables.ExtendAllGet | parse_alignments.py:76 | when every append to `k` adds the same list, `k` gains that list once per append |
| Tables.ExtendAllShape | parse_alignments.py:44-45 | appends never create an empty list, and create only the keys appended to |
| Tables.CountIsMultiplicity | processing_filtering.py:102 | counting a value in a list is its multiplicity in `Counter(list)` |
| Tables.SumRemove | processing_filtering.py:209 | a sum over a map does not depend on the order its values are added in |
| Dicts.Set | parse_alignments.py:132-133 | `d[k] = v`: the map is updated; a present key keeps its place and a new key goes last |
| Dicts.Delete | parse_alignments.py:108 | `del d[k]`: the key leaves both the map and the order |
| Dicts.Remove | parse_alignments.py:108 | the order list without the deleted key: every other key is kept, and none is repeated |
| Dicts.AppendTo | parse_alignments.py:86-87 | `d[k].append(x)` on a `defaultdict(list)`: a missing key reads as `[]` |
| Dicts.AppendToFlatten | parse_alignments.py:86-87 | an append adds exactly one element to the multiset of all values |
| Dicts.DeleteAll | parse_alignments.py:107-110 | deleting a set of keys keeps exactly the other entries |
| Dicts.DeleteStep | parse_alignments.py:107-110 | deleting keys one at a time, in any order, deletes them all |
| Dicts.Install | parse_alignments.py:132-133 | reassigning existing keys in place changes their values and neither the keys nor their order |
| Filtering.RemovePunctPhrases | processing_filtering.py:128-147 | a list of at most one token comes back unchanged; otherwise the result has at least one and at most as many tokens |
| Filtering.RemovePunctPhrasesIsInnerRun | processing_filtering.py:131-145 | the result is `[""]` or a contiguous run of the phrase that lost at most two tokens at each end |
| Filtering.RemovePunctPhrasesKeepsWordBoundedPhrase | processing_filtering.py:131-145 | a phrase whose first and last tokens are neither punctuation nor `"..."` is kept whole |
| Filtering.RemovePunctValues | processing_filtering.py:175-182 | the loop builds the table of blanked values: keys without observations disappear; each list keeps its length and order |
| Filtering.BlankInto | processing_filtering.py:177-181 | the inner loop gives the connective its blanked list; an empty list creates no key |
| Filtering.PunctBlankedIdempotent | processing_filtering.py:175-182 | blanking twice is blanking once |
| Filtering.PunctBlankedValues | processing_filtering.py:178-181 | no value left is a non-empty punctuation string; any other value is kept at its position |
| Filtering.ConnCount | processing_filtering.py:99-106 | on a plain dictionary, the loop gives a `Counter` for exactly the lexicon entries that have observations, skipping a `KeyError`. Its callers in `find_conns` pass `defaultdict`s instead, where `Filtering.ConnCountDefault` applies |
| Filtering.CountsAreObservations | processing_filtering.py:99-106 | a counted key is in the lexicon and in the table; each count is the value's multiplicity among that key's observations |
| Filtering.ConnCountDefault | processing_filtering.py:99-106 | `conn_count` on a `defaultdict(list)`: the loop counts every lexicon entry, and its reads leave every entry in the table |
| Filtering.DefaultCountsExtend | processing_filtering.py:99-106 | on a `defaultdict`, an entry with observations is counted as on a plain dictionary; an entry without them gets an empty `Counter` and is padded with `[]` |
| Filtering.DefaultCountsAt | processing_filtering.py:100-102 | each lexicon entry is counted by the multiset of what the `defaultdict` holds for it, and reads back unchanged from the padded table |
| Filtering.PaddingBlankedAway | processing_filtering.py:175-182 | the empty lists the reads add are dropped again by `remove_punct_values` |
| Filtering.AlignmentProbabilities | processing_filtering.py:199-212 | the two loops build, for every connective, each value's count over the sum of the counts |
| Filtering.Frequencies | processing_filtering.py:207-210 | the inner loop maps every value of a `Counter` to its count over the counter's size |
| Filtering.DistributionIsProbability | processing_filtering.py:206-210 | the frequencies of a non-empty observation list cover exactly the values seen, lie in (0, 1] and sum to 1 |
| Filtering.DistributionOfCounts | processing_filtering.py:201-210 | the distribution of an observation list is its `Counter`'s count ratios |
| Filtering.ProbabilitiesAreDistributions | processing_filtering.py:199-212 | every connective with observations has a distribution over exactly its values: each in (0, 1], summing to 1 |
| Filtering.FilterMostCommonConns | processing_filtering.py:36-46 | the loop over a copy builds the probability-filtered table; the input is a value and stays untouched |
| Filtering.DropImprobable | processing_filtering.py:38-44 | the inner loop deletes exactly the values below their threshold |
| Filtering.ProbabilityFilterSpec | processing_filtering.py:36-46 | every connective stays. A value survives exactly when it meets its threshold: the word threshold for one token, the phrase threshold for more. Survivors keep their probability, and the empty value is always kept |
| Filtering.RemoveLowCounts | processing_filtering.py:69-80 | the loop builds the count-filtered table, or `KeyError` when a connective with values has no counts |
| Filtering.DropRare | processing_filtering.py:72-78 | the inner loop pops exactly the values seen too rarely |
| Filtering.CountFilterSpec | processing_filtering.py:69-80 | without missing counts there is no error and every connective stays. A value survives exactly when its count reaches the word minimum (one token) or the phrase minimum (anything else, `""` included). Survivors keep their probability |
| Filtering.CountFilterSucceeds | processing_filtering.py:71-78 | when every connective with values has counts, no `KeyError` is raised |
| Corpus.PartnersOf | parse_alignments.py:251-255 | the partners of an index are exactly the opposite indices the pairs link to it |
| Corpus.PartnersInRange | parse_alignments.py:251-255 | in a well-formed sentence, every partner indexes a token of the other side |
| Projection.Dedup | parse_alignments.py:257 | `pd.unique`: the same members, no repeats, no longer than the input |
| Projection.DedupOfDistinct | parse_alignments.py:257 | a list without repeats comes out unchanged, so first-seen order is kept |
| Projection.Sort | parse_alignments.py:259 | `list.sort`: sorted, and a permutation of the input |
| Projection.InsertSorted | parse_alignments.py:259 | inserting into a sorted list keeps it sorted and adds exactly the one element |
| Projection.SortDistinct | parse_alignments.py:257-259 | sorting a deduplicated list gives a strictly increasing list of the same values |
| Projection.FillGaps | parse_alignments.py:262-276 | the gap-filled list is at least as long as the indices and ends on the last index |
| Projection.FillGapsIndices | parse_alignments.py:262-276 | dropping the placeholders gives back the indices: each original adjacent pair is examined once |
| Projection.FillGapsMarked | parse_alignments.py:262-276 | every placeholder sits between two indices two or more apart and carries the rule's text; no two adjacent indices are two or more apart |
| Projection.NoAdjacentMarks | parse_alignments.py:262-276 | no two placeholders are ever adjacent |
| Projection.Placeholder | parse_alignments.py:266-275 | the `if`/`elif` chain picks the gap rule's placeholder. A difference of 2 over a comma gives `","` and any other gap of 2 or more gives `"..."`; the `> 2` and `> 1` tests agree |
| Projection.InsertGaps | parse_alignments.py:262-276 | the `while` loop that inserts into the list it walks yields exactly the gap-filled list |
| Projection.GapStep | parse_alignments.py:263-276 | one loop pass: keeps the walk in step with the gap-filled list, advances `pos` by one, and brings the walk closer to its end |
| Projection.Arrange | parse_alignments.py:257-276 | the indices are deduplicated, then sorted when more than one remains; the gaps are marked |
| Projection.ProjectIndices | parse_alignments.py:257-294 | dedup, sort, gap loop, token lookup, edge stripping, join and `", ..."` collapse together give the phrase `Project` defines |
| Projection.Surface | parse_alignments.py:278-280 | the lookup loop keeps the length, replacing each index by its token |
| Projection.ProjectSmall | parse_alignments.py:257-294 | no aligned index projects to `""`; one repeated index projects to its token |
| Projection.SpanStarts | parse_alignments.py:240-243 | exactly the positions where the phrase's tokens occur, ascending |
| Projection.LocateSpans | parse_alignments.py:240-243 | the scan over positions records every exact occurrence, in order |
| Projection.Span | parse_alignments.py:242-243 | `list(range(start, start + len))` |
| Projection.Collect | parse_alignments.py:248-256 | the collected indices are exactly the partners of the span's positions |
| Projection.CollectInRange | parse_alignments.py:248-256 | in a well-formed sentence, the collected indices index the other side's tokens |
| PhraseAlignments.CollectSpan | parse_alignments.py:248-256 | the `for word_pos` loop collects the partners of a span in span order |
| PhraseAlignments.SpanObservations | parse_alignments.py:245-295 | one projection per located occurrence, in order |
| PhraseAlignments.ContiguousOnePerOccurrence | parse_alignments.py:233-245 | no observation unless the raw line contains the phrase. Then there is one per exact token-level occurrence, each the projection of that occurrence; a substring-only match gives none |
| PhraseAlignments.SentenceContiguous | parse_alignments.py:232-295 | one sentence's observations for each listed phrase, in list order |
| PhraseAlignments.AppendContiguous | parse_alignments.py:233-295 | the body of the phrase loop appends exactly that phrase's observations |
| PhraseAlignments.AppendSpans | parse_alignments.py:245-295 | the loop over occurrences appends their projections in order |
| PhraseAlignments.ObserveSpan | parse_alignments.py:247-294 | one occurrence is collected and projected |
| PhraseAlignments.ParseSentenceContiguous | parse_alignments.py:232-295 | the phrase loop of one sentence |
| PhraseAlignments.ParsePhraseAlignments | parse_alignments.py:213-297 | `parse_phrase_alignments` over a corpus builds the contiguous table |
| PhraseAlignments.ContiguousTableGet | parse_alignments.py:213-297 | a phrase holds all the corpus says about it, sentence after sentence. It is a key exactly when that is non-empty, and only listed phrases are keys |
| PhraseAlignments.ContiguousTableShape | parse_alignments.py:213-297 | no key holds an empty list, and every key is a listed phrase |
| PhraseAlignments.FreeAmong | parse_alignments.py:361-367 | the span found is unrecorded and every earlier candidate is recorded; nothing is found only when all candidates are recorded |
| PhraseAlignments.FirstFreeSpanSpec | parse_alignments.py:361-367 | the scan with `break` finds the first occurrence whose span is not yet recorded, or none when every occurrence is recorded |
| PhraseAlignments.FirstFreeSpanFound | parse_alignments.py:361-367 | a span found is an occurrence, and every earlier occurrence is already recorded |
| PhraseAlignments.FirstFreeSpanNone | parse_alignments.py:361-367 | when nothing is found, every occurrence is already recorded |
| PhraseAlignments.RecordSpans | parse_alignments.py:359-367 | at most one span per part |
| PhraseAlignments.RecordSpansDistinct | parse_alignments.py:359-367 | no span is recorded twice |
| PhraseAlignments.RecordSpansAreOccurrences | parse_alignments.py:359-367 | every recorded span is an occurrence of one of the parts |
| PhraseAlignments.RecordPart | parse_alignments.py:360-367 | the position scan for one part records the first free occurrence and stops |
| PhraseAlignments.RecordPartSpans | parse_alignments.py:359-367 | the part loop records the spans `RecordSpans` defines |
| PhraseAlignments.CollectSpans | parse_alignments.py:369-380 | the nested loops collect the partners of all recorded spans, span after span |
| PhraseAlignments.CollectAllInRange | parse_alignments.py:369-380 | the collected indices index the other side's tokens |
| PhraseAlignments.DiscontinuousOutcome | parse_alignments.py:349-419 | `IndexError` exactly when the line contains the only part of a connective without `" ... "`. An observation exactly when the line contains part 0 and part 1, part 0 first. It is `""` when no part occurs as tokens |
| PhraseAlignments.ObserveDiscontinuous | parse_alignments.py:349-419 | the tests, span recording and projection of one phrase in one sentence |
| PhraseAlignments.FoldOutcomesSpec | parse_alignments.py:348-419 | the phrase loop raises exactly when some phrase raises. Otherwise each list grows by what its phrase yields, no list is empty, and only phrases become keys |
| PhraseAlignments.FoldOutcomesError | parse_alignments.py:348-419 | when every phrase raises only `IndexError`, so does the phrase loop |
| PhraseAlignments.ObservedUniform | parse_alignments.py:348-419 | a phrase listed several times receives its observation once per listing |
| PhraseAlignments.FoldCorpusSpec | parse_alignments.py:333-419 | the corpus loop raises exactly when some sentence raises; otherwise each list grows by what every sentence yields |
| PhraseAlignments.FoldCorpusError | parse_alignments.py:333-419 | the only exception propagated is `IndexError` |
| PhraseAlignments.ParseSentenceDiscontinuous | parse_alignments.py:348-419 | the phrase loop of one sentence, stopping at an exception |
| PhraseAlignments.ParseDiscontinuous | parse_alignments.py:329-421 | `parse_discontinuous` over a corpus gives the discontinuous table or the exception |
| PhraseAlignments.DiscontinuousTableSpec | parse_alignments.py:329-421 | it raises exactly when some phrase raises in some sentence. Otherwise each phrase holds all the corpus says about it, is a key exactly when that is non-empty, and only listed phrases are keys |
| PhraseAlignments.DiscontinuousTableError | parse_alignments.py:329-421 | the only exception is `IndexError` |
| WordAlignments.Unaligned | parse_alignments.py:62-72 | the missing indices are indices of the sentence |
| WordAlignments.IndicesOn | parse_alignments.py:62-66 | one index per pair, the one on the requested side, in pair order |
| WordAlignments.Range | parse_alignments.py:62 | `list(range(n))`: the indices `0` to `n - 1` in order |
| WordAlignments.Without | parse_alignments.py:64-72 | exactly the members of the first list that the second lacks; no repeats are introduced |
| WordAlignments.WordsAt | parse_alignments.py:76-79 | the token at each index, in order |
| WordAlignments.UnalignedSpec | parse_alignments.py:62-72 | an index is missing exactly when it is below the token count and no pair uses it; each is listed once |
| WordAlignments.MissingIndices | parse_alignments.py:62-72 | the removal loop, with `ValueError` swallowed, leaves the unaligned indices |
| WordAlignments.AddBlanksGet | parse_alignments.py:74-79 | a word gains one `""` per unaligned occurrence of it; nothing else changes |
| WordAlignments.AppendBlanks | parse_alignments.py:74-79 | the loop appends `""` under every unaligned word |
| WordAlignments.Partners | parse_alignments.py:83-87 | the partner table is a valid ordered dict; its keys are characterised by `WordAlignments.PartnersKeys` |
| WordAlignments.PartnersKeys | parse_alignments.py:83-87 | its keys are exactly the indices some pair uses |
| WordAlignments.GroupPairs | parse_alignments.py:83-87 | the pair loop fills both partner tables at once |
| WordAlignments.Regroup | parse_alignments.py:90-95 | the reversed table is a valid ordered dict; its contents are characterised by `WordAlignments.RegroupFlatten` and `WordAlignments.GroupedOnce` |
| WordAlignments.RegroupFlatten | parse_alignments.py:90-95 | all indices of the reversed table, taken together, are exactly the keys it was built from |
| WordAlignments.GroupedOnce | parse_alignments.py:85-95 | an aligned index appears exactly once across all value groups; an unaligned index appears in none |
| WordAlignments.RegroupPartners | parse_alignments.py:92-95 | the loop that reverses a partner table builds `Regroup` |
| WordAlignments.SymmetrizeSpec | parse_alignments.py:98-110 | when either error set is empty, both tables are untouched. Otherwise each side keeps exactly the groups both sides agree on, so the two tables mirror each other |
| WordAlignments.SymmetrizeSource | parse_alignments.py:104-108 | deleting the source errors leaves exactly the mirrored entries |
| WordAlignments.SymmetrizeTarget | parse_alignments.py:105-110 | deleting the target errors leaves exactly the mirrored entries |
| WordAlignments.DeleteKeys | parse_alignments.py:107-110 | the deletion loop, in any order, deletes exactly the keys of the set |
| WordAlignments.SymmetrizeGroups | parse_alignments.py:98-110 | the symmetry step computes both error sets and deletes only when both are non-empty |
| WordAlignments.Filled | parse_alignments.py:116-128 | a group of at most one index, or one that is not all indices, is left alone; no group shrinks |
| WordAlignments.FilledSpec | parse_alignments.py:118-128 | the gap rule as intended. A filled group has its placeholders exactly where the rule puts them, gives back the group once they are dropped, and grew exactly when it received a placeholder |
| WordAlignments.GapLoopAsWritten | parse_alignments.py:118-128 | the loop as it runs never shrinks a group |
| WordAlignments.GapWalkAsWritten | parse_alignments.py:118-128 | the walk with its bound fixed in advance never shrinks a group when it succeeds |
| WordAlignments.GapLoopSkipsTail | parse_alignments.py:118-128 | over 7 tokens, the loop as written leaves the group `0 2 4 6` with its last gap unmarked, where the rule marks all three |
| WordAlignments.GapLoopIndexError | parse_alignments.py:119-121 | the loop as written raises `IndexError` for the group `2 0` over `x , y`, where the rule gives `2 , 0` |
| WordAlignments.GapPlaceholder | parse_alignments.py:119-128 | the placeholder between two indices in either order, probing the token after the smaller one |
| WordAlignments.FillGroup | parse_alignments.py:118-128 | the corrected walk yields exactly the gap-filled group |
| WordAlignments.FillStep | parse_alignments.py:119-128 | one loop pass: keeps the walk in step with the gap-filled group, advances `pos` by one, and brings the walk closer to its end |
| WordAlignments.FillOne | parse_alignments.py:116-128 | one group, filled with the corrected gap rule of `WordAlignments.FilledSpec` (see Findings) |
| WordAlignments.Rename | parse_alignments.py:132-134 | `d[new] = d[old]; del d[old]` keeps the table valid; `WordAlignments.RenameShaped` says the entry moves unchanged |
| WordAlignments.RenamesGrown | parse_alignments.py:131-134 | every rename is of a group that grew, to what it became |
| WordAlignments.RenamesAllGrown | parse_alignments.py:131-134 | every group that grew is renamed |
| WordAlignments.GapPass | parse_alignments.py:115-154 | a pass fills every group of one table with the corrected gap rule (see Findings) and renames, in the mirrored table, the key of every group that grew |
| WordAlignments.GapPassStep | parse_alignments.py:116-134 | one pass body: both tables move from the state after `j` groups to the state after `j + 1` |
| WordAlignments.FillAll | parse_alignments.py:115-128 | filling every group with the corrected gap rule keeps the table valid; `WordAlignments.FillAllSpec` states what the filling does |
| WordAlignments.RenameAll | parse_alignments.py:131-134 | renames done one after another keep the table valid; `WordAlignments.RenameAllShaped` and `WordAlignments.GapPassRenames` state their effect |
| WordAlignments.GapPassRenames | parse_alignments.py:131-134 | after the pass, each grown group is a key of the mirrored table and its old form is not |
| WordAlignments.RenamesSeparate | parse_alignments.py:131-134 | no rename's new key is any rename's old key, because grown groups hold a placeholder |
| WordAlignments.FillAllSpec | parse_alignments.py:115-154 | filling with the corrected gap rule keeps the keys and marks every value's gaps |
| WordAlignments.RenameShaped | parse_alignments.py:132-134 | a rename moves an entry without changing any value |
| WordAlignments.RenameAllShaped | parse_alignments.py:131-154 | renames keep what holds of every entry |
| WordAlignments.KeyPhrases | parse_alignments.py:157-160 | one key phrase per listed group, in order |
| WordAlignments.ValuePhrases | parse_alignments.py:157-161 | one value phrase per listed group, in order |
| WordAlignments.EmitSpec | parse_alignments.py:157-176 | after the emission loop, a key holds a value exactly when it held it before or some listed group emits it: that group's key phrase is the key and its value phrase the value |
| WordAlignments.EmittedGroup | parse_alignments.py:157-165 | after any earlier appends, emitting a table puts each group's value phrase under its key phrase |
| WordAlignments.EmitShape | parse_alignments.py:157-176 | emission never leaves an empty list |
| WordAlignments.EmitGroups | parse_alignments.py:157-176 | the emission loop appends every group's value phrase under its key phrase, in table order |
| WordAlignments.Grouped | parse_alignments.py:83-154 | after the symmetry step and both passes with the corrected gap rule, both tables are valid, index the right sides, and have every value's gaps marked |
| WordAlignments.GroupSentence | parse_alignments.py:83-154 | grouping, the symmetry step and both gap passes in the source's order, the passes using the corrected gap rule (see Findings) |
| WordAlignments.GroupsFor | parse_alignments.py:83-154 | each side's groups, filled with the corrected gap rule, are valid, index the right sides, and have every value's gaps marked |
| WordAlignments.ParseSentenceWords | parse_alignments.py:51-176 | one sentence: the `""` appends of both sides first, then both emission loops |
| WordAlignments.SentenceUnaligned | parse_alignments.py:62-79 | a word no pair aligns is appended `""` by its sentence |
| WordAlignments.SentenceGroupObserved | parse_alignments.py:157-176 | every group of a sentence appends its value phrase under its key phrase |
| WordAlignments.SentenceAppends | parse_alignments.py:74-176 | a sentence appends nothing else: each append is `""` under an unaligned word, or a group's value phrase under its key phrase |
| WordAlignments.ParseWordAlignments | parse_alignments.py:44-181 | `parse_word_alignments` over a corpus builds both directions' tables, with gaps filled by the corrected rule (see Findings) |
| WordAlignments.WordTableShape | parse_alignments.py:44-181 | no key holds an empty list |
| WordAlignments.WordTableMembers | parse_alignments.py:44-181 | a key holds a value exactly when some sentence appended it under that key |
| WordAlignments.WordTableUnaligned | parse_alignments.py:62-79 | a word left unaligned in some sentence observes `""` |
| WordAlignments.WordTableGroups | parse_alignments.py:157-176 | every group of every sentence is observed, its value phrase under its key phrase |
| ConnSearch.Select | conn_search.py:164-167 | a filtered comprehension keeps exactly the entries that pass |
| ConnSearch.LexiconPartition | conn_search.py:164-167 | the three tests catch exactly the entries with a token; phrases are neither single words nor discontinuous |
| ConnSearch.DottedTokenProbedTwice | conn_search.py:164-167 | a single token containing `...` passes both the single-word and the discontinuous test |
| ConnSearch.Probed | conn_search.py:132-133 | an empty `lex` falls back to the probing language's whole lexicon; any other is used as given |
| ConnSearch.CollectSingles | conn_search.py:169-173 | the single-word loop copies exactly the entries that exist and skips a `KeyError` |
| ConnSearch.MissingSingleWordSilent | conn_search.py:169-205 | a probed single word without a word-alignment entry, and without `...`, raises nothing. It is merged with `[]` and counted with an empty `Counter`, and nothing is committed for it |
| ConnSearch.ObserveAttributed | conn_search.py:169-181 | each table of a round holds only connectives of its part of the lexicon |
| ConnSearch.ObserveError | conn_search.py:175-181 | observing raises nothing but the discontinuous parse's `IndexError` |
| ConnSearch.ObserveRound | conn_search.py:169-181 | the single-word loop, then the phrase parse, then the discontinuous parse |
| ConnSearch.CombinedEntry | conn_search.py:183-197 | the merged table holds every probed connective and no other. Each holds the observations of the last table that read it: the discontinuous table for a connective with `...`, even a single token, then the phrase table, then the single-word table; `[]` means none |
| ConnSearch.DottedTokenLosesWordEntry | conn_search.py:164-197 | a probed `"a...b"` that the discontinuous parse never finds loses its word-alignment observations: it is merged with `[]`, counted with an empty `Counter`, and not committed |
| ConnSearch.UnobservedNotCommitted | conn_search.py:196-204 | a connective merged without observations is not committed |
| ConnSearch.UpdateCounts | conn_search.py:183-193 | the three `conn_count` calls on the round's `defaultdict`s and the three updates: the counts become `CountsAfter`, and the tables come back padded by the reads |
| ConnSearch.CountsFollowMerge | conn_search.py:183-197 | after a round, every probed connective is counted, by exactly its observations in the merged table, possibly none. A connective not probed keeps its old count |
| ConnSearch.CommitRound | conn_search.py:196-205 | the merge of the padded tables, punctuation blanking, probabilities, the probability filter and then the count filter give the committed table |
| ConnSearch.RoundNeverKeyError | conn_search.py:183-204 | with counts just updated, the count filter never raises `KeyError` |
| ConnSearch.CommittedKeys | conn_search.py:196-204 | a round commits probabilities only for connectives it probed |
| ConnSearch.HarvestConns | conn_search.py:212-216 | the harvest is exactly the surviving non-empty values that the other lexicon lacks, each once |
| ConnSearch.HarvestKeepsDistinct | conn_search.py:216-227 | adding a harvest to a lexicon without repeats keeps it without repeats |
| ConnSearch.RunRound | conn_search.py:161-227 | one round on values: for the observations the corpus yields, the new counts, committed table, harvest and error are those `RoundSpec` prescribes (`RoundOf`). The harvest has no repeats and nothing from the other lexicon, and the only error is `IndexError` |
| ConnSearch.RoundRaisesOnlyIndexError | conn_search.py:161-227 | a round raises nothing but `IndexError` |
| ConnSearch.FindAlignments.constructor | conn_search.py:77-95 | the fields as `__init__` sets them: counter 0, empty tables, the lexicons and their unfiltered copies |
| ConnSearch.FindAlignments.RoundFromSource | conn_search.py:124-227 | a source round is a `Step`: the counter goes up by one; the source counts and committed table become what `RoundSpec` prescribes for the probe `Probed(lex, sourceLex)`; the harvest is appended to the target lexicon; the target tables and the source lexicon stay as they were |
| ConnSearch.FindAlignments.RoundFromTarget | conn_search.py:124-227 | the mirror for a target round: the target counts and committed table follow `RoundSpec`, the harvest is appended to the source lexicon, and the source tables and target lexicon stay as they were |
| ConnSearch.FindAlignments.Round | conn_search.py:124-227 | either direction is a `Step`. The probing side's counts and committed table change as `RoundSpec` says for `Probed(lex, ...)`, the other side's tables stay as they were, the probing side's lexicon is unchanged, and the other lexicon grows by the harvest. The harvest holds nothing that lexicon had, so a lexicon without repeats stays without repeats |
| ConnSearch.FindAlignments.FindConns | conn_search.py:97-241 | the recursion as a ghost trace of states, probes, directions and harvests. There is one round per counter step, ending at `limit` or at the only exception, `IndexError`. Every round is a `Step` (`Trace`) from its state, so the final counts and committed tables are the last rounds' results. The directions alternate; call 2 of all probes the whole extended lexicon, and each later call probes the harvest before it (`Called`). Each final lexicon is the old one grown by the harvests of the rounds that probed the other language, in order (`Grown`), and stays without repeats |
| ConnSearch.HarvestedIntoMembers | conn_search.py:205-227 | a connective is harvested into a lexicon exactly when some round probing the other language harvested it |
| ConnSearch.GrownIsAppend | conn_search.py:218-227 | the lexicon grown by a run is the old lexicon followed by all the harvests into it, in round order |
| ConnSearch.CalledAt | conn_search.py:218-241 | in a run, call `i` goes in the direction opposite to call `i - 1`. It probes the whole lexicon when it is call 2 of all, and the previous call's harvest otherwise |
| ConnSearch.FindAlignments.TraceAt | conn_search.py:124-227 | round `i` of a run is a `Step` from the state before it to the state after it, and raises nothing unless it is the last |
| ConnSearch.FindAlignments.RunCons | conn_search.py:218-241 | a round that raised nothing, followed by the run of calls it makes, is a run that starts with that round, and the lexicons grow through it |
| DiscourseRelations.Normalise | discourse_relations.py:125-133 | the label is never longer than the relation; `DiscourseRelations.NormaliseIsSecondField` says which field it is |
| DiscourseRelations.NormaliseIsSecondField | discourse_relations.py:125-133 | the label is the capitalised second `:`-field, or the whole relation when it has no `:`; it never contains `:` |
| DiscourseRelations.NormaliseTwice | discourse_relations.py:125-133 | normalising a label again changes nothing |
| DiscourseRelations.CapitalizeTwice | discourse_relations.py:133 | `capitalize` is idempotent |
| DiscourseRelations.RelationKey | discourse_relations.py:124-135 | the key is the set of normalised labels, each from one of the relations |
| DiscourseRelations.Rename | discourse_relations.py:48-49 | `d[k'] = d.pop(k)` moves the value to the new key |
| DiscourseRelations.RenameEach | help_functions/discourse_relations.py:55-62 | keys not listed are kept |
| DiscourseRelations.RenameEachRekeys | help_functions/discourse_relations.py:55-62 | when the tagged names are new, each present key with relations is renamed to its tagged form with its value; all other keys keep theirs |
| DiscourseRelations.TagTargetsOf | discourse_relations.py:44-49 | one source's targets: each with relations is popped and reinserted under its tagged name |
| DiscourseRelations.TagEachSource | discourse_relations.py:43-49 | the loop over sources tags the targets of each |
| DiscourseRelations.TagAllTargets | discourse_relations.py:43-49 | tagging the targets of every source keeps the alignment a valid ordered dict; `DiscourseRelations.AddRelationsRekeysTargets` states the renaming |
| DiscourseRelations.TagAlignmentTargets | help_functions/discourse_relations.py:45-52 | the target step, skipped when there are no target relations |
| DiscourseRelations.TagNoTargets | discourse_relations.py:42 | without target relations the target step changes nothing |
| DiscourseRelations.TagAlignmentSources | help_functions/discourse_relations.py:55-62 | the source step; a source missing from the alignment is skipped after `KeyError` |
| DiscourseRelations.AddDiscourseRelation | discourse_relations.py:14-61 | targets are tagged first, then sources, on a copy; the input is a value and stays untouched |
| DiscourseRelations.AddRelationsRekeysTargets | discourse_relations.py:42-49 | each target with relations moves to `"t (r1, r2)"` with its probability unchanged; other targets are untouched |
| DiscourseRelations.AddRelationsRekeysSources | help_functions/discourse_relations.py:55-62 | each present source with relations moves to its tagged name with its targets; other sources are untouched |
| DiscourseRelations.Matching | discourse_relations.py:87-96 | a connective is kept, with all its occurrences, exactly when it has relations sharing one with the group |
| DiscourseRelations.FilterForDiscourseRelation | discourse_relations.py:64-96 | a relation missing from the mapping raises `KeyError`; otherwise the result is the matching connectives in order, with those lacking relations skipped |
| RelationMapping.TallyOne | discourse_relations.py:123-160 | a source with relations adds its label set as a key; one without adds nothing |
| RelationMapping.TallyKeys | discourse_relations.py:123-141 | the keys are exactly the label sets of the sources with relations |
| RelationMapping.TallyOneCount | discourse_relations.py:136-140 | one source adds one to the count of its own label set only |
| RelationMapping.TallyCount | discourse_relations.py:136-140 | a key's count is the number of sources with that label set |
| RelationMapping.AddWeightsMass | discourse_relations.py:142-160 | a source's targets add exactly their labelled probability to the total weight |
| RelationMapping.TallyMass | discourse_relations.py:142-160 | a key's weights add up to the labelled probability of its sources' targets |
| RelationMapping.TallyPositive | discourse_relations.py:142-160 | weights stay positive when every probability is |
| RelationMapping.Proportions | discourse_relations.py:162-167 | `ZeroDivisionError` exactly when an entry with weights totals zero. Otherwise the keys, counts and target label sets are kept |
| RelationMapping.ProportionsSumToOne | discourse_relations.py:162-167 | the proportions of an entry with weights sum to 1 |
| RelationMapping.ProportionsShare | discourse_relations.py:162-167 | each proportion is its weight's share of the entry's total |
| RelationMapping.NoZeroDivision | discourse_relations.py:162-167 | with positive probabilities the division never meets a zero total |
| RelationMapping.AddTargetWeights | discourse_relations.py:142-160 | the inner loop over one source's targets |
| RelationMapping.TallyRelations | discourse_relations.py:120-160 | the first loop, over the sources |
| RelationMapping.SumValues | discourse_relations.py:164 | `sum(d.values())` |
| RelationMapping.Divide | discourse_relations.py:165-167 | every weight divided by the total; the new sum is the old sum over the total |
| RelationMapping.NormaliseProportions | discourse_relations.py:162-167 | the second loop |
| RelationMapping.DiscourseRelationMapping | discourse_relations.py:99-169 | both loops |

## Left out

- File reading, line zipping, timing, `print` and the `__main__` blocks. A corpus is an in-memory sequence of sentence pairs. The aligner's `i-j` text is already parsed into pairs of naturals.
- `Corpus.WellFormed`: every pair is assumed to index existing tokens. The aligner guarantees this, and a violation would only raise `IndexError` at a token lookup.
- `filter_single_words` is called by `find_conns` but defined nowhere in the repository, so it is the identity here.
- The language codes, file names and `complete_lex` (used only by commented-out code) of `FindAlignments` are not fields of the class.
- `ConnSearch.FindAlignments.FindConns`: requires `counter < limit`. The source starting at or past `limit` recurses until Python's recursion limit, which is not modelled.
- A `lang` other than `"source"` or `"target"` (the `else: pass` branch) cannot be expressed: the direction is a two-valued `Side`.
- `ConnSearch.HarvestConns`: `list(set(...))` has no defined order, so only the members of the harvest are stated, not their order.
- Python's `float` arithmetic is modelled as exact `real` arithmetic, and thresholds are reals.
- `pd.unique` and `list.sort` are modelled on `seq<nat>`. Lists that mix integers and placeholder strings never reach the sort, which runs before any insertion.
- `Projection.InsertGaps`: the contiguous routine tests `> 2` and the discontinuous one `> 1` after the case of exactly 2. Both are one method with a `wideGap` parameter, proved to give the same result.
- In-place list mutation and aliasing: lists and dicts are values that methods return, and `deepcopy` is implicit.
- `RelationMapping`: the key `str(sorted(set(labels)))` is modelled by the label set itself, since the rendering is one-to-one. The result is a `map`, so the insertion order of the relation mapping and of its inner target dicts is not modelled.
- `Text.Capitalize`, `Text.Lower`: ASCII letters only; Unicode case mapping is not modelled.
- `WordAlignments.GroupSentence`, `WordAlignments.ParseWordAlignments`: the word table is built with the corrected gap rule (see Findings). The as-written loops, with their skipped tail pairs and their `IndexError`, are modelled only group by group, by `WordAlignments.GapLoopAsWritten`; the as-written table is not.
- `DiscourseRelations.AddRelationsRekeysTargets`: assumes the tagged names are new. When a tagged name equals another key, the result depends on dict iteration order and is not stated.
- `DiscourseRelations.AddRelationsRekeysSources`: assumes the tagged names are new, as above.
- `WordAlignments.EmitSpec`: stated through the indices of the emitted key and value phrases, not as a direct quantifier over the table's groups. `WordAlignments.WordTableGroups` gives that direction.
- `create_sankey_diagram`, `assign_relations`, `read_xml_lex`, `read_es_conns`, `json_to_dict` and `save_alignments` are plotting and XML/JSON/file I/O.
- The tokenisation scripts (`tokenize_es_it.py`), `help_functions/create_corpus_examples.py` and `conn_align.py` are not part of this model. They are file rewriting and argument wiring.
- Commented-out code (contraction removal, delete lists, unused filters) is not modelled.

## Findings

| source | as written | input that shows it | evidently intended | confidence | as-written member | corrected member |
|---|---|---|---|---|---|---|
| parse_alignments.py:118-128 | `for pos in range(len(lang2)-1)` fixes its bound before the loop inserts into the same list, so trailing pairs are never examined (also 140-150) | a group of target indices `0 2 4 6` over 7 tokens gives `0 ... 2 ... 4 6` | every adjacent pair of the group is examined, giving `0 ... 2 ... 4 ... 6` | not executed | WordAlignments.GapLoopSkipsTail | WordAlignments.FilledSpec |
| parse_alignments.py:119-121 | the comma probe reads `target[int(lang2[pos])+1]`, the token after the first index, which is the larger one when the group descends (also 143) | the pairs `0-2 0-0` over the target `x , y` give the group `2 0`; the probe reads index 3 and raises `IndexError` | probe the token between the two indices, after the smaller one, giving `y , x` | not executed | WordAlignments.GapLoopIndexError | WordAlignments.GapPlaceholder |
