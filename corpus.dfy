/** A parallel corpus held in memory: for every sentence, the line of each
    language and the aligner's output for it, a list of `i-j` pairs that
    link the `i`-th source token to the `j`-th target token. Tokens are
    the whitespace-separated words of a line. */
module Corpus {
  import opened Text

  /** The language of the pair a lexicon or a lookup belongs to
      (`lang == 1` or `"source"`, `lang == 2` or `"target"`). */
  datatype Side = Source | Target

  function Flip(side: Side): (other: Side)
    ensures other != side
  {
    if side == Source then Target else Source
  }

  datatype SentencePair = SentencePair(srcLine: string, tgtLine: string, pairs: seq<(nat, nat)>)

  /** The raw line of one side, the text the substring tests run on. */
  function Line(s: SentencePair, side: Side): string {
    if side == Source then s.srcLine else s.tgtLine
  }

  /** `line.split()` of one side. */
  function Tokens(s: SentencePair, side: Side): seq<string> {
    Words(Line(s, side))
  }

  /** The index a pair gives for `side`. */
  function IndexOn(p: (nat, nat), side: Side): nat {
    if side == Source then p.0 else p.1
  }

  /** The opposite-side indices aligned to index `i` of `side`, in the
      order of the pairs, repetitions kept
      (`[i2 for i1, i2 in pair if i1 == word_pos]` and its mirror). */
  function PartnersOf(pairs: seq<(nat, nat)>, side: Side, i: nat): (r: seq<nat>)
    ensures |r| <= |pairs|
    ensures forall x :: x in r <==> exists k :: 0 <= k < |pairs| && IndexOn(pairs[k], side) == i && IndexOn(pairs[k], Flip(side)) == x
  {
    if pairs == [] then []
    else
      var rest := PartnersOf(pairs[1..], side, i);
      assert forall k :: 1 <= k < |pairs| ==> pairs[1..][k - 1] == pairs[k];
      if IndexOn(pairs[0], side) == i then [IndexOn(pairs[0], Flip(side))] + rest else rest
  }

  /** Every pair links tokens that exist. The aligner only emits such
      pairs, and the model takes this as given of its input (a pair that
      did not would make the original raise `IndexError` where it looks
      the token up). */
  predicate WellFormed(s: SentencePair) {
    forall k :: 0 <= k < |s.pairs| ==>
      s.pairs[k].0 < |Tokens(s, Source)| && s.pairs[k].1 < |Tokens(s, Target)|
  }

  predicate AllWellFormed(corpus: seq<SentencePair>) {
    forall i :: 0 <= i < |corpus| ==> WellFormed(corpus[i])
  }

  lemma PartnersInRange(s: SentencePair, side: Side, i: nat)
    requires WellFormed(s)
    ensures forall x :: x in PartnersOf(s.pairs, side, i) ==> x < |Tokens(s, Flip(side))|
  {
  }
}
