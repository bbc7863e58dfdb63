/**
 * The prose splitter of `chunk_for_lm_studio`: greedy packing of paragraphs
 * under the token budget `hardCap`, falling back to sentence packing for a
 * paragraph that is too large, and to a word-level hard wrap for a sentence
 * that is too large.
 *
 * The pure functions below say which chunks come out; the class `Splitter`
 * holds the state the source keeps in the enclosing function (`chunks`,
 * `current`, `current_tokens`, updated through `flush_current`) and its
 * methods are proved to produce exactly those chunks.
 */
module ProseSplitter {
  import opened Text
  import opened TokenMeter
  import opened Segmenter

  // ---------------------------------------------------------------------------
  // Specification
  // ---------------------------------------------------------------------------

  /**
   * What a flush appends: the buffered pieces joined by `sep` and stripped, or
   * nothing when the buffer is empty. `flush_current` joins by "\n\n", the
   * sentence buffer by " ".
   */
  function Flushed(xs: seq<string>, sep: string): (r: seq<string>)
    ensures |r| <= 1 && (r == [] <==> xs == [])
  {
    if xs == [] then [] else [Strip(Join(xs, sep))]
  }

  /**
   * The hard wrap of the remainder `big` in approximate mode: while `big`
   * is over the budget, emit its trimmed prefix and keep the words after it;
   * then emit what is left unless it is blank.
   */
  function HardWrap(big: string, hardCap: int): seq<string>
    requires hardCap >= 1
    decreases |Words(big)|
  {
    if CountTokens(big) > hardCap then
      [Strip(TrimToTokens(big, hardCap))] + HardWrap(WrapRemainder(big, hardCap), hardCap)
    else if Strip(big) != [] then [Strip(big)]
    else []
  }

  /**
   * What the hard wrap keeps after emitting a slice: the words of `big`
   * after the ones the slice used, joined by single spaces. These are the
   * words after the first AllowedWords(hardCap), so the loop makes progress.
   */
  function WrapRemainder(big: string, hardCap: int): (rest: string)
    requires hardCap >= 1 && CountTokens(big) > hardCap
    ensures AllowedWords(hardCap) <= |Words(big)|
    ensures Words(rest) == Words(big)[AllowedWords(hardCap)..]
  {
    var sliceText := TrimToTokens(big, hardCap);
    var usedWords := |Words(sliceText)|;
    var bigWords := Words(big);
    OverBudgetHasAllowedWords(big, hardCap);
    WordsOfJoinedWords(bigWords[usedWords..]);
    Join(bigWords[usedWords..], " ")
  }

  /**
   * One iteration of a packing loop: the chunks it emits, and the pending
   * pieces (the paragraph bin or the sentence buffer) with their tally.
   */
  datatype Step = Step(emitted: seq<string>, pending: seq<string>, tally: int)

  /**
   * One iteration of the sentence loop: a sentence within the budget joins
   * the buffer if it fits, or flushes the buffer and starts a new one; an
   * oversized sentence flushes the buffer and is hard-wrapped.
   */
  function SentenceStep(sent: string, buf: seq<string>, bufTokens: int, hardCap: int): Step
    requires hardCap >= 1
  {
    var stoks := CountTokens(sent);
    if stoks <= hardCap then
      if bufTokens + (if buf != [] then CountTokens(" ") else 0) + stoks <= hardCap then
        if buf != [] then Step([], buf + [sent], bufTokens + CountTokens(" ") + stoks)
        else Step([], [sent], stoks)
      else Step(Flushed(buf, " "), [sent], stoks)
    else Step(Flushed(buf, " ") + HardWrap(sent, hardCap), [], 0)
  }

  /** Sentence packing from the buffer `buf` with tally `bufTokens`; the buffer is flushed at the end. */
  function PackSentences(sents: seq<string>, buf: seq<string>, bufTokens: int, hardCap: int): seq<string>
    requires hardCap >= 1
    decreases |sents|
  {
    if sents == [] then Flushed(buf, " ")
    else
      var step := SentenceStep(sents[0], buf, bufTokens, hardCap);
      step.emitted + PackSentences(sents[1..], step.pending, step.tally, hardCap)
  }

  /** The chunks an oversized paragraph is packed into, sentence by sentence. */
  function OversizedParagraph(para: string, hardCap: int): seq<string>
    requires hardCap >= 1
  {
    PackSentences(SplitSentences(Strip(para)), [], 0, hardCap)
  }

  /**
   * One iteration of the paragraph loop: a paragraph within the budget joins
   * the bin if it fits, or flushes the bin and starts a new one; an oversized
   * paragraph flushes the bin, is packed by sentences and leaves the bin empty.
   */
  function ParagraphStep(para: string, current: seq<string>, currentTokens: int, hardCap: int): Step
    requires hardCap >= 1
  {
    var ptoks := CountTokens(para);
    if ptoks <= hardCap then
      if currentTokens + (if current != [] then CountTokens("\n\n") else 0) + ptoks <= hardCap then
        if current != [] then Step([], current + [para], currentTokens + CountTokens("\n\n") + ptoks)
        else Step([], [para], ptoks)
      else Step(Flushed(current, "\n\n"), [para], ptoks)
    else Step(Flushed(current, "\n\n") + OversizedParagraph(para, hardCap), [], 0)
  }

  /** Paragraph packing from the bin `current` with tally `currentTokens`; the bin is flushed at the end. */
  function PackParagraphs(paras: seq<string>, current: seq<string>, currentTokens: int, hardCap: int): seq<string>
    requires hardCap >= 1
    decreases |paras|
  {
    if paras == [] then Flushed(current, "\n\n")
    else
      var step := ParagraphStep(paras[0], current, currentTokens, hardCap);
      step.emitted + PackParagraphs(paras[1..], step.pending, step.tally, hardCap)
  }

  /** The chunks the prose splitter emits for `text` under the budget `hardCap`. */
  function ProseChunks(text: string, hardCap: int): seq<string>
    requires hardCap >= 1
  {
    PackParagraphs(SplitParagraphs(NormalizeNewlines(text)), [], 0, hardCap)
  }

  // ---------------------------------------------------------------------------
  // Properties of the specification
  // ---------------------------------------------------------------------------

  /** A flush keeps the buffered words, in order. */
  lemma FlushedWords(xs: seq<string>, sep: string)
    requires sep != [] && AllSpace(sep)
    ensures WordsOfAll(Flushed(xs, sep)) == WordsOfAll(xs)
  {
    if xs != [] {
      WordsOfAllSingleton(Strip(Join(xs, sep)));
      WordsOfStrippedJoin(xs, sep);
    }
  }

  /** A flushed bin or buffer whose tally is within the budget is within the budget. */
  lemma FlushedWithinBudget(xs: seq<string>, sep: string, hardCap: int)
    requires sep != [] && AllSpace(sep) && SumTokens(xs) <= hardCap
    ensures CountTokens(Strip(Join(xs, sep))) <= hardCap
  {
    JoinedTokensBound(xs, sep);
  }

  /** An over-budget remainder has at least the AllowedWords(hardCap) words a trim keeps. */
  lemma OverBudgetHasAllowedWords(big: string, hardCap: int)
    requires hardCap >= 1 && CountTokens(big) > hardCap
    ensures |Words(big)| >= AllowedWords(hardCap)
  {
    var k := AllowedWords(hardCap);
    if 3 * hardCap >= 4 {
      assert 4 * |Words(big)| + 3 > 3 * hardCap >= 4 * k;
    }
  }

  /**
   * The slice emitted from an over-budget remainder holds its first
   * AllowedWords(hardCap) words and is within the budget.
   */
  lemma WrapSliceShape(big: string, hardCap: int)
    requires hardCap >= 1 && CountTokens(big) > hardCap
    ensures Words(Strip(TrimToTokens(big, hardCap))) == Words(big)[..AllowedWords(hardCap)]
    ensures |Words(Strip(TrimToTokens(big, hardCap)))| == AllowedWords(hardCap)
    ensures WithinBudget(Strip(TrimToTokens(big, hardCap)), hardCap)
  {
    OverBudgetHasAllowedWords(big, hardCap);
    WordsOfStrip(TrimToTokens(big, hardCap));
    TrimWithinBudget(big, hardCap);
  }

  /** The hard wrap loses, adds and reorders no word. */
  lemma {:induction false} HardWrapWords(big: string, hardCap: int)
    requires hardCap >= 1
    ensures WordsOfAll(HardWrap(big, hardCap)) == Words(big)
    decreases |Words(big)|
  {
    if CountTokens(big) > hardCap {
      var slice, rest := Strip(TrimToTokens(big, hardCap)), WrapRemainder(big, hardCap);
      HardWrapWords(rest, hardCap);
      WordsOfAllCons(slice, HardWrap(rest, hardCap));
      WrapSliceShape(big, hardCap);
      SplitAt(Words(big), AllowedWords(hardCap));
    } else if Strip(big) != [] {
      WordsOfAllSingleton(Strip(big));
      WordsOfStrip(big);
    } else {
      StripEmpty(big);
    }
  }

  /**
   * Every slice of the hard wrap holds at least one word (a blank remainder
   * is never emitted) and is within the budget; an over-budget sentence
   * yields at least one slice.
   */
  lemma {:induction false} HardWrapWithinBudget(big: string, hardCap: int)
    requires hardCap >= 1
    ensures CountTokens(big) > hardCap ==> HardWrap(big, hardCap) != []
    ensures forall c :: c in HardWrap(big, hardCap) ==> Words(c) != [] && WithinBudget(c, hardCap)
    decreases |Words(big)|
  {
    if CountTokens(big) > hardCap {
      var rest := WrapRemainder(big, hardCap);
      HardWrapWithinBudget(rest, hardCap);
      WrapSliceShape(big, hardCap);
    } else if Strip(big) != [] {
      StripEmpty(big);
      WordsOfStrip(big);
    }
  }

  /** Every slice but the last holds exactly k words. */
  predicate FullBeforeLast(slices: seq<string>, k: nat) {
    forall i :: 0 <= i < |slices| - 1 ==> |Words(slices[i])| == k
  }

  lemma FullSlicesCons(x: string, tail: seq<string>, k: nat)
    requires |Words(x)| == k && FullBeforeLast(tail, k)
    ensures FullBeforeLast([x] + tail, k)
  {
    ConsIndex(x, tail);
  }

  /** Every slice of the hard wrap but the last holds exactly AllowedWords(hardCap) words. */
  lemma {:induction false} HardWrapFullSlices(big: string, hardCap: int)
    requires hardCap >= 1
    ensures FullBeforeLast(HardWrap(big, hardCap), AllowedWords(hardCap))
    decreases |Words(big)|
  {
    if CountTokens(big) > hardCap {
      var rest := WrapRemainder(big, hardCap);
      HardWrapFullSlices(rest, hardCap);
      WrapSliceShape(big, hardCap);
      FullSlicesCons(Strip(TrimToTokens(big, hardCap)), HardWrap(rest, hardCap), AllowedWords(hardCap));
    }
  }

  /** A sentence step moves words between the buffer and the output without losing or reordering any. */
  lemma SentenceStepWords(sent: string, buf: seq<string>, bufTokens: int, hardCap: int)
    requires hardCap >= 1
    ensures var step := SentenceStep(sent, buf, bufTokens, hardCap);
      WordsOfAll(step.emitted) + WordsOfAll(step.pending) == WordsOfAll(buf) + Words(sent)
  {
    var stoks := CountTokens(sent);
    FlushedWords(buf, " ");
    WordsOfAllSingleton(sent);
    if stoks > hardCap {
      HardWrapWords(sent, hardCap);
      WordsOfAllAppend(Flushed(buf, " "), HardWrap(sent, hardCap));
    } else if bufTokens + (if buf != [] then CountTokens(" ") else 0) + stoks <= hardCap && buf != [] {
      WordsOfAllSnoc(buf, sent);
    }
  }

  /**
   * A sentence step keeps the buffer's tally exact and within the budget, and
   * everything it emits is within the budget (or a single atomic word).
   */
  lemma SentenceStepBudget(sent: string, buf: seq<string>, bufTokens: int, hardCap: int)
    requires hardCap >= 1 && bufTokens == SumTokens(buf) && bufTokens <= hardCap
    ensures var step := SentenceStep(sent, buf, bufTokens, hardCap);
      step.tally == SumTokens(step.pending) && step.tally <= hardCap && AllWithinBudget(step.emitted, hardCap)
  {
    var stoks := CountTokens(sent);
    SeparatorsCountZero();
    SumTokensSingleton(sent);
    if buf != [] {
      FlushedWithinBudget(buf, " ", hardCap);
      SumTokensSnoc(buf, sent);
    }
    if stoks > hardCap {
      HardWrapWithinBudget(sent, hardCap);
    }
  }

  /** A sentence step always leaves something emitted or pending. */
  lemma SentenceStepNonEmpty(sent: string, buf: seq<string>, bufTokens: int, hardCap: int)
    requires hardCap >= 1
    ensures var step := SentenceStep(sent, buf, bufTokens, hardCap);
      step.emitted != [] || step.pending != []
  {
    HardWrapWithinBudget(sent, hardCap);
  }

  /** Sentence packing from position i of `sents`, one step unrolled. */
  lemma PackSentencesAt(sents: seq<string>, i: nat, buf: seq<string>, bufTokens: int, hardCap: int)
    requires hardCap >= 1 && i < |sents|
    ensures var step := SentenceStep(sents[i], buf, bufTokens, hardCap);
      PackSentences(sents[i..], buf, bufTokens, hardCap)
        == step.emitted + PackSentences(sents[i + 1..], step.pending, step.tally, hardCap)
      && (step.pending == [] ==> step.tally == 0)
  {
    SliceTail(sents, i);
  }

  /** Sentence packing loses, adds and reorders no word. */
  lemma {:induction false} PackSentencesWords(sents: seq<string>, buf: seq<string>, bufTokens: int, hardCap: int)
    requires hardCap >= 1
    ensures WordsOfAll(PackSentences(sents, buf, bufTokens, hardCap)) == WordsOfAll(buf) + WordsOfAll(sents)
    decreases |sents|
  {
    if sents == [] {
      FlushedWords(buf, " ");
    } else {
      var step := SentenceStep(sents[0], buf, bufTokens, hardCap);
      var out := PackSentences(sents[1..], step.pending, step.tally, hardCap);
      PackSentencesWords(sents[1..], step.pending, step.tally, hardCap);
      SentenceStepWords(sents[0], buf, bufTokens, hardCap);
      WordsOfAllAppend(step.emitted, out);
      HeadTail(sents);
      WordsOfAllCons(sents[0], sents[1..]);
      AppendAssoc(WordsOfAll(step.emitted), WordsOfAll(step.pending), WordsOfAll(sents[1..]));
      AppendAssoc(WordsOfAll(buf), Words(sents[0]), WordsOfAll(sents[1..]));
    }
  }

  /** Every chunk of the sentence packer is within the budget (or a single atomic word). */
  lemma {:induction false} PackSentencesBudget(sents: seq<string>, buf: seq<string>, bufTokens: int, hardCap: int)
    requires hardCap >= 1 && bufTokens == SumTokens(buf) && bufTokens <= hardCap
    ensures AllWithinBudget(PackSentences(sents, buf, bufTokens, hardCap), hardCap)
    decreases |sents|
  {
    if sents == [] {
      if buf != [] {
        FlushedWithinBudget(buf, " ", hardCap);
      }
    } else {
      var step := SentenceStep(sents[0], buf, bufTokens, hardCap);
      SentenceStepBudget(sents[0], buf, bufTokens, hardCap);
      PackSentencesBudget(sents[1..], step.pending, step.tally, hardCap);
    }
  }

  /** The sentence packer emits something whenever it has a sentence or a buffered sentence. */
  lemma {:induction false} PackSentencesNonEmpty(sents: seq<string>, buf: seq<string>, bufTokens: int, hardCap: int)
    requires hardCap >= 1 && (sents != [] || buf != [])
    ensures PackSentences(sents, buf, bufTokens, hardCap) != []
    decreases |sents|
  {
    if sents != [] {
      var step := SentenceStep(sents[0], buf, bufTokens, hardCap);
      SentenceStepNonEmpty(sents[0], buf, bufTokens, hardCap);
      if step.emitted == [] {
        PackSentencesNonEmpty(sents[1..], step.pending, step.tally, hardCap);
      }
    }
  }

  /** The sentence packing of an oversized paragraph keeps exactly the paragraph's words. */
  lemma OversizedParagraphWords(para: string, hardCap: int)
    requires hardCap >= 1
    ensures WordsOfAll(OversizedParagraph(para, hardCap)) == Words(para)
  {
    PackSentencesWords(SplitSentences(Strip(para)), [], 0, hardCap);
    SplitSentencesWords(Strip(para));
    WordsOfStrip(para);
  }

  /** A paragraph step moves words between the bin and the output without losing or reordering any. */
  lemma ParagraphStepWords(para: string, current: seq<string>, currentTokens: int, hardCap: int)
    requires hardCap >= 1
    ensures var step := ParagraphStep(para, current, currentTokens, hardCap);
      WordsOfAll(step.emitted) + WordsOfAll(step.pending) == WordsOfAll(current) + Words(para)
  {
    var ptoks := CountTokens(para);
    FlushedWords(current, "\n\n");
    WordsOfAllSingleton(para);
    if ptoks > hardCap {
      OversizedParagraphWords(para, hardCap);
      WordsOfAllAppend(Flushed(current, "\n\n"), OversizedParagraph(para, hardCap));
    } else if currentTokens + (if current != [] then CountTokens("\n\n") else 0) + ptoks <= hardCap && current != [] {
      WordsOfAllSnoc(current, para);
    }
  }

  /**
   * A paragraph step keeps the bin's tally exact and within the budget, and
   * everything it emits is within the budget (or a single atomic word).
   */
  lemma ParagraphStepBudget(para: string, current: seq<string>, currentTokens: int, hardCap: int)
    requires hardCap >= 1 && currentTokens == SumTokens(current) && currentTokens <= hardCap
    ensures var step := ParagraphStep(para, current, currentTokens, hardCap);
      step.tally == SumTokens(step.pending) && step.tally <= hardCap && AllWithinBudget(step.emitted, hardCap)
  {
    var ptoks := CountTokens(para);
    if ptoks > hardCap {
      OversizedStepBudget(para, current, hardCap);
    } else {
      SeparatorsCountZero();
      SumTokensSingleton(para);
      if currentTokens + (if current != [] then CountTokens("\n\n") else 0) + ptoks <= hardCap {
        if current != [] {
          SumTokensSnoc(current, para);
        }
      } else if current != [] {
        FlushedWithinBudget(current, "\n\n", hardCap);
        assert Flushed(current, "\n\n") == [Strip(Join(current, "\n\n"))];
      }
    }
  }

  /** What an oversized paragraph's step emits is within the budget. */
  lemma OversizedStepBudget(para: string, current: seq<string>, hardCap: int)
    requires hardCap >= 1 && SumTokens(current) <= hardCap
    ensures AllWithinBudget(Flushed(current, "\n\n") + OversizedParagraph(para, hardCap), hardCap)
  {
    var flushed := Flushed(current, "\n\n");
    if current != [] {
      FlushedWithinBudget(current, "\n\n", hardCap);
      assert flushed == [Strip(Join(current, "\n\n"))];
    }
    assert AllWithinBudget(flushed, hardCap);
    var packed := OversizedParagraph(para, hardCap);
    PackSentencesBudget(SplitSentences(Strip(para)), [], 0, hardCap);
    assert AllWithinBudget(packed, hardCap);
    AllWithinBudgetAppend(flushed, packed, hardCap);
  }

  lemma AllWithinBudgetAppend(a: seq<string>, b: seq<string>, hardCap: int)
    requires AllWithinBudget(a, hardCap) && AllWithinBudget(b, hardCap)
    ensures AllWithinBudget(a + b, hardCap)
  {
  }

  /** A paragraph step always leaves something emitted or pending. */
  lemma ParagraphStepNonEmpty(para: string, current: seq<string>, currentTokens: int, hardCap: int)
    requires hardCap >= 1
    ensures var step := ParagraphStep(para, current, currentTokens, hardCap);
      step.emitted != [] || step.pending != []
  {
    if CountTokens(para) > hardCap {
      OversizedParagraphNonEmpty(para, hardCap);
    }
  }

  lemma OversizedParagraphNonEmpty(para: string, hardCap: int)
    requires hardCap >= 1
    ensures OversizedParagraph(para, hardCap) != []
  {
    var sents := SplitSentences(Strip(para));
    assert |sents| >= 1;
    PackSentencesNonEmpty(sents, [], 0, hardCap);
  }

  /** Paragraph packing from position i of `paras`, one step unrolled. */
  lemma PackParagraphsAt(paras: seq<string>, i: nat, current: seq<string>, currentTokens: int, hardCap: int)
    requires hardCap >= 1 && i < |paras|
    ensures var step := ParagraphStep(paras[i], current, currentTokens, hardCap);
      PackParagraphs(paras[i..], current, currentTokens, hardCap)
        == step.emitted + PackParagraphs(paras[i + 1..], step.pending, step.tally, hardCap)
  {
    SliceTail(paras, i);
  }

  /** Paragraph packing loses, adds and reorders no word. */
  lemma {:induction false} PackParagraphsWords(paras: seq<string>, current: seq<string>, currentTokens: int, hardCap: int)
    requires hardCap >= 1
    ensures WordsOfAll(PackParagraphs(paras, current, currentTokens, hardCap)) == WordsOfAll(current) + WordsOfAll(paras)
    decreases |paras|
  {
    if paras == [] {
      FlushedWords(current, "\n\n");
    } else {
      var step := ParagraphStep(paras[0], current, currentTokens, hardCap);
      var out := PackParagraphs(paras[1..], step.pending, step.tally, hardCap);
      PackParagraphsWords(paras[1..], step.pending, step.tally, hardCap);
      ParagraphStepWords(paras[0], current, currentTokens, hardCap);
      WordsOfAllAppend(step.emitted, out);
      HeadTail(paras);
      WordsOfAllCons(paras[0], paras[1..]);
      AppendAssoc(WordsOfAll(step.emitted), WordsOfAll(step.pending), WordsOfAll(paras[1..]));
      AppendAssoc(WordsOfAll(current), Words(paras[0]), WordsOfAll(paras[1..]));
    }
  }

  /** Every chunk of the paragraph packer is within the budget (or a single atomic word). */
  lemma {:induction false} PackParagraphsBudget(paras: seq<string>, current: seq<string>, currentTokens: int, hardCap: int)
    requires hardCap >= 1 && currentTokens == SumTokens(current) && currentTokens <= hardCap
    ensures AllWithinBudget(PackParagraphs(paras, current, currentTokens, hardCap), hardCap)
    decreases |paras|
  {
    if paras == [] {
      if current != [] {
        FlushedWithinBudget(current, "\n\n", hardCap);
      }
    } else {
      var step := ParagraphStep(paras[0], current, currentTokens, hardCap);
      ParagraphStepBudget(paras[0], current, currentTokens, hardCap);
      PackParagraphsBudget(paras[1..], step.pending, step.tally, hardCap);
    }
  }

  /** The paragraph packer emits something whenever it has a paragraph or a pending one. */
  lemma {:induction false} PackParagraphsNonEmpty(paras: seq<string>, current: seq<string>, currentTokens: int, hardCap: int)
    requires hardCap >= 1 && (paras != [] || current != [])
    ensures PackParagraphs(paras, current, currentTokens, hardCap) != []
    decreases |paras|
  {
    if paras != [] {
      var step := ParagraphStep(paras[0], current, currentTokens, hardCap);
      ParagraphStepNonEmpty(paras[0], current, currentTokens, hardCap);
      if step.emitted == [] {
        PackParagraphsNonEmpty(paras[1..], step.pending, step.tally, hardCap);
      }
    }
  }

  /** No word of the text is lost, duplicated or reordered by the prose splitter. */
  lemma ProseChunksWords(text: string, hardCap: int)
    requires hardCap >= 1
    ensures WordsOfAll(ProseChunks(text, hardCap)) == Words(text)
  {
    var normalized := NormalizeNewlines(text);
    PackParagraphsWords(SplitParagraphs(normalized), [], 0, hardCap);
    SplitParagraphsWords(normalized);
    NormalizeNewlinesWords(text);
  }

  /**
   * The prose splitter emits at least one chunk, and every chunk is within
   * the budget, or is one atomic word when the budget is 1 token.
   */
  lemma ProseChunksBudget(text: string, hardCap: int)
    requires hardCap >= 1
    ensures |ProseChunks(text, hardCap)| >= 1
    ensures AllWithinBudget(ProseChunks(text, hardCap), hardCap)
    ensures hardCap >= 2 ==> forall c :: c in ProseChunks(text, hardCap) ==> CountTokens(c) <= hardCap
  {
    var paras := SplitParagraphs(NormalizeNewlines(text));
    PackParagraphsNonEmpty(paras, [], 0, hardCap);
    PackParagraphsBudget(paras, [], 0, hardCap);
    forall c | c in ProseChunks(text, hardCap) && hardCap >= 2
      ensures CountTokens(c) <= hardCap
    {
      WithinBudgetBound(c, hardCap);
    }
  }

  // ---------------------------------------------------------------------------
  // Implementation: the state of the enclosing function, updated in place
  // ---------------------------------------------------------------------------

  class Splitter {
    const hardCap: int
    var chunks: seq<string>
    var current: seq<string>
    var currentTokens: int

    /** The pending bin's tally is exact and never exceeds the budget. */
    ghost predicate Valid()
      reads this
    {
      hardCap >= 1 && currentTokens == SumTokens(current) && currentTokens <= hardCap
    }

    constructor (hardCap: int)
      requires hardCap >= 1
      ensures Valid() && this.hardCap == hardCap
      ensures chunks == [] && current == [] && currentTokens == 0
    {
      this.hardCap := hardCap;
      chunks := [];
      current := [];
      currentTokens := 0;
    }

    /** `flush_current`: emit the pending paragraphs, if any, and empty the bin. */
    method FlushCurrent()
      requires Valid()
      modifies this
      ensures Valid()
      ensures chunks == old(chunks) + Flushed(old(current), "\n\n")
      ensures current == [] && currentTokens == 0
    {
      if current == [] {
        return;
      }
      var chunkText := Strip(Join(current, "\n\n"));
      chunks := chunks + [chunkText];
      current := [];
      currentTokens := 0;
    }

    /** The word-count hard wrap of an oversized sentence. */
    method HardWrapSentence(sent: string)
      requires Valid()
      modifies this
      ensures Valid() && current == old(current) && currentTokens == old(currentTokens)
      ensures chunks == old(chunks) + HardWrap(sent, hardCap)
    {
      var big := sent;
      while CountTokens(big) > hardCap
        invariant Valid() && current == old(current) && currentTokens == old(currentTokens)
        invariant chunks + HardWrap(big, hardCap) == old(chunks) + HardWrap(sent, hardCap)
        decreases |Words(big)|
      {
        var sliceText := TrimToTokens(big, hardCap);
        AppendAssoc(chunks, [Strip(sliceText)], HardWrap(WrapRemainder(big, hardCap), hardCap));
        chunks := chunks + [Strip(sliceText)];
        var usedWords := |Words(sliceText)|;
        var bigWords := Words(big);
        big := Join(bigWords[usedWords..], " ");
      }
      if Strip(big) != [] {
        chunks := chunks + [Strip(big)];
      }
    }

    /** One iteration of the sentence loop, on the buffer held in the caller. */
    method AddSentence(sent: string, buf: seq<string>, bufTokens: int) returns (buf': seq<string>, bufTokens': int)
      requires Valid() && (buf == [] ==> bufTokens == 0)
      modifies this
      ensures Valid() && current == old(current) && currentTokens == old(currentTokens)
      ensures var step := SentenceStep(sent, buf, bufTokens, hardCap);
        chunks == old(chunks) + step.emitted && buf' == step.pending && bufTokens' == step.tally
    {
      var stoks := CountTokens(sent);
      AppendEmpty(chunks);
      if stoks <= hardCap {
        if bufTokens + (if buf != [] then CountTokens(" ") else 0) + stoks <= hardCap {
          if buf != [] {
            buf' := buf + [sent];
            bufTokens' := bufTokens + CountTokens(" ") + stoks;
          } else {
            buf' := [sent];
            bufTokens' := stoks;
          }
        } else {
          if buf != [] {
            chunks := chunks + [Strip(Join(buf, " "))];
          }
          buf' := [sent];
          bufTokens' := stoks;
        }
      } else {
        AppendAssoc(chunks, Flushed(buf, " "), HardWrap(sent, hardCap));
        buf', bufTokens' := buf, bufTokens;
        if buf != [] {
          chunks := chunks + [Strip(Join(buf, " "))];
          buf', bufTokens' := [], 0;
        }
        HardWrapSentence(sent);
      }
    }

    /** The sentence loop: pack `sentences` through a local buffer, then flush the buffer. */
    method AddSentences(sentences: seq<string>)
      requires Valid()
      modifies this
      ensures Valid() && current == old(current) && currentTokens == old(currentTokens)
      ensures chunks == old(chunks) + PackSentences(sentences, [], 0, hardCap)
    {
      var buf: seq<string> := [];
      var bufTokens := 0;
      for i := 0 to |sentences|
        invariant Valid() && current == old(current) && currentTokens == old(currentTokens)
        invariant buf == [] ==> bufTokens == 0
        invariant chunks + PackSentences(sentences[i..], buf, bufTokens, hardCap) == old(chunks) + PackSentences(sentences, [], 0, hardCap)
      {
        PackSentencesAt(sentences, i, buf, bufTokens, hardCap);
        ghost var step := SentenceStep(sentences[i], buf, bufTokens, hardCap);
        AppendAssoc(chunks, step.emitted, PackSentences(sentences[i + 1..], step.pending, step.tally, hardCap));
        buf, bufTokens := AddSentence(sentences[i], buf, bufTokens);
      }
      AppendEmpty(chunks);
      if buf != [] {
        chunks := chunks + [Strip(Join(buf, " "))];
      }
    }

    /** An oversized paragraph: flush the bin, pack the paragraph sentence by sentence, reset the bin. */
    method AddOversizedParagraph(para: string)
      requires Valid()
      modifies this
      ensures Valid() && current == [] && currentTokens == 0
      ensures chunks == old(chunks) + Flushed(old(current), "\n\n") + OversizedParagraph(para, hardCap)
    {
      ghost var flushed := old(chunks) + Flushed(current, "\n\n");
      FlushCurrent();
      assert chunks == flushed;
      var sentences := SplitSentences(Strip(para));
      AddSentences(sentences);
      assert chunks == flushed + OversizedParagraph(para, hardCap);
      current, currentTokens := [], 0;
    }

    /** The paragraph loop's branches for a paragraph within the budget. */
    method AddFittingParagraph(para: string)
      requires Valid() && CountTokens(para) <= hardCap
      modifies this
      ensures Valid()
      ensures var step := ParagraphStep(para, old(current), old(currentTokens), hardCap);
        chunks == old(chunks) + step.emitted && current == step.pending && currentTokens == step.tally
    {
      var ptoks := CountTokens(para);
      ParagraphStepBudget(para, current, currentTokens, hardCap);
      if currentTokens + (if current != [] then CountTokens("\n\n") else 0) + ptoks <= hardCap {
        AppendEmpty(chunks);
        if current != [] {
          current := current + [para];
          currentTokens := currentTokens + CountTokens("\n\n") + ptoks;
        } else {
          current := [para];
          currentTokens := ptoks;
        }
      } else {
        FlushCurrent();
        current := [para];
        currentTokens := ptoks;
      }
    }

    /** One iteration of the paragraph loop. */
    method AddParagraph(para: string)
      requires Valid()
      modifies this
      ensures Valid()
      ensures var step := ParagraphStep(para, old(current), old(currentTokens), hardCap);
        chunks == old(chunks) + step.emitted && current == step.pending && currentTokens == step.tally
    {
      if CountTokens(para) <= hardCap {
        AddFittingParagraph(para);
      } else {
        AppendAssoc(chunks, Flushed(current, "\n\n"), OversizedParagraph(para, hardCap));
        AddOversizedParagraph(para);
      }
    }
  }

  /** Normalise line endings, split into paragraphs and pack them with a fresh splitter. */
  method SplitProse(text: string, hardCap: int) returns (chunks: seq<string>)
    requires hardCap >= 1
    ensures chunks == ProseChunks(text, hardCap)
  {
    var normalized := NormalizeNewlines(text);
    var paragraphs := SplitParagraphs(normalized);
    var splitter := new Splitter(hardCap);
    for i := 0 to |paragraphs|
      invariant splitter.Valid() && splitter.hardCap == hardCap
      invariant splitter.chunks + PackParagraphs(paragraphs[i..], splitter.current, splitter.currentTokens, hardCap)
        == ProseChunks(text, hardCap)
    {
      PackParagraphsAt(paragraphs, i, splitter.current, splitter.currentTokens, hardCap);
      ghost var step := ParagraphStep(paragraphs[i], splitter.current, splitter.currentTokens, hardCap);
      AppendAssoc(splitter.chunks, step.emitted, PackParagraphs(paragraphs[i + 1..], step.pending, step.tally, hardCap));
      splitter.AddParagraph(paragraphs[i]);
    }
    splitter.FlushCurrent();
    chunks := splitter.chunks;
  }
}
