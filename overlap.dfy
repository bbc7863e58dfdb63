/**
 * The overlap pass of the chunker (approximate mode): every chunk after the
 * first is prefixed with the last few words of the chunk before it, as that
 * chunk came out of this same pass, and trimmed back to the budget when the
 * result no longer fits.
 */
module Overlap {
  import opened Text
  import opened TokenMeter
  import Segmenter

  /** `" ".join(prev.split()[-max(1, floor(overlap * 0.75)):])`. */
  function OverlapTail(prev: string, overlapTokens: int): (tail: string)
    ensures var pw := Words(prev);
      Words(tail) == pw[|pw| - Min(AllowedWords(overlapTokens), |pw|)..]
  {
    var prevWords := Words(prev);
    var k := Min(AllowedWords(overlapTokens), |prevWords|);
    WordsOfJoinedWords(prevWords[|prevWords| - k..]);
    Join(prevWords[|prevWords| - k..], " ")
  }

  /** `(tail + "\n" + c).strip()`: the chunk with the overlap in front. */
  function Candidate(prev: string, c: string, overlapTokens: int): string {
    Strip(OverlapTail(prev, overlapTokens) + "\n" + c)
  }

  /** One iteration of the overlap loop: the new chunk that replaces `c`. */
  function OverlapStep(prev: string, c: string, overlapTokens: int, hardCap: int): string {
    var candidate := Candidate(prev, c, overlapTokens);
    if CountTokens(candidate) > hardCap then TrimToTokens(candidate, hardCap) else candidate
  }

  /** The overlap step for a fixed overlap and budget, as a function value. */
  function StepWith(overlapTokens: int, hardCap: int): (string, string) -> string {
    (prev, c) => OverlapStep(prev, c, overlapTokens, hardCap)
  }

  /**
   * The chunk list after the overlap pass. Chunk i (i > 0) takes its tail from
   * the already overlapped chunk i - 1. Without a positive overlap or with
   * fewer than two chunks the list is left as it is.
   */
  function Overlapped(chunks: seq<string>, overlapTokens: int, hardCap: int): seq<string> {
    if overlapTokens > 0 && |chunks| > 1 then Chain(chunks, StepWith(overlapTokens, hardCap)) else chunks
  }

  /**
   * The shape of the overlap loop for any step: the first element is kept and
   * each later one is `step` of the previous output and the current input.
   */
  function Chain(chunks: seq<string>, step: (string, string) -> string): (out: seq<string>)
    ensures |out| == |chunks|
    decreases |chunks|
  {
    if |chunks| <= 1 then chunks
    else
      var init := Chain(chunks[..|chunks| - 1], step);
      init + [step(init[|init| - 1], chunks[|chunks| - 1])]
  }

  // ---------------------------------------------------------------------------
  // One overlap step
  // ---------------------------------------------------------------------------

  /** The candidate's words are the tail's words followed by the chunk's words. */
  lemma CandidateWords(prev: string, c: string, overlapTokens: int)
    ensures Words(Candidate(prev, c, overlapTokens)) == Words(OverlapTail(prev, overlapTokens)) + Words(c)
  {
    var tail := OverlapTail(prev, overlapTokens);
    AppendAssoc(tail, "\n", c);
    WordsAppend(tail, "\n" + c);
    Segmenter.WordsNewlineFirst(c);
    WordsOfStrip(tail + "\n" + c);
  }

  /**
   * The words of the new chunk: all of tail-words followed by the chunk's words
   * when they fit, otherwise only their leading `max(1, floor(3 * hardCap / 4))`.
   * The trim therefore drops words from the END of the chunk, not from the
   * overlap in front.
   */
  lemma OverlapStepWords(prev: string, c: string, overlapTokens: int, hardCap: int)
    requires hardCap >= 1
    ensures var ws := Words(OverlapTail(prev, overlapTokens)) + Words(c);
      var r := OverlapStep(prev, c, overlapTokens, hardCap);
      && (TokensForWords(|ws|) <= hardCap ==> Words(r) == ws)
      && (TokensForWords(|ws|) > hardCap ==> AllowedWords(hardCap) <= |ws| && Words(r) == ws[..AllowedWords(hardCap)])
  {
    var ws := Words(OverlapTail(prev, overlapTokens)) + Words(c);
    CandidateWords(prev, c, overlapTokens);
    if TokensForWords(|ws|) > hardCap {
      OverBudgetKeepsFewer(|ws|, hardCap);
    }
  }

  /**
   * A word count over the budget is at least what a trim to that budget keeps,
   * and more than that once the budget is 2 or more.
   */
  lemma OverBudgetKeepsFewer(w: nat, hardCap: int)
    requires hardCap >= 1 && TokensForWords(w) > hardCap
    ensures AllowedWords(hardCap) <= w
    ensures hardCap >= 2 ==> AllowedWords(hardCap) < w
  {
    var k := AllowedWords(hardCap);
    var t := TokensForWords(w);
    if hardCap >= 2 {
      assert 4 * k <= 3 * hardCap;
      assert 3 * hardCap + 3 <= 3 * t < 4 * w + 3;
    } else {
      assert t != 0;
    }
  }

  /** The new chunk's words are a prefix of tail-words followed by the chunk's words. */
  lemma OverlapStepPrefix(prev: string, c: string, overlapTokens: int, hardCap: int)
    requires hardCap >= 1
    ensures var ws := Words(OverlapTail(prev, overlapTokens)) + Words(c);
      Words(OverlapStep(prev, c, overlapTokens, hardCap)) <= ws
  {
    OverlapStepWords(prev, c, overlapTokens, hardCap);
  }

  /** The new chunk is within the budget; with a budget of 2 or more its count is at most the budget. */
  lemma OverlapStepBudget(prev: string, c: string, overlapTokens: int, hardCap: int)
    requires hardCap >= 1
    ensures WithinBudget(OverlapStep(prev, c, overlapTokens, hardCap), hardCap)
    ensures hardCap >= 2 ==> CountTokens(OverlapStep(prev, c, overlapTokens, hardCap)) <= hardCap
  {
    var candidate := Candidate(prev, c, overlapTokens);
    if CountTokens(candidate) > hardCap {
      TrimWithinBudget(candidate, hardCap);
    }
  }

  /** Two one-letter words separated by a space. */
  lemma WordsOfPair(x: char, y: char)
    requires !IsSpace(x) && !IsSpace(y)
    ensures Words([x, ' ', y]) == [[x], [y]]
  {
    var s := [x, ' ', y];
    assert WordLength(s) == 1;
    assert s[..1] == [x] && s[1..] == [' ', y];
    assert Words([' ', y]) == Words([y]) by {
      assert [' ', y][1..] == [y];
    }
    WordsOfWord([y]);
  }

  /** Joining two one-letter words with a space. */
  lemma JoinPair(x: char, y: char)
    ensures Join([[x], [y]], " ") == [x, ' ', y]
  {
    var xs: seq<string> := [[x], [y]];
    assert xs[1..] == [[y]];
  }

  /** The words of the example's candidate: one overlap word, then the chunk. */
  lemma ExampleCandidateWords()
    ensures Words(Candidate("a b", "x y", 1)) == ["b", "x", "y"]
  {
    var tw := Words(OverlapTail("a b", 1));
    var cw := Words("x y");
    ExampleTailWords();
    WordsOfPair('x', 'y');
    assert tw + cw == ["b", "x", "y"];
    CandidateWords("a b", "x y", 1);
  }

  /** One overlap token takes one word from the end of "a b". */
  lemma ExampleTailWords()
    ensures Words(OverlapTail("a b", 1)) == ["b"]
  {
    WordsOfPair('a', 'b');
    assert AllowedWords(1) == 1;
  }

  /**
   * A trim that cuts the end: chunks "a b" and "x y" with one overlap token
   * and a budget of 3 give "b x" as the second chunk, so "y" is lost.
   */
  lemma TrimCutsChunkEnd()
    ensures OverlapStep("a b", "x y", 1, 3) == "b x"
  {
    var candidate := Candidate("a b", "x y", 1);
    ExampleCandidateWords();
    assert CountTokens(candidate) == 4;
    ExampleTrim(candidate);
  }

  /** A trim to 3 tokens keeps two words. */
  lemma ExampleTrim(s: string)
    requires Words(s) == ["b", "x", "y"]
    ensures TrimToTokens(s, 3) == "b x"
  {
    assert AllowedWords(3) == 2;
    assert Words(s)[..2] == ["b", "x"];
    JoinPair('b', 'x');
  }

  // ---------------------------------------------------------------------------
  // The whole pass
  // ---------------------------------------------------------------------------

  lemma PrefixOfPrefix<T>(s: seq<T>, i: nat)
    requires i < |s|
    ensures s[..i + 1][..i] == s[..i] && s[..i + 1][i] == s[i] && |s[..i + 1]| == i + 1
  {
  }

  /** The chain keeps its first element. */
  lemma {:induction false} ChainFirst(chunks: seq<string>, step: (string, string) -> string)
    requires chunks != []
    ensures Chain(chunks, step)[0] == chunks[0]
    decreases |chunks|
  {
    if |chunks| > 1 {
      var n := |chunks| - 1;
      ChainFirst(chunks[..n], step);
    }
  }

  /** Element i > 0 of the chain is the step from the chain's element i - 1. */
  lemma {:induction false} ChainAt(chunks: seq<string>, i: nat, step: (string, string) -> string)
    requires 0 < i < |chunks|
    ensures var out := Chain(chunks, step);
      out[i] == step(out[i - 1], chunks[i])
    decreases |chunks|
  {
    var n := |chunks| - 1;
    if i < n {
      var init := chunks[..n];
      ChainAt(init, i, step);
      var prefix := Chain(init, step);
      var out := Chain(chunks, step);
      assert out[i] == prefix[i] && out[i - 1] == prefix[i - 1] && init[i] == chunks[i];
    }
  }

  /** The chain over one more element. */
  lemma ChainSnoc(chunks: seq<string>, i: nat, step: (string, string) -> string)
    requires 0 < i < |chunks|
    ensures var init := Chain(chunks[..i], step);
      Chain(chunks[..i + 1], step) == init + [step(init[|init| - 1], chunks[i])]
  {
    PrefixOfPrefix(chunks, i);
  }

  /**
   * The overlap pass keeps chunk 0, and each chunk i > 0 is the overlap step
   * applied to the pass's own chunk i - 1 and the original chunk i.
   */
  lemma OverlappedShape(chunks: seq<string>, i: nat, overlapTokens: int, hardCap: int)
    requires overlapTokens > 0 && i < |chunks|
    ensures var out := Overlapped(chunks, overlapTokens, hardCap);
      && |out| == |chunks|
      && (i == 0 ==> out[i] == chunks[i])
      && (i > 0 ==> out[i] == OverlapStep(out[i - 1], chunks[i], overlapTokens, hardCap))
  {
    if |chunks| > 1 {
      if i == 0 {
        ChainFirst(chunks, StepWith(overlapTokens, hardCap));
      } else {
        ChainAt(chunks, i, StepWith(overlapTokens, hardCap));
      }
    }
  }

  /** The overlap pass keeps the number of chunks and keeps every chunk within the budget. */
  lemma OverlappedBudget(chunks: seq<string>, overlapTokens: int, hardCap: int)
    requires hardCap >= 1
    ensures var out := Overlapped(chunks, overlapTokens, hardCap);
      && |out| == |chunks|
      && (AllWithinBudget(chunks, hardCap) ==> AllWithinBudget(out, hardCap))
  {
    var out := Overlapped(chunks, overlapTokens, hardCap);
    if overlapTokens > 0 && |chunks| > 1 && AllWithinBudget(chunks, hardCap) {
      forall c | c in out
        ensures WithinBudget(c, hardCap)
      {
        var i :| 0 <= i < |out| && out[i] == c;
        OverlappedShape(chunks, i, overlapTokens, hardCap);
        if i > 0 {
          OverlapStepBudget(out[i - 1], chunks[i], overlapTokens, hardCap);
        } else {
          assert chunks[0] in chunks;
        }
      }
    }
  }

  /** The overlap loop, building the new list `overlapped` chunk by chunk. */
  method ApplyOverlap(chunks: seq<string>, overlapTokens: int, hardCap: int) returns (result: seq<string>)
    ensures result == Overlapped(chunks, overlapTokens, hardCap)
  {
    if !(overlapTokens > 0 && |chunks| > 1) {
      return chunks;
    }
    var overlapped: seq<string> := [];
    for i := 0 to |chunks|
      invariant overlapped == Chain(chunks[..i], StepWith(overlapTokens, hardCap))
    {
      var c := chunks[i];
      if i == 0 {
        assert chunks[..1] == [c];
        overlapped := overlapped + [c];
        continue;
      }
      var prev := overlapped[|overlapped| - 1];
      var candidate := OverlapStep(prev, c, overlapTokens, hardCap);
      ChainSnoc(chunks, i, StepWith(overlapTokens, hardCap));
      overlapped := overlapped + [candidate];
    }
    assert chunks[..|chunks|] == chunks;
    result := overlapped;
  }
}
