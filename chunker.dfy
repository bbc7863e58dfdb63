/**
 * `chunk_for_lm_studio` end to end in its approximate (word-count) mode: the
 * budget check, the prose splitter, the overlap pass and the metadata pass
 * that numbers the chunks and gives each its running token range.
 */
module Chunker {
  import opened Wrappers
  import opened Text
  import opened TokenMeter
  import ProseSplitter
  import Overlap

  /** One element of the returned list (`index`, `total`, `content`, `sha256`, `start_token`, `end_token`). */
  datatype ChunkRecord = ChunkRecord(
    index: nat, total: nat, content: string, sha256: string, startToken: int, endToken: int)

  /** The ValueError raised when the reserve leaves no budget ("max_tokens must be greater than reserve_tokens"). */
  datatype ConfigError = ReserveExceedsMax

  /** `max_tokens - max(0, reserve_tokens)`: the token budget of every chunk. */
  function HardCap(maxTokens: int, reserveTokens: int): int {
    maxTokens - (if reserveTokens > 0 then reserveTokens else 0)
  }

  /** The chunk contents the function returns, before the metadata is attached. */
  function FinalChunks(text: string, hardCap: int, overlapTokens: int): seq<string>
    requires hardCap >= 1
  {
    Overlap.Overlapped(ProseSplitter.ProseChunks(text, hardCap), overlapTokens, hardCap)
  }

  /**
   * `records` is the metadata pass over `chunks`: record i holds chunk i, its
   * position, the number of chunks, its hash, and the token range that starts
   * after the tokens of all earlier chunks and spans the chunk's own count.
   */
  predicate Describes(records: seq<ChunkRecord>, chunks: seq<string>, hash: string -> string) {
    && |records| == |chunks|
    && forall i :: 0 <= i < |records| ==> records[i] == ChunkRecord(
         i, |chunks|, chunks[i], hash(chunks[i]),
         SumTokens(chunks[..i]), SumTokens(chunks[..i]) + CountTokens(chunks[i]) - 1)
  }

  /** The contents of the records, in order. */
  function Contents(records: seq<ChunkRecord>): (cs: seq<string>)
    ensures |cs| == |records| && forall i :: 0 <= i < |records| ==> cs[i] == records[i].content
  {
    seq(|records|, i requires 0 <= i < |records| => records[i].content)
  }

  // ---------------------------------------------------------------------------
  // Properties of the metadata
  // ---------------------------------------------------------------------------

  lemma SumTokensPrefix(chunks: seq<string>, i: nat)
    requires i < |chunks|
    ensures SumTokens(chunks[..i + 1]) == SumTokens(chunks[..i]) + CountTokens(chunks[i])
  {
    assert chunks[..i + 1] == chunks[..i] + [chunks[i]];
    SumTokensSnoc(chunks[..i], chunks[i]);
  }

  lemma SumTokensPrefixMonotone(chunks: seq<string>, i: nat, j: nat)
    requires i <= j <= |chunks|
    ensures SumTokens(chunks[..i]) <= SumTokens(chunks[..j])
  {
    assert chunks[..j] == chunks[..i] + chunks[i..j];
    SumTokensAppend(chunks[..i], chunks[i..j]);
  }

  /**
   * The token ranges tile the chunks: the first starts at 0, each next one
   * starts right after the end of the one before, the starts never decrease,
   * and the last one ends one before the total token count.
   */
  lemma RecordsContiguous(records: seq<ChunkRecord>, chunks: seq<string>, hash: string -> string)
    requires Describes(records, chunks, hash)
    ensures records != [] ==> records[0].startToken == 0
    ensures forall i :: 0 <= i < |records| - 1 ==> records[i + 1].startToken == records[i].endToken + 1
    ensures forall i, j :: 0 <= i <= j < |records| ==> records[i].startToken <= records[j].startToken
    ensures records != [] ==> records[|records| - 1].endToken == SumTokens(chunks) - 1
  {
    forall i | 0 <= i < |records| - 1
      ensures records[i + 1].startToken == records[i].endToken + 1
    {
      SumTokensPrefix(chunks, i);
    }
    forall i, j | 0 <= i <= j < |records|
      ensures records[i].startToken <= records[j].startToken
    {
      SumTokensPrefixMonotone(chunks, i, j);
    }
    if records != [] {
      assert chunks[..0] == [];
      var n := |records| - 1;
      SumTokensPrefix(chunks, n);
      assert chunks[..n + 1] == chunks;
    }
  }

  /** The records carry exactly the chunks, in order, each tagged with its position and the total. */
  lemma RecordsContents(records: seq<ChunkRecord>, chunks: seq<string>, hash: string -> string)
    requires Describes(records, chunks, hash)
    ensures Contents(records) == chunks
    ensures forall i :: 0 <= i < |records| ==> records[i].index == i && records[i].total == |records|
  {
  }

  /** The metadata loop: `running_tok` accumulates the counts of the chunks packaged so far. */
  method PackageRecords(chunks: seq<string>, hash: string -> string) returns (result: seq<ChunkRecord>)
    ensures Describes(result, chunks, hash)
  {
    result := [];
    var runningTok: int := 0;
    var total := |chunks|;
    for idx := 0 to |chunks|
      invariant |result| == idx && runningTok == SumTokens(chunks[..idx])
      invariant forall i :: 0 <= i < idx ==> result[i] == ChunkRecord(
        i, |chunks|, chunks[i], hash(chunks[i]),
        SumTokens(chunks[..i]), SumTokens(chunks[..i]) + CountTokens(chunks[i]) - 1)
    {
      var c := chunks[idx];
      var ctoks := CountTokens(c);
      var sha := hash(c);
      result := result + [ChunkRecord(idx, total, c, sha, runningTok, runningTok + ctoks - 1)];
      SumTokensPrefix(chunks, idx);
      runningTok := runningTok + ctoks;
    }
  }

  // ---------------------------------------------------------------------------
  // Properties of the chunk contents
  // ---------------------------------------------------------------------------

  /**
   * There is always at least one chunk, every chunk is within the budget, and
   * with a budget of 2 or more every chunk counts at most the budget.
   */
  lemma FinalChunksBudget(text: string, hardCap: int, overlapTokens: int)
    requires hardCap >= 1
    ensures var chunks := FinalChunks(text, hardCap, overlapTokens);
      && |chunks| >= 1
      && AllWithinBudget(chunks, hardCap)
      && (hardCap >= 2 ==> forall c :: c in chunks ==> CountTokens(c) <= hardCap)
  {
    var chunks := FinalChunks(text, hardCap, overlapTokens);
    ProseSplitter.ProseChunksBudget(text, hardCap);
    Overlap.OverlappedBudget(ProseSplitter.ProseChunks(text, hardCap), overlapTokens, hardCap);
    forall c | c in chunks && hardCap >= 2
      ensures CountTokens(c) <= hardCap
    {
      WithinBudgetBound(c, hardCap);
    }
  }

  /**
   * Without overlap (a non-positive overlap, or fewer than two chunks) the
   * chunks' words, one chunk after the other, are exactly the words of the text.
   */
  lemma FinalChunksWords(text: string, hardCap: int, overlapTokens: int)
    requires hardCap >= 1
    requires overlapTokens <= 0 || |ProseSplitter.ProseChunks(text, hardCap)| < 2
    ensures WordsOfAll(FinalChunks(text, hardCap, overlapTokens)) == Words(text)
  {
    ProseSplitter.ProseChunksWords(text, hardCap);
  }

  // ---------------------------------------------------------------------------
  // The whole function
  // ---------------------------------------------------------------------------

  /**
   * `chunk_for_lm_studio(text, max_tokens, overlap_tokens, reserve_tokens)`,
   * with the SHA-256 hex digest passed in as `hash`. It fails exactly when the
   * budget is not positive; otherwise it returns the metadata records of the
   * final chunks.
   */
  method ChunkForLmStudio(text: string, maxTokens: int, overlapTokens: int, reserveTokens: int, hash: string -> string)
    returns (r: Result<seq<ChunkRecord>, ConfigError>)
    ensures r.Failure? <==> HardCap(maxTokens, reserveTokens) <= 0
    ensures r.Failure? ==> r.error == ReserveExceedsMax
    ensures r.Success? ==> Describes(r.value, FinalChunks(text, HardCap(maxTokens, reserveTokens), overlapTokens), hash)
  {
    var hardCap := HardCap(maxTokens, reserveTokens);
    if hardCap <= 0 {
      return Failure(ReserveExceedsMax);
    }
    var chunks := ProseSplitter.SplitProse(text, hardCap);
    chunks := Overlap.ApplyOverlap(chunks, overlapTokens, hardCap);
    var records := PackageRecords(chunks, hash);
    return Success(records);
  }

  /**
   * What a successful call promises about its records: at least one, each
   * within the budget, numbered in order with tiled token ranges, and, without
   * overlap, carrying every word of the text exactly once and in order.
   */
  lemma ChunkRecordsProperties(text: string, hardCap: int, overlapTokens: int,
                               hash: string -> string, records: seq<ChunkRecord>)
    requires hardCap >= 1 && Describes(records, FinalChunks(text, hardCap, overlapTokens), hash)
    ensures |records| >= 1 && records[0].startToken == 0
    ensures forall i :: 0 <= i < |records| ==> WithinBudget(records[i].content, hardCap)
    ensures overlapTokens <= 0 ==> WordsOfAll(Contents(records)) == Words(text)
  {
    var chunks := FinalChunks(text, hardCap, overlapTokens);
    FinalChunksBudget(text, hardCap, overlapTokens);
    RecordsContiguous(records, chunks, hash);
    RecordsContents(records, chunks, hash);
    forall i | 0 <= i < |records|
      ensures WithinBudget(records[i].content, hardCap)
    {
      assert chunks[i] in chunks;
    }
    if overlapTokens <= 0 {
      FinalChunksWords(text, hardCap, overlapTokens);
    }
  }
}
