/**
 * The chunker's token meter in its approximate (word-count) mode:
 * `count_tokens(s) = ceil(words / 0.75)` and `trim_to_tokens(s, target)`
 * keeps the first `max(1, floor(target * 0.75))` words. The factor 0.75 is
 * written exactly: ceil(4w / 3) and floor(3t / 4).
 */
module TokenMeter {
  import opened Text

  /** ceil(w / 0.75): the least t with 3t >= 4w. */
  function TokensForWords(w: nat): (t: nat)
    ensures 4 * w <= 3 * t < 4 * w + 3
  {
    (4 * w + 2) / 3
  }

  /** `count_tokens(s)` (approximate mode). */
  function CountTokens(s: string): (t: nat)
    ensures 4 * |Words(s)| <= 3 * t < 4 * |Words(s)| + 3
    ensures t == 0 <==> Words(s) == []
  {
    TokensForWords(|Words(s)|)
  }

  /** `max(1, floor(target * 0.75))`: how many words a trim to `target` tokens keeps. */
  function AllowedWords(target: int): (k: nat)
    ensures k >= 1
    ensures 3 * target >= 4 ==> 4 * k <= 3 * target < 4 * k + 4
    ensures 3 * target < 4 ==> k == 1
  {
    if (3 * target) / 4 >= 1 then (3 * target) / 4 else 1
  }

  /** `trim_to_tokens(s, target)` (approximate mode): the leading words of s, joined by single spaces. */
  function TrimToTokens(s: string, target: int): (r: string)
    ensures Words(r) == Words(s)[..Min(AllowedWords(target), |Words(s)|)]
    ensures target >= 2 ==> CountTokens(r) <= target
  {
    var words := Words(s);
    var kept := words[..Min(AllowedWords(target), |words|)];
    WordsOfJoinedWords(kept);
    TokensMonotone(|kept|, AllowedWords(target));
    Join(kept, " ")
  }

  /** Sum of the token counts of the elements of xs. */
  function SumTokens(xs: seq<string>): nat {
    if xs == [] then 0 else CountTokens(xs[0]) + SumTokens(xs[1..])
  }

  /**
   * The size bound every emitted chunk meets: within the token budget, or a
   * single atomic word (which costs 2 tokens, more than a budget of 1).
   */
  predicate WithinBudget(c: string, hardCap: int) {
    CountTokens(c) <= hardCap || |Words(c)| == 1
  }

  /** Every chunk of cs is within the budget. */
  predicate AllWithinBudget(cs: seq<string>, hardCap: int) {
    forall c :: c in cs ==> WithinBudget(c, hardCap)
  }

  // ---------------------------------------------------------------------------
  // Properties of the meter
  // ---------------------------------------------------------------------------

  /** More words never count fewer tokens. */
  lemma TokensMonotone(a: nat, b: nat)
    requires a <= b
    ensures TokensForWords(a) <= TokensForWords(b)
  {
  }

  /** Rounding up each part separately never counts fewer tokens than the whole. */
  lemma TokensSubadditive(a: nat, b: nat)
    ensures TokensForWords(a + b) <= TokensForWords(a) + TokensForWords(b)
  {
  }

  /** The separators the packers join with cost nothing. */
  lemma SeparatorsCountZero()
    ensures CountTokens("\n\n") == 0
    ensures CountTokens(" ") == 0
    ensures CountTokens("\n") == 0
  {
    AllSpaceNoWords("\n\n");
    AllSpaceNoWords(" ");
    AllSpaceNoWords("\n");
  }

  /** A trim to at least 2 tokens stays within the target; a trim to 1 keeps one word. */
  lemma TrimWithinBudget(s: string, target: int)
    requires target >= 1 && Words(s) != []
    ensures WithinBudget(TrimToTokens(s, target), target)
  {
  }

  /** Below a budget of 2 tokens only the one-word case is possible. */
  lemma WithinBudgetBound(c: string, hardCap: int)
    requires hardCap >= 2 && WithinBudget(c, hardCap)
    ensures CountTokens(c) <= hardCap
  {
  }

  lemma {:induction false} SumTokensAppend(a: seq<string>, b: seq<string>)
    ensures SumTokens(a + b) == SumTokens(a) + SumTokens(b)
  {
    if a == [] {
      AppendEmpty(b);
    } else {
      AppendDrop(a, b, 1);
      SumTokensAppend(a[1..], b);
    }
  }

  lemma SumTokensSingleton(x: string)
    ensures SumTokens([x]) == CountTokens(x)
  {
    assert [x][1..] == [];
  }

  lemma SumTokensSnoc(xs: seq<string>, x: string)
    ensures SumTokens(xs + [x]) == SumTokens(xs) + CountTokens(x)
  {
    SumTokensAppend(xs, [x]);
    SumTokensSingleton(x);
  }

  lemma {:induction false} TokensOfAllBound(xs: seq<string>)
    ensures TokensForWords(|WordsOfAll(xs)|) <= SumTokens(xs)
  {
    if xs != [] {
      TokensOfAllBound(xs[1..]);
      TokensSubadditive(|Words(xs[0])|, |WordsOfAll(xs[1..])|);
    }
  }

  /**
   * Joining pieces with a whitespace separator and stripping the result costs
   * no more than the pieces' token counts together.
   */
  lemma JoinedTokensBound(xs: seq<string>, sep: string)
    requires sep != [] && AllSpace(sep)
    ensures CountTokens(Strip(Join(xs, sep))) <= SumTokens(xs)
  {
    WordsOfStrip(Join(xs, sep));
    WordsOfJoin(xs, sep);
    TokensOfAllBound(xs);
  }
}
