/**
 * The text boundaries the prose chunker packs by: line-ending normalisation,
 * paragraphs (`re.split(r"\n{2,}", text)`) and sentences
 * (`re.split(r"(?<=[.!?])\s+(?=[A-Z0-9\"'])", para)`), written as explicit
 * string functions.
 */
module Segmenter {
  import opened Text

  // ---------------------------------------------------------------------------
  // Line endings
  // ---------------------------------------------------------------------------

  /** `s.replace("\r\n", "\n")`: non-overlapping occurrences, left to right. */
  function ReplaceCrLf(s: string): (r: string)
    ensures |r| <= |s|
    ensures (forall i :: 0 <= i < |s| ==> s[i] != '\r') ==> r == s
    decreases |s|
  {
    if |s| >= 2 && s[0] == '\r' && s[1] == '\n' then "\n" + ReplaceCrLf(s[2..])
    else if s == [] then []
    else [s[0]] + ReplaceCrLf(s[1..])
  }

  /** `s.replace("\r", "\n")`. */
  function ReplaceCr(s: string): (r: string)
    ensures |r| == |s|
    ensures forall i :: 0 <= i < |s| ==> r[i] != '\r'
    ensures forall i :: 0 <= i < |s| && s[i] != '\r' ==> r[i] == s[i]
  {
    if s == [] then [] else [if s[0] == '\r' then '\n' else s[0]] + ReplaceCr(s[1..])
  }

  /** Normalised line endings: every "\r\n" and every lone '\r' becomes '\n'. */
  function NormalizeNewlines(s: string): (r: string)
    ensures forall i :: 0 <= i < |r| ==> r[i] != '\r'
  {
    ReplaceCr(ReplaceCrLf(s))
  }

  lemma {:induction false} ReplaceCrLfWord(w: string, u: string)
    requires forall i :: 0 <= i < |w| ==> w[i] != '\r'
    ensures ReplaceCrLf(w + u) == w + ReplaceCrLf(u)
  {
    if w != [] {
      AppendDrop(w, u, 1);
      ReplaceCrLfWord(w[1..], u);
    } else {
      AppendEmpty(u);
    }
  }

  lemma {:induction false} ReplaceCrWord(w: string, u: string)
    requires forall i :: 0 <= i < |w| ==> w[i] != '\r'
    ensures ReplaceCr(w + u) == w + ReplaceCr(u)
  {
    if w != [] {
      AppendDrop(w, u, 1);
      ReplaceCrWord(w[1..], u);
    } else {
      AppendEmpty(u);
    }
  }

  lemma WordsNewlineFirst(x: string)
    ensures Words("\n" + x) == Words(x)
  {
    assert ("\n" + x)[1..] == x;
  }

  /** Replacing "\r\n" by "\n" keeps the words. */
  lemma {:induction false} ReplaceCrLfWords(s: string)
    ensures Words(ReplaceCrLf(s)) == Words(s)
    ensures ReplaceCrLf(s) == [] <==> s == []
    ensures s != [] ==> (IsSpace(ReplaceCrLf(s)[0]) <==> IsSpace(s[0]))
    decreases |s|
  {
    if s == [] {
    } else if |s| >= 2 && s[0] == '\r' && s[1] == '\n' {
      ReplaceCrLfWords(s[2..]);
      WordsNewlineFirst(ReplaceCrLf(s[2..]));
      WordsSkipSpaces(s, 2);
    } else if IsSpace(s[0]) {
      ReplaceCrLfWords(s[1..]);
      assert ([s[0]] + ReplaceCrLf(s[1..]))[1..] == ReplaceCrLf(s[1..]);
    } else {
      var n := WordLength(s);
      var w, u := s[..n], s[n..];
      SplitAt(s, n);
      ReplaceCrLfWord(w, u);
      ReplaceCrLfWords(u);
      WordsAppend(w, ReplaceCrLf(u));
      WordsAppend(w, u);
      AppendDrop(w, ReplaceCrLf(u), 1);
    }
  }

  /** Replacing '\r' by '\n' keeps the words. */
  lemma {:induction false} ReplaceCrWords(s: string)
    ensures Words(ReplaceCr(s)) == Words(s)
    decreases |s|
  {
    if s == [] {
    } else if IsSpace(s[0]) {
      ReplaceCrWords(s[1..]);
      assert ReplaceCr(s)[1..] == ReplaceCr(s[1..]);
    } else {
      var n := WordLength(s);
      var w, u := s[..n], s[n..];
      SplitAt(s, n);
      ReplaceCrWord(w, u);
      ReplaceCrWords(u);
      WordsAppend(w, ReplaceCr(u));
      WordsAppend(w, u);
    }
  }

  /** Line-ending normalisation never changes the words of the text. */
  lemma NormalizeNewlinesWords(s: string)
    ensures Words(NormalizeNewlines(s)) == Words(s)
  {
    ReplaceCrLfWords(s);
    ReplaceCrWords(ReplaceCrLf(s));
  }

  lemma {:induction false} ReplaceCrLfIdentity(s: string)
    requires forall i :: 0 <= i < |s| ==> s[i] != '\r'
    ensures ReplaceCrLf(s) == s
  {
    if s != [] {
      ReplaceCrLfIdentity(s[1..]);
    }
  }

  /** Text without carriage returns is left as it is. */
  lemma NormalizeNewlinesIdentity(s: string)
    requires forall i :: 0 <= i < |s| ==> s[i] != '\r'
    ensures NormalizeNewlines(s) == s
  {
    ReplaceCrLfIdentity(s);
  }

  /** A "\r\n" pair becomes one '\n'. */
  lemma NormalizeCrLf(t: string)
    ensures NormalizeNewlines("\r\n" + t) == "\n" + NormalizeNewlines(t)
  {
    assert ("\r\n" + t)[2..] == t;
  }

  /** A '\r' not followed by '\n' becomes one '\n'. */
  lemma NormalizeLoneCr(t: string)
    requires t == [] || t[0] != '\n'
    ensures NormalizeNewlines("\r" + t) == "\n" + NormalizeNewlines(t)
  {
    assert ("\r" + t)[1..] == t;
    assert ReplaceCrLf("\r" + t) == "\r" + ReplaceCrLf(t);
  }

  /** Any other character is kept. */
  lemma NormalizeOther(c: char, t: string)
    requires c != '\r'
    ensures NormalizeNewlines([c] + t) == [c] + NormalizeNewlines(t)
  {
    assert ([c] + t)[1..] == t;
  }

  // ---------------------------------------------------------------------------
  // Pieces and the separators between them
  // ---------------------------------------------------------------------------

  /** The pieces of a split put back together with the separators that were cut out. */
  function Interleave(pieces: seq<string>, seps: seq<string>): string
    requires |seps| + 1 == |pieces|
    decreases |seps|
  {
    if seps == [] then pieces[0] else pieces[0] + seps[0] + Interleave(pieces[1..], seps[1..])
  }

  lemma InterleaveCons(p: string, sep: string, ps: seq<string>, seps: seq<string>)
    requires |seps| + 1 == |ps|
    ensures Interleave([p] + ps, [sep] + seps) == p + sep + Interleave(ps, seps)
  {
    assert ([p] + ps)[1..] == ps && ([sep] + seps)[1..] == seps;
  }

  // ---------------------------------------------------------------------------
  // Paragraphs: re.split(r"\n{2,}", text)
  // ---------------------------------------------------------------------------

  predicate HasParagraphBreak(p: string) {
    exists k :: 0 <= k < |p| - 1 && p[k] == '\n' && p[k + 1] == '\n'
  }

  /** Index of the first "\n\n" at or after i, or |s| when there is none. */
  function ParagraphBreak(s: string, i: nat): (j: nat)
    requires i <= |s|
    ensures i <= j <= |s|
    ensures j < |s| ==> j + 1 < |s| && s[j] == '\n' && s[j + 1] == '\n'
    ensures forall k :: i <= k < j && k + 1 < |s| ==> !(s[k] == '\n' && s[k + 1] == '\n')
    decreases |s| - i
  {
    if i + 1 >= |s| then |s|
    else if s[i] == '\n' && s[i + 1] == '\n' then i
    else ParagraphBreak(s, i + 1)
  }

  /** End of the run of '\n' characters that starts at i. */
  function NewlineRunEnd(s: string, i: nat): (e: nat)
    requires i <= |s|
    ensures i <= e <= |s|
    ensures forall k :: i <= k < e ==> s[k] == '\n'
    ensures e < |s| ==> s[e] != '\n'
    decreases |s| - i
  {
    if i < |s| && s[i] == '\n' then NewlineRunEnd(s, i + 1) else i
  }

  /**
   * `re.split(r"\n{2,}", s)`: the pieces between the maximal runs of two or
   * more newlines, empty pieces included; no piece holds a paragraph break.
   */
  function SplitParagraphs(s: string): (ps: seq<string>)
    ensures |ps| >= 1
    ensures forall i :: 0 <= i < |ps| ==> !HasParagraphBreak(ps[i])
    decreases |s|
  {
    var j := ParagraphBreak(s, 0);
    if j == |s| then [s]
    else
      var e := NewlineRunEnd(s, j);
      assert e >= j + 2;
      [s[..j]] + SplitParagraphs(s[e..])
  }

  /** A run of two or more newlines, what `\n{2,}` consumes. */
  predicate IsNewlineRun(t: string) {
    |t| >= 2 && forall k :: 0 <= k < |t| ==> t[k] == '\n'
  }

  /** The newline runs `re.split(r"\n{2,}", s)` cuts out, in order. */
  function ParagraphSeparators(s: string): (seps: seq<string>)
    ensures forall i :: 0 <= i < |seps| ==> IsNewlineRun(seps[i])
    decreases |s|
  {
    var j := ParagraphBreak(s, 0);
    if j == |s| then []
    else
      var e := NewlineRunEnd(s, j);
      [s[j..e]] + ParagraphSeparators(s[e..])
  }

  /** The paragraphs, put back together with the newline runs between them, are the text. */
  lemma {:induction false} SplitParagraphsRejoin(s: string)
    ensures |ParagraphSeparators(s)| + 1 == |SplitParagraphs(s)|
    ensures Interleave(SplitParagraphs(s), ParagraphSeparators(s)) == s
    decreases |s|
  {
    var j := ParagraphBreak(s, 0);
    if j < |s| {
      var e := NewlineRunEnd(s, j);
      var ps, seps := SplitParagraphs(s[e..]), ParagraphSeparators(s[e..]);
      SplitParagraphsRejoin(s[e..]);
      assert SplitParagraphs(s) == [s[..j]] + ps && ParagraphSeparators(s) == [s[j..e]] + seps;
      assert ([s[..j]] + ps)[1..] == ps && ([s[j..e]] + seps)[1..] == seps;
      assert s == s[..j] + s[j..e] + s[e..];
    }
  }

  predicate EndsWithoutNewline(p: string) {
    p == [] || p[|p| - 1] != '\n'
  }

  predicate StartsWithoutNewline(p: string) {
    p == [] || p[0] != '\n'
  }

  /**
   * No piece but the last ends with '\n', no piece but the first starts with
   * one, and no piece between two cuts is empty: every cut took a whole run of
   * newlines, and two runs are never split apart around an empty piece.
   */
  predicate CutsOnWholeRuns(ps: seq<string>) {
    && (forall i :: 0 <= i < |ps| - 1 ==> EndsWithoutNewline(ps[i]))
    && (forall i :: 0 < i < |ps| ==> StartsWithoutNewline(ps[i]))
    && (forall i :: 0 < i < |ps| - 1 ==> ps[i] != [])
  }

  /** The cuts of `SplitParagraphs` fall on whole newline runs. */
  lemma {:induction false} SplitParagraphsEdges(s: string)
    ensures CutsOnWholeRuns(SplitParagraphs(s))
    decreases |s|
  {
    var j := ParagraphBreak(s, 0);
    if j < |s| {
      var e := NewlineRunEnd(s, j);
      var rest := SplitParagraphs(s[e..]);
      SplitParagraphsEdges(s[e..]);
      var ps := [s[..j]] + rest;
      assert SplitParagraphs(s) == ps;
      if j > 0 {
        assert s[j - 1] != '\n';
      }
      assert EndsWithoutNewline(ps[0]);
      assert rest[0] == s[e..] || rest[0] == s[e..][..ParagraphBreak(s[e..], 0)];
      assert StartsWithoutNewline(ps[1]);
      if |rest| >= 2 {
        assert s[e..] != [] && s[e..][0] != '\n';
        assert rest[0] != [];
      }
      forall i | 0 < i < |ps| - 1
        ensures ps[i] != []
      {
        assert ps[i] == rest[i - 1];
      }
      forall i | 1 < i < |ps|
        ensures StartsWithoutNewline(ps[i])
      {
        assert ps[i] == rest[i - 1];
      }
      forall i | 0 < i < |ps| - 1
        ensures EndsWithoutNewline(ps[i])
      {
        assert ps[i] == rest[i - 1];
      }
    } else {
      assert SplitParagraphs(s) == [s];
    }
  }

  /** Paragraph splitting loses, adds and reorders no word. */
  lemma {:induction false} SplitParagraphsWords(s: string)
    ensures WordsOfAll(SplitParagraphs(s)) == Words(s)
    decreases |s|
  {
    var j := ParagraphBreak(s, 0);
    if j == |s| {
      WordsOfAllCons(s, []);
    } else {
      var e := NewlineRunEnd(s, j);
      var tail := s[e..];
      assert SplitParagraphs(s) == [s[..j]] + SplitParagraphs(tail);
      SplitParagraphsWords(tail);
      WordsOfAllCons(s[..j], SplitParagraphs(tail));
      assert AllSpace(s[j..e]);
      WordsAcrossGap(s, j, e);
    }
  }

  // ---------------------------------------------------------------------------
  // Sentences: re.split(r"(?<=[.!?])\s+(?=[A-Z0-9\"'])", para)
  // ---------------------------------------------------------------------------

  predicate IsTerminal(c: char) {
    c == '.' || c == '!' || c == '?'
  }

  /** The lookahead class `[A-Z0-9"']`. */
  predicate IsSentenceStart(c: char) {
    'A' <= c <= 'Z' || '0' <= c <= '9' || c == '"' || c == '\''
  }

  /** End of the run of whitespace that starts at i. */
  function SpaceRunEnd(s: string, i: nat): (e: nat)
    requires i <= |s|
    ensures i <= e <= |s|
    ensures AllSpace(s[i..e])
    ensures e < |s| ==> !IsSpace(s[e])
    decreases |s| - i
  {
    if i < |s| && IsSpace(s[i]) then
      var e := SpaceRunEnd(s, i + 1);
      assert s[i..e] == [s[i]] + s[i + 1..e];
      e
    else i
  }

  /**
   * A match of the sentence pattern starts at j: a terminal mark before j, a
   * whitespace run from j, and a sentence-start character after the run.
   */
  predicate SentenceBreakAt(s: string, j: nat) {
    0 < j < |s| && IsTerminal(s[j - 1]) && IsSpace(s[j]) &&
    var e := SpaceRunEnd(s, j); e < |s| && IsSentenceStart(s[e])
  }

  /** Start of the first match at or after i, or |s| when there is none. */
  function SentenceBreak(s: string, i: nat): (j: nat)
    requires i <= |s|
    ensures i <= j <= |s|
    ensures j < |s| ==> SentenceBreakAt(s, j)
    ensures forall k :: i <= k < j ==> !SentenceBreakAt(s, k)
    decreases |s| - i
  {
    if i == |s| then |s|
    else if SentenceBreakAt(s, i) then i
    else SentenceBreak(s, i + 1)
  }

  /**
   * The sentence split: every piece but the last ends with a terminal mark and
   * every piece but the first begins with a sentence-start character.
   */
  function SplitSentences(s: string): (ss: seq<string>)
    ensures |ss| >= 1
    ensures forall i :: 0 <= i < |ss| - 1 ==> ss[i] != [] && IsTerminal(ss[i][|ss[i]| - 1])
    ensures forall i :: 0 < i < |ss| ==> ss[i] != [] && IsSentenceStart(ss[i][0])
    decreases |s|
  {
    var j := SentenceBreak(s, 0);
    if j == |s| then [s]
    else
      var e := SpaceRunEnd(s, j);
      var rest := SplitSentences(s[e..]);
      assert rest[0] == s[e..] || rest[0] == s[e..][..SentenceBreak(s[e..], 0)];
      [s[..j]] + rest
  }

  /** The whitespace runs the sentence split cuts out, in order. */
  function SentenceSeparators(s: string): (seps: seq<string>)
    ensures forall i :: 0 <= i < |seps| ==> seps[i] != [] && AllSpace(seps[i])
    decreases |s|
  {
    var j := SentenceBreak(s, 0);
    if j == |s| then []
    else
      var e := SpaceRunEnd(s, j);
      [s[j..e]] + SentenceSeparators(s[e..])
  }

  /** One step of the sentence split: the piece before the first match, then the rest. */
  lemma SplitSentencesStep(s: string)
    requires SentenceBreak(s, 0) < |s|
    ensures var j := SentenceBreak(s, 0); var e := SpaceRunEnd(s, j);
      && SplitSentences(s) == [s[..j]] + SplitSentences(s[e..])
      && SentenceSeparators(s) == [s[j..e]] + SentenceSeparators(s[e..])
  {
  }

  /** The sentences, put back together with the whitespace runs between them, are the text. */
  lemma {:induction false} SplitSentencesRejoin(s: string)
    ensures |SentenceSeparators(s)| + 1 == |SplitSentences(s)|
    ensures Interleave(SplitSentences(s), SentenceSeparators(s)) == s
    decreases |s|
  {
    var j := SentenceBreak(s, 0);
    if j < |s| {
      var e := SpaceRunEnd(s, j);
      SplitSentencesStep(s);
      var ss, seps := SplitSentences(s[e..]), SentenceSeparators(s[e..]);
      SplitSentencesRejoin(s[e..]);
      InterleaveCons(s[..j], s[j..e], ss, seps);
      assert s == s[..j] + s[j..e] + s[e..];
    } else {
      assert SplitSentences(s) == [s] && SentenceSeparators(s) == [];
    }
  }

  /** A whitespace run that ends inside a prefix ends at the same place in the whole text. */
  lemma {:induction false} SpaceRunEndPrefix(s: string, j: nat, k: nat)
    requires k <= j <= |s|
    ensures SpaceRunEnd(s[..j], k) < j ==> SpaceRunEnd(s[..j], k) == SpaceRunEnd(s, k)
    decreases j - k
  {
    if k < j && IsSpace(s[k]) {
      SpaceRunEndPrefix(s, j, k + 1);
    }
  }

  /** The pattern matches nowhere in p. */
  predicate NoSentenceBreak(p: string) {
    forall k: nat :: k < |p| ==> !SentenceBreakAt(p, k)
  }

  /** The text before the first match holds no match of its own. */
  lemma FirstSentenceNoBreak(s: string)
    ensures NoSentenceBreak(s[..SentenceBreak(s, 0)])
  {
    var j := SentenceBreak(s, 0);
    var p := s[..j];
    forall k: nat | SentenceBreakAt(p, k)
      ensures false
    {
      SpaceRunEndPrefix(s, j, k);
      assert SentenceBreakAt(s, k);
    }
  }

  /** Every sentence is cut at a match and holds no match inside. */
  lemma {:induction false} SplitSentencesNoBreak(s: string)
    ensures forall i :: 0 <= i < |SplitSentences(s)| ==> NoSentenceBreak(SplitSentences(s)[i])
    decreases |s|
  {
    var j := SentenceBreak(s, 0);
    FirstSentenceNoBreak(s);
    if j == |s| {
      assert s[..j] == s;
    } else {
      var e := SpaceRunEnd(s, j);
      var rest := SplitSentences(s[e..]);
      SplitSentencesNoBreak(s[e..]);
      var ss := [s[..j]] + rest;
      assert SplitSentences(s) == ss;
      forall i | 0 < i < |ss|
        ensures NoSentenceBreak(ss[i])
      {
        assert ss[i] == rest[i - 1];
      }
    }
  }

  /** Sentence splitting loses, adds and reorders no word. */
  lemma {:induction false} SplitSentencesWords(s: string)
    ensures WordsOfAll(SplitSentences(s)) == Words(s)
    decreases |s|
  {
    var j := SentenceBreak(s, 0);
    if j == |s| {
      WordsOfAllCons(s, []);
    } else {
      var e := SpaceRunEnd(s, j);
      var tail := s[e..];
      assert SplitSentences(s) == [s[..j]] + SplitSentences(tail);
      SplitSentencesWords(tail);
      WordsOfAllCons(s[..j], SplitSentences(tail));
      WordsAcrossGap(s, j, e);
    }
  }
}
