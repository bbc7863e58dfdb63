/**
 * The whitespace-based string operations the prose chunker relies on:
 * Python's `str.split()` with no argument, `sep.join(xs)` and `str.strip()`,
 * all over Python's notion of whitespace (`str.isspace()`).
 */
module Text {

  /** `c.isspace()`: ASCII whitespace, the separator controls and the Unicode spaces. */
  predicate IsSpace(c: char) {
    c == ' ' || ('\t' <= c <= '\r') || ('\U{1C}' <= c <= '\U{1F}')
    || c == '\U{85}' || c == '\U{A0}' || c == '\U{1680}'
    || ('\U{2000}' <= c <= '\U{200A}') || c == '\U{2028}' || c == '\U{2029}'
    || c == '\U{202F}' || c == '\U{205F}' || c == '\U{3000}'
  }

  predicate AllSpace(s: string) {
    forall i :: 0 <= i < |s| ==> IsSpace(s[i])
  }

  /** What `split()` yields: a non-empty run of non-whitespace characters. */
  predicate IsWord(w: string) {
    w != [] && forall i :: 0 <= i < |w| ==> !IsSpace(w[i])
  }

  function Min(a: int, b: int): int {
    if a <= b then a else b
  }

  /** Length of the leading run of non-whitespace characters of s. */
  function WordLength(s: string): (n: nat)
    ensures n <= |s|
    ensures forall i :: 0 <= i < n ==> !IsSpace(s[i])
    ensures n < |s| ==> IsSpace(s[n])
  {
    if s == [] || IsSpace(s[0]) then 0 else 1 + WordLength(s[1..])
  }

  /** `s.split()`: the maximal runs of non-whitespace characters of s, in order. */
  function Words(s: string): (ws: seq<string>)
    ensures forall i :: 0 <= i < |ws| ==> IsWord(ws[i])
    decreases |s|
  {
    if s == [] then []
    else if IsSpace(s[0]) then Words(s[1..])
    else
      var n := WordLength(s);
      [s[..n]] + Words(s[n..])
  }

  /** `sep.join(xs)`. */
  function Join(xs: seq<string>, sep: string): string {
    if xs == [] then ""
    else if |xs| == 1 then xs[0]
    else xs[0] + sep + Join(xs[1..], sep)
  }

  /** The words of the elements of xs, one element after the other. */
  function WordsOfAll(xs: seq<string>): seq<string> {
    if xs == [] then [] else Words(xs[0]) + WordsOfAll(xs[1..])
  }

  /** `s.lstrip()`: s without its leading whitespace. */
  function LStrip(s: string): (r: string)
    ensures |r| <= |s| && r == s[|s| - |r|..]
    ensures r == [] || !IsSpace(r[0])
  {
    if s != [] && IsSpace(s[0]) then LStrip(s[1..]) else s
  }

  /** `s.rstrip()`: s without its trailing whitespace. */
  function RStrip(s: string): (r: string)
    ensures |r| <= |s| && r == s[..|r|]
    ensures r == [] || !IsSpace(r[|r| - 1])
  {
    if s != [] && IsSpace(s[|s| - 1]) then RStrip(s[..|s| - 1]) else s
  }

  /** `s.strip()`: s without its leading and its trailing whitespace. */
  function Strip(s: string): (r: string)
    ensures |r| <= |s|
    ensures r == [] || (!IsSpace(r[0]) && !IsSpace(r[|r| - 1]))
  {
    var l := LStrip(s);
    var r := RStrip(l);
    assert r != [] ==> r[0] == l[0];
    r
  }

  /** What `lstrip()` removes is whitespace only. */
  lemma {:induction false} LStripRemovesSpace(s: string)
    ensures AllSpace(s[..|s| - |LStrip(s)|])
    decreases |s|
  {
    if s != [] && IsSpace(s[0]) {
      var t := s[1..];
      var n := |s| - |LStrip(s)|;
      LStripRemovesSpace(t);
      assert LStrip(s) == LStrip(t);
      forall k | 0 < k < n
        ensures IsSpace(s[..n][k])
      {
        assert s[..n][k] == t[..n - 1][k - 1];
      }
    }
  }

  /** What `rstrip()` removes is whitespace only. */
  lemma {:induction false} RStripRemovesSpace(s: string)
    ensures AllSpace(s[|RStrip(s)|..])
    decreases |s|
  {
    if s != [] && IsSpace(s[|s| - 1]) {
      var r := RStrip(s[..|s| - 1]);
      RStripRemovesSpace(s[..|s| - 1]);
      assert s[|r|..] == s[..|s| - 1][|r|..] + [s[|s| - 1]];
    }
  }

  /** `strip()` keeps a slice of s and removes whitespace only, on either side. */
  lemma StripSlice(s: string)
    ensures exists i, j :: 0 <= i <= j <= |s| && Strip(s) == s[i..j] && AllSpace(s[..i]) && AllSpace(s[j..])
  {
    var l := LStrip(s);
    var r := RStrip(l);
    LStripRemovesSpace(s);
    RStripRemovesSpace(l);
    var i := |s| - |l|;
    var j := i + |r|;
    assert r == s[i..j] && s[j..] == l[|r|..];
  }

  // ---------------------------------------------------------------------------
  // Sequence facts, kept in small lemmas so that callers' proofs stay small
  // ---------------------------------------------------------------------------

  lemma SplitAt<T>(s: seq<T>, k: nat)
    requires k <= |s|
    ensures s[..k] + s[k..] == s
  {
  }

  lemma HeadTail<T>(s: seq<T>)
    requires s != []
    ensures s == [s[0]] + s[1..]
  {
  }

  lemma AppendEmpty<T>(s: seq<T>)
    ensures s + [] == s && [] + s == s
  {
  }

  lemma AppendAssoc<T>(a: seq<T>, b: seq<T>, c: seq<T>)
    ensures (a + b) + c == a + (b + c)
  {
  }

  lemma SliceTail<T>(s: seq<T>, i: nat)
    requires i < |s|
    ensures s[i..][0] == s[i] && s[i..][1..] == s[i + 1..]
  {
  }

  lemma AppendDrop<T>(a: seq<T>, b: seq<T>, n: nat)
    requires n <= |a|
    ensures (a + b)[n..] == a[n..] + b && (a + b)[..n] == a[..n]
  {
  }

  lemma AppendSplit<T>(a: seq<T>, b: seq<T>)
    ensures (a + b)[..|a|] == a && (a + b)[|a|..] == b
  {
  }

  lemma SliceOfSlice<T>(s: seq<T>, j: nat, e: nat)
    requires j <= e <= |s|
    ensures s[j..][..e - j] == s[j..e] && s[j..][e - j..] == s[e..]
  {
  }

  lemma ConsIndex<T>(x: T, xs: seq<T>)
    ensures forall i :: 1 <= i < |xs| + 1 ==> ([x] + xs)[i] == xs[i - 1]
  {
  }

  // ---------------------------------------------------------------------------
  // Properties of split(), join() and strip()
  // ---------------------------------------------------------------------------

  lemma {:induction false} WordLengthAppend(a: string, b: string)
    requires b == [] || IsSpace(b[0])
    ensures WordLength(a + b) == WordLength(a)
  {
    if a == [] {
      AppendEmpty(b);
    } else if IsSpace(a[0]) {
      AppendDrop(a, b, 1);
    } else {
      AppendDrop(a, b, 1);
      WordLengthAppend(a[1..], b);
    }
  }

  /** Concatenating at a whitespace boundary concatenates the word lists. */
  lemma {:induction false} WordsAppend(a: string, b: string)
    requires b == [] || IsSpace(b[0])
    ensures Words(a + b) == Words(a) + Words(b)
    decreases |a|
  {
    if a == [] {
      AppendEmpty(b);
    } else if IsSpace(a[0]) {
      AppendDrop(a, b, 1);
      WordsAppend(a[1..], b);
    } else {
      var n := WordLength(a);
      WordLengthAppend(a, b);
      AppendDrop(a, b, n);
      WordsAppend(a[n..], b);
      assert Words(a + b) == [a[..n]] + Words(a[n..] + b);
      AppendAssoc([a[..n]], Words(a[n..]), Words(b));
    }
  }

  /** Leading whitespace does not change the words. */
  lemma {:induction false} WordsSkipSpaces(s: string, k: nat)
    requires k <= |s| && AllSpace(s[..k])
    ensures Words(s) == Words(s[k..])
    decreases k
  {
    if k > 0 {
      assert IsSpace(s[..k][0]);
      SliceOfSlice(s, 1, k);
      WordsSkipSpaces(s[1..], k - 1);
    }
  }

  /** A whitespace run at the front of a suffix does not change its words. */
  lemma WordsSkipGap(s: string, j: nat, e: nat)
    requires j < e <= |s| && AllSpace(s[j..e])
    ensures IsSpace(s[j..][0])
    ensures Words(s[j..]) == Words(s[e..])
  {
    var gap := s[j..];
    SliceOfSlice(s, j, e);
    assert gap[0] == s[j..e][0];
    WordsSkipSpaces(gap, e - j);
  }

  /** Cutting out a non-empty whitespace gap splits the words at the gap. */
  lemma WordsAcrossGap(s: string, j: nat, e: nat)
    requires j < e <= |s| && AllSpace(s[j..e])
    ensures Words(s) == Words(s[..j]) + Words(s[e..])
  {
    SplitAt(s, j);
    WordsSkipGap(s, j, e);
    WordsAppend(s[..j], s[j..]);
  }

  lemma AllSpaceNoWords(s: string)
    requires AllSpace(s)
    ensures Words(s) == []
  {
    WordsSkipSpaces(s, |s|);
  }

  /** A word splits to itself. */
  lemma WordsOfWord(w: string)
    requires IsWord(w)
    ensures Words(w) == [w]
  {
    var n := WordLength(w);
    assert n == |w|;
    assert w[..n] == w && w[n..] == [];
  }

  lemma WordsOfAllCons(x: string, xs: seq<string>)
    ensures WordsOfAll([x] + xs) == Words(x) + WordsOfAll(xs)
  {
    assert ([x] + xs)[1..] == xs;
  }

  lemma WordsOfAllSingleton(x: string)
    ensures WordsOfAll([x]) == Words(x)
  {
    assert [x][1..] == [];
  }

  lemma WordsOfAllSnoc(xs: seq<string>, x: string)
    ensures WordsOfAll(xs + [x]) == WordsOfAll(xs) + Words(x)
  {
    WordsOfAllAppend(xs, [x]);
    WordsOfAllSingleton(x);
  }

  lemma {:induction false} WordsOfAllAppend(a: seq<string>, b: seq<string>)
    ensures WordsOfAll(a + b) == WordsOfAll(a) + WordsOfAll(b)
  {
    if a != [] {
      AppendDrop(a, b, 1);
      WordsOfAllAppend(a[1..], b);
    } else {
      AppendEmpty(b);
    }
  }

  lemma {:induction false} WordsOfAllWords(ws: seq<string>)
    requires forall i :: 0 <= i < |ws| ==> IsWord(ws[i])
    ensures WordsOfAll(ws) == ws
  {
    if ws != [] {
      WordsOfWord(ws[0]);
      WordsOfAllWords(ws[1..]);
    }
  }

  /** Joining with a whitespace separator and splitting again gives back all the words. */
  lemma {:induction false} WordsOfJoin(xs: seq<string>, sep: string)
    requires sep != [] && AllSpace(sep)
    ensures Words(Join(xs, sep)) == WordsOfAll(xs)
  {
    if |xs| == 1 {
      assert WordsOfAll(xs) == Words(xs[0]) + WordsOfAll([]);
    } else if |xs| > 1 {
      var rest := Join(xs[1..], sep);
      AppendAssoc(xs[0], sep, rest);
      WordsAppend(xs[0], sep + rest);
      AppendSplit(sep, rest);
      WordsSkipSpaces(sep + rest, |sep|);
      WordsOfJoin(xs[1..], sep);
    }
  }

  /** `" ".join(words).split() == words`. */
  lemma WordsOfJoinedWords(ws: seq<string>)
    requires forall i :: 0 <= i < |ws| ==> IsWord(ws[i])
    ensures Words(Join(ws, " ")) == ws
  {
    WordsOfJoin(ws, " ");
    WordsOfAllWords(ws);
  }

  lemma {:induction false} WordsOfLStrip(s: string)
    ensures Words(LStrip(s)) == Words(s)
  {
    if s != [] && IsSpace(s[0]) {
      WordsOfLStrip(s[1..]);
    }
  }

  lemma {:induction false} WordsOfRStrip(s: string)
    ensures Words(RStrip(s)) == Words(s)
    decreases |s|
  {
    if s != [] && IsSpace(s[|s| - 1]) {
      var init := s[..|s| - 1];
      var last := s[|s| - 1..];
      SplitAt(s, |s| - 1);
      WordsAppend(init, last);
      AllSpaceNoWords(last);
      WordsOfRStrip(init);
    }
  }

  /** Stripping never changes the words. */
  lemma WordsOfStrip(s: string)
    ensures Words(Strip(s)) == Words(s)
  {
    WordsOfLStrip(s);
    WordsOfRStrip(LStrip(s));
  }

  /** Joining with a whitespace separator and stripping keeps all the words. */
  lemma WordsOfStrippedJoin(xs: seq<string>, sep: string)
    requires sep != [] && AllSpace(sep)
    ensures Words(Strip(Join(xs, sep))) == WordsOfAll(xs)
  {
    WordsOfStrip(Join(xs, sep));
    WordsOfJoin(xs, sep);
  }

  /** `s.strip()` is empty exactly when s has no words. */
  lemma StripEmpty(s: string)
    ensures Strip(s) == [] <==> Words(s) == []
  {
    WordsOfStrip(s);
  }
}
