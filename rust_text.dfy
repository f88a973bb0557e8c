/**
 * The pieces of Rust's `str` API that the certificate manager's output parsers
 * rely on, as functions over `string` whose contracts say what each returns.
 */
module RustText {
  import opened Outcomes

  /** `char::is_whitespace`: the characters with the Unicode White_Space property. */
  predicate IsWhitespace(c: char) {
    c == ' ' || '\t' <= c <= '\r' || c == '\U{85}' || c == '\U{A0}' || c == '\U{1680}'
    || '\U{2000}' <= c <= '\U{200A}' || c == '\U{2028}' || c == '\U{2029}'
    || c == '\U{202F}' || c == '\U{205F}' || c == '\U{3000}'
  }

  /** `sub` appears in `s` starting at index `i`. */
  ghost predicate OccursAt(s: string, sub: string, i: int) {
    0 <= i <= |s| - |sub| && s[i..i + |sub|] == sub
  }

  /** `sub` appears somewhere in `s`. */
  ghost predicate Occurs(s: string, sub: string) {
    exists i :: OccursAt(s, sub, i)
  }

  /** `str::contains` with a string pattern. */
  function Contains(s: string, sub: string): bool
    decreases |s|
  {
    if sub <= s then true
    else if s == [] then false
    else Contains(s[1..], sub)
  }

  /** Past a mismatch at the front, `sub` occurs in `s` iff it occurs in the rest of `s`. */
  lemma OccursInRest(s: string, sub: string)
    requires s != [] && !(sub <= s)
    ensures Occurs(s, sub) <==> Occurs(s[1..], sub)
  {
    if Occurs(s, sub) {
      var i :| OccursAt(s, sub, i);
      if i == 0 {
        assert false;
      }
      assert s[1..][i - 1..i - 1 + |sub|] == sub;
      assert OccursAt(s[1..], sub, i - 1);
    }
    if Occurs(s[1..], sub) {
      var i :| OccursAt(s[1..], sub, i);
      assert s[i + 1..i + 1 + |sub|] == sub;
      assert OccursAt(s, sub, i + 1);
    }
  }

  /** Contains decides Occurs. */
  lemma {:induction false} ContainsIff(s: string, sub: string)
    ensures Contains(s, sub) <==> Occurs(s, sub)
    decreases |s|
  {
    if sub <= s {
      assert OccursAt(s, sub, 0);
    } else if s != [] {
      ContainsIff(s[1..], sub);
      OccursInRest(s, sub);
    }
  }

  /** The first index at or after `from` that holds a line feed, or |s| when there is none. */
  function NewlineIndex(s: string, from: nat): (i: nat)
    requires from <= |s|
    ensures from <= i <= |s|
    ensures i < |s| ==> s[i] == '\n'
    ensures forall k :: from <= k < i ==> s[k] != '\n'
    decreases |s| - from
  {
    if from == |s| || s[from] == '\n' then from else NewlineIndex(s, from + 1)
  }

  /** Drops one carriage return at the end of a line. */
  function StripCr(line: string): string {
    if line != [] && line[|line| - 1] == '\r' then line[..|line| - 1] else line
  }

  /**
   * `str::lines`: the pieces between line feeds, each without a carriage return
   * that stood just before its line feed; a final line feed adds no empty line.
   */
  function Lines(s: string): (lines: seq<string>)
    ensures |lines| <= |s|
    ensures forall l :: l in lines ==> '\n' !in l
    decreases |s|
  {
    if s == [] then []
    else
      var i := NewlineIndex(s, 0);
      if i == |s| then [s]
      else
        assert forall k :: 0 <= k < |s[..i]| ==> s[..i][k] != '\n';
        [StripCr(s[..i])] + Lines(s[i + 1..])
  }

  /** Text without a line feed is one line, kept whole. */
  lemma LinesOfOneLine(a: string)
    requires a != [] && '\n' !in a
    ensures Lines(a) == [a]
  {
    var i := NewlineIndex(a, 0);
    assert forall k :: 0 <= k < |a| ==> a[k] in a;
  }

  /** The first line is the text before the first line feed, without a carriage return before it. */
  lemma LinesSplitAtFeed(a: string, b: string)
    requires '\n' !in a
    ensures Lines(a + "\n" + b) == [StripCr(a)] + Lines(b)
  {
    var s := a + "\n" + b;
    var i := NewlineIndex(s, 0);
    assert s[|a|] == '\n';
    assert forall k :: 0 <= k < |a| ==> s[k] == a[k] && a[k] in a;
    assert i == |a|;
    assert s[..i] == a && s[i + 1..] == b;
  }

  /** `str::trim_start_matches` with a character predicate. */
  function TrimStartMatches(s: string, p: char -> bool): (r: string)
    ensures |r| <= |s| && r == s[|s| - |r|..]
    ensures forall k :: 0 <= k < |s| - |r| ==> p(s[k])
    ensures r != [] ==> !p(r[0])
    decreases |s|
  {
    if s != [] && p(s[0]) then TrimStartMatches(s[1..], p) else s
  }

  /** `str::trim_end_matches` with a character predicate. */
  function TrimEndMatches(s: string, p: char -> bool): (r: string)
    ensures |r| <= |s| && r == s[..|r|]
    ensures forall k :: |r| <= k < |s| ==> p(s[k])
    ensures r != [] ==> !p(r[|r| - 1])
    decreases |s|
  {
    if s != [] && p(s[|s| - 1]) then TrimEndMatches(s[..|s| - 1], p) else s
  }

  /** `str::trim`: both ends stripped of whitespace. */
  function Trim(s: string): string {
    TrimEndMatches(TrimStartMatches(s, IsWhitespace), IsWhitespace)
  }

  /** Where the piece left by trimming both ends of `s` with `p` starts. */
  function TrimOffset(s: string, p: char -> bool): nat {
    |s| - |TrimStartMatches(s, p)|
  }

  /** `r` is the piece of `s` that starts at `i`, and every character cut away satisfies `p`. */
  ghost predicate Cut(s: string, i: nat, r: string, p: char -> bool) {
    i + |r| <= |s| && r == s[i..i + |r|] &&
    (forall j :: 0 <= j < i ==> p(s[j])) &&
    (forall j :: i + |r| <= j < |s| ==> p(s[j]))
  }

  /** A prefix cut away by `p`, then a suffix cut away by `p`, leave a piece of `s`. */
  lemma CutBothEnds(s: string, t: string, r: string, p: char -> bool)
    requires |t| <= |s| && t == s[|s| - |t|..] && forall k :: 0 <= k < |s| - |t| ==> p(s[k])
    requires |r| <= |t| && r == t[..|r|] && forall k :: |r| <= k < |t| ==> p(t[k])
    ensures Cut(s, |s| - |t|, r, p)
  {
    var i := |s| - |t|;
    assert r == s[i..i + |r|];
    forall j | i + |r| <= j < |s|
      ensures p(s[j])
    {
      assert s[j] == t[j - i];
    }
  }

  /** A piece of a piece is a piece; what is cut away at either step satisfies `both`. */
  lemma CutOfCut(s: string, a: nat, t: string, p: char -> bool, b: nat, k: string, q: char -> bool, both: char -> bool)
    requires Cut(s, a, t, p) && Cut(t, b, k, q)
    requires forall c :: p(c) ==> both(c)
    requires forall c :: q(c) ==> both(c)
    ensures Cut(s, a + b, k, both)
  {
    forall x | 0 <= x < |k|
      ensures k[x] == s[a + b + x]
    {
      assert k[x] == t[b + x];
      assert t[b + x] == s[a + b + x];
    }
    forall j | 0 <= j < a + b
      ensures both(s[j])
    {
      if j >= a {
        assert s[j] == t[j - a];
      }
    }
    forall j | a + b + |k| <= j < |s|
      ensures both(s[j])
    {
      if j < a + |t| {
        assert s[j] == t[j - a];
      }
    }
  }

  /** `str::trim_matches(c)`: every leading and trailing `c` removed. */
  function TrimMatches(s: string, c: char): string {
    TrimEndMatches(TrimStartMatches(s, Is(c)), Is(c))
  }

  /** The test for one particular character. */
  function Is(c: char): char -> bool {
    x => x == c
  }

  /** No whitespace character in `w`. */
  predicate Solid(w: string) {
    forall k :: 0 <= k < |w| ==> !IsWhitespace(w[k])
  }

  /**
   * The words `str::split_whitespace` yields from `s` when the characters of
   * `word` have been read already: maximal runs of non-whitespace characters.
   */
  function WordsFrom(s: string, word: string): (ws: seq<string>)
    requires Solid(word)
    ensures forall w :: w in ws ==> w != [] && Solid(w)
    ensures word != [] || (exists k :: 0 <= k < |s| && !IsWhitespace(s[k])) ==> ws != []
    decreases |s|
  {
    if s == [] then (if word == [] then [] else [word])
    else if IsWhitespace(s[0]) then
      (if word == [] then [] else [word]) + WordsFrom(s[1..], [])
    else
      WordsFrom(s[1..], word + [s[0]])
  }

  /** `str::split_whitespace`. */
  function SplitWhitespace(s: string): seq<string> {
    WordsFrom(s, [])
  }

  /** The last of a non-empty run of words. */
  function Final(ws: seq<string>): string
    requires ws != []
  {
    ws[|ws| - 1]
  }

  /** `s.split_whitespace().last()`. */
  function LastWord(s: string): Option<string> {
    var ws := SplitWhitespace(s);
    if ws == [] then None else Some(Final(ws))
  }

  /** Every character of `s` is whitespace. */
  predicate Blank(s: string) {
    forall k :: 0 <= k < |s| ==> IsWhitespace(s[k])
  }

  /**
   * `w` stands at index `i` of `t` as its last word: it starts `t` or follows
   * whitespace, and only whitespace comes after it.
   */
  predicate LastRunAt(t: string, w: string, i: int) {
    0 <= i && i + |w| <= |t| && t[i..i + |w|] == w &&
    (i == 0 || IsWhitespace(t[i - 1])) &&
    Blank(t[i + |w|..])
  }

  /** Without a non-whitespace character there are no words, and `word` is the only one left. */
  lemma {:induction false} NoWordsInBlank(s: string, word: string)
    requires Solid(word) && Blank(s)
    ensures WordsFrom(s, word) == (if word == [] then [] else [word])
    decreases |s|
  {
    if s != [] {
      assert IsWhitespace(s[0]);
      assert Blank(s[1..]) by {
        forall k | 0 <= k < |s[1..]| ensures IsWhitespace(s[1..][k]) {
          assert s[1..][k] == s[k + 1];
        }
      }
      NoWordsInBlank(s[1..], []);
    }
  }

  /** Text that yields no words is all whitespace. */
  lemma BlankWithoutWords(s: string)
    requires WordsFrom(s, []) == []
    ensures Blank(s)
  {
    forall k | 0 <= k < |s| ensures IsWhitespace(s[k]) {
      if !IsWhitespace(s[k]) {
        assert false;
      }
    }
  }

  /**
   * The last word `WordsFrom(s, word)` yields is the last word of `word + s`:
   * it starts that text or follows whitespace, and only whitespace comes after it.
   */
  lemma {:induction false} LastWordAt(t: string, s: string, word: string)
    requires Solid(word) && t == word + s
    ensures var ws := WordsFrom(s, word);
      ws != [] ==> exists i :: LastRunAt(t, Final(ws), i)
    decreases |s|
  {
    var ws := WordsFrom(s, word);
    if s == [] {
      if word != [] {
        assert t == word && t[0..|word|] == word;
        assert LastRunAt(t, Final(ws), 0);
      }
    } else if IsWhitespace(s[0]) {
      if WordsFrom(s[1..], []) != [] {
        assert [] + s[1..] == s[1..];
        LastWordAt(s[1..], s[1..], []);
        LastWordPastSpace(t, s, word);
      } else if word != [] {
        LastWordBeforeSpace(t, s, word);
      }
    } else {
      var longer := word + [s[0]];
      assert Solid(longer);
      assert ws == WordsFrom(s[1..], longer);
      assert longer + s[1..] == t;
      LastWordAt(t, s[1..], longer);
    }
  }

  /** A last word of a suffix that follows whitespace is a last word of the whole text. */
  lemma LastRunShift(t: string, n: int, u: string, w: string, j: int)
    requires 0 < n <= |t| && IsWhitespace(t[n - 1]) && u == t[n..]
    requires LastRunAt(u, w, j)
    ensures LastRunAt(t, w, n + j)
  {
    assert t[n + j..n + j + |w|] == u[j..j + |w|];
    assert t[n + j + |w|..] == u[j + |w|..];
    assert n + j > 0 && t[n + j - 1] == (if j == 0 then t[n - 1] else u[j - 1]);
  }

  /** After whitespace, the last word of the rest is the last word of the whole. */
  lemma LastWordPastSpace(t: string, s: string, word: string)
    requires Solid(word) && t == word + s && s != [] && IsWhitespace(s[0])
    requires WordsFrom(s[1..], []) != []
    requires exists j :: LastRunAt(s[1..], Final(WordsFrom(s[1..], [])), j)
    ensures exists i :: LastRunAt(t, Final(WordsFrom(s, word)), i)
  {
    var rest := WordsFrom(s[1..], []);
    var ws := WordsFrom(s, word);
    assert ws == (if word == [] then [] else [word]) + rest;
    assert Final(ws) == Final(rest);
    var j :| LastRunAt(s[1..], Final(rest), j);
    assert t[|word| + 1..] == s[1..] && t[|word|] == s[0];
    LastRunShift(t, |word| + 1, s[1..], Final(rest), j);
  }

  /** A word followed only by whitespace is the last word. */
  lemma LastWordBeforeSpace(t: string, s: string, word: string)
    requires Solid(word) && t == word + s && s != [] && IsWhitespace(s[0])
    requires word != [] && WordsFrom(s[1..], []) == []
    ensures WordsFrom(s, word) != [] && LastRunAt(t, Final(WordsFrom(s, word)), 0)
  {
    var ws := WordsFrom(s, word);
    assert ws == [word] + WordsFrom(s[1..], []);
    BlankWithoutWords(s[1..]);
    assert Blank(s) by {
      forall k | 0 <= k < |s| ensures IsWhitespace(s[k]) {
        if k > 0 { assert s[k] == s[1..][k - 1]; }
      }
    }
    assert t[0..|word|] == word && t[|word|..] == s;
  }

  /** Two last words of the same text are the same word. */
  lemma LastRunUnique(t: string, w1: string, i1: int, w2: string, i2: int)
    requires w1 != [] && Solid(w1) && LastRunAt(t, w1, i1)
    requires w2 != [] && Solid(w2) && LastRunAt(t, w2, i2)
    ensures w1 == w2 && i1 == i2
  {
    assert forall k :: i1 <= k < i1 + |w1| ==> t[k] == w1[k - i1] && !IsWhitespace(t[k]);
    assert forall k :: i2 <= k < i2 + |w2| ==> t[k] == w2[k - i2] && !IsWhitespace(t[k]);
    assert forall k :: i1 + |w1| <= k < |t| ==> t[k] == t[i1 + |w1|..][k - i1 - |w1|] && IsWhitespace(t[k]);
    assert forall k :: i2 + |w2| <= k < |t| ==> t[k] == t[i2 + |w2|..][k - i2 - |w2|] && IsWhitespace(t[k]);
    assert !IsWhitespace(t[i1]) && !IsWhitespace(t[i2]);
    assert i2 < i1 + |w1| && i1 < i2 + |w2|;
    assert i1 > 0 ==> IsWhitespace(t[i1 - 1]);
    assert i2 > 0 ==> IsWhitespace(t[i2 - 1]);
    assert i1 == i2;
    assert |w1| == |w2| by {
      assert i1 + |w1| < |t| ==> IsWhitespace(t[i1 + |w1|]);
      assert i2 + |w2| < |t| ==> IsWhitespace(t[i2 + |w2|]);
    }
    assert w1 == t[i1..i1 + |w1|] == w2;
  }
}
