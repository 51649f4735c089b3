/** `countWords` from lib/utils.ts: `text.trim().split(/\s+/).filter(Boolean).length`,
    and its meaning as the number of maximal runs of non-whitespace characters. */
module Words {

  /** The characters that `String.prototype.trim` removes and that the regular
      expression class `\s` matches: ECMAScript WhiteSpace (tab, vertical tab,
      form feed, space, no-break space, the byte order mark and every space
      separator) and LineTerminator (line feed, carriage return, U+2028, U+2029). */
  predicate IsWhitespace(c: char) {
    var n := c as int;
    n == 0x09 || n == 0x0A || n == 0x0B || n == 0x0C || n == 0x0D || n == 0x20
    || n == 0xA0 || n == 0x1680 || (0x2000 <= n <= 0x200A) || n == 0x2028 || n == 0x2029
    || n == 0x202F || n == 0x205F || n == 0x3000 || n == 0xFEFF
  }

  predicate AllWhitespace(s: string) {
    forall i :: 0 <= i < |s| ==> IsWhitespace(s[i])
  }

  /** Length of the longest whitespace prefix of `s`. */
  function WsPrefix(s: string): (n: nat)
    ensures n <= |s|
    ensures forall i :: 0 <= i < n ==> IsWhitespace(s[i])
    ensures n < |s| ==> !IsWhitespace(s[n])
  {
    if s != [] && IsWhitespace(s[0]) then 1 + WsPrefix(s[1..]) else 0
  }

  /** Length of the longest non-whitespace prefix of `s`. */
  function WordPrefix(s: string): (n: nat)
    ensures n <= |s|
    ensures forall i :: 0 <= i < n ==> !IsWhitespace(s[i])
    ensures n < |s| ==> IsWhitespace(s[n])
  {
    if s != [] && !IsWhitespace(s[0]) then 1 + WordPrefix(s[1..]) else 0
  }

  /** Length of the longest whitespace suffix of `s`. */
  function WsSuffix(s: string): (n: nat)
    ensures n <= |s|
    ensures forall i :: |s| - n <= i < |s| ==> IsWhitespace(s[i])
    ensures n < |s| ==> !IsWhitespace(s[|s| - n - 1])
  {
    if s != [] && IsWhitespace(s[|s| - 1]) then 1 + WsSuffix(s[..|s| - 1]) else 0
  }

  /** `s.trim()`: leading and trailing whitespace removed. */
  function Trim(s: string): string {
    var t := s[WsPrefix(s)..];
    t[..|t| - WsSuffix(t)]
  }

  /** `s.split(/\s+/)`: the pieces between maximal runs of whitespace; the
      pattern never matches the empty string, so `""` splits into `[""]`, and
      a leading or trailing run yields an empty first or last piece. */
  function Split(s: string): seq<string>
    decreases |s|
  {
    var w := WordPrefix(s);
    if w == |s| then [s]
    else
      var rest := s[w..];
      [s[..w]] + Split(rest[WsPrefix(rest)..])
  }

  /** `pieces.filter(Boolean)`: the non-empty pieces, in order. */
  function NonEmpty(pieces: seq<string>): seq<string> {
    if pieces == [] then []
    else (if pieces[0] != "" then [pieces[0]] else []) + NonEmpty(pieces[1..])
  }

  /** `countWords(text)`, as the source composes it. */
  function CountWords(text: string): nat {
    |NonEmpty(Split(Trim(text)))|
  }

  /** Reference definition: the number of maximal runs of non-whitespace
      characters, counted at the last character of each run. */
  function Runs(s: string): nat {
    if s == [] then 0
    else (if !IsWhitespace(s[0]) && (|s| == 1 || IsWhitespace(s[1])) then 1 else 0) + Runs(s[1..])
  }

  lemma {:induction false} RunsAllWhitespace(s: string)
    requires AllWhitespace(s)
    ensures Runs(s) == 0
  {
    if s != [] {
      RunsAllWhitespace(s[1..]);
    }
  }

  lemma {:induction false} RunsDropWhitespace(s: string)
    ensures Runs(s[WsPrefix(s)..]) == Runs(s)
  {
    if s != [] && IsWhitespace(s[0]) {
      RunsDropWhitespace(s[1..]);
      assert s[WsPrefix(s)..] == s[1..][WsPrefix(s[1..])..];
    }
  }

  lemma {:induction false} RunsDropWord(s: string)
    requires WordPrefix(s) > 0
    ensures Runs(s) == 1 + Runs(s[WordPrefix(s)..])
  {
    if WordPrefix(s) > 1 {
      RunsDropWord(s[1..]);
      assert s[WordPrefix(s)..] == s[1..][WordPrefix(s[1..])..];
    }
  }

  lemma {:induction false} RunsWhitespacePrefix(pre: string, s: string)
    requires AllWhitespace(pre)
    ensures Runs(pre + s) == Runs(s)
  {
    if pre != [] {
      assert (pre + s)[1..] == pre[1..] + s;
      RunsWhitespacePrefix(pre[1..], s);
    } else {
      assert pre + s == s;
    }
  }

  lemma {:induction false} RunsWhitespaceSuffix(s: string, post: string)
    requires AllWhitespace(post)
    ensures Runs(s + post) == Runs(s)
  {
    if s == [] {
      assert s + post == post;
      RunsAllWhitespace(post);
    } else {
      assert (s + post)[0] == s[0];
      assert (s + post)[1..] == s[1..] + post;
      assert |s| > 1 ==> (s + post)[1] == s[1];
      assert |s| == 1 && post != [] ==> (s + post)[1] == post[0];
      RunsWhitespaceSuffix(s[1..], post);
    }
  }

  lemma RunsTrim(s: string)
    ensures Runs(Trim(s)) == Runs(s)
  {
    var t := s[WsPrefix(s)..];
    RunsDropWhitespace(s);
    var k := |t| - WsSuffix(t);
    assert t == t[..k] + t[k..];
    RunsWhitespaceSuffix(t[..k], t[k..]);
  }

  lemma {:induction false} NonEmptySplitCountsRuns(s: string)
    ensures |NonEmpty(Split(s))| == Runs(s)
    decreases |s|
  {
    var w := WordPrefix(s);
    if w == |s| {
      assert Split(s) == [s];
      if s != [] {
        RunsDropWord(s);
      }
    } else {
      var rest := s[w..];
      var next := rest[WsPrefix(rest)..];
      var pieces := [s[..w]] + Split(next);
      assert Split(s) == pieces;
      assert pieces[1..] == Split(next);
      NonEmptySplitCountsRuns(next);
      RunsDropWhitespace(rest);
      if w > 0 {
        RunsDropWord(s);
      } else {
        assert rest == s;
      }
    }
  }

  /** `countWords(s)` is the number of maximal non-whitespace runs of `s`. */
  lemma CountWordsIsRuns(s: string)
    ensures CountWords(s) == Runs(s)
  {
    NonEmptySplitCountsRuns(Trim(s));
    RunsTrim(s);
  }

  lemma {:induction false} RunsPositive(s: string, i: nat)
    requires i < |s| && !IsWhitespace(s[i])
    ensures Runs(s) > 0
  {
    if i > 0 && (IsWhitespace(s[0]) || IsWhitespace(s[1]) || i > 1) {
      RunsPositive(s[1..], i - 1);
    } else if i == 1 {
      RunsPositive(s[1..], 0);
    } else if |s| > 1 && !IsWhitespace(s[1]) {
      RunsPositive(s[1..], 0);
    }
  }

  /** `countWords` is 0 exactly for empty and all-whitespace strings. */
  lemma CountWordsZeroIff(s: string)
    ensures CountWords(s) == 0 <==> AllWhitespace(s)
  {
    CountWordsIsRuns(s);
    if AllWhitespace(s) {
      RunsAllWhitespace(s);
    } else {
      var i :| 0 <= i < |s| && !IsWhitespace(s[i]);
      RunsPositive(s, i);
    }
  }

  /** Adding leading or trailing whitespace does not change the count. */
  lemma CountWordsPadding(pre: string, s: string, post: string)
    requires AllWhitespace(pre) && AllWhitespace(post)
    ensures CountWords(pre + s + post) == CountWords(s)
  {
    var padded := s + post;
    RunsWhitespaceSuffix(s, post);
    RunsWhitespacePrefix(pre, padded);
    assert pre + s + post == pre + padded;
    CountWordsIsRuns(pre + padded);
    CountWordsIsRuns(s);
  }

  /** The empty string, a string of spaces and `"a b  c"` have 0, 0 and 3 words.
      The strings are parameters fixed by the precondition, so that the
      verifier does not unfold `CountWords` on the literals. */
  lemma CountWordsExamples(empty: string, spaces: string, abc: string)
    requires empty == "" && spaces == "   " && abc == "a b  c"
    ensures CountWords(empty) == 0 && CountWords(spaces) == 0 && CountWords(abc) == 3
  {
    CountWordsZeroIff(empty);
    CountWordsZeroIff(spaces);
    CountWordsIsRuns(abc);
    assert Runs(abc[5..]) == 1;
    assert Runs(abc[4..]) == Runs(abc[5..]);
    assert Runs(abc[3..]) == Runs(abc[4..]);
    assert Runs(abc[2..]) == 1 + Runs(abc[3..]);
    assert Runs(abc[1..]) == Runs(abc[2..]);
    assert Runs(abc) == 1 + Runs(abc[1..]);
  }
}
