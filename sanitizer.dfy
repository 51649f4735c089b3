/** `sanitizeInput` from lib/utils.ts: five global replaces escaping the
    HTML-significant characters, and what they guarantee. */
module Sanitizer {

  /** The five characters the sanitizer escapes. */
  predicate IsSpecial(c: char) {
    c == '&' || c == '<' || c == '>' || c == '"' || c == '\''
  }

  predicate NoSpecial(s: string) {
    forall i :: 0 <= i < |s| ==> !IsSpecial(s[i])
  }

  /** `s.replace(/c/g, rep)` for a one-character pattern and a replacement
      string without `$` patterns: every occurrence of `c` becomes `rep`. */
  function ReplaceAll(s: string, c: char, rep: string): (r: string)
    ensures c !in rep ==> c !in r
    ensures c !in s ==> r == s
  {
    if s == [] then []
    else (if s[0] == c then rep else [s[0]]) + ReplaceAll(s[1..], c, rep)
  }

  /** The chain of replaces of `sanitizeInput`, in the source's order. */
  function SanitizeInput(s: string): string {
    ReplaceAll(ReplaceAll(ReplaceAll(ReplaceAll(ReplaceAll(
      s, '&', "&amp;"), '<', "&lt;"), '>', "&gt;"), '"', "&quot;"), '\'', "&#039;")
  }

  /** The escape of a single character. */
  function EscapeChar(c: char): string {
    match c
    case '&' => "&amp;"
    case '<' => "&lt;"
    case '>' => "&gt;"
    case '"' => "&quot;"
    case '\'' => "&#039;"
    case _ => [c]
  }

  /** Reference definition: one left-to-right pass mapping each character to its escape. */
  function Escape(s: string): string {
    if s == [] then [] else EscapeChar(s[0]) + Escape(s[1..])
  }

  /** The decoder of the five entities, scanning left to right. */
  function Unescape(t: string): string
    decreases |t|
  {
    if t == [] then []
    else if "&amp;" <= t then "&" + Unescape(t[5..])
    else if "&lt;" <= t then "<" + Unescape(t[4..])
    else if "&gt;" <= t then ">" + Unescape(t[4..])
    else if "&quot;" <= t then "\"" + Unescape(t[6..])
    else if "&#039;" <= t then "'" + Unescape(t[6..])
    else [t[0]] + Unescape(t[1..])
  }

  /** `t` begins with one of the five entities. */
  predicate StartsWithEntity(t: string) {
    "&amp;" <= t || "&lt;" <= t || "&gt;" <= t || "&quot;" <= t || "&#039;" <= t
  }

  /** Number of occurrences of `c` in `s`. */
  function Count(s: string, c: char): nat {
    if s == [] then 0 else (if s[0] == c then 1 else 0) + Count(s[1..], c)
  }

  lemma {:induction false} ReplaceAllConcat(a: string, b: string, c: char, rep: string)
    ensures ReplaceAll(a + b, c, rep) == ReplaceAll(a, c, rep) + ReplaceAll(b, c, rep)
  {
    if a != [] {
      assert (a + b)[1..] == a[1..] + b;
      ReplaceAllConcat(a[1..], b, c, rep);
    } else {
      assert a + b == b;
    }
  }

  lemma SanitizeConcat(a: string, b: string)
    ensures SanitizeInput(a + b) == SanitizeInput(a) + SanitizeInput(b)
  {
    var a1, b1 := ReplaceAll(a, '&', "&amp;"), ReplaceAll(b, '&', "&amp;");
    ReplaceAllConcat(a, b, '&', "&amp;");
    var a2, b2 := ReplaceAll(a1, '<', "&lt;"), ReplaceAll(b1, '<', "&lt;");
    ReplaceAllConcat(a1, b1, '<', "&lt;");
    var a3, b3 := ReplaceAll(a2, '>', "&gt;"), ReplaceAll(b2, '>', "&gt;");
    ReplaceAllConcat(a2, b2, '>', "&gt;");
    var a4, b4 := ReplaceAll(a3, '"', "&quot;"), ReplaceAll(b3, '"', "&quot;");
    ReplaceAllConcat(a3, b3, '"', "&quot;");
    ReplaceAllConcat(a4, b4, '\'', "&#039;");
  }

  lemma ReplaceAllSingle(x: char, c: char, rep: string)
    ensures ReplaceAll([x], c, rep) == if x == c then rep else [x]
  {
    assert [x][1..] == [];
  }

  /** One character through the chain: a special character becomes its
      entity at its own step, and no later pattern occurs in that entity. */
  lemma SanitizeChar(c: char)
    ensures SanitizeInput([c]) == EscapeChar(c)
  {
    ReplaceAllSingle(c, '&', "&amp;");
    if c == '&' {
      assert '<' !in "&amp;" && '>' !in "&amp;" && '"' !in "&amp;" && '\'' !in "&amp;";
    } else {
      ReplaceAllSingle(c, '<', "&lt;");
      if c == '<' {
        assert '>' !in "&lt;" && '"' !in "&lt;" && '\'' !in "&lt;";
      } else {
        ReplaceAllSingle(c, '>', "&gt;");
        if c == '>' {
          assert '"' !in "&gt;" && '\'' !in "&gt;";
        } else {
          ReplaceAllSingle(c, '"', "&quot;");
          if c == '"' {
            assert '\'' !in "&quot;";
          } else {
            ReplaceAllSingle(c, '\'', "&#039;");
          }
        }
      }
    }
  }

  /** Because `&` is replaced first, the five sequential replaces equal the
      single per-character escape map. */
  lemma {:induction false} SanitizeIsEscape(s: string)
    ensures SanitizeInput(s) == Escape(s)
  {
    if s != [] {
      assert s == [s[0]] + s[1..];
      SanitizeConcat([s[0]], s[1..]);
      SanitizeChar(s[0]);
      SanitizeIsEscape(s[1..]);
    }
  }

  lemma {:induction false} EscapeNoRawMarkup(s: string)
    ensures '<' !in Escape(s) && '>' !in Escape(s) && '"' !in Escape(s) && '\'' !in Escape(s)
  {
    if s != [] {
      EscapeNoRawMarkup(s[1..]);
      assert Escape(s) == EscapeChar(s[0]) + Escape(s[1..]);
    }
  }

  /** The output holds no raw `<`, `>`, `"` or `'`. */
  lemma NoRawMarkup(s: string)
    ensures '<' !in SanitizeInput(s) && '>' !in SanitizeInput(s)
    ensures '"' !in SanitizeInput(s) && '\'' !in SanitizeInput(s)
  {
    SanitizeIsEscape(s);
    EscapeNoRawMarkup(s);
  }

  /** The escape of one character begins with an entity wherever it begins with `&`. */
  lemma EscapeCharStartsEntity(c: char, rest: string)
    requires EscapeChar(c)[0] == '&'
    ensures StartsWithEntity(EscapeChar(c) + rest)
  {
    assert IsSpecial(c);
    assert EscapeChar(c) <= EscapeChar(c) + rest;
  }

  lemma {:induction false} EscapeAmpersandsStartEntities(s: string)
    ensures forall i :: 0 <= i < |Escape(s)| && Escape(s)[i] == '&' ==> StartsWithEntity(Escape(s)[i..])
  {
    if s != [] {
      var e, rest := EscapeChar(s[0]), Escape(s[1..]);
      EscapeAmpersandsStartEntities(s[1..]);
      assert Escape(s) == e + rest;
      forall i | 0 <= i < |Escape(s)| && Escape(s)[i] == '&'
        ensures StartsWithEntity(Escape(s)[i..])
      {
        if i < |e| {
          assert e[i] == '&';
          assert i == 0;
          EscapeCharStartsEntity(s[0], rest);
        } else {
          assert Escape(s)[i..] == rest[i - |e|..];
          assert rest[i - |e|] == '&';
        }
      }
    }
  }

  /** Every `&` of the output begins an entity: nothing is escaped twice and
      nothing else introduces an ampersand. */
  lemma AmpersandsStartEntities(s: string)
    ensures forall i :: 0 <= i < |SanitizeInput(s)| && SanitizeInput(s)[i] == '&' ==>
      StartsWithEntity(SanitizeInput(s)[i..])
  {
    SanitizeIsEscape(s);
    EscapeAmpersandsStartEntities(s);
  }

  lemma UnescapeEntity(c: char, rest: string)
    ensures Unescape(EscapeChar(c) + rest) == [c] + Unescape(rest)
  {
    var t := EscapeChar(c) + rest;
    if c == '&' {
      assert "&amp;" <= t && t[5..] == rest;
    } else if c == '<' {
      assert t[1] == 'l' && !("&amp;" <= t);
      assert "&lt;" <= t && t[4..] == rest;
    } else if c == '>' {
      assert t[1] == 'g' && !("&amp;" <= t) && !("&lt;" <= t);
      assert "&gt;" <= t && t[4..] == rest;
    } else if c == '"' {
      assert t[1] == 'q' && !("&amp;" <= t) && !("&lt;" <= t) && !("&gt;" <= t);
      assert "&quot;" <= t && t[6..] == rest;
    } else if c == '\'' {
      assert t[1] == '#' && !("&amp;" <= t) && !("&lt;" <= t) && !("&gt;" <= t) && !("&quot;" <= t);
      assert "&#039;" <= t && t[6..] == rest;
    } else {
      assert t[0] == c && t[1..] == rest;
      assert !("&amp;" <= t) && !("&lt;" <= t) && !("&gt;" <= t);
      assert !("&quot;" <= t) && !("&#039;" <= t);
    }
  }

  lemma {:induction false} UnescapeEscape(s: string)
    ensures Unescape(Escape(s)) == s
  {
    if s != [] {
      UnescapeEntity(s[0], Escape(s[1..]));
      UnescapeEscape(s[1..]);
    }
  }

  /** Round trip: decoding the five entities gives the input back. */
  lemma RoundTrip(s: string)
    ensures Unescape(SanitizeInput(s)) == s
  {
    SanitizeIsEscape(s);
    UnescapeEscape(s);
  }

  lemma {:induction false} EscapeLength(s: string)
    ensures |Escape(s)| == |s| + 4 * Count(s, '&') + 3 * (Count(s, '<') + Count(s, '>'))
                              + 5 * (Count(s, '"') + Count(s, '\''))
  {
    if s != [] {
      EscapeLength(s[1..]);
    }
  }

  /** The output is `|s|` plus 4 per `&`, 3 per `<` or `>` and 5 per `"` or `'`. */
  lemma SanitizeLength(s: string)
    ensures |SanitizeInput(s)| == |s| + 4 * Count(s, '&') + 3 * (Count(s, '<') + Count(s, '>'))
                                     + 5 * (Count(s, '"') + Count(s, '\''))
  {
    SanitizeIsEscape(s);
    EscapeLength(s);
  }

  lemma {:induction false} EscapeSafe(s: string)
    requires NoSpecial(s)
    ensures Escape(s) == s
  {
    if s != [] {
      EscapeSafe(s[1..]);
    }
  }

  lemma {:induction false} EscapeOfSpecial(s: string)
    requires !NoSpecial(s)
    ensures '&' in Escape(s) && |Escape(s)| > |s|
  {
    if IsSpecial(s[0]) {
      assert Escape(s) == EscapeChar(s[0]) + Escape(s[1..]);
      assert Escape(s)[0] == '&';
      EscapeLength(s[1..]);
    } else {
      EscapeOfSpecial(s[1..]);
      assert Escape(s) == [s[0]] + Escape(s[1..]);
    }
  }

  /** A string is left unchanged exactly when it has none of the five characters. */
  lemma FixedPointIff(s: string)
    ensures SanitizeInput(s) == s <==> NoSpecial(s)
  {
    SanitizeIsEscape(s);
    if NoSpecial(s) {
      EscapeSafe(s);
    } else {
      EscapeOfSpecial(s);
    }
  }

  /** Sanitizing twice equals sanitizing once only for strings without the
      five characters: the sanitizer is not idempotent. */
  lemma IdempotentIff(s: string)
    ensures SanitizeInput(SanitizeInput(s)) == SanitizeInput(s) <==> NoSpecial(s)
  {
    FixedPointIff(s);
    FixedPointIff(SanitizeInput(s));
    if !NoSpecial(s) {
      SanitizeIsEscape(s);
      EscapeOfSpecial(s);
      var t := SanitizeInput(s);
      var i :| 0 <= i < |t| && t[i] == '&';
      assert IsSpecial(t[i]);
    }
  }

  /** `"&"` becomes `"&amp;"`, and sanitizing that again gives `"&amp;amp;"`
      (written `s + u` and `s + "amp;" + u` with `s == "&"` and `u == "amp;"`). */
  lemma DoubleEscapeExample(s: string, u: string, t: string)
    requires s == "&" && u == "amp;" && t == s + u
    ensures SanitizeInput(s) == t
    ensures SanitizeInput(SanitizeInput(s)) == s + "amp;" + u
  {
    SanitizeIsEscape(s);
    assert s[1..] == [];
    assert SanitizeInput(s) == t;
    SanitizeConcat(s, u);
    assert '&' !in u && '<' !in u && '>' !in u && '"' !in u && '\'' !in u;
  }
}
