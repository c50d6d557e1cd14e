/**
 * LW3 value escaping. Ten characters are special on the wire: backslash,
 * TAB, LF, CR and `{ } ( ) # %`. Escaping writes each of them as a backslash
 * followed by a code character (`\\ \t \n \r \{ \} \( \) \# \%`). Unescaping
 * is ten whole-string replacement passes run one after the other, the
 * backslash pass first; because each pass works on the output of the one
 * before, unescaping undoes escaping whenever no backslash in the original is
 * directly followed by `t`, `n` or `r` (in particular for text without
 * backslashes); a backslash followed by `t` comes back as a TAB.
 */
module Escaping {

  /** The special characters, in the order the replacement passes handle them. */
  const Specials: string := ['\\', '\t', '\n', '\r', '{', '}', '(', ')', '#', '%']

  /** The code character written after the backslash, position for position. */
  const Codes: string := ['\\', 't', 'n', 'r', '{', '}', '(', ')', '#', '%']

  /** Number of replacement passes. */
  const PassCount: nat := 10

  predicate IsSpecial(c: char) {
    c in Specials
  }

  /** Position of a special character in `Specials`. */
  function SpecialIndex(c: char): (k: nat)
    requires IsSpecial(c)
    ensures k < PassCount && Specials[k] == c
  {
    if c == '\\' then 0 else if c == '\t' then 1 else if c == '\n' then 2
    else if c == '\r' then 3 else if c == '{' then 4 else if c == '}' then 5
    else if c == '(' then 6 else if c == ')' then 7 else if c == '#' then 8 else 9
  }

  /** What one character becomes: backslash plus code, or itself. */
  function EscapeChar(c: char): string {
    if IsSpecial(c) then ['\\', Codes[SpecialIndex(c)]] else [c]
  }

  /**
   * Reference definition of escaping: each character mapped on its own.
   * `Escape` equals it (`EscapeIsEach`).
   */
  function EscapeEach(s: string): string {
    if |s| == 0 then "" else EscapeChar(s[0]) + EscapeEach(s[1..])
  }

  /** One `value.replace(/<c>/g, '\\<code>')` pass of `escape`. */
  function ReplaceChar(s: string, c: char, code: char): string {
    if |s| == 0 then ""
    else (if s[0] == c then ['\\', code] else [s[0]]) + ReplaceChar(s[1..], c, code)
  }

  /** The first `k` passes of `escape`, in source order. */
  function EscapePasses(s: string, k: nat): string
    requires k <= PassCount
  {
    if k == 0 then s else ReplaceChar(EscapePasses(s, k - 1), Specials[k - 1], Codes[k - 1])
  }

  /** `escape(value)`: ten replacement passes, the backslash pass first. */
  function Escape(s: string): string {
    EscapePasses(s, PassCount)
  }

  /**
   * One `value.replace(/\\<code>/g, out)` pass: scanning left to right,
   * every backslash followed by `code` becomes `out`; the scan resumes after
   * the replaced pair and never looks at what it has produced.
   */
  function ReplacePass(s: string, code: char, out: char): string
    decreases |s|
  {
    if |s| < 2 then s
    else if s[0] == '\\' && s[1] == code then [out] + ReplacePass(s[2..], code, out)
    else [s[0]] + ReplacePass(s[1..], code, out)
  }

  /** The first `k` passes of `unescape`, in source order. */
  function Passes(s: string, k: nat): string
    requires k <= PassCount
  {
    if k == 0 then s else ReplacePass(Passes(s, k - 1), Codes[k - 1], Specials[k - 1])
  }

  /** `unescape(value)`: all ten passes. */
  function Unescape(s: string): string {
    Passes(s, PassCount)
  }

  // ---------------------------------------------------------------------
  // Properties of escape
  // ---------------------------------------------------------------------

  function CountSpecial(s: string): nat {
    if |s| == 0 then 0 else (if IsSpecial(s[0]) then 1 else 0) + CountSpecial(s[1..])
  }

  /** Escaping distributes over concatenation: it is a per-character map. */
  lemma {:induction false} EscapeConcat(a: string, b: string)
    ensures EscapeEach(a + b) == EscapeEach(a) + EscapeEach(b)
    decreases |a|
  {
    if |a| > 0 {
      assert (a + b)[1..] == a[1..] + b;
      EscapeConcat(a[1..], b);
    } else {
      assert a + b == b;
    }
  }

  /** Each special character adds exactly one character to the output. */
  lemma {:induction false} EachLength(s: string)
    ensures |EscapeEach(s)| == |s| + CountSpecial(s)
    decreases |s|
  {
    if |s| > 0 { EachLength(s[1..]); }
  }

  /** An escaped value holds no TAB, LF or CR, so it cannot break a newline-framed line. */
  lemma {:induction false} EachNoLineBreaks(s: string)
    ensures '\t' !in EscapeEach(s) && '\n' !in EscapeEach(s) && '\r' !in EscapeEach(s)
    decreases |s|
  {
    if |s| > 0 { EachNoLineBreaks(s[1..]); }
  }

  /** A string without special characters is left as it is. */
  lemma {:induction false} EachFixedPoint(s: string)
    requires forall i :: 0 <= i < |s| ==> !IsSpecial(s[i])
    ensures EscapeEach(s) == s
    decreases |s|
  {
    if |s| > 0 {
      EachFixedPoint(s[1..]);
      assert s == [s[0]] + s[1..];
    }
  }

  /** One character after the first `k` escape passes. */
  function EscapeCharUpTo(c: char, k: nat): string {
    if IsSpecial(c) && SpecialIndex(c) < k then EscapeChar(c) else [c]
  }

  function EscapeEachUpTo(s: string, k: nat): string {
    if |s| == 0 then "" else EscapeCharUpTo(s[0], k) + EscapeEachUpTo(s[1..], k)
  }

  lemma {:induction false} ReplaceCharConcat(a: string, b: string, c: char, code: char)
    ensures ReplaceChar(a + b, c, code) == ReplaceChar(a, c, code) + ReplaceChar(b, c, code)
    decreases |a|
  {
    if |a| > 0 {
      assert (a + b)[1..] == a[1..] + b;
      ReplaceCharConcat(a[1..], b, c, code);
    } else {
      assert a + b == b;
    }
  }

  /** Pass `k` of escape escapes exactly the characters of index `k`; earlier output is left alone. */
  lemma ReplaceCharOnEscaped(c: char, k: nat)
    requires k < PassCount
    ensures ReplaceChar(EscapeCharUpTo(c, k), Specials[k], Codes[k]) == EscapeCharUpTo(c, k + 1)
  {
    if IsSpecial(c) && SpecialIndex(c) < k {
      var j := SpecialIndex(c);
      assert Specials[k] != '\\';
      assert Codes[j] != Specials[k];
      assert ReplaceChar([Codes[j]], Specials[k], Codes[k]) == [Codes[j]];
    } else if IsSpecial(c) && SpecialIndex(c) == k {
      assert ReplaceChar([c], Specials[k], Codes[k]) == ['\\', Codes[k]];
    } else {
      assert c != Specials[k];
      assert ReplaceChar([c], Specials[k], Codes[k]) == [c];
    }
  }

  lemma {:induction false} ReplaceCharOnEach(s: string, k: nat)
    requires k < PassCount
    ensures ReplaceChar(EscapeEachUpTo(s, k), Specials[k], Codes[k]) == EscapeEachUpTo(s, k + 1)
    decreases |s|
  {
    if |s| == 0 {
      assert ReplaceChar("", Specials[k], Codes[k]) == "";
    } else {
      ReplaceCharConcat(EscapeCharUpTo(s[0], k), EscapeEachUpTo(s[1..], k), Specials[k], Codes[k]);
      ReplaceCharOnEscaped(s[0], k);
      ReplaceCharOnEach(s[1..], k);
    }
  }

  lemma {:induction false} EachUpToZero(s: string)
    ensures EscapeEachUpTo(s, 0) == s
    decreases |s|
  {
    if |s| > 0 {
      EachUpToZero(s[1..]);
      assert s == [s[0]] + s[1..];
    }
  }

  lemma {:induction false} EachUpToAll(s: string)
    ensures EscapeEachUpTo(s, PassCount) == EscapeEach(s)
    decreases |s|
  {
    if |s| > 0 { EachUpToAll(s[1..]); }
  }

  lemma {:induction false} EscapePassesUpTo(s: string, k: nat)
    requires k <= PassCount
    ensures EscapePasses(s, k) == EscapeEachUpTo(s, k)
    decreases k
  {
    if k == 0 {
      EachUpToZero(s);
    } else {
      EscapePassesUpTo(s, k - 1);
      ReplaceCharOnEach(s, k - 1);
    }
  }

  /**
   * The ten passes of `escape` amount to a per-character map: each pass
   * introduces only backslashes and code characters, which no later pass rewrites.
   */
  lemma EscapeIsEach(s: string)
    ensures Escape(s) == EscapeEach(s)
  {
    EscapePassesUpTo(s, PassCount);
    EachUpToAll(s);
  }

  /** Escaping adds one character per special character. */
  lemma EscapeLength(s: string)
    ensures |Escape(s)| == |s| + CountSpecial(s)
  {
    EscapeIsEach(s);
    EachLength(s);
  }

  /** An escaped value holds no TAB, LF or CR, so it cannot break a newline-framed line. */
  lemma EscapeNoLineBreaks(s: string)
    ensures '\t' !in Escape(s) && '\n' !in Escape(s) && '\r' !in Escape(s)
  {
    EscapeIsEach(s);
    EachNoLineBreaks(s);
  }

  /** A value without special characters is sent as it is. */
  lemma EscapeFixedPoint(s: string)
    requires forall i :: 0 <= i < |s| ==> !IsSpecial(s[i])
    ensures Escape(s) == s
  {
    EscapeIsEach(s);
    EachFixedPoint(s);
  }

  // ---------------------------------------------------------------------
  // Properties of unescape
  // ---------------------------------------------------------------------

  /** A pass changes nothing in a string that has no backslash. */
  lemma {:induction false} ReplacePassNoBackslash(s: string, code: char, out: char)
    requires '\\' !in s
    ensures ReplacePass(s, code, out) == s
    decreases |s|
  {
    if |s| >= 2 { ReplacePassNoBackslash(s[1..], code, out); }
  }

  /** A string with no backslash is a fixed point of unescape. */
  lemma {:induction false} UnescapeFixedPoint(s: string)
    requires '\\' !in s
    ensures Unescape(s) == s
  {
    forall k: nat | k <= PassCount ensures Passes(s, k) == s {
      PassesNoBackslash(s, k);
    }
  }

  lemma {:induction false} PassesNoBackslash(s: string, k: nat)
    requires '\\' !in s && k <= PassCount
    ensures Passes(s, k) == s
    decreases k
  {
    if k > 0 {
      PassesNoBackslash(s, k - 1);
      ReplacePassNoBackslash(s, Codes[k - 1], Specials[k - 1]);
    }
  }

  /** Non-empty and not ending in a backslash: no pass can match across its end. */
  predicate Clean(x: string) {
    |x| > 0 && x[|x| - 1] != '\\'
  }

  /** A pass over `x + y` is a pass over `x` followed by a pass over `y` when `x` is clean. */
  lemma {:induction false} ReplacePassSplit(x: string, y: string, code: char, out: char)
    requires Clean(x)
    ensures ReplacePass(x + y, code, out) == ReplacePass(x, code, out) + ReplacePass(y, code, out)
    decreases |x|
  {
    if |x| == 1 {
      SplitLast(x, y, code, out);
    } else if x[0] == '\\' && x[1] == code {
      if |x| > 2 {
        ReplacePassSplit(x[2..], y, code, out);
      } else {
        assert x[2..] + y == y;
      }
      SplitCode(x, y, code, out);
    } else {
      ReplacePassSplit(x[1..], y, code, out);
      SplitPlain(x, y, code, out);
    }
  }

  /** A single character other than a backslash passes through ahead of `y`. */
  lemma SplitLast(x: string, y: string, code: char, out: char)
    requires |x| == 1 && x[0] != '\\'
    ensures ReplacePass(x + y, code, out) == ReplacePass(x, code, out) + ReplacePass(y, code, out)
  {
    var xy := x + y;
    if |y| == 0 {
      assert xy == x;
    } else {
      PassPlain(xy, code, out);
      assert xy[1..] == y;
    }
  }

  /** A leading `\\code` pair is replaced in `x` and in `x + y` alike, so the split carries over. */
  lemma SplitCode(x: string, y: string, code: char, out: char)
    requires |x| >= 2 && x[0] == '\\' && x[1] == code
    requires ReplacePass(x[2..] + y, code, out) == ReplacePass(x[2..], code, out) + ReplacePass(y, code, out)
    ensures ReplacePass(x + y, code, out) == ReplacePass(x, code, out) + ReplacePass(y, code, out)
  {
    var xy := x + y;
    var a, b := ReplacePass(x[2..], code, out), ReplacePass(y, code, out);
    assert xy[..|x|] == x;
    assert xy[2..] == x[2..] + y;
    PassCode(xy, code, out);
    PassCode(x, code, out);
    assert ReplacePass(xy, code, out) == [out] + (a + b);
    assert [out] + (a + b) == ([out] + a) + b;
  }

  /** A leading character that starts no pair is kept in `x` and in `x + y` alike, so the split carries over. */
  lemma SplitPlain(x: string, y: string, code: char, out: char)
    requires |x| >= 2 && !(x[0] == '\\' && x[1] == code)
    requires ReplacePass(x[1..] + y, code, out) == ReplacePass(x[1..], code, out) + ReplacePass(y, code, out)
    ensures ReplacePass(x + y, code, out) == ReplacePass(x, code, out) + ReplacePass(y, code, out)
  {
    var xy := x + y;
    var a, b := ReplacePass(x[1..], code, out), ReplacePass(y, code, out);
    assert xy[..|x|] == x;
    assert xy[1..] == x[1..] + y;
    PassPlain(xy, code, out);
    PassPlain(x, code, out);
    assert ReplacePass(xy, code, out) == [x[0]] + (a + b);
    assert [x[0]] + (a + b) == ([x[0]] + a) + b;
  }

  /** A pass turns a leading backslash and `code` into `out`. */
  lemma PassCode(s: string, code: char, out: char)
    requires |s| >= 2 && s[0] == '\\' && s[1] == code
    ensures ReplacePass(s, code, out) == [out] + ReplacePass(s[2..], code, out)
  {
  }

  /** A pass keeps a first character that does not start a `\\code` pair. */
  lemma PassPlain(s: string, code: char, out: char)
    requires |s| >= 2 && !(s[0] == '\\' && s[1] == code)
    ensures ReplacePass(s, code, out) == [s[0]] + ReplacePass(s[1..], code, out)
  {
  }

  /** A pass keeps a string clean unless it turns a pair into a backslash. */
  lemma {:induction false} ReplacePassClean(x: string, code: char, out: char)
    requires Clean(x) && (out != '\\' || code == '\\')
    ensures Clean(ReplacePass(x, code, out))
    decreases |x|
  {
    if |x| >= 2 {
      if x[0] == '\\' && x[1] == code {
        if |x| > 2 { ReplacePassClean(x[2..], code, out); }
      } else {
        ReplacePassClean(x[1..], code, out);
      }
    }
  }

  /** Unescaping `x + y` unescapes `x` and `y` apart when `x` is clean. */
  lemma {:induction false} PassesSplit(x: string, y: string, k: nat)
    requires Clean(x) && k <= PassCount
    ensures Clean(Passes(x, k))
    ensures Passes(x + y, k) == Passes(x, k) + Passes(y, k)
    decreases k
  {
    if k > 0 {
      PassesSplit(x, y, k - 1);
      ReplacePassClean(Passes(x, k - 1), Codes[k - 1], Specials[k - 1]);
      ReplacePassSplit(Passes(x, k - 1), Passes(y, k - 1), Codes[k - 1], Specials[k - 1]);
    }
  }

  lemma UnescapeSplit(x: string, y: string)
    requires Clean(x)
    ensures Unescape(x + y) == Unescape(x) + Unescape(y)
  {
    PassesSplit(x, y, PassCount);
  }

  /** The passes on one escaped pair `\<code j>`: only pass j changes it. */
  lemma {:induction false} PassesOnPair(j: nat, k: nat)
    requires 1 <= j < PassCount && k <= PassCount
    ensures Passes(['\\', Codes[j]], k) == if k <= j then ['\\', Codes[j]] else [Specials[j]]
    decreases k
  {
    if k > 0 {
      PassesOnPair(j, k - 1);
      var prev := Passes(['\\', Codes[j]], k - 1);
      if k - 1 < j {
        assert Codes[k - 1] != Codes[j];
        assert ReplacePass(prev, Codes[k - 1], Specials[k - 1]) == prev;
      } else if k - 1 == j {
        assert ReplacePass(prev, Codes[k - 1], Specials[k - 1]) == [Specials[j]];
      }
    }
  }

  /** Unescape undoes the escaping of any single character other than backslash. */
  lemma UnescapeEscapeChar(c: char)
    requires c != '\\'
    ensures Clean(EscapeChar(c))
    ensures Unescape(EscapeChar(c)) == [c]
  {
    if IsSpecial(c) {
      PassesOnPair(SpecialIndex(c), PassCount);
    } else {
      UnescapeFixedPoint([c]);
    }
  }

  /**
   * The condition under which unescape undoes escape: no backslash of the
   * original is directly followed by `t`, `n` or `r`.
   */
  predicate NoBackslashCode(s: string) {
    forall i :: 0 <= i < |s| - 1 && s[i] == '\\' ==> s[i + 1] != 't' && s[i + 1] != 'n' && s[i + 1] != 'r'
  }

  lemma NoBackslashCodeTail(s: string)
    requires |s| > 0 && NoBackslashCode(s)
    ensures NoBackslashCode(s[1..])
  {
    forall i | 0 <= i < |s[1..]| - 1 && s[1..][i] == '\\'
      ensures s[1..][i + 1] != 't' && s[1..][i + 1] != 'n' && s[1..][i + 1] != 'r'
    {
      assert s[i + 1] == '\\';
    }
  }

  /**
   * One character of the original after the first `j` unescape passes have
   * run over its escaping: a backslash is already single, the special
   * characters of index `j` or more are still escaped.
   */
  function UnescapedCharUpTo(c: char, j: nat): string {
    if c == '\\' then ['\\'] else if IsSpecial(c) && SpecialIndex(c) >= j then EscapeChar(c) else [c]
  }

  function UnescapedUpTo(s: string, j: nat): string {
    if |s| == 0 then "" else UnescapedCharUpTo(s[0], j) + UnescapedUpTo(s[1..], j)
  }

  lemma EscapeCharClean(c: char)
    requires c != '\\'
    ensures Clean(EscapeChar(c))
    ensures ReplacePass(EscapeChar(c), '\\', '\\') == EscapeChar(c)
  {
    if IsSpecial(c) {
      var e := EscapeChar(c);
      assert e[1..] == [e[1]];
    }
  }

  /** The backslash pass over an escaped string halves every escaped backslash and keeps the rest. */
  lemma {:induction false} FirstPass(s: string)
    ensures ReplacePass(EscapeEach(s), '\\', '\\') == UnescapedUpTo(s, 1)
    decreases |s|
  {
    if |s| > 0 {
      var x := EscapeEach(s);
      if s[0] == '\\' {
        assert x[2..] == EscapeEach(s[1..]);
      } else {
        EscapeCharClean(s[0]);
        ReplacePassSplit(EscapeChar(s[0]), EscapeEach(s[1..]), '\\', '\\');
      }
      FirstPass(s[1..]);
    }
  }

  /** Pass `j` restores the characters of index `j` and leaves the other pieces alone. */
  lemma LaterPassChar(c: char, j: nat)
    requires c != '\\' && 1 <= j < PassCount
    ensures Clean(UnescapedCharUpTo(c, j))
    ensures ReplacePass(UnescapedCharUpTo(c, j), Codes[j], Specials[j]) == UnescapedCharUpTo(c, j + 1)
  {
    if IsSpecial(c) && SpecialIndex(c) >= j {
      var k := SpecialIndex(c);
      var e := ['\\', Codes[k]];
      assert e[2..] == [] && e[1..] == [Codes[k]];
      if k > j {
        assert Codes[k] != Codes[j];
      }
    }
  }

  /** The first character a piece starts with is never the code of a later pass, for a safe successor. */
  lemma PieceStartsWithoutCode(c: char, j: nat)
    requires 1 <= j < PassCount && c != 't' && c != 'n' && c != 'r'
    ensures |UnescapedCharUpTo(c, j)| > 0 && UnescapedCharUpTo(c, j)[0] != Codes[j]
  {
    if c != '\\' && !(IsSpecial(c) && SpecialIndex(c) >= j) && j >= 4 {
      assert Codes[j] == Specials[j];
      assert c != Specials[j];
    }
  }

  lemma {:induction false} LaterPass(s: string, j: nat)
    requires NoBackslashCode(s) && 1 <= j < PassCount
    ensures ReplacePass(UnescapedUpTo(s, j), Codes[j], Specials[j]) == UnescapedUpTo(s, j + 1)
    decreases |s|
  {
    if |s| > 0 {
      NoBackslashCodeTail(s);
      LaterPass(s[1..], j);
      var y := UnescapedUpTo(s[1..], j);
      if s[0] != '\\' {
        LaterPassChar(s[0], j);
        ReplacePassSplit(UnescapedCharUpTo(s[0], j), y, Codes[j], Specials[j]);
      } else if |s| > 1 {
        assert s[0] == '\\' && 0 < |s| - 1;
        PieceStartsWithoutCode(s[1], j);
        var x := ['\\'] + y;
        assert x[1..] == y && x[1] == y[0];
      }
    }
  }

  lemma {:induction false} UnescapedUpToAll(s: string)
    ensures UnescapedUpTo(s, PassCount) == s
    decreases |s|
  {
    if |s| > 0 {
      UnescapedUpToAll(s[1..]);
      assert s == [s[0]] + s[1..];
    }
  }

  lemma {:induction false} PassesOnEscaped(s: string, k: nat)
    requires NoBackslashCode(s) && 1 <= k <= PassCount
    ensures Passes(EscapeEach(s), k) == UnescapedUpTo(s, k)
    decreases k
  {
    if k == 1 {
      FirstPass(s);
    } else {
      PassesOnEscaped(s, k - 1);
      LaterPass(s, k - 1);
    }
  }

  /**
   * `unescape(escape(s)) == s` whenever no backslash of `s` is directly
   * followed by `t`, `n` or `r`; in particular for every `s` without a backslash.
   */
  lemma RoundTrip(s: string)
    requires NoBackslashCode(s)
    ensures Unescape(Escape(s)) == s
  {
    EscapeIsEach(s);
    PassesOnEscaped(s, PassCount);
    UnescapedUpToAll(s);
  }

  /** In particular, `unescape(escape(s)) == s` for every `s` without a backslash. */
  lemma RoundTripNoBackslash(s: string)
    requires '\\' !in s
    ensures Unescape(Escape(s)) == s
  {
    RoundTrip(s);
  }

  /**
   * The restriction is needed: a backslash followed by `t` escapes to
   * `\\t`, whose first pass yields `\t` and whose second pass then yields a
   * TAB, so the round trip gives one TAB instead of the original two characters.
   */
  lemma RoundTripFailsOnBackslash(s: string)
    requires s == ['\\', 't']
    ensures Escape(s) == ['\\', '\\', 't']
    ensures Unescape(Escape(s)) == ['\t']
  {
    EscapeIsEach(s);
    EscapeBackslashT(s);
    var e := ['\\', '\\', 't'];
    FirstPassOnBackslashT(e);
    SecondPassOnBackslashT(e);
    PassesAfterTab(e, PassCount);
  }

  /** Escaping doubles the backslash and keeps the `t`. */
  lemma EscapeBackslashT(s: string)
    requires s == ['\\', 't']
    ensures EscapeEach(s) == ['\\', '\\', 't']
  {
    assert s[1..] == ['t'];
    EachSingle('t');
    EachSingle('\\');
    assert s == ['\\'] + ['t'];
    EscapeConcat(['\\'], ['t']);
  }

  /** The backslash pass turns the leading pair back into one backslash. */
  lemma FirstPassOnBackslashT(e: string)
    requires e == ['\\', '\\', 't']
    ensures Passes(e, 1) == ['\\', 't']
  {
    assert e[2..] == ['t'];
    PassCode(e, '\\', '\\');
  }

  /** The `t` pass then turns what is left into a TAB. */
  lemma SecondPassOnBackslashT(e: string)
    requires Passes(e, 1) == ['\\', 't']
    ensures Passes(e, 2) == ['\t']
  {
    var p := ['\\', 't'];
    assert p[2..] == [];
    PassCode(p, 't', '\t');
  }

  lemma {:induction false} PassesAfterTab(e: string, k: nat)
    requires 2 <= k <= PassCount && Passes(e, 2) == ['\t']
    ensures Passes(e, k) == ['\t']
    decreases k
  {
    if k > 2 { PassesAfterTab(e, k - 1); }
  }

  // ---------------------------------------------------------------------
  // Escaping twice, unescaping twice
  // ---------------------------------------------------------------------

  /** The first unescape of a doubly escaped character: TAB, LF and CR come back raw, the rest stay escaped once. */
  function HalfEscapedChar(c: char): string {
    if IsSpecial(c) && SpecialIndex(c) >= 4 then EscapeChar(c) else [c]
  }

  function HalfEscaped(s: string): string {
    if |s| == 0 then "" else HalfEscapedChar(s[0]) + HalfEscaped(s[1..])
  }

  /** Passes on `\\\<c>` (the double escape of a bracket-like character). */
  lemma {:induction false} PassesOnDoublePair(j: nat, k: nat)
    requires 4 <= j < PassCount && k <= PassCount
    ensures Passes(['\\', '\\', '\\', Codes[j]], k) ==
      if k == 0 then ['\\', '\\', '\\', Codes[j]]
      else if k <= j then ['\\', '\\', Codes[j]]
      else ['\\', Specials[j]]
    decreases k
  {
    if k > 0 {
      PassesOnDoublePair(j, k - 1);
      var prev := Passes(['\\', '\\', '\\', Codes[j]], k - 1);
      var code, out := Codes[k - 1], Specials[k - 1];
      if k == 1 {
        CodesDistinct(j, 0);
        PassCode(prev, code, out);
        assert prev[2..] == ['\\', Codes[j]];
        PassKeepsPair(Codes[j], code, out);
      } else if k - 1 < j {
        CodesDistinct(j, k - 1);
        CodesDistinct(0, k - 1);
        PassPlain(prev, code, out);
        assert prev[1..] == ['\\', Codes[j]];
        PassKeepsPair(Codes[j], code, out);
      } else if k - 1 == j {
        CodesDistinct(0, k - 1);
        PassPlain(prev, code, out);
        assert prev[1..] == ['\\', Codes[j]];
        PassReplacesPair(code, out);
      } else {
        CodesDistinct(j, k - 1);
        assert Specials[j] == Codes[j];
        PassKeepsPair(Codes[j], code, out);
      }
    }
  }

  /** Different passes look for different code characters. */
  lemma CodesDistinct(a: nat, b: nat)
    requires a < PassCount && b < PassCount && a != b
    ensures Codes[a] != Codes[b]
  {
    CodeIndexOf(a);
    CodeIndexOf(b);
  }

  /** The pass that looks for a code character. */
  function CodeIndex(c: char): int {
    if c == '\\' then 0 else if c == 't' then 1 else if c == 'n' then 2
    else if c == 'r' then 3 else if c == '{' then 4 else if c == '}' then 5
    else if c == '(' then 6 else if c == ')' then 7 else if c == '#' then 8
    else if c == '%' then 9 else -1
  }

  lemma CodeIndexOf(a: nat)
    requires a < PassCount
    ensures CodeIndex(Codes[a]) == a
  {
  }

  /** A backslash followed by anything but the pass's code is kept. */
  lemma PassKeepsPair(c: char, code: char, out: char)
    requires c != code
    ensures ReplacePass(['\\', c], code, out) == ['\\', c]
  {
    PassPlain(['\\', c], code, out);
    assert ['\\', c][1..] == [c];
  }

  /** A backslash followed by the pass's code becomes the pass's character. */
  lemma PassReplacesPair(code: char, out: char)
    ensures ReplacePass(['\\', code], code, out) == [out]
  {
    PassCode(['\\', code], code, out);
    assert ['\\', code][2..] == [];
  }

  /** Passes on `\\t`, `\\n`, `\\r` (the double escape of TAB, LF, CR). */
  lemma {:induction false} PassesOnDoubleControl(j: nat, k: nat)
    requires 1 <= j < 4 && k <= PassCount
    ensures Passes(['\\', '\\', Codes[j]], k) ==
      if k == 0 then ['\\', '\\', Codes[j]]
      else if k <= j then ['\\', Codes[j]]
      else [Specials[j]]
    decreases k
  {
    if k > 0 {
      PassesOnDoubleControl(j, k - 1);
      var prev := Passes(['\\', '\\', Codes[j]], k - 1);
      var code, out := Codes[k - 1], Specials[k - 1];
      if k == 1 {
        assert ReplacePass(prev, code, out) == ['\\'] + ReplacePass([Codes[j]], code, out);
      } else if k - 1 < j {
        assert ReplacePass(prev, code, out) == ['\\'] + ReplacePass([Codes[j]], code, out);
      } else if k - 1 == j {
        assert ReplacePass(prev, code, out) == [out] + ReplacePass([], code, out);
      }
    }
  }

  lemma UnescapeDoubleEscapedChar(c: char)
    requires c != '\\'
    ensures Clean(EscapeEach(EscapeChar(c)))
    ensures Unescape(EscapeEach(EscapeChar(c))) == HalfEscapedChar(c)
  {
    if IsSpecial(c) {
      var j := SpecialIndex(c);
      var code := Codes[j];
      assert EscapeEach([code]) == EscapeChar(code);
      assert EscapeEach(EscapeChar(c)) == EscapeChar('\\') + EscapeEach([code]);
      if j >= 4 {
        assert code == c && SpecialIndex(code) == j;
        assert EscapeChar(code) == ['\\', code];
        assert EscapeEach(EscapeChar(c)) == ['\\', '\\', '\\', code];
        PassesOnDoublePair(j, PassCount);
      } else {
        assert EscapeChar(code) == [code];
        assert EscapeEach(EscapeChar(c)) == ['\\', '\\', code];
        PassesOnDoubleControl(j, PassCount);
      }
    } else {
      assert EscapeEach([c]) == [c];
      UnescapeFixedPoint([c]);
    }
  }

  lemma {:induction false} UnescapeDoubleEscaped(s: string)
    requires '\\' !in s
    ensures Unescape(EscapeEach(EscapeEach(s))) == HalfEscaped(s)
    decreases |s|
  {
    if |s| == 0 {
      UnescapeFixedPoint("");
    } else {
      var e := EscapeChar(s[0]);
      EscapeConcat(e, EscapeEach(s[1..]));
      UnescapeDoubleEscapedChar(s[0]);
      UnescapeSplit(EscapeEach(e), EscapeEach(EscapeEach(s[1..])));
      UnescapeDoubleEscaped(s[1..]);
    }
  }

  lemma {:induction false} UnescapeHalfEscaped(s: string)
    requires '\\' !in s
    ensures Unescape(HalfEscaped(s)) == s
    decreases |s|
  {
    if |s| == 0 {
      UnescapeFixedPoint("");
    } else {
      var c := s[0];
      if IsSpecial(c) && SpecialIndex(c) >= 4 {
        UnescapeEscapeChar(c);
      } else {
        UnescapeFixedPoint([c]);
      }
      UnescapeSplit(HalfEscapedChar(c), HalfEscaped(s[1..]));
      UnescapeHalfEscaped(s[1..]);
      assert s == [c] + s[1..];
    }
  }

  /** Escaping twice and unescaping twice gives back any string without a backslash. */
  lemma DoubleRoundTrip(s: string)
    requires '\\' !in s
    ensures Unescape(Unescape(Escape(Escape(s)))) == s
  {
    EscapeIsEach(s);
    EscapeIsEach(EscapeEach(s));
    UnescapeDoubleEscaped(s);
    UnescapeHalfEscaped(s);
  }

  // ---------------------------------------------------------------------
  // The four test vectors of the escaping module
  // ---------------------------------------------------------------------

  lemma EachPlainThenChar(a: string, c: char, r: string)
    requires forall k :: 0 <= k < |a| ==> !IsSpecial(a[k])
    ensures EscapeEach(a + [c] + r) == a + EscapeChar(c) + EscapeEach(r)
  {
    EscapeConcat(a + [c], r);
    EscapeConcat(a, [c]);
    EachFixedPoint(a);
    EachSingle(c);
  }

  lemma EachSingle(c: char)
    ensures EscapeEach([c]) == EscapeChar(c)
  {
    assert [c][1..] == [];
  }

  /** Accented letters are not special: the string is sent unchanged. */
  lemma AccentedVector(s: string)
    requires s == "árvíztűrő tükörfúrógép"
    ensures Escape(s) == s
    ensures Unescape(s) == s
    ensures Unescape(Unescape(Escape(Escape(s)))) == s
  {
    EscapeFixedPoint(s);
    UnescapeFixedPoint(s);
    DoubleRoundTrip(s);
  }

  lemma HashPercentTail(s: string)
    requires s == "dfs%dfsd"
    ensures EscapeEach(s) == "dfs\\%dfsd"
  {
    assert s == "dfs" + ['%'] + "dfsd";
    EachPlainThenChar("dfs", '%', "dfsd");
    EachFixedPoint("dfsd");
    assert "dfs" + "\\%" + "dfsd" == "dfs\\%dfsd";
  }

  /** `#` and `%` are escaped. */
  lemma HashPercentEscape(s: string, e: string)
    requires s == "test#dfs%dfsd"
    requires e == "test\\#dfs\\%dfsd"
    ensures Escape(s) == e
  {
    HashPercentPieces(s, e);
    EachPlainThenChar("test", '#', "dfs%dfsd");
    HashPercentTail("dfs%dfsd");
    EscapeIsEach(s);
  }

  lemma HashPercentPieces(s: string, e: string)
    requires s == "test#dfs%dfsd"
    requires e == "test\\#dfs\\%dfsd"
    ensures s == "test" + ['#'] + "dfs%dfsd"
    ensures e == "test" + EscapeChar('#') + "dfs\\%dfsd"
  {
    assert EscapeChar('#') == "\\#";
  }

  lemma HashPercentUnescape(s: string, e: string)
    requires s == "test#dfs%dfsd"
    requires e == "test\\#dfs\\%dfsd"
    ensures Unescape(e) == s
    ensures Unescape(Unescape(Escape(Escape(s)))) == s
  {
    HashPercentEscape(s, e);
    RoundTrip(s);
    DoubleRoundTrip(s);
  }

  lemma BracketTail(s: string)
    requires s == "}\\()"
    ensures EscapeEach(s) == "\\}\\\\\\(\\)"
  {
    assert EscapeEach(s[3..]) == "\\)" by { assert s[3..][1..] == []; }
    assert EscapeEach(s[2..]) == "\\(\\)" by { assert s[2..][1..] == s[3..]; }
    assert EscapeEach(s[1..]) == "\\\\\\(\\)" by { assert s[1..][1..] == s[2..]; }
  }

  /** Brackets and a backslash are escaped. */
  lemma BracketEscape(s: string, e: string)
    requires s == "hello{}\\()"
    requires e == "hello\\{\\}\\\\\\(\\)"
    ensures Escape(s) == e
  {
    BracketPieces(s, e);
    EachPlainThenChar("hello", '{', "}\\()");
    BracketTail("}\\()");
    EscapeIsEach(s);
  }

  lemma BracketPieces(s: string, e: string)
    requires s == "hello{}\\()"
    requires e == "hello\\{\\}\\\\\\(\\)"
    ensures s == "hello" + ['{'] + "}\\()"
    ensures e == "hello" + EscapeChar('{') + "\\}\\\\\\(\\)"
  {
    assert EscapeChar('{') == "\\{";
  }

  /** The backslash of this value is followed by `(`, so unescape still undoes escape. */
  lemma BracketUnescape(s: string, e: string)
    requires s == "hello{}\\()"
    requires e == "hello\\{\\}\\\\\\(\\)"
    ensures Unescape(e) == s
  {
    BracketEscape(s, e);
    assert NoBackslashCode(s);
    RoundTrip(s);
  }

  /** Its escaping has no backslash followed by `t`, `n` or `r` either, so the double round trip holds too. */
  lemma BracketDoubleRoundTrip(s: string, e: string)
    requires s == "hello{}\\()"
    requires e == "hello\\{\\}\\\\\\(\\)"
    ensures Unescape(Unescape(Escape(Escape(s)))) == s
  {
    BracketEscape(s, e);
    BracketUnescape(s, e);
    assert NoBackslashCode(e);
    RoundTrip(e);
  }

  /** The control vector as plain words separated by LF and TAB. */
  lemma ControlSource(s: string)
    requires s == "test\nelek\ntest\ttest\ttest"
    ensures s == "test" + ['\n'] + "elek" + ['\n'] + "test" + ['\t'] + "test" + ['\t'] + "test"
  {
  }

  lemma ControlEscaped(e: string)
    requires e == "test\\nelek\\ntest\\ttest\\ttest"
    ensures e == "test" + "\\n" + "elek" + "\\n" + "test" + "\\t" + "test" + "\\t" + "test"
  {
  }

  /** Escaping a word, a control character, and a rest that is already known. */
  lemma EachWordThen(acc: string, eacc: string, c: char, w: string)
    requires EscapeEach(acc) == eacc
    requires EscapeEach(w) == w
    ensures EscapeEach(acc + [c] + w) == eacc + EscapeChar(c) + w
  {
    EscapeConcat(acc + [c], w);
    EscapeConcat(acc, [c]);
    EachSingle(c);
  }

  /** Words separated by LF, LF, TAB and TAB escape word by word. */
  lemma EachControlShape(w: string, v: string)
    requires EscapeEach(w) == w && EscapeEach(v) == v
    ensures EscapeEach(w + ['\n'] + v + ['\n'] + w + ['\t'] + w + ['\t'] + w)
         == w + "\\n" + v + "\\n" + w + "\\t" + w + "\\t" + w
  {
    var lf, tab := EscapeChar('\n'), EscapeChar('\t');
    assert lf == "\\n" && tab == "\\t";
    EachWordThen(w, w, '\n', v);
    EachWordThen(w + ['\n'] + v, w + lf + v, '\n', w);
    EachWordThen(w + ['\n'] + v + ['\n'] + w, w + lf + v + lf + w, '\t', w);
    EachWordThen(w + ['\n'] + v + ['\n'] + w + ['\t'] + w, w + lf + v + lf + w + tab + w, '\t', w);
  }

  lemma ControlWords()
    ensures EscapeEach("test") == "test" && EscapeEach("elek") == "elek"
  {
    EachFixedPoint("test");
    EachFixedPoint("elek");
  }

  lemma ControlEach(s: string, e: string)
    requires s == "test\nelek\ntest\ttest\ttest"
    requires e == "test\\nelek\\ntest\\ttest\\ttest"
    ensures EscapeEach(s) == e
  {
    ControlWords();
    EachControlShape("test", "elek");
    ControlSource(s);
    ControlEscaped(e);
  }

  /** LF and TAB are escaped, and both round trips hold for the value with line breaks and tabs. */
  lemma ControlVector(s: string, e: string)
    requires s == "test\nelek\ntest\ttest\ttest"
    requires e == "test\\nelek\\ntest\\ttest\\ttest"
    ensures Escape(s) == e
    ensures Unescape(e) == s
    ensures Unescape(Unescape(Escape(Escape(s)))) == s
  {
    ControlEach(s, e);
    EscapeIsEach(s);
    ControlNoBackslash(s);
    RoundTripNoBackslash(s);
    DoubleRoundTrip(s);
  }

  lemma ControlNoBackslash(s: string)
    requires s == "test\nelek\ntest\ttest\ttest"
    ensures '\\' !in s
  {
  }

}
