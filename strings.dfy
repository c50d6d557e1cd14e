/**
 * The JavaScript string operations the protocol code relies on, written out
 * with JavaScript's semantics: `indexOf` answers -1 when there is no match,
 * `substring` clamps and swaps its bounds, `split` always yields at least one
 * piece, `sort()` orders by character code, and `toString()` of an integer
 * gives its shortest decimal form.
 */
module Strings {

  // ---------------------------------------------------------------------
  // Searching
  // ---------------------------------------------------------------------

  /** `p` occurs in `s` starting at position `j`. */
  predicate OccursAt(s: string, p: string, j: int) {
    0 <= j && j + |p| <= |s| && s[j..j + |p|] == p
  }

  /** `s.indexOf(p, k)`: the first position at or after `k` where `p` occurs. */
  function IndexOfFrom(s: string, p: string, k: nat): (i: int)
    ensures i == -1 || (k <= i && OccursAt(s, p, i))
    ensures i == -1 ==> forall j :: k <= j ==> !OccursAt(s, p, j)
    ensures i != -1 ==> forall j :: k <= j < i ==> !OccursAt(s, p, j)
    decreases |s| + 1 - k
  {
    if k + |p| > |s| then -1
    else if s[k..k + |p|] == p then k
    else IndexOfFrom(s, p, k + 1)
  }

  /** `s.indexOf(p)`: the first position where `p` occurs, or -1. */
  function IndexOf(s: string, p: string): (i: int)
    ensures i == -1 || OccursAt(s, p, i)
    ensures i == -1 ==> forall j :: !OccursAt(s, p, j)
    ensures i != -1 ==> forall j :: 0 <= j < i ==> !OccursAt(s, p, j)
  {
    IndexOfFrom(s, p, 0)
  }

  /** `s.indexOf(c)` for a one-character pattern. */
  function IndexOfChar(s: string, c: char): (i: int)
    ensures -1 <= i < |s|
    ensures i == -1 <==> c !in s
    ensures i != -1 ==> s[i] == c && c !in s[..i]
  {
    if |s| == 0 then -1
    else if s[0] == c then 0
    else var k := IndexOfChar(s[1..], c); if k == -1 then -1 else k + 1
  }

  /** `s.indexOf(p) !== -1`. */
  predicate Contains(s: string, p: string) {
    IndexOf(s, p) != -1
  }

  predicate StartsWith(s: string, p: string) {
    |p| <= |s| && s[..|p|] == p
  }

  // ---------------------------------------------------------------------
  // Slicing
  // ---------------------------------------------------------------------

  function Clamp(x: int, n: nat): (r: nat)
    ensures r <= n
    ensures 0 <= x <= n ==> r == x
  {
    if x < 0 then 0 else if x > n then n else x
  }

  /**
   * `s.substring(a, b)`: both bounds are clamped to [0, |s|] and swapped when
   * the first is the larger.
   */
  function Substring(s: string, a: int, b: int): (r: string)
    ensures 0 <= a <= b <= |s| ==> r == s[a..b]
    ensures |r| <= |s|
  {
    var x, y := Clamp(a, |s|), Clamp(b, |s|);
    if x <= y then s[x..y] else s[y..x]
  }

  /** Out of range, `substring` clamps each bound to the text; bounds in the wrong order are swapped. */
  lemma SubstringClamps(s: string, a: int, b: int)
    ensures 0 <= b <= a <= |s| ==> Substring(s, a, b) == s[b..a]
    ensures a < 0 ==> Substring(s, a, b) == s[..Clamp(b, |s|)]
    ensures b < 0 ==> Substring(s, a, b) == s[..Clamp(a, |s|)]
    ensures a > |s| ==> Substring(s, a, b) == s[Clamp(b, |s|)..]
    ensures b > |s| ==> Substring(s, a, b) == s[Clamp(a, |s|)..]
  {
  }

  /** `s.substring(a)`, i.e. from `a` to the end. */
  function SubstringFrom(s: string, a: int): (r: string)
    ensures 0 <= a <= |s| ==> r == s[a..]
    ensures a > |s| ==> r == ""
  {
    Substring(s, a, |s|)
  }

  /** `s.substr(-n)`: the last `n` characters, or all of `s` when it is shorter. */
  function LastChars(s: string, n: nat): (r: string)
    ensures |r| == if |s| < n then |s| else n
    ensures s == s[..|s| - |r|] + r
  {
    if |s| <= n then s else s[|s| - n..]
  }

  // ---------------------------------------------------------------------
  // Splitting and joining
  // ---------------------------------------------------------------------

  /** `pieces.join(sep)`. */
  function Join(pieces: seq<string>, sep: string): string {
    if |pieces| == 0 then ""
    else if |pieces| == 1 then pieces[0]
    else pieces[0] + sep + Join(pieces[1..], sep)
  }

  /**
   * `s.split(sep)` for a non-empty separator: the pieces between successive
   * leftmost occurrences of `sep`. The pieces joined with `sep` give `s`
   * back, and no piece contains `sep`.
   */
  function Split(s: string, sep: string): (r: seq<string>)
    requires |sep| > 0
    ensures |r| >= 1
    ensures Join(r, sep) == s
    ensures forall i :: 0 <= i < |r| ==> !Contains(r[i], sep)
    decreases |s|
  {
    var i := IndexOf(s, sep);
    if i == -1 then [s]
    else
      var head, rest := s[..i], s[i + |sep|..];
      assert !Contains(head, sep) by {
        forall j | OccursAt(head, sep, j) ensures false {
          assert s[j..j + |sep|] == head[j..j + |sep|];
          assert OccursAt(s, sep, j) && j < i;
        }
      }
      [head] + Split(rest, sep)
  }

  /** `s.split(c)` for a one-character separator. */
  function SplitOn(s: string, c: char): (r: seq<string>)
    ensures |r| >= 1
    ensures Join(r, [c]) == s
    ensures forall i :: 0 <= i < |r| ==> c !in r[i]
  {
    var r := Split(s, [c]);
    forall i | 0 <= i < |r| ensures c !in r[i] {
      if c in r[i] {
        var j :| 0 <= j < |r[i]| && r[i][j] == c;
        assert OccursAt(r[i], [c], j);
      }
    }
    r
  }

  /** A string with no occurrence of `c` splits into itself alone. */
  lemma SplitOnAbsent(s: string, c: char)
    requires c !in s
    ensures SplitOn(s, c) == [s]
  {
    if IndexOf(s, [c]) != -1 {
      var i := IndexOf(s, [c]);
      assert s[i] == s[i..i + 1][0];
    }
  }

  /** A character occurring in `s` makes `s.split(c)` yield two pieces or more. */
  lemma SplitOnPresent(s: string, c: char)
    requires c in s
    ensures |SplitOn(s, c)| >= 2
  {
    var i :| 0 <= i < |s| && s[i] == c;
    assert OccursAt(s, [c], i);
  }

  /** A text ending in its only `c` splits into the text before it and an empty piece. */
  lemma SplitOnTrailing(a: string, c: char)
    requires c !in a
    ensures SplitOn(a + [c], c) == [a, ""]
  {
    var s := a + [c];
    assert OccursAt(s, [c], |a|) by { assert s[|a|..|a| + 1] == [c]; }
    forall j | 0 <= j < |a| ensures !OccursAt(s, [c], j) {
      assert s[j..j + 1] == [a[j]];
    }
    assert IndexOf(s, [c]) == |a|;
    assert s[..|a|] == a && s[|a| + 1..] == [];
    assert IndexOf([], [c]) == -1;
  }

  /** Splitting a text whose first `c` follows `a`. */
  lemma SplitOnCons(a: string, b: string, c: char)
    requires c !in a
    ensures SplitOn(a + [c] + b, c) == [a] + SplitOn(b, c)
  {
    var s := a + [c] + b;
    assert OccursAt(s, [c], |a|) by { assert s[|a|..|a| + 1] == [c]; }
    forall j | 0 <= j < |a| ensures !OccursAt(s, [c], j) {
      assert s[j..j + 1] == [a[j]];
    }
    assert IndexOf(s, [c]) == |a|;
    assert s[..|a|] == a && s[|a| + 1..] == b;
  }

  /** Appending `c` and a piece without `c` adds that piece to the split. */
  lemma {:induction false} SplitOnAppend(s: string, b: string, c: char)
    requires c !in b
    ensures SplitOn(s + [c] + b, c) == SplitOn(s, c) + [b]
    decreases |s|
  {
    SplitOnAbsent(b, c);
    if c !in s {
      SplitOnAbsent(s, c);
      SplitOnCons(s, b, c);
    } else {
      var i := IndexOfChar(s, c);
      var a, rest := s[..i], s[i + 1..];
      assert s == a + [c] + rest;
      assert s + [c] + b == a + [c] + (rest + [c] + b);
      SplitOnCons(a, rest + [c] + b, c);
      SplitOnAppend(rest, b, c);
      SplitOnCons(a, rest, c);
    }
  }

  /** A text not starting with `c` has a non-empty first piece. */
  lemma SplitOnFirstPiece(s: string, c: char)
    requires |s| > 0 && s[0] != c
    ensures SplitOn(s, c)[0] != ""
  {
    if c !in s {
      SplitOnAbsent(s, c);
    } else {
      var i := IndexOfChar(s, c);
      assert s == s[..i] + [c] + s[i + 1..];
      SplitOnCons(s[..i], s[i + 1..], c);
      assert s[..i][0] == s[0];
    }
  }

  /** The first occurrence of `c` is where `indexOf` finds it. */
  lemma IndexOfCharAt(s: string, c: char, k: nat)
    requires k < |s| && s[k] == c && c !in s[..k]
    ensures IndexOfChar(s, c) == k
  {
  }

  /** `split` undoes `join` for pieces that do not contain the separator. */
  lemma {:induction false} SplitOnJoin(ps: seq<string>, c: char)
    requires |ps| >= 1
    requires forall i :: 0 <= i < |ps| ==> c !in ps[i]
    ensures SplitOn(Join(ps, [c]), c) == ps
    decreases |ps|
  {
    if |ps| == 1 {
      SplitOnAbsent(ps[0], c);
    } else {
      SplitOnCons(ps[0], Join(ps[1..], [c]), c);
      SplitOnJoin(ps[1..], c);
      assert ps == [ps[0]] + ps[1..];
    }
  }

  // ---------------------------------------------------------------------
  // Ordering: Array.prototype.sort() on strings compares character codes
  // ---------------------------------------------------------------------

  /** `a < b` for JavaScript strings: lexicographic order on character codes. */
  predicate StrLt(a: string, b: string)
    decreases |a|
  {
    if |a| == 0 then |b| > 0
    else if |b| == 0 then false
    else if a[0] != b[0] then a[0] < b[0]
    else StrLt(a[1..], b[1..])
  }

  lemma {:induction false} StrLtIrreflexive(a: string)
    ensures !StrLt(a, a)
    decreases |a|
  {
    if |a| > 0 { StrLtIrreflexive(a[1..]); }
  }

  lemma {:induction false} StrLtAsymmetric(a: string, b: string)
    ensures !(StrLt(a, b) && StrLt(b, a))
    decreases |a|
  {
    if |a| > 0 && |b| > 0 && a[0] == b[0] { StrLtAsymmetric(a[1..], b[1..]); }
  }

  lemma {:induction false} StrLtTransitive(a: string, b: string, c: string)
    requires StrLt(a, b) && StrLt(b, c)
    ensures StrLt(a, c)
    decreases |a|
  {
    if |a| > 0 && a[0] == b[0] && b[0] == c[0] { StrLtTransitive(a[1..], b[1..], c[1..]); }
  }

  lemma {:induction false} StrLtTotal(a: string, b: string)
    ensures a == b || StrLt(a, b) || StrLt(b, a)
    decreases |a|
  {
    if |a| > 0 && |b| > 0 && a[0] == b[0] {
      StrLtTotal(a[1..], b[1..]);
      if a[1..] == b[1..] { assert a == [a[0]] + a[1..] && b == [b[0]] + b[1..]; }
    }
  }

  predicate IsLeast(m: string, keys: set<string>) {
    m in keys && forall y :: y in keys && y != m ==> StrLt(m, y)
  }

  /** Every finite non-empty set of strings has a least element. */
  lemma {:induction false} LeastExists(keys: set<string>)
    requires keys != {}
    ensures exists m :: IsLeast(m, keys)
    decreases |keys|
  {
    var x :| x in keys;
    if keys == {x} {
      assert IsLeast(x, keys);
    } else {
      LeastExists(keys - {x});
      var m :| IsLeast(m, keys - {x});
      StrLtTotal(m, x);
      if StrLt(m, x) {
        assert IsLeast(m, keys);
      } else {
        forall y | y in keys && y != x ensures StrLt(x, y) {
          if y != m { StrLtTransitive(x, m, y); }
        }
        assert IsLeast(x, keys);
      }
    }
  }

  /** The least element of a set is unique. */
  lemma LeastUnique(keys: set<string>)
    ensures forall m1, m2 :: IsLeast(m1, keys) && IsLeast(m2, keys) ==> m1 == m2
  {
    forall m1, m2 | IsLeast(m1, keys) && IsLeast(m2, keys) ensures m1 == m2 {
      if m1 != m2 { StrLtAsymmetric(m1, m2); }
    }
  }

  predicate StrictlySorted(r: seq<string>) {
    forall i, j :: 0 <= i < j < |r| ==> StrLt(r[i], r[j])
  }

  /**
   * `Object.keys(m).sort()`: the keys in increasing order, each exactly once.
   * The result does not depend on insertion order, so a set is enough.
   */
  function SortedKeys(keys: set<string>): (r: seq<string>)
    ensures |r| == |keys|
    ensures forall x :: x in r <==> x in keys
    ensures StrictlySorted(r)
    decreases |keys|
  {
    if keys == {} then []
    else
      LeastExists(keys);
      LeastUnique(keys);
      var m :| IsLeast(m, keys);
      var rest := SortedKeys(keys - {m});
      assert forall i :: 0 <= i < |rest| ==> StrLt(m, rest[i]) by {
        forall i | 0 <= i < |rest| ensures StrLt(m, rest[i]) {
          assert rest[i] in keys - {m};
        }
      }
      [m] + rest
  }

  // ---------------------------------------------------------------------
  // Number formatting
  // ---------------------------------------------------------------------

  function DigitChar(d: nat): (c: char)
    requires d < 10
    ensures '0' <= c <= '9'
  {
    ['0', '1', '2', '3', '4', '5', '6', '7', '8', '9'][d]
  }

  function DigitValue(c: char): (d: nat)
    requires '0' <= c <= '9'
    ensures d < 10 && DigitChar(d) == c
  {
    if c == '0' then 0 else if c == '1' then 1 else if c == '2' then 2
    else if c == '3' then 3 else if c == '4' then 4 else if c == '5' then 5
    else if c == '6' then 6 else if c == '7' then 7 else if c == '8' then 8 else 9
  }

  predicate AllDigits(s: string) {
    forall i :: 0 <= i < |s| ==> '0' <= s[i] <= '9'
  }

  /** `n.toString()` for a natural number: shortest decimal form. */
  function NatToDecimal(n: nat): (r: string)
    ensures |r| >= 1 && AllDigits(r)
    ensures n < 10 <==> |r| == 1
    ensures r[|r| - 1] == DigitChar(n % 10)
    decreases n
  {
    if n < 10 then [DigitChar(n)] else NatToDecimal(n / 10) + [DigitChar(n % 10)]
  }

  /** `n.toString()` for an integer. */
  function IntToDecimal(n: int): string {
    if n < 0 then "-" + NatToDecimal(-n) else NatToDecimal(n)
  }

  /** The value of a string of decimal digits, read most significant first. */
  function DecimalValue(s: string): nat
    requires AllDigits(s)
  {
    if |s| == 0 then 0 else 10 * DecimalValue(s[..|s| - 1]) + DigitValue(s[|s| - 1])
  }

  /** Reading back the decimal form of `n` gives `n`. */
  lemma {:induction false} DecimalRoundTrip(n: nat)
    ensures DecimalValue(NatToDecimal(n)) == n
    decreases n
  {
    var r := NatToDecimal(n);
    if n >= 10 {
      DecimalRoundTrip(n / 10);
      assert r[..|r| - 1] == NatToDecimal(n / 10);
    }
  }

  function Pow10(k: nat): (p: nat)
    ensures p >= 1
  {
    if k == 0 then 1 else 10 * Pow10(k - 1)
  }

  /** Reading `a + b` is reading `a`, shifted by the width of `b`, plus reading `b`. */
  lemma {:induction false} DecimalConcat(a: string, b: string)
    requires AllDigits(a) && AllDigits(b)
    ensures AllDigits(a + b)
    ensures DecimalValue(a + b) == DecimalValue(a) * Pow10(|b|) + DecimalValue(b)
    decreases |b|
  {
    var ab := a + b;
    AllDigitsConcat(a, b);
    if |b| == 0 {
      assert ab == a;
    } else {
      var b' := b[..|b| - 1];
      assert ab[..|ab| - 1] == a + b';
      var c := b[|b| - 1];
      assert ab[|ab| - 1] == c;
      DecimalConcat(a, b');
      var x, p, y, d := DecimalValue(a), Pow10(|b'|), DecimalValue(b'), DigitValue(c);
      assert DecimalValue(ab) == 10 * DecimalValue(a + b') + d;
      assert DecimalValue(ab) == 10 * (x * p + y) + d;
      assert DecimalValue(b) == 10 * y + d;
      assert Pow10(|b|) == 10 * p;
      MulShift(x, p);
    }
  }

  lemma AllDigitsConcat(a: string, b: string)
    requires AllDigits(a) && AllDigits(b)
    ensures AllDigits(a + b)
  {
    var ab := a + b;
    forall i | 0 <= i < |ab| ensures '0' <= ab[i] <= '9' {
      if i < |a| { assert ab[i] == a[i]; } else { assert ab[i] == b[i - |a|]; }
    }
  }

  lemma AllDigitsSplit(s: string, k: nat)
    requires AllDigits(s) && k <= |s|
    ensures AllDigits(s[..k]) && AllDigits(s[k..]) && s == s[..k] + s[k..]
  {
    assert forall i :: 0 <= i < k ==> s[..k][i] == s[i];
    assert forall i :: 0 <= i < |s| - k ==> s[k..][i] == s[k + i];
  }

  lemma MulShift(x: int, p: int)
    ensures x * (10 * p) == 10 * (x * p)
  {
  }

  /** `k` digits read as a number below `10^k`. */
  lemma {:induction false} DecimalBound(s: string)
    requires AllDigits(s)
    ensures DecimalValue(s) < Pow10(|s|)
    decreases |s|
  {
    if |s| > 0 {
      DecimalBound(s[..|s| - 1]);
    }
  }

  /** Leading zeros do not change the value. */
  lemma LeadingZeros(z: string, s: string)
    requires forall i :: 0 <= i < |z| ==> z[i] == '0'
    requires AllDigits(s)
    ensures AllDigits(z + s) && DecimalValue(z + s) == DecimalValue(s)
  {
    ZerosValue(z);
    DecimalConcat(z, s);
  }

  lemma {:induction false} ZerosValue(z: string)
    requires forall i :: 0 <= i < |z| ==> z[i] == '0'
    ensures AllDigits(z) && DecimalValue(z) == 0
    decreases |z|
  {
    if |z| > 0 {
      ZerosValue(z[..|z| - 1]);
    }
  }

  /**
   * `('00' + n.toString()).substr(-3)`: three digits that read as `n`
   * modulo 1000, so `n` itself when `n < 1000`.
   */
  lemma LastThreeDigits(n: nat)
    ensures var t := LastChars("00" + NatToDecimal(n), 3);
      |t| == 3 && AllDigits(t) && DecimalValue(t) == n % 1000
  {
    PaddedValue("00" + NatToDecimal(n), n);
  }

  lemma PaddedValue(s: string, n: nat)
    requires |s| >= 3 && s[0] == '0' && s[1] == '0' && s[2..] == NatToDecimal(n)
    ensures var t := LastChars(s, 3);
      |t| == 3 && AllDigits(t) && DecimalValue(t) == n % 1000
  {
    assert s == s[..2] + s[2..];
    LeadingZeros(s[..2], s[2..]);
    DecimalRoundTrip(n);
    ThreeDigitsTail(s);
    assert LastChars(s, 3) == s[|s| - 3..];
  }

  /** The last three digits of a decimal text read as its value modulo 1000. */
  lemma ThreeDigitsTail(s: string)
    requires AllDigits(s) && |s| >= 3
    ensures AllDigits(s[|s| - 3..]) && DecimalValue(s[|s| - 3..]) == DecimalValue(s) % 1000
  {
    var k := |s| - 3;
    var pre, t := s[..k], s[k..];
    AllDigitsSplit(s, k);
    DecimalConcat(pre, t);
    DecimalBound(t);
    assert Pow10(3) == 1000;
    ModUnique(DecimalValue(s), DecimalValue(pre), DecimalValue(t));
  }

  lemma ModUnique(n: int, q: int, r: int)
    requires n == q * 1000 + r && 0 <= r < 1000
    ensures n % 1000 == r
  {
  }

  /** A decimal form never has a superfluous leading zero. */
  lemma {:induction false} DecimalNoLeadingZero(n: nat)
    ensures n >= 10 ==> NatToDecimal(n)[0] != '0'
    decreases n
  {
    if n >= 10 {
      DecimalNoLeadingZero(n / 10);
      if n / 10 < 10 {
        assert NatToDecimal(n / 10) == [DigitChar(n / 10)];
      }
    }
  }

  function HexDigit(d: nat): (c: char)
    requires d < 16
  {
    if d < 10 then ('0' as int + d) as char else ('A' as int + d - 10) as char
  }

  function HexDigitValue(c: char): int {
    if '0' <= c <= '9' then c as int - '0' as int
    else if 'A' <= c <= 'F' then c as int - 'A' as int + 10
    else -1
  }

  /**
   * `(n + 0x10000).toString(16).substr(-4).toUpperCase()` for a counter
   * below 0x10000: exactly four upper-case hexadecimal digits.
   */
  function Hex4(n: nat): (r: string)
    requires n < 0x10000
    ensures |r| == 4
  {
    [HexDigit(n / 16 / 16 / 16), HexDigit(n / 16 / 16 % 16), HexDigit(n / 16 % 16), HexDigit(n % 16)]
  }

  /** Every character of a signature is an upper-case hexadecimal digit. */
  lemma Hex4Digits(n: nat)
    requires n < 0x10000
    ensures forall i :: 0 <= i < 4 ==> Hex4(n)[i] in "0123456789ABCDEF"
  {
  }

  function Hex4Value(s: string): int
    requires |s| == 4
  {
    ((HexDigitValue(s[0]) * 16 + HexDigitValue(s[1])) * 16 + HexDigitValue(s[2])) * 16 + HexDigitValue(s[3])
  }

  lemma HexDigitRoundTrip(d: nat)
    requires d < 16
    ensures HexDigitValue(HexDigit(d)) == d
  {
  }

  /** A four-digit signature reads back as the counter it was made from. */
  lemma Hex4RoundTrip(n: nat)
    requires n < 0x10000
    ensures Hex4Value(Hex4(n)) == n
  {
    var q1 := n / 16;
    var q2 := q1 / 16;
    var q3 := q2 / 16;
    HexDigitRoundTrip(q3);
    HexDigitRoundTrip(q2 % 16);
    HexDigitRoundTrip(q1 % 16);
    HexDigitRoundTrip(n % 16);
    assert n == q1 * 16 + n % 16;
    assert q1 == q2 * 16 + q1 % 16;
    assert q2 == q3 * 16 + q2 % 16;
  }

  /** Distinct counters give distinct signatures. */
  lemma Hex4Injective(m: nat, n: nat)
    requires m < 0x10000 && n < 0x10000 && m != n
    ensures Hex4(m) != Hex4(n)
  {
    Hex4RoundTrip(m);
    Hex4RoundTrip(n);
  }
}
