/**
 * `convertValue`: the text of an LW3 property value turned into a typed
 * value. A text with a `;` becomes a list of its pieces (a trailing empty
 * piece dropped), a text that is a JavaScript numeric literal once trimmed
 * becomes a number, `true`/`false` in any letter case becomes a boolean, and
 * anything else stays a string.
 */
module Common {
  import opened Strings

  /**
   * A converted value. A number is kept as the trimmed literal it was read
   * from; `NumIsZero` tells whether it denotes zero.
   */
  datatype Value = Str(s: string) | Num(text: string) | Bool(b: bool) | List(items: seq<Value>)

  // ---------------------------------------------------------------------
  // String.prototype.trim
  // ---------------------------------------------------------------------

  /** The WhiteSpace and LineTerminator code points of ECMAScript, which `trim` removes. */
  predicate IsJsSpace(c: char) {
    c == '\t' || c == '\n' || c == '\U{000B}' || c == '\U{000C}' || c == '\r' || c == ' '
    || c == '\U{00A0}' || c == '\U{1680}' || ('\U{2000}' <= c <= '\U{200A}')
    || c == '\U{2028}' || c == '\U{2029}' || c == '\U{202F}' || c == '\U{205F}'
    || c == '\U{3000}' || c == '\U{FEFF}'
  }

  function TrimStart(s: string): (r: string)
    ensures |r| <= |s| && r == s[|s| - |r|..]
    ensures |r| > 0 ==> !IsJsSpace(r[0])
    ensures forall i :: 0 <= i < |s| - |r| ==> IsJsSpace(s[i])
  {
    if |s| > 0 && IsJsSpace(s[0]) then TrimStart(s[1..]) else s
  }

  function TrimEnd(s: string): (r: string)
    ensures |r| <= |s| && r == s[..|r|]
    ensures |r| > 0 ==> !IsJsSpace(r[|r| - 1])
    ensures forall i :: |r| <= i < |s| ==> IsJsSpace(s[i])
  {
    if |s| > 0 && IsJsSpace(s[|s| - 1]) then TrimEnd(s[..|s| - 1]) else s
  }

  /** `s.trim()`. */
  function Trim(s: string): string {
    TrimEnd(TrimStart(s))
  }

  // ---------------------------------------------------------------------
  // Number(s) accepts the text (the StringNumericLiteral grammar)
  // ---------------------------------------------------------------------

  predicate IsHexDigit(c: char) {
    '0' <= c <= '9' || 'a' <= c <= 'f' || 'A' <= c <= 'F'
  }

  predicate AllHexDigits(s: string) {
    forall i :: 0 <= i < |s| ==> IsHexDigit(s[i])
  }

  predicate AllBelow(s: string, top: char) {
    forall i :: 0 <= i < |s| ==> '0' <= s[i] <= top
  }

  /** Only `0` characters, and `.` where `point` allows it. */
  predicate AllZero(s: string, point: bool) {
    forall i :: 0 <= i < |s| ==> s[i] == '0' || (point && s[i] == '.')
  }

  /** `12`, `12.`, `12.5` or `.5`: digits around an optional point, at least one digit. */
  predicate IsMantissa(m: string) {
    var d := IndexOfChar(m, '.');
    if d < 0 then |m| > 0 && AllDigits(m)
    else AllDigits(m[..d]) && AllDigits(m[d + 1..]) && |m| > 1
  }

  /** The digits after `e`, with an optional sign. */
  predicate IsExponent(x: string) {
    if |x| > 0 && (x[0] == '+' || x[0] == '-') then |x| > 1 && AllDigits(x[1..])
    else |x| > 0 && AllDigits(x)
  }

  function IndexOfExponent(u: string): (i: int)
    ensures -1 <= i < |u|
    ensures i >= 0 ==> u[i] == 'e' || u[i] == 'E'
    ensures forall j :: 0 <= j < |u| && (i < 0 || j < i) ==> u[j] != 'e' && u[j] != 'E'
  {
    var a, b := IndexOfChar(u, 'e'), IndexOfChar(u, 'E');
    if a < 0 then b else if b < 0 then a else if a < b then a else b
  }

  predicate IsUnsignedDecimal(u: string) {
    u == "Infinity" ||
    var e := IndexOfExponent(u);
    if e < 0 then IsMantissa(u) else IsMantissa(u[..e]) && IsExponent(u[e + 1..])
  }

  /** `0x1F`, `0o17`, `0b101`: a prefixed integer, which takes no sign. */
  predicate IsNonDecimalInteger(t: string) {
    |t| >= 3 && t[0] == '0' &&
    (((t[1] == 'x' || t[1] == 'X') && AllHexDigits(t[2..]))
     || ((t[1] == 'o' || t[1] == 'O') && AllBelow(t[2..], '7'))
     || ((t[1] == 'b' || t[1] == 'B') && AllBelow(t[2..], '1')))
  }

  /** `!isNaN(Number(t))` for a non-empty trimmed text `t`. */
  predicate IsNumeric(t: string) {
    IsNonDecimalInteger(t)
    || (|t| > 0 && (t[0] == '+' || t[0] == '-') && IsUnsignedDecimal(t[1..]))
    || IsUnsignedDecimal(t)
  }

  /** The numeric literal `t` denotes zero: every digit of its significand is `0`. */
  predicate NumIsZero(t: string) {
    if IsNonDecimalInteger(t) then AllZero(t[2..], false)
    else
      var u := if |t| > 0 && (t[0] == '+' || t[0] == '-') then t[1..] else t;
      var e := IndexOfExponent(u);
      u != "Infinity" && AllZero(if e < 0 then u else u[..e], true)
  }

  // ---------------------------------------------------------------------
  // toUpperCase() === 'TRUE' / 'FALSE'
  // ---------------------------------------------------------------------

  /**
   * `c.toUpperCase()` is the single upper-case ASCII letter `u`: `c` is `u`,
   * its lower-case form, or, for `S`, the long s (U+017F). No other code
   * point upper-cases into these letters or into a pair of them.
   */
  predicate UpperIs(c: char, u: char) {
    c == u || c as int == u as int + 32 || (u == 'S' && c == '\U{017F}')
  }

  predicate UpperEquals(s: string, word: string) {
    |s| == |word| && forall i :: 0 <= i < |s| ==> UpperIs(s[i], word[i])
  }

  // ---------------------------------------------------------------------
  // convertValue
  // ---------------------------------------------------------------------

  /** The branches of `convertValue` for a text without `;`. */
  function ConvertScalar(v: string): (r: Value)
    ensures !r.List?
  {
    var t := Trim(v);
    if IsNumeric(t) && |t| > 0 then Num(t)
    else if UpperEquals(v, "FALSE") then Bool(false)
    else if UpperEquals(v, "TRUE") then Bool(true)
    else Str(v)
  }

  /** `value.split(';')` with one trailing empty piece popped. */
  function ListPieces(v: string): (r: seq<string>)
    ensures forall i :: 0 <= i < |r| ==> ';' !in r[i]
  {
    PopTrailingEmpty(SplitOn(v, ';'))
  }

  /** Pops the last piece when it is empty, as the list branch does once. */
  function PopTrailingEmpty(parts: seq<string>): seq<string>
    requires |parts| >= 1
  {
    if parts[|parts| - 1] == "" then parts[..|parts| - 1] else parts
  }

  /** `convertValue(value)`; the pieces of a list are converted by the scalar branches, since none holds a `;`. */
  function ConvertValue(v: string): Value {
    if ';' in v then
      List(ConvertAll(ListPieces(v)))
    else ConvertScalar(v)
  }

  /** The scalar conversion of each piece of a list, in order. */
  function ConvertAll(ps: seq<string>): (r: seq<Value>)
    ensures |r| == |ps|
    ensures forall i :: 0 <= i < |r| ==> !r[i].List?
  {
    if |ps| == 0 then [] else [ConvertScalar(ps[0])] + ConvertAll(ps[1..])
  }

  /** JavaScript truthiness of a converted value (an array is always truthy). */
  predicate Truthy(x: Value) {
    match x
    case Str(s) => s != ""
    case Num(t) => !NumIsZero(t)
    case Bool(b) => b
    case List(_) => true
  }

  // ---------------------------------------------------------------------
  // Properties
  // ---------------------------------------------------------------------

  /**
   * What each outcome of `convertValue` means. A number is the trimmed text
   * when that is numeric; a boolean needs the untrimmed text to spell
   * `true`/`false` and not be numeric; otherwise the text is kept as it is.
   */
  lemma ConvertScalarCases(v: string)
    requires ';' !in v
    ensures ConvertValue(v).Num? <==> |Trim(v)| > 0 && IsNumeric(Trim(v))
    ensures ConvertValue(v).Num? ==> ConvertValue(v).text == Trim(v)
    ensures ConvertValue(v) == Bool(false) <==> !ConvertValue(v).Num? && UpperEquals(v, "FALSE")
    ensures ConvertValue(v) == Bool(true) <==> !ConvertValue(v).Num? && UpperEquals(v, "TRUE")
    ensures ConvertValue(v).Str? ==> ConvertValue(v).s == v
  {
    if UpperEquals(v, "TRUE") {
      assert !UpperEquals(v, "FALSE");
    }
  }

  /** `value.split(';')` gives at least two pieces when there is a `;`; joined back they give `value`. */
  lemma ListPiecesJoin(v: string)
    requires ';' in v
    ensures |ListPieces(v)| >= 1
    ensures Join(ListPieces(v), ";") == v || Join(ListPieces(v) + [""], ";") == v
  {
    SplitOnPresent(v, ';');
    var parts, ps := SplitOn(v, ';'), ListPieces(v);
    assert Join(parts, ";") == v by { assert ";" == [';']; }
    if parts[|parts| - 1] == "" {
      assert ps + [""] == parts;
    } else {
      assert ps == parts;
    }
  }

  /**
   * A text with a `;` becomes a flat, non-empty list whose elements are the
   * conversions of the pieces of the text.
   */
  lemma ConvertList(v: string)
    requires ';' in v
    ensures ConvertValue(v).List?
    ensures |ConvertValue(v).items| == |ListPieces(v)| >= 1
    ensures forall i :: 0 <= i < |ListPieces(v)| ==>
      ConvertValue(v).items[i] == ConvertValue(ListPieces(v)[i]) && !ConvertValue(v).items[i].List?
  {
    ListPiecesJoin(v);
    var ps := ListPieces(v);
    forall i | 0 <= i < |ps|
      ensures ConvertAll(ps)[i] == ConvertValue(ps[i])
    {
      ConvertAllAt(ps, i);
    }
  }

  /** Element `i` of the converted list is the conversion of piece `i`. */
  lemma {:induction false} ConvertAllAt(ps: seq<string>, i: nat)
    requires i < |ps|
    ensures ConvertAll(ps)[i] == ConvertScalar(ps[i])
    decreases i
  {
    if i > 0 {
      ConvertAllAt(ps[1..], i - 1);
    }
  }

  /** A list is never nested. */
  lemma ConvertNeverNested(v: string)
    ensures ConvertValue(v).List? ==> forall i :: 0 <= i < |ConvertValue(v).items| ==> !ConvertValue(v).items[i].List?
  {
  }

  lemma OneIsNumber(t: string)
    requires t == "1"
    ensures ConvertScalar(t) == Num(t)
  {
    assert TrimEnd(t) == t;
    assert TrimStart(t) == t;
    assert IsUnsignedDecimal(t) by {
      assert IndexOfExponent(t) == -1;
      assert IndexOfChar(t, '.') == -1;
    }
  }

  /** `"1;"` is the one-element list `[1]`: the trailing empty piece is dropped. */
  lemma TrailingSeparatorExample(v: string)
    requires v == "1;"
    ensures ConvertValue(v) == List([Num("1")])
  {
    TrailingPieces(v);
    OnePiece(v, "1");
    OneIsNumber("1");
  }

  lemma TrailingPieces(v: string)
    requires v == "1;"
    ensures ';' in v && ListPieces(v) == ["1"]
  {
    assert v == "1" + [';'];
    SplitOnTrailing("1", ';');
  }

  /** A list of one piece converts to the one-element list of that piece's conversion. */
  lemma OnePiece(v: string, p: string)
    requires ';' in v && ListPieces(v) == [p]
    ensures ConvertValue(v) == List([ConvertScalar(p)])
  {
  }

  /** `";"` is `[""]`: only one of the two empty pieces is dropped. */
  lemma LoneSeparatorExample(v: string)
    requires v == ";"
    ensures ConvertValue(v) == List([Str("")])
  {
    assert v == "" + [';'];
    SplitOnTrailing("", ';');
    assert Trim("") == "";
  }

  /**
   * Two or more `;`-free pieces, the last one non-empty, joined with `;`
   * convert to the list of the pieces' conversions.
   */
  lemma JoinedPieces(ps: seq<string>)
    requires |ps| >= 2 && ps[|ps| - 1] != ""
    requires forall i :: 0 <= i < |ps| ==> ';' !in ps[i]
    ensures ';' in Join(ps, ";")
    ensures ListPieces(Join(ps, ";")) == ps
  {
    JoinHasSeparator(ps);
    assert ";" == [';'];
    SplitOnJoin(ps, ';');
  }

  lemma JoinHasSeparator(ps: seq<string>)
    requires |ps| >= 2
    ensures ';' in Join(ps, ";")
  {
    var v := Join(ps, ";");
    assert v == ps[0] + ";" + Join(ps[1..], ";");
    assert v[|ps[0]|] == ';';
  }

  lemma ConvertJoined(ps: seq<string>)
    requires |ps| >= 2 && ps[|ps| - 1] != ""
    requires forall i :: 0 <= i < |ps| ==> ';' !in ps[i]
    ensures ConvertValue(Join(ps, ";")) == List(ConvertAll(ps))
  {
    JoinedPieces(ps);
  }

  lemma TrueIsBool(t: string)
    requires t == "true"
    ensures ConvertScalar(t) == Bool(true)
  {
    TrueParts(t);
  }

  lemma FalseIsBool(t: string)
    requires t == "false"
    ensures ConvertScalar(t) == Bool(false)
  {
    FalseParts(t);
  }

  /** `true` has no blanks to trim, is not numeric, and upper-cases to `TRUE` only. */
  lemma TrueParts(t: string)
    requires t == "true"
    ensures Trim(t) == t && !IsNumeric(t)
    ensures !UpperEquals(t, "FALSE") && UpperEquals(t, "TRUE")
  {
    NoBlanksToTrim(t);
    TrueNotNumeric(t);
    assert !UpperEquals(t, "FALSE");
    TrueUpper(t);
  }

  /** `false` has no blanks to trim, is not numeric, and upper-cases to `FALSE`. */
  lemma FalseParts(t: string)
    requires t == "false"
    ensures Trim(t) == t && !IsNumeric(t) && UpperEquals(t, "FALSE")
  {
    NoBlanksToTrim(t);
    FalseNotNumeric(t);
    FalseUpper(t);
  }

  lemma NoBlanksToTrim(t: string)
    requires |t| > 0 && !IsJsSpace(t[0]) && !IsJsSpace(t[|t| - 1])
    ensures Trim(t) == t
  {
    assert TrimStart(t) == t;
    assert TrimEnd(t) == t;
  }

  lemma TrueNotNumeric(t: string)
    requires t == "true"
    ensures !IsNumeric(t)
  {
    assert IndexOfExponent(t) == 3 by {
      assert IndexOfChar(t, 'e') == 3;
      assert IndexOfChar(t, 'E') == -1;
    }
    assert IndexOfChar(t[..3], '.') == -1;
    assert !IsMantissa(t[..3]);
  }

  lemma FalseNotNumeric(t: string)
    requires t == "false"
    ensures !IsNumeric(t)
  {
    assert IndexOfExponent(t) == 4 by {
      assert IndexOfChar(t, 'e') == 4;
      assert IndexOfChar(t, 'E') == -1;
    }
    assert IndexOfChar(t[..4], '.') == -1;
    assert !IsMantissa(t[..4]);
  }

  lemma TrueUpper(t: string)
    requires t == "true"
    ensures UpperEquals(t, "TRUE")
  {
  }

  lemma FalseUpper(t: string)
    requires t == "false"
    ensures UpperEquals(t, "FALSE")
  {
  }

  lemma NumericIsNumber(v: string)
    requires |Trim(v)| > 0 && IsNumeric(Trim(v))
    ensures ConvertScalar(v) == Num(Trim(v))
  {
  }

  lemma DigitTrimmed(t: string)
    requires |t| == 1 && '0' <= t[0] <= '9'
    ensures Trim(t) == t
  {
    assert TrimStart(t) == t;
    assert TrimEnd(t) == t;
  }

  lemma DigitIsNumeric(t: string)
    requires |t| == 1 && '0' <= t[0] <= '9'
    ensures IsNumeric(t)
  {
    assert IndexOfExponent(t) == -1;
    assert IndexOfChar(t, '.') == -1;
    assert IsMantissa(t);
  }

  lemma DigitIsNumber(t: string)
    requires |t| == 1 && '0' <= t[0] <= '9'
    ensures ConvertScalar(t) == Num(t)
  {
    DigitTrimmed(t);
    DigitIsNumeric(t);
    NumericIsNumber(t);
  }

  lemma LetterOIsString(t: string)
    requires t == "O1"
    ensures ConvertScalar(t) == Str(t)
  {
    assert Trim(t) == t by {
      assert TrimStart(t) == t;
      assert TrimEnd(t) == t;
    }
    assert !IsNumeric(t) by {
      assert IndexOfExponent(t) == -1;
      assert IndexOfChar(t, '.') == -1;
      assert !IsMantissa(t);
    }
    assert !UpperEquals(t, "FALSE") && !UpperEquals(t, "TRUE");
  }

  /** `true;false;1;2;3;O1` is the list `[true, false, 1, 2, 3, "O1"]`. */
  lemma MixedListExample(t: string, f: string, one: string, two: string, three: string, o: string)
    requires t == "true" && f == "false" && one == "1" && two == "2" && three == "3" && o == "O1"
    ensures ConvertValue(t + ";" + (f + ";" + (one + ";" + (two + ";" + (three + ";" + o)))))
      == List([Bool(true), Bool(false), Num(one), Num(two), Num(three), Str(o)])
  {
    SixPieces(t, f, one, two, three, o);
    TrueIsBool(t);
    FalseIsBool(f);
    DigitIsNumber(one);
    DigitIsNumber(two);
    DigitIsNumber(three);
    LetterOIsString(o);
  }

  /** Six `;`-free pieces, the last one non-empty, joined with `;` convert piece by piece. */
  lemma SixPieces(a: string, b: string, c: string, d: string, e: string, g: string)
    requires ';' !in a && ';' !in b && ';' !in c && ';' !in d && ';' !in e && ';' !in g && g != ""
    ensures ConvertValue(a + ";" + (b + ";" + (c + ";" + (d + ";" + (e + ";" + g)))))
      == List([ConvertScalar(a), ConvertScalar(b), ConvertScalar(c), ConvertScalar(d), ConvertScalar(e), ConvertScalar(g)])
  {
    SixInFront(ConvertScalar(a), ConvertScalar(b), ConvertScalar(c), ConvertScalar(d), ConvertScalar(e), ConvertScalar(g));
    var r4 := e + ";" + g;
    ConvertPair(e, g);
    var r3 := d + ";" + r4;
    ConvertCons(d, r4, [ConvertScalar(e), ConvertScalar(g)]);
    var r2 := c + ";" + r3;
    ConvertCons(c, r3, [ConvertScalar(d)] + [ConvertScalar(e), ConvertScalar(g)]);
    var r1 := b + ";" + r2;
    ConvertCons(b, r2, [ConvertScalar(c)] + ([ConvertScalar(d)] + [ConvertScalar(e), ConvertScalar(g)]));
    ConvertCons(a, r1, [ConvertScalar(b)] + ([ConvertScalar(c)] + ([ConvertScalar(d)] + [ConvertScalar(e), ConvertScalar(g)])));
  }

  lemma SixInFront(a: Value, b: Value, c: Value, d: Value, e: Value, g: Value)
    ensures [a] + ([b] + ([c] + ([d] + [e, g]))) == [a, b, c, d, e, g]
  {
  }

  /** Two `;`-free pieces, the second one non-empty, make a two-element list. */
  lemma ConvertPair(a: string, b: string)
    requires ';' !in a && ';' !in b && b != ""
    ensures ';' in a + ";" + b
    ensures ConvertValue(a + ";" + b) == List([ConvertScalar(a), ConvertScalar(b)])
  {
    PiecesPair(a, b);
    ConvertTwo(a, b);
  }

  lemma ConvertTwo(a: string, b: string)
    ensures ConvertAll([a, b]) == [ConvertScalar(a), ConvertScalar(b)]
  {
    ConvertAllCons(a, [b]);
    ConvertAllCons(b, []);
    assert [a] + [b] == [a, b];
  }

  /** `a;b` has the two pieces `a` and `b`. */
  lemma PiecesPair(a: string, b: string)
    requires ';' !in a && ';' !in b && b != ""
    ensures ';' in a + ";" + b
    ensures ListPieces(a + ";" + b) == [a, b]
  {
    var s := a + ";" + b;
    assert s == a + [';'] + b && s[|a|] == ';';
    SplitOnCons(a, b, ';');
    SplitOnAbsent(b, ';');
  }

  /** A `;`-free piece in front of a list adds its conversion in front of the list's elements. */
  lemma ConvertCons(p: string, rest: string, vs: seq<Value>)
    requires ';' !in p && ';' in rest && ConvertValue(rest) == List(vs)
    ensures ';' in p + ";" + rest
    ensures ConvertValue(p + ";" + rest) == List([ConvertScalar(p)] + vs)
  {
    PiecesCons(p, rest);
    ConvertAllCons(p, ListPieces(rest));
  }

  /** Converting `[p] + ps` puts the conversion of `p` in front of that of `ps`. */
  lemma ConvertAllCons(p: string, ps: seq<string>)
    ensures ConvertAll([p] + ps) == [ConvertScalar(p)] + ConvertAll(ps)
  {
    assert ([p] + ps)[1..] == ps;
  }

  /** The pieces of `p;rest` are `p` followed by the pieces of `rest`. */
  lemma PiecesCons(p: string, rest: string)
    requires ';' !in p && ';' in rest
    ensures ';' in p + ";" + rest
    ensures ListPieces(p + ";" + rest) == [p] + ListPieces(rest)
  {
    SplitCons(p, rest);
    PopCons(p, SplitOn(rest, ';'));
  }

  /** `p;rest` splits into `p` followed by the pieces of `rest`, of which there are at least two. */
  lemma SplitCons(p: string, rest: string)
    requires ';' !in p && ';' in rest
    ensures ';' in p + ";" + rest
    ensures SplitOn(p + ";" + rest, ';') == [p] + SplitOn(rest, ';') && |SplitOn(rest, ';')| >= 2
  {
    var s := p + ";" + rest;
    assert s == p + [';'] + rest && s[|p|] == ';';
    SplitOnCons(p, rest, ';');
    SplitOnPresent(rest, ';');
  }

  /** Dropping a trailing empty piece commutes with putting a piece in front. */
  lemma PopCons(p: string, parts: seq<string>)
    requires |parts| >= 1
    ensures PopTrailingEmpty([p] + parts) == [p] + PopTrailingEmpty(parts)
  {
    var w := [p] + parts;
    assert w[|w| - 1] == parts[|parts| - 1];
    if parts[|parts| - 1] == "" {
      assert w[..|w| - 1] == [p] + parts[..|parts| - 1];
    }
  }

  /** Once each piece's conversion is known, the joined list converts to exactly those values. */
  lemma ConvertJoinedAs(ps: seq<string>, vs: seq<Value>)
    requires |ps| >= 2 && ps[|ps| - 1] != ""
    requires forall i :: 0 <= i < |ps| ==> ';' !in ps[i]
    requires |vs| == |ps| && forall i :: 0 <= i < |ps| ==> ConvertScalar(ps[i]) == vs[i]
    ensures ConvertValue(Join(ps, ";")) == List(vs)
  {
    ConvertJoined(ps);
    ConvertAllIs(ps, vs);
  }

  /** The conversion of the pieces is any list that agrees with it element by element. */
  lemma ConvertAllIs(ps: seq<string>, vs: seq<Value>)
    requires |vs| == |ps| && forall i :: 0 <= i < |ps| ==> ConvertScalar(ps[i]) == vs[i]
    ensures ConvertAll(ps) == vs
  {
    forall i | 0 <= i < |ps|
      ensures ConvertAll(ps)[i] == vs[i]
    {
      ConvertAllAt(ps, i);
    }
  }
}
