/**
 * The JavaScript string and number built-ins the timesheet code relies on:
 * the `\s` character class, `Number` and `parseInt` on digit strings,
 * `String(n)`, `toFixed(2)`, `parseFloat` on what `toFixed(2)` writes, and
 * `replace(/\s+/g, '_')`.
 */
module JsText {
  import opened Wrappers

  /** A character that `\s` matches and `parseInt` skips: WhiteSpace or LineTerminator. */
  predicate IsWhitespace(c: char) {
    || c == '\t' || c == '\n' || c == '\U{B}' || c == '\U{C}' || c == '\r'
    || c == ' ' || c == '\U{A0}' || c == '\U{1680}' || ('\U{2000}' <= c <= '\U{200A}')
    || c == '\U{2028}' || c == '\U{2029}' || c == '\U{202F}' || c == '\U{205F}'
    || c == '\U{3000}' || c == '\U{FEFF}'
  }

  predicate AllWhitespace(s: string) {
    forall i :: 0 <= i < |s| ==> IsWhitespace(s[i])
  }

  predicate NoWhitespace(s: string) {
    forall i :: 0 <= i < |s| ==> !IsWhitespace(s[i])
  }

  /** The radixes `parseInt` uses when it is given no radix argument. */
  type Radix = r: nat | r == 10 || r == 16 witness 10

  predicate IsDigitOf(c: char, radix: Radix) {
    || ('0' <= c <= '9')
    || (radix == 16 && (('a' <= c <= 'f') || ('A' <= c <= 'F')))
  }

  function DigitValue(c: char, radix: Radix): (d: nat)
    requires IsDigitOf(c, radix)
    ensures d < radix
  {
    if '0' <= c <= '9' then c as int - '0' as int
    else if 'a' <= c <= 'f' then c as int - 'a' as int + 10
    else c as int - 'A' as int + 10
  }

  predicate AllDigits(s: string, radix: Radix) {
    forall i :: 0 <= i < |s| ==> IsDigitOf(s[i], radix)
  }

  /** The value of a string of digits, most significant digit first. */
  function DigitsValue(s: string, radix: Radix): nat
    requires AllDigits(s, radix)
  {
    if s == [] then 0
    else DigitsValue(s[..|s| - 1], radix) * radix + DigitValue(s[|s| - 1], radix)
  }

  function DigitChar(d: nat): (c: char)
    requires d < 10
    ensures IsDigitOf(c, 10) && DigitValue(c, 10) == d
  {
    ('0' as int + d) as char
  }

  /** `String(n)` for a non-negative integer: its decimal digits, with no leading zero. */
  function NatText(n: nat): (s: string)
    ensures |s| >= 1 && AllDigits(s, 10) && DigitsValue(s, 10) == n
    ensures (s[0] == '0') == (n == 0)
  {
    if n < 10 then [DigitChar(n)]
    else
      var prefix := NatText(n / 10);
      var s := prefix + [DigitChar(n % 10)];
      assert s[..|s| - 1] == prefix;
      s
  }

  /** The string without its leading whitespace, as `parseInt` and `\s+` consume it. */
  function TrimStart(s: string): (r: string)
    ensures |r| <= |s|
    ensures r == [] || !IsWhitespace(r[0])
    ensures s != [] && IsWhitespace(s[0]) ==> |r| < |s|
  {
    if s != [] && IsWhitespace(s[0]) then TrimStart(s[1..]) else s
  }

  /**
   * TrimStart removes exactly the leading whitespace: what it drops is all
   * whitespace, and what it keeps is the rest of s, starting at a character
   * that is not whitespace.
   */
  lemma {:induction false} TrimStartDropsWhitespacePrefix(s: string)
    ensures var r := TrimStart(s);
      && r == s[|s| - |r|..] && AllWhitespace(s[..|s| - |r|])
      && (r == [] || !IsWhitespace(r[0]))
  {
    if s != [] && IsWhitespace(s[0]) {
      var r := TrimStart(s[1..]);
      TrimStartDropsWhitespacePrefix(s[1..]);
      assert s[1..][|s| - 1 - |r|..] == s[|s| - |r|..];
      var p := s[..|s| - |r|];
      assert p == [s[0]] + s[1..][..|s| - 1 - |r|];
      assert forall i :: 0 < i < |p| ==> p[i] == s[1..][..|s| - 1 - |r|][i - 1];
    }
  }

  /** The number of leading characters of s that are digits in the radix. */
  function DigitRun(s: string, radix: Radix): (k: nat)
    ensures k <= |s| && AllDigits(s[..k], radix)
    ensures k < |s| ==> !IsDigitOf(s[k], radix)
  {
    if s != [] && IsDigitOf(s[0], radix) then
      var k := 1 + DigitRun(s[1..], radix);
      assert s[..k] == [s[0]] + s[1..][..k - 1];
      k
    else 0
  }

  /**
   * `parseInt` on the text after the sign: a "0x"/"0X" prefix selects radix
   * 16, otherwise radix 10, and the longest run of digits that follows is the
   * value; None (NaN) when that run is empty.
   */
  function ParseUnsigned(u: string): (r: Option<nat>)
  {
    var hex := |u| >= 2 && u[0] == '0' && (u[1] == 'x' || u[1] == 'X');
    var radix: Radix := if hex then 16 else 10;
    var digits := if hex then u[2..] else u;
    var k := DigitRun(digits, radix);
    if k == 0 then None else Some(DigitsValue(digits[..k], radix))
  }

  /**
   * `parseInt(s)` with no radix argument; None stands for NaN. Leading
   * whitespace is skipped and one '+' or '-' sign is read.
   */
  function ParseInt(s: string): (r: Option<int>)
    ensures TrimStart(s) == [] ==> r == None
    ensures TrimStart(s) != [] && '1' <= TrimStart(s)[0] <= '9' ==> r.Some? && r.value >= 0
  {
    var t := TrimStart(s);
    if t != [] && (t[0] == '-' || t[0] == '+') then
      match ParseUnsigned(t[1..])
      case None => None
      case Some(v) =>
        var signed: int := if t[0] == '-' then -(v as int) else v;
        Some(signed)
    else
      match ParseUnsigned(t)
      case None => None
      case Some(v) => Some(v)
  }

  lemma {:induction false} DigitRunOfDigits(s: string, rest: string, radix: Radix)
    requires AllDigits(s, radix)
    requires rest == [] || !IsDigitOf(rest[0], radix)
    ensures DigitRun(s + rest, radix) == |s|
  {
    if s != [] {
      assert (s + rest)[1..] == s[1..] + rest;
      DigitRunOfDigits(s[1..], rest, radix);
    }
  }

  lemma ParseUnsignedOfNatText(n: nat, rest: string)
    requires rest == [] || !IsDigitOf(rest[0], 10)
    requires n == 0 ==> rest == [] || (rest[0] != 'x' && rest[0] != 'X')
    ensures ParseUnsigned(NatText(n) + rest) == Some(n)
  {
    var s := NatText(n);
    var u := s + rest;
    assert u[0] == s[0];
    assert |u| >= 2 && u[0] == '0' ==> u[1] == rest[0];
    DigitRunOfDigits(s, rest, 10);
    assert u[..|s|] == s;
  }

  lemma TrimStartAtNonWhitespace(s: string)
    requires s != [] && !IsWhitespace(s[0])
    ensures TrimStart(s) == s
  {
  }

  lemma ParseIntUnsigned(u: string)
    requires u != [] && !IsWhitespace(u[0]) && u[0] != '-' && u[0] != '+'
    ensures ParseInt(u) == match ParseUnsigned(u) case None => None case Some(v) => Some(v)
  {
    TrimStartAtNonWhitespace(u);
  }

  lemma ParseIntNegative(u: string)
    ensures ParseUnsigned(u).Some? ==> ParseInt("-" + u) == Some(-(ParseUnsigned(u).value as int))
  {
    var m := "-" + u;
    TrimStartAtNonWhitespace(m);
    assert m[1..] == u;
  }

  lemma NatTextStartsWithDigit(n: nat)
    ensures NatText(n) != [] && IsDigitOf(NatText(n)[0], 10)
  {
  }

  /**
   * `parseInt` reads back the decimal text of a number followed by anything
   * that is not a digit, as long as the text cannot be taken for a "0x" prefix.
   */
  lemma ParseIntOfNatText(n: nat, rest: string)
    requires rest == [] || !IsDigitOf(rest[0], 10)
    requires n == 0 ==> rest == [] || (rest[0] != 'x' && rest[0] != 'X')
    ensures ParseInt(NatText(n) + rest) == Some(n)
  {
    var u := NatText(n) + rest;
    ParseUnsignedOfNatText(n, rest);
    NatTextStartsWithDigit(n);
    ParseIntUnsigned(u);
  }

  /** The same with a minus sign in front: a negative number is read. */
  lemma ParseIntOfNegatedNatText(n: nat, rest: string)
    requires rest == [] || !IsDigitOf(rest[0], 10)
    requires n == 0 ==> rest == [] || (rest[0] != 'x' && rest[0] != 'X')
    ensures ParseInt("-" + (NatText(n) + rest)) == Some(-(n as int))
  {
    ParseUnsignedOfNatText(n, rest);
    ParseIntNegative(NatText(n) + rest);
  }

  /** A "0x" prefix makes `parseInt` read hexadecimal digits. */
  lemma ParseIntHexExample()
    ensures ParseInt("0x1e") == Some(30)
  {
    assert DigitsValue("1e", 16) == 30 by {
      assert "1e"[..1] == "1";
      assert "1"[..0] == "";
    }
    assert DigitRun("1e", 16) == 2 by {
      assert "1e"[1..] == "e";
      assert "e"[1..] == "";
    }
    assert "1e"[..2] == "1e";
    assert ParseUnsigned("0x1e") == Some(30) by {
      assert "0x1e"[2..] == "1e";
    }
    ParseIntUnsigned("0x1e");
  }

  /** Leading whitespace does not change what `parseInt` reads. */
  lemma ParseIntSkipsWhitespace(s: string)
    requires s != [] && IsWhitespace(s[0])
    ensures ParseInt(s) == ParseInt(s[1..])
  {
    assert TrimStart(s) == TrimStart(s[1..]);
  }

  /** Leading whitespace is skipped and text after the digits is ignored. */
  lemma ParseIntTextExample()
    ensures ParseInt(" 45 min") == Some(45)
  {
    assert ParseInt("45 min") == Some(45) by {
      assert NatText(45) == "45";
      ParseIntOfNatText(45, " min");
      assert "45" + " min" == "45 min";
    }
    ParseIntSkipsWhitespace(" 45 min");
    assert " 45 min"[1..] == "45 min";
  }

  /** A string with no leading digit is NaN. */
  lemma ParseIntNaNExample()
    ensures ParseInt("abc") == None
  {
    TrimStartAtNonWhitespace("abc");
  }

  /** The hundredths of a non-negative amount, written as `toFixed(2)` writes them. */
  function UnsignedFixed2(n: nat): (s: string)
    ensures |s| >= 4 && s[|s| - 3] == '.' && s[0] != '-'
    ensures s[..|s| - 3] == NatText(n / 100)
    ensures AllDigits(s[..|s| - 3], 10) && AllDigits(s[|s| - 2..], 10)
    ensures DigitsValue(s[..|s| - 3], 10) * 100 + DigitsValue(s[|s| - 2..], 10) == n
  {
    var whole := NatText(n / 100);
    var r := n % 100;
    var frac := [DigitChar(r / 10), DigitChar(r % 10)];
    var s := whole + "." + frac;
    assert s[..|s| - 3] == whole;
    assert s[|s| - 2..] == frac;
    assert frac[..1] == [DigitChar(r / 10)];
    assert DigitsValue(frac[..1], 10) == r / 10 by {
      assert frac[..1][..0] == [];
    }
    assert DigitsValue(frac, 10) == (r / 10) * 10 + r % 10;
    s
  }

  /** `(n / 100).toFixed(2)` for an integer number n of hundredths. */
  function Fixed2Text(n: int): (s: string)
    ensures |s| >= 4 && s[|s| - 3] == '.'
    ensures s[0] == '-' <==> n < 0
  {
    if n < 0 then "-" + UnsignedFixed2(-n) else UnsignedFixed2(n)
  }

  /** "[-]digits.dd": the shape of what `toFixed(2)` writes. */
  predicate IsFixed2Unsigned(u: string) {
    |u| >= 4 && u[|u| - 3] == '.' && AllDigits(u[..|u| - 3], 10) && AllDigits(u[|u| - 2..], 10)
  }

  /** The hundredths "digits.dd" denotes. */
  function UnsignedValue(u: string): nat
    requires IsFixed2Unsigned(u)
  {
    DigitsValue(u[..|u| - 3], 10) * 100 + DigitsValue(u[|u| - 2..], 10)
  }

  /**
   * The number `parseFloat` reads from a string in the form `toFixed(2)`
   * writes, in hundredths; None for any other string.
   */
  function Fixed2Value(s: string): (r: Option<int>)
    ensures r.Some? ==> |s| >= 4 && s[|s| - 3] == '.'
    ensures r.Some? && r.value < 0 ==> s[0] == '-'
  {
    if |s| > 0 && s[0] == '-' then
      var u := s[1..];
      if IsFixed2Unsigned(u) then Some(-(UnsignedValue(u) as int)) else None
    else if IsFixed2Unsigned(s) then Some(UnsignedValue(s))
    else None
  }

  lemma Fixed2ValueOfNegated(u: string)
    requires IsFixed2Unsigned(u)
    ensures Fixed2Value("-" + u) == Some(-(UnsignedValue(u) as int))
  {
    assert ("-" + u)[1..] == u;
  }

  /** `parseFloat(x.toFixed(2))` gives back x when x is a whole number of hundredths. */
  lemma Fixed2RoundTrip(n: int)
    ensures Fixed2Value(Fixed2Text(n)) == Some(n)
  {
    var u := UnsignedFixed2(if n < 0 then -n else n);
    assert IsFixed2Unsigned(u) && UnsignedValue(u) == if n < 0 then -n else n;
    if n < 0 {
      Fixed2ValueOfNegated(u);
    }
  }

  /**
   * The hundredths `x.toFixed(2)` keeps for x >= 0: the integer nearest to
   * 100x, the larger one on a tie.
   */
  function RoundHundredths(x: real): (n: nat)
    requires x >= 0.0
    ensures (n as real) - 0.5 <= 100.0 * x < (n as real) + 0.5
  {
    (100.0 * x + 0.5).Floor
  }

  /**
   * `s.replace(/\s+/g, '_')`: each maximal run of whitespace becomes a single
   * underscore and every other character is kept.
   */
  function ReplaceWhitespaceRuns(s: string): (r: string)
    ensures NoWhitespace(r)
    ensures |r| <= |s|
    ensures r == [] <==> s == []
    decreases |s|
  {
    if s == [] then []
    else if IsWhitespace(s[0]) then
      var rest := ReplaceWhitespaceRuns(TrimStart(s));
      assert forall i :: 0 < i < |rest| + 1 ==> ("_" + rest)[i] == rest[i - 1];
      "_" + rest
    else
      var rest := ReplaceWhitespaceRuns(s[1..]);
      assert forall i :: 0 < i < |rest| + 1 ==> ([s[0]] + rest)[i] == rest[i - 1];
      [s[0]] + rest
  }

  /** The characters of s that are neither whitespace nor '_', in order. */
  function Visible(s: string): string
  {
    if s == [] then []
    else if IsWhitespace(s[0]) || s[0] == '_' then Visible(s[1..])
    else [s[0]] + Visible(s[1..])
  }

  lemma {:induction false} VisibleOfWhitespacePrefix(s: string)
    ensures Visible(TrimStart(s)) == Visible(s)
  {
    if s != [] && IsWhitespace(s[0]) {
      VisibleOfWhitespacePrefix(s[1..]);
    }
  }

  /** Replacing whitespace runs loses no character other than whitespace. */
  lemma {:induction false} ReplaceKeepsVisible(s: string)
    ensures Visible(ReplaceWhitespaceRuns(s)) == Visible(s)
    decreases |s|
  {
    if s != [] {
      if IsWhitespace(s[0]) {
        var r := ReplaceWhitespaceRuns(TrimStart(s));
        ReplaceKeepsVisible(TrimStart(s));
        VisibleOfWhitespacePrefix(s);
        assert ("_" + r)[1..] == r;
      } else {
        ReplaceKeepsVisible(s[1..]);
        assert ([s[0]] + ReplaceWhitespaceRuns(s[1..]))[1..] == ReplaceWhitespaceRuns(s[1..]);
      }
    }
  }

  /** A string without whitespace is left as it is, so replacing twice is replacing once. */
  lemma {:induction false} ReplaceWithoutWhitespace(s: string)
    requires NoWhitespace(s)
    ensures ReplaceWhitespaceRuns(s) == s
  {
    if s != [] {
      ReplaceWithoutWhitespace(s[1..]);
    }
  }

  lemma {:induction false} TrimAllWhitespace(s: string)
    requires AllWhitespace(s)
    ensures TrimStart(s) == []
  {
    if s != [] {
      TrimAllWhitespace(s[1..]);
    }
  }

  /** Leading whitespace up to a character that is not whitespace is what TrimStart drops. */
  lemma {:induction false} TrimWhitespaceThen(w: string, b: string)
    requires AllWhitespace(w)
    requires b == [] || !IsWhitespace(b[0])
    ensures TrimStart(w + b) == b
  {
    if w != [] {
      assert (w + b)[1..] == w[1..] + b;
      TrimWhitespaceThen(w[1..], b);
    } else {
      assert w + b == b;
    }
  }

  /** Text ending in a character that is not whitespace is not consumed past its end. */
  lemma {:induction false} TrimStartOfConcat(a: string, rest: string)
    requires a != [] && !IsWhitespace(a[|a| - 1])
    ensures TrimStart(a + rest) == TrimStart(a) + rest
  {
    if IsWhitespace(a[0]) {
      assert (a + rest)[1..] == a[1..] + rest;
      TrimStartOfConcat(a[1..], rest);
    }
  }

  lemma Regroup(x: string, y: string, z: string)
    ensures x + (y + z) == x + y + z
  {
  }

  lemma Regroup4(x: string, y: string, z: string, u: string)
    ensures x + (y + z + u) == (x + y) + z + u
  {
  }

  lemma ReplaceAtWhitespace(s: string)
    requires s != [] && IsWhitespace(s[0])
    ensures ReplaceWhitespaceRuns(s) == "_" + ReplaceWhitespaceRuns(TrimStart(s))
  {
  }

  lemma ConsRegroup(c: char, x: string, y: string, z: string)
    ensures [c] + x + y + z == [c] + (x + y + z)
  {
  }

  lemma ReplaceCons(c: char, rest: string)
    requires !IsWhitespace(c)
    ensures ReplaceWhitespaceRuns([c] + rest) == [c] + ReplaceWhitespaceRuns(rest)
  {
    assert ([c] + rest)[1..] == rest;
  }

  /**
   * One whitespace run between two pieces of text becomes exactly one '_',
   * and each piece is replaced on its own.
   */
  lemma {:induction false} ReplaceRunBetween(a: string, w: string, b: string)
    requires a == [] || !IsWhitespace(a[|a| - 1])
    requires w != [] && AllWhitespace(w)
    requires b == [] || !IsWhitespace(b[0])
    ensures ReplaceWhitespaceRuns(a + w + b) == ReplaceWhitespaceRuns(a) + "_" + ReplaceWhitespaceRuns(b)
    decreases |a|
  {
    if a == [] {
      TrimWhitespaceThen(w, b);
      ReplaceAtWhitespace(w + b);
      assert a + w + b == w + b;
    } else if IsWhitespace(a[0]) {
      var t := TrimStart(a);
      TrimStartDropsWhitespacePrefix(a);
      assert t != [] && t[|t| - 1] == a[|a| - 1];
      ReplaceRunBetween(t, w, b);
      ReplaceRunAfterWhitespace(a, t, w, b);
    } else {
      ReplaceRunBetween(a[1..], w, b);
      ReplaceRunAfterOther(a, w, b);
    }
  }

  /** The step of ReplaceRunBetween for text that starts with whitespace. */
  lemma ReplaceRunAfterWhitespace(a: string, t: string, w: string, b: string)
    requires a != [] && IsWhitespace(a[0]) && !IsWhitespace(a[|a| - 1]) && t == TrimStart(a)
    requires ReplaceWhitespaceRuns(t + w + b) == ReplaceWhitespaceRuns(t) + "_" + ReplaceWhitespaceRuns(b)
    ensures ReplaceWhitespaceRuns(a + w + b) == ReplaceWhitespaceRuns(a) + "_" + ReplaceWhitespaceRuns(b)
  {
    TrimStartOfConcat(a, w + b);
    Regroup(a, w, b);
    Regroup(t, w, b);
    ReplaceAtWhitespace(a + w + b);
    ReplaceAtWhitespace(a);
    Regroup4("_", ReplaceWhitespaceRuns(t), "_", ReplaceWhitespaceRuns(b));
  }

  /** The step of ReplaceRunBetween for text that starts with another character. */
  lemma ReplaceRunAfterOther(a: string, w: string, b: string)
    requires a != [] && !IsWhitespace(a[0])
    requires ReplaceWhitespaceRuns(a[1..] + w + b) == ReplaceWhitespaceRuns(a[1..]) + "_" + ReplaceWhitespaceRuns(b)
    ensures ReplaceWhitespaceRuns(a + w + b) == ReplaceWhitespaceRuns(a) + "_" + ReplaceWhitespaceRuns(b)
  {
    var c, a' := a[0], a[1..];
    assert a == [c] + a';
    ConsRegroup(c, a', w, b);
    ReplaceCons(c, a' + w + b);
    ReplaceCons(c, a');
    Regroup4([c], ReplaceWhitespaceRuns(a'), "_", ReplaceWhitespaceRuns(b));
  }

  /** A non-empty string made only of whitespace becomes a single underscore. */
  lemma ReplaceAllWhitespace(s: string)
    requires s != [] && AllWhitespace(s)
    ensures ReplaceWhitespaceRuns(s) == "_"
  {
    TrimAllWhitespace(s);
  }
}
