/**
 * Python's `int(s)` applied to a `str`, in base 10: surrounding whitespace
 * (see `IsSpace`) is ignored, an optional `+` or `-` sign may lead, and the digits may be grouped
 * by single underscores that stand between two digits. Anything else is a
 * `ValueError`, modelled as `None`.
 */
module PyInt {
  import opened Wrappers

  /**
   * The characters `int()` strips from both ends: ASCII tab, line feed,
   * vertical tab, form feed, carriage return and space, and the non-ASCII
   * characters for which `str.isspace()` holds. The ASCII information
   * separators U+001C..U+001F satisfy `str.isspace()` but are not stripped.
   */
  predicate IsSpace(c: char) {
    var n := c as int;
    || 9 <= n <= 13 || n == 32 || n == 0x85 || n == 0xA0 || n == 0x1680
    || 0x2000 <= n <= 0x200A || n == 0x2028 || n == 0x2029 || n == 0x202F
    || n == 0x205F || n == 0x3000
  }

  predicate IsDigit(c: char) {
    '0' <= c <= '9'
  }

  /** A character of the model's `int()` alphabet: stripped whitespace, an ASCII digit, a sign or `_`. */
  predicate IsIntLiteralChar(c: char) {
    IsSpace(c) || IsDigit(c) || c == '+' || c == '-' || c == '_'
  }

  function DigitValue(c: char): (d: nat)
    requires IsDigit(c)
    ensures d < 10
  {
    c as int - '0' as int
  }

  function DigitChar(d: nat): (c: char)
    requires d < 10
    ensures IsDigit(c) && DigitValue(c) == d
  {
    ('0' as int + d) as char
  }

  /** Drops the leading characters `int()` skips (see `IsSpace`); not `str.lstrip()`, which also drops U+001C..U+001F. */
  function TrimLeft(s: string): string
    decreases |s|
  {
    if |s| > 0 && IsSpace(s[0]) then TrimLeft(s[1..]) else s
  }

  /** Drops the trailing characters `int()` skips (see `IsSpace`). */
  function TrimRight(s: string): string
    decreases |s|
  {
    if |s| > 0 && IsSpace(s[|s| - 1]) then TrimRight(s[..|s| - 1]) else s
  }

  /** `s` without the surrounding characters `int()` skips before reading the literal. */
  function Strip(s: string): string {
    TrimRight(TrimLeft(s))
  }

  /** `TrimLeft` removes a prefix made of `IsSpace` characters only. */
  lemma {:induction false} TrimLeftShape(s: string)
    ensures |TrimLeft(s)| <= |s| && TrimLeft(s) == s[|s| - |TrimLeft(s)|..]
    ensures forall i :: 0 <= i < |s| - |TrimLeft(s)| ==> IsSpace(s[i])
    decreases |s|
  {
    if |s| > 0 && IsSpace(s[0]) {
      TrimLeftShape(s[1..]);
    }
  }

  /** `TrimRight` removes a suffix made of `IsSpace` characters only. */
  lemma {:induction false} TrimRightShape(s: string)
    ensures |TrimRight(s)| <= |s| && TrimRight(s) == s[..|TrimRight(s)|]
    ensures forall i :: |TrimRight(s)| <= i < |s| ==> IsSpace(s[i])
    decreases |s|
  {
    if |s| > 0 && IsSpace(s[|s| - 1]) {
      TrimRightShape(s[..|s| - 1]);
    }
  }

  /** Every character of `s` is whitespace or a character of its stripped core. */
  lemma StripLeavesSpaces(s: string)
    ensures forall i :: 0 <= i < |s| ==> IsSpace(s[i]) || s[i] in Strip(s)
  {
    var l := TrimLeft(s);
    var lo := |s| - |l|;
    var t := TrimRight(l);
    TrimLeftShape(s);
    TrimRightShape(l);
    forall i | 0 <= i < |s|
      ensures IsSpace(s[i]) || s[i] in t
    {
      if lo <= i {
        assert s[i] == l[i - lo];
        if i - lo < |t| {
          assert t[i - lo] == s[i];
        }
      }
    }
  }

  /** A string without leading or trailing whitespace strips to itself. */
  lemma StripUnspaced(s: string)
    requires |s| > 0 && !IsSpace(s[0]) && !IsSpace(s[|s| - 1])
    ensures Strip(s) == s
  {
  }

  /** What may follow a digit: further digits, each possibly preceded by one underscore. */
  predicate DigitGroupTail(t: string)
    decreases |t|
  {
    || |t| == 0
    || (IsDigit(t[0]) && DigitGroupTail(t[1..]))
    || (|t| >= 2 && t[0] == '_' && IsDigit(t[1]) && DigitGroupTail(t[2..]))
  }

  /** A run of ASCII digits in which a single underscore may stand between two digits. */
  predicate IsDigitGroup(t: string) {
    |t| > 0 && IsDigit(t[0]) && DigitGroupTail(t[1..])
  }

  /** The decimal value of the digits of `t`, read in order; other characters are skipped. */
  function DigitsValue(t: string): nat
    decreases |t|
  {
    if |t| == 0 then 0
    else if IsDigit(t[|t| - 1]) then DigitsValue(t[..|t| - 1]) * 10 + DigitValue(t[|t| - 1])
    else DigitsValue(t[..|t| - 1])
  }

  /** `int(s)` for a `str` in base 10; `None` is the `ValueError`. */
  function ParseInt(s: string): Option<int> {
    ParseStripped(Strip(s))
  }

  /** The literal left once the surrounding whitespace is gone: an optional sign and a digit group. */
  function ParseStripped(t: string): Option<int> {
    if |t| > 0 && (t[0] == '+' || t[0] == '-') then
      var digits := t[1..];
      if IsDigitGroup(digits) then
        var n: int := DigitsValue(digits);
        Some(if t[0] == '-' then -n else n)
      else None
    else if IsDigitGroup(t) then Some(DigitsValue(t))
    else None
  }

  /** A digit-group tail holds only digits and underscores, and ends in a digit. */
  lemma {:induction false} DigitGroupTailAlphabet(t: string)
    ensures DigitGroupTail(t) ==> forall i :: 0 <= i < |t| ==> IsDigit(t[i]) || t[i] == '_'
    ensures DigitGroupTail(t) && |t| > 0 ==> IsDigit(t[|t| - 1])
    decreases |t|
  {
    if |t| > 0 {
      DigitGroupTailAlphabet(t[1..]);
      if |t| >= 2 {
        DigitGroupTailAlphabet(t[2..]);
      }
    }
  }

  /**
   * `s` holds a character other than an ASCII digit, `+`, `-`, `_` or a
   * character `int()` strips. Non-ASCII decimal digits count as foreign here,
   * although Python's `int()` reads them; the model does not.
   */
  predicate HasForeignChar(s: string) {
    exists i :: 0 <= i < |s| && !IsIntLiteralChar(s[i])
  }

  /** `int()` rejects any string holding a character other than stripped ones, digits, signs and underscores. */
  lemma ParseIntAlphabet(s: string)
    ensures ParseInt(s).Some? ==> !HasForeignChar(s)
  {
    var t := Strip(s);
    StripLeavesSpaces(s);
    if ParseInt(s).Some? {
      if |t| > 0 && (t[0] == '+' || t[0] == '-') {
        DigitGroupTailAlphabet(t[2..]);
        assert forall i :: 2 <= i < |t| ==> t[i] == t[2..][i - 2];
      } else {
        DigitGroupTailAlphabet(t[1..]);
        assert forall i :: 1 <= i < |t| ==> t[i] == t[1..][i - 1];
      }
      assert forall i :: 0 <= i < |t| ==> IsIntLiteralChar(t[i]);
    }
  }

  /** A non-empty run of plain digits is a digit group. */
  lemma {:induction false} AllDigitsTail(t: string)
    requires forall i :: 0 <= i < |t| ==> IsDigit(t[i])
    ensures DigitGroupTail(t)
    decreases |t|
  {
    if |t| > 0 {
      AllDigitsTail(t[1..]);
    }
  }

  /** `str(n)` for a natural number: its decimal digits, most significant first. */
  function ShowNat(n: nat): (s: string)
    ensures |s| > 0 && forall i :: 0 <= i < |s| ==> IsDigit(s[i])
    decreases n
  {
    if n < 10 then [DigitChar(n)] else ShowNat(n / 10) + [DigitChar(n % 10)]
  }

  /** `str(n)`: the canonical decimal spelling, with `-` for negative numbers. */
  function Show(n: int): (s: string)
    ensures |s| > 0
  {
    if n < 0 then "-" + ShowNat(-n) else ShowNat(n)
  }

  lemma {:induction false} DigitsValueShowNat(n: nat)
    ensures DigitsValue(ShowNat(n)) == n
    decreases n
  {
    if n >= 10 {
      var s := ShowNat(n / 10);
      var t := ShowNat(n);
      DigitsValueShowNat(n / 10);
      assert t[..|t| - 1] == s;
    }
  }

  /** `int(str(n)) == n`: every integer has a spelling `int()` reads back. */
  lemma ParseShow(n: int)
    ensures ParseInt(Show(n)) == Some(n)
  {
    var s := Show(n);
    var m := if n < 0 then -n else n;
    var digits := ShowNat(m);
    StripUnspaced(s);
    DigitsValueShowNat(m);
    AllDigitsTail(digits[1..]);
    if n < 0 {
      assert s[1..] == digits;
    }
  }

  /** Trimming the left of a string that ends in whitespace keeps that whitespace unless nothing else is left. */
  lemma {:induction false} TrimLeftAppendSpace(s: string, c: char)
    requires IsSpace(c)
    ensures TrimLeft(s + [c]) == (if |TrimLeft(s)| == 0 then [] else TrimLeft(s) + [c])
    decreases |s|
  {
    if |s| > 0 {
      assert (s + [c])[0] == s[0];
      assert (s + [c])[1..] == s[1..] + [c];
      if IsSpace(s[0]) {
        TrimLeftAppendSpace(s[1..], c);
      }
    } else {
      assert [] + [c] == [c];
      assert TrimLeft([c]) == TrimLeft([]);
    }
  }

  /** `int()` ignores a stripped character added at either end. */
  lemma ParseIgnoresPadding(s: string, c: char)
    requires IsSpace(c)
    ensures ParseInt([c] + s) == ParseInt(s)
    ensures ParseInt(s + [c]) == ParseInt(s)
  {
    assert ([c] + s)[1..] == s;
    assert Strip([c] + s) == Strip(s);
    TrimLeftAppendSpace(s, c);
    var l := TrimLeft(s);
    if |l| > 0 {
      assert (l + [c])[..|l|] == l;
    }
    assert Strip(s + [c]) == Strip(s);
  }

  /** A sign may lead a group of digits. */
  lemma ParseSignedGroup(digits: string)
    requires IsDigitGroup(digits)
    ensures ParseInt("+" + digits) == Some(DigitsValue(digits))
    ensures ParseInt("-" + digits) == Some(-(DigitsValue(digits) as int))
  {
    DigitGroupTailAlphabet(digits[1..]);
    if |digits| > 1 {
      assert digits[|digits| - 1] == digits[1..][|digits| - 2];
    }
    assert ("+" + digits)[1..] == digits;
    assert ("-" + digits)[1..] == digits;
    StripUnspaced("+" + digits);
    StripUnspaced("-" + digits);
  }

  /** An underscore between digits does not change the value. */
  lemma {:induction false} DigitsValueSkipsUnderscore(a: string, b: string)
    ensures DigitsValue(a + "_" + b) == DigitsValue(a + b)
    decreases |b|
  {
    var u, v := a + "_" + b, a + b;
    if |b| == 0 {
      assert u[..|u| - 1] == a;
      assert v == a;
    } else {
      var b' := b[..|b| - 1];
      assert u[..|u| - 1] == a + "_" + b';
      assert v[..|v| - 1] == a + b';
      assert u[|u| - 1] == v[|v| - 1] == b[|b| - 1];
      DigitsValueSkipsUnderscore(a, b');
    }
  }

  /** A digit group may follow a tail directly or after one underscore. */
  lemma {:induction false} DigitGroupTailConcat(x: string, b: string)
    requires DigitGroupTail(x) && IsDigitGroup(b)
    ensures DigitGroupTail(x + b)
    ensures DigitGroupTail(x + "_" + b)
    decreases |x|
  {
    if |x| == 0 {
      assert x + b == b && (x + b)[1..] == b[1..];
      assert (x + "_" + b)[2..] == b[1..];
    } else if IsDigit(x[0]) && DigitGroupTail(x[1..]) {
      DigitGroupTailConcat(x[1..], b);
      assert (x + b)[1..] == x[1..] + b;
      assert (x + "_" + b)[1..] == x[1..] + "_" + b;
    } else {
      DigitGroupTailConcat(x[2..], b);
      assert (x + b)[2..] == x[2..] + b;
      assert (x + "_" + b)[2..] == x[2..] + "_" + b;
    }
  }

  /** Python reads `a_b` as `ab` when `a` and `b` are digit groups. */
  lemma ParseUnderscoreSeparator(a: string, b: string)
    requires IsDigitGroup(a) && IsDigitGroup(b)
    ensures ParseInt(a + "_" + b) == ParseInt(a + b)
    ensures ParseInt(a + b).Some?
  {
    var u, v := a + "_" + b, a + b;
    DigitGroupTailConcat(a[1..], b);
    assert u[1..] == a[1..] + "_" + b;
    assert v[1..] == a[1..] + b;
    assert u[|u| - 1] == v[|v| - 1] == b[|b| - 1];
    DigitGroupTailAlphabet(b[1..]);
    assert IsDigit(b[|b| - 1]) by {
      if |b| > 1 { assert b[|b| - 1] == b[1..][|b| - 2]; }
    }
    StripUnspaced(u);
    StripUnspaced(v);
    DigitsValueSkipsUnderscore(a, b);
  }

  /** No tail holds two underscores in a row. */
  lemma {:induction false} NoDoubleUnderscore(x: string, y: string)
    ensures !DigitGroupTail(x + "__" + y)
    decreases |x|
  {
    var t := x + "__" + y;
    if |x| == 0 {
      assert t[0] == '_' && t[1] == '_';
    } else if |x| == 1 {
      assert t[1] == '_' && t[1..] == "__" + y;
      NoDoubleUnderscore([], y);
    } else {
      assert t[1..] == x[1..] + "__" + y;
      assert t[2..] == x[2..] + "__" + y;
      NoDoubleUnderscore(x[1..], y);
      NoDoubleUnderscore(x[2..], y);
    }
  }

  /** Doubled and trailing underscores are a `ValueError`. */
  lemma ParseRejectsMisplacedUnderscores(a: string, b: string)
    requires IsDigitGroup(a) && IsDigitGroup(b)
    ensures ParseInt(a + "__" + b).None?
    ensures ParseInt(a + "_").None?
  {
    var u, v := a + "__" + b, a + "_";
    DigitGroupTailAlphabet(b[1..]);
    assert IsDigit(b[|b| - 1]) by {
      if |b| > 1 { assert b[|b| - 1] == b[1..][|b| - 2]; }
    }
    StripUnspaced(u);
    StripUnspaced(v);
    assert u[1..] == a[1..] + "__" + b;
    NoDoubleUnderscore(a[1..], b);
    DigitGroupTailAlphabet(v[1..]);
    assert v[1..][|v| - 2] == '_';
  }

  /** An information separator U+001C..U+001F at the start is not stripped, so `int()` raises `ValueError`. */
  lemma ParseRejectsInformationSeparator(c: char, s: string)
    requires 28 <= c as int <= 31
    ensures ParseInt([c] + s).None?
  {
    var u := [c] + s;
    assert TrimLeft(u) == u;
    TrimRightShape(u);
    var t := TrimRight(u);
    assert !IsSpace(u[0]);
    assert |t| > 0 && t[0] == c;
  }
}
