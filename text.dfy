/** The pieces of Python's string handling that the probes rely on:
    `startswith`, `replace(c, '')`, `split(sep)`, `sep.join(...)`,
    rendering numbers with `%s`, and `int()`/`float()` of a string. */
module Text {
  import opened Base

  /** Python's `s.startswith(prefix)`. */
  predicate StartsWith(s: string, prefix: string) {
    |prefix| <= |s| && s[..|prefix|] == prefix
  }

  /** Python's `s.replace(c, '')`: every occurrence of `c` removed, the
      other characters kept in order. */
  function RemoveAll(s: string, c: char): (r: string)
    ensures c !in r
    ensures forall x :: x in r <==> x in s && x != c
  {
    if s == [] then []
    else
      assert s == [s[0]] + s[1..];
      (if s[0] == c then [] else [s[0]]) + RemoveAll(s[1..], c)
  }

  lemma {:induction false} RemoveAllAbsent(s: string, c: char)
    requires c !in s
    ensures RemoveAll(s, c) == s
  {
    if s != [] {
      assert s == [s[0]] + s[1..];
      RemoveAllAbsent(s[1..], c);
    }
  }

  /** Removing works piece by piece: on a concatenation it removes from
      each part and keeps the parts in order. */
  lemma {:induction false} RemoveAllConcat(a: string, b: string, c: char)
    ensures RemoveAll(a + b, c) == RemoveAll(a, c) + RemoveAll(b, c)
  {
    if a == [] {
      assert a + b == b;
    } else {
      var h := if a[0] == c then [] else [a[0]];
      assert (a + b)[1..] == a[1..] + b;
      assert RemoveAll(a + b, c) == h + RemoveAll(a[1..] + b, c);
      assert RemoveAll(a, c) == h + RemoveAll(a[1..], c);
      RemoveAllConcat(a[1..], b, c);
      assert h + (RemoveAll(a[1..], c) + RemoveAll(b, c)) == (h + RemoveAll(a[1..], c)) + RemoveAll(b, c);
    }
  }

  /** A single character is dropped exactly when it is the removed one. */
  lemma RemoveAllSingle(x: char, c: char)
    ensures RemoveAll([x], c) == if x == c then [] else [x]
  {
    assert [x][1..] == [];
  }

  /** Python's `s.split(sep)` for a one-character separator: never empty,
      `""` splits into `[""]`, and no part holds the separator. */
  function Split(s: string, sep: char): (parts: seq<string>)
    ensures |parts| >= 1
    ensures forall i :: 0 <= i < |parts| ==> sep !in parts[i]
  {
    if s == [] then [""]
    else
      var rest := Split(s[1..], sep);
      if s[0] == sep then [""] + rest
      else [[s[0]] + rest[0]] + rest[1..]
  }

  /** Python's `sep.join(parts)`. */
  function Join(parts: seq<string>, sep: string): string
  {
    if |parts| == 0 then ""
    else if |parts| == 1 then parts[0]
    else parts[0] + sep + Join(parts[1..], sep)
  }

  /** Joining the parts of a split gives the string back. */
  lemma {:induction false} JoinSplit(s: string, sep: char)
    ensures Join(Split(s, sep), [sep]) == s
  {
    if s != [] {
      var rest := Split(s[1..], sep);
      JoinSplit(s[1..], sep);
      if s[0] == sep {
        assert Split(s, sep) == [""] + rest;
        assert s == [sep] + s[1..];
      } else {
        var parts := Split(s, sep);
        assert parts == [[s[0]] + rest[0]] + rest[1..];
        if |rest| == 1 {
          assert s == [s[0]] + rest[0];
        } else {
          assert parts[1..] == rest[1..];
          assert Join(rest, [sep]) == rest[0] + [sep] + Join(rest[1..], [sep]);
          assert s == [s[0]] + s[1..];
        }
      }
    }
  }

  lemma {:induction false} SplitNoSeparator(s: string, sep: char)
    requires sep !in s
    ensures Split(s, sep) == [s]
  {
    if s != [] {
      assert s == [s[0]] + s[1..];
      SplitNoSeparator(s[1..], sep);
    }
  }

  lemma {:induction false} SplitAtSeparator(a: string, b: string, sep: char)
    requires sep !in a
    ensures Split(a + [sep] + b, sep) == [a] + Split(b, sep)
  {
    if a == [] {
      assert a + [sep] + b == [sep] + b;
      assert ([sep] + b)[1..] == b;
    } else {
      assert a == [a[0]] + a[1..];
      assert (a + [sep] + b)[1..] == a[1..] + [sep] + b;
      SplitAtSeparator(a[1..], b, sep);
    }
  }

  /** Splitting a join gives the parts back, provided none of them holds
      the separator. */
  lemma {:induction false} SplitJoin(parts: seq<string>, sep: char)
    requires |parts| >= 1
    requires forall i :: 0 <= i < |parts| ==> sep !in parts[i]
    ensures Split(Join(parts, [sep]), sep) == parts
  {
    if |parts| == 1 {
      SplitNoSeparator(parts[0], sep);
    } else {
      SplitJoin(parts[1..], sep);
      SplitAtSeparator(parts[0], Join(parts[1..], [sep]), sep);
      assert parts == [parts[0]] + parts[1..];
    }
  }

  // ---------------------------------------------------------------------
  /** A rendered number holds no character other than digits, `-` and `.`. */
  lemma NumeralHasNo(s: string, c: char)
    requires IsNumeral(s)
    requires !IsDigit(c) && c != '-' && c != '.'
    ensures c !in s
  {
    forall i | 0 <= i < |s|
      ensures s[i] != c
    {
      assert IsDigit(s[i]) || s[i] == '-' || s[i] == '.';
    }
  }

  /** Five fields joined by one separator. */
  lemma JoinFive(a: string, b: string, c: string, d: string, e: string, sep: string)
    ensures Join([a, b, c, d, e], sep) == a + sep + b + sep + c + sep + d + sep + e
  {
    assert [a, b, c, d, e][1..] == [b, c, d, e];
    assert [b, c, d, e][1..] == [c, d, e];
    assert [c, d, e][1..] == [d, e];
    assert [d, e][1..] == [e];
    assert Join([d, e], sep) == d + sep + e;
    assert Join([c, d, e], sep) == c + sep + (d + sep + e);
    assert Join([b, c, d, e], sep) == b + sep + (c + sep + (d + sep + e));
    assert Join([a, b, c, d, e], sep) == a + sep + (b + sep + (c + sep + (d + sep + e)));
  }

  /** Five fields free of the separator read back from the string that
      joins them. */
  lemma SplitFive(a: string, b: string, c: string, d: string, e: string, sep: char)
    requires sep !in a && sep !in b && sep !in c && sep !in d && sep !in e
    ensures Split(a + [sep] + b + [sep] + c + [sep] + d + [sep] + e, sep) == [a, b, c, d, e]
  {
    var parts := [a, b, c, d, e];
    forall i | 0 <= i < |parts|
      ensures sep !in parts[i]
    {
    }
    JoinFive(a, b, c, d, e, [sep]);
    SplitJoin(parts, sep);
  }

  lemma SplitThree(a: string, b: string, c: string, sep: char)
    requires sep !in a && sep !in b && sep !in c
    ensures Split(a + [sep] + b + [sep] + c, sep) == [a, b, c]
  {
    SplitNoSeparator(c, sep);
    SplitAtSeparator(b, c, sep);
    assert a + [sep] + b + [sep] + c == a + [sep] + (b + [sep] + c);
    SplitAtSeparator(a, b + [sep] + c, sep);
  }

  // Decimal numerals

  predicate IsDigit(ch: char) {
    '0' <= ch <= '9'
  }

  predicate AllDigits(s: string) {
    forall i :: 0 <= i < |s| ==> IsDigit(s[i])
  }

  /** Characters that can appear in a rendered number. */
  predicate IsNumeral(s: string) {
    forall i :: 0 <= i < |s| ==> IsDigit(s[i]) || s[i] == '-' || s[i] == '.'
  }

  function DigitChar(d: nat): (ch: char)
    requires d < 10
    ensures IsDigit(ch) && ch as int - '0' as int == d
  {
    ('0' as int + d) as char
  }

  /** The number a string of decimal digits denotes (`""` denotes 0). */
  function DigitsValue(s: string): nat
    requires AllDigits(s)
  {
    if s == [] then 0
    else 10 * DigitsValue(s[..|s| - 1]) + (s[|s| - 1] as int - '0' as int)
  }

  function Pow10(n: nat): (p: nat)
    ensures p >= 1
  {
    if n == 0 then 1 else 10 * Pow10(n - 1)
  }

  /** Python's `str()` of a non-negative integer. */
  function NatToStr(n: nat): (s: string)
    ensures |s| >= 1 && AllDigits(s)
  {
    if n < 10 then [DigitChar(n)] else NatToStr(n / 10) + [DigitChar(n % 10)]
  }

  /** Python's `str()` of an integer: decimal digits, `-` for negatives. */
  function IntToStr(i: int): (s: string)
    ensures IsNumeral(s) && |s| >= 1
  {
    if i < 0 then "-" + NatToStr(-i) else NatToStr(i)
  }

  /** Up to `n` decimal digits of a fraction in [0, 1), truncated, without
      the trailing zeros of a terminating expansion. */
  function FractionDigits(f: real, n: nat): (s: string)
    requires 0.0 <= f < 1.0
    ensures AllDigits(s) && |s| <= n
    decreases n
  {
    if n == 0 || f == 0.0 then ""
    else
      var d := (f * 10.0).Floor;
      [DigitChar(d)] + FractionDigits(f * 10.0 - d as real, n - 1)
  }

  function UnsignedRealToStr(r: real): (s: string)
    requires r >= 0.0
    ensures IsNumeral(s)
  {
    var whole := r.Floor;
    var fraction := FractionDigits(r - whole as real, 12);
    NatToStr(whole) + "." + (if fraction == "" then "0" else fraction)
  }

  /** `str()` of a Python float, read as an exact real: the integer part,
      a point, and at least one and at most twelve fraction digits
      (`100.0`, `0.8`, `-2.5`). */
  function RealToStr(r: real): (s: string)
    ensures IsNumeral(s) && |s| >= 1
  {
    if r < 0.0 then "-" + UnsignedRealToStr(-r) else UnsignedRealToStr(r)
  }

  /** Python's `int()` of a string, for an optional sign followed by
      decimal digits; `None` where Python raises ValueError. */
  function ParseInt(s: string): Option<int>
  {
    if |s| > 0 && (s[0] == '-' || s[0] == '+') then
      match ParseNat(s[1..])
      case None => None
      case Some(n) => Some(if s[0] == '-' then -(n as int) else n as int)
    else
      match ParseNat(s)
      case None => None
      case Some(n) => Some(n)
  }

  function ParseNat(s: string): Option<nat>
  {
    if |s| > 0 && AllDigits(s) then Some(DigitsValue(s)) else None
  }

  /** Python's `float()` of a string, for an optional sign followed by
      digits with at most one decimal point (`12`, `0.8`, `5.`, `.5`);
      `None` where Python raises ValueError. */
  function ParseReal(s: string): Option<real>
  {
    if |s| > 0 && (s[0] == '-' || s[0] == '+') then
      match ParseUnsignedReal(s[1..])
      case None => None
      case Some(x) => Some(if s[0] == '-' then -x else x)
    else
      ParseUnsignedReal(s)
  }

  /** `float('0.9')`. */
  lemma ReadsPointNine()
    ensures ParseReal("0.9") == Some(0.9)
  {
    SplitAtSeparator("0", "9", '.');
    SplitNoSeparator("9", '.');
    assert "0.9" == "0" + ['.'] + "9";
    assert Split("0.9", '.') == ["0", "9"];
    assert "0"[..0] == "" && "9"[..0] == "";
    assert DigitsValue("0") == 0 && DigitsValue("9") == 9;
  }

  /** `float()` of two decimal digits. */
  lemma ReadsTwoDigits(a: char, b: char)
    requires IsDigit(a) && IsDigit(b)
    ensures ParseReal([a, b]) == Some((10 * (a as int - '0' as int) + (b as int - '0' as int)) as real)
  {
    var s := [a, b];
    SplitNoSeparator(s, '.');
    assert AllDigits(s) && s[0] != '-' && s[0] != '+';
    assert s[..1] == [a] && [a][..0] == [];
    assert DigitsValue([a]) == a as int - '0' as int;
    assert DigitsValue(s) == 10 * (a as int - '0' as int) + (b as int - '0' as int);
  }

  /** `float('0.95')`. */
  lemma ReadsPointNineFive()
    ensures ParseReal("0.95") == Some(0.95)
  {
    SplitAtSeparator("0", "95", '.');
    SplitNoSeparator("95", '.');
    assert "0.95" == "0" + ['.'] + "95";
    assert Split("0.95", '.') == ["0", "95"];
    assert "95"[..1] == "9" && "9"[..0] == "" && "0"[..0] == "";
    assert DigitsValue("0") == 0 && DigitsValue("95") == 95;
  }

  /** Only non-empty text reads as a number. */
  lemma ParseRealNonEmpty(s: string)
    ensures ParseReal(s).Some? ==> s != ""
  {
    if s == "" {
      SplitNoSeparator(s, '.');
    }
  }

  /** `float()` of a string, raising ValueError where it does not read. */
  function FloatOfText(s: string): Result<real>
  {
    match ParseReal(s)
    case None => Fail(ValueError)
    case Some(x) => Ok(x)
  }

  function ParseUnsignedReal(s: string): Option<real>
  {
    var parts := Split(s, '.');
    if |parts| == 1 then
      if |s| > 0 && AllDigits(s) then Some(DigitsValue(s) as real) else None
    else if |parts| == 2 && (|parts[0]| > 0 || |parts[1]| > 0)
         && AllDigits(parts[0]) && AllDigits(parts[1]) then
      Some(DigitsValue(parts[0]) as real
           + DigitsValue(parts[1]) as real / Pow10(|parts[1]|) as real)
    else
      None
  }

  lemma {:induction false} NatToStrValue(n: nat)
    ensures DigitsValue(NatToStr(n)) == n
  {
    var s := NatToStr(n);
    if n >= 10 {
      NatToStrValue(n / 10);
      assert s[..|s| - 1] == NatToStr(n / 10);
    }
  }

  /** `int()` reads back what `str()` of an integer writes. */
  lemma ParseIntRoundTrip(i: int)
    ensures ParseInt(IntToStr(i)) == Some(i)
  {
    var s := IntToStr(i);
    if i < 0 {
      var digits := NatToStr(-i);
      NatToStrValue(-i);
      assert s == "-" + digits;
      assert s[0] == '-' && s[1..] == digits;
      assert ParseNat(digits) == Some(-i);
    } else {
      NatToStrValue(i);
      assert IsDigit(s[0]);
      assert ParseNat(s) == Some(i);
    }
  }

  lemma DigitsHaveNoPoint(s: string)
    requires AllDigits(s)
    ensures '.' !in s
  {
    forall k | 0 <= k < |s|
      ensures s[k] != '.'
    {
      assert IsDigit(s[k]);
    }
  }

  /** Every string `int()` accepts, `float()` accepts with the same value. */
  lemma ParseIntThenReal(s: string)
    requires ParseInt(s).Some?
    ensures ParseReal(s) == Some(ParseInt(s).value as real)
  {
    if |s| > 0 && (s[0] == '-' || s[0] == '+') {
      DigitsHaveNoPoint(s[1..]);
      SplitNoSeparator(s[1..], '.');
    } else {
      DigitsHaveNoPoint(s);
      SplitNoSeparator(s, '.');
    }
  }

  /** `float()` reads back `str()` of an integer as that integer. */
  lemma ParseRealOfIntToStr(i: int)
    ensures ParseReal(IntToStr(i)) == Some(i as real)
  {
    ParseIntRoundTrip(i);
    ParseIntThenReal(IntToStr(i));
  }
}
