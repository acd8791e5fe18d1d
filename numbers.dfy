/**
 * JavaScript's global `parseInt(string)` with the radix left out, as section
 * 19.2.5 of ECMAScript 2024 defines it: leading white space is skipped, one
 * sign is read, a `0x` or `0X` prefix selects base 16, and the value is that of
 * the longest run of digits that follows. Without such a run the result is NaN,
 * here `None`.
 */
module JsNumbers {
  import opened Wrappers

  /** The WhiteSpace and LineTerminator code points of ECMAScript (sections 12.2 and 12.3). */
  predicate IsSpace(c: char)
  {
    || c == '\t' || c == '\n' || c == '\U{000B}' || c == '\U{000C}' || c == '\r' || c == ' '
    || c == '\U{00A0}' || c == '\U{1680}' || ('\U{2000}' <= c <= '\U{200A}')
    || c == '\U{2028}' || c == '\U{2029}' || c == '\U{202F}' || c == '\U{205F}'
    || c == '\U{3000}' || c == '\U{FEFF}'
  }

  predicate IsDecimalDigit(c: char)
  {
    '0' <= c <= '9'
  }

  /** The value of `c` as a digit in base `radix`, if it is one; letters count in base 16 only. */
  function DigitValue(c: char, radix: nat): (d: Option<nat>)
    requires radix == 10 || radix == 16
    ensures d.Some? ==> d.value < radix
    ensures radix == 10 ==> (d.Some? <==> IsDecimalDigit(c))
  {
    if '0' <= c <= '9' then Some(c as int - '0' as int)
    else if radix == 16 && 'a' <= c <= 'f' then Some(c as int - 'a' as int + 10)
    else if radix == 16 && 'A' <= c <= 'F' then Some(c as int - 'A' as int + 10)
    else None
  }

  /** `s` without its leading white space: a suffix of `s` that starts with no space. */
  function TrimStart(s: string): string
  {
    if s != [] && IsSpace(s[0]) then TrimStart(s[1..]) else s
  }

  /** Trimming leaves a suffix that starts with no space, and only spaces are dropped. */
  lemma TrimStartSuffix(s: string)
    ensures var r := TrimStart(s);
      && |r| <= |s| && r == s[|s| - |r|..]
      && (forall i :: 0 <= i < |s| - |r| ==> IsSpace(s[i]))
      && (r == [] || !IsSpace(r[0]))
  {
    if s != [] && IsSpace(s[0]) {
      var r := TrimStart(s[1..]);
      TrimStartSuffix(s[1..]);
      assert TrimStart(s) == r;
      assert s[1..][|s| - 1 - |r|..] == s[|s| - |r|..];
      forall i | 0 <= i < |s| - |r| ensures IsSpace(s[i]) {
        if i > 0 {
          assert s[i] == s[1..][i - 1];
        }
      }
    }
  }

  /** The digits of the longest prefix of `s` that consists of base-`radix` digits. */
  function LeadingDigits(s: string, radix: nat): seq<nat>
    requires radix == 10 || radix == 16
  {
    if s == [] then []
    else match DigitValue(s[0], radix)
      case None => []
      case Some(d) => [d] + LeadingDigits(s[1..], radix)
  }

  /** The digits read are those of a prefix of `s`, and the character after them is no digit. */
  lemma LeadingDigitsLongest(s: string, radix: nat)
    requires radix == 10 || radix == 16
    ensures var ds := LeadingDigits(s, radix);
      && |ds| <= |s|
      && (forall i :: 0 <= i < |ds| ==> DigitValue(s[i], radix) == Some(ds[i]))
      && (|ds| < |s| ==> DigitValue(s[|ds|], radix).None?)
  {
    if s != [] && DigitValue(s[0], radix).Some? {
      LeadingDigitsLongest(s[1..], radix);
    }
  }

  /** The number the digits `ds` denote in base `radix`, most significant first. */
  function ValueOf(ds: seq<nat>, radix: nat): nat
  {
    if ds == [] then 0 else ValueOf(ds[..|ds| - 1], radix) * radix + ds[|ds| - 1]
  }

  /** The text after one leading sign, if there is one. */
  function AfterSign(t: string): string
  {
    if t != [] && (t[0] == '+' || t[0] == '-') then t[1..] else t
  }

  predicate HasHexPrefix(u: string)
  {
    |u| >= 2 && u[0] == '0' && (u[1] == 'x' || u[1] == 'X')
  }

  /** The unsigned value: base 16 after a `0x` prefix, base 10 otherwise, NaN without a digit. */
  function Magnitude(u: string): Option<nat>
  {
    var radix := if HasHexPrefix(u) then 16 else 10;
    var ds := LeadingDigits(if HasHexPrefix(u) then u[2..] else u, radix);
    if ds == [] then None else Some(ValueOf(ds, radix))
  }

  /** `parseInt(s)`. The magnitude is exact, where JavaScript rounds past 2^53. */
  function ParseInt(s: string): Option<int>
  {
    var t := TrimStart(s);
    var m := Magnitude(AfterSign(t));
    if m.None? then None
    else if t != [] && t[0] == '-' then Some(-(m.value as int))
    else Some(m.value)
  }

  // ---------------------------------------------------------------------------
  // The decimal text of an integer, as `String(n)` writes it

  /** The decimal digits of `k`, most significant first, with no leading zero. */
  function NatDigits(k: nat): (ds: seq<nat>)
    ensures |ds| >= 1
    ensures forall i :: 0 <= i < |ds| ==> ds[i] < 10
    ensures k >= 1 ==> ds[0] >= 1
  {
    if k < 10 then [k] else NatDigits(k / 10) + [k % 10]
  }

  /** The character of the decimal digit `d`. */
  function DigitChar(d: nat): (c: char)
    requires d < 10
    ensures IsDecimalDigit(c) && DigitValue(c, 10) == Some(d)
  {
    ('0' as int + d) as char
  }

  /** The decimal text of `k`: one digit character per digit, none a leading `0` unless `k` is 0. */
  function NatText(k: nat): (w: string)
    ensures |w| == |NatDigits(k)|
    ensures forall i :: 0 <= i < |w| ==> w[i] == DigitChar(NatDigits(k)[i])
  {
    if k < 10 then [DigitChar(k)] else NatText(k / 10) + [DigitChar(k % 10)]
  }

  /** `String(n)`: a minus sign for a negative number, then the digits. */
  function DecimalText(n: int): string
  {
    if n < 0 then "-" + NatText(-n) else NatText(n)
  }

  lemma {:induction false} NatDigitsValue(k: nat)
    ensures ValueOf(NatDigits(k), 10) == k
  {
    if k >= 10 {
      NatDigitsValue(k / 10);
      var ds := NatDigits(k);
      assert ds[..|ds| - 1] == NatDigits(k / 10);
    }
  }

  /** A run of decimal digits followed by no digit is read whole. */
  lemma LeadingDigitsOfNatText(k: nat, rest: string)
    requires rest == [] || !IsDecimalDigit(rest[0])
    ensures LeadingDigits(NatText(k) + rest, 10) == NatDigits(k)
  {
    var w := NatText(k);
    var s := w + rest;
    var ds := LeadingDigits(s, 10);
    LeadingDigitsLongest(s, 10);
    forall i | 0 <= i < |w| ensures DigitValue(s[i], 10) == Some(NatDigits(k)[i]) {
      assert s[i] == w[i];
    }
    assert |w| < |s| ==> s[|w|] == rest[0] && DigitValue(s[|w|], 10).None?;
    assert |ds| == |w|;
  }

  /** The decimal text of `k` has magnitude `k`, whatever non-digit follows it. */
  lemma MagnitudeOfNatText(k: nat, rest: string)
    requires rest == [] || (!IsDecimalDigit(rest[0]) && !(k == 0 && (rest[0] == 'x' || rest[0] == 'X')))
    ensures Magnitude(NatText(k) + rest) == Some(k)
  {
    LeadingDigitsOfNatText(k, rest);
    NatDigitsValue(k);
    NatTextNoHexPrefix(k, rest);
    MagnitudeOfDecimalDigits(NatText(k) + rest, NatDigits(k), k);
  }

  lemma NatTextNoHexPrefix(k: nat, rest: string)
    requires rest == [] || !(k == 0 && (rest[0] == 'x' || rest[0] == 'X'))
    ensures !HasHexPrefix(NatText(k) + rest)
  {
    var w := NatText(k);
    var u := w + rest;
    if k == 0 {
      assert |w| == 1;
      assert |u| >= 2 ==> u[1] == rest[0];
    }
  }

  lemma MagnitudeOfDecimalDigits(u: string, ds: seq<nat>, v: nat)
    requires !HasHexPrefix(u) && LeadingDigits(u, 10) == ds && ds != [] && ValueOf(ds, 10) == v
    ensures Magnitude(u) == Some(v)
  {
  }

  // ---------------------------------------------------------------------------
  // Properties

  /**
   * `parseInt` reads back the decimal text of every integer, and stops at the
   * first character that is not a digit; the one exception is an `x` right
   * after a lone `0`, which makes it a base-16 prefix.
   */
  lemma ParseIntDecimal(n: int, rest: string)
    requires rest == [] || (!IsDecimalDigit(rest[0]) && !(n == 0 && (rest[0] == 'x' || rest[0] == 'X')))
    ensures ParseInt(DecimalText(n) + rest) == Some(n)
  {
    if n < 0 {
      ParseNegativeDecimal(n, rest);
    } else {
      ParseNatText(n, rest);
    }
  }

  lemma ParseNegativeDecimal(n: int, rest: string)
    requires n < 0 && (rest == [] || !IsDecimalDigit(rest[0]))
    ensures ParseInt(DecimalText(n) + rest) == Some(n)
  {
    NegativeText(n, rest);
    ParseMinusNatText(DecimalText(n) + rest, -n, rest);
  }

  lemma NegativeText(n: int, rest: string)
    requires n < 0
    ensures DecimalText(n) + rest == "-" + (NatText(-n) + rest)
  {
    var w := NatText(-n);
    assert DecimalText(n) == "-" + w;
    assert ("-" + w) + rest == "-" + (w + rest);
  }

  lemma ParseMinusNatText(s: string, k: nat, rest: string)
    requires k > 0 && (rest == [] || !IsDecimalDigit(rest[0]))
    requires s == "-" + (NatText(k) + rest)
    ensures ParseInt(s) == Some(-(k as int))
  {
    MagnitudeOfNatText(k, rest);
    NatTextStartsWithDigit(k, rest);
    ParseIntNegative(s, NatText(k) + rest, k);
  }

  lemma ParseNatText(k: nat, rest: string)
    requires rest == [] || (!IsDecimalDigit(rest[0]) && !(k == 0 && (rest[0] == 'x' || rest[0] == 'X')))
    ensures ParseInt(NatText(k) + rest) == Some(k)
  {
    MagnitudeOfNatText(k, rest);
    NatTextStartsWithDigit(k, rest);
    ParseIntUnsigned(NatText(k) + rest);
  }

  lemma NatTextStartsWithDigit(k: nat, rest: string)
    ensures NatText(k) + rest != [] && IsDecimalDigit((NatText(k) + rest)[0])
  {
    var ds := NatDigits(k);
    assert NatText(k)[0] == ('0' as int + ds[0]) as char;
  }

  /** Text that starts with a digit is read without a sign. */
  lemma ParseIntUnsigned(u: string)
    requires u != [] && IsDecimalDigit(u[0])
    ensures ParseInt(u) == Magnitude(u)
  {
    assert !IsSpace(u[0]);
    assert TrimStart(u) == u;
    assert AfterSign(u) == u;
  }

  /** A minus sign followed by a digit negates the magnitude. */
  lemma ParseIntNegative(s: string, u: string, k: nat)
    requires s == "-" + u && u != [] && IsDecimalDigit(u[0]) && Magnitude(u) == Some(k)
    ensures ParseInt(s) == Some(-(k as int))
  {
    assert s[0] == '-' && !IsSpace(s[0]);
    assert TrimStart(s) == s;
    assert AfterSign(s) == u;
  }

  /** Text without a decimal digit is NaN: a base-16 prefix starts with the digit `0`. */
  lemma NoDigitIsNaN(s: string)
    requires forall k :: 0 <= k < |s| ==> !IsDecimalDigit(s[k])
    ensures ParseInt(s) == None
  {
    var t := TrimStart(s);
    var u := AfterSign(t);
    TrimStartSuffix(s);
    assert u == s[|s| - |u|..];
    assert forall i :: 0 <= i < |u| ==> !IsDecimalDigit(u[i]) by {
      forall i | 0 <= i < |u| ensures !IsDecimalDigit(u[i]) {
        assert u[i] == s[|s| - |u| + i];
      }
    }
    assert !HasHexPrefix(u);
    assert u != [] ==> DigitValue(u[0], 10).None?;
  }

  /** Leading white space and a sign are skipped. */
  lemma ParseIntSkipsSpaceAndSign()
    ensures ParseInt(" +7") == Some(7)
  {
    assert TrimStart(" +7") == "+7";
    assert AfterSign("+7") == "7";
    assert LeadingDigits("7", 10) == [7];
    assert ValueOf([7], 10) == 7 by {
      assert [7][..0] == [];
    }
  }

  /** A `0x` prefix reads the digits in base 16. */
  lemma ParseIntHex()
    ensures ParseInt("0x1A") == Some(26)
  {
    assert TrimStart("0x1A") == "0x1A";
    assert AfterSign("0x1A") == "0x1A";
    assert HasHexPrefix("0x1A") && "0x1A"[2..] == "1A";
    assert "1A"[1..] == "A" && "A"[1..] == [];
    assert LeadingDigits("1A", 16) == [1, 10];
    assert ValueOf([1, 10], 16) == 26 by {
      assert [1, 10][..1] == [1];
      assert [1][..0] == [];
    }
  }

  /** The number 1 converts to the text "1", which reads back as 1. */
  lemma ParseIntOne()
    ensures ParseInt("1") == Some(1)
  {
    assert NatText(1) == "1";
    assert NatText(1) + [] == "1";
    ParseNatText(1, []);
  }

  /** Reading stops at the first character that is not a digit, so an exponent is ignored. */
  lemma ParseIntStopsAtExponent()
    ensures ParseInt("1e3") == Some(1)
  {
    assert NatText(1) == "1";
    assert NatText(1) + "e3" == "1e3";
    ParseNatText(1, "e3");
  }

  /** `parseInt(undefined)` reads the text "undefined", which is NaN. */
  lemma ParseIntUndefined()
    ensures ParseInt("undefined") == None
  {
    NoDigitIsNaN("undefined");
  }

  /** A bare base-16 prefix has no digits after it and is NaN. */
  lemma ParseIntBarePrefix()
    ensures ParseInt("0x") == None
  {
    assert TrimStart("0x") == "0x" && AfterSign("0x") == "0x";
    assert HasHexPrefix("0x") && "0x"[2..] == [];
  }
}
