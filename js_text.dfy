/** The JavaScript string and number primitives the inventory core relies on:
    `parseInt` (with and without an explicit radix 10), `Number.prototype.toString`
    on integers, `String.prototype.padStart`, `toLowerCase` and `includes`. */
module JsText {
  import opened Optional

  predicate IsDigit(c: char) { '0' <= c <= '9' }

  predicate IsHexDigit(c: char) { IsDigit(c) || 'a' <= c <= 'f' || 'A' <= c <= 'F' }

  predicate AllDigits(s: string) { forall i :: 0 <= i < |s| ==> IsDigit(s[i]) }

  predicate AllHexDigits(s: string) { forall i :: 0 <= i < |s| ==> IsHexDigit(s[i]) }

  function DigitOf(c: char): nat
    requires IsHexDigit(c)
  {
    if IsDigit(c) then c as int - '0' as int
    else if 'a' <= c <= 'f' then c as int - 'a' as int + 10
    else c as int - 'A' as int + 10
  }

  function DigitChar(d: nat): (c: char)
    requires d < 10
    ensures IsDigit(c) && DigitOf(c) == d
  {
    ('0' as int + d) as char
  }

  /** The white space `parseInt` skips: StrWhiteSpaceChar of ECMAScript, that is
      TAB, VT, FF, ZWNBSP, every Zs space and the four line terminators. */
  predicate IsJsSpace(c: char) {
    || c == '\t' || c == '\n' || c == '\U{B}' || c == '\U{C}' || c == '\r'
    || c == ' ' || c == '\U{A0}' || c == '\U{1680}' || ('\U{2000}' <= c <= '\U{200A}')
    || c == '\U{2028}' || c == '\U{2029}' || c == '\U{202F}' || c == '\U{205F}'
    || c == '\U{3000}' || c == '\U{FEFF}'
  }

  /** `s` with its leading white space removed. */
  function TrimStart(s: string): (r: string)
    ensures |r| <= |s| && r == s[|s| - |r|..]
    ensures |r| > 0 ==> !IsJsSpace(r[0])
  {
    if |s| > 0 && IsJsSpace(s[0]) then TrimStart(s[1..]) else s
  }

  /** The longest prefix of `s` made of decimal digits. */
  function DigitRun(s: string): (r: string)
    ensures r <= s && AllDigits(r)
    ensures |r| < |s| ==> !IsDigit(s[|r|])
  {
    if |s| > 0 && IsDigit(s[0]) then [s[0]] + DigitRun(s[1..]) else []
  }

  /** The longest prefix of `s` made of hexadecimal digits. */
  function HexRun(s: string): (r: string)
    ensures r <= s && AllHexDigits(r)
    ensures |r| < |s| ==> !IsHexDigit(s[|r|])
  {
    if |s| > 0 && IsHexDigit(s[0]) then [s[0]] + HexRun(s[1..]) else []
  }

  /** The number a string of decimal digits denotes. */
  function DecValue(d: string): nat
    requires AllDigits(d)
  {
    if |d| == 0 then 0 else 10 * DecValue(d[..|d| - 1]) + DigitOf(d[|d| - 1])
  }

  /** The number a string of hexadecimal digits denotes. */
  function HexValue(h: string): nat
    requires AllHexDigits(h)
  {
    if |h| == 0 then 0 else 16 * HexValue(h[..|h| - 1]) + DigitOf(h[|h| - 1])
  }

  /** `t` without one leading sign character. */
  function StripSign(t: string): string {
    if |t| > 0 && (t[0] == '-' || t[0] == '+') then t[1..] else t
  }

  /** The sign a leading `-` or `+` gives. */
  function SignOf(t: string): int {
    if |t| > 0 && t[0] == '-' then -1 else 1
  }

  /** The magnitude `parseInt` reads from unsigned text; a `0x` / `0X` prefix
      switches to base 16 when `hexPrefix` holds. None is NaN. */
  function ParseUnsigned(u: string, hexPrefix: bool): Option<nat> {
    if hexPrefix && |u| >= 2 && u[0] == '0' && (u[1] == 'x' || u[1] == 'X') then
      var h := HexRun(u[2..]);
      if |h| == 0 then None else Some(HexValue(h))
    else
      var d := DigitRun(u);
      if |d| == 0 then None else Some(DecValue(d))
  }

  /** `parseInt(s)` (hexPrefix) or `parseInt(s, 10)` (not hexPrefix); None is NaN. */
  function ParseIntRadix(s: string, hexPrefix: bool): Option<int> {
    var t := TrimStart(s);
    match ParseUnsigned(StripSign(t), hexPrefix)
    case None => None
    case Some(n) => Some(SignOf(t) * n)
  }

  /** JavaScript `parseInt(s)`: no radix, so a `0x` prefix selects base 16. */
  function ParseInt(s: string): Option<int> { ParseIntRadix(s, true) }

  /** JavaScript `parseInt(s, 10)`. */
  function ParseInt10(s: string): Option<int> { ParseIntRadix(s, false) }

  /** Decimal rendering of a natural number, as `n.toString()` gives it. */
  function NatToString(n: nat): (r: string)
    ensures |r| > 0 && AllDigits(r)
    ensures DecValue(r) == n
    ensures r[0] == '0' ==> n == 0 && |r| == 1
  {
    if n < 10 then [DigitChar(n)]
    else
      var p := NatToString(n / 10);
      var r := p + [DigitChar(n % 10)];
      assert r[..|r| - 1] == p;
      r
  }

  /** `i.toString()` for an integer `i`. */
  function IntToString(i: int): string {
    if i < 0 then "-" + NatToString(-i) else NatToString(i)
  }

  /** JavaScript `s.padStart(width, [c])`. */
  function PadStart(s: string, width: nat, c: char): (r: string)
    ensures |r| == if |s| >= width then |s| else width
    ensures r[|r| - |s|..] == s
    ensures forall i :: 0 <= i < |r| - |s| ==> r[i] == c
  {
    if |s| >= width then s else seq(width - |s|, _ => c) + s
  }

  function LowerChar(c: char): char {
    if 'A' <= c <= 'Z' then (c as int + 32) as char else c
  }

  /** `s.toLowerCase()` on the ASCII letters. */
  function ToLower(s: string): (r: string)
    ensures |r| == |s|
  {
    if |s| == 0 then [] else [LowerChar(s[0])] + ToLower(s[1..])
  }

  /** `sub` occurs in `s` starting at index `i`. */
  predicate OccursAt(s: string, sub: string, i: int) {
    0 <= i && i + |sub| <= |s| && s[i..i + |sub|] == sub
  }

  /** JavaScript `s.includes(sub)`. */
  predicate Contains(s: string, sub: string) {
    sub <= s || (|s| > 0 && Contains(s[1..], sub))
  }

  /** `includes` holds exactly when the substring occurs at some index. */
  lemma {:induction false} ContainsIffOccurs(s: string, sub: string)
    ensures Contains(s, sub) <==> exists i :: OccursAt(s, sub, i)
  {
    if sub <= s {
      assert s[0..|sub|] == sub;
      assert OccursAt(s, sub, 0);
    } else if |s| > 0 {
      ContainsIffOccurs(s[1..], sub);
      if Contains(s[1..], sub) {
        var i :| OccursAt(s[1..], sub, i);
        TailSlice(s, i, i + |sub|);
        assert OccursAt(s, sub, i + 1);
      } else {
        forall i | OccursAt(s, sub, i) && i > 0 ensures OccursAt(s[1..], sub, i - 1) {
          TailSlice(s, i - 1, i - 1 + |sub|);
        }
      }
    }
  }

  /** A slice of the tail is the slice one further on of the whole. */
  lemma TailSlice(s: string, a: int, b: int)
    requires |s| > 0 && 0 <= a <= b <= |s| - 1
    ensures s[1..][a..b] == s[a + 1..b + 1]
  {
    assert forall j :: 0 <= j < b - a ==> s[1..][a..b][j] == s[a + 1 + j];
  }

  /** The empty string occurs in every string. */
  lemma ContainsEmpty(s: string)
    ensures Contains(s, "")
  {
    assert [] <= s;
  }

  lemma {:induction false} DigitRunOfDigits(d: string, x: string)
    requires AllDigits(d)
    requires |x| == 0 || !IsDigit(x[0])
    ensures DigitRun(d + x) == d
  {
    if |d| > 0 {
      assert (d + x)[1..] == d[1..] + x;
      DigitRunOfDigits(d[1..], x);
      assert d == [d[0]] + d[1..];
    } else {
      assert d + x == x;
    }
  }

  /** A string that starts with a digit (and not with a hex prefix the radix
      form honours) parses to the value of its leading digit run. */
  lemma ParseIntOfDigitStart(s: string, hexPrefix: bool)
    requires |s| > 0 && IsDigit(s[0])
    requires !(hexPrefix && |s| >= 2 && s[0] == '0' && (s[1] == 'x' || s[1] == 'X'))
    ensures ParseIntRadix(s, hexPrefix) == Some(DecValue(DigitRun(s)))
  {
    assert !IsJsSpace(s[0]);
    assert TrimStart(s) == s;
    assert StripSign(s) == s;
    assert SignOf(s) == 1;
  }

  /** `parseInt` reads the leading run of digits and ignores what follows,
      unless the run is a lone `0` followed by `x`, which starts a hex literal. */
  lemma ParseIntReadsDigitPrefix(d: string, x: string)
    requires |d| > 0 && AllDigits(d)
    requires |x| == 0 || !IsDigit(x[0])
    requires d == "0" && |x| > 0 ==> x[0] != 'x' && x[0] != 'X'
    ensures ParseInt(d + x) == Some(DecValue(d))
    ensures ParseInt10(d + x) == Some(DecValue(d))
  {
    var s := d + x;
    assert s[0] == d[0];
    DigitRunOfDigits(d, x);
    if |s| >= 2 && s[0] == '0' {
      if |d| == 1 {
        assert d == "0";
        assert s[1] == x[0];
      } else {
        assert s[1] == d[1];
      }
    }
    ParseIntOfDigitStart(s, true);
    ParseIntOfDigitStart(s, false);
  }

  /** `parseInt` of the decimal rendering gives the number back, for both radix forms. */
  lemma ParseIntOfIntToString(i: int)
    ensures ParseInt(IntToString(i)) == Some(i)
    ensures ParseInt10(IntToString(i)) == Some(i)
  {
    if i >= 0 {
      var d := NatToString(i);
      assert d + [] == d;
      ParseIntReadsDigitPrefix(d, []);
    } else {
      ParseNegativeRendering(i, true);
      ParseNegativeRendering(i, false);
    }
  }

  /** A negative number renders as `-` and its magnitude, which parses back. */
  lemma ParseNegativeRendering(i: int, hexPrefix: bool)
    requires i < 0
    ensures ParseIntRadix(IntToString(i), hexPrefix) == Some(i)
  {
    var d := NatToString(-i);
    var s := "-" + d;
    assert TrimStart(s) == s by {
      assert !IsJsSpace(s[0]);
    }
    assert StripSign(s) == d by {
      assert s[1..] == d;
    }
    assert SignOf(s) == -1;
    assert DigitRun(d) == d by {
      assert d + [] == d;
      DigitRunOfDigits(d, []);
    }
    assert d[0] != '0';
  }

  /** A string without a single digit parses to NaN. */
  lemma ParseIntWithoutDigits(s: string)
    requires forall i :: 0 <= i < |s| ==> !IsDigit(s[i])
    ensures ParseInt(s) == None && ParseInt10(s) == None
  {
    var t := TrimStart(s);
    var u := StripSign(t);
    assert |u| == 0 || !IsDigit(u[0]) by {
      if |u| > 0 {
        var k := |s| - |t| + (|t| - |u|);
        assert u[0] == t[|t| - |u|] == s[k];
      }
    }
    UnsignedWithoutDigit(u, true);
    UnsignedWithoutDigit(u, false);
  }

  /** Unsigned text that does not start with a digit has no magnitude. */
  lemma UnsignedWithoutDigit(u: string, hexPrefix: bool)
    requires |u| == 0 || !IsDigit(u[0])
    ensures ParseUnsigned(u, hexPrefix) == None
  {
    assert DigitRun(u) == [];
  }
}
