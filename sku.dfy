/** Product codes `PRD-<category code>-<number>`
    (`generateSKU` in backend/src/controllers/productController.ts). The code
    as written numbers a new SKU after the lexicographically greatest existing
    SKU of its category; the corrected generator numbers it after the greatest
    existing number, which is what keeps SKUs unique past 999. */
module Sku {
  import opened Optional
  import opened JsText

  const KnownCategories: set<string> := {"Building Materials", "Equipment", "Finishing", "Tools", "Safety"}

  /** `categoryMap[category] || 'GEN'` over the five known categories. */
  function CategoryCode(category: string): (code: string)
    ensures code == "GEN" <==> category !in KnownCategories
    ensures category == "Building Materials" ==> code == "BLD"
    ensures category == "Equipment" ==> code == "EQP"
    ensures category == "Finishing" ==> code == "FIN"
    ensures category == "Tools" ==> code == "TLS"
    ensures category == "Safety" ==> code == "SFT"
  {
    if category == "Building Materials" then "BLD"
    else if category == "Equipment" then "EQP"
    else if category == "Finishing" then "FIN"
    else if category == "Tools" then "TLS"
    else if category == "Safety" then "SFT"
    else "GEN"
  }

  /** Every category code is a non-empty run of capitals. */
  lemma CodeIsCapitals(category: string)
    ensures |CategoryCode(category)| == 3 && AllUpper(CategoryCode(category))
  {
    var code := CategoryCode(category);
    assert |code| == 3;
    assert IsUpper(code[0]) && IsUpper(code[1]) && IsUpper(code[2]);
  }

  /** `PRD-${code}-`. */
  function SkuPrefix(code: string): string { "PRD-" + code + "-" }

  predicate IsUpper(c: char) { 'A' <= c <= 'Z' }

  predicate AllUpper(s: string) { forall i :: 0 <= i < |s| ==> IsUpper(s[i]) }

  /** The longest prefix of `s` made of capital letters. */
  function UpperRun(s: string): (r: string)
    ensures r <= s && AllUpper(r)
    ensures |r| < |s| ==> !IsUpper(s[|r|])
  {
    if |s| > 0 && IsUpper(s[0]) then [s[0]] + UpperRun(s[1..]) else []
  }

  /** The capture group of `/PRD-[A-Z]+-(\d+)/` when the pattern matches at the
      start of `s`. `[A-Z]+` can only give way to `-` at the end of the whole
      run of capitals, and `(\d+)` takes the whole run of digits. */
  function MatchHere(s: string): (g: Option<string>)
    ensures g.Some? ==> |g.value| > 0 && AllDigits(g.value)
  {
    if !("PRD-" <= s) then None
    else
      var rest := s[4..];
      var u := UpperRun(rest);
      if |u| == 0 || |u| >= |rest| || rest[|u|] != '-' then None
      else
        var d := DigitRun(rest[|u| + 1..]);
        if |d| == 0 then None else Some(d)
  }

  /** `s.match(/PRD-[A-Z]+-(\d+)/)?.[1]`: the group of the leftmost match. */
  function SkuMatch(s: string): (g: Option<string>)
    ensures g.Some? ==> |g.value| > 0 && AllDigits(g.value)
  {
    if |s| == 0 then None
    else if MatchHere(s).Some? then MatchHere(s)
    else SkuMatch(s[1..])
  }

  /** `parseInt` of the group is its decimal value. */
  lemma SkuNumberIsParseInt(s: string)
    requires SkuMatch(s).Some?
    ensures ParseInt(SkuMatch(s).value) == Some(DecValue(SkuMatch(s).value))
  {
    var d := SkuMatch(s).value;
    assert d + [] == d;
    ParseIntReadsDigitPrefix(d, []);
  }

  /** A code of capitals followed by a number matches at the start, and the
      group is the whole number. */
  lemma {:induction false} UpperRunStops(code: string, x: string)
    requires AllUpper(code)
    requires |x| > 0 && !IsUpper(x[0])
    ensures UpperRun(code + x) == code
  {
    if |code| > 0 {
      assert (code + x)[1..] == code[1..] + x;
      UpperRunStops(code[1..], x);
      assert code == [code[0]] + code[1..];
    } else {
      assert code + x == x;
    }
  }

  lemma MatchHereOfSku(code: string, digits: string)
    requires |code| > 0 && AllUpper(code)
    requires |digits| > 0 && AllDigits(digits)
    ensures MatchHere(SkuPrefix(code) + digits) == Some(digits)
  {
    var s := SkuPrefix(code) + digits;
    var rest := code + ("-" + digits);
    assert s == "PRD-" + rest;
    assert "PRD-" <= s && s[4..] == rest;
    UpperRunStops(code, "-" + digits);
    assert rest[|code|] == '-';
    assert rest[|code| + 1..] == digits + [];
    DigitRunOfDigits(digits, []);
  }

  lemma MatchOfSku(code: string, digits: string)
    requires |code| > 0 && AllUpper(code)
    requires |digits| > 0 && AllDigits(digits)
    ensures SkuMatch(SkuPrefix(code) + digits) == Some(digits)
  {
    MatchHereOfSku(code, digits);
  }

  /** `n.toString().padStart(3, '0')`. */
  function SkuNumber(n: nat): (r: string)
    ensures |r| >= 3 && AllDigits(r)
  {
    PadStart(NatToString(n), 3, '0')
  }

  lemma AllDigitsAppend(a: string, b: string)
    requires AllDigits(a) && AllDigits(b)
    ensures AllDigits(a + b)
  {
    var s := a + b;
    forall i | 0 <= i < |s| ensures IsDigit(s[i]) {
      if i < |a| { assert s[i] == a[i]; } else { assert s[i] == b[i - |a|]; }
    }
  }

  lemma {:induction false} DecValueOfZeros(z: string)
    requires forall i :: 0 <= i < |z| ==> z[i] == '0'
    ensures AllDigits(z) && DecValue(z) == 0
  {
    if |z| > 0 {
      DecValueOfZeros(z[..|z| - 1]);
    }
  }

  /** Leading zeros do not change the value of a digit string. */
  lemma {:induction false} DecValueLeadingZeros(z: string, d: string)
    requires forall i :: 0 <= i < |z| ==> z[i] == '0'
    requires AllDigits(d)
    ensures AllDigits(z + d) && DecValue(z + d) == DecValue(d)
  {
    DecValueOfZeros(z);
    AllDigitsAppend(z, d);
    if |d| == 0 {
      assert z + d == z;
    } else {
      var s := z + d;
      var d' := d[..|d| - 1];
      assert s[..|s| - 1] == z + d';
      assert s[|s| - 1] == d[|d| - 1];
      DecValueLeadingZeros(z, d');
    }
  }

  /** Padding with zeros does not change the number. */
  lemma SkuNumberValue(n: nat)
    ensures DecValue(SkuNumber(n)) == n
  {
    var d := NatToString(n);
    var r := SkuNumber(n);
    var z := r[..|r| - |d|];
    assert r == z + d;
    DecValueLeadingZeros(z, d);
  }

  /** The generated SKU of a number. */
  function SkuOf(code: string, n: nat): string {
    SkuPrefix(code) + SkuNumber(n)
  }

  /** Code-point order on strings (`orderBy: { sku: 'desc' }`). */
  predicate LexLess(a: string, b: string) {
    if |a| == 0 then |b| > 0
    else if |b| == 0 then false
    else a[0] < b[0] || (a[0] == b[0] && LexLess(a[1..], b[1..]))
  }

  lemma {:induction false} LexLessIrreflexive(a: string)
    ensures !LexLess(a, a)
  {
    if |a| > 0 {
      LexLessIrreflexive(a[1..]);
    }
  }

  lemma {:induction false} LexLessTotal(a: string, b: string)
    ensures a == b || LexLess(a, b) || LexLess(b, a)
  {
    if |a| > 0 && |b| > 0 && a[0] == b[0] {
      LexLessTotal(a[1..], b[1..]);
      if a[1..] == b[1..] {
        assert a == [a[0]] + a[1..] && b == [b[0]] + b[1..];
      }
    }
  }

  lemma {:induction false} LexLessTransitive(a: string, b: string, c: string)
    requires LexLess(a, b) && LexLess(b, c)
    ensures LexLess(a, c)
  {
    if |a| > 0 && a[0] == b[0] && b[0] == c[0] {
      LexLessTransitive(a[1..], b[1..], c[1..]);
    }
  }

  /** A common prefix does not change the order. */
  lemma {:induction false} LexLessCommonPrefix(p: string, a: string, b: string)
    ensures LexLess(p + a, p + b) <==> LexLess(a, b)
  {
    if |p| > 0 {
      assert (p + a)[1..] == p[1..] + a && (p + b)[1..] == p[1..] + b;
      LexLessCommonPrefix(p[1..], a, b);
    } else {
      assert p + a == a && p + b == b;
    }
  }

  /** The lexicographically greatest of `skus` that starts with `prefix`
      (`findFirst` ordered by SKU descending). */
  function LastWithPrefix(skus: seq<string>, prefix: string): (last: Option<string>)
    ensures last.None? <==> forall s :: s in skus ==> !(prefix <= s)
    ensures last.Some? ==> last.value in skus && prefix <= last.value
    ensures last.Some? ==> forall s :: s in skus && prefix <= s ==> !LexLess(last.value, s)
  {
    if |skus| == 0 then None
    else
      var rest := LastWithPrefix(skus[1..], prefix);
      var s := skus[0];
      assert forall x :: x in skus <==> x == s || x in skus[1..];
      if !(prefix <= s) then
        rest
      else if rest.None? then
        LexLessIrreflexive(s);
        assert s in skus && prefix <= s;
        Some(s)
      else if LexLess(rest.value, s) then
        LexLessIrreflexive(s);
        forall x | x in skus[1..] && prefix <= x ensures !LexLess(s, x) {
          if LexLess(s, x) {
            LexLessTransitive(rest.value, s, x);
          }
        }
        Some(s)
      else
        LexLessTotal(rest.value, s);
        rest
  }

  /** The number `generateSKU` as written gives the next SKU of `code`. */
  function NextNumberAsWritten(skus: seq<string>, code: string): (n: nat)
    ensures n >= 1
  {
    match LastWithPrefix(skus, SkuPrefix(code))
    case None => 1
    case Some(last) =>
      match SkuMatch(last)
      case None => 1
      case Some(d) => DecValue(d) + 1
  }

  /** `generateSKU(category)` as written, over the existing SKUs. */
  function GenerateSkuAsWritten(category: string, skus: seq<string>): string {
    SkuOf(CategoryCode(category), NextNumberAsWritten(skus, CategoryCode(category)))
  }

  /** Of two SKUs of a prefix, the greater is the last, in either order. */
  lemma LastOfTwo(x: string, y: string, prefix: string)
    requires prefix <= x && prefix <= y && LexLess(x, y)
    ensures LastWithPrefix([x, y], prefix) == Some(y) && LastWithPrefix([y, x], prefix) == Some(y)
  {
    LexLessIrreflexive(x);
    var l1 := LastWithPrefix([x, y], prefix);
    assert l1.value == x || l1.value == y;
    var l2 := LastWithPrefix([y, x], prefix);
    assert l2.value == x || l2.value == y;
    assert y in [y, x] && y in [x, y];
  }

  /** `n.toString()` appends the last digit to the rendering of the rest. */
  lemma NatToStringStep(m: nat, d: nat)
    requires m >= 1 && d < 10
    ensures NatToString(10 * m + d) == NatToString(m) + [DigitChar(d)]
  {
    var n := 10 * m + d;
    assert n / 10 == m && n % 10 == d;
  }

  /** A numbered SKU of a code carries the code's prefix and its number as
      the group of the pattern. */
  lemma SkuOfParts(code: string, n: nat)
    requires |code| > 0 && AllUpper(code)
    ensures SkuPrefix(code) <= SkuOf(code, n)
    ensures SkuMatch(SkuOf(code, n)) == Some(SkuNumber(n))
    ensures DecValue(SkuNumber(n)) == n
  {
    MatchOfSku(code, SkuNumber(n));
    SkuNumberValue(n);
  }

  /** The rendering of `10 * m + d` is one longer than that of `m` and starts the same. */
  lemma NatToStringHead(m: nat, d: nat)
    requires m >= 1 && d < 10
    ensures |NatToString(10 * m + d)| == |NatToString(m)| + 1
    ensures NatToString(10 * m + d)[0] == NatToString(m)[0]
  {
    NatToStringStep(m, d);
  }

  /** 1000 renders as four digits starting with 1. */
  lemma SkuNumber1000()
    ensures SkuNumber(1000) == NatToString(1000) && SkuNumber(1000)[0] == '1'
  {
    NatToStringHead(1, 0);
    NatToStringHead(10, 0);
    NatToStringHead(100, 0);
    assert NatToString(1) == [DigitChar(1)];
  }

  /** 999 renders as three digits starting with 9. */
  lemma SkuNumber999()
    ensures SkuNumber(999) == NatToString(999) && SkuNumber(999)[0] == '9'
  {
    NatToStringHead(9, 9);
    NatToStringHead(99, 9);
    assert NatToString(9) == [DigitChar(9)];
  }

  /** `PRD-<code>-1000` sorts before `PRD-<code>-999`. */
  lemma ThousandSortsFirst(code: string)
    ensures LexLess(SkuOf(code, 1000), SkuOf(code, 999))
  {
    SkuNumber1000();
    SkuNumber999();
    assert LexLess(SkuNumber(1000), SkuNumber(999));
    LexLessCommonPrefix(SkuPrefix(code), SkuNumber(1000), SkuNumber(999));
  }

  /** Of two numbered SKUs of a category, the generator as written numbers
      the next one after the lexicographically greater. */
  lemma AsWrittenFollowsGreater(category: string, n: nat, m: nat)
    requires LexLess(SkuOf(CategoryCode(category), n), SkuOf(CategoryCode(category), m))
    ensures var code := CategoryCode(category);
            GenerateSkuAsWritten(category, [SkuOf(code, n), SkuOf(code, m)]) == SkuOf(code, m + 1)
            && GenerateSkuAsWritten(category, [SkuOf(code, m), SkuOf(code, n)]) == SkuOf(code, m + 1)
  {
    CodeIsCapitals(category);
    NextAfterGreater(CategoryCode(category), n, m);
  }

  lemma NextAfterGreater(code: string, n: nat, m: nat)
    requires |code| > 0 && AllUpper(code) && LexLess(SkuOf(code, n), SkuOf(code, m))
    ensures NextNumberAsWritten([SkuOf(code, n), SkuOf(code, m)], code) == m + 1
    ensures NextNumberAsWritten([SkuOf(code, m), SkuOf(code, n)], code) == m + 1
  {
    SkuOfParts(code, n);
    SkuOfParts(code, m);
    LastOfTwo(SkuOf(code, n), SkuOf(code, m), SkuPrefix(code));
  }

  /** Of two numbered SKUs of a category, the corrected generator numbers the
      next one after the greater number. */
  lemma CorrectedFollowsLarger(category: string, n: nat, m: nat)
    requires n <= m
    ensures var code := CategoryCode(category);
            GenerateSku(category, [SkuOf(code, n), SkuOf(code, m)]) == SkuOf(code, m + 1)
  {
    CodeIsCapitals(category);
    MaxOfTwoSkus(CategoryCode(category), n, m);
  }

  lemma MaxOfTwoSkus(code: string, n: nat, m: nat)
    requires |code| > 0 && AllUpper(code) && n <= m
    ensures MaxNumber([SkuOf(code, n), SkuOf(code, m)], SkuPrefix(code)) == m
  {
    SkuOfParts(code, n);
    SkuOfParts(code, m);
    MaxOfTwo(SkuOf(code, n), SkuOf(code, m), SkuPrefix(code));
  }

  /** Once number 1000 exists beside 999, the greatest SKU stays the one
      numbered 999 ('9' sorts after '1'), so the generator as written hands
      out number 1000 again. */
  lemma DuplicateSkuAfter999(category: string)
    ensures var code := CategoryCode(category);
            var skus := [SkuOf(code, 999), SkuOf(code, 1000)];
            GenerateSkuAsWritten(category, skus) == SkuOf(code, 1000) && SkuOf(code, 1000) in skus
  {
    ThousandSortsFirst(CategoryCode(category));
    AsWrittenFollowsGreater(category, 1000, 999);
  }

  /** The corrected generator gives number 1001 there. */
  lemma CorrectedAfter999(category: string)
    ensures var code := CategoryCode(category);
            GenerateSku(category, [SkuOf(code, 999), SkuOf(code, 1000)]) == SkuOf(code, 1001)
  {
    CorrectedFollowsLarger(category, 999, 1000);
  }

  /** The number of a SKU of `prefix`, if it has one. */
  predicate Numbered(s: string, prefix: string) {
    prefix <= s && SkuMatch(s).Some?
  }

  /** The greatest number among the SKUs of `prefix`, 0 when there are none. */
  function MaxNumber(skus: seq<string>, prefix: string): nat {
    if |skus| == 0 then 0
    else
      var rest := MaxNumber(skus[1..], prefix);
      var s := skus[0];
      if Numbered(s, prefix) && DecValue(SkuMatch(s).value) > rest then DecValue(SkuMatch(s).value)
      else rest
  }

  /** `MaxNumber` bounds every number of the prefix and is one of them, or 0. */
  lemma {:induction false} MaxNumberIsMax(skus: seq<string>, prefix: string)
    ensures forall s :: s in skus && Numbered(s, prefix) ==> DecValue(SkuMatch(s).value) <= MaxNumber(skus, prefix)
    ensures MaxNumber(skus, prefix) == 0 || exists s :: s in skus && Numbered(s, prefix) && DecValue(SkuMatch(s).value) == MaxNumber(skus, prefix)
  {
    if |skus| > 0 {
      MaxNumberIsMax(skus[1..], prefix);
      assert forall x :: x in skus <==> x == skus[0] || x in skus[1..];
    }
  }

  /** Without a numbered SKU of the prefix the greatest number is 0. */
  lemma {:induction false} MaxNumberOfNone(skus: seq<string>, prefix: string)
    requires forall s :: s in skus ==> !(prefix <= s)
    ensures MaxNumber(skus, prefix) == 0
  {
    if |skus| > 0 {
      assert skus[0] in skus;
      assert forall x :: x in skus[1..] ==> x in skus;
      MaxNumberOfNone(skus[1..], prefix);
    }
  }

  /** The corrected generator: one more than the greatest existing number. */
  function GenerateSku(category: string, skus: seq<string>): string {
    var code := CategoryCode(category);
    SkuOf(code, MaxNumber(skus, SkuPrefix(code)) + 1)
  }

  /** The corrected SKU carries the category's prefix and is never one that exists. */
  lemma GeneratedSkuIsFresh(category: string, skus: seq<string>)
    ensures SkuPrefix(CategoryCode(category)) <= GenerateSku(category, skus)
    ensures GenerateSku(category, skus) !in skus
  {
    var code := CategoryCode(category);
    var n := MaxNumber(skus, SkuPrefix(code)) + 1;
    var sku := GenerateSku(category, skus);
    assert sku == SkuPrefix(code) + SkuNumber(n);
    CodeIsCapitals(category);
    MatchOfSku(code, SkuNumber(n));
    SkuNumberValue(n);
    MaxNumberIsMax(skus, SkuPrefix(code));
  }

  /** A one-digit number is padded with two zeros. */
  lemma SkuNumberOfDigit(n: nat)
    requires n < 10
    ensures SkuNumber(n) == ['0', '0', DigitChar(n)]
  {
    var c := DigitChar(n);
    assert NatToString(n) == [c];
    var r := PadStart([c], 3, '0');
    assert |r| == 3 && r[2..] == [c] && r[0] == '0' && r[1] == '0';
    assert r == ['0', '0', c];
  }

  /** Without SKUs of the code both numbers are 1. */
  lemma FirstNumbers(code: string, skus: seq<string>)
    requires forall s :: s in skus ==> !(SkuPrefix(code) <= s)
    ensures NextNumberAsWritten(skus, code) == 1 && MaxNumber(skus, SkuPrefix(code)) == 0
  {
    assert LastWithPrefix(skus, SkuPrefix(code)).None?;
    MaxNumberOfNone(skus, SkuPrefix(code));
  }

  /** Both generators start at 001 for a category without SKUs, and the SKU
      is `PRD-<code>-001`. */
  lemma FirstSkuOfCategory(category: string, skus: seq<string>)
    requires forall s :: s in skus ==> !(SkuPrefix(CategoryCode(category)) <= s)
    ensures GenerateSku(category, skus) == GenerateSkuAsWritten(category, skus)
    ensures GenerateSku(category, skus) == SkuPrefix(CategoryCode(category)) + "001"
  {
    var code := CategoryCode(category);
    FirstNumbers(code, skus);
    SkuOfOne(code);
    assert GenerateSku(category, skus) == SkuOf(code, 1);
    assert GenerateSkuAsWritten(category, skus) == SkuOf(code, 1);
  }

  lemma SkuOfOne(code: string)
    ensures SkuOf(code, 1) == SkuPrefix(code) + "001"
  {
    SkuNumberOne();
  }

  lemma SkuNumberOne()
    ensures SkuNumber(1) == "001"
  {
    SkuNumberOfDigit(1);
    assert DigitChar(1) == '1';
  }

  /** SKUs numbered below 10 sort as their numbers do. */
  lemma SmallSkusInOrder(code: string, n: nat, m: nat)
    requires n < m < 10
    ensures LexLess(SkuOf(code, n), SkuOf(code, m))
  {
    SkuNumberOfDigit(n);
    SkuNumberOfDigit(m);
    var p := SkuPrefix(code) + "00";
    assert ['0', '0', DigitChar(n)] == "00" + [DigitChar(n)];
    assert ['0', '0', DigitChar(m)] == "00" + [DigitChar(m)];
    assert SkuOf(code, n) == p + [DigitChar(n)];
    assert SkuOf(code, m) == p + [DigitChar(m)];
    assert LexLess([DigitChar(n)], [DigitChar(m)]);
    LexLessCommonPrefix(p, [DigitChar(n)], [DigitChar(m)]);
  }

  /** The seed data (PRD-BLD-001 and PRD-BLD-002), for any category: after
      the SKUs numbered 1 and 2 the generator as written gives number 3. */
  lemma SeedSkuAsWritten(category: string)
    ensures var code := CategoryCode(category);
            GenerateSkuAsWritten(category, [SkuOf(code, 1), SkuOf(code, 2)]) == SkuOf(code, 3)
  {
    SmallSkusInOrder(CategoryCode(category), 1, 2);
    AsWrittenFollowsGreater(category, 1, 2);
  }

  /** Of two numbered SKUs of a prefix, the greater number is the greatest. */
  lemma MaxOfTwo(a: string, b: string, prefix: string)
    requires prefix <= a && prefix <= b && SkuMatch(a).Some? && SkuMatch(b).Some?
    requires DecValue(SkuMatch(a).value) <= DecValue(SkuMatch(b).value)
    ensures MaxNumber([a, b], prefix) == DecValue(SkuMatch(b).value)
  {
    var skus := [a, b];
    assert Numbered(a, prefix) && Numbered(b, prefix);
    assert [b][1..] == [] && MaxNumber([], prefix) == 0;
    assert MaxNumber([b], prefix) == DecValue(SkuMatch(b).value);
    assert skus[1..] == [b];
  }

  /** The corrected generator agrees on the seed data. */
  lemma SeedSkuCorrected(category: string)
    ensures var code := CategoryCode(category);
            GenerateSku(category, [SkuOf(code, 1), SkuOf(code, 2)]) == SkuOf(code, 3)
  {
    CorrectedFollowsLarger(category, 1, 2);
  }
}
