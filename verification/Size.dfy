/**
 Human-readable sizes: the parser, the printer, and when printing and parsing again gives
 the same number back.

 strconv.ParseFloat on plain digits is modelled exactly, with round-to-nearest-even to 53
 significant bits; on any other text it is the parameter goFloat. Case folding is ASCII.
 */
module Size {
  import opened Options
  import opened Arithmetic
  import opened GoText

  datatype Unit = Unit(suffix: string, multiplier: nat)

  const KB: nat := 1024
  const MB: nat := 1048576
  const GB: nat := 1073741824
  const TB: nat := 1099511627776

  const SIZE_UNITS: seq<Unit> := [Unit("tb", 1099511627776), Unit("gb", 1073741824), Unit("mb", 1048576), Unit("kb", 1024), Unit("b", 1)]

  // --- Binary64 numbers that are integers ---

  /** How many low bits a 53-bit significand leaves out of n. */
  function LostBits(n: nat): nat {
    if n < 0x20_0000_0000_0000 then 0 else 1 + LostBits(n / 2)
  }

  /** n has at most 53 significant bits. */
  predicate Fits53(n: nat) {
    n % Pow2(LostBits(n)) == 0
  }

  /** The nearest number with 53 significant bits, ties to even. */
  function RoundDouble(n: nat): nat {
    var u := Pow2(LostBits(n));
    var q, r := n / u, n % u;
    if 2 * r < u || (2 * r == u && q % 2 == 0) then q * u else (q + 1) * u
  }

  lemma RoundKeepsIff(n: nat)
    ensures RoundDouble(n) == n <==> Fits53(n)
  {
    var u := Pow2(LostBits(n));
    var q, r := n / u, n % u;
    assert n == q * u + r;
    assert (q + 1) * u == q * u + u;
  }

  // --- ParseSize ---

  function LowerChar(c: char): char {
    if 'A' <= c <= 'Z' then ((c as int) + 32) as char else c
  }

  function ToLower(s: string): (r: string)
    ensures |r| == |s| && forall i :: 0 <= i < |s| ==> r[i] == LowerChar(s[i])
  {
    if s == "" then "" else [LowerChar(s[0])] + ToLower(s[1..])
  }

  predicate HasSuffix(s: string, suffix: string) {
    |suffix| <= |s| && s[|s| - |suffix|..] == suffix
  }

  /** ParseFloat: digits are rounded, and past the binary64 range they are an error. */
  function ParseFloat(s: string, goFloat: string -> Option<real>): Option<real> {
    if AllDigits(s) then
      var x := RoundDouble(NumeralValue(s));
      if x >= Pow2(1024) then None else Some(x as real)
    else goFloat(s)
  }

  /** int64(x) for a positive float64; out of range it is what amd64 gives. */
  function ToInt64(x: real): int {
    if x < 9_223_372_036_854_775_808.0 then x.Floor else MIN_INT64
  }

  /** The product in binary64; those of powers of two are exact. */
  function Product(x: real, multiplier: nat): real {
    x * (multiplier as real)
  }

  function Scaled(text: string, multiplier: nat, goFloat: string -> Option<real>): Option<int> {
    match ParseFloat(text, goFloat)
    case None => None
    case Some(x) => if x <= 0.0 then Some(0) else Some(ToInt64(Product(x, multiplier)))
  }

  /** The first unit whose suffix leaves a number decides; with none the number is megabytes. */
  function ParseUnits(units: seq<Unit>, trimmed: string, goFloat: string -> Option<real>): Option<int> {
    if units == [] then Scaled(trimmed, MB, goFloat)
    else
      var u := units[0];
      if !HasSuffix(trimmed, u.suffix) then ParseUnits(units[1..], trimmed, goFloat)
      else
        var numPart := TrimSpace(trimmed[..|trimmed| - |u.suffix|]);
        if numPart == "" then ParseUnits(units[1..], trimmed, goFloat)
        else Scaled(numPart, u.multiplier, goFloat)
  }

  /** None is the error return. */
  function ParseSize(s: string, defaultVal: int, goFloat: string -> Option<real>): Option<int> {
    var trimmed := TrimSpace(ToLower(s));
    if trimmed == "" then Some(defaultVal) else ParseUnits(SIZE_UNITS, trimmed, goFloat)
  }

  // --- FormatSize ---

  function Signed(n: int): string {
    if n < 0 then "-" + Decimal(-n) else Decimal(n)
  }

  function FormatSize(bytes: int): string {
    if bytes >= TB && bytes % 1099511627776 == 0 then Signed(bytes / 1099511627776) + " TB"
    else if bytes >= GB && bytes % 1073741824 == 0 then Signed(bytes / 1073741824) + " GB"
    else if bytes >= MB && bytes % 1048576 == 0 then Signed(bytes / 1048576) + " MB"
    else if bytes >= KB && bytes % 1024 == 0 then Signed(bytes / 1024) + " KB"
    else Signed(bytes) + " B"
  }

  /** The unit FormatSize chooses. */
  function UnitOf(bytes: nat): nat {
    if bytes >= TB && bytes % 1099511627776 == 0 then TB
    else if bytes >= GB && bytes % 1073741824 == 0 then GB
    else if bytes >= MB && bytes % 1048576 == 0 then MB
    else if bytes >= KB && bytes % 1024 == 0 then KB
    else 1
  }

  // --- The round trip ---

  lemma {:induction false} ToLowerAppend(s: string, t: string)
    ensures ToLower(s + t) == ToLower(s) + ToLower(t)
  {
  }

  lemma LowerDigits(s: string)
    requires AllDigits(s)
    ensures ToLower(s) == s
  {
  }

  /** A number, a space and a unit: only that unit's suffix matches, and the number is left. */
  lemma ParsePrinted(q: nat, k: nat, goFloat: string -> Option<real>)
    requires k < 5
    ensures var text := Decimal(q) + " " + SIZE_UNITS[k].suffix;
            ParseUnits(SIZE_UNITS, text, goFloat) == Scaled(Decimal(q), SIZE_UNITS[k].multiplier, goFloat)
  {
    hide Decimal, Scaled, TrimSpace;
    var num := Decimal(q);
    var text := num + " " + SIZE_UNITS[k].suffix;
    assert text[|num|] == ' ';
    var us := SIZE_UNITS;
    forall i | 0 <= i < k ensures !HasSuffix(text, us[i].suffix) {
      if k == 4 {
        assert text[|text| - 2] == ' ';
        assert |us[i].suffix| == 2 && us[i].suffix[0] != ' ';
      } else {
        assert text[|text| - 2] == us[k].suffix[0];
      }
      SuffixSecondLast(text, us[i].suffix);
    }
    SkipUnits(us, k, text, goFloat);
    assert text[..|text| - |us[k].suffix|] == num + " ";
    TrimNumber(num);
    assert HasSuffix(text, us[k].suffix);
  }

  lemma SuffixSecondLast(s: string, suffix: string)
    requires |suffix| == 2 && |s| >= 2 && s[|s| - 2] != suffix[0]
    ensures !HasSuffix(s, suffix)
  {
    assert s[|s| - 2..][0] == s[|s| - 2];
  }

  lemma {:induction false} SkipUnits(us: seq<Unit>, k: nat, text: string, goFloat: string -> Option<real>)
    requires k <= |us| && forall i :: 0 <= i < k ==> !HasSuffix(text, us[i].suffix)
    ensures ParseUnits(us, text, goFloat) == ParseUnits(us[k..], text, goFloat)
    decreases k
  {
    hide HasSuffix, Scaled;
    if k > 0 {
      forall i | 0 <= i < k - 1 ensures !HasSuffix(text, us[1..][i].suffix) {
        assert us[1..][i] == us[i + 1];
      }
      SkipUnits(us[1..], k - 1, text, goFloat);
      assert us[1..][k - 1..] == us[k..];
    } else {
      assert us[0..] == us;
    }
  }

  lemma TrimNumber(num: string)
    requires AllDigits(num)
    ensures TrimSpace(num + " ") == num
  {
    var s := num + " ";
    assert !IsSpace(s[0]) && TrimLeft(s) == s;
    assert s[..|s| - 1] == num;
    assert TrimRight(s) == TrimRight(num) == num;
  }

  function UpperSuffix(k: nat): string {
    if k == 0 then " TB" else if k == 1 then " GB" else if k == 2 then " MB" else if k == 3 then " KB" else " B"
  }

  lemma FormatShape(n: nat, k: nat)
    requires k < 5 && SIZE_UNITS[k].multiplier == UnitOf(n)
    ensures FormatSize(n) == Decimal(n / UnitOf(n)) + UpperSuffix(k)
  {
    hide Decimal;
  }

  lemma LowerSuffix(k: nat)
    requires k < 5
    ensures ToLower(UpperSuffix(k)) == " " + SIZE_UNITS[k].suffix
  {
  }

  lemma PrintedForm(n: nat, k: nat)
    requires k < 5 && SIZE_UNITS[k].multiplier == UnitOf(n)
    ensures TrimSpace(ToLower(FormatSize(n))) == Decimal(n / UnitOf(n)) + " " + SIZE_UNITS[k].suffix
  {
    hide Decimal, TrimSpace, ToLower, UnitOf, FormatSize, UpperSuffix;
    var num := Decimal(n / UnitOf(n));
    FormatShape(n, k);
    LowerDigits(num);
    LowerSuffix(k);
    ToLowerAppend(num, UpperSuffix(k));
    var text := num + " " + SIZE_UNITS[k].suffix;
    assert ToLower(FormatSize(n)) == text;
    assert text[|text| - 1] == 'b';
    TrimIdentity(text);
  }

  lemma {:induction false} Pow2Large(n: nat)
    requires n >= 64
    ensures Pow2(n) > 0xFFFF_FFFF_FFFF_FFFF
  {
    if n == 64 {
      hide Pow2;
      assert Pow2(8) == 256 by { Pow2Of8(); }
      Pow2Add(8, 8);
      Pow2Add(16, 16);
      Pow2Add(32, 32);
    } else {
      Pow2Large(n - 1);
    }
  }

  lemma Pow2Of8()
    ensures Pow2(8) == 256
  {
    assert Pow2(4) == 16;
  }

  lemma {:induction false} Pow2Add(a: nat, b: nat)
    ensures Pow2(a + b) == Pow2(a) * Pow2(b)
  {
    if a > 0 { Pow2Add(a - 1, b); }
  }

  lemma {:induction false} LostBitsBound(n: nat)
    requires n > 0
    ensures Pow2(LostBits(n)) <= n
  {
    if n >= 0x20_0000_0000_0000 { LostBitsBound(n / 2); }
  }

  /** Rounding keeps zero, keeps positive numbers positive, and at most doubles them. */
  lemma RoundBounds(n: nat)
    ensures RoundDouble(n) <= 2 * n && (RoundDouble(n) == 0 <==> n == 0)
  {
    hide Pow2, LostBits;
    var u := Pow2(LostBits(n));
    if n > 0 { LostBitsBound(n); }
    QuotientParts(n, u);
    if n == 0 { RoundZero(); }
  }

  lemma RoundZero()
    ensures RoundDouble(0) == 0
  {
    assert LostBits(0) == 0 && Pow2(0) == 1;
  }

  lemma QuotientParts(n: nat, u: nat)
    requires u > 0
    ensures n / u * u <= n && (n / u + 1) * u <= n + u
    ensures u <= n ==> n / u * u > 0 && (n / u + 1) * u > 0
  {
    assert n == n / u * u + n % u;
    assert (n / u + 1) * u == n / u * u + u;
  }

  lemma FitsSmall(n: nat)
    requires n <= 0x20_0000_0000_0000
    ensures Fits53(n)
  {
    if n == 0x20_0000_0000_0000 {
      assert LostBits(n) == 1 && Pow2(1) == 2;
    } else {
      assert Pow2(0) == 1;
    }
  }

  lemma RealProduct(x: nat, unit: nat)
    ensures Product(x as real, unit) == (x * unit) as real
  {
  }

  lemma IntegerToInt64(y: nat)
    ensures ToInt64(y as real) == if y <= MAX_INT64 then y else MIN_INT64
  {
  }

  lemma ParsedDigits(q: nat, goFloat: string -> Option<real>)
    requires q <= MAX_INT64
    ensures ParseFloat(Decimal(q), goFloat) == Some(RoundDouble(q) as real)
  {
    hide Decimal, RoundDouble, Pow2;
    DecimalRoundTrip(q);
    RoundBounds(q);
    Pow2Large(1024);
  }

  lemma ScaledValue(q: nat, unit: nat, goFloat: string -> Option<real>)
    requires unit > 0 && q <= MAX_INT64
    ensures var y := RoundDouble(q) * unit;
            Scaled(Decimal(q), unit, goFloat) == Some(if y <= MAX_INT64 then y else MIN_INT64)
  {
    hide Decimal, RoundDouble, ParseFloat, ToInt64, Product;
    ParsedDigits(q, goFloat);
    RealProduct(RoundDouble(q), unit);
    IntegerToInt64(RoundDouble(q) * unit);
  }

  lemma ScaledExactIff(q: nat, unit: nat, n: nat, goFloat: string -> Option<real>)
    requires unit > 0 && n == q * unit <= MAX_INT64
    ensures Scaled(Decimal(q), unit, goFloat) == Some(n) <==> Fits53(q)
  {
    hide Decimal, RoundDouble, Fits53, Scaled;
    assert q <= q * unit;
    ScaledValue(q, unit, goFloat);
    RoundKeepsIff(q);
    DifferentProducts(RoundDouble(q), q, unit);
  }

  lemma DifferentProducts(x: nat, q: nat, unit: nat)
    requires unit > 0
    ensures x == q <==> x * unit == q * unit
    ensures x > 0 ==> x * unit > 0
  {
    assert (x - q) * unit == x * unit - q * unit;
  }

  lemma UnitDivides(n: nat)
    ensures UnitOf(n) > 0 && n == n / UnitOf(n) * UnitOf(n)
    ensures exists k :: 0 <= k < 5 && SIZE_UNITS[k].multiplier == UnitOf(n)
  {
    assert SIZE_UNITS[0].multiplier == TB && SIZE_UNITS[1].multiplier == GB && SIZE_UNITS[2].multiplier == MB;
    assert SIZE_UNITS[3].multiplier == KB && SIZE_UNITS[4].multiplier == 1;
  }

  /**
   Parsing a printed size gives it back exactly when the printed number, the size divided
   by its unit, has at most 53 significant bits.
   */
  lemma FormatParseIff(n: nat, defaultVal: int, goFloat: string -> Option<real>)
    requires n <= MAX_INT64
    ensures ParseSize(FormatSize(n), defaultVal, goFloat) == Some(n) <==> Fits53(n / UnitOf(n))
  {
    hide FormatSize, Scaled, Decimal, ToLower, TrimSpace, ParseUnits, Fits53, UnitOf;
    UnitDivides(n);
    var k :| 0 <= k < 5 && SIZE_UNITS[k].multiplier == UnitOf(n);
    PrintedForm(n, k);
    ParsePrinted(n / UnitOf(n), k, goFloat);
    ScaledExactIff(n / UnitOf(n), UnitOf(n), n, goFloat);
  }

  /** Every size up to 2^53 survives, whatever the default. */
  lemma FormatParseRoundTrip(n: nat, defaultVal: int, goFloat: string -> Option<real>)
    requires n <= 0x20_0000_0000_0000
    ensures ParseSize(FormatSize(n), defaultVal, goFloat) == Some(n)
  {
    hide ParseSize, FormatSize, Fits53;
    FormatParseIff(n, defaultVal, goFloat);
    QuotientBelow(n);
    FitsSmall(n / UnitOf(n));
  }

  lemma QuotientBelow(n: nat)
    ensures UnitOf(n) > 0 && n / UnitOf(n) <= n
  {
  }

  /** 2^53 + 1 bytes is printed in bytes and parsed as 2^53: the bound is tight. */
  lemma FirstSizeLost(defaultVal: int, goFloat: string -> Option<real>)
    ensures ParseSize(FormatSize(0x20_0000_0000_0001), defaultVal, goFloat) != Some(0x20_0000_0000_0001)
  {
    hide ParseSize, FormatSize;
    FormatParseIff(0x20_0000_0000_0001, defaultVal, goFloat);
    assert LostBits(0x20_0000_0000_0001) == 1 && Pow2(1) == 2;
    assert UnitOf(0x20_0000_0000_0001) == 1;
  }

  // --- What the texts mean ---

  /** The suffix of a size as it may be written. */
  function Multiplier(k: nat): nat
    requires k < 5
  {
    if k == 0 then 1 else if k == 1 then 1024 else if k == 2 then 1048576 else if k == 3 then 1073741824 else 1099511627776
  }

  function Written(k: nat): string
    requires k < 5
  {
    if k == 0 then "b" else if k == 1 then "kb" else if k == 2 then "mb" else if k == 3 then "gb" else "tb"
  }

  /**
   A number with a suffix, with a blank between or not: b, kb, mb, gb and tb are the powers of
   1024. Without a suffix the number is megabytes, and white space alone is the default.
   */
  lemma SizeMeans(q: nat, k: nat, defaultVal: int, goFloat: string -> Option<real>)
    requires k < 5 && q <= MAX_INT64
    ensures ParseSize(Decimal(q) + Written(k), defaultVal, goFloat) == Some(ScaledTo(q, Multiplier(k)))
    ensures ParseSize(Decimal(q) + " " + Written(k), defaultVal, goFloat) == Some(ScaledTo(q, Multiplier(k)))
    ensures ParseSize(Decimal(q), defaultVal, goFloat) == Some(ScaledTo(q, 1048576))
    ensures ParseSize("", defaultVal, goFloat) == Some(defaultVal)
  {
    hide Decimal, Scaled, TrimSpace, ToLower, ParseUnits, RoundDouble;
    var num := Decimal(q);
    LowerDigits(num);
    LowerWritten(k);
    ToLowerAppend(num, Written(k));
    ToLowerAppend(num + " ", Written(k));
    ToLowerAppend(num, " ");
    assert ToLower(" ") == " " by { LowerBlank(); }
    assert (num + Written(k))[0] == num[0] && (num + Written(k))[|num + Written(k)| - 1] == 'b';
    TrimIdentity(num + Written(k));
    assert (num + " " + Written(k))[0] == num[0] && (num + " " + Written(k))[|num + " " + Written(k)| - 1] == 'b';
    TrimIdentity(num + " " + Written(k));
    TrimIdentity(num);
    SuffixedUnits(q, k, goFloat);
    ParsePrinted(q, 4 - k, goFloat);
    BareUnits(q, goFloat);
    ScaledValue(q, Multiplier(k), goFloat);
    ScaledValue(q, 1048576, goFloat);
    assert SIZE_UNITS[4 - k] == Unit(Written(k), Multiplier(k));
    EmptyTrims();
  }

  /** The product in binary64, as the int64 it is converted to. */
  function ScaledTo(q: nat, multiplier: nat): int {
    if RoundDouble(q) * multiplier <= MAX_INT64 then RoundDouble(q) * multiplier else MIN_INT64
  }

  lemma EmptyTrims()
    ensures TrimSpace(ToLower("")) == ""
  {
  }

  lemma LowerBlank()
    ensures ToLower(" ") == " "
  {
  }

  lemma LowerWritten(k: nat)
    requires k < 5
    ensures ToLower(Written(k)) == Written(k)
  {
  }

  /** The suffixes that are tried before this one have two letters, the first another one. */
  lemma TriedBefore(i: nat, k: nat)
    requires k < 5 && i < 4 - k
    ensures var suffix := SIZE_UNITS[i].suffix;
            |suffix| == 2 && (k == 0 ==> !IsDigit(suffix[0])) && (k > 0 ==> suffix[0] != Written(k)[0])
    ensures SIZE_UNITS[4 - k] == Unit(Written(k), Multiplier(k))
  {
  }

  lemma UnitAt(k: nat)
    requires k < 5
    ensures SIZE_UNITS[4 - k] == Unit(Written(k), Multiplier(k)) && |SIZE_UNITS| == 5
  {
  }

  lemma SuffixedUnits(q: nat, k: nat, goFloat: string -> Option<real>)
    requires k < 5
    ensures ParseUnits(SIZE_UNITS, Decimal(q) + Written(k), goFloat) == Scaled(Decimal(q), Multiplier(k), goFloat)
  {
    hide Decimal, Scaled, TrimSpace, HasSuffix, Written, Multiplier;
    var num, us := Decimal(q), SIZE_UNITS;
    var text := num + Written(k);
    UnitAt(k);
    assert IsDigit(num[|num| - 1]) && IsDigit(num[0]);
    forall i | 0 <= i < 4 - k ensures !HasSuffix(text, us[i].suffix) {
      TriedBefore(i, k);
      SecondLastTells(num, k, us[i].suffix);
    }
    SkipUnits(us, 4 - k, text, goFloat);
    EndsInSuffix(num, Written(k));
    DigitsTrim(num);
    assert us[4 - k..][0] == us[4 - k];
  }

  lemma EndsInSuffix(num: string, suffix: string)
    ensures HasSuffix(num + suffix, suffix) && (num + suffix)[..|num + suffix| - |suffix|] == num
  {
    assert (num + suffix)[|num + suffix| - |suffix|..] == suffix;
  }

  lemma DigitsTrim(num: string)
    requires AllDigits(num)
    ensures TrimSpace(num) == num
  {
    TrimIdentity(num);
  }

  lemma SecondLastTells(num: string, k: nat, suffix: string)
    requires num != "" && IsDigit(num[|num| - 1]) && k < 5 && |suffix| == 2
    requires k == 0 ==> !IsDigit(suffix[0])
    requires k > 0 ==> suffix[0] != Written(k)[0]
    ensures !HasSuffix(num + Written(k), suffix)
  {
    var text := num + Written(k);
    assert text[|text| - 2] == if k == 0 then num[|num| - 1] else Written(k)[0];
    SuffixSecondLast(text, suffix);
  }

  lemma BareUnits(q: nat, goFloat: string -> Option<real>)
    ensures ParseUnits(SIZE_UNITS, Decimal(q), goFloat) == Scaled(Decimal(q), 1048576, goFloat)
  {
    hide Decimal, Scaled, TrimSpace;
    var num, us := Decimal(q), SIZE_UNITS;
    forall i | 0 <= i < 5 ensures !HasSuffix(num, us[i].suffix) {
      assert IsDigit(num[|num| - 1]);
      OtherEnd(num, us[i].suffix);
    }
    SkipUnits(us, 5, num, goFloat);
    assert us[5..] == [];
  }

  lemma OtherEnd(s: string, suffix: string)
    requires s != "" && suffix != "" && s[|s| - 1] != suffix[|suffix| - 1]
    ensures !HasSuffix(s, suffix)
  {
    assert |suffix| <= |s| ==> s[|s| - |suffix|..][|suffix| - 1] == s[|s| - 1];
  }

  /** Upper and lower case are the same. */
  lemma CaseIsIgnored(s: string, t: string, defaultVal: int, goFloat: string -> Option<real>)
    requires |s| == |t| && forall i :: 0 <= i < |s| ==> s[i] == t[i] || ('A' <= s[i] <= 'Z' && t[i] as int == s[i] as int + 32)
    ensures ParseSize(s, defaultVal, goFloat) == ParseSize(t, defaultVal, goFloat)
  {
    hide ParseUnits, TrimSpace;
    assert ToLower(s) == ToLower(t);
  }

  /** Rounding keeps 53 bits and goes to a nearest multiple of the last of them. */
  lemma RoundsToNearest(n: nat)
    ensures var u := Pow2(LostBits(n));
            && n / u < 0x20_0000_0000_0000 && (n >= 0x20_0000_0000_0000 ==> n / u >= 0x10_0000_0000_0000)
            && RoundDouble(n) % u == 0 && 2 * RoundDouble(n) <= 2 * n + u && 2 * n <= 2 * RoundDouble(n) + u
            && (2 * (n % u) == u ==> RoundDouble(n) / u % 2 == 0)
  {
    LostBitsLeave53(n);
    hide LostBits, Pow2;
    var u := Pow2(LostBits(n));
    var q, r := n / u, n % u;
    assert n == q * u + r;
    assert (q + 1) * u == q * u + u;
    DivUnique(q * u, u, q, 0);
    DivUnique((q + 1) * u, u, q + 1, 0);
  }

  lemma {:induction false} LostBitsLeave53(n: nat)
    ensures n / Pow2(LostBits(n)) < 0x20_0000_0000_0000
    ensures n >= 0x20_0000_0000_0000 ==> n / Pow2(LostBits(n)) >= 0x10_0000_0000_0000
  {
    if n >= 0x20_0000_0000_0000 {
      LostBitsLeave53(n / 2);
      HalvedTwice(n, Pow2(LostBits(n / 2)));
    } else {
      assert Pow2(0) == 1;
    }
  }

  lemma HalvedTwice(n: nat, p: nat)
    requires p > 0
    ensures n / (2 * p) == n / 2 / p
  {
    var q, r := n / 2 / p, n / 2 % p;
    assert n / 2 == q * p + r && n == 2 * (n / 2) + n % 2;
    assert q * (2 * p) == 2 * (q * p);
    DivUnique(n, 2 * p, q, 2 * r + n % 2);
  }

  /** A negative size is printed in bytes, behind a minus sign. */
  lemma NegativeSizes(n: nat)
    requires n > 0
    ensures FormatSize(0 - n) == "-" + Decimal(n) + " B"
  {
    hide Decimal;
  }

  /** A numeral whose rounded value reaches 2^1024 is out of range, any other is read as that value. */
  lemma FloatRange(s: string, goFloat: string -> Option<real>)
    requires AllDigits(s)
    ensures ParseFloat(s, goFloat) == None <==> RoundDouble(NumeralValue(s)) >= Pow2(1024)
    ensures ParseFloat(s, goFloat).Some? ==> ParseFloat(s, goFloat).value == RoundDouble(NumeralValue(s)) as real
  {
    hide RoundDouble, NumeralValue, Pow2;
  }

  /** Any other number is left to the library: nothing for what it refuses, 0 for what is not positive. */
  lemma OtherNumbers(text: string, multiplier: nat, goFloat: string -> Option<real>)
    requires !AllDigits(text)
    ensures goFloat(text).None? ==> Scaled(text, multiplier, goFloat) == None
    ensures goFloat(text).Some? && goFloat(text).value <= 0.0 ==> Scaled(text, multiplier, goFloat) == Some(0)
    ensures goFloat(text).Some? && goFloat(text).value > 0.0 ==>
              Scaled(text, multiplier, goFloat) == Some(ToInt64(Product(goFloat(text).value, multiplier)))
  {
    hide ToInt64, Product;
  }

  /** Truncation, and what amd64 makes of what does not fit. */
  lemma Truncates(x: real)
    requires x >= 0.0
    ensures x < 9223372036854775808.0 ==> (ToInt64(x) as real) <= x < (ToInt64(x) as real) + 1.0
    ensures x >= 9223372036854775808.0 ==> ToInt64(x) == -0x8000_0000_0000_0000
  {
  }
}
