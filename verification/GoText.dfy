/** The pieces of Go's strings and strconv packages that the parsers rely on. */
module GoText {
  import opened Options

  // --- White space (unicode.IsSpace) ---

  predicate IsSpace(c: char) {
    || c == ' ' || c == '\t' || c == '\n' || c == '\r'
    || c == '\U{000B}' || c == '\U{000C}' || c == '\U{0085}' || c == '\U{00A0}'
    || c == '\U{1680}' || ('\U{2000}' <= c <= '\U{200A}')
    || c == '\U{2028}' || c == '\U{2029}' || c == '\U{202F}' || c == '\U{205F}' || c == '\U{3000}'
  }

  function TrimLeft(s: string): (r: string)
    ensures |r| <= |s| && (r != "" ==> !IsSpace(r[0]))
  {
    if s != "" && IsSpace(s[0]) then TrimLeft(s[1..]) else s
  }

  function TrimRight(s: string): (r: string)
    ensures r <= s && (r != "" ==> !IsSpace(r[|r| - 1]))
  {
    if s != "" && IsSpace(s[|s| - 1]) then TrimRight(s[..|s| - 1]) else s
  }

  /** strings.TrimSpace. */
  function TrimSpace(s: string): string {
    TrimRight(TrimLeft(s))
  }

  lemma TrimIdentity(s: string)
    requires s != "" && !IsSpace(s[0]) && !IsSpace(s[|s| - 1])
    ensures TrimSpace(s) == s
  {
  }

  predicate NoSpace(s: string) {
    forall i :: 0 <= i < |s| ==> !IsSpace(s[i])
  }

  function WordLength(s: string): (n: nat)
    ensures n <= |s| && NoSpace(s[..n])
    ensures s != "" && !IsSpace(s[0]) ==> n > 0
    ensures n < |s| ==> IsSpace(s[n])
  {
    if s == "" || IsSpace(s[0]) then 0 else 1 + WordLength(s[1..])
  }

  /** strings.Fields: the maximal runs of non-space characters. */
  function Fields(s: string): seq<string>
    decreases |s|
  {
    if s == "" then []
    else if IsSpace(s[0]) then Fields(s[1..])
    else var n := WordLength(s); [s[..n]] + Fields(s[n..])
  }

  lemma {:induction false} WordLengthOf(w: string, rest: string)
    requires NoSpace(w) && (rest == "" || IsSpace(rest[0]))
    ensures WordLength(w + rest) == |w|
  {
    if w == "" {
      assert w + rest == rest;
    } else {
      assert (w + rest)[1..] == w[1..] + rest;
      WordLengthOf(w[1..], rest);
    }
  }

  /** A leading word and the space after it are split off. */
  lemma FieldsCons(w: string, rest: string)
    requires w != "" && NoSpace(w)
    ensures Fields(w + " " + rest) == [w] + Fields(rest)
    ensures Fields(w) == [w]
  {
    var s := w + " " + rest;
    assert s == w + (" " + rest);
    WordLengthOf(w, " " + rest);
    assert s[..|w|] == w && s[|w|..] == " " + rest;
    assert (" " + rest)[1..] == rest;
    assert w + "" == w;
    WordLengthOf(w, "");
    assert w[..|w|] == w && w[|w|..] == "";
  }

  // --- Splitting on a separator ---

  /** strings.Split for a one-character separator; never empty. */
  function Split(s: string, sep: char): (r: seq<string>)
    ensures |r| >= 1
  {
    if s == "" then [""]
    else if s[0] == sep then [""] + Split(s[1..], sep)
    else var r := Split(s[1..], sep); [[s[0]] + r[0]] + r[1..]
  }

  function Join(parts: seq<string>, sep: char): string
    requires |parts| >= 1
  {
    if |parts| == 1 then parts[0] else parts[0] + [sep] + Join(parts[1..], sep)
  }

  lemma {:induction false} JoinSplit(s: string, sep: char)
    ensures Join(Split(s, sep), sep) == s
    ensures forall p :: p in Split(s, sep) ==> sep !in p
  {
    if s != "" {
      JoinSplit(s[1..], sep);
      var r := Split(s[1..], sep);
      if s[0] == sep {
        assert ([""] + r)[1..] == r;
      } else {
        var q := [[s[0]] + r[0]] + r[1..];
        assert q[1..] == r[1..];
        assert s == [s[0]] + s[1..];
        assert sep !in r[0];
        if |r| > 1 {
          assert Join(q, sep) == [s[0]] + r[0] + [sep] + Join(r[1..], sep);
          assert Join(r, sep) == r[0] + [sep] + Join(r[1..], sep);
        }
      }
    }
  }

  lemma {:induction false} SplitPrefix(w: string, rest: string, sep: char)
    requires sep !in w
    ensures Split(w, sep) == [w]
    ensures Split(w + [sep] + rest, sep) == [w] + Split(rest, sep)
  {
    var s := w + [sep] + rest;
    if w == "" {
      assert s == [sep] + rest && s[1..] == rest;
    } else {
      SplitPrefix(w[1..], rest, sep);
      assert s[1..] == w[1..] + [sep] + rest;
      assert w == [w[0]] + w[1..];
      assert s[0] == w[0];
    }
  }

  /** Splitting undoes joining when no part holds the separator. */
  lemma {:induction false} SplitJoin(parts: seq<string>, sep: char)
    requires |parts| >= 1 && forall p :: p in parts ==> sep !in p
    ensures Split(Join(parts, sep), sep) == parts
  {
    if |parts| == 1 {
      SplitPrefix(parts[0], "", sep);
    } else {
      SplitJoin(parts[1..], sep);
      SplitPrefix(parts[0], Join(parts[1..], sep), sep);
      assert parts == [parts[0]] + parts[1..];
    }
  }

  // --- Numerals ---

  predicate IsDigit(c: char) { '0' <= c <= '9' }

  predicate AllDigits(s: string) {
    s != "" && forall i :: 0 <= i < |s| ==> IsDigit(s[i])
  }

  function DigitValue(c: char): (v: nat)
    requires IsDigit(c)
    ensures v <= 9
  {
    (c as int) - ('0' as int)
  }

  function DigitChar(v: nat): (c: char)
    requires v <= 9
    ensures IsDigit(c) && DigitValue(c) == v
  {
    (('0' as int) + v) as char
  }

  function NumeralValue(s: string): nat
    requires forall i :: 0 <= i < |s| ==> IsDigit(s[i])
  {
    if s == "" then 0 else 10 * NumeralValue(s[..|s| - 1]) + DigitValue(s[|s| - 1])
  }

  /** fmt's %d for a non-negative number. */
  function Decimal(n: nat): (s: string)
    ensures AllDigits(s)
  {
    if n < 10 then [DigitChar(n)] else Decimal(n / 10) + [DigitChar(n % 10)]
  }

  lemma {:induction false} DecimalRoundTrip(n: nat)
    ensures NumeralValue(Decimal(n)) == n
  {
    var s := Decimal(n);
    if n < 10 {
      assert s[..0] == "";
    } else {
      DecimalRoundTrip(n / 10);
      assert s[..|s| - 1] == Decimal(n / 10);
    }
  }

  /** A zero-padded numeral, as %04d or the "01" of a time layout. */
  function Padded(n: nat, width: nat): (s: string)
    ensures AllDigits(s)
  {
    Zeros(if |Decimal(n)| < width then width - |Decimal(n)| else 0) + Decimal(n)
  }

  function Zeros(n: nat): (s: string)
    ensures |s| == n && forall i :: 0 <= i < n ==> s[i] == '0'
  {
    if n == 0 then "" else "0" + Zeros(n - 1)
  }

  /** Leading zeros change no value. */
  lemma {:induction false} ZerosValue(z: nat, s: string)
    requires AllDigits(s)
    ensures AllDigits(Zeros(z) + s) && NumeralValue(Zeros(z) + s) == NumeralValue(s)
    decreases |s|
  {
    var t := Zeros(z) + s;
    assert t[..|t| - 1] == Zeros(z) + s[..|s| - 1] && t[|t| - 1] == s[|s| - 1];
    if |s| == 1 {
      assert s[..0] == "" && t[..|t| - 1] == Zeros(z);
      ZerosAreZero(z);
    } else {
      ZerosValue(z, s[..|s| - 1]);
    }
  }

  lemma {:induction false} ZerosAreZero(z: nat)
    ensures NumeralValue(Zeros(z)) == 0
  {
    if z > 0 {
      ZerosAreZero(z - 1);
      assert Zeros(z)[..z - 1] == Zeros(z - 1);
    }
  }

  lemma PaddedInjective(a: nat, b: nat, width: nat)
    ensures Padded(a, width) == Padded(b, width) ==> a == b
  {
    hide Decimal, NumeralValue, Zeros;
    DecimalRoundTrip(a);
    DecimalRoundTrip(b);
    ZerosValue(if |Decimal(a)| < width then width - |Decimal(a)| else 0, Decimal(a));
    ZerosValue(if |Decimal(b)| < width then width - |Decimal(b)| else 0, Decimal(b));
  }

  lemma SeparatorAt(a: string, b: string, sep: char)
    requires sep !in b
    ensures var s := a + [sep] + b; s[|a|] == sep && forall i :: |a| < i < |s| ==> s[i] != sep
  {
    var s := a + [sep] + b;
    forall i | |a| < i < |s| ensures s[i] != sep {
      assert s[i] == b[i - |a| - 1];
    }
  }

  /** A text is cut at its last separator in one way. */
  lemma LastSeparator(a: string, b: string, c: string, d: string, sep: char)
    requires sep !in b && sep !in d && a + [sep] + b == c + [sep] + d
    ensures a == c && b == d
  {
    var s, t := a + [sep] + b, c + [sep] + d;
    SeparatorAt(a, b, sep);
    SeparatorAt(c, d, sep);
    assert |a| == |c|;
    assert s[..|a|] == a && t[..|c|] == c;
    assert s[|a| + 1..] == b && t[|c| + 1..] == d;
  }

  const MAX_INT64: int := 0x7FFF_FFFF_FFFF_FFFF
  const MIN_INT64: int := -0x8000_0000_0000_0000

  /** Two's complement: the int64 that an exact result is stored as. */
  function Wrap64(x: int): (r: int)
    ensures MIN_INT64 <= r <= MAX_INT64
    ensures MIN_INT64 <= x <= MAX_INT64 ==> r == x
  {
    (x + 0x8000_0000_0000_0000) % 0x1_0000_0000_0000_0000 - 0x8000_0000_0000_0000
  }

  /** strconv.Atoi on a 64-bit platform: an optional sign and decimal digits, in range. */
  function Atoi(s: string): (r: Option<int>)
    ensures r.Some? ==> MIN_INT64 <= r.value <= MAX_INT64
  {
    if s == "" then None
    else
      var digits := if s[0] == '-' || s[0] == '+' then s[1..] else s;
      if !AllDigits(digits) then None
      else
        var n: int := if s[0] == '-' then 0 - NumeralValue(digits) else NumeralValue(digits);
        if MIN_INT64 <= n <= MAX_INT64 then Some(n) else None
  }

  /** The value that Atoi returns beside its error: 0 for no numeral, the nearest int64 for one out of range. */
  function AtoiValue(s: string): (v: int)
    ensures MIN_INT64 <= v <= MAX_INT64
    ensures Atoi(s).Some? ==> v == Atoi(s).value
  {
    if Atoi(s).Some? then Atoi(s).value
    else if s == "" || !AllDigits(if s[0] == '-' || s[0] == '+' then s[1..] else s) then 0
    else if s[0] == '-' then MIN_INT64 else MAX_INT64
  }

  /** Wrapping takes away a multiple of 2^64. */
  lemma WrapsAround(x: int)
    ensures exists k :: Wrap64(x) == x - k * 0x1_0000_0000_0000_0000
  {
    var k := (x + 0x8000_0000_0000_0000) / 0x1_0000_0000_0000_0000;
    assert Wrap64(x) == x - k * 0x1_0000_0000_0000_0000;
  }

  /** What Atoi does: an optional sign, then digits and nothing else, within the range. */
  lemma AtoiMeans(digits: string)
    requires AllDigits(digits)
    ensures Atoi(digits) == if NumeralValue(digits) <= MAX_INT64 then Some(NumeralValue(digits)) else None
    ensures Atoi("+" + digits) == Atoi(digits)
  {
    hide NumeralValue;
    assert ("+" + digits)[1..] == digits;
  }

  lemma AtoiNegative(digits: string)
    requires AllDigits(digits)
    ensures Atoi("-" + digits) == if NumeralValue(digits) <= MAX_INT64 + 1 then Some(0 - NumeralValue(digits)) else None
  {
    hide NumeralValue;
    assert ("-" + digits)[1..] == digits;
  }

  lemma AtoiRefuses(s: string)
    requires !AllDigits(s)
    ensures Atoi("+" + s) == None && Atoi("-" + s) == None && Atoi("") == None
    ensures s != "" && s[0] != '+' && s[0] != '-' ==> Atoi(s) == None
  {
    hide NumeralValue;
    assert ("+" + s)[1..] == s && ("-" + s)[1..] == s;
  }

  /** The value of a numeral is read digit by digit, ten by ten. */
  lemma NumeralMeans(s: string, c: char)
    requires (forall i :: 0 <= i < |s| ==> IsDigit(s[i])) && '0' <= c <= '9'
    ensures NumeralValue("") == 0
    ensures (forall i :: 0 <= i < |s + [c]| ==> IsDigit((s + [c])[i])) && NumeralValue(s + [c]) == 10 * NumeralValue(s) + (c as int - '0' as int)
  {
    assert (s + [c])[..|s|] == s;
  }

  /** Beside its error Atoi returns 0 for what is no numeral, and the nearest int64 for one out of range. */
  lemma AtoiValueMeans(digits: string)
    requires AllDigits(digits)
    ensures AtoiValue(digits) == (if NumeralValue(digits) <= MAX_INT64 then NumeralValue(digits) else MAX_INT64)
    ensures AtoiValue("-" + digits) == (if NumeralValue(digits) <= MAX_INT64 + 1 then 0 - NumeralValue(digits) else MIN_INT64)
    ensures AtoiValue("") == 0
  {
    hide NumeralValue, Atoi;
    AtoiMeans(digits);
    AtoiNegative(digits);
    assert ("-" + digits)[1..] == digits;
    assert Atoi("") == None by { AtoiRefuses(""); }
  }

  /** Trimming takes white space off both ends and nothing else. */
  lemma {:induction false} TrimMeans(a: string, s: string, b: string)
    requires (forall i :: 0 <= i < |a| ==> IsSpace(a[i])) && (forall i :: 0 <= i < |b| ==> IsSpace(b[i]))
    requires s == "" || (!IsSpace(s[0]) && !IsSpace(s[|s| - 1]))
    ensures TrimSpace(a + s + b) == s
    decreases |a|
  {
    if a != "" {
      assert (a + s + b)[1..] == a[1..] + s + b;
      TrimMeans(a[1..], s, b);
    } else {
      assert a + s + b == s + b;
      if s == "" {
        assert s + b == b;
        AllTrimmed(b);
      } else {
        RightTrimmed(s, b);
      }
    }
  }

  lemma {:induction false} AllTrimmed(b: string)
    requires forall i :: 0 <= i < |b| ==> IsSpace(b[i])
    ensures TrimLeft(b) == ""
  {
    if b != "" { AllTrimmed(b[1..]); }
  }

  lemma {:induction false} RightTrimmed(s: string, b: string)
    requires s != "" && !IsSpace(s[|s| - 1]) && forall i :: 0 <= i < |b| ==> IsSpace(b[i])
    ensures TrimRight(s + b) == s
    decreases |b|
  {
    if b == "" {
      assert s + b == s;
    } else {
      assert (s + b)[..|s + b| - 1] == s + b[..|b| - 1];
      RightTrimmed(s, b[..|b| - 1]);
    }
  }

  /** What Atoi accepts is made of a sign and digits, so it holds no separator of ours. */
  lemma AtoiCharacters(s: string, c: char)
    requires Atoi(s).Some? && c in s
    ensures c == '-' || c == '+' || IsDigit(c)
  {
    var digits := if s[0] == '-' || s[0] == '+' then s[1..] else s;
    var i :| 0 <= i < |s| && s[i] == c;
    if c != '-' && c != '+' {
      assert if s[0] == '-' || s[0] == '+' then s[i] == digits[i - 1] else s[i] == digits[i];
    }
  }

  lemma AtoiOfDecimal(n: nat)
    requires n <= MAX_INT64
    ensures Atoi(Decimal(n)) == Some(n)
  {
    DecimalRoundTrip(n);
  }
}
