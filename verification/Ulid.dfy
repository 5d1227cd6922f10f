/**
 Audit identifiers: the bit-by-bit Crockford base-32 encoder and the ULID layout
 (a 48-bit millisecond timestamp followed by 80 random bits, big-endian).

 The encoder is proved to write the 26-digit base-32 numeral of the 128-bit value;
 injectivity, order and the timestamp prefix are then facts about numerals.
 */
module Ulid {
  import opened Options
  import opened Arithmetic
  import opened ByteStrings

  const CROCKFORD: string := "0123456789ABCDEFGHJKMNPQRSTVWXYZ"

  function Pow32(n: nat): (r: nat)
    ensures r > 0
  {
    if n == 0 then 1 else 32 * Pow32(n - 1)
  }

  /** The big-endian value of a byte string. */
  function Value(id: seq<Byte>): nat {
    if id == [] then 0 else 256 * Value(id[..|id| - 1]) + id[|id| - 1]
  }

  /** The digit for a value below 32. */
  function Digit(v: nat): char
    requires v < 32
  {
    CROCKFORD[v]
  }

  /** The n-digit base-32 numeral of x, most significant digit first. */
  function Numeral(x: nat, n: nat): (s: string)
    ensures |s| == n
  {
    if n == 0 then "" else Numeral(x / 32, n - 1) + [Digit(x % 32)]
  }

  // --- The encoder ---

  /** (b >> k) & 1 */
  function BitOf(b: Byte, k: nat): (bit: nat)
    requires k < 8
    ensures bit <= 1
  {
    b / Pow2(k) % 2
  }

  function BitAt(id: seq<Byte>, p: nat): (bit: nat)
    requires p < 8 * |id|
    ensures bit <= 1
  {
    BitOf(id[p / 8], 7 - p % 8)
  }

  /** The number whose binary digits are the first n bits of id. */
  function LeadingBits(id: seq<Byte>, n: nat): nat
    requires n <= 8 * |id|
  {
    if n == 0 then 0 else 2 * LeadingBits(id, n - 1) + BitAt(id, n - 1)
  }

  lemma ByteBits(b: Byte)
    ensures b == 128 * BitOf(b, 7) + 64 * BitOf(b, 6) + 32 * BitOf(b, 5) + 16 * BitOf(b, 4)
                 + 8 * BitOf(b, 3) + 4 * BitOf(b, 2) + 2 * BitOf(b, 1) + BitOf(b, 0)
  {
    assert Pow2(0) == 1 && Pow2(1) == 2 && Pow2(2) == 4 && Pow2(3) == 8;
    assert Pow2(4) == 16 && Pow2(5) == 32 && Pow2(6) == 64 && Pow2(7) == 128;
    assert BitOf(b, 7) == b / 128;
    assert BitOf(b, 6) == b / 64 % 2 && b / 64 == 2 * (b / 128) + b / 64 % 2;
    assert BitOf(b, 5) == b / 32 % 2 && b / 32 == 2 * (b / 64) + b / 32 % 2;
    assert BitOf(b, 4) == b / 16 % 2 && b / 16 == 2 * (b / 32) + b / 16 % 2;
    assert BitOf(b, 3) == b / 8 % 2 && b / 8 == 2 * (b / 16) + b / 8 % 2;
    assert BitOf(b, 2) == b / 4 % 2 && b / 4 == 2 * (b / 8) + b / 4 % 2;
    assert BitOf(b, 1) == b / 2 % 2 && b / 2 == 2 * (b / 4) + b / 2 % 2;
    assert BitOf(b, 0) == b % 2 && b == 2 * (b / 2) + b % 2;
  }

  lemma BitStep(id: seq<Byte>, k: nat, j: nat)
    requires k < |id| && j < 8
    ensures LeadingBits(id, 8 * k + j + 1) == 2 * LeadingBits(id, 8 * k + j) + BitOf(id[k], 7 - j)
  {
    hide BitOf;
    assert (8 * k + j) / 8 == k && (8 * k + j) % 8 == j;
  }

  lemma OneMoreByte(id: seq<Byte>, k: nat)
    requires k < |id|
    ensures LeadingBits(id, 8 * k + 8) == 256 * LeadingBits(id, 8 * k) + id[k]
  {
    hide BitOf, LeadingBits;
    ByteBits(id[k]);
    BitStep(id, k, 0);
    BitStep(id, k, 1);
    BitStep(id, k, 2);
    BitStep(id, k, 3);
    BitStep(id, k, 4);
    BitStep(id, k, 5);
    BitStep(id, k, 6);
    BitStep(id, k, 7);
  }

  /** All the bits together are the value of the bytes. */
  lemma {:induction false} LeadingBitsOfBytes(id: seq<Byte>, k: nat)
    requires k <= |id|
    ensures LeadingBits(id, 8 * k) == Value(id[..k])
  {
    if k > 0 {
      LeadingBitsOfBytes(id, k - 1);
      OneMoreByte(id, k - 1);
      assert id[..k][..k - 1] == id[..k - 1];
    }
  }

  /** Bits of the 130-bit padded value: two zero bits come first. */
  function Padded(id: seq<Byte>, n: nat): nat
    requires n <= 8 * |id| + 2
  {
    if n <= 2 then 0 else LeadingBits(id, n - 2)
  }

  /** Appending one more bit, taken from the byte and the position the encoder computes. */
  lemma PaddedStep(id: seq<Byte>, n: nat)
    requires n < 8 * |id| + 2
    ensures Padded(id, n + 1) == 2 * Padded(id, n) + if n < 2 then 0 else BitOf(id[(n - 2) / 8], 7 - (n - 2) % 8)
  {
    hide BitOf;
  }

  lemma NumeralStep(x: nat, v: nat, n: nat)
    requires v < 32
    ensures Numeral(32 * x + v, n + 1) == Numeral(x, n) + [Digit(v)]
  {
    hide Digit;
    assert (32 * x + v) / 32 == x && (32 * x + v) % 32 == v;
  }

  lemma Shift(p: nat, x: nat, v: nat, bit: nat)
    ensures 2 * (p * x + v) + bit == (2 * p) * x + (2 * v + bit)
  {
  }

  /** The encoder writes the base-32 numeral of the 128-bit value. */
  method EncodeCrockford(id: seq<Byte>) returns (s: string)
    requires |id| == 16
    ensures s == Numeral(Value(id), 26)
  {
    hide Padded, Numeral, BitOf, Value;
    var out := new char[26];
    assert out[..0] == Numeral(Padded(id, 0), 0);
    for i := 0 to 26
      invariant out[..i] == Numeral(Padded(id, 5 * i), i)
    {
      var v := 0;
      ghost var power := 1;
      for b := 0 to 5
        invariant power == [1, 2, 4, 8, 16, 32][b]
        invariant 0 <= v < power
        invariant Padded(id, 5 * i + b) == power * Padded(id, 5 * i) + v
        invariant out[..i] == Numeral(Padded(id, 5 * i), i)
      {
        var dataPos := i * 5 + b - 2;
        var bit := 0;
        if dataPos >= 0 {
          var byteIdx := dataPos / 8;
          var bitInByte := 7 - dataPos % 8;
          bit := BitOf(id[byteIdx], bitInByte);
        }
        PaddedStep(id, 5 * i + b);
        Shift(power, Padded(id, 5 * i), v, bit);
        v := v * 2 + bit;
        power := power * 2;
      }
      NumeralStep(Padded(id, 5 * i), v, i);
      out[i] := CROCKFORD[v];
      assert out[..i + 1] == out[..i] + [Digit(v)];
    }
    PaddedAll(id);
    s := out[..];
    assert s == out[..26];
  }

  lemma PaddedAll(id: seq<Byte>)
    requires |id| == 16
    ensures Padded(id, 130) == Value(id)
  {
    hide BitAt;
    LeadingBitsOfBytes(id, 16);
    assert id[..16] == id;
  }

  // --- Numerals ---

  /** The position of c in the alphabet, searched from i. */
  function IndexFrom(c: char, i: nat): (v: nat)
    requires i <= 32
    decreases 32 - i
  {
    if i == 32 || CROCKFORD[i] == c then i else IndexFrom(c, i + 1)
  }

  /** The alphabet is strictly increasing in ASCII, so digits compare as their values. */
  lemma AlphabetIncreases(a: nat, b: nat)
    requires a < b < 32
    ensures Digit(a) < Digit(b)
  {
  }

  /** Reading a numeral back. */
  function Decode(s: string): nat {
    if s == "" then 0 else 32 * Decode(s[..|s| - 1]) + IndexFrom(s[|s| - 1], 0)
  }

  lemma {:induction false} DigitIndex(v: nat, i: nat)
    requires i <= v < 32
    ensures IndexFrom(Digit(v), i) == v
    decreases 32 - i
  {
    if i < v {
      AlphabetIncreases(i, v);
      DigitIndex(v, i + 1);
    }
  }

  /** A value that fits is read back from its numeral: the encoding is injective. */
  lemma {:induction false} NumeralRoundTrip(x: nat, n: nat)
    requires x < Pow32(n)
    ensures Decode(Numeral(x, n)) == x
  {
    if n > 0 {
      NumeralRoundTrip(x / 32, n - 1);
      DigitIndex(x % 32, 0);
      var s := Numeral(x, n);
      assert s[..n - 1] == Numeral(x / 32, n - 1);
    }
  }

  /** Byte-wise string order, for strings of one length. */
  predicate LexLess(s: string, t: string)
    requires |s| == |t|
  {
    s != "" && (s[0] < t[0] || (s[0] == t[0] && LexLess(s[1..], t[1..])))
  }

  lemma {:induction false} LexAppend(s: string, t: string, c: char, d: char)
    requires |s| == |t|
    ensures LexLess(s, t) ==> LexLess(s + [c], t + [d])
    ensures s == t && c < d ==> LexLess(s + [c], t + [d])
  {
    if s == "" {
      assert (s + [c])[0] == c && (t + [d])[0] == d;
    } else {
      LexAppend(s[1..], t[1..], c, d);
      assert (s + [c])[1..] == s[1..] + [c];
      assert (t + [d])[1..] == t[1..] + [d];
    }
  }

  /** Numeric order becomes ASCII order. */
  lemma {:induction false} NumeralOrder(x: nat, y: nat, n: nat)
    requires x < y < Pow32(n)
    ensures LexLess(Numeral(x, n), Numeral(y, n))
  {
    if n > 0 {
      if x / 32 < y / 32 {
        NumeralOrder(x / 32, y / 32, n - 1);
      } else {
        assert x / 32 == y / 32 && x % 32 < y % 32;
        AlphabetIncreases(x % 32, y % 32);
      }
      LexAppend(Numeral(x / 32, n - 1), Numeral(y / 32, n - 1), Digit(x % 32), Digit(y % 32));
    }
  }

  /** High digits depend only on the high part. */
  lemma {:induction false} NumeralSplit(hi: nat, lo: nat, m: nat, k: nat)
    requires lo < Pow32(k)
    ensures Numeral(hi * Pow32(k) + lo, m + k) == Numeral(hi, m) + Numeral(lo, k)
    decreases k
  {
    if k > 0 {
      var p := hi * Pow32(k - 1);
      assert hi * Pow32(k) == 32 * p;
      var x := 32 * p + lo;
      assert x / 32 == p + lo / 32 && x % 32 == lo % 32;
      NumeralSplit(hi, lo / 32, m, k - 1);
    }
  }

  // --- The alphabet ---

  /** The digits and the capital letters, but for I, L, O and U. */
  predicate InAlphabet(c: char) {
    ('0' <= c <= '9' || 'A' <= c <= 'Z') && c != 'I' && c != 'L' && c != 'O' && c != 'U'
  }

  /** Which character stands for which value: ten digits, then the letters with gaps at I, L, O and U. */
  lemma DigitMeans(v: nat)
    requires v < 32
    ensures InAlphabet(Digit(v))
    ensures v < 10 ==> Digit(v) as int == '0' as int + v
    ensures 10 <= v < 18 ==> Digit(v) as int == 'A' as int + v - 10
    ensures 18 <= v < 20 ==> Digit(v) as int == 'J' as int + v - 18
    ensures 20 <= v < 22 ==> Digit(v) as int == 'M' as int + v - 20
    ensures 22 <= v < 27 ==> Digit(v) as int == 'P' as int + v - 22
    ensures 27 <= v ==> Digit(v) as int == 'V' as int + v - 27
  {
  }

  /** No identifier holds any other character. */
  lemma {:induction false} OnlyAlphabet(x: nat, n: nat)
    ensures forall i :: 0 <= i < n ==> InAlphabet(Numeral(x, n)[i])
  {
    hide Digit, InAlphabet;
    if n > 0 {
      OnlyAlphabet(x / 32, n - 1);
      DigitMeans(x % 32);
    }
  }

  // --- Identifiers ---

  lemma {:induction false} ValueBound(id: seq<Byte>)
    ensures Value(id) < Pow2(8 * |id|)
  {
    if id != [] {
      ValueBound(id[..|id| - 1]);
      var n := 8 * (|id| - 1);
      assert Pow2(n + 4) == 16 * Pow2(n) by { assert Pow2(n + 2) == 4 * Pow2(n); }
      assert Pow2(n + 8) == 16 * Pow2(n + 4) by { assert Pow2(n + 6) == 4 * Pow2(n + 4); }
    }
  }

  lemma {:induction false} ValueAppend(a: seq<Byte>, b: seq<Byte>)
    ensures Value(a + b) == Value(a) * Pow2(8 * |b|) + Value(b)
    decreases |b|
  {
    if b == [] {
      assert a + b == a;
    } else {
      var front, n := b[..|b| - 1], 8 * (|b| - 1);
      ValueAppend(a, front);
      assert (a + b)[..|a + b| - 1] == a + front;
      assert Pow2(n + 4) == 16 * Pow2(n) by { assert Pow2(n + 2) == 4 * Pow2(n); }
      assert Pow2(n + 8) == 16 * Pow2(n + 4) by { assert Pow2(n + 6) == 4 * Pow2(n + 4); }
      assert Value(a) * Pow2(n + 8) == 256 * (Value(a) * Pow2(n));
    }
  }

  lemma {:induction false} Pow32IsPow2(n: nat)
    ensures Pow32(n) == Pow2(5 * n)
  {
    if n > 0 {
      Pow32IsPow2(n - 1);
      var m := 5 * (n - 1);
      assert Pow2(m + 5) == 8 * Pow2(m + 2) by { assert Pow2(m + 4) == 4 * Pow2(m + 2); }
      assert Pow2(m + 2) == 4 * Pow2(m);
    }
  }

  lemma {:induction false} Pow2Monotone(a: nat, b: nat)
    requires a <= b
    ensures Pow2(a) <= Pow2(b)
    decreases b - a
  {
    if a < b { Pow2Monotone(a, b - 1); }
  }

  /** Distinct 128-bit values get distinct identifiers, ordered as the values are. */
  lemma EncodingKeepsOrder(a: seq<Byte>, b: seq<Byte>)
    requires |a| == |b| == 16
    ensures Value(a) < Value(b) ==> LexLess(Numeral(Value(a), 26), Numeral(Value(b), 26))
    ensures Numeral(Value(a), 26) == Numeral(Value(b), 26) ==> a == b
  {
    hide Value, Numeral, Pow2, Pow32, Decode, LexLess;
    ValueBound(a);
    ValueBound(b);
    Pow32IsPow2(26);
    Pow2Monotone(128, 130);
    if Value(a) < Value(b) { NumeralOrder(Value(a), Value(b), 26); }
    NumeralRoundTrip(Value(a), 26);
    NumeralRoundTrip(Value(b), 26);
    if Value(a) == Value(b) { ValueInjective(a, b); }
  }

  lemma {:induction false} ValueInjective(a: seq<Byte>, b: seq<Byte>)
    requires |a| == |b| && Value(a) == Value(b)
    ensures a == b
  {
    if a != [] {
      var n := |a| - 1;
      assert a[n] == b[n] && Value(a[..n]) == Value(b[..n]);
      ValueInjective(a[..n], b[..n]);
      assert a == a[..n] + [a[n]] && b == b[..n] + [b[n]];
    }
  }

  lemma TopDigit(x: nat, q: nat, r: nat, p: nat)
    requires p == Pow32(25) && x == q * p + r && q < 8 && r < p
    ensures Numeral(x, 26)[0] <= '7'
  {
    hide Numeral, Pow32, Digit;
    NumeralSplit(q, r, 1, 25);
    OneDigit(q);
    assert (Numeral(q, 1) + Numeral(r, 25))[0] == Numeral(q, 1)[0];
  }

  /** 128 bits in 26 digits: the first digit holds only three of them. */
  lemma FirstCharacterAtMost7(id: seq<Byte>)
    requires |id| == 16
    ensures Numeral(Value(id), 26)[0] <= '7'
  {
    hide Value, Numeral, Pow2, Pow32;
    ValueBound(id);
    Pow32IsPow2(25);
    PowThree(125);
    QuotientBound(Value(id), Pow32(25), 8);
    TopDigit(Value(id), Value(id) / Pow32(25), Value(id) % Pow32(25), Pow32(25));
  }

  lemma PowThree(n: nat)
    ensures Pow2(n + 3) == 8 * Pow2(n)
  {
    assert Pow2(n + 2) == 4 * Pow2(n);
  }

  lemma QuotientBound(x: nat, p: nat, k: nat)
    requires p > 0 && x < k * p
    ensures x / p < k && x == x / p * p + x % p
  {
    MulMonotone(k, x / p, p);
  }

  lemma OneDigit(d: nat)
    requires d < 8
    ensures Numeral(d, 1) == [Digit(d)] && Digit(d) <= '7'
  {
    hide Digit;
    NumeralStep(0, d, 0);
    assert Digit(7) == '7' by { SeventhDigit(); }
    if d < 7 { AlphabetIncreases(d, 7); }
  }

  lemma SeventhDigit()
    ensures Digit(7) == '7'
  {
  }

  /** The six timestamp bytes, cut from the uint64 conversion of the Unix milliseconds. */
  function TimestampBytes(unixMilli: int): seq<Byte> {
    var ms := unixMilli % 0x1_0000_0000_0000_0000;
    [ms / 0x100_0000_0000 % 256, ms / 0x1_0000_0000 % 256, ms / 0x100_0000 % 256,
     ms / 0x1_0000 % 256, ms / 0x100 % 256, ms % 256]
  }

  function Horner(a: int, b: int, c: int, d: int, e: int, f: int): int {
    256 * (256 * (256 * (256 * (256 * a + b) + c) + d) + e) + f
  }

  lemma SixBytes(t: seq<Byte>)
    requires |t| == 6
    ensures Value(t) == Horner(t[0], t[1], t[2], t[3], t[4], t[5])
  {
    assert t[..5][..4] == t[..4] && t[..4][..3] == t[..3] && t[..3][..2] == t[..2] && t[..2][..1] == t[..1];
    assert Value(t[..1]) == t[0];
    assert Value(t[..2]) == 256 * Value(t[..1]) + t[1];
    assert Value(t[..3]) == 256 * Value(t[..2]) + t[2];
    assert Value(t[..4]) == 256 * Value(t[..3]) + t[3];
    assert Value(t[..5]) == 256 * Value(t[..4]) + t[4];
  }

  lemma TimestampValue(unixMilli: int)
    ensures Value(TimestampBytes(unixMilli)) == unixMilli % 0x1_0000_0000_0000
  {
    hide Value;
    var ms := unixMilli % 0x1_0000_0000_0000_0000;
    SixBytes(TimestampBytes(unixMilli));
    ByteDigits(ms);
    ModOfMod(unixMilli);
  }

  lemma ModOfMod(x: int)
    ensures x % 0x1_0000_0000_0000_0000 % 0x1_0000_0000_0000 == x % 0x1_0000_0000_0000
  {
    var q := x / 0x1_0000_0000_0000_0000;
    var m := x % 0x1_0000_0000_0000_0000;
    assert x == 0x1_0000_0000_0000_0000 * q + m;
    ModShift(0x1_0000 * q, m);
  }

  lemma ModShift(k: int, m: int)
    ensures (0x1_0000_0000_0000 * k + m) % 0x1_0000_0000_0000 == m % 0x1_0000_0000_0000
  {
    var q, r := m / 0x1_0000_0000_0000, m % 0x1_0000_0000_0000;
    assert 0x1_0000_0000_0000 * k + m == 0x1_0000_0000_0000 * (k + q) + r;
  }

  lemma ByteDigits(ms: nat)
    ensures ms % 0x1_0000_0000_0000
         == Horner(ms / 0x100_0000_0000 % 256, ms / 0x1_0000_0000 % 256, ms / 0x100_0000 % 256,
                   ms / 0x1_0000 % 256, ms / 0x100 % 256, ms % 256)
  {
    Cascade(ms, 0x100);
    Cascade(ms, 0x1_0000);
    Cascade(ms, 0x100_0000);
    Cascade(ms, 0x1_0000_0000);
    Cascade(ms, 0x100_0000_0000);
    LowPart(ms);
  }

  /** Dividing by d and then by 256 is dividing by 256 * d. */
  lemma Cascade(x: nat, d: nat)
    requires d > 0
    ensures x / d == 256 * (x / (256 * d)) + x / d % 256
  {
    var q, r := x / d, x % d;
    Regroup(x, d, q, r, q / 256, q % 256);
    DivUnique(x, 256 * d, q / 256, d * (q % 256) + r);
  }

  lemma Regroup(x: nat, d: nat, q: nat, r: nat, s: nat, t: nat)
    requires x == q * d + r && r < d && q == 256 * s + t && t < 256
    ensures x == s * (256 * d) + (d * t + r) && d * t + r < 256 * d
  {
    assert q * d == (256 * s) * d + t * d;
    assert (256 * s) * d == s * (256 * d);
    MulMonotone(t, 255, d);
  }

  lemma LowPart(ms: nat)
    ensures ms == 256 * (ms / 0x100) + ms % 256
    ensures ms == 0x1_0000_0000_0000 * (ms / 0x1_0000_0000_0000) + ms % 0x1_0000_0000_0000
  {
  }

  /** What newULID encodes; random is what rand.Read filled in, None when it failed. */
  function UlidOf(unixMilli: int, random: Option<seq<Byte>>): Option<string>
    requires random.Some? ==> |random.value| == 10
  {
    if random.None? then None else Some(Numeral(Value(TimestampBytes(unixMilli) + random.value), 26))
  }

  method NewUlid(unixMilli: int, random: Option<seq<Byte>>) returns (r: Option<string>)
    requires random.Some? ==> |random.value| == 10
    ensures r == UlidOf(unixMilli, random)
  {
    if random.None? {
      return None;
    }
    var s := EncodeCrockford(TimestampBytes(unixMilli) + random.value);
    r := Some(s);
  }

  /** The first ten characters are the numeral of the 48-bit timestamp, the last sixteen of the randomness. */
  lemma TimestampPrefix(unixMilli: int, random: seq<Byte>)
    requires |random| == 10
    ensures UlidOf(unixMilli, Some(random)).value == Numeral(unixMilli % 0x1_0000_0000_0000, 10) + Numeral(Value(random), 16)
  {
    hide Value, Numeral, Pow2, Pow32, TimestampBytes;
    var t := TimestampBytes(unixMilli);
    assert |t| == 6 by { TimestampLength(unixMilli); }
    TimestampValue(unixMilli);
    ValueAppend(t, random);
    ValueBound(random);
    Pow32IsPow2(16);
    NumeralSplit(Value(t), Value(random), 10, 16);
  }

  lemma TimestampLength(unixMilli: int)
    ensures |TimestampBytes(unixMilli)| == 6
  {
  }

  /** Identifiers made in different milliseconds sort by time. */
  lemma LaterSortsLater(earlier: int, later: int, r1: seq<Byte>, r2: seq<Byte>)
    requires 0 <= earlier < later < 0x1_0000_0000_0000 && |r1| == |r2| == 10
    ensures LexLess(UlidOf(earlier, Some(r1)).value, UlidOf(later, Some(r2)).value)
  {
    hide Value, Numeral, Pow2, Pow32, TimestampBytes, UlidOf, LexLess;
    TimestampPrefix(earlier, r1);
    TimestampPrefix(later, r2);
    Pow32IsPow2(10);
    Pow2Of48();
    Pow2Monotone(48, 50);
    NumeralOrder(earlier, later, 10);
    LexExtend(Numeral(earlier, 10), Numeral(later, 10), Numeral(Value(r1), 16), Numeral(Value(r2), 16));
  }

  lemma Pow2Of48()
    ensures Pow2(48) == 0x1_0000_0000_0000
  {
    hide Pow2;
    assert Pow2(0) == 1 by { PowZero(); }
    PowThree(45); PowThree(42); PowThree(39); PowThree(36); PowThree(33); PowThree(30); PowThree(27); PowThree(24);
    PowThree(21); PowThree(18); PowThree(15); PowThree(12); PowThree(9); PowThree(6); PowThree(3); PowThree(0);
  }

  lemma PowZero()
    ensures Pow2(0) == 1
  {
  }

  lemma {:induction false} LexExtend(s: string, t: string, u: string, v: string)
    requires |s| == |t| && |u| == |v| && LexLess(s, t)
    ensures LexLess(s + u, t + v)
  {
    assert (s + u)[0] == s[0] && (t + v)[0] == t[0];
    if s[0] == t[0] {
      LexExtend(s[1..], t[1..], u, v);
      assert (s + u)[1..] == s[1..] + u && (t + v)[1..] == t[1..] + v;
    }
  }
}
