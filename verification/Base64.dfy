/**
 The standard base-64 encoding of RFC 4648, section 4, with padding, and the decoder of
 Go's StdEncoding: line breaks are skipped and leftover bits are not checked.
 */
module Base64 {
  import opened Options
  import opened ByteStrings
  import opened Utf8

  /** The alphabet: A-Z, a-z, 0-9, '+', '/'. */
  function Digit(v: int): (b: Byte)
    requires 0 <= v < 64
  {
    if v < 26 then 65 + v
    else if v < 52 then 97 + (v - 26)
    else if v < 62 then 48 + (v - 52)
    else if v == 62 then 43
    else 47
  }

  function DigitValue(b: Byte): (v: Option<int>)
    ensures v.Some? ==> 0 <= v.value < 64
  {
    if 65 <= b <= 90 then Some(b - 65)
    else if 97 <= b <= 122 then Some(b - 97 + 26)
    else if 48 <= b <= 57 then Some(b - 48 + 52)
    else if b == 43 then Some(62)
    else if b == 47 then Some(63)
    else None
  }

  function Encode(s: Bytes): Bytes {
    if s == [] then []
    else if |s| == 1 then [Digit(s[0] / 4), Digit(s[0] % 4 * 16), 61, 61]
    else if |s| == 2 then [Digit(s[0] / 4), Digit(s[0] % 4 * 16 + s[1] / 16), Digit(s[1] % 16 * 4), 61]
    else [Digit(s[0] / 4), Digit(s[0] % 4 * 16 + s[1] / 16), Digit(s[1] % 16 * 4 + s[2] / 64), Digit(s[2] % 64)] + Encode(s[3..])
  }

  function SkipBreaks(s: Bytes): Bytes {
    if s == [] then []
    else if s[0] == 10 || s[0] == 13 then SkipBreaks(s[1..])
    else [s[0]] + SkipBreaks(s[1..])
  }

  function FirstByte(a: int, b: int): Byte
    requires 0 <= a < 64 && 0 <= b < 64
  {
    a * 4 + b / 16
  }

  function SecondByte(b: int, c: int): Byte
    requires 0 <= b < 64 && 0 <= c < 64
  {
    b % 16 * 16 + c / 4
  }

  function ThirdByte(c: int, d: int): Byte
    requires 0 <= c < 64 && 0 <= d < 64
  {
    c % 4 * 64 + d
  }

  /** Quads of digits; the last one may end in one or two pads. */
  function DecodeQuads(s: Bytes): Option<Bytes> {
    if s == [] then Some([])
    else if |s| < 4 then None
    else
      match (DigitValue(s[0]), DigitValue(s[1]))
      case (Some(a), Some(b)) =>
        if |s| == 4 && s[2] == 61 && s[3] == 61 then Some([FirstByte(a, b)])
        else
          (match DigitValue(s[2])
           case None => None
           case Some(c) =>
             if |s| == 4 && s[3] == 61 then Some([FirstByte(a, b), SecondByte(b, c)])
             else
               (match (DigitValue(s[3]), DecodeQuads(s[4..]))
                case (Some(d), Some(rest)) => Some([FirstByte(a, b), SecondByte(b, c), ThirdByte(c, d)] + rest)
                case _ => None))
      case _ => None
  }

  function Decode(s: Bytes): Option<Bytes> {
    DecodeQuads(SkipBreaks(s))
  }

  lemma DigitRoundTrip(v: int)
    requires 0 <= v < 64
    ensures DigitValue(Digit(v)) == Some(v)
    ensures Digit(v) != 61 && Digit(v) != 10 && Digit(v) != 13 && Digit(v) != 58 && 33 <= Digit(v) < 128
  {
  }

  /** The four digit values of three bytes, and the bytes rebuilt from them. */
  lemma Regrouped(a: Byte, b: Byte, c: Byte)
    ensures FirstByte(a / 4, a % 4 * 16 + b / 16) == a && FirstByte(a / 4, a % 4 * 16) == a
    ensures SecondByte(a % 4 * 16 + b / 16, b % 16 * 4 + c / 64) == b && SecondByte(a % 4 * 16 + b / 16, b % 16 * 4) == b
    ensures ThirdByte(b % 16 * 4 + c / 64, c % 64) == c
  {
    var x, y := a % 4, b / 16;
    assert (x * 16 + y) / 16 == x && (x * 16 + y) % 16 == y;
    var u, v := b % 16, c / 64;
    assert (u * 4 + v) / 4 == u && (u * 4 + v) % 4 == v;
  }

  lemma OneByte(a: Byte)
    ensures DecodeQuads([Digit(a / 4), Digit(a % 4 * 16), 61, 61]) == Some([a])
  {
    hide DigitValue, Digit, FirstByte;
    DigitRoundTrip(a / 4);
    DigitRoundTrip(a % 4 * 16);
    Regrouped(a, 0, 0);
  }

  lemma TwoBytes(a: Byte, b: Byte)
    ensures DecodeQuads([Digit(a / 4), Digit(a % 4 * 16 + b / 16), Digit(b % 16 * 4), 61]) == Some([a, b])
  {
    hide DigitValue, Digit, FirstByte, SecondByte;
    DigitRoundTrip(a / 4);
    DigitRoundTrip(a % 4 * 16 + b / 16);
    DigitRoundTrip(b % 16 * 4);
    Regrouped(a, b, 0);
  }

  /** A quad without pads decodes to its three bytes, and decoding goes on behind it. */
  lemma FullQuad(a: Byte, b: Byte, c: Byte, rest: Bytes)
    ensures var quad := [Digit(a / 4), Digit(a % 4 * 16 + b / 16), Digit(b % 16 * 4 + c / 64), Digit(c % 64)];
            DecodeQuads(quad + rest) == match DecodeQuads(rest) { case None => None case Some(r) => Some([a, b, c] + r) }
  {
    hide DigitValue, Digit, FirstByte, SecondByte, ThirdByte;
    var w, x, y, z := a / 4, a % 4 * 16 + b / 16, b % 16 * 4 + c / 64, c % 64;
    DigitRoundTrip(w);
    DigitRoundTrip(x);
    DigitRoundTrip(y);
    DigitRoundTrip(z);
    Regrouped(a, b, c);
    QuadStep(w, x, y, z, rest);
  }

  lemma QuadStep(w: int, x: int, y: int, z: int, rest: Bytes)
    requires 0 <= w < 64 && 0 <= x < 64 && 0 <= y < 64 && 0 <= z < 64
    ensures DecodeQuads([Digit(w), Digit(x), Digit(y), Digit(z)] + rest)
         == match DecodeQuads(rest) { case None => None case Some(r) => Some([FirstByte(w, x), SecondByte(x, y), ThirdByte(y, z)] + r) }
  {
    hide DigitValue, Digit, FirstByte, SecondByte, ThirdByte;
    DigitRoundTrip(w);
    DigitRoundTrip(x);
    DigitRoundTrip(y);
    DigitRoundTrip(z);
    var quad := [Digit(w), Digit(x), Digit(y), Digit(z)];
    assert (quad + rest)[4..] == rest;
  }

  lemma {:induction false} DecodeQuadsEncode(s: Bytes)
    ensures DecodeQuads(Encode(s)) == Some(s)
  {
    hide DecodeQuads, Digit;
    if |s| >= 3 {
      DecodeQuadsEncode(s[3..]);
      FullQuad(s[0], s[1], s[2], Encode(s[3..]));
      assert s == [s[0], s[1], s[2]] + s[3..];
    } else if |s| == 2 {
      TwoBytes(s[0], s[1]);
      assert s == [s[0], s[1]];
    } else if |s| == 1 {
      OneByte(s[0]);
      assert s == [s[0]];
    } else {
      NoQuads();
    }
  }

  lemma NoQuads()
    ensures DecodeQuads([]) == Some([])
  {
  }

  /** Every byte of an encoding is printable ASCII and none is a colon. */
  predicate Plain(s: Bytes) {
    forall i :: 0 <= i < |s| ==> 33 <= s[i] < 128 && s[i] != 58
  }

  lemma {:induction false} EncodeIsPlain(s: Bytes)
    ensures Plain(Encode(s))
    ensures s != [] ==> |Encode(s)| > |s|
  {
    hide Digit;
    if s != [] {
      DigitRoundTrip(s[0] / 4);
      if |s| == 1 {
        DigitRoundTrip(s[0] % 4 * 16);
      } else {
        DigitRoundTrip(s[0] % 4 * 16 + s[1] / 16);
        if |s| == 2 {
          DigitRoundTrip(s[1] % 16 * 4);
        } else {
          DigitRoundTrip(s[1] % 16 * 4 + s[2] / 64);
          DigitRoundTrip(s[2] % 64);
          EncodeIsPlain(s[3..]);
        }
      }
    }
  }

  lemma {:induction false} PlainHasNoBreaks(s: Bytes)
    requires Plain(s)
    ensures SkipBreaks(s) == s
  {
    if s != [] { PlainHasNoBreaks(s[1..]); }
  }

  /** Decoding undoes encoding. */
  lemma RoundTrip(s: Bytes)
    ensures Decode(Encode(s)) == Some(s)
  {
    EncodeIsPlain(s);
    PlainHasNoBreaks(Encode(s));
    DecodeQuadsEncode(s);
  }

  // --- As RFC 4648 has it ---

  /** Table 1 of section 4: capital letters, small letters, digits, plus and slash. */
  lemma DigitMeans(v: int)
    requires 0 <= v < 64
    ensures v < 26 ==> Digit(v) == 'A' as int + v
    ensures 26 <= v < 52 ==> Digit(v) == 'a' as int + v - 26
    ensures 52 <= v < 62 ==> Digit(v) == '0' as int + v - 52
    ensures v == 62 ==> Digit(v) == '+' as int
    ensures v == 63 ==> Digit(v) == '/' as int
  {
  }

  predicate Reads(s: Bytes, text: string) {
    |s| == |text| && forall i :: 0 <= i < |text| ==> s[i] == text[i] as int
  }

  /** The vectors of section 10, over the bytes of "foobar". */
  lemma TestVectors()
    ensures Reads(Encode([102]), "Zg==") && Reads(Encode([102, 111]), "Zm8=") && Reads(Encode([102, 111, 111]), "Zm9v")
    ensures Reads(Encode([102, 111, 111, 98]), "Zm9vYg==") && Reads(Encode([102, 111, 111, 98, 97]), "Zm9vYmE=")
    ensures Reads(Encode([102, 111, 111, 98, 97, 114]), "Zm9vYmFy")
  {
    ShortVectors();
    hide Encode;
    EncodeThree(102, 111, 111, []);
    EncodeThree(102, 111, 111, [98]);
    EncodeThree(102, 111, 111, [98, 97]);
    EncodeThree(102, 111, 111, [98, 97, 114]);
    EncodeThree(98, 97, 114, []);
    assert [102, 111, 111] + [] == [102, 111, 111] && [98, 97, 114] + [] == [98, 97, 114];
    assert [102, 111, 111] + [98] == [102, 111, 111, 98] && [102, 111, 111] + [98, 97] == [102, 111, 111, 98, 97];
    assert [102, 111, 111] + [98, 97, 114] == [102, 111, 111, 98, 97, 114];
  }

  lemma ShortVectors()
    ensures Encode([]) == [] && Encode([102]) == [90, 103, 61, 61] && Encode([102, 111]) == [90, 109, 56, 61]
    ensures Encode([98]) == [89, 103, 61, 61] && Encode([98, 97]) == [89, 109, 69, 61]
  {
  }

  lemma EncodeThree(a: Byte, b: Byte, c: Byte, rest: Bytes)
    ensures Encode([a, b, c] + rest) == [Digit(a / 4), Digit(a % 4 * 16 + b / 16), Digit(b % 16 * 4 + c / 64), Digit(c % 64)] + Encode(rest)
  {
    hide Digit;
    var s := [a, b, c] + rest;
    assert s[3..] == rest && s[0] == a && s[1] == b && s[2] == c;
  }

  /** Three bytes and the four digits for them are the same 24-bit number. */
  lemma QuadValue(a: Byte, b: Byte, c: Byte)
    ensures var w, x, y, z := a / 4, a % 4 * 16 + b / 16, b % 16 * 4 + c / 64, c % 64;
            && Encode([a, b, c]) == [Digit(w), Digit(x), Digit(y), Digit(z)]
            && 0x1_0000 * a + 0x100 * b + c == 0x4_0000 * w + 0x1000 * x + 64 * y + z
  {
    hide Digit;
    assert [a, b, c][3..] == [];
    assert Encode([]) == [];
  }

  /** Line breaks may stand anywhere; anything else that is no digit and no pad makes decoding fail. */
  lemma {:induction false} BreaksAreSkipped(a: Bytes, b: Bytes, nl: Byte)
    requires nl == 10 || nl == 13
    ensures Decode(a + [nl] + b) == Decode(a + b)
  {
    hide DecodeQuads;
    SkipConcat(a, b);
    SkipConcat(a, [nl] + b);
    assert a + [nl] + b == a + ([nl] + b);
    assert ([nl] + b)[1..] == b;
  }

  lemma {:induction false} SkipConcat(a: Bytes, b: Bytes)
    ensures SkipBreaks(a + b) == SkipBreaks(a) + SkipBreaks(b)
  {
    if a == [] {
      assert a + b == b;
    } else {
      SkipConcat(a[1..], b);
      assert (a + b)[1..] == a[1..] + b;
    }
  }

  predicate Encodable(b: Byte) {
    DigitValue(b).Some? || b == 61 || b == 10 || b == 13
  }

  lemma {:induction false} DecodedQuads(s: Bytes)
    requires DecodeQuads(s).Some?
    ensures forall i :: 0 <= i < |s| ==> DigitValue(s[i]).Some? || s[i] == 61
    ensures |s| % 4 == 0
  {
    hide FirstByte, SecondByte, ThirdByte, DigitValue;
    if s != [] {
      if |s| > 4 {
        DecodedQuads(s[4..]);
        forall i | 0 <= i < |s| ensures DigitValue(s[i]).Some? || s[i] == 61 {
          if i >= 4 { assert s[i] == s[4..][i - 4]; }
        }
      }
    }
  }

  lemma {:induction false} SkipKeeps(s: Bytes, i: nat)
    requires i < |s| && s[i] != 10 && s[i] != 13
    ensures s[i] in SkipBreaks(s)
  {
    if i > 0 { SkipKeeps(s[1..], i - 1); }
  }

  lemma OnlyEncodable(s: Bytes)
    requires Decode(s).Some?
    ensures forall i :: 0 <= i < |s| ==> Encodable(s[i])
    ensures |SkipBreaks(s)| % 4 == 0
  {
    hide DigitValue;
    DecodedQuads(SkipBreaks(s));
    forall i | 0 <= i < |s| ensures Encodable(s[i]) {
      if s[i] != 10 && s[i] != 13 { SkipKeeps(s, i); }
    }
  }

  /** And only the 64 characters of the alphabet are digits. */
  lemma DigitsAreAlphabet(b: Byte)
    ensures DigitValue(b).Some? <==> exists v :: 0 <= v < 64 && Digit(v) == b
    ensures DigitValue(b).Some? ==> Digit(DigitValue(b).value) == b
  {
    if DigitValue(b).Some? {
      assert Digit(DigitValue(b).value) == b;
    }
    if v :| 0 <= v < 64 && Digit(v) == b {
      DigitRoundTrip(v);
    }
  }
}
