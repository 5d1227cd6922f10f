/**
 Byte strings, UTF-8, and what a round trip through encoding/json does to a Go string:
 every byte that is not part of valid UTF-8 is replaced by U+FFFD.
 */
module Utf8 {
  import opened ByteStrings
  import GoText

  predicate IsCont(b: Byte) { 0x80 <= b <= 0xBF }

  /** The length of the valid UTF-8 sequence s starts with, or 0 (utf8.DecodeRune's rules). */
  function RuneLength(s: Bytes): (n: nat)
    ensures n <= |s| && n <= 4
  {
    if s == [] then 0
    else if s[0] < 0x80 then 1
    else if 0xC2 <= s[0] <= 0xDF then (if |s| >= 2 && IsCont(s[1]) then 2 else 0)
    else if 0xE0 <= s[0] <= 0xEF then
      (if |s| >= 3 && IsCont(s[1]) && IsCont(s[2]) && (s[0] == 0xE0 ==> s[1] >= 0xA0) && (s[0] == 0xED ==> s[1] <= 0x9F) then 3 else 0)
    else if 0xF0 <= s[0] <= 0xF4 then
      (if |s| >= 4 && IsCont(s[1]) && IsCont(s[2]) && IsCont(s[3]) && (s[0] == 0xF0 ==> s[1] >= 0x90) && (s[0] == 0xF4 ==> s[1] <= 0x8F) then 4 else 0)
    else 0
  }

  predicate Valid(s: Bytes) {
    s == [] || (RuneLength(s) > 0 && Valid(s[RuneLength(s)..]))
  }

  /** A Go string marshalled to JSON and back. */
  function Sanitize(s: Bytes): Bytes {
    if s == [] then []
    else if RuneLength(s) > 0 then s[..RuneLength(s)] + Sanitize(s[RuneLength(s)..])
    else [0xEF, 0xBF, 0xBD] + Sanitize(s[1..])
  }

  /** Sanitizing never shortens, and lengthens exactly the strings that are not UTF-8. */
  lemma {:induction false} SanitizeLength(s: Bytes)
    ensures |Sanitize(s)| >= |s|
    ensures |Sanitize(s)| == |s| ==> Valid(s)
    ensures Valid(s) ==> Sanitize(s) == s
  {
    hide RuneLength;
    if s != [] {
      var n := RuneLength(s);
      if n > 0 {
        SanitizeLength(s[n..]);
        assert s == s[..n] + s[n..];
      } else {
        SanitizeLength(s[1..]);
      }
    }
  }

  /** A string survives the round trip if and only if it is valid UTF-8. */
  lemma SurvivesIff(s: Bytes)
    ensures Sanitize(s) == s <==> Valid(s)
  {
    SanitizeLength(s);
  }

  predicate Ascii(s: Bytes) {
    forall i :: 0 <= i < |s| ==> s[i] < 0x80
  }

  lemma {:induction false} AsciiIsValid(s: Bytes)
    requires Ascii(s)
    ensures Valid(s)
  {
    if s != [] { AsciiIsValid(s[1..]); }
  }

  // --- White space at the ends (strings.TrimSpace) ---

  /** The length of the white-space character s starts with, or 0. */
  function LeadingSpace(s: Bytes): (n: nat)
    ensures n <= |s|
  {
    if s == [] then 0
    else if s[0] == 0x20 || 0x09 <= s[0] <= 0x0D then 1
    else if |s| >= 2 && s[0] == 0xC2 && (s[1] == 0x85 || s[1] == 0xA0) then 2
    else if |s| >= 3 && WideSpace(s[0], s[1], s[2]) then 3
    else 0
  }

  function TrailingSpace(s: Bytes): (n: nat)
    ensures n <= |s|
  {
    var k := |s|;
    if s == [] then 0
    else if s[k - 1] == 0x20 || 0x09 <= s[k - 1] <= 0x0D then 1
    else if k >= 2 && s[k - 2] == 0xC2 && (s[k - 1] == 0x85 || s[k - 1] == 0xA0) then 2
    else if k >= 3 && WideSpace(s[k - 3], s[k - 2], s[k - 1]) then 3
    else 0
  }

  /** U+1680, U+2000 to U+200A, U+2028, U+2029, U+202F, U+205F and U+3000. */
  predicate WideSpace(a: Byte, b: Byte, c: Byte) {
    || (a == 0xE1 && b == 0x9A && c == 0x80)
    || (a == 0xE2 && b == 0x80 && (0x80 <= c <= 0x8A || c == 0xA8 || c == 0xA9 || c == 0xAF))
    || (a == 0xE2 && b == 0x81 && c == 0x9F)
    || (a == 0xE3 && b == 0x80 && c == 0x80)
  }

  function TrimStart(s: Bytes): Bytes {
    if LeadingSpace(s) > 0 then TrimStart(s[LeadingSpace(s)..]) else s
  }

  function TrimEnd(s: Bytes): Bytes {
    if TrailingSpace(s) > 0 then TrimEnd(s[..|s| - TrailingSpace(s)]) else s
  }

  function TrimSpace(s: Bytes): Bytes {
    TrimEnd(TrimStart(s))
  }

  /** strings.TrimRight(s, "\n"). */
  function TrimNewlines(s: Bytes): (r: Bytes)
    ensures r <= s && (r != [] ==> r[|r| - 1] != 0x0A)
    ensures forall i :: |r| <= i < |s| ==> s[i] == 0x0A
  {
    if s != [] && s[|s| - 1] == 0x0A then TrimNewlines(s[..|s| - 1]) else s
  }

  // --- When nothing is left ---

  /** What TrimEnd leaves of a text without leading space has none. */
  lemma {:induction false} EndKeepsStart(s: Bytes)
    requires LeadingSpace(s) == 0
    ensures LeadingSpace(TrimEnd(s)) == 0
  {
    if TrailingSpace(s) > 0 {
      ShorterKeepsStart(s, |s| - TrailingSpace(s));
      EndKeepsStart(s[..|s| - TrailingSpace(s)]);
    }
  }

  lemma ShorterKeepsStart(s: Bytes, k: nat)
    requires LeadingSpace(s) == 0 && k <= |s|
    ensures LeadingSpace(s[..k]) == 0
  {
  }

  lemma {:induction false} StartHasNone(s: Bytes)
    ensures LeadingSpace(TrimStart(s)) == 0
  {
    if LeadingSpace(s) > 0 { StartHasNone(s[LeadingSpace(s)..]); }
  }

  lemma {:induction false} EndHasNone(s: Bytes)
    ensures TrailingSpace(TrimEnd(s)) == 0
  {
    if TrailingSpace(s) > 0 { EndHasNone(s[..|s| - TrailingSpace(s)]); }
  }

  /** Trimming twice is trimming once. */
  lemma TrimTwice(s: Bytes)
    ensures TrimSpace(TrimSpace(s)) == TrimSpace(s)
  {
    hide LeadingSpace, TrailingSpace;
    StartHasNone(s);
    EndKeepsStart(TrimStart(s));
    EndHasNone(TrimStart(s));
  }

  /** A newline at the end makes no text blank that was not. */
  lemma {:induction false} NewlineTrimsAway(s: Bytes)
    ensures TrimSpace(s + [0x0A]) == TrimSpace(s)
    decreases |s|
  {
    var t := s + [0x0A];
    if LeadingSpace(s) > 0 {
      LeadingLonger(s);
      assert t[LeadingSpace(s)..] == s[LeadingSpace(s)..] + [0x0A];
      NewlineTrimsAway(s[LeadingSpace(s)..]);
    } else if s == [] {
      assert t == [0x0A] && t[1..] == [];
    } else {
      LeadingLonger(s);
      assert TrailingSpace(t) == 1 && t[..|t| - 1] == s;
    }
  }

  lemma LeadingLonger(s: Bytes)
    requires s != []
    ensures LeadingSpace(s + [0x0A]) == LeadingSpace(s)
  {
  }

  lemma {:induction false} NewlinesTrimAway(s: Bytes)
    ensures TrimSpace(TrimNewlines(s)) == TrimSpace(s)
  {
    if s != [] && s[|s| - 1] == 0x0A {
      NewlinesTrimAway(s[..|s| - 1]);
      NewlineTrimsAway(s[..|s| - 1]);
      assert s == s[..|s| - 1] + [0x0A];
    }
  }

  // --- As RFC 3629 has it ---

  predicate Scalar(c: int) {
    0 <= c < 0xD800 || 0xE000 <= c < 0x11_0000
  }

  /** Section 3: one to four bytes, six bits in each after the first. */
  function RuneBytes(c: int): Bytes
    requires Scalar(c)
  {
    if c < 0x80 then [c]
    else if c < 0x800 then [0xC0 + c / 0x40, 0x80 + c % 0x40]
    else if c < 0x1_0000 then [0xE0 + c / 0x1000, 0x80 + c / 0x40 % 0x40, 0x80 + c % 0x40]
    else [0xF0 + c / 0x4_0000, 0x80 + c / 0x1000 % 0x40, 0x80 + c / 0x40 % 0x40, 0x80 + c % 0x40]
  }

  lemma TwoRead(c: int, rest: Bytes)
    requires 0x80 <= c < 0x800
    ensures RuneLength([0xC0 + c / 0x40, 0x80 + c % 0x40] + rest) == 2
  {
    var s: Bytes := [0xC0 + c / 0x40, 0x80 + c % 0x40] + rest;
    assert s[0] == 0xC0 + c / 0x40 && s[1] == 0x80 + c % 0x40;
  }

  lemma ThreeRead(c: int, rest: Bytes)
    requires 0x800 <= c < 0x1_0000 && Scalar(c)
    ensures RuneLength([0xE0 + c / 0x1000, 0x80 + c / 0x40 % 0x40, 0x80 + c % 0x40] + rest) == 3
  {
    var a, b, d := 0xE0 + c / 0x1000, 0x80 + c / 0x40 % 0x40, 0x80 + c % 0x40;
    var s: Bytes := [a, b, d] + rest;
    assert s[0] == a && s[1] == b && s[2] == d;
  }

  lemma FourRead(c: int, rest: Bytes)
    requires 0x1_0000 <= c < 0x11_0000
    ensures RuneLength([0xF0 + c / 0x4_0000, 0x80 + c / 0x1000 % 0x40, 0x80 + c / 0x40 % 0x40, 0x80 + c % 0x40] + rest) == 4
  {
    var a, b, d, e := 0xF0 + c / 0x4_0000, 0x80 + c / 0x1000 % 0x40, 0x80 + c / 0x40 % 0x40, 0x80 + c % 0x40;
    var s: Bytes := [a, b, d, e] + rest;
    assert s[0] == a && s[1] == b && s[2] == d && s[3] == e;
  }

  /** The encoding of a scalar value is read as one character. */
  lemma RuneRead(c: int, rest: Bytes)
    requires Scalar(c)
    ensures RuneLength(RuneBytes(c) + rest) == |RuneBytes(c)| > 0
  {
    if c < 0x80 {
      assert (RuneBytes(c) + rest)[0] == c;
    } else {
      hide RuneLength;
      if c < 0x800 { TwoRead(c, rest); }
      else if c < 0x1_0000 { ThreeRead(c, rest); }
      else { FourRead(c, rest); }
    }
  }

  lemma TwoWritten(a: int, b: int) returns (c: int)
    requires 0xC2 <= a <= 0xDF && 0x80 <= b <= 0xBF
    ensures 0x80 <= c < 0x800 && a == 0xC0 + c / 0x40 && b == 0x80 + c % 0x40
  {
    c := (a - 0xC0) * 0x40 + (b - 0x80);
  }

  lemma ThreeWritten(a: int, b: int, d: int) returns (c: int)
    requires 0xE0 <= a <= 0xEF && 0x80 <= b <= 0xBF && 0x80 <= d <= 0xBF && (a == 0xE0 ==> b >= 0xA0) && (a == 0xED ==> b <= 0x9F)
    ensures 0x800 <= c < 0x1_0000 && Scalar(c) && a == 0xE0 + c / 0x1000 && b == 0x80 + c / 0x40 % 0x40 && d == 0x80 + c % 0x40
  {
    c := (a - 0xE0) * 0x1000 + (b - 0x80) * 0x40 + (d - 0x80);
    assert c / 0x40 == (a - 0xE0) * 0x40 + (b - 0x80);
  }

  lemma FourWritten(a: int, b: int, d: int, e: int) returns (c: int)
    requires 0xF0 <= a <= 0xF4 && 0x80 <= b <= 0xBF && 0x80 <= d <= 0xBF && 0x80 <= e <= 0xBF
    requires (a == 0xF0 ==> b >= 0x90) && (a == 0xF4 ==> b <= 0x8F)
    ensures 0x1_0000 <= c < 0x11_0000 && a == 0xF0 + c / 0x4_0000 && b == 0x80 + c / 0x1000 % 0x40
    ensures d == 0x80 + c / 0x40 % 0x40 && e == 0x80 + c % 0x40
  {
    c := (a - 0xF0) * 0x4_0000 + (b - 0x80) * 0x1000 + (d - 0x80) * 0x40 + (e - 0x80);
    assert c / 0x40 == (a - 0xF0) * 0x1000 + (b - 0x80) * 0x40 + (d - 0x80);
    assert c / 0x1000 == (a - 0xF0) * 0x40 + (b - 0x80);
  }

  /** And what is read as one character is the encoding of a scalar value. */
  lemma RuneWritten(s: Bytes) returns (c: int)
    requires RuneLength(s) > 0
    ensures Scalar(c) && s[..RuneLength(s)] == RuneBytes(c)
  {
    var n := RuneLength(s);
    if n == 1 {
      c := s[0];
    } else if n == 2 {
      c := TwoWritten(s[0], s[1]);
    } else if n == 3 {
      c := ThreeWritten(s[0], s[1], s[2]);
    } else {
      c := FourWritten(s[0], s[1], s[2], s[3]);
    }
  }

  predicate Scalars(cs: seq<int>) {
    forall i :: 0 <= i < |cs| ==> Scalar(cs[i])
  }

  function Encoded(cs: seq<int>): Bytes
    requires Scalars(cs)
  {
    if cs == [] then [] else RuneBytes(cs[0]) + Encoded(cs[1..])
  }

  lemma {:induction false} EncodedIsValid(cs: seq<int>)
    requires Scalars(cs)
    ensures Valid(Encoded(cs))
  {
    hide RuneLength, RuneBytes;
    if cs != [] {
      RuneRead(cs[0], Encoded(cs[1..]));
      EncodedIsValid(cs[1..]);
      var s := Encoded(cs);
      assert s[|RuneBytes(cs[0])|..] == Encoded(cs[1..]);
    }
  }

  lemma {:induction false} ValidIsEncoded(s: Bytes) returns (cs: seq<int>)
    requires Valid(s)
    ensures Scalars(cs) && s == Encoded(cs)
  {
    hide RuneLength, RuneBytes;
    if s == [] {
      cs := [];
    } else {
      var c := RuneWritten(s);
      var rest := ValidIsEncoded(s[RuneLength(s)..]);
      cs := [c] + rest;
      assert cs[1..] == rest && s == s[..RuneLength(s)] + s[RuneLength(s)..];
    }
  }

  /** A string is valid exactly when it is the encoding of a sequence of scalar values. */
  lemma ValidIff(s: Bytes)
    ensures Valid(s) <==> exists cs :: Scalars(cs) && Encoded(cs) == s
  {
    hide Valid, Encoded;
    if Valid(s) { var cs := ValidIsEncoded(s); }
    if cs :| Scalars(cs) && Encoded(cs) == s { EncodedIsValid(cs); }
  }

  /** A byte that begins no character is replaced by U+FFFD, one at a time; characters stay. */
  lemma SanitizeMeans(s: Bytes, c: int, b: Byte)
    requires Scalar(c)
    ensures Sanitize(RuneBytes(c) + s) == RuneBytes(c) + Sanitize(s)
    ensures RuneLength([b] + s) == 0 ==> Sanitize([b] + s) == RuneBytes(0xFFFD) + Sanitize(s)
  {
    hide RuneLength;
    RuneRead(c, s);
    var t := RuneBytes(c) + s;
    assert t[..|RuneBytes(c)|] == RuneBytes(c) && t[|RuneBytes(c)|..] == s;
    assert ([b] + s)[1..] == s;
  }

  /** White space at the start is that of the character there, as unicode.IsSpace has it. */
  lemma SpaceRead(c: int, rest: Bytes)
    requires Scalar(c)
    ensures LeadingSpace(RuneBytes(c) + rest) == if GoText.IsSpace(c as char) then |RuneBytes(c)| else 0
  {
    var s := RuneBytes(c) + rest;
    assert s[0] == RuneBytes(c)[0];
    if c >= 0x80 { assert s[1] == RuneBytes(c)[1]; }
    if c >= 0x800 { assert s[2] == RuneBytes(c)[2]; }
  }

  /** And white space at the end that of the character there. */
  lemma SpaceReadBack(c: int, rest: Bytes)
    requires Scalar(c)
    ensures TrailingSpace(rest + RuneBytes(c)) == if GoText.IsSpace(c as char) then |RuneBytes(c)| else 0
  {
    var s, k, n := rest + RuneBytes(c), |rest| + |RuneBytes(c)|, |RuneBytes(c)|;
    assert s[k - 1] == RuneBytes(c)[n - 1];
    if c >= 0x80 { assert s[k - 2] == RuneBytes(c)[n - 2]; }
    if c >= 0x800 { assert s[k - 3] == RuneBytes(c)[n - 3]; }
  }
}
