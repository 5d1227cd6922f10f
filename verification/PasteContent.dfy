/**
 The content pipeline: what an upload is stored as, and what the raw endpoint gives back.

 http.DetectContentType (on at most the first 512 bytes) and the URL check of net/url are
 the parameters detect and validLink; detect never gives an empty type, as its
 documentation promises.
 */
module PasteContent {
  import opened Options
  import opened ByteStrings
  import opened Utf8
  import opened Base64

  datatype Upload =
    | RawBody(body: Bytes)
    | FilePart(body: Bytes)
    | FormField(content: Bytes)
    | JsonBody(content: Bytes, contentType: string)

  datatype Stored = Stored(content: Bytes, contentType: string, isLink: bool)

  datatype Refusal = TooLarge | NotBase64 | BadLink | Blank

  predicate IsText(contentType: string) { "text/" <= contentType }

  function Head512(s: Bytes): Bytes {
    if |s| > 512 then s[..512] else s
  }

  /** "http://" and "https://" */
  const HTTP: Bytes := [104, 116, 116, 112, 58, 47, 47]
  const HTTPS: Bytes := [104, 116, 116, 112, 115, 58, 47, 47]

  predicate HoldsBlank(s: Bytes) {
    exists i :: 0 <= i < |s| && (s[i] == 32 || s[i] == 9 || s[i] == 10 || s[i] == 13)
  }

  /** Trimmed, the content is one absolute http or https URL and nothing else. */
  predicate IsSingleUrl(content: Bytes, validLink: Bytes -> bool) {
    var t := TrimSpace(content);
    t != [] && !HoldsBlank(t) && (HTTP <= t || HTTPS <= t) && validLink(t)
  }

  // --- What is stored ---

  /** The request fields as parsing leaves them; only sized bodies can be too large. */
  function ParsedContent(u: Upload, detect: Bytes -> string): Stored {
    match u
    case RawBody(body) => Stored(body, "", false)
    case FilePart(body) => if IsText(detect(Head512(body))) then Stored(body, "", false) else Stored(Encode(body), detect(Head512(body)), false)
    case FormField(content) => Stored(content, "", false)
    case JsonBody(content, contentType) => Stored(content, contentType, false)
  }

  predicate Oversized(u: Upload, limit: int) {
    (u.RawBody? || u.FilePart?) && |u.body| > limit
  }

  function StoredOf(u: Upload, limit: int, detect: Bytes -> string, validLink: Bytes -> bool): Result<Stored, Refusal> {
    var p := ParsedContent(u, detect);
    if Oversized(u, limit) then Err(TooLarge)
    else if IsSingleUrl(p.content, validLink) then
      var target := TrimSpace(p.content);
      if !validLink(target) then Err(BadLink)
      else if TrimSpace(target) == [] then Err(Blank)
      else Ok(Stored(target, "", true))
    else if p.contentType != "" && !IsText(p.contentType) && Decode(p.content).None? then Err(NotBase64)
    else
      var q :=
        if p.contentType == "" && |p.content| > 0 && !IsText(detect(Head512(p.content)))
        then Stored(Encode(p.content), detect(Head512(p.content)), false)
        else p;
      var r := if q.contentType == "" then q.(content := TrimNewlines(q.content)) else q;
      if TrimSpace(r.content) == [] then Err(Blank) else Ok(r)
  }

  /** createFromRequest rewrites the request fields one after another. */
  method StoreContent(u: Upload, limit: int, detect: Bytes -> string, validLink: Bytes -> bool) returns (r: Result<Stored, Refusal>)
    ensures r == StoredOf(u, limit, detect, validLink)
  {
    hide Encode, Decode, TrimSpace, TrimNewlines, HoldsBlank;
    var content: Bytes := [];
    var contentType := "";
    match u {
      case RawBody(body) =>
        if |body| > limit {
          return Err(TooLarge);
        }
        content := body;
      case FilePart(body) =>
        if |body| > limit {
          return Err(TooLarge);
        }
        var detected := detect(Head512(body));
        if IsText(detected) {
          content := body;
        } else {
          content := Encode(body);
          contentType := detected;
        }
      case FormField(field) =>
        content := field;
      case JsonBody(field, given) =>
        content := field;
        contentType := given;
    }
    var isLink := IsSingleUrl(content, validLink);
    if isLink {
      contentType := "";
      content := TrimSpace(content);
      if !validLink(content) {
        return Err(BadLink);
      }
    } else {
      if contentType != "" && !IsText(contentType) {
        var decoded := Decode(content);
        if decoded.None? {
          return Err(NotBase64);
        }
      }
      if contentType == "" && |content| > 0 {
        var detected := detect(Head512(content));
        if !IsText(detected) {
          contentType := detected;
          content := Encode(content);
        }
      }
      if contentType == "" {
        content := TrimNewlines(content);
      }
    }
    if TrimSpace(content) == [] {
      return Err(Blank);
    }
    r := Ok(Stored(content, contentType, isLink));
  }

  /** The body of GetRawPaste. */
  function RawOf(s: Stored): Bytes {
    if s.contentType != "" && !IsText(s.contentType) then
      match Decode(s.content)
      case Some(decoded) => decoded
      case None => s.content
    else s.content
  }

  /** createPasteInternal of the compatibility routes: no link detection and no trimming. */
  function CompatStored(content: Bytes, detect: Bytes -> string): Stored {
    if |content| > 0 && !IsText(detect(Head512(content)))
    then Stored(Encode(content), detect(Head512(content)), false)
    else Stored(content, "", false)
  }

  // --- Base-64 text is neither a link nor blank ---

  lemma PlainEnds(s: Bytes)
    requires Plain(s)
    ensures LeadingSpace(s) == 0 && TrailingSpace(s) == 0
  {
    if s != [] {
      assert 33 <= s[0] < 128 && 33 <= s[|s| - 1] < 128;
    }
  }

  lemma PlainTrims(s: Bytes)
    requires Plain(s)
    ensures TrimSpace(s) == s
  {
    hide LeadingSpace, TrailingSpace, Plain;
    PlainEnds(s);
  }

  lemma LinksHaveColons(t: Bytes)
    ensures HTTP <= t || HTTPS <= t ==> !Plain(t)
  {
    if HTTP <= t { assert t[4] == HTTP[4]; }
    if HTTPS <= t { assert t[5] == HTTPS[5]; }
  }

  lemma EncodingIsNoLink(s: Bytes, validLink: Bytes -> bool)
    ensures !IsSingleUrl(Encode(s), validLink)
    ensures s != [] ==> TrimSpace(Encode(s)) != []
  {
    hide Encode, TrimSpace, HoldsBlank, Plain;
    EncodeIsPlain(s);
    PlainTrims(Encode(s));
    LinksHaveColons(Encode(s));
  }

  // --- Round trips ---

  /** Raw uploads: the trimmed URL, the exact bytes of binary data, or text without its final newlines. */
  lemma RawUploadRoundTrip(body: Bytes, limit: int, detect: Bytes -> string, validLink: Bytes -> bool)
    requires forall b :: detect(b) != ""
    requires StoredOf(RawBody(body), limit, detect, validLink).Ok?
    ensures var s := StoredOf(RawBody(body), limit, detect, validLink).value;
            && s.isLink == IsSingleUrl(body, validLink)
            && RawOf(s) == (if IsSingleUrl(body, validLink) then TrimSpace(body)
                            else if !IsText(detect(Head512(body))) then body
                            else TrimNewlines(body))
            && s.contentType == (if s.isLink || body == [] || IsText(detect(Head512(body))) then "" else detect(Head512(body)))
  {
    hide Encode, Decode, TrimSpace, IsSingleUrl;
    RoundTrip(body);
    if body == [] { TrimNothing(); }
  }

  lemma TrimNothing()
    ensures TrimSpace([]) == [] && TrimNewlines([]) == []
  {
  }

  /** File uploads: binary data comes back exactly and is never taken for a link. */
  lemma FileUploadRoundTrip(body: Bytes, limit: int, detect: Bytes -> string, validLink: Bytes -> bool)
    requires forall b :: detect(b) != ""
    requires StoredOf(FilePart(body), limit, detect, validLink).Ok?
    ensures var s := StoredOf(FilePart(body), limit, detect, validLink).value;
            && (!IsText(detect(Head512(body))) ==> !s.isLink && s.contentType == detect(Head512(body)) && RawOf(s) == body)
            && (IsText(detect(Head512(body))) ==>
                  s.isLink == IsSingleUrl(body, validLink)
                  && RawOf(s) == if s.isLink then TrimSpace(body) else TrimNewlines(body))
  {
    hide Encode, Decode, TrimSpace, IsSingleUrl;
    RoundTrip(body);
    EncodingIsNoLink(body, validLink);
  }

  /** Nothing but white space, and nothing that detection would have turned into base-64. */
  predicate BlankContent(p: Stored, detect: Bytes -> string) {
    TrimSpace(p.content) == [] && (p.contentType != "" || p.content == [] || IsText(detect(Head512(p.content))))
  }

  /** Declared binary by the client, and not base-64. */
  predicate BadBinary(p: Stored, validLink: Bytes -> bool) {
    p.contentType != "" && !IsText(p.contentType) && !IsSingleUrl(p.content, validLink) && Decode(p.content).None?
  }

  /** When any upload is refused, and for what: too large, then bad base-64, then blank, and never for its link. */
  lemma RefusedIff(u: Upload, limit: int, detect: Bytes -> string, validLink: Bytes -> bool)
    requires forall b :: detect(b) != ""
    ensures var p := ParsedContent(u, detect);
            StoredOf(u, limit, detect, validLink).Err? <==>
            Oversized(u, limit) || BadBinary(p, validLink) || BlankContent(p, detect)
    ensures var p, r := ParsedContent(u, detect), StoredOf(u, limit, detect, validLink);
            r.Err? ==> r.error == if Oversized(u, limit) then TooLarge else if BadBinary(p, validLink) then NotBase64 else Blank
  {
    hide Encode, Decode, TrimSpace, HoldsBlank, TrimNewlines;
    var p := ParsedContent(u, detect);
    TrimTwice(p.content);
    NewlinesTrimAway(p.content);
    EncodingIsNoLink(p.content, validLink);
    TrimNothing();
  }

  /** A raw or file upload is refused exactly when it is too large, or blank and empty or taken for text. */
  lemma UploadRefusedIff(body: Bytes, limit: int, detect: Bytes -> string, validLink: Bytes -> bool)
    requires forall b :: detect(b) != ""
    ensures var blank := TrimSpace(body) == [] && (body == [] || IsText(detect(Head512(body))));
            && (StoredOf(RawBody(body), limit, detect, validLink).Err? <==> |body| > limit || blank)
            && (StoredOf(FilePart(body), limit, detect, validLink).Err? <==> |body| > limit || blank)
  {
    hide Encode, Decode, TrimSpace, IsSingleUrl, StoredOf;
    RefusedIff(RawBody(body), limit, detect, validLink);
    RefusedIff(FilePart(body), limit, detect, validLink);
    RoundTrip(body);
    EncodingIsNoLink(body, validLink);
    TrimNothing();
    if body == [] { EmptyEncoding(); }
  }

  lemma EmptyEncoding()
    ensures Encode([]) == []
  {
  }

  // --- Forms and JSON ---

  /** A form field is treated as a raw upload is. */
  lemma FormRoundTrip(content: Bytes, limit: int, detect: Bytes -> string, validLink: Bytes -> bool)
    requires forall b :: detect(b) != ""
    requires StoredOf(FormField(content), limit, detect, validLink).Ok?
    ensures var s := StoredOf(FormField(content), limit, detect, validLink).value;
            && s.isLink == IsSingleUrl(content, validLink)
            && RawOf(s) == (if IsSingleUrl(content, validLink) then TrimSpace(content)
                            else if !IsText(detect(Head512(content))) then content
                            else TrimNewlines(content))
            && s.contentType == (if s.isLink || content == [] || IsText(detect(Head512(content))) then "" else detect(Head512(content)))
  {
    hide Encode, Decode, TrimSpace, IsSingleUrl;
    RoundTrip(content);
    if content == [] { TrimNothing(); }
  }

  /**
   A JSON body: a link is stored as its trimmed target; without a content type it is treated
   as a raw upload; text of a given type is stored as it is; and binary data of a given type
   is stored as the base-64 it must come in, so that the raw endpoint gives the data.
   */
  lemma JsonRoundTrip(content: Bytes, contentType: string, limit: int, detect: Bytes -> string, validLink: Bytes -> bool)
    requires forall b :: detect(b) != ""
    requires StoredOf(JsonBody(content, contentType), limit, detect, validLink).Ok?
    ensures var s := StoredOf(JsonBody(content, contentType), limit, detect, validLink).value;
            && s.isLink == IsSingleUrl(content, validLink)
            && (s.isLink ==> s == Stored(TrimSpace(content), "", true) && RawOf(s) == TrimSpace(content))
            && (!s.isLink && contentType == "" ==>
                  RawOf(s) == if IsText(detect(Head512(content))) then TrimNewlines(content) else content)
            && (!s.isLink && contentType != "" ==> s == Stored(content, contentType, false))
            && (!s.isLink && contentType != "" && IsText(contentType) ==> RawOf(s) == content)
            && (!s.isLink && contentType != "" && !IsText(contentType) ==>
                  Decode(content).Some? && RawOf(s) == Decode(content).value)
  {
    hide Encode, Decode, TrimSpace, IsSingleUrl;
    RoundTrip(content);
    if content == [] { TrimNothing(); }
  }

  // --- The tests, in characters ---

  predicate Spells(s: Bytes, text: string) {
    |s| == |text| && forall i :: 0 <= i < |text| ==> s[i] == text[i] as int
  }

  /** Types count as text by their first five characters, and detection sees at most 512 bytes. */
  lemma WhatIsLookedAt(contentType: string, s: Bytes)
    ensures IsText(contentType) <==> |contentType| >= 5 && contentType[..5] == "text/"
    ensures |s| <= 512 ==> Head512(s) == s
    ensures |s| > 512 ==> |Head512(s)| == 512 && Head512(s) <= s
  {
    if |contentType| >= 5 && contentType[..5] == "text/" { assert "text/" <= contentType; }
  }

  /**
   Content is a link when, without the white space around it, it starts with http:// or
   https://, holds no blank, tab, line feed or carriage return, and passes the URL check.
   */
  lemma LinkMeans(content: Bytes, validLink: Bytes -> bool)
    ensures var t := TrimSpace(content);
            IsSingleUrl(content, validLink) <==>
            && ((|t| >= 7 && Spells(t[..7], "http://")) || (|t| >= 8 && Spells(t[..8], "https://")))
            && (forall i :: 0 <= i < |t| ==> t[i] != ' ' as int && t[i] != '\t' as int && t[i] != '\n' as int && t[i] != '\r' as int)
            && validLink(t)
  {
    hide TrimSpace;
    var t := TrimSpace(content);
    if |t| >= 7 && Spells(t[..7], "http://") { assert t[..7] == HTTP; }
    if |t| >= 8 && Spells(t[..8], "https://") { assert t[..8] == HTTPS; }
    if HTTP <= t { assert t[..7] == HTTP; }
    if HTTPS <= t { assert t[..8] == HTTPS; }
  }

  // --- The same content read back from the cache ---

  /** A cached paste has been through JSON. Content types are ASCII and pass unchanged. */
  function FromCache(s: Stored): Stored {
    s.(content := Sanitize(s.content))
  }

  lemma {:induction false} PlainIsAscii(s: Bytes)
    requires Plain(s)
    ensures Ascii(s)
  {
  }

  /** Served from the cache, the stored content is unchanged iff it is valid UTF-8. */
  lemma CachedContentExactIff(s: Stored)
    ensures FromCache(s) == s <==> Valid(s.content)
  {
    SurvivesIff(s.content);
  }

  /** Binary uploads are stored as ASCII, so the cache cannot change them. */
  lemma CachedBinaryIsExact(body: Bytes, limit: int, detect: Bytes -> string, validLink: Bytes -> bool)
    requires forall b :: detect(b) != ""
    requires !IsText(detect(Head512(body))) && StoredOf(FilePart(body), limit, detect, validLink).Ok?
    ensures RawOf(FromCache(StoredOf(FilePart(body), limit, detect, validLink).value)) == body
  {
    hide Encode, Decode, TrimSpace, IsSingleUrl, Sanitize, Valid;
    var s := StoredOf(FilePart(body), limit, detect, validLink).value;
    FileUploadRoundTrip(body, limit, detect, validLink);
    EncodingIsNoLink(body, validLink);
    EncodeIsPlain(body);
    PlainIsAscii(Encode(body));
    AsciiIsValid(Encode(body));
    CachedContentExactIff(s);
  }

  /**
   Text that is not valid UTF-8 passes detection and is stored as it is, so the first raw
   read returns it and a read from the cache does not: one byte 0xE9 is such a paste.
   */
  lemma Latin1ChangesInCache(limit: int, detect: Bytes -> string, validLink: Bytes -> bool)
    requires limit >= 1 && IsText(detect([0xE9]))
    ensures var r := StoredOf(RawBody([0xE9]), limit, detect, validLink);
            r.Ok? && RawOf(r.value) == [0xE9] && RawOf(FromCache(r.value)) == [0xEF, 0xBF, 0xBD]
  {
    var b: Bytes := [0xE9];
    assert TrimStart(b) == b && TrimEnd(b) == b && TrimNewlines(b) == b;
    assert !(HTTP <= b) && !(HTTPS <= b);
    assert Sanitize(b[1..]) == [];
    assert Sanitize(b) == [0xEF, 0xBF, 0xBD];
  }

  // --- Compatibility routes ---

  /** Reading a compat paste through GetRawPaste always gives the posted bytes. */
  lemma CompatRawRoundTrip(content: Bytes, detect: Bytes -> string)
    requires forall b :: detect(b) != ""
    ensures RawOf(CompatStored(content, detect)) == content
    ensures !CompatStored(content, detect).isLink
    ensures CompatStored(content, detect).contentType
            == if content == [] || IsText(detect(Head512(content))) then "" else detect(Head512(content))
  {
    hide Encode, Decode;
    RoundTrip(content);
  }

  /** The compat read routes return the stored text: the posted bytes iff they were taken for text. */
  lemma CompatReadExactIff(content: Bytes, detect: Bytes -> string)
    requires content != []
    ensures CompatStored(content, detect).content == content <==> IsText(detect(Head512(content)))
  {
    hide Encode;
    EncodeIsPlain(content);
  }
}
