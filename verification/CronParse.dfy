/**
 Parsing schedule expressions: the five-field grammar, the macros and the intervals.

 A field parser that indexes its bit array with a wrapped counter panics, so the result
 of parsing is a value, a rejection, or an index panic.
 */
module CronParse {
  import opened Options
  import opened GoText
  import opened Calendar
  import opened Cron
  import opened CronHorizon

  datatype Failure = EmptyExpression | BadDuration | FieldCount(n: nat) | BadField(index: nat) | IndexPanic

  // --- One part of a comma-separated field ---

  datatype PartResult = Values(values: set<int>) | BadPart | PanicPart

  /** The values v, v + step, ... up to hi. */
  function StepValues(v: int, hi: int, step: int): (r: set<int>)
    requires step > 0
    ensures forall u :: u in r ==> v <= u <= hi
    decreases hi - v
  {
    if v > hi then {} else {v} + StepValues(v + step, hi, step)
  }

  lemma StepUnfold(v: int, hi: int)
    requires v <= hi
    ensures StepValues(v, hi, 1) == {v} + StepValues(v + 1, hi, 1)
  {
  }

  /** The position of the first '-' of s, or |s|. */
  function DashIndex(s: string): (i: nat)
    ensures i <= |s| && '-' !in s[..i]
    ensures i < |s| ==> s[i] == '-'
    ensures i == |s| ==> '-' !in s
  {
    if s == "" || s[0] == '-' then 0 else 1 + DashIndex(s[1..])
  }

  function ParseStep(step: string, lo: int, hi: int): PartResult {
    match Atoi(step)
    case None => BadPart
    case Some(k) =>
      if k <= 0 then BadPart
      else if lo + k > MAX_INT64 then PanicPart
      else Values(StepValues(lo, hi, k))
  }

  function ParseRange(first: string, last: string, lo: int, hi: int): PartResult {
    match (Atoi(first), Atoi(last))
    case (Some(a), Some(b)) => if a < lo || b > hi || a > b then BadPart else Values(StepValues(a, b, 1))
    case _ => BadPart
  }

  function ParseValue(s: string, lo: int, hi: int): PartResult {
    match Atoi(s)
    case None => BadPart
    case Some(n) => if n < lo || n > hi then BadPart else Values({n})
  }

  function ParsePart(part: string, lo: int, hi: int): PartResult {
    if "*/" <= part then ParseStep(part[2..], lo, hi)
    else if '-' in part then ParseRange(part[..DashIndex(part)], part[DashIndex(part) + 1..], lo, hi)
    else ParseValue(part, lo, hi)
  }

  // --- A whole field ---

  datatype FieldResult = Parsed(field: FieldSet) | Rejected | Panicked

  /** Parts in order, collecting their values; the first bad part decides. */
  function CollectParts(parts: seq<string>, lo: int, hi: int, acc: set<int>): PartResult {
    if parts == [] then Values(acc)
    else
      match ParsePart(parts[0], lo, hi)
      case Values(vs) => CollectParts(parts[1..], lo, hi, acc + vs)
      case BadPart => BadPart
      case PanicPart => PanicPart
  }

  /** The bit array of a set of values. */
  ghost predicate BitsAre(bits: seq<bool>, values: set<int>) {
    |bits| == 64 && (forall i :: 0 <= i < 64 ==> (bits[i] <==> i in values))
  }

  function BitsOf(values: set<int>, n: nat): (bits: seq<bool>)
    ensures |bits| == n && forall i :: 0 <= i < n ==> (bits[i] <==> i in values)
  {
    if n == 0 then [] else BitsOf(values, n - 1) + [(n - 1) in values]
  }

  function FieldOf(s: string, lo: int, hi: int): FieldResult {
    if s == "*" then Parsed(Star())
    else
      match CollectParts(Split(s, ','), lo, hi, {})
      case Values(vs) => Parsed(FieldSet(BitsOf(vs, 64), false))
      case BadPart => Rejected
      case PanicPart => Panicked
  }

  /** Sets the stepped bits; the counter is an int64 and indexes the array unchecked. */
  method SetStepBits(bits: seq<bool>, lo: int, hi: int, step: int, ghost acc: set<int>) returns (r: seq<bool>, panicked: bool)
    requires 0 <= lo <= hi < 64 && 0 < step <= MAX_INT64 && BitsAre(bits, acc)
    ensures panicked == (lo + step > MAX_INT64)
    ensures !panicked ==> BitsAre(r, acc + StepValues(lo, hi, step))
  {
    r := bits;
    var v := lo;
    ghost var done := {};
    while v <= hi
      invariant lo + step <= MAX_INT64 ==> lo <= v && done + StepValues(v, hi, step) == StepValues(lo, hi, step)
      invariant lo + step > MAX_INT64 ==> v == lo || v < 0
      invariant v < 0 ==> lo + step > MAX_INT64
      invariant BitsAre(r, acc + done)
      decreases if v < 0 then 0 else 1, hi - v
    {
      if v < 0 || v >= 64 {
        return r, true;
      }
      r := r[v := true];
      done := done + {v};
      v := Wrap64(v + step);
    }
    panicked := false;
  }

  method SetRangeBits(bits: seq<bool>, first: int, last: int, ghost acc: set<int>) returns (r: seq<bool>)
    requires 0 <= first <= last < 64 && BitsAre(bits, acc)
    ensures BitsAre(r, acc + StepValues(first, last, 1))
  {
    r := bits;
    ghost var done: set<int> := {};
    var v := first;
    while v <= last
      invariant first <= v <= last + 1
      invariant done + StepValues(v, last, 1) == StepValues(first, last, 1)
      invariant BitsAre(r, acc + done)
    {
      StepUnfold(v, last);
      r := r[v := true];
      done := done + {v};
      v := v + 1;
    }
  }

  lemma OneBit(bits: seq<bool>, acc: set<int>, n: int)
    requires BitsAre(bits, acc) && 0 <= n < 64
    ensures |bits| == 64 && BitsAre(bits[n := true], acc + {n})
  {
  }

  lemma CollectNext(parts: seq<string>, i: nat, lo: int, hi: int, acc: set<int>)
    requires i < |parts|
    ensures var head := ParsePart(parts[i], lo, hi);
            CollectParts(parts[i..], lo, hi, acc)
            == if head.Values? then CollectParts(parts[i + 1..], lo, hi, acc + head.values) else head
  {
    hide ParsePart;
    assert parts[i..][1..] == parts[i + 1..];
  }

  method ParseField(s: string, lo: int, hi: int) returns (r: FieldResult)
    requires 0 <= lo <= hi < 64
    ensures r == FieldOf(s, lo, hi)
  {
    if s == "*" {
      return Parsed(Star());
    }
    var bits := NoBits(64);
    ghost var acc: set<int> := {};
    var parts := Split(s, ',');
    var i := 0;
    while i < |parts|
      invariant 0 <= i <= |parts|
      invariant BitsAre(bits, acc)
      invariant CollectParts(parts, lo, hi, {}) == CollectParts(parts[i..], lo, hi, acc)
    {
      hide StepValues, BitsOf, Split, Atoi, DashIndex, CollectParts, BitsAre;
      CollectNext(parts, i, lo, hi, acc);
      var part := parts[i];
      i := i + 1;
      if "*/" <= part {
        var step := Atoi(part[2..]);
        if step.None? || step.value <= 0 {
          return Rejected;
        }
        var panicked;
        bits, panicked := SetStepBits(bits, lo, hi, step.value, acc);
        if panicked {
          return Panicked;
        }
        assert ParsePart(part, lo, hi) == Values(StepValues(lo, hi, step.value));
        acc := acc + StepValues(lo, hi, step.value);
        continue;
      }
      if '-' in part {
        var dash := DashIndex(part);
        var first, last := Atoi(part[..dash]), Atoi(part[dash + 1..]);
        if first.None? || last.None? || first.value < lo || last.value > hi || first.value > last.value {
          return Rejected;
        }
        bits := SetRangeBits(bits, first.value, last.value, acc);
        assert ParsePart(part, lo, hi) == Values(StepValues(first.value, last.value, 1));
        acc := acc + StepValues(first.value, last.value, 1);
        continue;
      }
      var n := Atoi(part);
      if n.None? || n.value < lo || n.value > hi {
        return Rejected;
      }
      OneBit(bits, acc, n.value);
      bits := bits[n.value := true];
      assert ParsePart(part, lo, hi) == Values({n.value});
      acc := acc + {n.value};
    }
    assert parts[i..] == [];
    assert bits == BitsOf(acc, 64);
    r := Parsed(FieldSet(bits, false));
  }

  // --- The grammar, as syntax and meaning ---

  datatype Part = EveryNth(step: string) | Span(first: string, last: string) | One(value: string)

  function Render(p: Part): string {
    match p
    case EveryNth(step) => "*/" + step
    case Span(first, last) => first + "-" + last
    case One(value) => value
  }

  /** The numerals are integers strconv.Atoi takes, and their values make sense for the field. */
  ghost predicate PartOk(p: Part, lo: int, hi: int) {
    match p
    case EveryNth(step) => Atoi(step).Some? && 0 < Atoi(step).value <= MAX_INT64 - lo
    case Span(first, last) =>
      && '-' !in first && Atoi(first).Some? && Atoi(last).Some?
      && lo <= Atoi(first).value <= Atoi(last).value <= hi
    case One(value) => '-' !in value && Atoi(value).Some? && lo <= Atoi(value).value <= hi
  }

  /** The field value v is one that part p stands for. */
  ghost predicate Denotes(p: Part, lo: int, hi: int, v: int)
    requires PartOk(p, lo, hi)
  {
    match p
    case EveryNth(step) => lo <= v <= hi && exists k: nat :: v == lo + Times(k, Atoi(step).value)
    case Span(first, last) => Atoi(first).value <= v <= Atoi(last).value
    case One(value) => v == Atoi(value).value
  }

  function Times(k: nat, step: int): int { k * step }

  lemma {:induction false} StepMeaning(v: int, hi: int, step: int, u: int)
    requires step > 0
    ensures u in StepValues(v, hi, step) <==> v <= u <= hi && exists k: nat :: u == v + Times(k, step)
    decreases hi - v
  {
    if v <= hi {
      StepMeaning(v + step, hi, step, u);
      if u in StepValues(v + step, hi, step) {
        var k: nat :| u == v + step + Times(k, step);
        assert u == v + Times(k + 1, step);
      }
      if v < u <= hi && exists k: nat :: u == v + Times(k, step) {
        var k: nat :| u == v + Times(k, step);
        assert k > 0;
        assert u == v + step + Times(k - 1, step) && Times(k - 1, step) >= 0;
      }
      assert v == v + Times(0, step);
    }
  }

  ghost predicate Means(vs: set<int>, p: Part, lo: int, hi: int)
    requires PartOk(p, lo, hi)
  {
    forall v :: v in vs <==> Denotes(p, lo, hi, v)
  }

  lemma {:induction false} DashIndexOf(first: string, last: string)
    requires '-' !in first
    ensures DashIndex(first + "-" + last) == |first|
  {
    var s := first + "-" + last;
    if first == "" {
      assert s[0] == '-';
    } else {
      DashIndexOf(first[1..], last);
      assert s[0] == first[0] && s[1..] == first[1..] + "-" + last;
    }
  }

  /** Every well-formed part parses, to the values it denotes. */
  lemma PartParses(p: Part, lo: int, hi: int)
    requires 0 <= lo <= hi < 64 && PartOk(p, lo, hi)
    ensures ',' !in Render(p)
    ensures ParsePart(Render(p), lo, hi).Values? && Means(ParsePart(Render(p), lo, hi).values, p, lo, hi)
  {
    hide Atoi, StepValues, DashIndex;
    match p
    case EveryNth(step) =>
      if ',' in step { AtoiCharacters(step, ','); }
      assert ("*/" + step)[2..] == step;
      forall v ensures v in StepValues(lo, hi, Atoi(step).value) <==> Denotes(p, lo, hi, v) {
        StepMeaning(lo, hi, Atoi(step).value, v);
      }
    case Span(first, last) =>
      if ',' in first { AtoiCharacters(first, ','); }
      if ',' in last { AtoiCharacters(last, ','); }
      var s := first + "-" + last;
      AtoiNonEmpty(first);
      assert s[0] == first[0];
      AtoiCharacters(first, first[0]);
      assert s[|first|] == '-';
      DashIndexOf(first, last);
      assert s[..|first|] == first && s[|first| + 1..] == last;
      RangeMeaning(Atoi(first).value, Atoi(last).value);
    case One(value) =>
      if ',' in value { AtoiCharacters(value, ','); }
      AtoiNonEmpty(value);
      AtoiCharacters(value, value[0]);
  }

  lemma AtoiNonEmpty(s: string)
    ensures Atoi(s).Some? ==> s != ""
  {
  }

  lemma {:induction false} RangeMeaning(a: int, b: int)
    ensures forall v :: v in StepValues(a, b, 1) <==> a <= v <= b
    decreases b - a
  {
    if a <= b { RangeMeaning(a + 1, b); }
  }

  /** And every text that parses is the rendering of such a part. */
  lemma PartUnparses(part: string, lo: int, hi: int) returns (p: Part)
    requires 0 <= lo <= hi < 64 && ParsePart(part, lo, hi).Values?
    ensures Render(p) == part && PartOk(p, lo, hi)
  {
    hide Atoi, StepValues, DashIndex;
    if "*/" <= part {
      p := EveryNth(part[2..]);
    } else if '-' in part {
      var i := DashIndex(part);
      p := Span(part[..i], part[i + 1..]);
      assert part == part[..i] + "-" + part[i + 1..];
    } else {
      p := One(part);
    }
  }

  // --- Fields ---

  function RenderAll(ps: seq<Part>): (r: seq<string>)
    ensures |r| == |ps| && forall i :: 0 <= i < |ps| ==> r[i] == Render(ps[i])
  {
    if ps == [] then [] else [Render(ps[0])] + RenderAll(ps[1..])
  }

  ghost predicate PartsOk(ps: seq<Part>, lo: int, hi: int) {
    forall i :: 0 <= i < |ps| ==> PartOk(ps[i], lo, hi)
  }

  ghost predicate SomePartDenotes(ps: seq<Part>, lo: int, hi: int, v: int)
    requires PartsOk(ps, lo, hi)
  {
    exists i :: 0 <= i < |ps| && Denotes(ps[i], lo, hi, v)
  }

  lemma {:induction false} CollectRendered(ps: seq<Part>, lo: int, hi: int, acc: set<int>)
    requires 0 <= lo <= hi < 64 && PartsOk(ps, lo, hi)
    ensures CollectParts(RenderAll(ps), lo, hi, acc).Values?
    ensures forall v :: v in CollectParts(RenderAll(ps), lo, hi, acc).values <==> v in acc || SomePartDenotes(ps, lo, hi, v)
    decreases |ps|
  {
    hide ParsePart, PartOk, Denotes, Render;
    if ps != [] {
      PartParses(ps[0], lo, hi);
      var vs := ParsePart(Render(ps[0]), lo, hi).values;
      assert RenderAll(ps)[1..] == RenderAll(ps[1..]);
      CollectRendered(ps[1..], lo, hi, acc + vs);
      forall v ensures SomePartDenotes(ps, lo, hi, v) <==> v in vs || SomePartDenotes(ps[1..], lo, hi, v) {
        if SomePartDenotes(ps, lo, hi, v) {
          var i :| 0 <= i < |ps| && Denotes(ps[i], lo, hi, v);
          if i > 0 { assert Denotes(ps[1..][i - 1], lo, hi, v); }
        }
        if SomePartDenotes(ps[1..], lo, hi, v) {
          var i :| 0 <= i < |ps[1..]| && Denotes(ps[1..][i], lo, hi, v);
          assert Denotes(ps[i + 1], lo, hi, v);
        }
      }
    }
  }

  lemma {:induction false} CollectUnparses(parts: seq<string>, lo: int, hi: int, acc: set<int>) returns (ps: seq<Part>)
    requires 0 <= lo <= hi < 64 && CollectParts(parts, lo, hi, acc).Values?
    ensures PartsOk(ps, lo, hi) && RenderAll(ps) == parts
    decreases |parts|
  {
    hide ParsePart, PartOk, Render;
    ps := [];
    if parts != [] {
      var p := PartUnparses(parts[0], lo, hi);
      var rest := CollectUnparses(parts[1..], lo, hi, acc + ParsePart(parts[0], lo, hi).values);
      ps := [p] + rest;
      assert ps[1..] == rest;
    }
  }

  /** s is the comma-separated rendering of the parts ps, each well formed. */
  ghost predicate Spells(s: string, ps: seq<Part>, lo: int, hi: int) {
    |ps| >= 1 && PartsOk(ps, lo, hi) && s == Join(RenderAll(ps), ',')
  }

  /** A spelled field is accepted, and allows exactly the union of what its parts denote. */
  lemma SpelledFieldParses(s: string, ps: seq<Part>, lo: int, hi: int)
    requires 0 <= lo <= hi < 64 && s != "*" && Spells(s, ps, lo, hi)
    ensures FieldOf(s, lo, hi).Parsed?
    ensures forall v :: FieldOf(s, lo, hi).field.Contains(v) <==> SomePartDenotes(ps, lo, hi, v)
  {
    hide PartOk, Render, ParsePart, CollectParts, BitsOf;
    var parts := RenderAll(ps);
    forall p | p in parts ensures ',' !in p {
      var i :| 0 <= i < |parts| && parts[i] == p;
      PartParses(ps[i], lo, hi);
    }
    SplitJoin(parts, ',');
    CollectRendered(ps, lo, hi, {});
    forall v | SomePartDenotes(ps, lo, hi, v) ensures lo <= v <= hi {
      var i :| 0 <= i < |ps| && Denotes(ps[i], lo, hi, v);
      DenotedInside(ps[i], lo, hi, v);
    }
  }

  lemma DenotedInside(p: Part, lo: int, hi: int, v: int)
    requires PartOk(p, lo, hi) && Denotes(p, lo, hi, v)
    ensures lo <= v <= hi
  {
  }

  lemma SomethingDenoted(p: Part, lo: int, hi: int) returns (v: int)
    requires lo <= hi && PartOk(p, lo, hi)
    ensures Denotes(p, lo, hi, v)
  {
    match p
    case EveryNth(step) =>
      v := lo;
      assert v == lo + Times(0, Atoi(step).value);
    case Span(first, last) => v := Atoi(first).value;
    case One(value) => v := Atoi(value).value;
  }

  /** The parser accepts exactly "*" and the list, range and step grammar. */
  lemma FieldGrammar(s: string, lo: int, hi: int)
    requires 0 <= lo <= hi < 64
    ensures FieldOf(s, lo, hi).Parsed? <==> s == "*" || exists ps :: Spells(s, ps, lo, hi)
  {
    hide Split, Join, CollectParts, PartsOk, RenderAll, BitsOf;
    if s != "*" {
      if FieldOf(s, lo, hi).Parsed? {
        JoinSplit(s, ',');
        var ps := CollectUnparses(Split(s, ','), lo, hi, {});
        assert |ps| >= 1;
        assert Spells(s, ps, lo, hi);
      }
      if exists ps :: Spells(s, ps, lo, hi) {
        var ps :| Spells(s, ps, lo, hi);
        SpelledFieldParses(s, ps, lo, hi);
      }
    }
  }

  /** A parsed field allows something, and nothing outside its bounds. */
  lemma ParsedFieldOk(s: string, lo: int, hi: int)
    requires 0 <= lo <= hi < 64 && FieldOf(s, lo, hi).Parsed?
    ensures FieldOk(FieldOf(s, lo, hi).field, lo, hi)
  {
    hide CollectParts, BitsOf, Split, RenderAll, PartOk, Join, Denotes;
    FieldGrammar(s, lo, hi);
    var f := FieldOf(s, lo, hi).field;
    if s == "*" {
      assert f.Contains(lo);
    } else {
      var ps :| Spells(s, ps, lo, hi);
      SpelledFieldParses(s, ps, lo, hi);
      var v := SomethingDenoted(ps[0], lo, hi);
      DenotedInside(ps[0], lo, hi, v);
      assert f.Contains(v);
      forall u | 0 <= u < 64 && f.bits[u] ensures lo <= u <= hi {
        assert f.Contains(u);
        var i :| 0 <= i < |ps| && Denotes(ps[i], lo, hi, u);
        DenotedInside(ps[i], lo, hi, u);
      }
    }
  }

  // --- The index panic ---

  predicate OverflowingStep(part: string, lo: int) {
    "*/" <= part && Atoi(part[2..]).Some? && Atoi(part[2..]).value > MAX_INT64 - lo && Atoi(part[2..]).value > 0
  }

  lemma {:induction false} CollectPanicsIff(parts: seq<string>, lo: int, hi: int, acc: set<int>)
    ensures CollectParts(parts, lo, hi, acc).PanicPart? <==>
            exists i :: 0 <= i < |parts| && OverflowingStep(parts[i], lo)
                        && forall j :: 0 <= j < i ==> ParsePart(parts[j], lo, hi).Values?
    decreases |parts|
  {
    hide StepValues, Atoi, DashIndex;
    if parts != [] {
      var head, rest := ParsePart(parts[0], lo, hi), parts[1..];
      assert head.PanicPart? <==> OverflowingStep(parts[0], lo);
      if head.Values? {
        CollectPanicsIff(rest, lo, hi, acc + head.values);
        if i :| 0 <= i < |rest| && OverflowingStep(rest[i], lo) && forall j :: 0 <= j < i ==> ParsePart(rest[j], lo, hi).Values? {
          assert OverflowingStep(parts[i + 1], lo);
          forall j | 0 <= j < i + 1 ensures ParsePart(parts[j], lo, hi).Values? {
            if j > 0 { assert parts[j] == rest[j - 1]; }
          }
        }
        if i :| 0 <= i < |parts| && OverflowingStep(parts[i], lo) && forall j :: 0 <= j < i ==> ParsePart(parts[j], lo, hi).Values? {
          assert i > 0 && rest[i - 1] == parts[i];
          forall j | 0 <= j < i - 1 ensures ParsePart(rest[j], lo, hi).Values? {
            assert rest[j] == parts[j + 1];
          }
        }
      }
    }
  }

  /** Parsing panics if and only if some part is a star step k with lo + k past the int64 range and no earlier part is bad. */
  lemma PanicsIff(s: string, lo: int, hi: int)
    ensures var parts := Split(s, ',');
            FieldOf(s, lo, hi).Panicked? <==>
            exists i :: 0 <= i < |parts| && OverflowingStep(parts[i], lo)
                        && forall j :: 0 <= j < i ==> ParsePart(parts[j], lo, hi).Values?
  {
    hide ParsePart, CollectParts, BitsOf, Split, Atoi;
    CollectPanicsIff(Split(s, ','), lo, hi, {});
    if s == "*" {
      SplitPrefix("*", "", ',');
      assert Split(s, ',') == ["*"];
    }
  }

  /** The largest numeral as a step, in a field that starts at 1. */
  lemma LargestStepPanics(lo: int, hi: int)
    requires lo >= 1
    ensures FieldOf("*/" + Decimal(MAX_INT64), lo, hi).Panicked?
  {
    hide Split, Atoi, Decimal, CollectParts, ParsePart;
    var n := Decimal(MAX_INT64);
    var s := "*/" + n;
    AtoiOfDecimal(MAX_INT64);
    assert s[2..] == n;
    if ',' in n { AtoiCharacters(n, ','); }
    SplitPrefix(s, "", ',');
    assert Split(s, ',') == [s];
    assert OverflowingStep(Split(s, ',')[0], lo);
    PanicsIff(s, lo, hi);
  }
}
