/**
 Schedule expressions: macros, "@every" intervals and five-field cron, and the run time
 each of them gives after an instant.
 */
module Schedules {
  import opened Options
  import opened GoText
  import opened Cron
  import opened CronHorizon
  import opened CronParse

  datatype Schedule = CronSchedule(expr: CronExpr) | Interval(raw: string, d: int)

  const NANOS_PER_DAY: int := 86_400_000_000_000

  /** The activation after instant t, in nanoseconds; None is Go's zero time. */
  function NextRun(s: Schedule, t: int): Option<int> {
    match s
    case Interval(_, d) => Some(t + d)
    case CronSchedule(c) =>
      match NextActivation(c, t)
      case None => None
      case Some(m) => Some(m * 60_000_000_000)
  }

  /**
   What a next run after t is: t + d for an interval; for a cron expression the first whole
   minute after t at which it fires, and none if it fires nowhere within the horizon.
   */
  ghost predicate IsNextRun(s: Schedule, t: int, next: Option<int>) {
    match s
    case Interval(_, d) => next == Some(t + d)
    case CronSchedule(c) =>
      if next.Some? then
        && t < next.value && next.value % 60_000_000_000 == 0 && Fires(c, next.value / 60_000_000_000)
        && forall m :: t < m * 60_000_000_000 < next.value ==> !Fires(c, m)
      else
        forall m :: t < m * 60_000_000_000 && m < t / 60_000_000_000 + 1 + 4 * 365 * 1440 ==> !Fires(c, m)
  }

  lemma NextRunIs(s: Schedule, t: int)
    ensures IsNextRun(s, t, NextRun(s, t))
  {
    hide NextActivation, Fires;
    if s.CronSchedule? {
      ActivationIsNext(s.expr, t);
      var a := NextActivation(s.expr, t);
      if a.Some? {
        assert a.value * 60_000_000_000 / 60_000_000_000 == a.value;
      }
    }
  }

  // --- parseDuration ---

  /** goDuration stands for time.ParseDuration. Days are multiplied out in int64, unchecked. */
  function DurationOf(text: string, goDuration: string -> Option<int>): Option<int> {
    var s := TrimSpace(text);
    if s != "" && s[|s| - 1] == 'd' then
      match Atoi(s[..|s| - 1])
      case None => None
      case Some(n) => if n <= 0 then None else Some(Wrap64(n * 86_400_000_000_000))
    else
      match goDuration(s)
      case None => None
      case Some(d) => if d <= 0 then None else Some(d)
  }

  // --- parseCron ---

  function CronOf(expr: string): Result<CronExpr, Failure> {
    var f := Fields(expr);
    if |f| != 5 then Err(FieldCount(|f|))
    else
      var minute := FieldOf(f[0], 0, 59);
      if !minute.Parsed? then Err(FieldFailure(minute, 0)) else
      var hour := FieldOf(f[1], 0, 23);
      if !hour.Parsed? then Err(FieldFailure(hour, 1)) else
      var dom := FieldOf(f[2], 1, 31);
      if !dom.Parsed? then Err(FieldFailure(dom, 2)) else
      var month := FieldOf(f[3], 1, 12);
      if !month.Parsed? then Err(FieldFailure(month, 3)) else
      var dow := FieldOf(f[4], 0, 6);
      if !dow.Parsed? then Err(FieldFailure(dow, 4)) else
      Ok(CronExpr(expr, minute.field, hour.field, dom.field, month.field, dow.field))
  }

  function FieldFailure(r: FieldResult, index: nat): Failure {
    if r.Panicked? then IndexPanic else BadField(index)
  }

  method ParseCron(expr: string) returns (r: Result<CronExpr, Failure>)
    ensures r == CronOf(expr)
  {
    hide FieldOf, Fields;
    var fields := Fields(expr);
    if |fields| != 5 {
      return Err(FieldCount(|fields|));
    }
    var minute := ParseField(fields[0], 0, 59);
    if !minute.Parsed? {
      return Err(FieldFailure(minute, 0));
    }
    var hour := ParseField(fields[1], 0, 23);
    if !hour.Parsed? {
      return Err(FieldFailure(hour, 1));
    }
    var dom := ParseField(fields[2], 1, 31);
    if !dom.Parsed? {
      return Err(FieldFailure(dom, 2));
    }
    var month := ParseField(fields[3], 1, 12);
    if !month.Parsed? {
      return Err(FieldFailure(month, 3));
    }
    var dow := ParseField(fields[4], 0, 6);
    if !dow.Parsed? {
      return Err(FieldFailure(dow, 4));
    }
    r := Ok(CronExpr(expr, minute.field, hour.field, dom.field, month.field, dow.field));
  }

  // --- ParseSchedule ---

  function Macro(expr: string): Option<CronExpr> {
    if expr == "@hourly" then Some(CronExpr(expr, Single(0), Star(), Star(), Star(), Star()))
    else if expr == "@daily" || expr == "@midnight" then Some(CronExpr(expr, Single(0), Single(0), Star(), Star(), Star()))
    else if expr == "@weekly" then Some(CronExpr(expr, Single(0), Single(0), Star(), Star(), Single(0)))
    else if expr == "@monthly" then Some(CronExpr(expr, Single(0), Single(0), Single(1), Star(), Star()))
    else if expr == "@yearly" || expr == "@annually" then Some(CronExpr(expr, Single(0), Single(0), Single(1), Single(1), Star()))
    else None
  }

  function ScheduleOf(text: string, goDuration: string -> Option<int>): Result<Schedule, Failure> {
    var expr := TrimSpace(text);
    if expr == "" then Err(EmptyExpression)
    else if Macro(expr).Some? then Ok(CronSchedule(Macro(expr).value))
    else if "@every " <= expr then
      match DurationOf(expr[7..], goDuration)
      case None => Err(BadDuration)
      case Some(d) => Ok(Interval(expr, d))
    else
      match CronOf(expr)
      case Ok(c) => Ok(CronSchedule(c))
      case Err(e) => Err(e)
  }

  method ParseSchedule(text: string, goDuration: string -> Option<int>) returns (r: Result<Schedule, Failure>)
    ensures r == ScheduleOf(text, goDuration)
  {
    hide CronOf, DurationOf;
    var expr := TrimSpace(text);
    if expr == "" {
      return Err(EmptyExpression);
    }
    if Macro(expr).Some? {
      return Ok(CronSchedule(Macro(expr).value));
    }
    if "@every " <= expr {
      var d := DurationOf(expr[7..], goDuration);
      return if d.None? then Err(BadDuration) else Ok(Interval(expr, d.value));
    }
    var c := ParseCron(expr);
    r := if c.Ok? then Ok(CronSchedule(c.value)) else Err(c.error);
  }

  // --- What parsing guarantees ---

  lemma SingleOk(v: int, lo: int, hi: int)
    requires 0 <= lo <= v <= hi < 64
    ensures FieldOk(Single(v), lo, hi)
  {
    assert Single(v).Contains(v);
  }

  lemma StarOk(lo: int, hi: int)
    requires 0 <= lo <= hi < 64
    ensures FieldOk(Star(), lo, hi)
  {
    assert Star().Contains(lo);
  }

  /** Every accepted cron expression has five satisfiable fields inside their bounds. */
  lemma ParsedExprOk(text: string, goDuration: string -> Option<int>)
    requires ScheduleOf(text, goDuration).Ok? && ScheduleOf(text, goDuration).value.CronSchedule?
    ensures ExprOk(ScheduleOf(text, goDuration).value.expr)
  {
    hide FieldOf, Fields, FieldOk, DurationOf, TrimSpace, Single, Star;
    var expr := TrimSpace(text);
    SingleOk(0, 0, 59);
    SingleOk(0, 0, 23);
    SingleOk(0, 0, 6);
    SingleOk(1, 1, 31);
    SingleOk(1, 1, 12);
    StarOk(0, 23);
    StarOk(1, 31);
    StarOk(1, 12);
    StarOk(0, 6);
    if Macro(expr).None? {
      var f := Fields(expr);
      ParsedFieldOk(f[0], 0, 59);
      ParsedFieldOk(f[1], 0, 23);
      ParsedFieldOk(f[2], 1, 31);
      ParsedFieldOk(f[3], 1, 12);
      ParsedFieldOk(f[4], 0, 6);
    }
  }

  /** Over all start times a parsed cron schedule always has a next run iff every year has one. */
  lemma ParsedNeverZeroIff(text: string, goDuration: string -> Option<int>)
    requires ScheduleOf(text, goDuration).Ok? && ScheduleOf(text, goDuration).value.CronSchedule?
    ensures var s := ScheduleOf(text, goDuration).value;
            (forall t :: NextRun(s, t).Some?) <==> EveryYear(s.expr)
  {
    hide ScheduleOf, NextActivation, ExprOk, EveryYear;
    var s := ScheduleOf(text, goDuration).value;
    ParsedExprOk(text, goDuration);
    NeverZeroIff(s.expr);
    if forall t :: NextRun(s, t).Some? {
      forall t ensures NextActivation(s.expr, t).Some? {
        assert NextRun(s, t).Some?;
      }
    }
  }

  // --- The index panic of a whole expression ---

  function FieldLow(i: nat): int { if i == 2 || i == 3 then 1 else 0 }

  function FieldHigh(i: nat): int {
    if i == 0 then 59 else if i == 1 then 23 else if i == 2 then 31 else if i == 3 then 12 else 6
  }

  /** Parsing a schedule panics if and only if it has five fields, one of them panics, and those before it parse. */
  lemma SchedulePanicsIff(text: string, goDuration: string -> Option<int>)
    ensures var expr := TrimSpace(text);
            var f := Fields(expr);
            ScheduleOf(text, goDuration) == Err(IndexPanic) <==>
            && expr != "" && Macro(expr).None? && !("@every " <= expr) && |f| == 5
            && exists i :: 0 <= i < 5 && FieldOf(f[i], FieldLow(i), FieldHigh(i)).Panicked?
                           && forall j :: 0 <= j < i ==> FieldOf(f[j], FieldLow(j), FieldHigh(j)).Parsed?
  {
    hide FieldOf, Fields, DurationOf, TrimSpace, Single, Star;
    var f := Fields(TrimSpace(text));
    if |f| == 5 {
      var r := (i: nat) requires i < 5 => FieldOf(f[i], FieldLow(i), FieldHigh(i));
      assert r(0) == FieldOf(f[0], 0, 59) && r(1) == FieldOf(f[1], 0, 23) && r(2) == FieldOf(f[2], 1, 31);
      assert r(3) == FieldOf(f[3], 1, 12) && r(4) == FieldOf(f[4], 0, 6);
    }
  }

  /** "0 0 * / 9223372036854775807 * *", without the blanks around the slash, is such an expression. */
  lemma LargestStepPanicsSchedule(goDuration: string -> Option<int>)
    ensures var step := "*/" + Decimal(MAX_INT64);
            ScheduleOf("0" + " " + ("0" + " " + (step + " " + ("*" + " " + "*"))), goDuration) == Err(IndexPanic)
  {
    hide FieldOf, Fields, Decimal, DurationOf, TrimSpace, Single, Star, NoSpace;
    var step := "*/" + Decimal(MAX_INT64);
    var text := "0" + " " + ("0" + " " + (step + " " + ("*" + " " + "*")));
    assert NoSpace("0") && NoSpace("*") by { DigitsNoSpace(); }
    assert NoSpace(step) by { StepNoSpace(MAX_INT64); }
    FiveWords("0", "0", step, "*", "*");
    MacroWordsParse();
    LargestStepPanics(1, 31);
    assert text[0] == '0' && text[|text| - 1] == '*';
    TrimIdentity(text);
  }

  lemma StepNoSpace(n: nat)
    requires n <= MAX_INT64
    ensures NoSpace("*/" + Decimal(n))
  {
    hide Decimal, Atoi;
    var s := Decimal(n);
    AtoiOfDecimal(n);
    forall c | c in s ensures !IsSpace(c) {
      AtoiCharacters(s, c);
    }
  }

  // --- What the texts mean ---

  /** "@every x", x not in days: the duration that the library gives x, if it is positive. */
  lemma EveryMeaning(x: string, goDuration: string -> Option<int>)
    requires x != "" && !IsSpace(x[0]) && !IsSpace(x[|x| - 1]) && x[|x| - 1] != 'd'
    ensures var text := "@every " + x;
            ScheduleOf(text, goDuration)
            == match goDuration(x)
               case None => Err(BadDuration)
               case Some(d) => if d > 0 then Ok(Interval(text, d)) else Err(BadDuration)
  {
    hide CronOf, TrimSpace, Single, Star;
    var text := "@every " + x;
    assert text[0] == '@' && text[1] == 'e' && text[|text| - 1] == x[|x| - 1] && text[7..] == x;
    TrimIdentity(text);
    TrimIdentity(x);
  }

  /** "@every wd": w must be a positive numeral. */
  lemma EveryDaysMeaning(w: string, goDuration: string -> Option<int>)
    requires NoSpace(w)
    ensures var text := "@every " + (w + "d");
            ScheduleOf(text, goDuration)
            == if Atoi(w).Some? && Atoi(w).value > 0 then Ok(Interval(text, Wrap64(Atoi(w).value * 24 * 3600 * 1_000_000_000)))
               else Err(BadDuration)
  {
    hide CronOf, TrimSpace, Single, Star, Atoi, Wrap64;
    var text, rest := "@every " + (w + "d"), w + "d";
    assert text[0] == '@' && text[1] == 'e' && text[|text| - 1] == 'd' && text[7..] == rest;
    assert rest[0] == if w == "" then 'd' else w[0];
    assert rest[|rest| - 1] == 'd' && rest[..|rest| - 1] == w;
    TrimIdentity(text);
    TrimIdentity(rest);
  }

  /** A schedule remembers the text it was read from, trimmed. */
  lemma TextIsKept(text: string, goDuration: string -> Option<int>)
    requires ScheduleOf(text, goDuration).Ok?
    ensures var s := ScheduleOf(text, goDuration).value;
            (s.CronSchedule? ==> s.expr.raw == TrimSpace(text)) && (s.Interval? ==> s.raw == TrimSpace(text))
  {
    hide FieldOf, Fields, DurationOf, TrimSpace, Single, Star;
  }

  /**
   Five words that are no interval: minute 0 to 59, hour 0 to 23, day of the month 1 to 31,
   month 1 to 12 and weekday 0 to 6, in this order, accepted when each of them is.
   */
  lemma FiveFieldMeaning(a: string, b: string, c: string, d: string, e: string, goDuration: string -> Option<int>)
    requires a != "" && NoSpace(a) && b != "" && NoSpace(b) && c != "" && NoSpace(c)
    requires d != "" && NoSpace(d) && e != "" && NoSpace(e) && a != "@every"
    ensures var text := a + " " + (b + " " + (c + " " + (d + " " + e)));
            var minute, hour, dom := FieldOf(a, 0, 59), FieldOf(b, 0, 23), FieldOf(c, 1, 31);
            var month, dow := FieldOf(d, 1, 12), FieldOf(e, 0, 6);
            var r := ScheduleOf(text, goDuration);
            && (r.Ok? <==> minute.Parsed? && hour.Parsed? && dom.Parsed? && month.Parsed? && dow.Parsed?)
            && (r.Ok? ==> r.value == CronSchedule(CronExpr(text, minute.field, hour.field, dom.field, month.field, dow.field)))
  {
    hide FieldOf, Fields, DurationOf, TrimSpace, Single, Star, NoSpace;
    var text := a + " " + (b + " " + (c + " " + (d + " " + e)));
    FiveWords(a, b, c, d, e);
    assert text[0] == a[0] && text[|text| - 1] == e[|e| - 1];
    WordEnds(a);
    WordEnds(e);
    TrimIdentity(text);
    assert text[|a|] == ' ';
    NoMacroHasBlanks(text, |a|);
    if "@every " <= text { FirstWordIs(a, text); }
  }

  lemma WordEnds(w: string)
    requires w != "" && NoSpace(w)
    ensures !IsSpace(w[0]) && !IsSpace(w[|w| - 1]) && ' ' !in w
  {
    forall i | 0 <= i < |w| ensures w[i] != ' ' {
      assert !IsSpace(w[i]);
    }
  }

  lemma NoMacroHasBlanks(text: string, i: nat)
    requires i < |text| && text[i] == ' '
    ensures Macro(text).None?
  {
    hide Single, Star;
  }

  lemma FirstWordIs(a: string, text: string)
    requires "@every " <= text && |a| < |text| && text[..|a|] == a && text[|a|] == ' ' && ' ' !in a
    ensures a == "@every"
  {
    assert text[..7] == "@every " && forall i :: 0 <= i < 7 ==> text[i] == text[..7][i];
    assert forall i :: 0 <= i < |a| ==> text[i] == a[i] && a[i] != ' ';
    assert text[0] == '@' && text[1] == 'e' && text[2] == 'v' && text[3] == 'e' && text[4] == 'r' && text[5] == 'y' && text[6] == ' ';
    assert |a| == 6;
    assert a == text[..6];
  }

  // --- Macros ---

  /** The five-field form a macro abbreviates. */
  function FiveFields(macro: string): Option<string> {
    if macro == "@hourly" then Some("0 * * * *")
    else if macro == "@daily" || macro == "@midnight" then Some("0 0 * * *")
    else if macro == "@weekly" then Some("0 0 * * 0")
    else if macro == "@monthly" then Some("0 0 1 * *")
    else if macro == "@yearly" || macro == "@annually" then Some("0 0 1 1 *")
    else None
  }

  /** There are seven macros, and each has a five-field form. */
  lemma MacroNames(text: string)
    ensures Macro(text).Some? <==> text in {"@hourly", "@daily", "@midnight", "@weekly", "@monthly", "@yearly", "@annually"}
    ensures FiveFields(text).Some? <==> Macro(text).Some?
  {
    hide Single, Star;
  }

  /** A single digit is the field that allows that value alone. */
  lemma DigitField(v: nat, lo: int, hi: int)
    requires v <= 9 && 0 <= lo <= v <= hi < 64
    ensures FieldOf(Decimal(v), lo, hi) == Parsed(Single(v))
  {
    hide Atoi, DashIndex, Split;
    var s := Decimal(v);
    assert s == [DigitChar(v)];
    SplitPrefix(s, "", ',');
    AtoiOfDecimal(v);
    assert s[0] != '-' && s[0] != '*';
    assert ParsePart(s, lo, hi) == Values({v});
    assert Split(s, ',') == [s];
    assert CollectParts([s], lo, hi, {}) == Values({} + {v});
    assert BitsOf({v}, 64) == NoBits(64)[v := true];
  }

  lemma FiveWords(a: string, b: string, c: string, d: string, e: string)
    requires a != "" && NoSpace(a) && b != "" && NoSpace(b) && c != "" && NoSpace(c)
    requires d != "" && NoSpace(d) && e != "" && NoSpace(e)
    ensures Fields(a + " " + (b + " " + (c + " " + (d + " " + e)))) == [a, b, c, d, e]
  {
    hide Fields;
    FieldsCons(d, e);
    FieldsCons(e, "");
    FieldsCons(c, d + " " + e);
    FieldsCons(b, c + " " + (d + " " + e));
    FieldsCons(a, b + " " + (c + " " + (d + " " + e)));
  }

  lemma StarField(lo: int, hi: int)
    ensures FieldOf("*", lo, hi) == Parsed(Star())
  {
  }

  lemma CronOfWords(a: string, b: string, c: string, d: string, e: string, m: CronExpr)
    requires a != "" && NoSpace(a) && b != "" && NoSpace(b) && c != "" && NoSpace(c)
    requires d != "" && NoSpace(d) && e != "" && NoSpace(e)
    requires FieldOf(a, 0, 59) == Parsed(m.minute) && FieldOf(b, 0, 23) == Parsed(m.hour)
    requires FieldOf(c, 1, 31) == Parsed(m.dom) && FieldOf(d, 1, 12) == Parsed(m.month) && FieldOf(e, 0, 6) == Parsed(m.dow)
    ensures var text := a + " " + (b + " " + (c + " " + (d + " " + e)));
            CronOf(text) == Ok(m.(raw := text))
  {
    hide FieldOf, Fields;
    FiveWords(a, b, c, d, e);
  }

  lemma MacroWordsParse()
    ensures FieldOf("0", 0, 59) == Parsed(Single(0)) && FieldOf("0", 0, 23) == Parsed(Single(0))
    ensures FieldOf("0", 0, 6) == Parsed(Single(0))
    ensures FieldOf("1", 1, 31) == Parsed(Single(1)) && FieldOf("1", 1, 12) == Parsed(Single(1))
    ensures FieldOf("*", 0, 23) == Parsed(Star()) && FieldOf("*", 1, 31) == Parsed(Star())
    ensures FieldOf("*", 1, 12) == Parsed(Star()) && FieldOf("*", 0, 6) == Parsed(Star())
  {
    hide FieldOf, Single, Star;
    assert Decimal(0) == "0" && Decimal(1) == "1" by { DecimalDigit(0); DecimalDigit(1); }
    DigitField(0, 0, 59);
    DigitField(0, 0, 23);
    DigitField(0, 0, 6);
    DigitField(1, 1, 31);
    DigitField(1, 1, 12);
    StarField(0, 23);
    StarField(1, 31);
    StarField(1, 12);
    StarField(0, 6);
  }

  lemma FiveFieldsParse(macro: string)
    requires FiveFields(macro).Some?
    ensures Macro(macro).Some?
    ensures var five := FiveFields(macro).value; CronOf(five) == Ok(Macro(macro).value.(raw := five))
  {
    hide FieldOf, CronOf, Single, Star, NoSpace;
    MacroWordsParse();
    assert NoSpace("0") && NoSpace("1") && NoSpace("*") by { DigitsNoSpace(); }
    var m, five := Macro(macro).value, FiveFields(macro).value;
    if macro == "@hourly" {
      CronOfWords("0", "*", "*", "*", "*", m);
      assert five == "0" + " " + ("*" + " " + ("*" + " " + ("*" + " " + "*")));
    } else if macro == "@daily" || macro == "@midnight" {
      CronOfWords("0", "0", "*", "*", "*", m);
      assert five == "0" + " " + ("0" + " " + ("*" + " " + ("*" + " " + "*")));
    } else if macro == "@weekly" {
      CronOfWords("0", "0", "*", "*", "0", m);
      assert five == "0" + " " + ("0" + " " + ("*" + " " + ("*" + " " + "0")));
    } else if macro == "@monthly" {
      CronOfWords("0", "0", "1", "*", "*", m);
      assert five == "0" + " " + ("0" + " " + ("1" + " " + ("*" + " " + "*")));
    } else {
      CronOfWords("0", "0", "1", "1", "*", m);
      assert five == "0" + " " + ("0" + " " + ("1" + " " + ("1" + " " + "*")));
    }
  }

  lemma DigitsNoSpace()
    ensures NoSpace("0") && NoSpace("1") && NoSpace("*")
  {
  }

  /** A macro denotes the same expression as its five fields, so the same run times. */
  lemma MacroMeaning(macro: string, goDuration: string -> Option<int>, t: int)
    requires FiveFields(macro).Some?
    ensures ScheduleOf(macro, goDuration).Ok? && ScheduleOf(FiveFields(macro).value, goDuration).Ok?
    ensures NextRun(ScheduleOf(macro, goDuration).value, t) == NextRun(ScheduleOf(FiveFields(macro).value, goDuration).value, t)
  {
    hide CronOf, NextActivation, TrimSpace, DurationOf, Single, Star;
    var five := FiveFields(macro).value;
    TrimIdentity(macro);
    TrimIdentity(five);
    FiveFieldsParse(macro);
    assert five[0] == '0';
    SameFieldsSameRuns(Macro(macro).value, CronOf(five).value, t);
  }

  lemma DecimalDigit(v: nat)
    requires v <= 9
    ensures Decimal(v) == [DigitChar(v)]
  {
  }

  lemma SameFieldsSameRuns(a: CronExpr, b: CronExpr, t: int)
    requires b == a.(raw := b.raw)
    ensures NextActivation(a, t) == NextActivation(b, t)
  {
    hide CronExpr.Matches, FirstMatch;
    var s := StartMinute(t);
    FirstMatchIsLeast(a, s, s + HORIZON);
    FirstMatchIsLeast(b, s, s + HORIZON);
    forall m ensures a.Matches(m) == b.Matches(m) {
      SameFieldsMatch(a, b, m);
    }
  }

  lemma SameFieldsMatch(a: CronExpr, b: CronExpr, m: int)
    requires b == a.(raw := b.raw)
    ensures a.Matches(m) == b.Matches(m)
  {
    hide FieldSet.Contains, Calendar.MonthOfMinute, Calendar.CivilOf;
  }

  // --- Intervals ---

  /** "@every Nd" is accepted for every positive int, but is N days only up to 106751 of them. */
  lemma DaysIntervalExactIff(n: nat, goDuration: string -> Option<int>)
    requires 0 < n <= MAX_INT64
    ensures var text := "@every " + Decimal(n) + "d";
            && ScheduleOf(text, goDuration).Ok?
            && ScheduleOf(text, goDuration).value.Interval?
            && (ScheduleOf(text, goDuration).value.d == n * NANOS_PER_DAY <==> n <= 106_751)
  {
    hide Atoi, Decimal, TrimLeft, TrimRight;
    var text := "@every " + Decimal(n) + "d";
    var rest := Decimal(n) + "d";
    assert text[7..] == rest;
    TrimIdentity(text);
    TrimIdentity(rest);
    assert rest[..|rest| - 1] == Decimal(n);
    AtoiOfDecimal(n);
  }
}
