/** When the weekday rewrite keeps meaning, and what whole schedules mean. */
module CronSchedule {
  import opened Text
  import opened Cron
  import opened CronMeaning
  import Calendar

  // ---------- The weekday rewrite, term by term ----------

  /** A term stands for weekday `w` under one of its names. */
  predicate DenotesWeekday(w: nat, t: Term) {
    Denotes(w, t) || (w == 0 && Denotes(7, t))
  }

  /** What is left of a term after the rewrite. */
  predicate DenotesRewritten(w: nat, t: Term) {
    match t
    case One(a) => w == Folded(a).value
    case Span(a, b) => Denotes(w, Span(Folded(a), Folded(b)))
    case From(_, _) => DenotesWeekday(w, t)
    case SpanStep(_, _, _) => DenotesWeekday(w, t)
    case _ => Denotes(w, t)
  }

  /**
   * The terms whose meaning survives folding. A bare 7 at both ends of a span
   * is fine; at the low end the high end must be a day below 7, at the high end
   * the low end one from 1 to 7 (0-7 becomes 0-0); and a span with no bare 7
   * must not reach Sunday as 7 only. A 7 with leading zeros is not folded.
   */
  predicate FoldsWell(t: Term) {
    match t
    case One(a) => a.value == 7 ==> a.zeros == 0
    case Span(a, b) =>
      if a == Num(7, 0) then b == Num(7, 0) || b.value < 7
      else if b == Num(7, 0) then 1 <= a.value <= 7
      else !(1 <= a.value <= 7 <= b.value)
    case _ => true
  }

  lemma SpanFoldingIsExact(a: Num, b: Num)
    ensures FoldsWell(Span(a, b))
            <==> forall w: nat :: w < 7 ==> (DenotesRewritten(w, Span(a, b)) <==> DenotesWeekday(w, Span(a, b)))
  {
    var t := Span(a, b);
    if !FoldsWell(t) {
      var w: nat := if a != Num(7, 0) && b != Num(7, 0) then 0 else 1;
      assert DenotesRewritten(w, t) != DenotesWeekday(w, t);
    }
  }

  lemma FoldingIsExact(t: Term)
    ensures FoldsWell(t) <==> forall w: nat :: w < 7 ==> (DenotesRewritten(w, t) <==> DenotesWeekday(w, t))
  {
    match t
    case Span(a, b) => SpanFoldingIsExact(a, b);
    case One(a) =>
      if a.value == 7 && a.zeros > 0 {
        assert DenotesRewritten(0, t) != DenotesWeekday(0, t);
      }
    case Every(k) =>
      if k.value > 0 {
        assert 0 % k.value == 0;
      }
    case _ =>
  }

  lemma HitsAreDenoted(w: nat, t: Term)
    requires w < 7 && Fits(t)
    ensures HitsWeekday(Hits(Render(t)), 8, w) <==> DenotesWeekday(w, t)
  {
    var hit := Hits(Render(t));
    forall d: nat | d < 8 ensures hit(d) <==> Denotes(d, t) {
      MatchIsDenotes(d, t);
    }
    assert w % 7 == w && 7 % 7 == 0;
    if HitsWeekday(hit, 8, w) {
      var d: nat :| d < 8 && d % 7 == w && hit(d);
      assert d == w || (d == 7 && w == 0);
    }
    if Denotes(w, t) {
      assert hit(w);
    } else if w == 0 && Denotes(7, t) {
      assert hit(7);
    }
  }

  lemma SteppedSlash(base: string, step: string)
    requires base != "" && IsDigit(base[0]) && '/' !in base
    ensures Index(base + "/" + step, '/') == |base| < |base + "/" + step|
    ensures (base + "/" + step)[..|base|] != "*"
  {
    IndexAfter(base, '/', step);
    assert (base + "/" + step)[..|base|] == base;
  }

  lemma RewrittenStep(w: nat, t: Term)
    requires w < 7 && Fits(t) && (t.From? || t.SpanStep?)
    ensures MatchField(w, NormalizeTerm(Render(t))) <==> DenotesWeekday(w, t)
  {
    RenderHasNoComma(t);
    HitsAreDenoted(w, t);
    var base := if t.From? then Numeral(t.low) else Numeral(t.low) + "-" + Numeral(t.high);
    assert base[0] == Numeral(t.low)[0];
    SteppedSlash(base, Numeral(t.step));
    ExpansionKeepsDays(w, Render(t));
  }

  lemma RewrittenTerm(w: nat, t: Term)
    requires w < 7 && Fits(t)
    ensures MatchField(w, NormalizeTerm(Render(t))) <==> DenotesRewritten(w, t)
  {
    match t
    case Star =>
      StarStays();
      FieldOfPlain(w, "*");
    case Every(k) =>
      NormalizeEvery(Numeral(k));
      RewrittenPlain(w, t);
    case One(a) =>
      NormalizeOne(a);
      RewrittenPlain(w, One(Folded(a)));
    case Span(a, b) =>
      NormalizeSpan(a, b);
      RewrittenPlain(w, Span(Folded(a), Folded(b)));
    case From(_, _) => RewrittenStep(w, t);
    case SpanStep(_, _, _) => RewrittenStep(w, t);
  }

  lemma RewrittenPlain(w: nat, t: Term)
    requires w < 7 && Fits(t)
    ensures MatchField(w, Render(t)) <==> Denotes(w, t)
  {
    RenderHasNoComma(t);
    FieldOfPlain(w, Render(t));
    MatchIsDenotes(w, t);
  }

  // ---------- The weekday rewrite of a whole field ----------

  /** The weekdays left of a list after the rewrite. */
  predicate SelectsRewritten(ts: seq<Term>, w: nat) {
    exists i :: 0 <= i < |ts| && DenotesRewritten(w, ts[i])
  }

  /** What the rewritten field of any list matches. */
  lemma RewrittenField(w: nat, ts: seq<Term>)
    requires w < 7 && ts != [] && AllFit(ts)
    ensures MatchField(w, NormalizeField(RenderField(ts))) <==> SelectsRewritten(ts, w)
  {
    var parts := MapAll(Normalizer(), RenderAll(ts));
    MapAllAt(Normalizer(), RenderAll(ts));
    RenderedTerms(ts);
    MatchJoined(w, parts);
    forall i | 0 <= i < |ts| ensures MatchField(w, parts[i]) <==> DenotesRewritten(w, ts[i]) {
      RewrittenTerm(w, ts[i]);
    }
  }

  lemma WeekdayOfTerms(w: nat, ts: seq<Term>)
    requires w < 7
    ensures SelectsWeekday(ts, w) <==> exists i :: 0 <= i < |ts| && DenotesWeekday(w, ts[i])
  {
    assert w % 7 == w && 7 % 7 == 0;
    if SelectsWeekday(ts, w) {
      var d: nat :| d <= 7 && d % 7 == w && Selects(ts, d);
      assert d == w || (d == 7 && w == 0);
      var i :| 0 <= i < |ts| && Denotes(d, ts[i]);
      assert DenotesWeekday(w, ts[i]);
    }
    if i :| 0 <= i < |ts| && DenotesWeekday(w, ts[i]) {
      var d: nat := if Denotes(w, ts[i]) then w else 7;
      assert Selects(ts, d);
    }
  }

  /** The rewritten field matches weekday `w` exactly when the list selects it. */
  ghost predicate Agrees(ts: seq<Term>, w: nat) {
    MatchField(w, NormalizeField(RenderField(ts))) <==> SelectsWeekday(ts, w)
  }

  /** Normalization preserves the meaning of every list whose spans fold well. */
  lemma RewriteKeepsWeekdays(ts: seq<Term>, w: nat)
    requires w < 7 && ts != [] && AllFit(ts)
    requires forall i :: 0 <= i < |ts| ==> FoldsWell(ts[i])
    ensures Agrees(ts, w)
  {
    RewrittenField(w, ts);
    WeekdayOfTerms(w, ts);
    forall i | 0 <= i < |ts| ensures DenotesRewritten(w, ts[i]) <==> DenotesWeekday(w, ts[i]) {
      FoldingIsExact(ts[i]);
    }
  }

  /** On a field of one term the condition is exact. */
  lemma RewriteOfOneTerm(t: Term)
    requires Fits(t)
    ensures (forall w: nat :: w < 7 ==> Agrees([t], w)) <==> FoldsWell(t)
  {
    FoldingIsExact(t);
    forall w: nat | w < 7 ensures Agrees([t], w) <==> (DenotesRewritten(w, t) <==> DenotesWeekday(w, t)) {
      RewrittenField(w, [t]);
      WeekdayOfTerms(w, [t]);
      assert [t][0] == t;
    }
  }

  /** A day from 0 to 7 without leading zeros. */
  predicate WeekNum(a: Num) {
    a.value <= 7 && a.zeros == 0
  }

  predicate InWeek(t: Term) {
    match t
    case Star => true
    case Every(k) => true
    case One(a) => WeekNum(a)
    case Span(a, b) => WeekNum(a) && WeekNum(b)
    case From(a, k) => WeekNum(a)
    case SpanStep(a, b, k) => WeekNum(a) && WeekNum(b)
  }

  const ZeroToSeven: Term := Span(Num(0, 0), Num(7, 0))

  /** Some term other than 0-7 stands for weekday `w`. */
  predicate CoveredElsewhere(ts: seq<Term>, w: nat) {
    exists i :: 0 <= i < |ts| && ts[i] != ZeroToSeven && DenotesWeekday(w, ts[i])
  }

  lemma FoldsOnWeek(t: Term, w: nat)
    requires InWeek(t) && w < 7
    ensures t != ZeroToSeven ==> (DenotesRewritten(w, t) <==> DenotesWeekday(w, t))
    ensures t == ZeroToSeven ==> DenotesWeekday(w, t) && (DenotesRewritten(w, t) <==> w == 0)
  {
    if t != ZeroToSeven {
      FoldingIsExact(t);
    }
  }

  lemma RewriteOnWeek(ts: seq<Term>, w: nat)
    requires w < 7 && ts != [] && AllFit(ts)
    requires forall i :: 0 <= i < |ts| ==> InWeek(ts[i])
    requires ZeroToSeven in ts
    ensures Agrees(ts, w) <==> w == 0 || CoveredElsewhere(ts, w)
  {
    RewrittenField(w, ts);
    WeekdayOfTerms(w, ts);
    WeekCovered(ts, w);
  }

  lemma WeekCovered(ts: seq<Term>, w: nat)
    requires w < 7 && ZeroToSeven in ts
    requires forall i :: 0 <= i < |ts| ==> InWeek(ts[i])
    ensures exists i :: 0 <= i < |ts| && DenotesWeekday(w, ts[i])
    ensures SelectsRewritten(ts, w) <==> w == 0 || CoveredElsewhere(ts, w)
  {
    forall i | 0 <= i < |ts|
      ensures ts[i] != ZeroToSeven ==> (DenotesRewritten(w, ts[i]) <==> DenotesWeekday(w, ts[i]))
      ensures ts[i] == ZeroToSeven ==> DenotesWeekday(w, ts[i]) && (DenotesRewritten(w, ts[i]) <==> w == 0)
    {
      FoldsOnWeek(ts[i], w);
    }
    var k :| 0 <= k < |ts| && ts[k] == ZeroToSeven;
    assert DenotesWeekday(w, ts[k]);
  }

  /**
   * Among lists written with the days 0 to 7, normalization preserves meaning
   * exactly when the plain range 0-7 is absent, or other terms cover Monday to
   * Saturday.
   */
  lemma RewriteIsExactOnWeek(ts: seq<Term>)
    requires ts != [] && AllFit(ts)
    requires forall i :: 0 <= i < |ts| ==> InWeek(ts[i])
    ensures (forall w: nat :: w < 7 ==> Agrees(ts, w))
            <==> (ZeroToSeven in ts ==> forall w: nat :: 1 <= w < 7 ==> CoveredElsewhere(ts, w))
  {
    if ZeroToSeven in ts {
      forall w: nat | w < 7 ensures Agrees(ts, w) <==> w == 0 || CoveredElsewhere(ts, w) {
        RewriteOnWeek(ts, w);
      }
    } else {
      forall w: nat | w < 7 ensures Agrees(ts, w) {
        RewriteKeepsWeekdays(ts, w);
      }
    }
  }

  // ---------- Whole schedules ----------

  datatype Schedule = Schedule(minute: seq<Term>, hour: seq<Term>, day: seq<Term>,
                               month: seq<Term>, weekday: seq<Term>)

  predicate WellFormed(s: Schedule) {
    && s.minute != [] && s.hour != [] && s.day != [] && s.month != [] && s.weekday != []
    && AllFit(s.minute) && AllFit(s.hour) && AllFit(s.day) && AllFit(s.month) && AllFit(s.weekday)
  }

  predicate WeekdaysFold(s: Schedule) {
    forall i :: 0 <= i < |s.weekday| ==> FoldsWell(s.weekday[i])
  }

  function RenderedFields(s: Schedule): (f: seq<string>)
    ensures |f| == 5
  {
    [RenderField(s.minute), RenderField(s.hour), RenderField(s.day), RenderField(s.month),
     RenderField(s.weekday)]
  }

  function RenderExpr(s: Schedule): string {
    Join(RenderedFields(s), ' ')
  }

  /** The days of the evaluator: the month, and with it the day of month or the
      weekday, either one if both are restricted. A lone star leaves a field
      unrestricted. */
  predicate CronDay(s: Schedule, month: nat, day: nat, weekday: nat) {
    && Selects(s.month, month)
    && if s.day != [Star] && s.weekday != [Star]
       then Selects(s.day, day) || SelectsRewritten(s.weekday, weekday)
       else Selects(s.day, day) && SelectsRewritten(s.weekday, weekday)
  }

  predicate CronFires(s: Schedule, date: Calendar.Date, hour: nat, minute: nat)
    requires Calendar.Valid(date)
  {
    && CronDay(s, date.month, date.day, Calendar.Weekday(date))
    && Selects(s.hour, hour) && Selects(s.minute, minute)
  }

  lemma {:induction false} CharsOfJoin(parts: seq<string>, c: char)
    requires c in Join(parts, ',')
    ensures c == ',' || exists i :: 0 <= i < |parts| && c in parts[i]
  {
    if |parts| > 1 && c !in parts[0] && c != ',' {
      CharsOfJoin(parts[1..], c);
      var i :| 0 <= i < |parts[1..]| && c in parts[1..][i];
      assert c in parts[i + 1];
    }
  }

  lemma CharsOfTerm(t: Term, c: char)
    requires c in Render(t)
    ensures IsDigit(c) || c == '*' || c == '-' || c == '/'
  {
  }

  lemma CronChars(c: char)
    requires IsDigit(c) || c == '*' || c == '-' || c == '/' || c == ','
    ensures CronChar(c) && !IsSpace(c)
  {
    CronCharIs(c);
  }

  lemma FieldIsClean(ts: seq<Term>)
    requires ts != []
    ensures Word(RenderField(ts)) && Trim(RenderField(ts), CronChar) == ""
  {
    var field := RenderField(ts);
    forall c | c in field ensures CronChar(c) && !IsSpace(c) {
      CharsOfJoin(RenderAll(ts), c);
      if c != ',' {
        var i :| 0 <= i < |ts| && c in Render(ts[i]);
        CharsOfTerm(ts[i], c);
      }
      CronChars(c);
    }
    TrimEmpty(field, CronChar);
    RenderHasNoComma(ts[0]);
    RenderedTerms(ts);
    SplitPlain("", ',');
    assert Split(field, ',')[0] != "";
  }

  /** A rendered schedule is accepted and read back as its five fields. */
  lemma RenderedIsAccepted(s: Schedule)
    requires WellFormed(s)
    ensures Fields(RenderExpr(s)) == RenderedFields(s)
    ensures Accepted(RenderExpr(s))
  {
    FieldIsClean(s.minute);
    FieldIsClean(s.hour);
    FieldIsClean(s.day);
    FieldIsClean(s.month);
    FieldIsClean(s.weekday);
    FieldsJoin(RenderedFields(s));
  }

  lemma StarText(t: Term)
    requires Render(t) == "*"
    ensures t == Star
  {
    assert Render(t)[0] == '*' && |Render(t)| == 1;
  }

  lemma StarIsLone(ts: seq<Term>)
    requires ts != []
    ensures RenderField(ts) == "*" <==> ts == [Star]
  {
    RenderedTerms(ts);
    if RenderField(ts) == "*" {
      SplitPlain("*", ',');
      assert RenderAll(ts)[0] == Render(ts[0]) == "*";
      StarText(ts[0]);
      assert ts == [ts[0]];
    }
  }

  lemma DayFiresIsCronDay(s: Schedule, month: nat, day: nat, weekday: nat)
    requires WellFormed(s) && weekday < 7 && day <= 31 && month <= 12
    ensures DayFires(RenderedFields(s), month, day, weekday) <==> CronDay(s, month, day, weekday)
  {
    MatchFieldIsSelects(month, s.month);
    MatchFieldIsSelects(day, s.day);
    RewrittenField(weekday, s.weekday);
    StarIsLone(s.day);
    StarIsLone(s.weekday);
  }

  /** On the text of any schedule the evaluator fires exactly when its meaning says so. */
  lemma FiresIsCron(s: Schedule, date: Calendar.Date, hour: nat, minute: nat)
    requires WellFormed(s) && Calendar.Valid(date) && hour < 24 && minute < 60
    ensures Fires(RenderedFields(s), date, hour, minute) <==> CronFires(s, date, hour, minute)
  {
    DayFiresIsCronDay(s, date.month, date.day, Calendar.Weekday(date));
    MatchFieldIsSelects(hour, s.hour);
    MatchFieldIsSelects(minute, s.minute);
  }

  // ---------- The next run in calendar terms ----------

  /** Minutes from midnight of `start` to a minute of `date`. */
  function Elapsed(start: Calendar.Date, date: Calendar.Date, hour: nat, minute: nat): int
    requires Calendar.Valid(start) && Calendar.Valid(date)
  {
    ((Calendar.Ordinal(date) - Calendar.Ordinal(start)) * 24 + hour) * 60 + minute
  }

  predicate WithinHorizon(start: Calendar.Date, date: Calendar.Date)
    requires Calendar.Valid(start) && Calendar.Valid(date)
  {
    0 <= Calendar.Ordinal(date) - Calendar.Ordinal(start) < 732
  }

  /** A minute of the horizon, named by its calendar date, at which the schedule should run. */
  predicate CronDue(s: Schedule, start: Calendar.Date, now: nat, date: Calendar.Date, hour: nat, minute: nat)
    requires Calendar.Valid(start) && Calendar.Valid(date)
  {
    && hour < 24 && minute < 60 && WithinHorizon(start, date)
    && Elapsed(start, date, hour, minute) * 60_000_000_000 > now
    && CronFires(s, date, hour, minute)
  }

  lemma ElapsedIsClock(start: Calendar.Date, slot: Slot)
    requires Calendar.Valid(start) && InHorizon(slot)
    ensures Elapsed(start, Calendar.AddDays(start, slot.day), slot.hour, slot.minute) == Clock(slot)
    ensures WithinHorizon(start, Calendar.AddDays(start, slot.day))
  {
    Calendar.AddDaysOrdinal(start, slot.day);
    var n := Calendar.Ordinal(Calendar.AddDays(start, slot.day)) - Calendar.Ordinal(start);
    assert n == slot.day;
  }

  /** The search and the schedule agree on every slot of the horizon. */
  lemma DueIsCronDue(s: Schedule, start: Calendar.Date, now: nat, slot: Slot)
    requires WellFormed(s) && Calendar.Valid(start) && InHorizon(slot)
    ensures Due(RenderedFields(s), start, now, slot)
            <==> CronDue(s, start, now, Calendar.AddDays(start, slot.day), slot.hour, slot.minute)
  {
    ElapsedIsClock(start, slot);
    FiresIsCron(s, Calendar.AddDays(start, slot.day), slot.hour, slot.minute);
  }

  /** The slot of a minute of the horizon. */
  lemma SlotOf(start: Calendar.Date, date: Calendar.Date, hour: nat, minute: nat) returns (slot: Slot)
    requires Calendar.Valid(start) && Calendar.Valid(date) && WithinHorizon(start, date) && hour < 24 && minute < 60
    ensures InHorizon(slot) && Calendar.AddDays(start, slot.day) == date && slot.hour == hour && slot.minute == minute
    ensures Clock(slot) == Elapsed(start, date, hour, minute)
  {
    var n: nat := Calendar.Ordinal(date) - Calendar.Ordinal(start);
    slot := Slot(n, hour, minute);
    Calendar.EveryDateIsWalked(start, date);
  }

  /** A minute that should run is a slot the search sees, at the same distance from `start`. */
  lemma CronDueIsSeen(s: Schedule, start: Calendar.Date, now: nat, date: Calendar.Date, hour: nat, minute: nat)
      returns (slot: Slot)
    requires WellFormed(s) && Calendar.Valid(start) && Calendar.Valid(date)
    requires CronDue(s, start, now, date, hour, minute)
    ensures Due(RenderedFields(s), start, now, slot)
    ensures Clock(slot) == Elapsed(start, date, hour, minute)
  {
    slot := SlotOf(start, date, hour, minute);
    DueIsCronDue(s, start, now, slot);
  }

  /**
   * End to end: what the evaluator finds on the text of a schedule is the
   * earliest minute, over every calendar date of the horizon, at which the
   * schedule should run; it finds nothing only when there is none.
   */
  method NextRun(s: Schedule, start: Calendar.Date, now: nat)
      returns (found: bool, date: Calendar.Date, hour: nat, minute: nat)
    requires WellFormed(s) && Calendar.Valid(start) && now < DayNs
    ensures found ==> Calendar.Valid(date) && CronDue(s, start, now, date, hour, minute)
    ensures found ==> forall d, h, m ::
                Calendar.Valid(d) && CronDue(s, start, now, d, h, m)
                ==> Elapsed(start, date, hour, minute) <= Elapsed(start, d, h, m)
    ensures !found ==> forall d, h, m :: Calendar.Valid(d) ==> !CronDue(s, start, now, d, h, m)
  {
    RenderedIsAccepted(s);
    var r := NextCronRun(RenderExpr(s), start, now);
    found, date, hour, minute := r.Some?, start, 0, 0;
    if found {
      date, hour, minute := Calendar.AddDays(start, r.value.day), r.value.hour, r.value.minute;
      ElapsedIsClock(start, r.value);
      DueIsCronDue(s, start, now, r.value);
      forall d, h, m | Calendar.Valid(d) && CronDue(s, start, now, d, h, m)
        ensures Clock(r.value) <= Elapsed(start, d, h, m)
      {
        var slot := CronDueIsSeen(s, start, now, d, h, m);
      }
    } else {
      forall d, h, m | Calendar.Valid(d)
        ensures !CronDue(s, start, now, d, h, m)
      {
        if CronDue(s, start, now, d, h, m) {
          var slot := CronDueIsSeen(s, start, now, d, h, m);
        }
      }
    }
  }

  // ---------- The rule of the standard ----------

  /**
   * The days of the POSIX.1-2017 crontab utility. Month and day of month are
   * one specification and the weekday another; if both are restricted, a day
   * matching either one matches.
   */
  predicate PosixDay(s: Schedule, month: nat, day: nat, weekday: nat) {
    var dates := Selects(s.month, month) && Selects(s.day, day);
    if s.weekday == [Star] then dates
    else if s.month == [Star] && s.day == [Star] then SelectsWeekday(s.weekday, weekday)
    else dates || SelectsWeekday(s.weekday, weekday)
  }

  lemma StarSelects(v: nat)
    ensures Selects([Star], v) && (v < 7 ==> SelectsRewritten([Star], v) && SelectsWeekday([Star], v))
  {
    assert Denotes(v, [Star][0]);
    if v < 7 {
      assert DenotesRewritten(v, [Star][0]);
      assert Selects([Star], v) && v % 7 == v;
    }
  }

  lemma RewrittenIsWeekday(s: Schedule, w: nat)
    requires WellFormed(s) && WeekdaysFold(s) && w < 7
    ensures SelectsRewritten(s.weekday, w) <==> SelectsWeekday(s.weekday, w)
  {
    RewriteKeepsWeekdays(s.weekday, w);
    RewrittenField(w, s.weekday);
  }

  /**
   * The evaluator follows the standard on a day exactly in these cases: the
   * month or the weekday is a lone star; or, with both restricted, the month
   * and the weekday agree on the day if the day of month is a lone star, and
   * the weekday selects no day outside the month otherwise.
   */
  lemma CronIsPosixIff(s: Schedule, month: nat, day: nat, weekday: nat)
    requires WellFormed(s) && WeekdaysFold(s) && weekday < 7
    ensures (CronDay(s, month, day, weekday) <==> PosixDay(s, month, day, weekday))
            <==> || s.month == [Star] || s.weekday == [Star]
                 || (s.day == [Star] && (Selects(s.month, month) <==> SelectsWeekday(s.weekday, weekday)))
                 || (s.day != [Star] && (SelectsWeekday(s.weekday, weekday) ==> Selects(s.month, month)))
  {
    RewrittenIsWeekday(s, weekday);
    StarSelects(month);
    StarSelects(day);
    StarSelects(weekday);
  }

  /** `0 0 13 1 5`: the standard runs it on every Friday, the evaluator on those of January. */
  lemma FridaysInFebruary(s: Schedule, day: nat)
    requires s.day == [One(Num(13, 0))] && s.month == [One(Num(1, 0))] && s.weekday == [One(Num(5, 0))]
    ensures PosixDay(s, 2, day, 5) && !CronDay(s, 2, day, 5)
  {
    assert Denotes(5, s.weekday[0]);
    assert Selects(s.weekday, 5) && 5 % 7 == 5;
  }

  // ---------- Leap days ----------

  predicate LeapDays(s: Schedule) {
    s.day == [One(Num(29, 0))] && s.month == [One(Num(2, 0))] && s.weekday == [Star]
  }

  lemma LeapDaySelected(s: Schedule, date: Calendar.Date)
    requires LeapDays(s) && Calendar.Valid(date)
    ensures CronDay(s, date.month, date.day, Calendar.Weekday(date))
            <==> Calendar.Leap(date.year) && date == Calendar.Date(date.year, 2, 29)
  {
    StarSelects(Calendar.Weekday(date));
    if date.month == 2 && date.day == 29 {
      assert Denotes(29, s.day[0]) && Denotes(2, s.month[0]);
    }
  }

  /** 29 February of year `y` is in reach, with a minute after now that the schedule selects. */
  ghost predicate LeapDayInReach(s: Schedule, start: Calendar.Date, now: nat, y: int)
    requires Calendar.Valid(start)
  {
    && y >= 1 && Calendar.Leap(y) && WithinHorizon(start, Calendar.Date(y, 2, 29))
    && exists h: nat, m: nat ::
         h < 24 && m < 60 && Selects(s.hour, h) && Selects(s.minute, m)
         && Elapsed(start, Calendar.Date(y, 2, 29), h, m) * 60_000_000_000 > now
  }

  /** A leap day of the horizon lies in the starting year or one of the next two. */
  lemma LeapDayYears(start: Calendar.Date, y: int)
    requires Calendar.Valid(start) && y >= 1 && Calendar.Leap(y) && WithinHorizon(start, Calendar.Date(y, 2, 29))
    ensures start.year <= y <= start.year + 2
  {
    var day := Calendar.Date(y, 2, 29);
    Calendar.WithinYear(start);
    Calendar.LeapDayOrdinal(y);
    if y > start.year + 2 {
      Calendar.ThreeYears(start.year);
      Calendar.LaterYears(start.year + 3, y);
    } else if y < start.year {
      Calendar.OrdinalIsMonotone(day, start);
    }
  }

  /**
   * A leap-day schedule has a run exactly for the starting dates from which a
   * 29 February of that year or the next two is at most 731 days away, with a
   * selected minute still to come on it; from all others it is refused as
   * never firing.
   */
  lemma LeapDayRunsIff(s: Schedule, start: Calendar.Date, now: nat)
    requires WellFormed(s) && LeapDays(s) && Calendar.Valid(start)
    ensures Idle(RenderedFields(s), start, now)
            <==> forall y :: start.year <= y <= start.year + 2 ==> !LeapDayInReach(s, start, now, y)
  {
    if slot :| Due(RenderedFields(s), start, now, slot) {
      DueIsLeapDay(s, start, now, slot);
    }
    if y :| start.year <= y <= start.year + 2 && LeapDayInReach(s, start, now, y) {
      LeapDayIsDue(s, start, now, y);
    }
  }

  lemma DueIsLeapDay(s: Schedule, start: Calendar.Date, now: nat, slot: Slot)
    requires WellFormed(s) && LeapDays(s) && Calendar.Valid(start) && Due(RenderedFields(s), start, now, slot)
    ensures exists y :: start.year <= y <= start.year + 2 && LeapDayInReach(s, start, now, y)
  {
    DueIsCronDue(s, start, now, slot);
    var date := Calendar.AddDays(start, slot.day);
    LeapDaySelected(s, date);
    LeapDayYears(start, date.year);
    assert LeapDayInReach(s, start, now, date.year);
  }

  lemma LeapDayIsDue(s: Schedule, start: Calendar.Date, now: nat, y: int)
    requires WellFormed(s) && LeapDays(s) && Calendar.Valid(start) && LeapDayInReach(s, start, now, y)
    ensures !Idle(RenderedFields(s), start, now)
  {
    var date := Calendar.Date(y, 2, 29);
    var h: nat, m: nat :| h < 24 && m < 60 && Selects(s.hour, h) && Selects(s.minute, m)
                          && Elapsed(start, date, h, m) * 60_000_000_000 > now;
    LeapDaySelected(s, date);
    var slot := CronDueIsSeen(s, start, now, date, h, m);
  }

  lemma NoLeapYear(x: int, y: int)
    requires x % 4 == 1 && x <= y <= x + 2
    ensures !Calendar.Leap(y)
  {
  }

  lemma NotInReach(s: Schedule, start: Calendar.Date, now: nat, y: int)
    requires Calendar.Valid(start) && !Calendar.Leap(y)
    ensures !LeapDayInReach(s, start, now, y)
  {
  }

  /** In the year after a multiple of four, and so on any day of 2025, none is in reach. */
  lemma LeapDayOutOfReach(s: Schedule, start: Calendar.Date, now: nat)
    requires WellFormed(s) && LeapDays(s) && Calendar.Valid(start) && start.year % 4 == 1
    ensures Idle(RenderedFields(s), start, now)
  {
    LeapDayRunsIff(s, start, now);
    forall y | start.year <= y <= start.year + 2 ensures !LeapDayInReach(s, start, now, y) {
      NoLeapYear(start.year, y);
      NotInReach(s, start, now, y);
    }
  }
}
