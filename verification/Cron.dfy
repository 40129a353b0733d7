/** The cron evaluator of the backup scheduler. */
module Cron {
  import opened Options
  import opened Text
  import Calendar

  // ---------- Numbers ----------

  const MaxInt: int := 0x7FFF_FFFF_FFFF_FFFF

  /** Two's complement wrap-around of a 64-bit integer. */
  function Wrap64(x: int): (r: int)
    ensures -MaxInt - 1 <= r <= MaxInt
    ensures -MaxInt - 1 <= x <= MaxInt ==> r == x
  {
    (x + MaxInt + 1) % 0x1_0000_0000_0000_0000 - MaxInt - 1
  }

  predicate IsDigit(c: char) {
    '0' <= c <= '9'
  }

  function Accumulate(n: int, c: char): int {
    if IsDigit(c) then Wrap64(n * 10 + (c as int - '0' as int)) else n
  }

  /** Reads the digits of `s` in order and skips every other character. */
  function IntOf(s: string): int {
    if s == "" then 0 else Accumulate(IntOf(s[..|s| - 1]), s[|s| - 1])
  }

  method ParseInt(s: string) returns (n: int)
    ensures n == IntOf(s)
  {
    n := 0;
    var i := 0;
    while i < |s|
      invariant 0 <= i <= |s|
      invariant n == IntOf(s[..i])
    {
      assert s[..i + 1][..i] == s[..i];
      if IsDigit(s[i]) {
        n := Wrap64(n * 10 + (s[i] as int - '0' as int));
      }
      i := i + 1;
    }
    assert s[..i] == s;
  }

  // ---------- Matching ----------

  /** `Wrap64` stands where the original subtracts 64-bit integers. */
  predicate StepHit(value: int, low: int, high: int, step: int) {
    step > 0 && low <= value <= high && Wrap64(value - low) % step == 0
  }

  /** A step on a start or a range. */
  predicate MatchStep(value: int, base: string, step: int) {
    var dash := Index(base, '-');
    StepHit(value, IntOf(base[..dash]), if dash < |base| then IntOf(base[dash + 1..]) else MaxInt, step)
  }

  predicate MatchRange(value: int, low: int, high: int) {
    if low <= high then low <= value <= high else low <= value || value <= high
  }

  /** A term without a star or a slash: a range of two parts, or a single value. */
  predicate MatchPlain(value: int, term: string) {
    var parts := Split(term, '-');
    if |parts| == 2 then MatchRange(value, IntOf(parts[0]), IntOf(parts[1])) else IntOf(term) == value
  }

  predicate StarStep(term: string) {
    |term| >= 2 && term[0] == '*' && term[1] == '/'
  }

  /** One comma-free term. */
  predicate MatchTerm(value: int, term: string) {
    if term == "*" then true
    else if StarStep(term) then
      var step := IntOf(term[2..]);
      step > 0 && value % step == 0
    else if '/' in term then
      var slash := Index(term, '/');
      MatchStep(value, term[..slash], IntOf(term[slash + 1..]))
    else MatchPlain(value, term)
  }

  /** A field is a comma-separated list; it matches when some term does. */
  predicate MatchField(value: int, field: string) {
    exists i :: 0 <= i < |Split(field, ',')| && MatchTerm(value, Split(field, ',')[i])
  }

  method AnyHit(hit: string -> bool, terms: seq<string>) returns (ok: bool)
    ensures ok <==> exists i :: 0 <= i < |terms| && hit(terms[i])
  {
    var i := 0;
    while i < |terms|
      invariant 0 <= i <= |terms|
      invariant forall k :: 0 <= k < i ==> !hit(terms[k])
    {
      if hit(terms[i]) {
        return true;
      }
      i := i + 1;
    }
    return false;
  }

  lemma FieldOfPlain(value: int, term: string)
    requires ',' !in term
    ensures MatchField(value, term) <==> MatchTerm(value, term)
  {
    SplitPlain(term, ',');
    assert Split(term, ',')[0] == term;
  }

  method MatchCronField(value: int, field: string) returns (ok: bool)
    ensures ok <==> MatchField(value, field)
  {
    if field == "*" {
      FieldOfPlain(value, field);
      return true;
    }
    if ',' in field {
      ok := AnyHit(term => MatchTerm(value, term), Split(field, ','));
      return;
    }
    FieldOfPlain(value, field);
    ok := MatchTerm(value, field);
  }

  // ---------- Weekday 7 ----------

  function Fold7(token: string): string {
    if Trim(token, IsSpace) == "7" then "0" else token
  }

  function DigitChar(d: int): char
    requires 0 <= d < 10
  {
    ('0' as int + d) as char
  }

  /** The values a term matches. */
  function Hits(term: string): int -> bool {
    value => MatchTerm(value, term)
  }

  /** The days below `n` that `hit` holds of, each taken modulo 7. */
  function Days(hit: int -> bool, n: nat): seq<string> {
    if n == 0 then []
    else Days(hit, n - 1) + (if hit(n - 1) then [[DigitChar((n - 1) % 7)]] else [])
  }

  function NormalizeTerm(term: string): string {
    var slash := Index(term, '/');
    var base, step := term[..slash], term[slash..];
    if step != "" && base != "*" then
      var days := Days(Hits(term), 8);
      if days != [] then Join(days, ',') else term
    else
      FoldBase(base) + step
  }

  /** Folds the ends of a range, or the single token. */
  function FoldBase(base: string): string {
    var parts := Split(base, '-');
    if |parts| == 2 then Fold7(parts[0]) + "-" + Fold7(parts[1]) else Fold7(base)
  }

  function MapAll(f: string -> string, terms: seq<string>): seq<string> {
    if terms == [] then [] else MapAll(f, terms[..|terms| - 1]) + [f(terms[|terms| - 1])]
  }

  lemma {:induction false} MapAllAt(f: string -> string, terms: seq<string>)
    ensures |MapAll(f, terms)| == |terms|
    ensures forall i :: 0 <= i < |terms| ==> MapAll(f, terms)[i] == f(terms[i])
  {
    if terms != [] {
      MapAllAt(f, terms[..|terms| - 1]);
    }
  }

  function Normalizer(): string -> string {
    term => NormalizeTerm(term)
  }

  function NormalizeField(field: string): string {
    Join(MapAll(Normalizer(), Split(field, ',')), ',')
  }

  /** The loop over days of a stepped term. */
  method ExpandDays(hit: int -> bool) returns (days: seq<string>)
    ensures days == Days(hit, 8)
  {
    days := [];
    var day := 0;
    while day <= 7
      invariant 0 <= day <= 8
      invariant days == Days(hit, day)
    {
      if hit(day) {
        days := days + [[DigitChar(day % 7)]];
      }
      day := day + 1;
    }
  }

  method NormalizeWeekdayTerm(term: string) returns (r: string)
    ensures r == NormalizeTerm(term)
  {
    var slash := Index(term, '/');
    var folded, step := term, "";
    if slash < |term| {
      folded, step := term[..slash], term[slash..];
    }
    assert folded == term[..slash] && step == term[slash..];
    if step != "" && folded != "*" {
      var days := ExpandDays(Hits(term));
      if |days| > 0 {
        return Join(days, ',');
      }
      return term;
    }
    var parts := Split(folded, '-');
    if |parts| == 2 {
      folded := Fold7(parts[0]) + "-" + Fold7(parts[1]);
    } else {
      folded := Fold7(folded);
    }
    r := folded + step;
  }

  lemma NormalizeSingle(term: string)
    requires ',' !in term
    ensures NormalizeField(term) == NormalizeTerm(term)
  {
    SplitPlain(term, ',');
    MapAllAt(Normalizer(), [term]);
    assert MapAll(Normalizer(), [term]) == [Normalizer()(term)];
  }

  lemma StarStays()
    ensures NormalizeTerm("*") == "*"
  {
    assert "*"[..1] == "*" && "*"[1..] == "";
    SplitPlain("*", '-');
    assert Trim("*", IsSpace) == "*";
  }

  lemma EmptyStays()
    ensures NormalizeTerm("") == ""
  {
    SplitPlain("", '-');
    assert Trim("", IsSpace) == "";
  }

  method NormalizeWeekdayField(field: string) returns (r: string)
    ensures r == NormalizeField(field)
  {
    if field == "*" || field == "" {
      NormalizeSingle(field);
      StarStays();
      EmptyStays();
      return field;
    }
    var terms := NormalizeEach(Split(field, ','), Normalizer());
    r := Join(terms, ',');
  }

  /** `f` is the rewrite of a term. */
  ghost predicate Rewrites(f: string -> string) {
    forall term {:trigger NormalizeTerm(term)} :: f(term) == NormalizeTerm(term)
  }

  method RewriteTerm(term: string, ghost f: string -> string) returns (r: string)
    requires Rewrites(f)
    ensures r == f(term)
  {
    r := NormalizeWeekdayTerm(term);
  }

  /** The loop over the terms of a field. */
  method NormalizeEach(terms: seq<string>, ghost f: string -> string) returns (done: seq<string>)
    requires Rewrites(f)
    ensures done == MapAll(f, terms)
  {
    done := [];
    var i := 0;
    while i < |terms|
      invariant 0 <= i <= |terms|
      invariant done == MapAll(f, terms[..i])
    {
      var t := RewriteTerm(terms[i], f);
      done := done + [t];
      assert terms[..i + 1][..i] == terms[..i];
      i := i + 1;
    }
    assert terms[..i] == terms;
  }

  // ---------- The search ----------

  predicate CronChar(c: char) {
    c in "0123456789*,-/"
  }

  predicate Clean(f: seq<string>) {
    forall i :: 0 <= i < |f| ==> Trim(f[i], CronChar) == ""
  }

  /** Five fields, each trimmed to nothing by the cron alphabet. */
  predicate Accepted(expr: string) {
    |Fields(expr)| == 5 && Clean(Fields(expr))
  }

  lemma CronCharIs(c: char)
    ensures CronChar(c) <==> IsDigit(c) || c == '*' || c == ',' || c == '-' || c == '/'
  {
    var alphabet := "0123456789*,-/";
    assert alphabet[10] == '*' && alphabet[11] == ',' && alphabet[12] == '-' && alphabet[13] == '/';
    if IsDigit(c) {
      var d := c as int - '0' as int;
      assert alphabet[d] == c;
    }
  }

  /** Refused exactly if there are not five fields, or a character in one of
      them is no digit, star, comma, dash or slash, wherever it stands. */
  lemma AcceptedIff(expr: string)
    ensures Accepted(expr) <==>
            && |Fields(expr)| == 5
            && forall i, c :: 0 <= i < 5 && c in Fields(expr)[i] ==>
                 IsDigit(c) || c == '*' || c == ',' || c == '-' || c == '/'
  {
    forall i | 0 <= i < |Fields(expr)|
      ensures Trim(Fields(expr)[i], CronChar) == "" <==> forall c :: c in Fields(expr)[i] ==> CronChar(c)
    {
      TrimEmpty(Fields(expr)[i], CronChar);
    }
    forall c ensures CronChar(c) <==> IsDigit(c) || c == '*' || c == ',' || c == '-' || c == '/' {
      CronCharIs(c);
    }
  }

  /** Day of month and weekday: either one when both are restricted, else both. */
  predicate DayRule(dayField: string, weekdayField: string, dom: bool, dow: bool) {
    if dayField != "*" && weekdayField != "*" then dom || dow else dom && dow
  }

  predicate DayFires(f: seq<string>, month: int, day: int, weekday: int)
    requires |f| == 5
  {
    && MatchField(month, f[3])
    && DayRule(f[2], f[4], MatchField(day, f[2]), MatchField(weekday, NormalizeField(f[4])))
  }

  predicate FiresOn(f: seq<string>, date: Calendar.Date)
    requires |f| == 5 && Calendar.Valid(date)
  {
    DayFires(f, date.month, date.day, Calendar.Weekday(date))
  }

  predicate Fires(f: seq<string>, date: Calendar.Date, hour: nat, minute: nat)
    requires |f| == 5 && Calendar.Valid(date)
  {
    FiresOn(f, date) && MatchField(hour, f[1]) && MatchField(minute, f[0])
  }

  const Horizon: nat := 732
  const MinuteNs: nat := 60_000_000_000
  const DayNs: nat := 1440 * MinuteNs

  /** A minute of the local clock, `day` days after the starting day. */
  datatype Slot = Slot(day: nat, hour: nat, minute: nat)

  predicate InHorizon(s: Slot) {
    s.day < Horizon && s.hour < 24 && s.minute < 60
  }

  /** Minutes since midnight of the starting day. */
  function Clock(s: Slot): nat {
    (s.day * 24 + s.hour) * 60 + s.minute
  }

  /** A firing minute of the horizon strictly after `now` nanoseconds into the starting day. */
  predicate Due(f: seq<string>, start: Calendar.Date, now: nat, s: Slot)
    requires |f| == 5 && Calendar.Valid(start)
  {
    && InHorizon(s)
    && Fires(f, Calendar.AddDays(start, s.day), s.hour, s.minute)
    && Clock(s) * MinuteNs > now
  }

  /** No due minute precedes minute `limit` of the walk. */
  ghost predicate NoneBefore(f: seq<string>, start: Calendar.Date, now: nat, limit: nat)
    requires |f| == 5 && Calendar.Valid(start)
  {
    forall s :: Due(f, start, now, s) ==> Clock(s) >= limit
  }

  /** Nothing is due within the horizon. */
  ghost predicate Idle(f: seq<string>, start: Calendar.Date, now: nat)
    requires |f| == 5 && Calendar.Valid(start)
  {
    forall s :: !Due(f, start, now, s)
  }

  lemma HorizonPassed(f: seq<string>, start: Calendar.Date, now: nat)
    requires |f| == 5 && Calendar.Valid(start)
    requires NoneBefore(f, start, now, Horizon * 1440)
    ensures Idle(f, start, now)
  {
    forall s ensures !Due(f, start, now, s) {
      assert InHorizon(s) ==> Clock(s) < Horizon * 1440;
    }
  }

  lemma SkipDay(f: seq<string>, start: Calendar.Date, now: nat, d: nat)
    requires |f| == 5 && Calendar.Valid(start)
    requires NoneBefore(f, start, now, d * 1440)
    requires !FiresOn(f, Calendar.AddDays(start, d))
    ensures NoneBefore(f, start, now, (d + 1) * 1440)
  {
    forall s | Due(f, start, now, s) ensures Clock(s) >= (d + 1) * 1440 {
      assert s.day != d;
    }
  }

  lemma HourPassed(s: Slot, d: nat, h: nat)
    requires h < 24 && s.hour < 24 && s.minute < 60 && s.hour != h
    requires Clock(s) >= (d * 24 + h) * 60
    ensures Clock(s) >= (d * 24 + h + 1) * 60
  {
    assert s.day * 24 + s.hour >= d * 24 + h;
    assert s.day * 24 + s.hour != d * 24 + h;
  }

  lemma SkipHour(f: seq<string>, start: Calendar.Date, now: nat, d: nat, h: nat)
    requires |f| == 5 && Calendar.Valid(start) && h < 24
    requires NoneBefore(f, start, now, (d * 24 + h) * 60)
    requires !MatchField(h, f[1])
    ensures NoneBefore(f, start, now, (d * 24 + h + 1) * 60)
  {
    forall s | Due(f, start, now, s) ensures Clock(s) >= (d * 24 + h + 1) * 60 {
      assert s.hour != h && s.hour < 24 && s.minute < 60;
      assert Clock(s) >= (d * 24 + h) * 60;
      HourPassed(s, d, h);
    }
  }

  lemma SameMinute(s: Slot, t: Slot)
    requires InHorizon(s) && InHorizon(t) && Clock(s) == Clock(t)
    ensures s == t
  {
    var a, b := s.day * 24 + s.hour, t.day * 24 + t.hour;
    assert a * 60 + s.minute == b * 60 + t.minute;
    assert a == b;
  }

  lemma SkipMinute(f: seq<string>, start: Calendar.Date, now: nat, s: Slot)
    requires |f| == 5 && Calendar.Valid(start) && InHorizon(s)
    requires NoneBefore(f, start, now, Clock(s))
    requires !Due(f, start, now, s)
    ensures NoneBefore(f, start, now, Clock(s) + 1)
  {
    forall t | Due(f, start, now, t) ensures Clock(t) >= Clock(s) + 1 {
      if Clock(t) == Clock(s) {
        SameMinute(s, t);
      }
    }
  }

  method Decide(dayField: string, weekdayField: string, domMatch: bool, dowMatch: bool) returns (ok: bool)
    ensures ok <==> DayRule(dayField, weekdayField, domMatch, dowMatch)
  {
    var domRestricted := dayField != "*";
    var dowRestricted := weekdayField != "*";
    if domRestricted && dowRestricted {
      if !domMatch && !dowMatch {
        return false;
      }
    } else if !domMatch || !dowMatch {
      return false;
    }
    return true;
  }

  method WeekdayMatches(weekday: int, field: string) returns (ok: bool)
    requires 0 <= weekday < 7
    ensures ok <==> MatchField(weekday, NormalizeField(field))
  {
    var weekdays := NormalizeWeekdayField(field);
    ok := MatchCronField(weekday, weekdays);
  }

  /** The day test in the middle of the walk. */
  method DayMatches(f: seq<string>, month: int, day: int, weekday: int) returns (ok: bool)
    requires |f| == 5 && 0 <= weekday < 7
    ensures ok <==> DayFires(f, month, day, weekday)
  {
    var monthMatch := MatchCronField(month, f[3]);
    if !monthMatch {
      return false;
    }
    var domMatch := MatchCronField(day, f[2]);
    var dowMatch := WeekdayMatches(weekday, f[4]);
    ok := Decide(f[2], f[4], domMatch, dowMatch);
  }

  /** The hours and minutes of one firing day. */
  method FirstOfDay(f: seq<string>, start: Calendar.Date, now: nat, d: nat) returns (r: Option<Slot>)
    requires |f| == 5 && Calendar.Valid(start) && d < Horizon
    requires FiresOn(f, Calendar.AddDays(start, d))
    requires NoneBefore(f, start, now, d * 1440)
    ensures r.Some? ==> Due(f, start, now, r.value) && NoneBefore(f, start, now, Clock(r.value))
    ensures r.None? ==> NoneBefore(f, start, now, (d + 1) * 1440)
  {
    var h := 0;
    while h < 24
      invariant 0 <= h <= 24
      invariant NoneBefore(f, start, now, (d * 24 + h) * 60)
    {
      var hourMatch := MatchCronField(h, f[1]);
      if !hourMatch {
        SkipHour(f, start, now, d, h);
      } else {
        var minute := 0;
        while minute < 60
          invariant 0 <= minute <= 60
          invariant NoneBefore(f, start, now, (d * 24 + h) * 60 + minute)
        {
          var next := Slot(d, h, minute);
          var minuteMatch := MatchCronField(minute, f[0]);
          if minuteMatch && Clock(next) * MinuteNs > now {
            return Some(next);
          }
          SkipMinute(f, start, now, next);
          minute := minute + 1;
        }
      }
      h := h + 1;
    }
    return None;
  }

  /** The check of the alphabet, field by field. */
  method Readable(f: seq<string>) returns (ok: bool)
    requires |f| == 5
    ensures ok <==> Clean(f)
  {
    var i := 0;
    while i < 5
      invariant 0 <= i <= 5
      invariant forall k :: 0 <= k < i ==> Trim(f[k], CronChar) == ""
    {
      if Trim(f[i], CronChar) != "" {
        return false;
      }
      i := i + 1;
    }
    return true;
  }

  /** The walk over the days of the horizon. */
  method FirstDue(f: seq<string>, start: Calendar.Date, now: nat) returns (r: Option<Slot>)
    requires |f| == 5 && Calendar.Valid(start)
    ensures r.Some? ==> Due(f, start, now, r.value) && NoneBefore(f, start, now, Clock(r.value))
    ensures r.None? <==> Idle(f, start, now)
  {
    var d := 0;
    while d < Horizon
      invariant 0 <= d <= Horizon
      invariant NoneBefore(f, start, now, d * 1440)
    {
      var candidate := Calendar.AddDays(start, d);
      var dayMatch := DayMatches(f, candidate.month, candidate.day, Calendar.Weekday(candidate));
      if !dayMatch {
        SkipDay(f, start, now, d);
      } else {
        r := FirstOfDay(f, start, now, d);
        if r.Some? {
          return r;
        }
      }
      d := d + 1;
    }
    HorizonPassed(f, start, now);
    return None;
  }

  /**
   * The next run: the least due minute, strictly after now. The result is empty
   * exactly when the expression is refused or nothing is due within the horizon.
   */
  method NextCronRun(expr: string, start: Calendar.Date, now: nat) returns (r: Option<Slot>)
    requires Calendar.Valid(start) && now < DayNs
    ensures r.Some? ==>
              && Accepted(expr)
              && Due(Fields(expr), start, now, r.value)
              && NoneBefore(Fields(expr), start, now, Clock(r.value))
    ensures r.None? <==> !Accepted(expr) || Idle(Fields(expr), start, now)
  {
    var f := Fields(expr);
    if |f| != 5 {
      return None;
    }
    var ok := Readable(f);
    if !ok {
      return None;
    }
    r := FirstDue(f, start, now);
  }
}
