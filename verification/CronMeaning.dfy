/**
 * What a cron schedule means, and that the evaluator's string matching, its
 * weekday rewrite and its search compute that meaning.
 */
module CronMeaning {
  import opened Text
  import opened Cron

  // ---------- The language ----------

  /** A number as written: its value and its leading zeros. */
  datatype Num = Num(value: nat, zeros: nat)

  datatype Term =
    | Star
    | Every(step: Num)
    | One(value: Num)
    | Span(low: Num, high: Num)
    | From(low: Num, step: Num)
    | SpanStep(low: Num, high: Num, step: Num)

  /** Every number of the term fits a 64-bit integer. */
  predicate Fits(t: Term) {
    match t
    case Star => true
    case Every(k) => k.value <= MaxInt
    case One(a) => a.value <= MaxInt
    case Span(a, b) => a.value <= MaxInt && b.value <= MaxInt
    case From(a, k) => a.value <= MaxInt && k.value <= MaxInt
    case SpanStep(a, b, k) => a.value <= MaxInt && b.value <= MaxInt && k.value <= MaxInt
  }

  predicate AllFit(ts: seq<Term>) {
    forall i :: 0 <= i < |ts| ==> Fits(ts[i])
  }

  /** The values a term stands for; a span whose ends are reversed wraps around:
      it holds what is outside the gap between them. */
  predicate Denotes(v: nat, t: Term) {
    match t
    case Star => true
    case Every(k) => k.value > 0 && v % k.value == 0
    case One(a) => v == a.value
    case Span(a, b) =>
      (a.value <= v <= b.value) || (b.value < a.value && (v <= b.value || a.value <= v))
    case From(a, k) => OnStep(v, a.value, k.value)
    case SpanStep(a, b, k) => OnStep(v, a.value, k.value) && v <= b.value
  }

  /** `v` is reached from `low` in steps of `k`. */
  predicate OnStep(v: nat, low: nat, k: nat) {
    k > 0 && low <= v && (v - low) % k == 0
  }

  predicate Selects(ts: seq<Term>, v: nat) {
    exists i :: 0 <= i < |ts| && Denotes(v, ts[i])
  }

  /** Weekday `w` is selected under either of its names: Sunday is both 0 and 7. */
  predicate SelectsWeekday(ts: seq<Term>, w: nat) {
    exists d: nat :: d <= 7 && d % 7 == w && Selects(ts, d)
  }

  // ---------- Its text ----------

  /** Decimal digits without leading zeros. */
  function Dec(n: nat): (s: string)
    ensures s != ""
    ensures forall c :: c in s ==> IsDigit(c)
  {
    if n < 10 then [DigitChar(n)] else Dec(n / 10) + [DigitChar(n % 10)]
  }

  function Zeros(n: nat): (s: string)
    ensures |s| == n
    ensures forall c :: c in s ==> c == '0'
  {
    if n == 0 then "" else "0" + Zeros(n - 1)
  }

  function Numeral(n: Num): (s: string)
    ensures |s| > n.zeros
    ensures forall c :: c in s ==> IsDigit(c)
  {
    Zeros(n.zeros) + Dec(n.value)
  }

  function Render(t: Term): string {
    match t
    case Star => "*"
    case Every(k) => "*/" + Numeral(k)
    case One(a) => Numeral(a)
    case Span(a, b) => Numeral(a) + "-" + Numeral(b)
    case From(a, k) => Numeral(a) + "/" + Numeral(k)
    case SpanStep(a, b, k) => (Numeral(a) + "-" + Numeral(b)) + "/" + Numeral(k)
  }

  /** The texts of the terms. */
  function RenderAll(ts: seq<Term>): (r: seq<string>)
    ensures |r| == |ts|
    ensures forall i :: 0 <= i < |ts| ==> r[i] == Render(ts[i])
  {
    seq(|ts|, i requires 0 <= i < |ts| => Render(ts[i]))
  }

  function RenderField(ts: seq<Term>): string {
    Join(RenderAll(ts), ',')
  }

  lemma {:induction false} ParsedDec(n: nat)
    requires n <= MaxInt
    ensures IntOf(Dec(n)) == n
  {
    if n >= 10 {
      ParsedDec(n / 10);
      assert Dec(n)[..|Dec(n)| - 1] == Dec(n / 10);
    } else {
      assert Dec(n)[..0] == "";
    }
  }

  lemma {:induction false} ZeroAddsNothing(s: string)
    ensures IntOf("0" + s) == IntOf(s)
  {
    if s == "" {
      assert IntOf("0"[..0]) == 0;
    } else {
      var front := s[..|s| - 1];
      ZeroAddsNothing(front);
      assert ("0" + s)[..|s|] == "0" + front;
    }
  }

  lemma {:induction false} ZerosAddNothing(n: nat, s: string)
    ensures IntOf(Zeros(n) + s) == IntOf(s)
  {
    if n == 0 {
      assert Zeros(0) + s == s;
    } else {
      ZerosAddNothing(n - 1, s);
      ZeroAddsNothing(Zeros(n - 1) + s);
      assert "0" + (Zeros(n - 1) + s) == Zeros(n) + s;
    }
  }

  /** A number is read as its value, whatever zeros lead it. */
  lemma ParsedNumeral(n: Num)
    requires n.value <= MaxInt
    ensures IntOf(Numeral(n)) == n.value
  {
    ZerosAddNothing(n.zeros, Dec(n.value));
    ParsedDec(n.value);
  }

  lemma RenderHasNoComma(t: Term)
    ensures ',' !in Render(t) && Render(t) != ""
  {
  }

  // ---------- Matching a term computes its meaning ----------

  predicate Number(x: string) {
    x != "" && forall c :: c in x ==> IsDigit(c)
  }

  lemma MatchNumber(v: int, x: string)
    requires Number(x)
    ensures MatchTerm(v, x) <==> v == IntOf(x)
  {
    assert x[0] in x;
    SplitPlain(x, '-');
  }

  lemma MatchEvery(v: nat, x: string)
    ensures MatchTerm(v, "*/" + x) <==> IntOf(x) > 0 && v % IntOf(x) == 0
  {
    var s := "*/" + x;
    assert s[0] == '*' && s[1] == '/' && s[2..] == x;
  }

  lemma PlainTwoParts(v: nat, x: string, y: string)
    requires Number(x) && Number(y)
    ensures MatchPlain(v, x + "-" + y) <==> MatchRange(v, IntOf(x), IntOf(y))
  {
    SplitCons(x, '-', y);
    SplitPlain(y, '-');
  }

  lemma MatchTwoParts(v: nat, x: string, y: string)
    requires Number(x) && Number(y)
    ensures MatchTerm(v, x + "-" + y) <==> MatchRange(v, IntOf(x), IntOf(y))
  {
    PlainTwoParts(v, x, y);
    SpanText(x, y);
  }

  /** A term with a slash whose text does not begin with a star. */
  lemma MatchStepped(v: nat, base: string, step: string)
    requires base != "" && IsDigit(base[0]) && '/' !in base
    ensures MatchTerm(v, base + "/" + step) <==> MatchStep(v, base, IntOf(step))
  {
    var s := base + "/" + step;
    IndexAfter(base, '/', step);
    assert s[|base|] == '/' && s[0] == base[0];
    assert s[..|base|] == base && s[|base| + 1..] == step;
  }

  lemma StepOnStart(v: nat, x: string, k: int)
    requires Number(x)
    ensures MatchStep(v, x, k) <==> StepHit(v, IntOf(x), MaxInt, k)
  {
    assert x[..|x|] == x;
  }

  lemma StepOnSpan(v: nat, x: string, y: string, k: int)
    requires Number(x)
    ensures MatchStep(v, x + "-" + y, k) <==> StepHit(v, IntOf(x), IntOf(y), k)
  {
    var base := x + "-" + y;
    IndexAfter(x, '-', y);
    assert base[..|x|] == x && base[|x| + 1..] == y;
  }

  lemma MatchFrom(v: nat, x: string, y: string)
    requires Number(x)
    ensures MatchTerm(v, x + "/" + y) <==> StepHit(v, IntOf(x), MaxInt, IntOf(y))
  {
    assert IsDigit(x[0]);
    StepOnStart(v, x, IntOf(y));
    MatchStepped(v, x, y);
  }

  lemma SpanText(x: string, y: string)
    requires Number(x) && Number(y)
    ensures var base := x + "-" + y; base != "" && IsDigit(base[0]) && '/' !in base && ',' !in base
  {
    assert (x + "-" + y)[0] == x[0];
  }

  lemma MatchSpanStep(v: nat, x: string, y: string, z: string)
    requires Number(x) && Number(y)
    ensures MatchTerm(v, (x + "-" + y) + "/" + z) <==> StepHit(v, IntOf(x), IntOf(y), IntOf(z))
  {
    var base := x + "-" + y;
    SpanText(x, y);
    StepOnSpan(v, x, y, IntOf(z));
    MatchStepped(v, base, z);
  }

  lemma HitIsOnStep(v: nat, low: nat, high: int, k: nat)
    requires v <= MaxInt
    ensures StepHit(v, low, high, k) <==> OnStep(v, low, k) && v <= high
  {
  }

  lemma MatchIsDenotes(v: nat, t: Term)
    requires Fits(t) && v <= MaxInt
    ensures MatchTerm(v, Render(t)) <==> Denotes(v, t)
  {
    match t
    case Star =>
    case Every(k) =>
      ParsedNumeral(k);
      MatchEvery(v, Numeral(k));
    case One(a) =>
      ParsedNumeral(a);
      MatchNumber(v, Numeral(a));
    case Span(a, b) =>
      ParsedNumeral(a);
      ParsedNumeral(b);
      MatchTwoParts(v, Numeral(a), Numeral(b));
    case From(a, k) =>
      ParsedNumeral(a);
      ParsedNumeral(k);
      MatchFrom(v, Numeral(a), Numeral(k));
      HitIsOnStep(v, a.value, MaxInt, k.value);
    case SpanStep(a, b, k) =>
      ParsedNumeral(a);
      ParsedNumeral(b);
      ParsedNumeral(k);
      MatchSpanStep(v, Numeral(a), Numeral(b), Numeral(k));
      HitIsOnStep(v, a.value, b.value, k.value);
  }

  // ---------- Lists ----------

  lemma RenderedTerms(ts: seq<Term>)
    requires ts != []
    ensures Split(RenderField(ts), ',') == RenderAll(ts)
  {
    forall i | 0 <= i < |ts| ensures ',' !in RenderAll(ts)[i] {
      RenderHasNoComma(ts[i]);
    }
    SplitJoin(RenderAll(ts), ',');
    SplitAllPlain(RenderAll(ts), ',');
  }

  /** A rendered list of terms matches exactly the values some term stands for. */
  lemma MatchFieldIsSelects(v: nat, ts: seq<Term>)
    requires ts != [] && AllFit(ts) && v <= MaxInt
    ensures MatchField(v, RenderField(ts)) <==> Selects(ts, v)
  {
    RenderedTerms(ts);
    forall i | 0 <= i < |ts| ensures MatchTerm(v, RenderAll(ts)[i]) <==> Denotes(v, ts[i]) {
      MatchIsDenotes(v, ts[i]);
    }
  }

  /** A joined list matches exactly when one of its parts, itself perhaps a list, matches. */
  lemma MatchJoined(v: int, parts: seq<string>)
    requires parts != []
    ensures MatchField(v, Join(parts, ',')) <==> exists i :: 0 <= i < |parts| && MatchField(v, parts[i])
  {
    var all := SplitAll(parts, ',');
    SplitJoin(parts, ',');
    if MatchField(v, Join(parts, ',')) {
      var k :| 0 <= k < |all| && MatchTerm(v, all[k]);
      SplitAllIn(parts, ',', all[k]);
      var i :| 0 <= i < |parts| && all[k] in Split(parts[i], ',');
      assert MatchField(v, parts[i]);
    }
    if i :| 0 <= i < |parts| && MatchField(v, parts[i]) {
      var k :| 0 <= k < |Split(parts[i], ',')| && MatchTerm(v, Split(parts[i], ',')[k]);
      var x := Split(parts[i], ',')[k];
      assert x in Split(parts[i], ',');
      SplitAllIn(parts, ',', x);
      assert x in all;
      var j :| 0 <= j < |all| && all[j] == x;
      assert MatchTerm(v, Split(Join(parts, ','), ',')[j]);
    }
  }

  // ---------- The weekday rewrite ----------

  /** A bare 7 becomes 0; with leading zeros it stays. */
  function Folded(a: Num): Num {
    if a == Num(7, 0) then Num(0, 0) else a
  }

  lemma NoSpaceToTrim(s: string)
    requires Number(s)
    ensures Trim(s, IsSpace) == s
  {
    assert IsDigit(s[0]) && IsDigit(s[|s| - 1]);
  }

  lemma FoldNumeral(a: Num)
    requires a.value <= MaxInt
    ensures Fold7(Numeral(a)) == Numeral(Folded(a))
  {
    NoSpaceToTrim(Numeral(a));
    ParsedNumeral(a);
    ParsedDec(7);
    if a == Num(7, 0) {
      assert Numeral(a) == "7" && Numeral(Num(0, 0)) == "0";
    } else if a.zeros == 0 {
      assert Numeral(a) == Dec(a.value);
      assert IntOf("7") == 7;
    }
  }

  lemma NormalizeNoStep(s: string)
    requires '/' !in s
    ensures NormalizeTerm(s) == FoldBase(s)
  {
    assert s[..|s|] == s && s[|s|..] == "";
  }

  lemma NormalizeOne(a: Num)
    requires a.value <= MaxInt
    ensures NormalizeTerm(Numeral(a)) == Numeral(Folded(a))
  {
    FoldNumeral(a);
    SplitPlain(Numeral(a), '-');
    NormalizeNoStep(Numeral(a));
  }

  lemma FoldTwoParts(x: string, y: string)
    requires Number(x) && Number(y)
    ensures FoldBase(x + "-" + y) == Fold7(x) + "-" + Fold7(y)
  {
    SplitCons(x, '-', y);
    SplitPlain(y, '-');
  }

  lemma NormalizeSpan(a: Num, b: Num)
    requires a.value <= MaxInt && b.value <= MaxInt
    ensures NormalizeTerm(Numeral(a) + "-" + Numeral(b)) == Numeral(Folded(a)) + "-" + Numeral(Folded(b))
  {
    FoldNumeral(a);
    FoldNumeral(b);
    FoldTwoParts(Numeral(a), Numeral(b));
    NormalizeNoStep(Numeral(a) + "-" + Numeral(b));
  }

  lemma NormalizeEvery(x: string)
    ensures NormalizeTerm("*/" + x) == "*/" + x
  {
    var s := "*/" + x;
    assert s == "*" + "/" + x;
    IndexAfter("*", '/', x);
    assert s[..1] == "*" && s[1..] == "/" + x;
    SplitPlain("*", '-');
    assert Trim("*", IsSpace) == "*";
  }

  /** Which days the expansion of a stepped term lists. */
  lemma {:induction false} DaysListed(hit: int -> bool, n: nat, x: string)
    ensures x in Days(hit, n) <==> exists d: nat :: d < n && hit(d) && x == [DigitChar(d % 7)]
  {
    if n > 0 {
      DaysListed(hit, n - 1, x);
    }
  }

  lemma MatchDigit(w: nat, d: nat)
    requires w < 7
    ensures MatchField(w, [DigitChar(d % 7)]) <==> w == d % 7
  {
    var n := d % 7;
    assert Dec(n) == [DigitChar(n)];
    ParsedDec(n);
    FieldOfPlain(w, Dec(n));
    MatchNumber(w, Dec(n));
  }

  /** Some day below `n` that `hit` holds of is weekday `w`. */
  ghost predicate HitsWeekday(hit: int -> bool, n: nat, w: nat) {
    exists d: nat :: d < n && d % 7 == w && hit(d)
  }

  lemma JoinedDays(w: nat, hit: int -> bool, n: nat)
    requires w < 7 && Days(hit, n) != []
    ensures MatchField(w, Join(Days(hit, n), ',')) <==> HitsWeekday(hit, n, w)
  {
    var days := Days(hit, n);
    MatchJoined(w, days);
    if i :| 0 <= i < |days| && MatchField(w, days[i]) {
      DaysListed(hit, n, days[i]);
      var d: nat :| d < n && hit(d) && days[i] == [DigitChar(d % 7)];
      MatchDigit(w, d);
    }
    if d: nat :| d < n && d % 7 == w && hit(d) {
      DaysListed(hit, n, [DigitChar(d % 7)]);
      var i :| 0 <= i < |days| && days[i] == [DigitChar(d % 7)];
      MatchDigit(w, d);
    }
  }

  lemma NoDays(hit: int -> bool, n: nat, d: nat)
    requires Days(hit, n) == [] && d < n
    ensures !hit(d)
  {
    DaysListed(hit, n, [DigitChar(d % 7)]);
  }

  /** Expanding any stepped term, whatever its text, keeps the weekdays it matches. */
  lemma ExpansionKeepsDays(w: nat, term: string)
    requires w < 7 && ',' !in term
    requires Index(term, '/') < |term| && term[..Index(term, '/')] != "*"
    ensures MatchField(w, NormalizeTerm(term)) <==> HitsWeekday(Hits(term), 8, w)
  {
    var hit := Hits(term);
    var days := Days(hit, 8);
    if days == [] {
      FieldOfPlain(w, term);
      forall d: nat | d < 8 ensures !hit(d) {
        NoDays(hit, 8, d);
      }
      assert !hit(w);
    } else {
      JoinedDays(w, hit, 8);
    }
  }
}
