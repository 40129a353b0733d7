/** Per-domain bandwidth accounting: counters, once-only alerts, limits and billing. */
module Bandwidth {
  import opened Durations

  const Month: int := 30 * 24 * HOUR
  const Day: int := 24 * HOUR

  function Sum(xs: seq<nat>): nat {
    if xs == [] then 0 else Sum(xs[..|xs| - 1]) + xs[|xs| - 1]
  }

  lemma SumSnoc(xs: seq<nat>, x: nat)
    ensures Sum(xs + [x]) == Sum(xs) + x
  {
    assert (xs + [x])[..|xs|] == xs;
  }

  // ---------- One counter ----------

  /** A counter and the time of its last reset. */
  datatype Window = Window(bytes: nat, since: int)

  /** A record first clears a window that has run out, then adds to it. */
  function Recorded(w: Window, span: int, bytes: nat, now: int): Window {
    if now - w.since > span then Window(bytes, now) else Window(w.bytes + bytes, w.since)
  }

  datatype Alert = Exceeded | Ninety

  /** Reaching the limit hides reaching nine tenths of it. Fractions are exact. */
  function Crossing(prev: int, cur: int, limit: int): seq<Alert> {
    if limit <= 0 then []
    else if prev < limit <= cur then [Exceeded]
    else if 10 * prev < 9 * limit <= 10 * cur then [Ninety]
    else []
  }

  // ---------- Whole runs of one counter ----------

  datatype Event = Add(bytes: nat, now: int) | Clear(now: int)

  /** The counter, with the records and the alerts since its last reset. */
  datatype Account = Account(w: Window, log: seq<nat>, alerts: seq<Alert>)

  function Step(a: Account, span: int, limit: int, e: Event): Account {
    match e
    case Clear(now) => Fresh(now)
    case Add(bytes, now) => Added(if now - a.w.since > span then Fresh(now) else a, limit, bytes)
  }

  /** The alerts that still stand when a record comes: none once the window has run out. */
  function Kept(a: Account, span: int, now: int): seq<Alert> {
    if now - a.w.since > span then [] else a.alerts
  }

  function Added(a: Account, limit: int, bytes: nat): Account {
    var total := a.w.bytes + bytes;
    Account(Window(total, a.w.since), a.log + [bytes], a.alerts + Crossing(a.w.bytes, total, limit))
  }

  /** What a record does to the account: the window moves as Recorded says, and
      exactly the alerts of this crossing are added, to none after an expiry. */
  lemma AccountsRecord(a: Account, span: int, limit: int, bytes: nat, now: int)
    ensures var b, w := Step(a, span, limit, Add(bytes, now)), Recorded(a.w, span, bytes, now);
            && b.w == w
            && b.alerts == Kept(a, span, now) + Crossing(w.bytes - bytes, w.bytes, limit)
  {
  }

  function Run(a: Account, span: int, limit: int, es: seq<Event>): Account {
    if es == [] then a else Step(Run(a, span, limit, es[..|es| - 1]), span, limit, es[|es| - 1])
  }

  function Fresh(now: int): Account {
    Account(Window(0, now), [], [])
  }

  /** Some running total reached nine tenths of the limit and not the limit. */
  predicate ThroughBand(log: seq<nat>, limit: int) {
    InBand(Sum(log), limit) || (log != [] && ThroughBand(log[..|log| - 1], limit))
  }

  predicate InBand(total: int, limit: int) {
    9 * limit <= 10 * total < 10 * limit
  }

  function Count(alerts: seq<Alert>, a: Alert): nat {
    multiset(alerts)[a]
  }

  /** The counter is the sum of its records, and each alert fired once exactly when it was due. */
  ghost predicate Honest(a: Account, limit: int) {
    && a.w.bytes == Sum(a.log)
    && Count(a.alerts, Exceeded) == (if Sum(a.log) >= limit then 1 else 0)
    && Count(a.alerts, Ninety) == (if ThroughBand(a.log, limit) then 1 else 0)
  }

  lemma {:induction false} ThroughBandMeans(log: seq<nat>, limit: int)
    ensures ThroughBand(log, limit) <==> exists i :: 0 <= i <= |log| && InBand(Sum(log[..i]), limit)
  {
    assert log[..|log|] == log;
    if log != [] {
      var front := log[..|log| - 1];
      ThroughBandMeans(front, limit);
      assert forall i :: 0 <= i <= |front| ==> front[..i] == log[..i];
    }
  }

  lemma BandSnoc(log: seq<nat>, x: nat, limit: int)
    ensures ThroughBand(log + [x], limit) <==> ThroughBand(log, limit) || InBand(Sum(log) + x, limit)
  {
    SumSnoc(log, x);
    assert (log + [x])[..|log|] == log;
  }

  /** Running totals never fall, so the band was passed through only if nine tenths were reached. */
  lemma {:induction false} BandNeedsTotal(log: seq<nat>, limit: int)
    requires ThroughBand(log, limit)
    ensures 9 * limit <= 10 * Sum(log)
  {
    if !InBand(Sum(log), limit) {
      BandNeedsTotal(log[..|log| - 1], limit);
    }
  }

  lemma CountAppend(xs: seq<Alert>, ys: seq<Alert>, a: Alert)
    ensures Count(xs + ys, a) == Count(xs, a) + Count(ys, a)
  {
  }

  /** One record in numbers: `ninety` says whether the band was entered before. */
  lemma CrossingFits(prev: nat, cur: nat, limit: int, ninety: bool)
    requires limit > 0 && prev <= cur
    requires ninety ==> 9 * limit <= 10 * prev
    requires InBand(prev, limit) ==> ninety
    ensures Count(Crossing(prev, cur, limit), Exceeded)
            == (if cur >= limit then 1 else 0) - (if prev >= limit then 1 else 0)
    ensures Count(Crossing(prev, cur, limit), Ninety)
            == (if ninety || InBand(cur, limit) then 1 else 0) - (if ninety then 1 else 0)
  {
  }

  lemma AddKeeps(a: Account, limit: int, x: nat)
    requires limit > 0 && Honest(a, limit)
    ensures Honest(Added(a, limit, x), limit)
  {
    var log, prev := a.log, a.w.bytes;
    SumSnoc(log, x);
    BandSnoc(log, x, limit);
    if ThroughBand(log, limit) {
      BandNeedsTotal(log, limit);
    }
    CrossingFits(prev, prev + x, limit, ThroughBand(log, limit));
    CountAppend(a.alerts, Crossing(prev, prev + x, limit), Exceeded);
    CountAppend(a.alerts, Crossing(prev, prev + x, limit), Ninety);
  }

  lemma FreshIsHonest(now: int, limit: int)
    requires limit > 0
    ensures Honest(Fresh(now), limit)
  {
  }

  lemma StepKeeps(a: Account, span: int, limit: int, e: Event)
    requires limit > 0 && Honest(a, limit)
    ensures Honest(Step(a, span, limit, e), limit)
  {
    FreshIsHonest(e.now, limit);
    if e.Add? {
      AddKeeps(if e.now - a.w.since > span then Fresh(e.now) else a, limit, e.bytes);
    }
  }

  /**
   * Over every run of records, expiries and resets with a fixed positive limit:
   * the counter is the bytes recorded since its last reset, the limit alert
   * fired once exactly if they reach the limit, and the warning fired once
   * exactly if some running total lay between nine tenths and the limit.
   */
  lemma {:induction false} AlertsFireOnce(start: int, span: int, limit: int, es: seq<Event>)
    requires limit > 0
    ensures Honest(Run(Fresh(start), span, limit, es), limit)
  {
    if es != [] {
      AlertsFireOnce(start, span, limit, es[..|es| - 1]);
      StepKeeps(Run(Fresh(start), span, limit, es[..|es| - 1]), span, limit, es[|es| - 1]);
    }
  }

  lemma {:induction false} SumGrows(log: seq<nat>, more: seq<nat>)
    ensures Sum(log + more) >= Sum(log)
  {
    if more == [] {
      assert log + more == log;
    } else {
      SumGrows(log, more[..|more| - 1]);
      assert (log + more)[..|log + more| - 1] == log + more[..|more| - 1];
    }
  }

  /** A warning is skipped for good when one record jumps over the band. */
  lemma {:induction false} JumpSkipsWarning(limit: int, log: seq<nat>, x: nat, more: seq<nat>)
    requires limit > 0 && 10 * Sum(log) < 9 * limit && Sum(log) + x >= limit
    ensures !ThroughBand(log + [x] + more, limit)
  {
    SumSnoc(log, x);
    SumGrows(log + [x], more);
    if more == [] {
      assert log + [x] + more == log + [x];
      BandSnoc(log, x, limit);
      if ThroughBand(log, limit) {
        BandNeedsTotal(log, limit);
      }
    } else {
      JumpSkipsWarning(limit, log, x, more[..|more| - 1]);
      var all := log + [x] + more;
      assert all[..|all| - 1] == log + [x] + more[..|more| - 1];
    }
  }

  // ---------- A domain ----------

  datatype Action = Block | Throttle | Unset | Other

  datatype Limits = Limits(enabled: bool, monthly: int, daily: int, action: Action)

  /** `int64(0.8 * limit)` for a positive limit. */
  function FourFifths(limit: int): int {
    4 * limit / 5
  }

  datatype Notice = MonthlyNotice(alert: Alert, current: int, limit: int)
                  | DailyNotice(alert: Alert, current: int, limit: int)

  /** The alerts a list of notices carries for one window, in order. */
  function AlertsOf(notices: seq<Notice>, monthly: bool): seq<Alert> {
    if notices == [] then []
    else (if notices[0].MonthlyNotice? == monthly then [notices[0].alert] else []) + AlertsOf(notices[1..], monthly)
  }

  /** Each notice tells the counter and the limit of its own window, monthly ones first. */
  predicate Truthful(notices: seq<Notice>, l: Limits, monthly: int, daily: int) {
    && (forall i :: 0 <= i < |notices| ==>
          if notices[i].MonthlyNotice? then notices[i].current == monthly && notices[i].limit == l.monthly
          else notices[i].current == daily && notices[i].limit == l.daily)
    && (forall i, j :: 0 <= i < j < |notices| ==> notices[j].MonthlyNotice? ==> notices[i].MonthlyNotice?)
  }

  lemma AlertsOfTwo(m: seq<Notice>, d: seq<Notice>)
    requires |m| <= 1 && |d| <= 1
    requires forall n :: n in m ==> n.MonthlyNotice?
    requires forall n :: n in d ==> n.DailyNotice?
    ensures AlertsOf(m + d, true) == (if m == [] then [] else [m[0].alert])
    ensures AlertsOf(m + d, false) == (if d == [] then [] else [d[0].alert])
  {
    if m == [] {
      assert m + d == d;
      if d != [] {
        assert d[0] in d && d[1..] == [];
      }
    } else {
      assert m[0] in m && (m + d)[0] == m[0] && (m + d)[1..] == d;
      if d != [] {
        assert d[0] in d && d[1..] == [];
      }
    }
  }

  method Crossed(prev: int, cur: int, limit: int) returns (fired: seq<Alert>)
    ensures fired == Crossing(prev, cur, limit)
  {
    if limit > 0 {
      if prev < limit && cur >= limit {
        return [Exceeded];
      } else if 10 * prev < 9 * limit && 10 * cur >= 9 * limit {
        return [Ninety];
      }
    }
    return [];
  }

  class DomainUsage {
    var monthlyBytes: nat
    var dailyBytes: nat
    var lastReset: int
    var dailyReset: int
    var blocked: bool
    var throttled: bool
    /** The records and alerts of each window since its last reset. */
    ghost var month: Account
    ghost var day: Account

    ghost predicate Valid()
      reads this
    {
      month.w == Monthly() && day.w == Daily()
    }

    function Monthly(): Window
      reads this
    {
      Window(monthlyBytes, lastReset)
    }

    function Daily(): Window
      reads this
    {
      Window(dailyBytes, dailyReset)
    }

    constructor (now: int)
      ensures Valid() && month == day == Fresh(now)
      ensures Monthly() == Daily() == Window(0, now) && !blocked && !throttled
    {
      monthlyBytes, dailyBytes, lastReset, dailyReset := 0, 0, now, now;
      blocked, throttled := false, false;
      month, day := Fresh(now), Fresh(now);
    }

    method Evaluate(l: Limits)
      modifies this`blocked, this`throttled
      ensures Monthly() == old(Monthly()) && Daily() == old(Daily())
      ensures blocked <==> l.action == Block && (0 < l.monthly <= monthlyBytes || 0 < l.daily <= dailyBytes)
      ensures throttled <==>
                && (l.action == Throttle || l.action == Unset)
                && ((l.monthly > 0 && 5 * (monthlyBytes + 1) > 4 * l.monthly) || (l.daily > 0 && 5 * (dailyBytes + 1) > 4 * l.daily))
    {
      blocked, throttled := false, false;
      if l.action == Block {
        blocked := (l.monthly > 0 && monthlyBytes >= l.monthly) || (l.daily > 0 && dailyBytes >= l.daily);
      }
      if l.action == Throttle || l.action == Unset {
        throttled := (l.monthly > 0 && monthlyBytes >= FourFifths(l.monthly))
                     || (l.daily > 0 && dailyBytes >= FourFifths(l.daily));
      }
    }

    /** The windows as a record leaves them. */
    method Roll(l: Limits, bytes: nat, now: int)
      requires Valid()
      modifies this
      ensures Valid()
      ensures month == Step(old(month), Month, l.monthly, Add(bytes, now))
      ensures day == Step(old(day), Day, l.daily, Add(bytes, now))
      ensures Monthly() == Recorded(old(Monthly()), Month, bytes, now)
      ensures Daily() == Recorded(old(Daily()), Day, bytes, now)
      ensures month.alerts == Kept(old(month), Month, now) + Crossing(monthlyBytes - bytes, monthlyBytes, l.monthly)
      ensures day.alerts == Kept(old(day), Day, now) + Crossing(dailyBytes - bytes, dailyBytes, l.daily)
    {
      if now - lastReset > Month {
        monthlyBytes, lastReset := 0, now;
        blocked, throttled := false, false;
      }
      if now - dailyReset > Day {
        dailyBytes, dailyReset := 0, now;
        blocked, throttled := false, false;
      }
      monthlyBytes, dailyBytes := monthlyBytes + bytes, dailyBytes + bytes;
      AccountsRecord(month, Month, l.monthly, bytes, now);
      AccountsRecord(day, Day, l.daily, bytes, now);
      month := Step(month, Month, l.monthly, Add(bytes, now));
      day := Step(day, Day, l.daily, Add(bytes, now));
    }

    method Notify(l: Limits, bytes: nat) returns (notices: seq<Notice>)
      ensures AlertsOf(notices, true) == Crossing(monthlyBytes - bytes, monthlyBytes, l.monthly)
      ensures AlertsOf(notices, false) == Crossing(dailyBytes - bytes, dailyBytes, l.daily)
      ensures Truthful(notices, l, monthlyBytes, dailyBytes)
    {
      var m := Crossed(monthlyBytes - bytes, monthlyBytes, l.monthly);
      var d := Crossed(dailyBytes - bytes, dailyBytes, l.daily);
      var first := if m == [] then [] else [MonthlyNotice(m[0], monthlyBytes, l.monthly)];
      var second := if d == [] then [] else [DailyNotice(d[0], dailyBytes, l.daily)];
      AlertsOfTwo(first, second);
      notices := first + second;
    }

    /** Both windows take the bytes, after a reset if they have run out; each
        account takes one step, and the notices returned carry exactly the
        alerts that step added. */
    method Record(l: Limits, bytes: nat, now: int) returns (refuse: bool, slow: bool, notices: seq<Notice>)
      requires Valid()
      modifies this
      ensures Valid()
      ensures month == (if l.enabled then Step(old(month), Month, l.monthly, Add(bytes, now)) else old(month))
      ensures day == (if l.enabled then Step(old(day), Day, l.daily, Add(bytes, now)) else old(day))
      ensures l.enabled ==>
                && month.alerts == Kept(old(month), Month, now) + AlertsOf(notices, true)
                && day.alerts == Kept(old(day), Day, now) + AlertsOf(notices, false)
                && Truthful(notices, l, monthlyBytes, dailyBytes)
      ensures l.enabled ==>
                && (now - old(lastReset) > 2_592_000_000_000_000 ==> monthlyBytes == bytes && lastReset == now)
                && (now - old(lastReset) <= 2_592_000_000_000_000 ==>
                      monthlyBytes == old(monthlyBytes) + bytes && lastReset == old(lastReset))
                && (now - old(dailyReset) > 86_400_000_000_000 ==> dailyBytes == bytes && dailyReset == now)
                && (now - old(dailyReset) <= 86_400_000_000_000 ==>
                      dailyBytes == old(dailyBytes) + bytes && dailyReset == old(dailyReset))
      ensures l.enabled ==>
                && (refuse <==> l.action == Block && (0 < l.monthly <= monthlyBytes || 0 < l.daily <= dailyBytes))
                && refuse == blocked && slow == throttled
      ensures !l.enabled ==>
                && Monthly() == old(Monthly()) && Daily() == old(Daily())
                && blocked == old(blocked) && throttled == old(throttled)
                && !refuse && !slow && notices == []
    {
      if !l.enabled {
        return false, false, [];
      }
      Roll(l, bytes, now);
      notices := Notify(l, bytes);
      Evaluate(l);
      refuse, slow := blocked, throttled;
    }

    method Reset(now: int)
      modifies this
      ensures Valid() && month == day == Fresh(now)
      ensures Monthly() == Daily() == Window(0, now) && !blocked && !throttled
    {
      monthlyBytes, dailyBytes, lastReset, dailyReset := 0, 0, now, now;
      blocked, throttled := false, false;
      month, day := Fresh(now), Fresh(now);
    }
  }

  // ---------- Delivered notices ----------

  datatype Use = Use(bytes: nat, now: int)

  /** The start of the window and the alerts sent in it, read off the records
      and the notices each of them returned. */
  function Sent(uses: seq<Use>, out: seq<seq<Notice>>, monthly: bool, span: int, start: int): (int, seq<Alert>)
    requires |uses| == |out|
    decreases |uses|
  {
    if uses == [] then (start, [])
    else
      var n := |uses| - 1;
      var (since, alerts) := Sent(uses[..n], out[..n], monthly, span, start);
      if uses[n].now - since > span then (uses[n].now, AlertsOf(out[n], monthly))
      else (since, alerts + AlertsOf(out[n], monthly))
  }

  /** Once only, in what is delivered: `sent` in a window with the records `log`. */
  ghost predicate OnceOnly(sent: seq<Alert>, log: seq<nat>, limit: int) {
    && Count(sent, Exceeded) == (if Sum(log) >= limit then 1 else 0)
    && Count(sent, Ninety) == (if ThroughBand(log, limit) then 1 else 0)
  }

  /** Over any sequence of records with fixed positive limits, the notices
      delivered since each window began tell of the limit once exactly if it was
      reached, and of nine tenths once exactly if a total lay between. */
  method RecordAll(usage: DomainUsage, l: Limits, uses: seq<Use>, start: int) returns (out: seq<seq<Notice>>)
    requires usage.Valid() && usage.month == usage.day == Fresh(start)
    requires l.enabled && l.monthly > 0 && l.daily > 0
    modifies usage
    ensures usage.Valid() && |out| == |uses|
    ensures usage.Monthly().bytes == Sum(usage.month.log) && usage.Daily().bytes == Sum(usage.day.log)
    ensures OnceOnly(Sent(uses, out, true, Month, start).1, usage.month.log, l.monthly)
    ensures OnceOnly(Sent(uses, out, false, Day, start).1, usage.day.log, l.daily)
  {
    out := [];
    FreshIsHonest(start, l.monthly);
    FreshIsHonest(start, l.daily);
    assert uses[..0] == [];
    var i := 0;
    while i < |uses|
      invariant 0 <= i <= |uses| && |out| == i && usage.Valid()
      invariant Delivered(usage.month, l.monthly, uses[..i], out, true, Month, start)
      invariant Delivered(usage.day, l.daily, uses[..i], out, false, Day, start)
    {
      ghost var month, day := usage.month, usage.day;
      var _, _, notices := usage.Record(l, uses[i].bytes, uses[i].now);
      DeliveredStep(month, usage.month, l.monthly, uses, i, out, notices, true, Month, start);
      DeliveredStep(day, usage.day, l.daily, uses, i, out, notices, false, Day, start);
      out := out + [notices];
      i := i + 1;
    }
    assert uses[..i] == uses;
  }

  /** The account is honest and its alerts are those delivered. */
  ghost predicate Delivered(a: Account, limit: int, uses: seq<Use>, out: seq<seq<Notice>>, monthly: bool, span: int, start: int) {
    && |uses| == |out| && Honest(a, limit)
    && Sent(uses, out, monthly, span, start) == (a.w.since, a.alerts)
  }

  lemma DeliveredStep(a: Account, b: Account, limit: int, uses: seq<Use>, i: nat, out: seq<seq<Notice>>,
                      notices: seq<Notice>, monthly: bool, span: int, start: int)
    requires i < |uses| && limit > 0 && Delivered(a, limit, uses[..i], out, monthly, span, start)
    requires b == Step(a, span, limit, Add(uses[i].bytes, uses[i].now))
    requires b.alerts == Kept(a, span, uses[i].now) + AlertsOf(notices, monthly)
    ensures Delivered(b, limit, uses[..i + 1], out + [notices], monthly, span, start) == true
  {
    StepKeeps(a, span, limit, Add(uses[i].bytes, uses[i].now));
    SentSnoc(uses, i, out, notices, monthly, span, start);
    assert [] + AlertsOf(notices, monthly) == AlertsOf(notices, monthly);
  }

  lemma SentSnoc(uses: seq<Use>, i: nat, out: seq<seq<Notice>>, notices: seq<Notice>, monthly: bool, span: int, start: int)
    requires i < |uses| && |out| == i
    ensures var (since, alerts) := Sent(uses[..i], out, monthly, span, start);
            Sent(uses[..i + 1], out + [notices], monthly, span, start)
            == (if uses[i].now - since > span then (uses[i].now, AlertsOf(notices, monthly))
                else (since, alerts + AlertsOf(notices, monthly)))
  {
    assert uses[..i + 1][..i] == uses[..i] && (out + [notices])[..i] == out;
  }

  // ---------- Billing a response ----------

  /** What a handler does with its response writer. */
  datatype Output = Write(n: nat) | Flush

  function Written(out: seq<Output>): nat {
    if out == [] then 0
    else Written(out[..|out| - 1]) + (if out[|out| - 1].Write? then out[|out| - 1].n else 0)
  }

  class ResponseWriter {
    var bytesWritten: nat
    var recorded: nat
    /** The amounts reported to the manager, in order. */
    ghost var billed: seq<nat>

    ghost predicate Valid()
      reads this
    {
      recorded <= bytesWritten && Sum(billed) == recorded
    }

    constructor ()
      ensures Valid() && bytesWritten == 0 && billed == []
    {
      bytesWritten, recorded, billed := 0, 0, [];
    }

    /** Reports what was written since the last report, if anything. */
    method RecordDelta() returns (delta: nat)
      requires Valid()
      modifies this
      ensures Valid() && recorded == bytesWritten == old(bytesWritten)
      ensures delta == old(bytesWritten - recorded)
      ensures billed == (if delta > 0 then old(billed) + [delta] else old(billed))
    {
      delta := bytesWritten - recorded;
      if delta > 0 {
        SumSnoc(billed, delta);
        billed := billed + [delta];
        recorded := bytesWritten;
      }
    }

    /** A handler's output, flushed as often as it likes, then the report after the request. */
    method Serve(out: seq<Output>)
      requires Valid() && bytesWritten == 0
      modifies this
      ensures Valid() && Sum(billed) == bytesWritten == Written(out)
    {
      var i := 0;
      while i < |out|
        invariant 0 <= i <= |out| && Valid() && bytesWritten == Written(out[..i])
      {
        assert out[..i + 1][..i] == out[..i];
        match out[i] {
          case Write(n) => bytesWritten := bytesWritten + n;
          case Flush => var _ := RecordDelta();
        }
        i := i + 1;
      }
      assert out[..i] == out;
      var _ := RecordDelta();
    }
  }
}
