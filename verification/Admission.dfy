/**
 Who is refused and who is reported (internal/autoblock/detect.go): the counters
 of an address are the events of its window, and the thresholds are tested
 against them.
 */
module Admission {
  import opened Addresses
  import opened Detect

  // ---- the events of a window ----

  /** An event of an address that its record remembers. */
  datatype Mark = Mark(at: int, action: Action)

  /** The marks of the window an event falls into: a window begins with an event
      and ends with the first one at least `window` later. */
  function InWindow(marks: seq<Mark>, m: Mark, window: int): seq<Mark> {
    if marks == [] || m.at - marks[0].at >= window then [m] else marks + [m]
  }

  function Tally(marks: seq<Mark>, action: Action): nat {
    if marks == [] then 0
    else Tally(marks[..|marks| - 1], action) + (if marks[|marks| - 1].action == action then 1 else 0)
  }

  /** The counters of a record are the events of its window. */
  predicate Counts(t: Track, marks: seq<Mark>) {
    && marks != [] && t.windowStart == marks[0].at && t.lastSeen == marks[|marks| - 1].at
    && t.conns == Tally(marks, Opened) && t.aborts == Tally(marks, Closed(true))
    && t.waf == Tally(marks, Waf) && t.rate == Tally(marks, Rate) && t.notfound == Tally(marks, NotFound)
  }

  lemma TallySnoc(marks: seq<Mark>, m: Mark, action: Action)
    ensures Tally(marks + [m], action) == Tally(marks, action) + (if m.action == action then 1 else 0)
  {
    assert (marks + [m])[..|marks|] == marks;
  }

  lemma TallyOne(m: Mark, action: Action)
    ensures Tally([m], action) == (if m.action == action then 1 else 0)
  {
    assert [m][..0] == [];
    assert Tally([], action) == 0;
  }

  lemma ActCounts(t: Track, marks: seq<Mark>, now: int, action: Action)
    requires Counts(t, marks)
    ensures Counts(Act(t.(lastSeen := now), action), marks + [Mark(now, action)])
  {
    var m := Mark(now, action);
    TallySnoc(marks, m, Opened);
    TallySnoc(marks, m, Closed(true));
    TallySnoc(marks, m, Waf);
    TallySnoc(marks, m, Rate);
    TallySnoc(marks, m, NotFound);
  }

  lemma FirstCounts(g: nat, now: int, action: Action)
    ensures Counts(Act(NewTrack(now).(concurrent := g, lastSeen := now), action), [Mark(now, action)])
  {
    var m := Mark(now, action);
    TallyOne(m, Opened);
    TallyOne(m, Closed(true));
    TallyOne(m, Waf);
    TallyOne(m, Rate);
    TallyOne(m, NotFound);
  }

  /** A known address, in its window or in a new one. */
  lemma KnownCounts(s: Table, marks: seq<Mark>, a: Addr, now: int, window: int, action: Action)
    requires a in s.tracks && Counts(s.tracks[a], marks)
    ensures Counts(Snapshot(s, a, now, window, action), InWindow(marks, Mark(now, action), window))
  {
    var t := s.tracks[a];
    if now - t.windowStart >= window {
      FirstCounts(t.concurrent, now, action);
    } else {
      ActCounts(t, marks, now, action);
    }
  }

  lemma NewCounts(s: Table, a: Addr, now: int, window: int, action: Action)
    requires a !in s.tracks
    ensures Counts(Snapshot(s, a, now, window, action), [Mark(now, action)])
  {
    FirstCounts(0, now, action);
  }

  // ---- runs with their history ----

  /** At its opening: the open connections of its address and the openings of
      the window, this one included. */
  datatype Fact = Fact(open: nat, opens: nat)

  datatype Book = Book(marks: map<Addr, seq<Mark>>, facts: map<nat, Fact>)

  /** The marks after an event of `a`; addresses without a record have none. */
  function Marked(s: Table, marks: map<Addr, seq<Mark>>, a: Addr, now: int, window: int, action: Action): map<Addr, seq<Mark>> {
    var before := if a in s.tracks && a in marks then marks[a] else [];
    map b | b in Touch(s, a, now, window, action).tracks && (b == a || b in marks) ::
      if b == a then InWindow(before, Mark(now, action), window) else marks[b]
  }

  function BookStep(cfg: Config, s: State, b: Book, e: Event): Book {
    match e
    case Open(a, now, safe, blocked) =>
      if safe || blocked then b
      else
        var marks := Marked(s.table, b.marks, a, now, cfg.window, Opened);
        Book(marks, b.facts[s.next := Fact(|OpenSet(s, a)| + 1, if a in marks then Tally(marks[a], Opened) else 1)])
    case Decide(id, now) =>
      if id !in s.conns || s.conns[id].Served? || id in Step(cfg, s, e).conns then b
      else b.(marks := Marked(s.table, b.marks, s.conns[id].addr, now, cfg.window, Release))
    case Close(id, now, aborted, safe) =>
      if id !in s.conns || !s.conns[id].Served? || safe then b
      else b.(marks := Marked(s.table, b.marks, s.conns[id].addr, now, cfg.window, Closed(aborted)))
    case Http(a, now, action) =>
      if action.Waf? || action.Rate? || action.NotFound? || action.Nothing?
      then b.(marks := Marked(s.table, b.marks, a, now, cfg.window, action))
      else b
    case Gc(now) =>
      b.(marks := map a | a in b.marks && a in Step(cfg, s, e).table.tracks :: b.marks[a])
  }

  function BookRun(cfg: Config, s: State, b: Book, es: seq<Event>): Book
    decreases |es|
  {
    if es == [] then b else BookRun(cfg, Step(cfg, s, es[0]), BookStep(cfg, s, b, es[0]), es[1..])
  }

  ghost predicate AllCount(s: Table, marks: map<Addr, seq<Mark>>) {
    forall a :: a in s.tracks ==> a in marks && Counts(s.tracks[a], marks[a])
  }

  lemma TouchCounts(s: Table, marks: map<Addr, seq<Mark>>, a: Addr, now: int, window: int, action: Action)
    requires AllCount(s, marks)
    ensures AllCount(Touch(s, a, now, window, action), Marked(s, marks, a, now, window, action))
    ensures Remembered(s, a, now, window) ==>
              var marks' := Marked(s, marks, a, now, window, action);
              a in marks' && Counts(Snapshot(s, a, now, window, action), marks'[a])
  {
    if a in s.tracks {
      KnownCounts(s, marks[a], a, now, window, action);
    } else {
      NewCounts(s, a, now, window, action);
    }
  }

  lemma ReleaseCounts(s: Table, marks: map<Addr, seq<Mark>>, a: Addr)
    requires AllCount(s, marks)
    ensures AllCount(ReleaseIn(s, a), marks)
  {
    if a in s.tracks {
      assert Counts(s.tracks[a], marks[a]);
    }
  }

  ghost predicate CountsKept(cfg: Config, s: State, b: Book, e: Event) {
    AllCount(s.table, b.marks) ==> AllCount(Step(cfg, s, e).table, BookStep(cfg, s, b, e).marks)
  }

  lemma OpenCounts(cfg: Config, s: State, b: Book, a: Addr, now: int, safe: bool, blocked: bool)
    ensures CountsKept(cfg, s, b, Open(a, now, safe, blocked))
  {
    if AllCount(s.table, b.marks) {
      TouchCounts(s.table, b.marks, a, now, cfg.window, Opened);
    }
  }

  lemma DecideCounts(cfg: Config, s: State, b: Book, id: nat, now: int)
    ensures CountsKept(cfg, s, b, Decide(id, now))
  {
    if AllCount(s.table, b.marks) && id in s.conns {
      TouchCounts(s.table, b.marks, s.conns[id].addr, now, cfg.window, Release);
    }
  }

  lemma CloseCounts(cfg: Config, s: State, b: Book, id: nat, now: int, aborted: bool, safe: bool)
    ensures CountsKept(cfg, s, b, Close(id, now, aborted, safe))
  {
    if AllCount(s.table, b.marks) && id in s.conns {
      TouchCounts(s.table, b.marks, s.conns[id].addr, now, cfg.window, Closed(aborted));
      ReleaseCounts(s.table, b.marks, s.conns[id].addr);
    }
  }

  lemma HttpCounts(cfg: Config, s: State, b: Book, a: Addr, now: int, action: Action)
    ensures CountsKept(cfg, s, b, Http(a, now, action))
  {
    if AllCount(s.table, b.marks) {
      TouchCounts(s.table, b.marks, a, now, cfg.window, action);
    }
  }

  lemma GcCounts(cfg: Config, s: State, b: Book, now: int)
    ensures CountsKept(cfg, s, b, Gc(now))
  {
  }

  /** Every event keeps the counters equal to the events of the windows. */
  lemma StepCounts(cfg: Config, s: State, b: Book, e: Event)
    ensures CountsKept(cfg, s, b, e) == true
  {
    match e
    case Open(a, now, safe, blocked) => OpenCounts(cfg, s, b, a, now, safe, blocked);
    case Decide(id, now) => DecideCounts(cfg, s, b, id, now);
    case Close(id, now, aborted, safe) => CloseCounts(cfg, s, b, id, now, aborted, safe);
    case Http(a, now, action) => HttpCounts(cfg, s, b, a, now, action);
    case Gc(now) => GcCounts(cfg, s, b, now);
  }

  const NoBook := Book(map[], map[])

  /** In every run the counters of every record are the events of its window. */
  lemma {:induction false} CountersAreWindowEvents(cfg: Config, s: State, b: Book, es: seq<Event>)
    requires AllCount(s.table, b.marks)
    ensures AllCount(Run(cfg, s, es).table, BookRun(cfg, s, b, es).marks)
    decreases |es|
  {
    if es != [] {
      StepCounts(cfg, s, b, es[0]);
      CountersAreWindowEvents(cfg, Step(cfg, s, es[0]), BookStep(cfg, s, b, es[0]), es[1..]);
    }
  }

  // ---- refusals ----

  /** The snapshot a waiting connection will be judged by, against the facts of its opening. */
  predicate Fair(c: Conn, f: Fact) {
    c.Opening? ==> c.snap.concurrent <= f.open && c.snap.conns == f.opens
  }

  predicate Precise(c: Conn, f: Fact) {
    c.Opening? ==> c.snap.concurrent == f.open && c.snap.conns == f.opens
  }

  ghost predicate AllFair(s: State, b: Book) {
    forall id :: id in s.conns && s.conns[id].Opening? ==> id in b.facts && Fair(s.conns[id], b.facts[id])
  }

  ghost predicate AllPrecise(s: State, b: Book, a: Addr) {
    forall id :: id in s.conns && s.conns[id].Opening? && s.conns[id].addr == a ==>
      id in b.facts && Precise(s.conns[id], b.facts[id])
  }

  /** The snapshot of an opening. */
  lemma OpenedSnapshot(s: Table, a: Addr, now: int, window: int)
    ensures Snapshot(s, a, now, window, Opened).concurrent == Gauge(s, a) + 1
    ensures a !in s.tracks ==> Snapshot(s, a, now, window, Opened).conns == 1
  {
  }

  lemma OpenIsFair(cfg: Config, s: State, b: Book, a: Addr, now: int)
    requires AllCount(s.table, b.marks) && Gauge(s.table, a) <= |OpenSet(s, a)|
    ensures var e := Open(a, now, false, false);
            var c, f := Step(cfg, s, e).conns[s.next], BookStep(cfg, s, b, e).facts[s.next];
            && Fair(c, f)
            && (Gauge(s.table, a) == |OpenSet(s, a)| ==> Precise(c, f))
  {
    TouchCounts(s.table, b.marks, a, now, cfg.window, Opened);
    OpenedSnapshot(s.table, a, now, cfg.window);
  }

  lemma StepIsFair(cfg: Config, s: State, b: Book, e: Event)
    requires GaugeBounded(s) && AllCount(s.table, b.marks) && AllFair(s, b)
    ensures AllFair(Step(cfg, s, e), BookStep(cfg, s, b, e))
  {
    if e.Open? && !e.safe && !e.blocked {
      OpenIsFair(cfg, s, b, e.addr, e.now);
    }
  }

  lemma StepIsPrecise(cfg: Config, s: State, b: Book, e: Event, a: Addr)
    requires Fresh(s) && Gauge(s.table, a) == |OpenSet(s, a)| && AllCount(s.table, b.marks) && AllPrecise(s, b, a)
    ensures AllPrecise(Step(cfg, s, e), BookStep(cfg, s, b, e), a)
  {
    if e.Open? && !e.safe && !e.blocked && e.addr == a {
      OpenIsFair(cfg, s, b, a, e.now);
    }
  }

  /** The waiting connection `id` is turned away by this decision. */
  predicate Refused(cfg: Config, s: State, id: nat, now: int) {
    id in s.conns && s.conns[id].Opening? && id !in Step(cfg, s, Decide(id, now)).conns
  }

  /** The thresholds, against the facts of the opening. */
  predicate OverLimit(cfg: Config, f: Fact) {
    (cfg.maxConcurrent > 0 && f.open > cfg.maxConcurrent) || (cfg.maxConnections > 0 && f.opens > cfg.maxConnections)
  }

  lemma {:induction false} RunIsFair(cfg: Config, s: State, b: Book, es: seq<Event>)
    requires GaugeBounded(s) && AllCount(s.table, b.marks) && AllFair(s, b)
    ensures AllFair(Run(cfg, s, es), BookRun(cfg, s, b, es))
    decreases |es|
  {
    if es != [] {
      GaugeNeverExceedsOpen(cfg, s, [es[0]]);
      assert [es[0]][1..] == [] && Run(cfg, Step(cfg, s, es[0]), []) == Step(cfg, s, es[0]);
      StepCounts(cfg, s, b, es[0]);
      StepIsFair(cfg, s, b, es[0]);
      RunIsFair(cfg, Step(cfg, s, es[0]), BookStep(cfg, s, b, es[0]), es[1..]);
    }
  }

  lemma InitIsBounded()
    ensures GaugeBounded(Init) && AllCount(Init.table, NoBook.marks) && AllFair(Init, NoBook)
  {
    assert forall a :: OpenSet(Init, a) == {};
  }

  /** In every run a connection is refused only outside dry run and only if the
      connections open at its opening, or the openings of the window, were over
      their limit. */
  lemma RefusedOnlyOverLimit(cfg: Config, es: seq<Event>, id: nat, now: int)
    requires Refused(cfg, Run(cfg, Init, es), id, now)
    ensures var b := BookRun(cfg, Init, NoBook, es);
            !cfg.dryRun && id in b.facts && OverLimit(cfg, b.facts[id])
  {
    InitIsBounded();
    RunIsFair(cfg, Init, NoBook, es);
  }

  lemma {:induction false} RunIsPrecise(cfg: Config, s: State, b: Book, es: seq<Event>, a: Addr)
    requires Fresh(s) && Gauge(s.table, a) == |OpenSet(s, a)| && ExactRun(cfg, s, es, a)
    requires AllCount(s.table, b.marks) && AllPrecise(s, b, a)
    ensures AllPrecise(Run(cfg, s, es), BookRun(cfg, s, b, es), a)
    decreases |es|
  {
    if es != [] {
      StepGauge(cfg, s, es[0], a);
      StepCounts(cfg, s, b, es[0]);
      StepIsPrecise(cfg, s, b, es[0], a);
      RunIsPrecise(cfg, Step(cfg, s, es[0]), BookStep(cfg, s, b, es[0]), es[1..], a);
    }
  }

  /**
   * For an address that is never safe and whose shard never fills: a connection
   * is refused exactly if dry run is off and, counting itself, more connections
   * were open at its opening than maxConcurrent, or its window had seen more
   * openings than maxConnections, each limit only if positive.
   */
  lemma RefusedIffOverLimit(cfg: Config, es: seq<Event>, id: nat, now: int, a: Addr)
    requires ExactRun(cfg, Init, es, a)
    requires var s := Run(cfg, Init, es); id in s.conns && s.conns[id].Opening? && s.conns[id].addr == a
    ensures var b := BookRun(cfg, Init, NoBook, es);
            && id in b.facts
            && (Refused(cfg, Run(cfg, Init, es), id, now) <==>
                  && !cfg.dryRun
                  && (|| (cfg.maxConcurrent > 0 && b.facts[id].open > cfg.maxConcurrent)
                      || (cfg.maxConnections > 0 && b.facts[id].opens > cfg.maxConnections)))
  {
    InitIsBounded();
    assert OpenSet(Init, a) == {};
    RunIsPrecise(cfg, Init, NoBook, es, a);
  }

  /** Before that: a safe address is served at once and leaves no trace, a
      blocked one is turned away; and a connection not refused is served, with
      the counters as they are. */
  lemma AnswersAtOnce(cfg: Config, s: State, a: Addr, now: int, blocked: bool, id: nat)
    ensures Step(cfg, s, Open(a, now, true, blocked)) == s.(conns := s.conns[s.next := Served(a)], next := s.next + 1)
    ensures Step(cfg, s, Open(a, now, false, true)) == s
    ensures id in s.conns && s.conns[id].Opening? && !Refused(cfg, s, id, now) ==>
              Step(cfg, s, Decide(id, now)) == s.(conns := s.conns[id := Served(s.conns[id].addr)])
  {
  }
}
