/**
 The per-address counters of internal/autoblock/detect.go, one shard of them.
 An address always hashes to the same shard and shards share nothing, so what
 holds for one shard under every interleaving holds for all.
 */
module Detect {
  import opened Addresses
  import opened Durations

  const MAX_TRACKS_PER_SHARD: nat := 4096

  datatype Track = Track(
    windowStart: int, conns: nat, aborts: nat, waf: nat, rate: nat, notfound: nat,
    concurrent: nat,      // a live gauge, not a counter
    lastSeen: int)

  datatype Table = Table(tracks: map<Addr, Track>, swept: int)

  /** What the closures handed to withTrack do. */
  datatype Action = Opened | Release | Closed(aborted: bool) | Waf | Rate | NotFound | Nothing

  datatype Config = Config(
    window: int, maxConnections: int, maxAborts: int, maxConcurrent: int,
    maxWaf: int, maxRate: int, maxNotFound: int, dryRun: bool)

  /** Why a block is asked for. */
  datatype Reason = Concurrent | ConnFlood | TlsAbort | WafHits | RateHits | NotFoundHits

  function NewTrack(now: int): Track {
    Track(now, 0, 0, 0, 0, 0, 0, 0)
  }

  function Dec(n: nat): nat {
    if n > 0 then n - 1 else 0
  }

  function Act(t: Track, action: Action): Track {
    match action
    case Opened => t.(conns := t.conns + 1, concurrent := t.concurrent + 1)
    case Release => t.(concurrent := Dec(t.concurrent))
    case Closed(aborted) =>
      t.(concurrent := Dec(t.concurrent), aborts := if aborted then t.aborts + 1 else t.aborts)
    case Waf => t.(waf := t.waf + 1)
    case Rate => t.(rate := t.rate + 1)
    case NotFound => t.(notfound := t.notfound + 1)
    case Nothing => t
  }

  predicate Quiet(t: Track, cutoff: int) {
    t.concurrent == 0 && t.lastSeen < cutoff
  }

  function DropQuiet(tracks: map<Addr, Track>, cutoff: int): map<Addr, Track> {
    map a | a in tracks && !Quiet(tracks[a], cutoff) :: tracks[a]
  }

  predicate NeedsSweep(s: Table, a: Addr, now: int) {
    a !in s.tracks && |s.tracks| >= MAX_TRACKS_PER_SHARD && now - s.swept >= SECOND
  }

  /** The table after a full shard reclaimed its quiet records, if it may. */
  function Swept(s: Table, a: Addr, now: int, window: int): Table {
    if NeedsSweep(s, a, now) then Table(DropQuiet(s.tracks, now - 2 * window), now) else s
  }

  /** A record at `now`: a new window resets every counter but the gauge. */
  function Rolled(t: Track, now: int, window: int): Track {
    (if now - t.windowStart >= window then NewTrack(now).(concurrent := t.concurrent) else t).(lastSeen := now)
  }

  /** withTrack: the snapshot it returns. */
  function Snapshot(s: Table, a: Addr, now: int, window: int, action: Action): Track {
    Act(Rolled(if a in s.tracks then s.tracks[a] else NewTrack(now), now, window), action)
  }

  /** Whether an event of `a` is remembered: it has a record, or one fits. */
  predicate Remembered(s: Table, a: Addr, now: int, window: int) {
    a in s.tracks || |Swept(s, a, now, window).tracks| < MAX_TRACKS_PER_SHARD
  }

  /** withTrack: the table it leaves. */
  function Touch(s: Table, a: Addr, now: int, window: int, action: Action): Table {
    var s' := Swept(s, a, now, window);
    if Remembered(s, a, now, window)
    then s'.(tracks := s'.tracks[a := Snapshot(s, a, now, window, action)])
    else s'
  }

  function Gauge(s: Table, a: Addr): nat {
    if a in s.tracks then s.tracks[a].concurrent else 0
  }

  /** The shard, updated in place. */
  class Shard {
    var tracks: map<Addr, Track>
    var swept: int

    ghost function View(): Table
      reads this
    {
      Table(tracks, swept)
    }

    constructor ()
      ensures View() == Table(map[], 0)
    {
      tracks, swept := map[], 0;
    }

    method SweepQuiet(cutoff: int)
      modifies this`tracks
      ensures tracks == DropQuiet(old(tracks), cutoff)
      ensures forall a :: a in tracks <==> a in old(tracks) && (old(tracks)[a].concurrent > 0 || old(tracks)[a].lastSeen >= cutoff)
    {
      var todo := tracks.Keys;
      while todo != {}
        invariant todo <= tracks.Keys <= old(tracks).Keys
        invariant forall a :: a in tracks ==> tracks[a] == old(tracks)[a]
        invariant forall a :: a in tracks && a !in todo ==> !Quiet(tracks[a], cutoff)
        invariant forall a :: a in old(tracks) && a !in tracks ==> Quiet(old(tracks)[a], cutoff)
        decreases |todo|
      {
        var a :| a in todo;
        todo := todo - {a};
        if tracks[a].concurrent <= 0 && tracks[a].lastSeen < cutoff {
          tracks := tracks - {a};
        }
      }
    }

    /** withTrack, on a record that stays behind or on one thrown away. */
    method WithTrack(a: Addr, now: int, window: int, action: Action) returns (snap: Track)
      modifies this
      ensures View() == Touch(old(View()), a, now, window, action)
      ensures snap == Snapshot(old(View()), a, now, window, action)
    {
      var t := NewTrack(now);
      var keep := true;
      if a in tracks {
        t := tracks[a];
      } else {
        if |tracks| >= MAX_TRACKS_PER_SHARD && now - swept >= SECOND {
          swept := now;
          SweepQuiet(now - 2 * window);
        }
        keep := |tracks| < MAX_TRACKS_PER_SHARD;
      }
      if now - t.windowStart >= window {
        t := NewTrack(now).(concurrent := t.concurrent);
      }
      t := t.(lastSeen := now);
      snap := Act(t, action);
      if keep {
        tracks := tracks[a := snap];
      }
    }

    /** ConnOpened, from its counting at `now` to its answer at `later`: a
        refused connection hands its slot back; every breach is reported, but
        after a refusal only the first. */
    method ConnOpened(cfg: Config, a: Addr, now: int, later: int, safe: bool, blocked: bool)
        returns (served: bool, reasons: seq<Reason>)
      modifies this
      ensures safe ==> served && reasons == [] && View() == old(View())
      ensures !safe && blocked ==> !served && reasons == [] && View() == old(View())
      ensures !safe && !blocked ==>
                var snap := Snapshot(old(View()), a, now, cfg.window, Opened);
                var tooMany := cfg.maxConcurrent > 0 && snap.concurrent > cfg.maxConcurrent;
                var tooFast := cfg.maxConnections > 0 && snap.conns > cfg.maxConnections;
                && (served <==> cfg.dryRun || (!tooMany && !tooFast))
                && (Concurrent in reasons <==> tooMany)
                && (ConnFlood in reasons <==> tooFast && (cfg.dryRun || !tooMany))
                && View() == (var after := Touch(old(View()), a, now, cfg.window, Opened);
                              if served then after else Touch(after, a, later, cfg.window, Release))
    {
      reasons := [];
      if safe { return true, []; }
      if blocked { return false, []; }
      var t := WithTrack(a, now, cfg.window, Opened);
      var deny := !cfg.dryRun;
      if cfg.maxConcurrent > 0 && t.concurrent > cfg.maxConcurrent {
        reasons := [Concurrent];
        if deny {
          var _ := WithTrack(a, later, cfg.window, Release);
          return false, reasons;
        }
      }
      if cfg.maxConnections > 0 && t.conns > cfg.maxConnections {
        reasons := reasons + [ConnFlood];
        if deny {
          var _ := WithTrack(a, later, cfg.window, Release);
          return false, reasons;
        }
      }
      return true, reasons;
    }

    /** ConnClosed: the slot goes back; an abort over the limit is reported. */
    method ConnClosed(cfg: Config, a: Addr, now: int, aborted: bool, safe: bool) returns (reasons: seq<Reason>)
      modifies this
      ensures View() == if safe then ReleaseIn(old(View()), a) else Touch(old(View()), a, now, cfg.window, Closed(aborted))
      ensures var snap := Snapshot(old(View()), a, now, cfg.window, Closed(aborted));
              reasons == if !safe && aborted && snap.aborts > cfg.maxAborts then [TlsAbort] else []
    {
      if safe {
        ReleaseSafe(a);
        return [];
      }
      var t := WithTrack(a, now, cfg.window, Closed(aborted));
      return if aborted && t.aborts > cfg.maxAborts then [TlsAbort] else [];
    }

    /** RecordHTTP for an address that is neither safe nor blocked. */
    method RecordHTTP(cfg: Config, a: Addr, now: int, action: Action) returns (reasons: seq<Reason>)
      requires action.Waf? || action.Rate? || action.NotFound? || action.Nothing?
      modifies this
      ensures View() == Touch(old(View()), a, now, cfg.window, action)
      ensures var snap := Snapshot(old(View()), a, now, cfg.window, action);
              && (action.Waf? ==> reasons == Over(snap.waf, cfg.maxWaf, WafHits))
              && (action.Rate? ==> reasons == Over(snap.rate, cfg.maxRate, RateHits))
              && (action.NotFound? ==> reasons == Over(snap.notfound, cfg.maxNotFound, NotFoundHits))
              && (action.Nothing? ==> reasons == [])
    {
      var t := WithTrack(a, now, cfg.window, action);
      var count, limit, reason := 0, 0, WafHits;
      match action {
        case Waf => count, limit, reason := t.waf, cfg.maxWaf, WafHits;
        case Rate => count, limit, reason := t.rate, cfg.maxRate, RateHits;
        case NotFound => count, limit, reason := t.notfound, cfg.maxNotFound, NotFoundHits;
        case _ => return [];
      }
      return if limit > 0 && count > limit then [reason] else [];
    }

    /** The safe branch of ConnClosed: hand a slot back, create nothing. */
    method ReleaseSafe(a: Addr)
      modifies this`tracks
      ensures View() == ReleaseIn(old(View()), a)
    {
      if a in tracks && tracks[a].concurrent > 0 {
        tracks := tracks[a := tracks[a].(concurrent := tracks[a].concurrent - 1)];
      }
    }
  }

  /** `Reason` if the count is over a positive limit. */
  function Over(count: nat, limit: int, reason: Reason): seq<Reason> {
    if limit > 0 && count > limit then [reason] else []
  }

  function ReleaseIn(s: Table, a: Addr): Table {
    if a in s.tracks && s.tracks[a].concurrent > 0
    then s.(tracks := s.tracks[a := s.tracks[a].(concurrent := s.tracks[a].concurrent - 1)])
    else s
  }

  // ---- connections ----

  /** A connection inside ConnOpened, with the snapshot it decides on, or served. */
  datatype Conn = Opening(addr: Addr, snap: Track) | Served(addr: Addr)

  datatype State = State(table: Table, conns: map<nat, Conn>, next: nat)

  /** `safe` and `blocked` are what the two predicates answer at that moment. */
  datatype Event =
    | Open(addr: Addr, now: int, safe: bool, blocked: bool)
    | Decide(conn: nat, now: int)
    | Close(conn: nat, now: int, aborted: bool, safe: bool)
    | Http(addr: Addr, now: int, action: Action)
    | Gc(now: int)

  const Init := State(Table(map[], 0), map[], 0)

  predicate Denied(cfg: Config, t: Track) {
    && !cfg.dryRun
    && (|| (cfg.maxConcurrent > 0 && t.concurrent > cfg.maxConcurrent)
        || (cfg.maxConnections > 0 && t.conns > cfg.maxConnections))
  }

  function Step(cfg: Config, s: State, e: Event): State {
    match e
    case Open(a, now, safe, blocked) =>
      if safe then s.(conns := s.conns[s.next := Served(a)], next := s.next + 1)
      else if blocked then s
      else State(Touch(s.table, a, now, cfg.window, Opened),
                 s.conns[s.next := Opening(a, Snapshot(s.table, a, now, cfg.window, Opened))], s.next + 1)
    case Decide(id, now) =>
      if id !in s.conns || s.conns[id].Served? then s
      else
        var c := s.conns[id];
        if Denied(cfg, c.snap)
        then s.(table := Touch(s.table, c.addr, now, cfg.window, Release), conns := s.conns - {id})
        else s.(conns := s.conns[id := Served(c.addr)])
    case Close(id, now, aborted, safe) =>
      if id !in s.conns || !s.conns[id].Served? then s
      else
        var a := s.conns[id].addr;
        s.(conns := s.conns - {id},
           table := if safe then ReleaseIn(s.table, a) else Touch(s.table, a, now, cfg.window, Closed(aborted)))
    case Http(a, now, action) =>
      if action.Waf? || action.Rate? || action.NotFound? || action.Nothing?
      then s.(table := Touch(s.table, a, now, cfg.window, action))
      else s
    case Gc(now) =>
      s.(table := s.table.(tracks := DropQuiet(s.table.tracks, now - 2 * cfg.window)))
  }

  function Run(cfg: Config, s: State, es: seq<Event>): State
    decreases |es|
  {
    if es == [] then s else Run(cfg, Step(cfg, s, es[0]), es[1..])
  }

  /** The open connections of `a`, those inside ConnOpened included. */
  function OpenSet(s: State, a: Addr): set<nat> {
    OpenIn(s.conns, a)
  }

  function OpenIn(conns: map<nat, Conn>, a: Addr): set<nat> {
    set id | id in conns && conns[id].addr == a
  }

  // ---- the gauge ----

  ghost predicate Fresh(s: State) {
    forall id :: id in s.conns ==> id < s.next
  }

  ghost predicate GaugeBounded(s: State) {
    Fresh(s) && forall a :: Gauge(s.table, a) <= |OpenSet(s, a)|
  }

  /** How an event moves one address's gauge, when it is remembered. */
  function Moved(g: nat, action: Action): nat {
    match action
    case Opened => g + 1
    case Release => Dec(g)
    case Closed(_) => Dec(g)
    case _ => g
  }

  lemma TouchGauge(s: Table, a: Addr, now: int, window: int, action: Action, b: Addr)
    ensures Gauge(Touch(s, a, now, window, action), b) ==
              (if a != b then Gauge(s, b)
               else if Remembered(s, a, now, window) then Moved(Gauge(s, a), action)
               else 0)
    ensures !Remembered(s, a, now, window) ==> Gauge(s, a) == 0
  {
  }

  /** An event of `a` drops another record only in a full shard, for an address
      that has none, at most once a second, and only if that record is quiet;
      otherwise it leaves it as it is. The collection drops exactly the quiet. */
  lemma OthersStay(cfg: Config, s: State, a: Addr, now: int, action: Action, b: Addr)
    requires b in s.table.tracks && b != a
    ensures var t, kept := s.table.tracks[b], Touch(s.table, a, now, cfg.window, action).tracks;
            && (b in kept ==> kept[b] == t)
            && (b !in kept <==> && a !in s.table.tracks && |s.table.tracks| >= 4096 && now - s.table.swept >= 1_000_000_000
                                && t.concurrent == 0 && t.lastSeen < now - 2 * cfg.window)
    ensures var t, kept := s.table.tracks[b], Step(cfg, s, Gc(now)).table.tracks;
            && (b in kept ==> kept[b] == t)
            && (b !in kept <==> t.concurrent == 0 && t.lastSeen < now - 2 * cfg.window)
  {
  }

  lemma Arrival(conns: map<nat, Conn>, id: nat, c: Conn, b: Addr)
    requires id !in conns
    ensures |OpenIn(conns[id := c], b)| == |OpenIn(conns, b)| + (if c.addr == b then 1 else 0)
  {
    var more := OpenIn(conns[id := c], b);
    assert more == if c.addr == b then OpenIn(conns, b) + {id} else OpenIn(conns, b);
  }

  lemma Departure(conns: map<nat, Conn>, id: nat, b: Addr)
    requires id in conns
    ensures |OpenIn(conns, b)| == |OpenIn(conns - {id}, b)| + (if conns[id].addr == b then 1 else 0)
  {
    var less := OpenIn(conns - {id}, b);
    assert OpenIn(conns, b) == if conns[id].addr == b then less + {id} else less;
  }

  lemma Promotion(conns: map<nat, Conn>, id: nat, b: Addr)
    requires id in conns
    ensures OpenIn(conns[id := Served(conns[id].addr)], b) == OpenIn(conns, b)
  {
  }

  /** One event, seen from address `b`: the gauge and the number of open
      connections. `Exact` events move the two alike. */
  predicate Exact(cfg: Config, s: State, e: Event, b: Addr) {
    match e
    case Open(a, now, safe, blocked) => a == b ==> !safe && Remembered(s.table, a, now, cfg.window)
    case Decide(id, now) => id in s.conns && s.conns[id].addr == b ==> Remembered(s.table, b, now, cfg.window)
    case Close(id, now, _, safe) => id in s.conns && s.conns[id].addr == b ==> !safe && Remembered(s.table, b, now, cfg.window)
    case _ => true
  }

  /** What an event keeps, seen from address `b`. */
  ghost predicate GaugeKept(s: State, t: State, exact: bool, b: Addr) {
    && Fresh(t)
    && (Gauge(s.table, b) <= |OpenSet(s, b)| ==> Gauge(t.table, b) <= |OpenSet(t, b)|)
    && (Gauge(s.table, b) == |OpenSet(s, b)| && exact ==> Gauge(t.table, b) == |OpenSet(t, b)|)
  }

  lemma OpenGauge(cfg: Config, s: State, a: Addr, now: int, safe: bool, blocked: bool, b: Addr)
    requires Fresh(s)
    ensures var e := Open(a, now, safe, blocked); GaugeKept(s, Step(cfg, s, e), Exact(cfg, s, e, b), b)
  {
    TouchGauge(s.table, a, now, cfg.window, Opened, b);
    Arrival(s.conns, s.next, if safe then Served(a) else Opening(a, Snapshot(s.table, a, now, cfg.window, Opened)), b);
  }

  lemma DecideGauge(cfg: Config, s: State, id: nat, now: int, b: Addr)
    requires Fresh(s)
    ensures var e := Decide(id, now); GaugeKept(s, Step(cfg, s, e), Exact(cfg, s, e, b), b)
  {
    if id in s.conns {
      TouchGauge(s.table, s.conns[id].addr, now, cfg.window, Release, b);
      Departure(s.conns, id, b);
      Promotion(s.conns, id, b);
    }
  }

  lemma CloseGauge(cfg: Config, s: State, id: nat, now: int, aborted: bool, safe: bool, b: Addr)
    requires Fresh(s)
    ensures var e := Close(id, now, aborted, safe); GaugeKept(s, Step(cfg, s, e), Exact(cfg, s, e, b), b)
  {
    if id in s.conns {
      TouchGauge(s.table, s.conns[id].addr, now, cfg.window, Closed(aborted), b);
      Departure(s.conns, id, b);
    }
  }

  lemma QuietGauge(cfg: Config, s: State, a: Addr, now: int, action: Action, b: Addr)
    requires Fresh(s)
    ensures GaugeKept(s, Step(cfg, s, Http(a, now, action)), true, b) && GaugeKept(s, Step(cfg, s, Gc(now)), true, b)
  {
    TouchGauge(s.table, a, now, cfg.window, action, b);
  }

  lemma StepGauge(cfg: Config, s: State, e: Event, b: Addr)
    requires Fresh(s)
    ensures GaugeKept(s, Step(cfg, s, e), Exact(cfg, s, e, b), b) == true
  {
    match e
    case Open(a, now, safe, blocked) => OpenGauge(cfg, s, a, now, safe, blocked, b);
    case Decide(id, now) => DecideGauge(cfg, s, id, now, b);
    case Close(id, now, aborted, safe) => CloseGauge(cfg, s, id, now, aborted, safe, b);
    case Http(a, now, action) => QuietGauge(cfg, s, a, now, action, b);
    case Gc(now) => QuietGauge(cfg, s, 0, now, Nothing, b);
  }

  /** In every run the gauge never counts a connection that is not open. */
  lemma {:induction false} GaugeNeverExceedsOpen(cfg: Config, s: State, es: seq<Event>)
    requires GaugeBounded(s)
    ensures GaugeBounded(Run(cfg, s, es))
    decreases |es|
  {
    if es != [] {
      var s' := Step(cfg, s, es[0]);
      StepGauge(cfg, s, es[0], 0);
      forall b ensures Gauge(s'.table, b) <= |OpenSet(s', b)| {
        StepGauge(cfg, s, es[0], b);
      }
      GaugeNeverExceedsOpen(cfg, s', es[1..]);
    }
  }

  predicate ExactRun(cfg: Config, s: State, es: seq<Event>, b: Addr)
    decreases |es|
  {
    es == [] || (Exact(cfg, s, es[0], b) && ExactRun(cfg, Step(cfg, s, es[0]), es[1..], b))
  }

  /** For an address that is never safe and whose events are all remembered it
      is exactly the number of open connections. */
  lemma {:induction false} GaugeEqualsOpen(cfg: Config, s: State, es: seq<Event>, b: Addr)
    requires Fresh(s) && Gauge(s.table, b) == |OpenSet(s, b)| && ExactRun(cfg, s, es, b)
    ensures Gauge(Run(cfg, s, es).table, b) == |OpenSet(Run(cfg, s, es), b)|
    decreases |es|
  {
    if es != [] {
      StepGauge(cfg, s, es[0], b);
      GaugeEqualsOpen(cfg, Step(cfg, s, es[0]), es[1..], b);
    }
  }

  /** So a connection count, once the address goes quiet with nothing open, does
      not keep its record alive: the sweep reclaims it. */
  lemma IdleAddressIsReclaimed(cfg: Config, es: seq<Event>, b: Addr, now: int)
    requires OpenSet(Run(cfg, Init, es), b) == {}
    requires b in Run(cfg, Init, es).table.tracks ==>
               Run(cfg, Init, es).table.tracks[b].lastSeen < now - 2 * cfg.window
    ensures b !in Step(cfg, Run(cfg, Init, es), Gc(now)).table.tracks
  {
    assert GaugeBounded(Init) by {
      assert forall a :: OpenSet(Init, a) == {};
    }
    GaugeNeverExceedsOpen(cfg, Init, es);
    assert |OpenSet(Run(cfg, Init, es), b)| == 0;
    assert Gauge(Run(cfg, Init, es).table, b) == 0;
  }

  /** The table never outgrows its limit, whatever the flood. */
  lemma {:induction false} TableStaysBounded(cfg: Config, s: State, es: seq<Event>)
    requires |s.table.tracks| <= 4096
    ensures |Run(cfg, s, es).table.tracks| <= 4096
    decreases |es|
  {
    if es != [] {
      StepKeepsTableBounded(cfg, s, es[0]);
      TableStaysBounded(cfg, Step(cfg, s, es[0]), es[1..]);
    }
  }

  lemma Fewer(small: map<Addr, Track>, big: map<Addr, Track>)
    requires small.Keys <= big.Keys
    ensures |small| <= |big|
  {
    SubsetSize(small.Keys, big.Keys);
  }

  lemma {:induction false} SubsetSize(x: set<Addr>, y: set<Addr>)
    requires x <= y
    ensures |x| <= |y|
    decreases x
  {
    if x != {} {
      var a :| a in x;
      SubsetSize(x - {a}, y - {a});
    }
  }

  lemma TouchKeepsTableBounded(s: Table, a: Addr, now: int, window: int, action: Action)
    requires |s.tracks| <= MAX_TRACKS_PER_SHARD
    ensures |Touch(s, a, now, window, action).tracks| <= MAX_TRACKS_PER_SHARD
  {
    var s' := Swept(s, a, now, window);
    Fewer(s'.tracks, s.tracks);
    var t := s'.tracks[a := Snapshot(s, a, now, window, action)];
    assert a in s'.tracks ==> t.Keys == s'.tracks.Keys;
    assert t.Keys == s'.tracks.Keys + {a};
  }

  lemma StepKeepsTableBounded(cfg: Config, s: State, e: Event)
    requires |s.table.tracks| <= MAX_TRACKS_PER_SHARD
    ensures |Step(cfg, s, e).table.tracks| <= MAX_TRACKS_PER_SHARD
  {
    match e
    case Open(a, now, safe, blocked) => TouchKeepsTableBounded(s.table, a, now, cfg.window, Opened);
    case Decide(id, now) =>
      if id in s.conns { TouchKeepsTableBounded(s.table, s.conns[id].addr, now, cfg.window, Release); }
    case Close(id, now, aborted, safe) =>
      if id in s.conns {
        var a := s.conns[id].addr;
        TouchKeepsTableBounded(s.table, a, now, cfg.window, Closed(aborted));
        assert ReleaseIn(s.table, a).tracks.Keys == s.table.tracks.Keys;
        Fewer(ReleaseIn(s.table, a).tracks, s.table.tracks);
      }
    case Http(a, now, action) => TouchKeepsTableBounded(s.table, a, now, cfg.window, action);
    case Gc(now) => Fewer(DropQuiet(s.table.tracks, now - 2 * cfg.window), s.table.tracks);
  }
}
