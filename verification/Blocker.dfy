/**
 The block list of internal/autoblock: `blocked` is the authority, `vshards` the
 enforced subset read by `Blocked` on every accepted connection, `blockedN` its
 size. Every writer below keeps the view equal to the authority.
 */
module BlockList {
  import opened Options
  import opened Addresses
  import opened Firewall
  import Escalation

  datatype Entry = Entry(level: nat, blockedAt: int, expiresAt: Option<int>, firewall: bool, dryRun: bool)

  predicate Expired(e: Entry, now: int) {
    e.expiresAt.Some? && now > e.expiresAt.value
  }

  /** One never-block prefix, as the addresses it covers. */
  datatype Prefix = Prefix(lo: Addr, hi: Addr)

  predicate SafeIn(nets: seq<Prefix>, a: Addr) {
    exists p :: p in nets && p.lo <= a <= p.hi
  }

  /** An IPv4 range, as the sixteen-byte addresses it covers. */
  function V4(lo: nat, hi: nat): Prefix {
    Prefix(0xFFFF_0000_0000 + lo, 0xFFFF_0000_0000 + hi)
  }

  const TOP16: nat := 0x1_0000_0000_0000_0000_0000_0000_0000

  /** defaultSafeNets: never blockable, whatever the configuration. */
  function DefaultSafeNets(): seq<Prefix> {
    [V4(0x7F00_0000, 0x7FFF_FFFF), Prefix(1, 1),
     V4(0x0A00_0000, 0x0AFF_FFFF), V4(0xAC10_0000, 0xAC1F_FFFF), V4(0xC0A8_0000, 0xC0A8_FFFF),
     V4(0xA9FE_0000, 0xA9FE_FFFF), Prefix(0xFE80 * TOP16, 0xFEC0 * TOP16 - 1), Prefix(0xFC00 * TOP16, 0xFE00 * TOP16 - 1),
     V4(0, 0), Prefix(0, 0)]
  }

  lemma DefaultsSpelledOut(x: Addr)
    ensures SafeIn(DefaultSafeNets(), x) <==>
            exists i :: 0 <= i < 10 && DefaultSafeNets()[i].lo <= x <= DefaultSafeNets()[i].hi
  {
    var nets := DefaultSafeNets();
    if SafeIn(nets, x) {
      var p :| p in nets && p.lo <= x <= p.hi;
      var i :| 0 <= i < |nets| && nets[i] == p;
    }
    if i :| 0 <= i < 10 && nets[i].lo <= x <= nets[i].hi {
      assert nets[i] in nets;
    }
  }

  lemma DefaultsAsNumbers(v: nat)
    requires v < 0x1_0000_0000
    ensures SafeIn(DefaultSafeNets(), 0xFFFF_0000_0000 + v) <==>
            || 0x7F00_0000 <= v <= 0x7FFF_FFFF || 0x0A00_0000 <= v <= 0x0AFF_FFFF || 0xAC10_0000 <= v <= 0xAC1F_FFFF
            || 0xC0A8_0000 <= v <= 0xC0A8_FFFF || 0xA9FE_0000 <= v <= 0xA9FE_FFFF || v == 0
  {
    var nets := DefaultSafeNets();
    DefaultsSpelledOut(0xFFFF_0000_0000 + v);
    assert nets[0] == V4(0x7F00_0000, 0x7FFF_FFFF) && nets[2] == V4(0x0A00_0000, 0x0AFF_FFFF);
    assert nets[3] == V4(0xAC10_0000, 0xAC1F_FFFF) && nets[4] == V4(0xC0A8_0000, 0xC0A8_FFFF);
    assert nets[5] == V4(0xA9FE_0000, 0xA9FE_FFFF) && nets[8] == V4(0, 0);
  }

  /** The number of a dotted address. */
  function Dotted(a: nat, b: nat, c: nat, d: nat): nat {
    a * 0x100_0000 + b * 0x1_0000 + c * 0x100 + d
  }

  lemma OctetRange(a: nat, b: nat, c: nat, d: nat, x: nat, y: nat, z: nat)
    requires a < 256 && b < 256 && c < 256 && d < 256 && x < 256 && y <= z < 256
    ensures x * 0x100_0000 + y * 0x1_0000 <= Dotted(a, b, c, d) < x * 0x100_0000 + (z + 1) * 0x1_0000 <==> a == x && y <= b <= z
  {
  }

  /** The always-safe IPv4 addresses: 127/8, 10/8, 172.16/12, 192.168/16, 169.254/16 and 0.0.0.0. */
  lemma DefaultsByOctet(a: nat, b: nat, c: nat, d: nat)
    requires a < 256 && b < 256 && c < 256 && d < 256
    ensures SafeIn(DefaultSafeNets(), 0xFFFF_0000_0000 + Dotted(a, b, c, d)) <==>
            || a == 127 || a == 10 || (a == 172 && 16 <= b < 32) || (a == 192 && b == 168)
            || (a == 169 && b == 254) || (a == 0 && b == 0 && c == 0 && d == 0)
  {
    DefaultsAsNumbers(Dotted(a, b, c, d));
    OctetRange(a, b, c, d, 127, 0, 255);
    OctetRange(a, b, c, d, 10, 0, 255);
    OctetRange(a, b, c, d, 172, 16, 31);
    OctetRange(a, b, c, d, 192, 168, 168);
    OctetRange(a, b, c, d, 169, 254, 254);
  }

  /** The always-safe IPv6 addresses, by their first sixteen bits: link-local, unique local, and ::1 and :: */
  lemma DefaultsBySixteenBits(top: nat, rest: nat)
    requires top < 0x1_0000 && rest < TOP16
    ensures top > 0 ==> (SafeIn(DefaultSafeNets(), top * TOP16 + rest) <==> 0xFE80 <= top < 0xFEC0 || 0xFC00 <= top < 0xFE00)
    ensures top == 0 && rest < 0xFFFF_0000_0000 ==> (SafeIn(DefaultSafeNets(), rest) <==> rest <= 1)
  {
    DefaultsSpelledOut(top * TOP16 + rest);
    DefaultsSpelledOut(rest);
    var nets := DefaultSafeNets();
    assert nets[1] == Prefix(1, 1) && nets[9] == Prefix(0, 0);
    assert nets[6] == Prefix(0xFE80 * TOP16, 0xFEC0 * TOP16 - 1) && nets[7] == Prefix(0xFC00 * TOP16, 0xFE00 * TOP16 - 1);
  }

  /** The queue and the parked removals after queueRemove on each address in turn. */
  function QueuedAll(queue: seq<Op>, pending: set<Addr>, lifted: seq<Addr>): (r: (seq<Op>, set<Addr>)) {
    if lifted == [] then (queue, pending)
    else
      var (q, p) := QueuedAll(queue, pending, lifted[..|lifted| - 1]);
      var a := lifted[|lifted| - 1];
      (Offer(q, Remove(a)), if Room(q) then p else p + {a})
  }

  /** No lifted block is forgotten: its removal is queued or parked, and nothing else is. */
  lemma {:induction false} QueuedAllKeeps(queue: seq<Op>, pending: set<Addr>, lifted: seq<Addr>)
    ensures var (q, p) := QueuedAll(queue, pending, lifted);
            && queue <= q && pending <= p && p <= pending + (set a | a in lifted)
            && (forall a :: a in lifted ==> Remove(a) in q[|queue|..] || a in p)
            && (forall op :: op in q[|queue|..] ==> op.Remove? && op.ip in lifted)
  {
    if lifted != [] {
      var front, a := lifted[..|lifted| - 1], lifted[|lifted| - 1];
      QueuedAllKeeps(queue, pending, front);
      assert lifted == front + [a];
      var (q, p) := QueuedAll(queue, pending, front);
      assert Room(q) ==> (q + [Remove(a)])[|queue|..] == q[|queue|..] + [Remove(a)];
    }
  }

  /** A stored block that a restart does not bring back. */
  predicate Dropped(e: Entry, now: int, isSafe: bool) {
    Expired(e, now) || isSafe
  }

  /** ... and whose kernel rule nothing else knows about any more. */
  predicate LeavesRule(e: Entry, now: int, isSafe: bool) {
    Dropped(e, now, isSafe) && e.firewall && !e.dryRun
  }

  function EnforcedIn(blocked: map<Addr, Entry>): set<Addr> {
    set a | a in blocked && !blocked[a].dryRun
  }

  function Shard(view: set<Addr>, i: nat): set<Addr> {
    set a | a in view && ShardOf(a) == i
  }

  lemma RetriedAreQueued(before: seq<Op>, after: seq<Op>, sent: seq<Addr>)
    requires after == before + seq(|sent|, i requires 0 <= i < |sent| => Remove(sent[i]))
    ensures before <= after
    ensures forall op :: op in before ==> op in after
    ensures forall a :: a in sent ==> Remove(a) in after
  {
    forall a | a in sent ensures Remove(a) in after {
      var i :| 0 <= i < |sent| && sent[i] == a;
      assert after[|before| + i] == Remove(a);
    }
  }

  class Blocker {
    const enabled: bool
    const dryRun: bool
    var blocked: map<Addr, Entry>
    const vshards: array<set<Addr>>
    var blockedN: int
    var history: map<Addr, nat>
    var nets: seq<Prefix>     // safeNets
    var fwQueue: seq<Op>
    var fwPending: set<Addr>

    /** The shards hold exactly `view`, each address in its own. */
    ghost predicate ShardsHold(view: set<Addr>)
      reads vshards
    {
      && vshards.Length == SHARD_COUNT
      && forall i :: 0 <= i < SHARD_COUNT ==> vshards[i] == Shard(view, i)
    }

    ghost predicate Mirrors(view: set<Addr>)
      reads this, vshards
    {
      ShardsHold(view) && blockedN == |view|
    }

    ghost predicate Valid()
      reads this, vshards
    {
      Mirrors(EnforcedIn(blocked))
    }

    constructor (enabled: bool, dryRun: bool, nets: seq<Prefix>)
      ensures Valid() && fresh(vshards)
      ensures blocked == map[] && history == map[] && fwQueue == [] && fwPending == {}
      ensures this.enabled == enabled && this.dryRun == dryRun && this.nets == DefaultSafeNets() + nets
    {
      this.enabled, this.dryRun, this.nets := enabled, dryRun, DefaultSafeNets() + nets;
      vshards := new set<Addr>[SHARD_COUNT](_ => {});
      blocked, history, fwQueue, fwPending, blockedN := map[], map[], [], {}, 0;
    }

    method ViewAdd(a: Addr, ghost view: set<Addr>)
      requires Mirrors(view)
      modifies this`blockedN, vshards
      ensures Mirrors(view + {a})
    {
      var i := ShardIndex(a);
      if a !in vshards[i] {
        vshards[i] := vshards[i] + {a};
        blockedN := blockedN + 1;
      } else {
        assert view + {a} == view;
      }
    }

    method ViewDel(a: Addr, ghost view: set<Addr>)
      requires Mirrors(view)
      modifies this`blockedN, vshards
      ensures Mirrors(view - {a})
    {
      var i := ShardIndex(a);
      if a in vshards[i] {
        vshards[i] := vshards[i] - {a};
        blockedN := blockedN - 1;
      } else {
        assert view - {a} == view;
      }
    }

    method Safe(a: Addr) returns (r: bool)
      ensures r <==> SafeIn(nets, a)
      ensures r <==> exists i :: 0 <= i < |nets| && nets[i].lo <= a <= nets[i].hi
    {
      for i := 0 to |nets|
        invariant forall j :: 0 <= j < i ==> !(nets[j].lo <= a <= nets[j].hi)
      {
        if nets[i].lo <= a <= nets[i].hi { return true; }
      }
      return false;
    }

    /** The accept-path check: the same answer as a look-up in the authority,
        safe addresses apart, also through the zero-count shortcut. */
    method Blocked(a: Addr) returns (r: bool)
      requires Valid()
      ensures r <==> enabled && !SafeIn(nets, a) && a in blocked && !blocked[a].dryRun
    {
      if !enabled { return false; }
      if blockedN == 0 {
        assert a !in EnforcedIn(blocked);
        return false;
      }
      var isSafe := Safe(a);
      if isSafe { return false; }
      var i := ShardIndex(a);
      r := a in vshards[i];
      assert r <==> a in EnforcedIn(blocked);
    }

    method ClearShards()
      requires vshards.Length == SHARD_COUNT
      modifies vshards
      ensures ShardsHold({})
    {
      var i := 0;
      while i < vshards.Length
        invariant 0 <= i <= vshards.Length
        invariant forall j :: 0 <= j < i ==> vshards[j] == {}
      {
        vshards[i] := {};
        i := i + 1;
      }
    }

    method PutShard(a: Addr, ghost view: set<Addr>)
      requires ShardsHold(view)
      modifies vshards
      ensures ShardsHold(view + {a})
    {
      var i := ShardIndex(a);
      vshards[i] := vshards[i] + {a};
    }

    /** Rebuilds the view in full. */
    method Publish()
      requires vshards.Length == SHARD_COUNT
      modifies this`blockedN, vshards
      ensures Valid()
    {
      ClearShards();
      var n := 0;
      var todo := blocked.Keys;
      ghost var view: set<Addr> := {};
      while todo != {}
        invariant todo <= blocked.Keys
        invariant view == set a | a in blocked && !blocked[a].dryRun && a !in todo
        invariant ShardsHold(view)
        invariant n == |view|
        decreases |todo|
      {
        var a :| a in todo;
        todo := todo - {a};
        if !blocked[a].dryRun {
          PutShard(a, view);
          view := view + {a};
          n := n + 1;
        }
      }
      blockedN := n;
      assert view == EnforcedIn(blocked);
    }

    // ---- writers ----

    /** trimHistory forgets only addresses that are not blocked, and stops as
        soon as a tenth of the limit is free. */
    method TrimHistory(maxHistory: nat)
      modifies this`history
      ensures |old(history)| <= maxHistory ==> history == old(history)
      ensures history.Keys <= old(history).Keys
      ensures forall a :: a in history ==> history[a] == old(history)[a]
      ensures forall a :: a in old(history) && a in blocked ==> a in history
      ensures |old(history)| > maxHistory ==>
                |history| == maxHistory - maxHistory / 10 ||
                (|history| > maxHistory - maxHistory / 10 && history.Keys <= blocked.Keys)
    {
      if |history| <= maxHistory { return; }
      var target := maxHistory - maxHistory / 10;
      var todo := history.Keys;
      while todo != {}
        invariant todo <= history.Keys <= old(history).Keys
        invariant forall a :: a in history ==> history[a] == old(history)[a]
        invariant forall a :: a in old(history) && a in blocked ==> a in history
        invariant forall a :: a in history && a !in todo ==> a in blocked
        invariant |history| >= target
        decreases |todo|
      {
        if |history| <= target { return; }
        var a :| a in todo;
        todo := todo - {a};
        if a !in blocked {
          assert (history - {a}).Keys == history.Keys - {a};
          history := history - {a};
        }
      }
    }

    /** The locked half of apply and Block. */
    method Install(a: Addr, e: Entry, maxHistory: nat)
      requires Valid()
      modifies this`blocked, this`history, this`blockedN, vshards
      ensures Valid()
      ensures blocked == old(blocked)[a := e]
      ensures a in history && history[a] == e.level
    {
      ghost var view := EnforcedIn(blocked);
      blocked := blocked[a := e];
      history := history[a := e.level];
      TrimHistory(maxHistory);
      if e.dryRun {
        ViewDel(a, view);
        assert view - {a} == EnforcedIn(blocked);
      } else {
        ViewAdd(a, view);
        assert view + {a} == EnforcedIn(blocked);
      }
    }

    method QueueAdd(a: Addr, sync: bool)
      modifies this`fwQueue
      ensures fwQueue == if sync then Offer(old(fwQueue), Add(a)) else old(fwQueue)
    {
      if sync && |fwQueue| < QUEUE_CAP {
        fwQueue := fwQueue + [Add(a)];
      }
    }

    /** apply: an automatic block, or only a record of it in dry run. */
    method Apply(a: Addr, level: nat, now: int, dur: int, maxHistory: nat, sync: bool)
      requires Valid()
      modifies this`blocked, this`history, this`blockedN, this`fwQueue, vshards
      ensures Valid()
      ensures blocked == old(blocked)[a := Entry(level, now, Some(now + dur), false, dryRun)]
      ensures fwQueue == if !dryRun && sync then Offer(old(fwQueue), Add(a)) else old(fwQueue)
      ensures a in history && history[a] == level
    {
      Install(a, Entry(level, now, Some(now + dur), false, dryRun), maxHistory);
      if !dryRun {
        QueueAdd(a, sync);
      }
    }

    /** trip: an address with a block that has not lapsed is left alone; any
        other is blocked one level above the remembered one, for the duration
        of that level. */
    method Trip(a: Addr, now: int, escalate: bool, base: int, max: int, maxHistory: nat, sync: bool) returns (tripped: bool)
      requires Valid() && 0 < base <= max < Escalation.TWO63
      modifies this`blocked, this`history, this`blockedN, this`fwQueue, vshards
      ensures Valid()
      ensures tripped <==>
                !(a in old(blocked) && (old(blocked)[a].expiresAt.None? || now <= old(blocked)[a].expiresAt.value))
      ensures !tripped ==> blocked == old(blocked) && history == old(history) && fwQueue == old(fwQueue)
      ensures tripped ==>
                var level := if a in old(history) then old(history)[a] + 1 else 1;
                var dur := if !escalate || level <= 1 then base else Escalation.Loop(base, max, level - 1);
                && blocked == old(blocked)[a := Entry(level, now, Some(now + dur), false, dryRun)]
                && a in history && history[a] == level
                && fwQueue == (if !dryRun && sync then Offer(old(fwQueue), Add(a)) else old(fwQueue))
    {
      if a in blocked && !Expired(blocked[a], now) {
        return false;
      }
      var level := if a in history then history[a] + 1 else 1;
      var dur := Escalation.Escalated(escalate, base, max, level);
      Apply(a, level, now, dur, maxHistory, sync);
      return true;
    }

    /** Block: refused for a safe address; enforced even in dry run; permanent
        for a negative duration; one level above the remembered one. */
    method BlockManual(a: Addr, now: int, dur: int, baseDur: int, maxHistory: nat, sync: bool) returns (ok: bool)
      requires Valid()
      modifies this`blocked, this`history, this`blockedN, this`fwQueue, vshards
      ensures Valid()
      ensures ok <==> !SafeIn(nets, a)
      ensures !ok ==> blocked == old(blocked) && fwQueue == old(fwQueue) && history == old(history)
      ensures ok ==>
                var d := if dur == 0 then baseDur else dur;
                var level := if a in old(history) then old(history)[a] + 1 else 1;
                && blocked == old(blocked)[a := Entry(level, now, if d > 0 then Some(now + d) else None, false, false)]
                && fwQueue == (if sync then Offer(old(fwQueue), Add(a)) else old(fwQueue))
                && a in history && history[a] == level
    {
      var isSafe := Safe(a);
      if isSafe { return false; }
      var d := if dur == 0 then baseDur else dur;
      var level := if a in history then history[a] + 1 else 1;
      Install(a, Entry(level, now, if d > 0 then Some(now + d) else None, false, false), maxHistory);
      QueueAdd(a, sync);
      return true;
    }

    /** queueRemove: a removal that finds the queue full is parked. */
    method QueueRemove(a: Addr)
      modifies this`fwQueue, this`fwPending
      ensures fwQueue == Offer(old(fwQueue), Remove(a))
      ensures fwPending == if Room(old(fwQueue)) then old(fwPending) else old(fwPending) + {a}
      ensures if |old(fwQueue)| < 1024 then fwQueue == old(fwQueue) + [Remove(a)] && fwPending == old(fwPending)
              else fwQueue == old(fwQueue) && fwPending == old(fwPending) + {a}
    {
      if |fwQueue| < QUEUE_CAP {
        fwQueue := fwQueue + [Remove(a)];
      } else {
        fwPending := fwPending + {a};
      }
    }

    method Unblock(a: Addr) returns (existed: bool)
      requires Valid()
      modifies this, vshards
      ensures Valid() && nets == old(nets)
      ensures existed <==> a in old(blocked)
      ensures blocked == old(blocked) - {a} && history == old(history) - {a}
      ensures fwQueue == if existed then Offer(old(fwQueue), Remove(a)) else old(fwQueue)
      ensures fwPending == if existed && !Room(old(fwQueue)) then old(fwPending) + {a} else old(fwPending)
    {
      existed := a in blocked;
      ghost var view := EnforcedIn(blocked);
      blocked := blocked - {a};
      history := history - {a};
      ViewDel(a, view);
      assert view - {a} == EnforcedIn(blocked);
      if existed {
        QueueRemove(a);
      }
    }

    /** The locked half of expire: lifts exactly the blocks whose term is up. */
    method LiftExpired(now: int) returns (lifted: seq<Addr>)
      requires Valid()
      modifies this`blocked, this`blockedN, vshards
      ensures Valid()
      ensures blocked == map a | a in old(blocked) && !Expired(old(blocked)[a], now) :: old(blocked)[a]
      ensures forall a :: a in lifted <==> a in old(blocked) && Expired(old(blocked)[a], now)
    {
      lifted := [];
      var todo := blocked.Keys;
      while todo != {}
        invariant Valid()
        invariant todo <= blocked.Keys
        invariant forall a :: a in blocked ==> a in old(blocked) && blocked[a] == old(blocked)[a]
        invariant forall a :: a in old(blocked) && a !in blocked ==> Expired(old(blocked)[a], now)
        invariant forall a :: a in blocked && a !in todo ==> !Expired(blocked[a], now)
        invariant forall a :: a in lifted <==> a in old(blocked) && a !in blocked
        decreases |todo|
      {
        var a :| a in todo;
        todo := todo - {a};
        if Expired(blocked[a], now) {
          Lift(a);
          lifted := lifted + [a];
        }
      }
    }

    method QueueRemoves(lifted: seq<Addr>)
      modifies this`fwQueue, this`fwPending
      ensures (fwQueue, fwPending) == QueuedAll(old(fwQueue), old(fwPending), lifted)
    {
      var i := 0;
      while i < |lifted|
        invariant 0 <= i <= |lifted|
        invariant (fwQueue, fwPending) == QueuedAll(old(fwQueue), old(fwPending), lifted[..i])
      {
        assert lifted[..i + 1][..i] == lifted[..i];
        QueueRemove(lifted[i]);
        i := i + 1;
      }
      assert lifted[..i] == lifted;
    }

    /** expire: lifts exactly the lapsed blocks, queues or parks the removal of
        each, and then retries what is parked. */
    method Expire(now: int) returns (lifted: seq<Addr>)
      requires Valid()
      modifies this`blocked, this`blockedN, this`fwQueue, this`fwPending, vshards
      ensures Valid()
      ensures blocked == map a | a in old(blocked) && !Expired(old(blocked)[a], now) :: old(blocked)[a]
      ensures forall a :: a in lifted <==> a in old(blocked) && Expired(old(blocked)[a], now)
      ensures forall a :: a in blocked <==> a in old(blocked) &&
                                            (old(blocked)[a].expiresAt.None? || now <= old(blocked)[a].expiresAt.value)
      ensures old(fwQueue) <= fwQueue
      ensures forall a :: a in lifted ==> Remove(a) in fwQueue || a in fwPending
      ensures forall a :: a in old(fwPending) ==> Remove(a) in fwQueue || a in fwPending || a in EnforcedIn(blocked)
      ensures fwPending <= old(fwPending) + (set a | a in lifted)
      ensures fwPending != {} ==> !Room(fwQueue)
    {
      lifted := LiftExpired(now);
      QueuedAllKeeps(fwQueue, fwPending, lifted);
      QueueRemoves(lifted);
      ghost var queue := fwQueue;
      var sent := RetryPendingRemoves();
      RetriedAreQueued(queue, fwQueue, sent);
    }

    /** SetWhitelist: the always-safe ranges stay; no safe address stays blocked,
        and the removal of each block lifted is queued or parked. */
    method SetWhitelist(prefixes: seq<Prefix>) returns (lifted: seq<Addr>)
      requires Valid()
      modifies this`nets, this`blocked, this`history, this`blockedN, this`fwQueue, this`fwPending, vshards
      ensures Valid() && nets == DefaultSafeNets() + prefixes
      ensures forall a: Addr :: SafeIn(DefaultSafeNets(), a) ==> a !in blocked
      ensures forall a :: a in blocked <==> a in old(blocked) && !SafeIn(nets, a)
      ensures forall a :: a in blocked ==> blocked[a] == old(blocked)[a]
      ensures history == old(history) - (set a | a in lifted)
      ensures forall a :: a in lifted <==> a in old(blocked) && SafeIn(nets, a)
      ensures (fwQueue, fwPending) == QueuedAll(old(fwQueue), old(fwPending), lifted)
      ensures forall a :: a in lifted ==> Remove(a) in fwQueue || a in fwPending
    {
      nets := DefaultSafeNets() + prefixes;
      lifted := LiftSafeBlocks();
      QueuedAllKeeps(fwQueue, fwPending, lifted);
      QueueRemoves(lifted);
      forall a: Addr | SafeIn(DefaultSafeNets(), a) ensures SafeIn(nets, a) {
        var p :| p in DefaultSafeNets() && p.lo <= a <= p.hi;
        assert p in nets;
      }
    }

    /** The locked half of liftSafeBlocks. */
    method LiftSafeBlocks() returns (lifted: seq<Addr>)
      requires Valid()
      modifies this`blocked, this`history, this`blockedN, vshards
      ensures Valid()
      ensures forall a :: a in blocked <==> a in old(blocked) && !SafeIn(nets, a)
      ensures forall a :: a in blocked ==> blocked[a] == old(blocked)[a]
      ensures history == old(history) - (set a | a in lifted)
      ensures forall a :: a in lifted <==> a in old(blocked) && SafeIn(nets, a)
    {
      lifted := [];
      var todo := blocked.Keys;
      while todo != {}
        invariant Valid()
        invariant todo <= blocked.Keys <= old(blocked).Keys
        invariant forall a :: a in blocked ==> blocked[a] == old(blocked)[a]
        invariant forall a :: a in blocked && a !in todo ==> !SafeIn(nets, a)
        invariant forall a :: a in lifted <==> a in old(blocked) && a !in blocked
        invariant forall a :: a in lifted ==> SafeIn(nets, a)
        invariant history == old(history) - (set a | a in lifted)
        decreases |todo|
      {
        var a :| a in todo;
        todo := todo - {a};
        var isSafe := Safe(a);
        if isSafe {
          lifted := lifted + [a];
          LiftAndForget(a);
        }
      }
    }

    method LiftAndForget(a: Addr)
      requires Valid()
      modifies this`blocked, this`history, this`blockedN, vshards
      ensures Valid() && blocked == old(blocked) - {a} && history == old(history) - {a}
    {
      Lift(a);
      history := history - {a};
    }

    method Lift(a: Addr)
      requires Valid()
      modifies this`blocked, this`blockedN, vshards
      ensures Valid() && blocked == old(blocked) - {a}
    {
      ghost var view := EnforcedIn(blocked);
      blocked := blocked - {a};
      ViewDel(a, view);
      assert view - {a} == EnforcedIn(blocked);
    }

    /** retryPendingRemoves: a parked removal is queued, forgotten because its
        address is blocked again, or kept because the queue is full. */
    method RetryPendingRemoves() returns (ghost sent: seq<Addr>)
      modifies this`fwQueue, this`fwPending
      ensures fwQueue == old(fwQueue) + seq(|sent|, i requires 0 <= i < |sent| => Remove(sent[i]))
      ensures forall a :: a in sent ==> a in old(fwPending) && a !in EnforcedIn(blocked) && a !in fwPending
      ensures forall a :: a in old(fwPending) && a !in fwPending ==> a in sent || a in EnforcedIn(blocked)
      ensures fwPending <= old(fwPending)
      ensures fwPending != {} ==> !Room(fwQueue)
    {
      sent := [];
      var todo := fwPending;
      while todo != {}
        invariant todo <= fwPending <= old(fwPending)
        invariant fwPending == todo
        invariant fwQueue == old(fwQueue) + seq(|sent|, i requires 0 <= i < |sent| => Remove(sent[i]))
        invariant forall a :: a in sent ==> a in old(fwPending) && a !in EnforcedIn(blocked) && a !in fwPending
        invariant forall a :: a in old(fwPending) && a !in fwPending ==> a in sent || a in EnforcedIn(blocked)
        decreases |todo|
      {
        var a :| a in todo;
        todo := todo - {a};
        if a in blocked && !blocked[a].dryRun {
          fwPending := fwPending - {a};
        } else if |fwQueue| < QUEUE_CAP {
          fwQueue := fwQueue + [Remove(a)];
          sent := sent + [a];
          fwPending := fwPending - {a};
        } else {
          return;
        }
      }
    }

    /** Which stored blocks come back, and which leave a rule behind. */
    method SplitStored(stored: map<Addr, Entry>, now: int) returns (keep: map<Addr, Entry>, park: set<Addr>)
      ensures forall a :: a in keep <==> a in stored && !Dropped(stored[a], now, SafeIn(nets, a))
      ensures forall a :: a in keep ==> keep[a] == stored[a]
      ensures park == set a | a in stored && LeavesRule(stored[a], now, SafeIn(nets, a))
    {
      keep, park := map[], {};
      var todo := stored.Keys;
      while todo != {}
        invariant todo <= stored.Keys
        invariant forall a :: a in keep <==> a in stored && a !in todo && !Dropped(stored[a], now, SafeIn(nets, a))
        invariant forall a :: a in keep ==> keep[a] == stored[a]
        invariant park == set a | a in stored && a !in todo && LeavesRule(stored[a], now, SafeIn(nets, a))
        decreases |todo|
      {
        var a :| a in todo;
        todo := todo - {a};
        var isSafe := Safe(a);
        if Expired(stored[a], now) || isSafe {
          if stored[a].firewall && !stored[a].dryRun {
            park := park + {a};
          }
        } else {
          keep := keep[a := stored[a]];
        }
      }
    }

    /** The state part of load, into a fresh Blocker: blocks that lapsed or
        became safe are not restored, and the removal of their rule is parked. */
    method Restore(stored: map<Addr, Entry>, levels: map<Addr, nat>, now: int)
      requires vshards.Length == SHARD_COUNT && blocked == map[] && history == map[]
      modifies this, vshards
      ensures Valid() && nets == old(nets) && fwQueue == old(fwQueue)
      ensures forall a :: a in blocked <==> a in stored && !SafeIn(nets, a) &&
                                            (stored[a].expiresAt.None? || now <= stored[a].expiresAt.value)
      ensures forall a :: a in blocked ==> blocked[a] == stored[a]
      ensures forall a :: a in stored && a !in blocked && stored[a].firewall && !stored[a].dryRun ==> a in fwPending
      ensures history == levels
      ensures fwPending == old(fwPending) + set a | a in stored && LeavesRule(stored[a], now, SafeIn(nets, a))
    {
      var keep, park := SplitStored(stored, now);
      blocked, fwPending := keep, fwPending + park;
      history := levels;
      Publish();
    }
  }
}
