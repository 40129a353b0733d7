/** Port assignment of the app manager: registration, replacement at start, adoption at run time. */
module Ports {

  const MaxAttempts: nat := 1000
  const FirstPort: int := 3001

  /** One process record: its primary port and the further ports its app declares. */
  datatype Entry = Entry(name: string, port: int, extra: seq<int>)

  predicate Exposes(e: Entry, port: int) {
    port > 0 && (e.port == port || port in e.extra)
  }

  /**
   * `procs` maps an app to the identity of its record. A start that waits for
   * the lock may hold a record that has been replaced or removed meanwhile.
   */
  datatype Table = Table(procs: map<string, nat>, entries: map<nat, Entry>, nextPort: int)

  predicate Linked(t: Table) {
    forall n :: n in t.procs ==> t.procs[n] in t.entries && t.entries[t.procs[n]].name == n
  }

  function At(t: Table, name: string): Entry
    requires Linked(t) && name in t.procs
  {
    t.entries[t.procs[name]]
  }

  predicate Taken(t: Table, port: int)
    requires Linked(t)
  {
    exists n :: n in t.procs && Exposes(At(t, n), port)
  }

  predicate TakenByOther(t: Table, name: string, port: int)
    requires Linked(t)
  {
    exists n :: n in t.procs && n != name && Exposes(At(t, n), port)
  }

  // ---------- The scan ----------

  /** The first port from `port` on, within `n` attempts, that is neither taken nor bound. */
  function Scan(t: Table, free: int -> bool, port: int, n: nat): int
    requires Linked(t)
    decreases n
  {
    if n == 0 || (!Taken(t, port) && free(port)) then port else Scan(t, free, port + 1, n - 1)
  }

  /** No port the scan may look at can be used. */
  predicate Exhausted(t: Table, free: int -> bool)
    requires Linked(t)
  {
    forall p :: t.nextPort <= p < t.nextPort + 1000 ==> Taken(t, p) || !free(p)
  }

  function Allocated(t: Table, free: int -> bool): int
    requires Linked(t)
  {
    Scan(t, free, t.nextPort, MaxAttempts)
  }

  lemma {:induction false} ScanFinds(t: Table, free: int -> bool, port: int, n: nat)
    requires Linked(t)
    ensures var r := Scan(t, free, port, n);
            && port <= r <= port + n
            && (forall p :: port <= p < r ==> Taken(t, p) || !free(p))
            && (r < port + n ==> !Taken(t, r) && free(r))
    decreases n
  {
    if n > 0 && (Taken(t, port) || !free(port)) {
      ScanFinds(t, free, port + 1, n - 1);
    }
  }

  /** The scan finds the first usable port, or, exhausted, the untested one after its last attempt. */
  lemma AllocationIsFirstUsable(t: Table, free: int -> bool)
    requires Linked(t)
    ensures Exhausted(t, free) <==> Allocated(t, free) == t.nextPort + 1000
    ensures !Exhausted(t, free) ==>
              && t.nextPort <= Allocated(t, free)
              && !Taken(t, Allocated(t, free)) && free(Allocated(t, free))
              && forall p :: t.nextPort <= p < Allocated(t, free) ==> Taken(t, p) || !free(p)
  {
    ScanFinds(t, free, t.nextPort, MaxAttempts);
  }

  // ---------- Steps under the lock ----------

  function Assign(t: Table, id: nat, port: int): Table
    requires id in t.entries
  {
    t.(entries := t.entries[id := t.entries[id].(port := port)])
  }

  /** Registers an app under a fresh record, replacing an earlier one of that name. */
  function Registered(t: Table, id: nat, name: string, port: int, extra: seq<int>, free: int -> bool): Table
    requires Linked(t)
  {
    var rest := Without(t, name);
    if port <= 0 || TakenByOther(rest, name, port)
    then Placed(t, id, Entry(name, Allocated(rest, free), extra), Allocated(rest, free) + 1)
    else Placed(t, id, Entry(name, port, extra), t.nextPort)
  }

  /** The manager with `e` as the record of its app. */
  function Placed(t: Table, id: nat, e: Entry, nextPort: int): Table {
    Table(t.procs[e.name := id], t.entries[id := e], nextPort)
  }

  /** A start finds its port bound by someone else and takes a replacement; a failed save takes it back. */
  function Replaced(t: Table, id: nat, free: int -> bool, saved: bool): Table
    requires Linked(t) && id in t.entries
  {
    if t.entries[id].port <= 0 || free(t.entries[id].port) then t
    else
      var port := Allocated(t, free);
      var scanned := t.(nextPort := port + 1);
      if saved then Assign(scanned, id, port) else scanned
  }

  /** A child announced the port it listens on. */
  function Adopted(t: Table, id: nat, port: int, saved: bool): Table
    requires Linked(t) && id in t.entries
  {
    var name := t.entries[id].name;
    if name !in t.procs || t.procs[name] != id || t.entries[id].port == port
       || TakenByOther(t, name, port) || !saved
    then t
    else Assign(t, id, port)
  }

  // ---------- Runs ----------

  datatype Event =
    | Register(id: nat, name: string, port: int, extra: seq<int>, free: int -> bool)
    | Refresh(name: string, extra: seq<int>)
    | Replace(id: nat, free: int -> bool, saved: bool)
    | Adopt(id: nat, port: int, saved: bool)
    | Unregister(name: string)

  /** Requested ports are validated and record identities are new; discovered ports are positive. */
  predicate Allowed(t: Table, e: Event) {
    match e
    case Register(id, _, port, _, _) => id !in t.entries && 0 <= port <= 65535
    case Replace(id, _, _) => id in t.entries
    case Adopt(id, port, _) => id in t.entries && 0 < port <= 65535
    case _ => true
  }

  function Step(t: Table, e: Event): Table
    requires Linked(t) && Allowed(t, e)
  {
    match e
    case Register(id, name, port, extra, free) => Registered(t, id, name, port, extra, free)
    case Refresh(name, extra) =>
      if name !in t.procs then t
      else t.(entries := t.entries[t.procs[name] := At(t, name).(extra := extra)])
    case Replace(id, free, saved) => Replaced(t, id, free, saved)
    case Adopt(id, port, saved) => Adopted(t, id, port, saved)
    case Unregister(name) => t.(procs := t.procs - {name})
  }

  /** The event does not end in an exhausted scan. */
  predicate FindsPort(t: Table, e: Event)
    requires Linked(t)
  {
    match e
    case Register(_, name, port, _, free) =>
      var rest := Without(t, name);
      (port > 0 && !TakenByOther(rest, name, port)) || !Exhausted(rest, free)
    case Replace(id, free, _) =>
      (id in t.entries && (t.entries[id].port <= 0 || free(t.entries[id].port))) || !Exhausted(t, free)
    case _ => true
  }

  ghost predicate Distinct(t: Table)
    requires Linked(t)
  {
    forall a, b :: a in t.procs && b in t.procs && a != b ==> At(t, a).port != At(t, b).port
  }

  predicate Positive(t: Table)
    requires Linked(t)
  {
    t.nextPort > 0 && forall n :: n in t.procs ==> At(t, n).port > 0
  }

  /** Every registered app has a port of its own. */
  ghost predicate Inv(t: Table) {
    Linked(t) && Positive(t) && Distinct(t)
  }

  /** Giving a registered record a positive port nobody else exposes. */
  lemma AssignKeeps(t: Table, id: nat, port: int)
    requires Inv(t) && id in t.entries && port > 0
    requires !TakenByOther(t, t.entries[id].name, port)
    ensures Inv(Assign(t, id, port))
  {
    var next := Assign(t, id, port);
    var name := t.entries[id].name;
    forall n | n in t.procs
      ensures At(next, n).port == (if t.procs[n] == id then port else At(t, n).port)
      ensures t.procs[n] == id ==> n == name
      ensures n != name ==> At(t, n).port != port
    {
      assert n != name ==> !Exposes(At(t, n), port);
    }
  }

  lemma PlacedFrame(t: Table, id: nat, e: Entry, nextPort: int)
    requires Linked(t) && id !in t.entries
    ensures var next := Placed(t, id, e, nextPort);
            && Linked(next) && next.procs.Keys == t.procs.Keys + {e.name} && At(next, e.name) == e
            && forall n :: n in t.procs && n != e.name ==> At(next, n) == At(t, n)
  {
  }

  lemma PlaceKeeps(t: Table, id: nat, e: Entry, nextPort: int)
    requires Inv(t) && id !in t.entries && e.port > 0 && nextPort > 0
    requires !TakenByOther(Without(t, e.name), e.name, e.port)
    ensures Inv(Placed(t, id, e, nextPort))
  {
    PlacedFrame(t, id, e, nextPort);
    forall n | n in t.procs && n != e.name ensures At(t, n).port != e.port {
      assert At(Without(t, e.name), n) == At(t, n);
      assert !Exposes(At(Without(t, e.name), n), e.port);
    }
  }

  lemma RegisterKeeps(t: Table, id: nat, name: string, port: int, extra: seq<int>, free: int -> bool)
    requires Inv(t) && id !in t.entries && port >= 0
    requires FindsPort(t, Register(id, name, port, extra, free))
    ensures Inv(Registered(t, id, name, port, extra, free))
  {
    var rest := Without(t, name);
    if port <= 0 || TakenByOther(rest, name, port) {
      AllocationIsFirstUsable(rest, free);
      var chosen := Allocated(rest, free);
      assert !Taken(rest, chosen);
      PlaceKeeps(t, id, Entry(name, chosen, extra), chosen + 1);
    } else {
      PlaceKeeps(t, id, Entry(name, port, extra), t.nextPort);
    }
  }

  lemma ReplaceKeeps(t: Table, id: nat, free: int -> bool, saved: bool)
    requires Inv(t) && id in t.entries && FindsPort(t, Replace(id, free, saved))
    ensures Inv(Replaced(t, id, free, saved))
  {
    if t.entries[id].port <= 0 || free(t.entries[id].port) {
      return;
    }
    AllocationIsFirstUsable(t, free);
    var port := Allocated(t, free);
    var scanned := t.(nextPort := port + 1);
    assert Inv(scanned);
    forall n | n in t.procs ensures !Exposes(At(scanned, n), port) {
      assert At(scanned, n) == At(t, n);
    }
    if saved {
      AssignKeeps(scanned, id, port);
    }
  }

  lemma RefreshKeeps(t: Table, name: string, extra: seq<int>)
    requires Inv(t)
    ensures Inv(Step(t, Refresh(name, extra)))
  {
    var next := Step(t, Refresh(name, extra));
    forall n | n in t.procs ensures At(next, n).port == At(t, n).port {
    }
  }

  /** Every step keeps the primary ports pairwise distinct, unless a scan runs out of attempts. */
  lemma StepKeepsDistinct(t: Table, e: Event)
    requires Inv(t) && Allowed(t, e) && FindsPort(t, e)
    ensures Inv(Step(t, e))
  {
    match e
    case Register(id, name, port, extra, free) => RegisterKeeps(t, id, name, port, extra, free);
    case Refresh(name, extra) => RefreshKeeps(t, name, extra);
    case Replace(id, free, saved) => ReplaceKeeps(t, id, free, saved);
    case Adopt(id, port, saved) =>
      if Adopted(t, id, port, saved) != t {
        AssignKeeps(t, id, port);
      }
    case Unregister(name) => UnregisterKeeps(t, name);
  }

  lemma UnregisterKeeps(t: Table, name: string)
    requires Inv(t)
    ensures Inv(t.(procs := t.procs - {name}))
  {
    var next := t.(procs := t.procs - {name});
    forall n | n in next.procs ensures At(next, n) == At(t, n) {
    }
  }

  /** A whole run: each event applied to the state before it. */
  ghost predicate IsRun(ts: seq<Table>, es: seq<Event>) {
    && |ts| == |es| + 1
    && ts[0] == Table(map[], map[], FirstPort)
    && forall i :: 0 <= i < |es| ==>
         Linked(ts[i]) && Allowed(ts[i], es[i]) && FindsPort(ts[i], es[i]) && ts[i + 1] == Step(ts[i], es[i])
  }

  /** Over every run without an exhausted scan, registered apps have pairwise distinct ports. */
  lemma {:induction false} PortsStayDistinct(ts: seq<Table>, es: seq<Event>, n: nat)
    requires IsRun(ts, es) && n < |ts|
    ensures Inv(ts[n])
  {
    if n > 0 {
      PortsStayDistinct(ts, es, n - 1);
      StepKeepsDistinct(ts[n - 1], es[n - 1]);
    }
  }

  /** The manager without the app that is about to be registered. */
  function Without(t: Table, name: string): Table {
    t.(procs := t.procs - {name})
  }

  /**
   * An exhausted scan hands out the next port untested. An app that asks for no
   * particular port, or for one another app exposes, then keeps the ports
   * distinct exactly if no other app has that untested port.
   */
  lemma ExhaustedRegisterIff(t: Table, id: nat, name: string, port: int, extra: seq<int>, free: int -> bool)
    requires Inv(t) && id !in t.entries
    requires port <= 0 || TakenByOther(Without(t, name), name, port)
    requires Exhausted(Without(t, name), free)
    ensures Linked(Registered(t, id, name, port, extra, free))
    ensures Distinct(Registered(t, id, name, port, extra, free))
            <==> forall n :: n in t.procs && n != name ==> At(t, n).port != t.nextPort + 1000
  {
    var chosen := Allocated(Without(t, name), free);
    AllocationIsFirstUsable(Without(t, name), free);
    PlacedFrame(t, id, Entry(name, chosen, extra), chosen + 1);
    DistinctAround(t, Placed(t, id, Entry(name, chosen, extra), chosen + 1), name);
  }

  /** When only one app's port changed, distinctness is about that port alone. */
  lemma DistinctAround(t: Table, next: Table, name: string)
    requires Linked(t) && Distinct(t) && Linked(next) && name in next.procs
    requires next.procs.Keys == t.procs.Keys + {name}
    requires forall n :: n in t.procs && n != name ==> At(next, n).port == At(t, n).port
    ensures Distinct(next)
            <==> forall n :: n in t.procs && n != name ==> At(t, n).port != At(next, name).port
  {
  }

  /** The same for a replacement at start. */
  lemma ExhaustedReplaceIff(t: Table, id: nat, free: int -> bool)
    requires Inv(t) && id in t.entries && Exhausted(t, free)
    requires t.entries[id].port > 0 && !free(t.entries[id].port)
    requires var name := t.entries[id].name; name in t.procs && t.procs[name] == id
    ensures Linked(Replaced(t, id, free, true))
    ensures Distinct(Replaced(t, id, free, true))
            <==> forall n :: n in t.procs && n != t.entries[id].name ==> At(t, n).port != t.nextPort + 1000
  {
    AllocationIsFirstUsable(t, free);
    ReplacedFrame(t, id, free, Allocated(t, free), Replaced(t, id, free, true));
    DistinctAround(t, Replaced(t, id, free, true), t.entries[id].name);
  }

  lemma ReplacedFrame(t: Table, id: nat, free: int -> bool, port: int, next: Table)
    requires Linked(t) && id in t.entries && t.entries[id].port > 0 && !free(t.entries[id].port)
    requires var name := t.entries[id].name; name in t.procs && t.procs[name] == id
    requires port == Allocated(t, free) && next == Replaced(t, id, free, true)
    ensures Linked(next) && next.procs == t.procs && At(next, t.entries[id].name).port == port
    ensures forall n :: n in t.procs && n != t.entries[id].name ==> At(next, n) == At(t, n)
  {
    assert next == Assign(t.(nextPort := port + 1), id, port);
  }

  /** Such a collision is two registrations away when no port can be bound. */
  lemma ExhaustedScanCollides(a: string, b: string, free: int -> bool)
    requires a != b && forall p :: !free(p)
    ensures var t := Registered(Table(map[], map[], FirstPort), 0, a, 4001, [], free);
            var u := Registered(t, 1, b, 0, [], free);
            Linked(u) && a in u.procs && b in u.procs && At(u, a).port == At(u, b).port
  {
    var none := Table(map[], map[], FirstPort);
    var t := Registered(none, 0, a, 4001, [], free);
    assert t.nextPort == FirstPort && At(t, a) == Entry(a, 4001, []);
    var rest := t.(procs := t.procs - {b});
    assert Exhausted(rest, free);
    AllocationIsFirstUsable(rest, free);
  }

  // ---------- Which port an app gets ----------

  /** No other app has `port` as its own or among those it declares. */
  predicate Unclaimed(t: Table, name: string, port: int)
    requires Linked(t)
  {
    forall n :: n in t.procs && n != name ==> At(t, n).port != port && port !in At(t, n).extra
  }

  lemma UnclaimedIff(t: Table, name: string, port: int)
    requires Linked(t) && port > 0
    ensures Unclaimed(t, name, port) <==> !TakenByOther(Without(t, name), name, port)
    ensures Unclaimed(t, name, port) <==> !TakenByOther(t, name, port)
    ensures Unclaimed(t, name, port) <==> !Taken(Without(t, name), port)
  {
    var rest := Without(t, name);
    forall n | n in t.procs && n != name ensures At(rest, n) == At(t, n) {
    }
    if n :| n in t.procs && n != name && (At(t, n).port == port || port in At(t, n).extra) {
      assert Exposes(At(rest, n), port) && Exposes(At(t, n), port);
    }
  }

  /** A requested port nobody else claims is kept; otherwise the app gets the
      first port from the cursor on that is free and unclaimed, unless the scan
      runs out. The other apps stay as they are. */
  lemma RegisterGivesPort(t: Table, id: nat, name: string, port: int, extra: seq<int>, free: int -> bool)
    requires Linked(t) && id !in t.entries && t.nextPort > 0
    ensures var next := Registered(t, id, name, port, extra, free);
            && Linked(next) && next.procs.Keys == t.procs.Keys + {name}
            && At(next, name).extra == extra
            && (forall n :: n in t.procs && n != name ==> At(next, n) == At(t, n))
            && (port > 0 && Unclaimed(t, name, port) ==> At(next, name).port == port && next.nextPort == t.nextPort)
            && (!(port > 0 && Unclaimed(t, name, port)) && !Exhausted(Without(t, name), free) ==>
                  var p := At(next, name).port;
                  && t.nextPort <= p && free(p) && Unclaimed(t, name, p) && next.nextPort == p + 1
                  && forall q :: t.nextPort <= q < p ==> !free(q) || !Unclaimed(t, name, q))
  {
    if port > 0 {
      UnclaimedIff(t, name, port);
    }
    if port > 0 && Unclaimed(t, name, port) {
      PlacedFrame(t, id, Entry(name, port, extra), t.nextPort);
    } else {
      var chosen := Allocated(Without(t, name), free);
      PlacedFrame(t, id, Entry(name, chosen, extra), chosen + 1);
      if !Exhausted(Without(t, name), free) {
        ScanIsUnclaimed(t, name, free);
      }
    }
  }

  lemma ScanIsUnclaimed(t: Table, name: string, free: int -> bool)
    requires Linked(t) && t.nextPort > 0 && !Exhausted(Without(t, name), free)
    ensures var p := Allocated(Without(t, name), free);
            && t.nextPort <= p && free(p) && Unclaimed(t, name, p)
            && forall q :: t.nextPort <= q < p ==> !free(q) || !Unclaimed(t, name, q)
  {
    var p := Allocated(Without(t, name), free);
    AllocationIsFirstUsable(Without(t, name), free);
    UnclaimedIff(t, name, p);
    forall q | t.nextPort <= q < p ensures !free(q) || !Unclaimed(t, name, q) {
      UnclaimedIff(t, name, q);
    }
  }

  /** A start keeps a port that is free. Otherwise a saved replacement is free
      and claimed by nobody, unless the scan runs out, and an unsaved one is
      taken back. Only this record's port changes. */
  lemma ReplaceGivesPort(t: Table, id: nat, free: int -> bool, saved: bool)
    requires Linked(t) && id in t.entries && t.nextPort > 0
    ensures var next, e := Replaced(t, id, free, saved), t.entries[id];
            && next.procs == t.procs && next.entries.Keys == t.entries.Keys
            && (forall i :: i in t.entries && i != id ==> next.entries[i] == t.entries[i])
            && (e.port <= 0 || free(e.port) ==> next == t)
            && (!saved ==> next.entries == t.entries)
            && (e.port > 0 && !free(e.port) && saved && !Exhausted(t, free) ==>
                  var p := next.entries[id].port;
                  && next.entries[id] == e.(port := p) && t.nextPort <= p && free(p) && !Taken(t, p))
  {
    AllocationIsFirstUsable(t, free);
  }

  /** A discovered port is taken exactly if the record is still its app's, the
      port is new to it and no other app claims it, and the save works. */
  lemma AdoptTakesPortIff(t: Table, id: nat, port: int, saved: bool)
    requires Linked(t) && id in t.entries && port > 0
    ensures var e := t.entries[id];
            Adopted(t, id, port, saved)
            == if e.name in t.procs && t.procs[e.name] == id && e.port != port && Unclaimed(t, e.name, port) && saved
               then t.(entries := t.entries[id := e.(port := port)]) else t
  {
    UnclaimedIff(t, t.entries[id].name, port);
  }

  /** Reading an app's file again changes the ports it declares, and removing an
      app takes it out of the map; nothing else. */
  lemma RefreshAndUnregister(t: Table, name: string, extra: seq<int>)
    requires Linked(t)
    ensures var next := Step(t, Refresh(name, extra));
            && next.procs == t.procs && next.nextPort == t.nextPort
            && (name !in t.procs ==> next == t)
            && (name in t.procs ==> next.entries == t.entries[t.procs[name] := Entry(name, At(t, name).port, extra)])
    ensures Step(t, Unregister(name)) == Table(t.procs - {name}, t.entries, t.nextPort)
  {
  }

  // ---------- The manager ----------

  class PortManager {
    var procs: map<string, nat>
    var entries: map<nat, Entry>
    var nextPort: int

    function State(): Table
      reads this
    {
      Table(procs, entries, nextPort)
    }

    constructor ()
      ensures State() == Table(map[], map[], FirstPort)
    {
      procs, entries, nextPort := map[], map[], FirstPort;
    }

    /** The inner loop of the scan. */
    method IsTaken(port: int) returns (taken: bool)
      requires Linked(State())
      ensures taken <==> Taken(State(), port)
    {
      taken := false;
      var todo := procs.Keys;
      while todo != {}
        invariant todo <= procs.Keys
        invariant forall n :: n in procs && n !in todo ==> !Exposes(At(State(), n), port)
        decreases |todo|
      {
        var n :| n in todo;
        todo := todo - {n};
        if Exposes(entries[procs[n]], port) {
          assert Exposes(At(State(), n), port);
          return true;
        }
      }
    }

    method AllocateFreePort(free: int -> bool) returns (port: int)
      requires Linked(State())
      modifies this`nextPort
      ensures port == old(Allocated(State(), free)) && nextPort == port + 1
    {
      port := nextPort;
      var i := 0;
      while i < MaxAttempts
        invariant 0 <= i <= MaxAttempts && nextPort == old(nextPort)
        invariant Allocated(State(), free) == Scan(State(), free, port, MaxAttempts - i)
      {
        var taken := IsTaken(port);
        if !taken && free(port) {
          nextPort := port + 1;
          return port;
        }
        port := port + 1;
        i := i + 1;
      }
      nextPort := port + 1;
    }

    /** Register: drops an earlier record of the name, then picks the port of the new one. */
    method Register(id: nat, name: string, requested: int, extra: seq<int>, free: int -> bool)
      requires Linked(State()) && 0 <= requested
      modifies this
      ensures State() == old(Registered(State(), id, name, requested, extra, free))
    {
      procs := procs - {name};
      var port := requested;
      if port > 0 {
        var taken := IsTaken(port);
        assert taken <==> TakenByOther(State(), name, port);
        if taken {
          port := 0;
        }
      }
      if port == 0 {
        port := AllocateFreePort(free);
      }
      entries := entries[id := Entry(name, port, extra)];
      procs := procs[name := id];
    }

    method EnsureStartPortAvailable(id: nat, free: int -> bool, saved: bool) returns (ok: bool)
      requires Linked(State()) && id in entries
      modifies this
      ensures State() == old(Replaced(State(), id, free, saved))
      ensures !ok ==> entries == old(entries) && procs == old(procs)
    {
      var oldPort := entries[id].port;
      if oldPort <= 0 || free(oldPort) {
        return true;
      }
      var newPort := AllocateFreePort(free);
      entries := entries[id := entries[id].(port := newPort)];
      if !saved {
        entries := entries[id := entries[id].(port := oldPort)];
        return false;
      }
      return true;
    }

    method AdoptDiscoveredPort(id: nat, port: int, saved: bool) returns (ok: bool)
      requires Linked(State()) && id in entries && port > 0
      modifies this
      ensures State() == old(Adopted(State(), id, port, saved))
      ensures ok ==> entries[id].port == port
      ensures !ok ==> State() == old(State())
    {
      var name := entries[id].name;
      if name !in procs || procs[name] != id {
        return false;
      }
      var oldPort := entries[id].port;
      if oldPort == port {
        return true;
      }
      var todo := procs.Keys - {name};
      while todo != {}
        invariant todo <= procs.Keys - {name} && State() == old(State())
        invariant forall n :: n in procs && n != name && n !in todo ==> !Exposes(At(State(), n), port)
        decreases |todo|
      {
        var n :| n in todo;
        todo := todo - {n};
        if Exposes(entries[procs[n]], port) {
          assert Exposes(At(State(), n), port);
          return false;
        }
      }
      entries := entries[id := entries[id].(port := port)];
      if !saved {
        entries := entries[id := entries[id].(port := oldPort)];
        return false;
      }
      return true;
    }
  }
}
