/**
 The firewall synchronisation protocol of internal/autoblock/apply.go.

 Callers change the block map under the lock and queue the matching firewall
 operation after dropping it, so the two are separate steps here; one worker
 takes operations off the bounded queue, and its `ruleWanted` check and its
 unblock call are separate steps too. Both hooks are set and succeed.
 */
module Firewall {
  import opened Addresses

  const QUEUE_CAP := 1024

  datatype Op = Add(ip: Addr) | Remove(ip: Addr)

  datatype Worker =
    | Idle
    | Adding(ip: Addr)      // fwBlock running
    | Removing(ip: Addr)    // ruleWanted said no, the unblock call about to run

  datatype State = State(
    blocked: map<Addr, bool>,   // address -> dry run
    adds: multiset<Addr>,       // blocks written to the map, add not queued yet
    removes: multiset<Addr>,    // blocks deleted from the map, removal not queued yet
    queue: seq<Op>,
    pending: set<Addr>,         // fwPending
    worker: Worker,
    rules: set<Addr>,           // rules in the kernel
    covered: set<Addr>,         // history: blocked now, and an add was accepted since the block was written
    trips: multiset<Addr>       // dry-run detections past the test of trip, not applied yet
  )

  datatype Event =
    | Block(ip: Addr)                // apply or Block: map update
    | Trip(ip: Addr, lapsed: bool)   // trip: goes on unless the address has a block that has not lapsed
    | DryBlock(ip: Addr)             // apply in dry run, some time after trip: map update
    | Lift(ip: Addr)                 // Unblock, expire or liftSafeBlocks: map update
    | SendAdd(ip: Addr, sync: bool)  // the add reaches the queue, if firewall sync is on
    | SendRemove(ip: Addr)           // queueRemove
    | Retry(ip: Addr)                // one iteration of retryPendingRemoves
    | Work                           // one step of the worker

  const Init := State(map[], multiset{}, multiset{}, [], {}, Idle, {}, {}, multiset{})

  predicate Enforced(s: State, a: Addr) {
    a in s.blocked && !s.blocked[a]
  }

  predicate Room(q: seq<Op>) {
    |q| < QUEUE_CAP
  }

  /** The non-blocking send of the source: a full queue refuses. */
  function Offer(q: seq<Op>, op: Op): seq<Op> {
    if Room(q) then q + [op] else q
  }

  function WorkStep(s: State): State {
    match s.worker
    case Adding(a) => s.(worker := Idle, rules := s.rules + {a})
    case Removing(a) => s.(worker := Idle, rules := s.rules - {a})
    case Idle =>
      if s.queue == [] then s
      else
        var t := s.(queue := s.queue[1..]);
        match s.queue[0]
        case Add(a) => t.(worker := Adding(a))
        case Remove(a) => if Enforced(s, a) then t else t.(worker := Removing(a))
  }

  function BlockStep(s: State, a: Addr): State {
    s.(blocked := s.blocked[a := false], adds := s.adds + multiset{a})
  }

  function TripStep(s: State, a: Addr, lapsed: bool): State {
    if a in s.blocked && !lapsed then s else s.(trips := s.trips + multiset{a})
  }

  function DryBlockStep(s: State, a: Addr): State {
    if a !in s.trips then s
    else s.(blocked := s.blocked[a := true], covered := s.covered - {a}, trips := s.trips - multiset{a})
  }

  function LiftStep(s: State, a: Addr): State {
    if a !in s.blocked then s
    else s.(blocked := s.blocked - {a}, covered := s.covered - {a}, removes := s.removes + multiset{a})
  }

  function SendAddStep(s: State, a: Addr, sync: bool): State {
    if a !in s.adds then s
    else
      var t := s.(adds := s.adds - multiset{a});
      if sync && Room(s.queue)
      then t.(queue := s.queue + [Add(a)], covered := if Enforced(s, a) then s.covered + {a} else s.covered)
      else t
  }

  function SendRemoveStep(s: State, a: Addr): State {
    if a !in s.removes then s
    else
      var t := s.(removes := s.removes - multiset{a});
      t.(queue := Offer(s.queue, Remove(a)), pending := if Room(s.queue) then s.pending else s.pending + {a})
  }

  function RetryStep(s: State, a: Addr): State {
    if a !in s.pending then s
    else if Enforced(s, a) then s.(pending := s.pending - {a})
    else if Room(s.queue) then s.(queue := s.queue + [Remove(a)], pending := s.pending - {a})
    else s
  }

  function Step(s: State, e: Event): State {
    match e
    case Block(a) => BlockStep(s, a)
    case Trip(a, lapsed) => TripStep(s, a, lapsed)
    case DryBlock(a) => DryBlockStep(s, a)
    case Lift(a) => LiftStep(s, a)
    case SendAdd(a, sync) => SendAddStep(s, a, sync)
    case SendRemove(a) => SendRemoveStep(s, a)
    case Retry(a) => RetryStep(s, a)
    case Work => WorkStep(s)
  }

  function Run(s: State, es: seq<Event>): State
    decreases |es|
  {
    if es == [] then s else Run(Step(s, es[0]), es[1..])
  }

  // ---- no lost rule ----

  predicate RuleSafe(s: State, a: Addr) {
    && Enforced(s, a)
    && ((a in s.rules && s.worker != Removing(a)) || s.worker == Adding(a) || Add(a) in s.queue)
  }

  /** Once its add was accepted, a block that stays has its rule, or the rule is
      on its way; no removal is under way against it without an add behind. */
  predicate NoLostRule(s: State) {
    forall a :: a in s.covered ==> RuleSafe(s, a)
  }

  ghost predicate Kept(s: State, t: State, a: Addr) {
    (a in s.covered ==> RuleSafe(s, a)) ==> (a in t.covered ==> RuleSafe(t, a))
  }

  lemma MapKeepsRule(s: State, b: Addr, lapsed: bool, a: Addr)
    ensures Kept(s, BlockStep(s, b), a) == true && Kept(s, TripStep(s, b, lapsed), a) == true
    ensures Kept(s, DryBlockStep(s, b), a) == true && Kept(s, LiftStep(s, b), a) == true
  {
  }

  lemma SendAddKeepsRule(s: State, b: Addr, sync: bool, a: Addr)
    ensures Kept(s, SendAddStep(s, b, sync), a) == true
  {
  }

  lemma SendRemoveKeepsRule(s: State, b: Addr, a: Addr)
    ensures Kept(s, SendRemoveStep(s, b), a) == true && Kept(s, RetryStep(s, b), a) == true
  {
  }

  lemma WorkKeepsRule(s: State, a: Addr)
    ensures Kept(s, WorkStep(s), a) == true
  {
    if s.queue != [] {
      assert s.queue == [s.queue[0]] + s.queue[1..];
    }
  }

  lemma StepKeepsRule(s: State, e: Event, a: Addr)
    ensures Kept(s, Step(s, e), a) == true
  {
    match e
    case Block(b) => MapKeepsRule(s, b, false, a);
    case Trip(b, lapsed) => MapKeepsRule(s, b, lapsed, a);
    case DryBlock(b) => MapKeepsRule(s, b, false, a);
    case Lift(b) => MapKeepsRule(s, b, false, a);
    case SendAdd(b, sync) => SendAddKeepsRule(s, b, sync, a);
    case SendRemove(b) => SendRemoveKeepsRule(s, b, a);
    case Retry(b) => SendRemoveKeepsRule(s, b, a);
    case Work => WorkKeepsRule(s, a);
  }

  lemma StepKeepsRules(s: State, e: Event)
    requires NoLostRule(s)
    ensures NoLostRule(Step(s, e))
  {
    forall a | a in Step(s, e).covered
      ensures RuleSafe(Step(s, e), a)
    {
      StepKeepsRule(s, e, a);
    }
  }

  /** In every run, however removals and re-blocks interleave with the worker. */
  lemma {:induction false} NoRuleIsLost(s: State, es: seq<Event>)
    requires NoLostRule(s)
    ensures NoLostRule(Run(s, es))
    decreases |es|
  {
    if es != [] {
      StepKeepsRules(s, es[0]);
      NoRuleIsLost(Step(s, es[0]), es[1..]);
    }
  }

  // ---- no orphan rule ----

  /** The last operation queued for `a`, if any. */
  function LastFor(q: seq<Op>, a: Addr): (r: seq<Op>)
    ensures |r| <= 1
    ensures r == [] ==> Add(a) !in q && Remove(a) !in q
    ensures r != [] ==> r[0] in q && r[0].ip == a
  {
    if q == [] then [] else if q[|q| - 1].ip == a then [q[|q| - 1]] else LastFor(q[..|q| - 1], a)
  }

  /** Something will still remove the rule of `a`, or there is none. */
  predicate Cleared(s: State, a: Addr) {
    || a in s.removes
    || a in s.pending
    || LastFor(s.queue, a) == [Remove(a)]
    || (LastFor(s.queue, a) == [] && (s.worker == Removing(a) || (a !in s.rules && s.worker != Adding(a))))
  }

  ghost predicate NoOrphan(s: State) {
    forall a :: !Enforced(s, a) ==> Cleared(s, a)
  }

  /** The add of this step lands behind a block still in force, or in front of
      a removal still on its way. */
  predicate Timely(s: State, a: Addr) {
    Enforced(s, a) || a in s.removes || a in s.pending
  }

  predicate Accepts(s: State, e: Event) {
    e.SendAdd? && e.ip in s.adds && e.sync && Room(s.queue)
  }

  /** The step puts a dry-run entry in place of an enforced block. */
  predicate TakesOver(s: State, e: Event) {
    e.DryBlock? && e.ip in s.trips && Enforced(s, e.ip)
  }

  /** The block of `a` has no rule and no add queued or running, or a removal
      comes after them. */
  predicate NoTrace(s: State, a: Addr) {
    || a in s.removes || a in s.pending
    || LastFor(s.queue, a) == [Remove(a)]
    || (LastFor(s.queue, a) == [] && s.worker == Removing(a))
    || (LastFor(s.queue, a) == [] && s.worker != Adding(a) && a !in s.rules)
  }

  /** Adds are timely, and dry run takes over an enforced block only if that
      block has left no trace. */
  predicate Orderly(s: State, e: Event) {
    (Accepts(s, e) ==> Timely(s, e.ip)) && (TakesOver(s, e) ==> NoTrace(s, e.ip))
  }

  lemma LastForAppend(q: seq<Op>, op: Op, a: Addr)
    ensures LastFor(q + [op], a) == if op.ip == a then [op] else LastFor(q, a)
  {
    assert (q + [op])[..|q|] == q;
  }

  lemma {:induction false} LastForTail(q: seq<Op>, a: Addr)
    requires q != []
    ensures LastFor(q[1..], a) == LastFor(q, a) || (LastFor(q[1..], a) == [] && LastFor(q, a) == [q[0]] && q[0].ip == a)
    decreases |q|
  {
    if |q| == 1 {
      assert q[..0] == [];
    } else {
      assert q[1..][..|q| - 2] == q[..|q| - 1][1..];
      LastForTail(q[..|q| - 1], a);
    }
  }

  lemma WorkKeepsCleared(s: State, a: Addr)
    ensures StillClear(s, WorkStep(s), a)
  {
    if s.queue != [] {
      LastForTail(s.queue, a);
    }
  }

  /** What a step must keep for one address. */
  ghost predicate StillClear(s: State, t: State, a: Addr) {
    (Enforced(s, a) || Cleared(s, a)) ==> (Enforced(t, a) || Cleared(t, a))
  }

  lemma MapKeepsCleared(s: State, b: Addr, lapsed: bool, a: Addr)
    ensures StillClear(s, BlockStep(s, b), a) && StillClear(s, TripStep(s, b, lapsed), a)
    ensures StillClear(s, LiftStep(s, b), a)
    ensures !TakesOver(s, DryBlock(b)) || NoTrace(s, b) ==> StillClear(s, DryBlockStep(s, b), a)
  {
  }

  lemma SendAddKeepsCleared(s: State, b: Addr, sync: bool, a: Addr)
    requires Orderly(s, SendAdd(b, sync))
    ensures StillClear(s, SendAddStep(s, b, sync), a)
  {
    LastForAppend(s.queue, Add(b), a);
  }

  lemma SendRemoveKeepsCleared(s: State, b: Addr, a: Addr)
    ensures StillClear(s, SendRemoveStep(s, b), a)
  {
    LastForAppend(s.queue, Remove(b), a);
  }

  lemma RetryKeepsCleared(s: State, b: Addr, a: Addr)
    ensures StillClear(s, RetryStep(s, b), a)
  {
    LastForAppend(s.queue, Remove(b), a);
  }

  lemma StepKeepsClear(s: State, e: Event, a: Addr)
    requires Orderly(s, e)
    ensures StillClear(s, Step(s, e), a) == true
  {
    match e
    case Block(b) => MapKeepsCleared(s, b, false, a);
    case Trip(b, lapsed) => MapKeepsCleared(s, b, lapsed, a);
    case DryBlock(b) => MapKeepsCleared(s, b, false, a);
    case Lift(b) => MapKeepsCleared(s, b, false, a);
    case SendAdd(b, sync) => SendAddKeepsCleared(s, b, sync, a);
    case SendRemove(b) => SendRemoveKeepsCleared(s, b, a);
    case Retry(b) => RetryKeepsCleared(s, b, a);
    case Work => WorkKeepsCleared(s, a);
  }

  lemma StepKeepsNoOrphan(s: State, e: Event)
    requires NoOrphan(s) && Orderly(s, e)
    ensures NoOrphan(Step(s, e))
  {
    forall a | !Enforced(Step(s, e), a)
      ensures Cleared(Step(s, e), a)
    {
      StepKeepsClear(s, e, a);
    }
  }

  /** Exactly when queueing an add keeps the rules clean: the map update and the
      queueing are not one step, so the block may be gone by then. */
  lemma AcceptedAddKeepsNoOrphanIffTimely(s: State, e: Event)
    requires NoOrphan(s) && Accepts(s, e)
    ensures NoOrphan(Step(s, e)) <==> Timely(s, e.ip)
  {
    if Timely(s, e.ip) {
      StepKeepsNoOrphan(s, e);
    } else {
      LastForAppend(s.queue, Add(e.ip), e.ip);
      assert !Cleared(Step(s, e), e.ip);
    }
  }

  /** Exactly when a dry-run detection keeps them clean. */
  lemma DryRunKeepsNoOrphanIffNoTrace(s: State, a: Addr)
    requires NoOrphan(s) && a in s.trips
    ensures NoOrphan(Step(s, DryBlock(a))) <==> !Enforced(s, a) || NoTrace(s, a)
  {
    var t := Step(s, DryBlock(a));
    if !Enforced(s, a) || NoTrace(s, a) {
      StepKeepsNoOrphan(s, DryBlock(a));
    } else {
      assert !Enforced(t, a) && !Cleared(t, a);
    }
  }

  /** Every other event keeps them clean, so orderly steps are exactly those that do. */
  lemma StepKeepsNoOrphanIffOrderly(s: State, e: Event)
    requires NoOrphan(s)
    ensures NoOrphan(Step(s, e)) <==> Orderly(s, e)
  {
    if Accepts(s, e) {
      AcceptedAddKeepsNoOrphanIffTimely(s, e);
    } else if TakesOver(s, e) {
      DryRunKeepsNoOrphanIffNoTrace(s, e.ip);
    } else {
      StepKeepsNoOrphan(s, e);
    }
  }

  predicate OrderlyRun(s: State, es: seq<Event>)
    decreases |es|
  {
    es == [] || (Orderly(s, es[0]) && OrderlyRun(Step(s, es[0]), es[1..]))
  }

  lemma {:induction false} NoRuleIsOrphaned(s: State, es: seq<Event>)
    requires NoOrphan(s) && OrderlyRun(s, es)
    ensures NoOrphan(Run(s, es))
    decreases |es|
  {
    if es != [] {
      StepKeepsNoOrphan(s, es[0]);
      NoRuleIsOrphaned(Step(s, es[0]), es[1..]);
    }
  }

  // ---- what is left when the queue has drained ----

  predicate Drained(s: State) {
    s.queue == [] && s.worker == Idle && s.pending == {} && s.removes == multiset{}
  }

  /** After any orderly run that has drained, the kernel holds a rule for every
      block whose add was accepted, and for no address without a block. */
  lemma DrainedRulesMatchBlocks(es: seq<Event>)
    requires OrderlyRun(Init, es) && Drained(Run(Init, es))
    ensures var s := Run(Init, es);
            && s.covered <= s.rules
            && (forall a :: a in s.rules ==> Enforced(s, a))
  {
    var s := Run(Init, es);
    NoRuleIsLost(Init, es);
    NoRuleIsOrphaned(Init, es);
    forall a | a in s.rules
      ensures Enforced(s, a)
    {
      assert !Enforced(s, a) ==> Cleared(s, a);
    }
  }

  /** Worker steps still needed. */
  function Debt(s: State): nat {
    2 * |s.queue| + if s.worker == Idle then 0 else 1
  }

  /** Left alone, the worker empties the queue within two steps an operation,
      and changes nothing but the rules. */
  lemma {:induction false} WorkerDrains(s: State, n: nat)
    requires n >= Debt(s)
    ensures var t := Run(s, seq(n, _ => Work));
            t == s.(queue := [], worker := Idle, rules := t.rules)
    decreases n
  {
    if n > 0 {
      assert seq(n, _ => Work)[1..] == seq(n - 1, _ => Work);
      WorkerDrains(Step(s, Work), n - 1);
    }
  }

  /** A caller that is not interrupted between the map update and the queue. */
  datatype Call = BlockCall(ip: Addr, sync: bool) | LiftCall(ip: Addr) | RetryCall(ip: Addr) | WorkCall

  function Events(c: Call): seq<Event> {
    match c
    case BlockCall(a, sync) => [Block(a), SendAdd(a, sync)]
    case LiftCall(a) => [Lift(a), SendRemove(a)]
    case RetryCall(a) => [Retry(a)]
    case WorkCall => [Work]
  }

  function Trace(calls: seq<Call>): seq<Event> {
    if calls == [] then [] else Events(calls[0]) + Trace(calls[1..])
  }

  lemma {:induction false} OrderlyAppend(s: State, es: seq<Event>, fs: seq<Event>)
    requires OrderlyRun(s, es) && OrderlyRun(Run(s, es), fs)
    ensures OrderlyRun(s, es + fs)
    decreases |es|
  {
    if es == [] {
      assert es + fs == fs;
    } else {
      assert (es + fs)[1..] == es[1..] + fs;
      OrderlyAppend(Step(s, es[0]), es[1..], fs);
    }
  }

  lemma OneIsOrderly(s: State, e: Event)
    requires Orderly(s, e)
    ensures OrderlyRun(s, [e])
  {
    assert [e][1..] == [];
  }

  lemma CallIsOrderly(s: State, c: Call)
    ensures OrderlyRun(s, Events(c))
  {
    match c
    case BlockCall(a, sync) =>
      OneIsOrderly(Step(s, Block(a)), SendAdd(a, sync));
      assert [Block(a), SendAdd(a, sync)][1..] == [SendAdd(a, sync)];
    case LiftCall(a) =>
      OneIsOrderly(Step(s, Lift(a)), SendRemove(a));
      assert [Lift(a), SendRemove(a)][1..] == [SendRemove(a)];
    case RetryCall(a) => OneIsOrderly(s, Retry(a));
    case WorkCall => OneIsOrderly(s, Work);
  }

  /** With the map update and its queueing in one step and dry run off, every
      run is orderly, so DrainedRulesMatchBlocks applies to all of them. */
  lemma {:induction false} UninterruptedRunsAreOrderly(s: State, calls: seq<Call>)
    ensures OrderlyRun(s, Trace(calls))
    decreases |calls|
  {
    if calls != [] {
      CallIsOrderly(s, calls[0]);
      UninterruptedRunsAreOrderly(Run(s, Events(calls[0])), calls[1..]);
      OrderlyAppend(s, Events(calls[0]), Trace(calls[1..]));
    }
  }

  // ---- the two races ----

  lemma {:induction false} RunAppend(s: State, es: seq<Event>, fs: seq<Event>)
    ensures Run(s, es + fs) == Run(Run(s, es), fs)
    decreases |es|
  {
    if es == [] {
      assert es + fs == fs;
    } else {
      assert (es + fs)[1..] == es[1..] + fs;
      RunAppend(Step(s, es[0]), es[1..], fs);
    }
  }

  lemma RunOne(s: State, e: Event)
    ensures Run(s, [e]) == Step(s, e)
  {
    assert [e][1..] == [];
    assert Run(Step(s, e), []) == Step(s, e);
  }

  /** A sequence of states linked by steps is a run. */
  lemma {:induction false} Path(states: seq<State>, es: seq<Event>)
    requires |states| == |es| + 1
    requires forall i :: 0 <= i < |es| ==> Step(states[i], es[i]) == states[i + 1]
    ensures Run(states[0], es) == states[|es|]
    decreases |es|
  {
    if es != [] {
      Path(states[1..], es[1..]);
    }
  }

  /** A block lifted before its add is queued: the add lands behind the removal. */
  lemma LateAdd(a: Addr)
    ensures Run(Init, [Block(a), Lift(a), SendRemove(a), SendAdd(a, true)]) == Init.(queue := [Remove(a), Add(a)])
  {
    Path([Init,
          Init.(blocked := map[a := false], adds := multiset{a}),
          Init.(adds := multiset{a}, removes := multiset{a}),
          Init.(adds := multiset{a}, queue := [Remove(a)]),
          Init.(queue := [Remove(a), Add(a)])],
         [Block(a), Lift(a), SendRemove(a), SendAdd(a, true)]);
  }

  lemma RemoveThenAdd(a: Addr)
    ensures Run(Init.(queue := [Remove(a), Add(a)]), [Work, Work, Work, Work]) == Init.(rules := {a})
  {
    Path([Init.(queue := [Remove(a), Add(a)]),
          Init.(queue := [Add(a)], worker := Removing(a)),
          Init.(queue := [Add(a)]),
          Init.(worker := Adding(a)),
          Init.(rules := {a})],
         [Work, Work, Work, Work]);
  }

  /** So it leaves a rule for an address that is not blocked, with nothing on
      its way to remove it. */
  lemma LateAddOrphansRule(a: Addr) returns (es: seq<Event>)
    ensures var s := Run(Init, es);
            Drained(s) && s.adds == multiset{} && s.blocked == map[] && s.rules == {a}
  {
    var first, second := [Block(a), Lift(a), SendRemove(a), SendAdd(a, true)], [Work, Work, Work, Work];
    es := first + second;
    RunAppend(Init, first, second);
    LateAdd(a);
    RemoveThenAdd(a);
  }

  /** An enforced block with its rule, while the detections `t` wait. */
  function Installed(a: Addr, t: multiset<Addr>): State {
    Init.(blocked := map[a := false], rules := {a}, covered := {a}, trips := t)
  }

  lemma RuleInstalled(a: Addr, t: multiset<Addr>)
    ensures Run(Init.(trips := t), [Block(a), SendAdd(a, true), Work, Work]) == Installed(a, t)
  {
    var on := Init.(blocked := map[a := false], trips := t);
    Path([Init.(trips := t),
          on.(adds := multiset{a}),
          on.(queue := [Add(a)], covered := {a}),
          on.(worker := Adding(a), covered := {a}),
          Installed(a, t)],
         [Block(a), SendAdd(a, true), Work, Work]);
  }

  /** A dry-run entry over a rule that nothing will remove. */
  function Stranded(a: Addr): State {
    Init.(blocked := map[a := true], rules := {a})
  }

  lemma TakeOver(a: Addr)
    ensures Run(Installed(a, multiset{a}), [DryBlock(a)]) == Stranded(a)
  {
    RunOne(Installed(a, multiset{a}), DryBlock(a));
  }

  lemma LapsedTrip(a: Addr)
    ensures Run(Installed(a, multiset{}), [Trip(a, true), DryBlock(a)]) == Stranded(a)
  {
    TakeOver(a);
    assert Step(Installed(a, multiset{}), Trip(a, true)) == Installed(a, multiset{a});
    assert [Trip(a, true), DryBlock(a)][1..] == [DryBlock(a)];
  }

  lemma EarlyTrip(a: Addr, es: seq<Event>)
    ensures Run(Init, [Trip(a, false)] + es) == Run(Init.(trips := multiset{a}), es)
  {
    assert Step(Init, Trip(a, false)) == Init.(trips := multiset{a});
    assert ([Trip(a, false)] + es)[1..] == es;
  }

  /** A dry-run detection over an enforced block strands its rule. The test of
      trip lets it through if the block has lapsed and the sweep has not come
      yet, or if a manual block lands between that test and apply. */
  lemma DryRunOrphansRule(a: Addr)
    ensures var block := [Block(a), SendAdd(a, true), Work, Work];
            && Run(Init, block + [Trip(a, true), DryBlock(a)]) == Stranded(a)
            && Run(Init, [Trip(a, false)] + (block + [DryBlock(a)])) == Stranded(a)
    ensures var s := Stranded(a); Drained(s) && s.adds == multiset{} && !Enforced(s, a) && a in s.rules
  {
    var block := [Block(a), SendAdd(a, true), Work, Work];
    RuleInstalled(a, multiset{});
    RunAppend(Init, block, [Trip(a, true), DryBlock(a)]);
    LapsedTrip(a);
    EarlyTrip(a, block + [DryBlock(a)]);
    RuleInstalled(a, multiset{a});
    RunAppend(Init.(trips := multiset{a}), block, [DryBlock(a)]);
    TakeOver(a);
  }

  // ---- the parked removals drain too ----

  lemma RetryClears(s: State, a: Addr)
    requires s.queue == [] && a in s.pending
    ensures var t := Step(s, Retry(a));
            && t.pending == s.pending - {a} && t.worker == s.worker && t.removes == s.removes
            && t.blocked == s.blocked && t.adds == s.adds
            && t.queue == if Enforced(s, a) then [] else [Remove(a)]
  {
  }

  /** From every state in which no caller is between its map update and its
      queueing, the worker and the retries alone drain everything: queue, worker
      and parked removals; the block map stays as it is. */
  lemma {:induction false} EverythingDrains(s: State) returns (es: seq<Event>)
    requires s.removes == multiset{}
    ensures forall e :: e in es ==> e.Work? || e.Retry?
    ensures Drained(Run(s, es)) && Run(s, es).blocked == s.blocked && Run(s, es).adds == s.adds
    decreases |s.pending|
  {
    es := seq(Debt(s), _ => Work);
    WorkerDrains(s, Debt(s));
    var t := Run(s, es);
    if t.pending != {} {
      var a :| a in t.pending;
      RetryClears(t, a);
      var u := Step(t, Retry(a));
      var rest := EverythingDrains(u);
      RunOne(t, Retry(a));
      RunAppend(t, [Retry(a)], rest);
      RunAppend(s, es, [Retry(a)] + rest);
      es := es + ([Retry(a)] + rest);
    }
  }
}
