/**
 The app supervisor of internal/apps/manager.go as a state machine.

 Every critical section, and every action taken outside the lock, is one step.
 A goroutine between two steps is a `Task`. Names, records, channels, children
 and tasks are drawn from one fresh counter, so none is ever reused. Kills
 succeed.
 */
module Supervisor {
  import opened Options
  import opened Processes

  datatype Task =
      // the tasks of one run, which carry its stop channel
    | Launch(rec: nat, ch: nat)                  // startNative entered, superseded check pending
    | Spawn(rec: nat, ch: nat)                   // check passed, cmd.Start pending
    | Check(rec: nat, ch: nat, child: nat)       // child alive, registration check pending
    | Watch(rec: nat, ch: nat, child: nat)       // monitorNative inside cmd.Wait
    | Exited(rec: nat, ch: nat, child: nat)      // Wait returned, select on the channel pending
    | Reap(rec: nat, ch: nat, child: nat)        // channel seen closed, lock pending
    | Note(rec: nat, ch: nat, child: nat)        // channel seen open, crash-loop section pending
    | Backoff(rec: nat, ch: nat, due: int)       // restart timer running
    | Fired(rec: nat, ch: nat)                   // timer fired, last look at the channel pending
      // the tasks of Stop and of an aborted spawn
    | StopReq(rec: nat)                          // Stop holds the record, lock pending
    | Kill(rec: nat, child: nat, clear: bool)    // gracefulKill running
    | ClearCmd(rec: nat, child: nat)             // kill done, last section of stop pending

  datatype World = World(
    procs: map<string, nat>,       // name -> record
    recs: map<nat, Proc>,          // every record ever made
    tasks: map<nat, Task>,
    closed: set<nat>,              // closed stop channels
    live: set<nat>,                // running children
    next: nat                      // the next fresh identity
  )

  datatype Event =
    | Register(name: string, autoRestart: bool, disabled: bool)
    | Load(name: string, autoRestart: bool, disabled: bool)
    | Unregister(name: string)
    | Start(name: string)
    | Stop(name: string)
    | Die(child: nat)
    | Advance(task: nat, now: int, ok: bool)

  const Init := World(map[], map[], map[], {}, {}, 0)

  // ---- steps ----

  /** stopLocked on the record of `name`, and its removal from the map. */
  function Drop(w: World, name: string): World
    requires name in w.procs && w.procs[name] in w.recs
  {
    var r := w.procs[name];
    var p := w.recs[r];
    w.(procs := w.procs - {name},
       recs := w.recs[r := p.(stopped := true, cmd := None)],
       closed := w.closed + {p.stopCh},
       live := if p.cmd.Some? then w.live - {p.cmd.value} else w.live)
  }

  function AddRecord(w: World, name: string, autoRestart: bool, disabled: bool): World {
    w.(procs := w.procs[name := w.next],
       recs := w.recs[w.next := Proc(name, None, w.next + 1, false, autoRestart, disabled, 0, false, 0)],
       next := w.next + 2)
  }

  function StartStep(w: World, name: string): World
    requires name in w.procs && w.procs[name] in w.recs
  {
    if Startable(w, name) then Started(w, name) else w
  }

  predicate Startable(w: World, name: string)
    requires name in w.procs && w.procs[name] in w.recs
  {
    !w.recs[w.procs[name]].disabled && w.recs[w.procs[name]].cmd == None
  }

  function Started(w: World, name: string): World
    requires name in w.procs && w.procs[name] in w.recs
  {
    var r := w.procs[name];
    w.(recs := w.recs[r := Begin(w.recs[r], w.next)],
       tasks := w.tasks[w.next + 1 := Launch(r, w.next)],
       next := w.next + 2)
  }

  /** LoadAll on an app already registered refreshes its definition only. */
  function Reload(w: World, name: string, disabled: bool): World
    requires name in w.procs && w.procs[name] in w.recs
  {
    var r := w.procs[name];
    w.(recs := w.recs[r := w.recs[r].(disabled := disabled)])
  }

  /** Stop looks the record up and drops the lock before stopping it. */
  function RequestStop(w: World, name: string): World
    requires name in w.procs
  {
    w.(tasks := w.tasks[w.next := StopReq(w.procs[name])], next := w.next + 1)
  }

  function Exit(w: World, c: nat): World {
    w.(live := w.live - {c})
  }

  /** What one step of a task does: the task's next phase (None: it ends), its
      record afterwards, whether it closes the record's channel, and the running
      children. */
  datatype Effect = Effect(task: Option<Task>, proc: Proc, close: bool, live: set<nat>)

  /** One step of a task of record `p`. `id` is an unused identity. `ok`
      decides what the environment decides: whether a port was found and the
      command accepted, whether the spawn worked, and which ready case a select
      takes. */
  function TaskStep(task: Task, p: Proc, closed: set<nat>, live: set<nat>, id: nat, now: int, ok: bool): Effect {
    var r := task.rec;
    var stay := Effect(Some(task), p, false, live);
    var end := Effect(None, p, false, live);
    match task
    case Launch(_, ch) =>
      if !ok || Superseded(p, ch) then end else stay.(task := Some(Spawn(r, ch)))
    case Spawn(_, ch) =>
      if !ok then end else stay.(task := Some(Check(r, ch, id)), live := live + {id})
    case Check(_, ch, c) =>
      if Superseded(p, ch) then stay.(task := Some(Kill(r, c, false)))
      else stay.(task := Some(Watch(r, ch, c)), proc := Adopt(p, c, now))
    case Watch(_, ch, c) =>
      if c in live then stay else stay.(task := Some(Exited(r, ch, c)))
    case Exited(_, ch, c) =>
      stay.(task := Some(if ch in closed then Reap(r, ch, c) else Note(r, ch, c)))
    case Reap(_, _, c) =>
      end.(proc := Forget(p, c))
    case Note(_, ch, c) =>
      var (q, delay) := AfterExit(p, c, now);
      if delay.Some? then stay.(task := Some(Backoff(r, ch, now + delay.value)), proc := q)
      else end.(proc := q)
    case Backoff(_, ch, due) =>
      if ch in closed && (ok || now < due) then end
      else if now >= due then stay.(task := Some(Fired(r, ch)))
      else stay
    case Fired(_, ch) =>
      if ch in closed then end else stay.(task := Some(Launch(r, ch)))
    case StopReq(_) =>
      Effect(if p.cmd.Some? then Some(Kill(r, p.cmd.value, true)) else None, p.(stopped := true), !p.stopped, live)
    case Kill(_, c, clear) =>
      Effect(if clear then Some(ClearCmd(r, c)) else None, p, false, live - {c})
    case ClearCmd(_, c) =>
      end.(proc := Forget(p, c))
  }

  function ApplyEffect(w: World, t: nat, e: Effect): World
    requires t in w.tasks
  {
    World(w.procs, w.recs[w.tasks[t].rec := e.proc],
          if e.task.Some? then w.tasks[t := e.task.value] else w.tasks - {t},
          if e.close then w.closed + {e.proc.stopCh} else w.closed,
          e.live, w.next + 1)
  }

  function AdvanceStep(w: World, t: nat, now: int, ok: bool): World
    requires t in w.tasks && w.tasks[t].rec in w.recs
  {
    ApplyEffect(w, t, TaskStep(w.tasks[t], w.recs[w.tasks[t].rec], w.closed, w.live, w.next, now, ok))
  }

  predicate Bound(w: World, name: string) {
    name in w.procs && w.procs[name] in w.recs
  }

  /** Register: the old record is stopped and dropped before the new one is added. */
  function RegisterStep(w: World, name: string, auto: bool, disabled: bool): World {
    AddRecord(if Bound(w, name) then Drop(w, name) else w, name, auto, disabled)
  }

  function LoadStep(w: World, name: string, auto: bool, disabled: bool): World {
    if Bound(w, name) then Reload(w, name, disabled) else AddRecord(w, name, auto, disabled)
  }

  function UnregisterStep(w: World, name: string): World {
    if Bound(w, name) then Drop(w, name) else w
  }

  function StartEvent(w: World, name: string): World {
    if Bound(w, name) then StartStep(w, name) else w
  }

  function StopEvent(w: World, name: string): World {
    if Bound(w, name) then RequestStop(w, name) else w
  }

  function DieStep(w: World, c: nat): World {
    if c in w.live then Exit(w, c) else w
  }

  function AdvanceEvent(w: World, t: nat, now: int, ok: bool): World {
    if t in w.tasks && w.tasks[t].rec in w.recs then AdvanceStep(w, t, now, ok) else w
  }

  function Step(w: World, e: Event): World {
    match e
    case Register(name, auto, disabled) => RegisterStep(w, name, auto, disabled)
    case Load(name, auto, disabled) => LoadStep(w, name, auto, disabled)
    case Unregister(name) => UnregisterStep(w, name)
    case Start(name) => StartEvent(w, name)
    case Stop(name) => StopEvent(w, name)
    case Die(c) => DieStep(w, c)
    case Advance(t, now, ok) => AdvanceEvent(w, t, now, ok)
  }

  function Run(w: World, es: seq<Event>): World
    decreases |es|
  {
    if es == [] then w else Run(Step(w, es[0]), es[1..])
  }

  // ---- the invariant ----

  /** The tasks that hold the run's channel: a run has one of them at a time. */
  predicate Token(task: Task) {
    !task.StopReq? && !task.Kill? && !task.ClearCmd?
  }

  /** The monitor of a registered child, in any of its phases. */
  predicate Monitors(task: Task, r: nat, ch: nat, c: nat) {
    task == Watch(r, ch, c) || task == Exited(r, ch, c) || task == Reap(r, ch, c) || task == Note(r, ch, c)
  }

  ghost predicate Monitored(w: World, r: nat, c: nat)
    requires r in w.recs
  {
    exists t :: t in w.tasks && Monitors(w.tasks[t], r, w.recs[r].stopCh, c)
  }

  predicate Holds(task: Task, c: nat) {
    (task.Check? || task.Kill?) && task.child == c
  }

  /** A live child is a registered one, or some task is about to check or kill it. */
  ghost predicate Accounted(w: World, c: nat) {
    || (exists r :: r in w.recs && w.recs[r].cmd == Some(c))
    || (exists t :: t in w.tasks && Holds(w.tasks[t], c))
  }

  ghost predicate Fresh(w: World) {
    && (forall r :: r in w.recs ==> r < w.next && w.recs[r].stopCh < w.next)
    && (forall t :: t in w.tasks ==> t < w.next && w.tasks[t].rec in w.recs)
    && (forall t :: t in w.tasks && Token(w.tasks[t]) ==> w.tasks[t].ch < w.next)
    && (forall t :: t in w.tasks && HasChild(w.tasks[t]) ==> w.tasks[t].child < w.next)
    && (forall c :: c in w.closed ==> c < w.next)
    && (forall c :: c in w.live ==> c < w.next)
  }

  predicate HasChild(task: Task) {
    task.Check? || task.Watch? || task.Exited? || task.Reap? || task.Note? || task.Kill? || task.ClearCmd?
  }

  ghost predicate Names(w: World) {
    && (forall n :: n in w.procs ==> w.procs[n] in w.recs && w.recs[w.procs[n]].name == n)
    // a record out of the map is stopped for good and runs nothing
    && (forall r :: r in w.recs ==> (w.recs[r].name in w.procs && w.procs[w.recs[r].name] == r)
                                    || (w.recs[r].stopped && w.recs[r].cmd == None))
  }

  ghost predicate Channels(w: World) {
    && (forall r :: r in w.recs ==> (w.recs[r].stopped <==> w.recs[r].stopCh in w.closed))
    && (forall r, q :: r in w.recs && q in w.recs && w.recs[r].stopCh == w.recs[q].stopCh ==> r == q)
  }

  ghost predicate Tokens(w: World) {
    && (forall t, u | t in w.tasks && u in w.tasks && Token(w.tasks[t]) && Token(w.tasks[u]) ::
          w.tasks[t].ch == w.tasks[u].ch ==> t == u)
    && (forall t, r | t in w.tasks && r in w.recs && Token(w.tasks[t]) ::
          w.tasks[t].ch == w.recs[r].stopCh ==> w.tasks[t].rec == r)
  }

  ghost predicate Children(w: World) {
    && (forall r :: r in w.recs && w.recs[r].cmd.Some? ==> Monitored(w, r, w.recs[r].cmd.value))
    && (forall t :: t in w.tasks && Gone(w.tasks[t]) ==> w.tasks[t].child !in w.live)
  }

  /** The phases reached only after the child has exited. */
  predicate Gone(task: Task) {
    task.Exited? || task.Reap? || task.Note? || task.ClearCmd?
  }

  ghost predicate Budget(w: World) {
    forall r :: r in w.recs ==> InBudget(w.recs[r])
  }

  ghost predicate Inv(w: World) {
    Static(w) && Links(w) && Children(w) && AllAccounted(w) && Exits(w)
  }

  /** A monitor that has not looked at its channel since the child exited. */
  predicate Running(task: Task) {
    task.Watch? || task.Exited?
  }

  /** The kill of a registered child by Stop, and what follows it. */
  predicate Ends(task: Task) {
    (task.Kill? && task.clear) || task.ClearCmd?
  }

  /** A child has one task from its spawn to the end of its monitor; a child
      that Stop kills was registered, and its channel is closed; so a monitor
      whose child is no longer registered will find its channel closed. */
  ghost predicate Exits(w: World) {
    OneTaskEach(w) && KillsClose(w) && StragglersClosed(w)
  }

  ghost predicate OneTask(w: World, t: nat, u: nat)
    requires t in w.tasks && u in w.tasks
  {
    && Token(w.tasks[t]) && HasChild(w.tasks[t]) && Token(w.tasks[u]) && HasChild(w.tasks[u])
    && w.tasks[t].child == w.tasks[u].child
    ==> t == u
  }

  ghost predicate OneTaskEach(w: World) {
    forall t, u | t in w.tasks && u in w.tasks :: OneTask(w, t, u)
  }

  ghost predicate KillCloses(w: World, u: nat, v: nat)
    requires u in w.tasks && v in w.tasks
  {
    && Ends(w.tasks[u]) && Token(w.tasks[v]) && HasChild(w.tasks[v]) && w.tasks[u].child == w.tasks[v].child
    ==> !w.tasks[v].Check? && (Running(w.tasks[v]) ==> w.tasks[v].ch in w.closed)
  }

  ghost predicate KillsClose(w: World) {
    forall u, v | u in w.tasks && v in w.tasks :: KillCloses(w, u, v)
  }

  ghost predicate StragglerClosed(w: World, t: nat)
    requires t in w.tasks
  {
    Running(w.tasks[t]) ==>
      w.tasks[t].ch in w.closed
      || (w.tasks[t].rec in w.recs && w.recs[w.tasks[t].rec].cmd == Some(w.tasks[t].child))
  }

  ghost predicate StragglersClosed(w: World) {
    forall t | t in w.tasks :: StragglerClosed(w, t)
  }

  ghost predicate Static(w: World) {
    Fresh(w) && Names(w) && Budget(w)
  }

  ghost predicate Links(w: World) {
    Channels(w) && Tokens(w)
  }

  // ---- every step keeps the invariant ----

  ghost predicate AllAccounted(w: World) {
    forall c :: c in w.live ==> Accounted(w, c)
  }

  /** With one token per channel, a passing registration check finds no child
      registered: the monitor of one would be a second token. */
  lemma CheckFindsNoChild(w: World, t: nat)
    requires Fresh(w) && Tokens(w) && Children(w) && t in w.tasks && w.tasks[t].Check?
    requires !Superseded(w.recs[w.tasks[t].rec], w.tasks[t].ch)
    ensures w.recs[w.tasks[t].rec].cmd == None
  {
    var r := w.tasks[t].rec;
    assert w.recs[r].cmd.Some? ==> Monitored(w, r, w.recs[r].cmd.value);
  }

  predicate InBudget(p: Proc) {
    p.restartCount <= 10 && (p.gave <==> p.restartCount == 10)
  }

  /** What any step of a task may do, as seen by everyone else. To its record:
      it keeps name and channel, and never reopens a channel. */
  ghost predicate LawfulRecord(p: Proc, e: Effect) {
    && e.proc.name == p.name && e.proc.stopCh == p.stopCh
    && (e.close <==> e.proc.stopped != p.stopped) && (p.stopped ==> e.proc.stopped)
    && (InBudget(p) ==> InBudget(e.proc))
  }

  /** To itself: it keeps its record, its channel and its child. */
  ghost predicate LawfulTask(task: Task, p: Proc, id: nat, e: Effect) {
    e.task.Some? ==>
      && e.task.value.rec == task.rec
      && (Token(e.task.value) ==> Token(task) && e.task.value.ch == task.ch)
      && (HasChild(e.task.value) ==>
            || (HasChild(task) && e.task.value.child == task.child)
            || (task.Spawn? && e.task.value.child == id)
            || (task.StopReq? && p.cmd == Some(e.task.value.child)))
      && (Gone(e.task.value) ==>
            && e.task.value.child !in e.live && (Gone(task) || task.Watch? || task.Kill?)
            && e.task.value.child == task.child)
  }

  /** To children: only a spawn adds one and only a kill removes one; one is
      registered only by a check that passed, and dropped only after it exited;
      a monitor stays while its child is registered. */
  ghost predicate LawfulChild(task: Task, p: Proc, live: set<nat>, id: nat, e: Effect) {
    && (|| e.live == live
        || (task.Spawn? && e.live == live + {id} && e.task.Some? && Holds(e.task.value, id))
        || (task.Kill? && e.live == live - {task.child}))
    && (|| e.proc.cmd == p.cmd
        || (p.cmd.Some? && e.proc.cmd == None && Gone(task) && task.child == p.cmd.value)
        || (task.Check? && !Superseded(p, task.ch) && e.proc.cmd == Some(task.child)
            && e.task == Some(Watch(task.rec, task.ch, task.child))))
    && (p.cmd.Some? && e.proc.cmd == p.cmd && Monitors(task, task.rec, p.stopCh, p.cmd.value) ==>
          e.task.Some? && Monitors(e.task.value, task.rec, p.stopCh, p.cmd.value))
  }

  /** And it keeps a held child held or registered, unless it killed it. */
  ghost predicate LawfulHold(task: Task, e: Effect) {
    (task.Check? || task.Kill?) && task.child in e.live ==>
      e.proc.cmd == Some(task.child) || (e.task.Some? && Holds(e.task.value, task.child))
  }

  ghost predicate Lawful(task: Task, p: Proc, live: set<nat>, id: nat, e: Effect) {
    LawfulRecord(p, e) && LawfulTask(task, p, id, e) && LawfulChild(task, p, live, id, e) && LawfulHold(task, e)
  }

  lemma TaskStepKeepsRecord(task: Task, p: Proc, closed: set<nat>, live: set<nat>, id: nat, now: int, ok: bool)
    ensures LawfulRecord(p, TaskStep(task, p, closed, live, id, now, ok))
  {
  }

  lemma TaskStepKeepsTask(task: Task, p: Proc, closed: set<nat>, live: set<nat>, id: nat, now: int, ok: bool)
    requires Gone(task) ==> task.child !in live
    ensures LawfulTask(task, p, id, TaskStep(task, p, closed, live, id, now, ok))
  {
  }

  lemma TaskStepKeepsChild(task: Task, p: Proc, closed: set<nat>, live: set<nat>, id: nat, now: int, ok: bool)
    ensures LawfulChild(task, p, live, id, TaskStep(task, p, closed, live, id, now, ok))
    ensures LawfulHold(task, TaskStep(task, p, closed, live, id, now, ok))
  {
  }

  lemma TaskStepIsLawful(task: Task, p: Proc, closed: set<nat>, live: set<nat>, id: nat, now: int, ok: bool)
    requires Gone(task) ==> task.child !in live
    ensures Lawful(task, p, live, id, TaskStep(task, p, closed, live, id, now, ok)) == true
  {
    TaskStepKeepsRecord(task, p, closed, live, id, now, ok);
    TaskStepKeepsTask(task, p, closed, live, id, now, ok);
    TaskStepKeepsChild(task, p, closed, live, id, now, ok);
  }

  /** A child stays accounted for while those who account for it keep it. */
  lemma StillAccounted(w: World, w': World, c: nat)
    requires Accounted(w, c)
    requires forall r :: r in w.recs && w.recs[r].cmd == Some(c) ==> r in w'.recs && w'.recs[r].cmd == Some(c)
    requires forall t :: t in w.tasks && Holds(w.tasks[t], c) ==> t in w'.tasks && Holds(w'.tasks[t], c)
    ensures Accounted(w', c)
  {
    if r :| r in w.recs && w.recs[r].cmd == Some(c) {
      assert w'.recs[r].cmd == Some(c);
    } else {
      var t :| t in w.tasks && Holds(w.tasks[t], c);
      assert Holds(w'.tasks[t], c);
    }
  }

  lemma StillMonitored(w: World, w': World, r: nat, c: nat)
    requires r in w.recs && r in w'.recs && w.recs[r].stopCh == w'.recs[r].stopCh
    requires Monitored(w, r, c)
    requires forall t :: t in w.tasks && Monitors(w.tasks[t], r, w.recs[r].stopCh, c) ==>
                           t in w'.tasks && Monitors(w'.tasks[t], r, w.recs[r].stopCh, c)
    ensures Monitored(w', r, c)
  {
    var t :| t in w.tasks && Monitors(w.tasks[t], r, w.recs[r].stopCh, c);
    assert Monitors(w'.tasks[t], r, w'.recs[r].stopCh, c);
  }

  /** A step that starts no monitor and drops a child only with its record's
      registration keeps children monitored and accounted for. */
  lemma FrameKeepsChildren(w: World, w': World)
    requires Children(w) && AllAccounted(w)
    requires forall r :: r in w'.recs && w'.recs[r].cmd.Some? ==>
                           r in w.recs && w.recs[r].cmd == w'.recs[r].cmd && w.recs[r].stopCh == w'.recs[r].stopCh
    requires forall t :: t in w.tasks ==> t in w'.tasks && w'.tasks[t] == w.tasks[t]
    requires forall t :: t in w'.tasks && t !in w.tasks ==> !Gone(w'.tasks[t])
    requires w'.live <= w.live
    requires forall r, c :: r in w.recs && w.recs[r].cmd == Some(c) && c in w'.live ==>
                              r in w'.recs && w'.recs[r].cmd == Some(c)
    ensures Children(w') && AllAccounted(w')
  {
    forall r | r in w'.recs && w'.recs[r].cmd.Some?
      ensures Monitored(w', r, w'.recs[r].cmd.value)
    {
      StillMonitored(w, w', r, w'.recs[r].cmd.value);
    }
    forall c | c in w'.live
      ensures Accounted(w', c)
    {
      StillAccounted(w, w', c);
    }
  }

  /** The monitor of a registered child carries the record's channel. */
  lemma MonitorOnCurrentChannel(w: World, r: nat, c: nat, v: nat)
    requires Children(w) && OneTaskEach(w) && r in w.recs && w.recs[r].cmd == Some(c)
    requires v in w.tasks && Token(w.tasks[v]) && HasChild(w.tasks[v]) && w.tasks[v].child == c
    ensures !w.tasks[v].Check? && w.tasks[v].ch == w.recs[r].stopCh
  {
    assert Monitored(w, r, c);
    var m :| m in w.tasks && Monitors(w.tasks[m], r, w.recs[r].stopCh, c);
    assert OneTask(w, m, v);
  }

  /** A step that adds only tasks without a child, and closes the channel of
      every registration it drops. */
  lemma FrameKeepsExits(w: World, w': World)
    requires Exits(w)
    requires forall t :: t in w.tasks ==> t in w'.tasks && w'.tasks[t] == w.tasks[t]
    requires forall t :: t in w'.tasks && t !in w.tasks ==> !HasChild(w'.tasks[t])
    requires w.closed <= w'.closed
    requires forall t :: t in w.tasks && StragglerClosed(w, t) ==> StragglerClosed(w', t)
    ensures Exits(w')
  {
    forall t, u | t in w'.tasks && u in w'.tasks ensures OneTask(w', t, u) && KillCloses(w', t, u) {
      if t in w.tasks && u in w.tasks {
        assert OneTask(w, t, u) && KillCloses(w, t, u);
      }
    }
    forall t | t in w'.tasks ensures StragglerClosed(w', t) {
      if t in w.tasks {
        assert StragglerClosed(w, t);
      }
    }
  }

  ghost predicate LawfulAt(w: World, t: nat, e: Effect) {
    t in w.tasks && w.tasks[t].rec in w.recs && Lawful(w.tasks[t], w.recs[w.tasks[t].rec], w.live, w.next, e)
  }

  lemma EffectKeepsFresh(w: World, t: nat, e: Effect)
    requires Fresh(w) && Children(w) && LawfulAt(w, t, e)
    ensures Fresh(ApplyEffect(w, t, e))
  {
  }

  lemma EffectKeepsNames(w: World, t: nat, e: Effect)
    requires Static(w) && LawfulAt(w, t, e)
    ensures Names(ApplyEffect(w, t, e)) && Budget(ApplyEffect(w, t, e))
  {
  }

  lemma EffectKeepsChannels(w: World, t: nat, e: Effect)
    requires Channels(w) && LawfulAt(w, t, e)
    ensures Channels(ApplyEffect(w, t, e))
  {
  }

  lemma EffectKeepsTokens(w: World, t: nat, e: Effect)
    requires Fresh(w) && Tokens(w) && LawfulAt(w, t, e)
    ensures Tokens(ApplyEffect(w, t, e))
  {
  }

  lemma EffectKeepsMonitored(w: World, t: nat, e: Effect, r: nat)
    requires Children(w) && LawfulAt(w, t, e) && r in w.recs
    requires ApplyEffect(w, t, e).recs[r].cmd.Some?
    ensures Monitored(ApplyEffect(w, t, e), r, ApplyEffect(w, t, e).recs[r].cmd.value)
  {
    var w' := ApplyEffect(w, t, e);
    var c := w'.recs[r].cmd.value;
    if w.recs[r].cmd == Some(c) {
      var u :| u in w.tasks && Monitors(w.tasks[u], r, w.recs[r].stopCh, c);
      assert Monitors(w'.tasks[u], r, w'.recs[r].stopCh, c);
    } else {
      assert Monitors(w'.tasks[t], r, w'.recs[r].stopCh, c);
    }
  }

  lemma EffectKeepsChildren(w: World, t: nat, e: Effect)
    requires Fresh(w) && Children(w) && LawfulAt(w, t, e)
    ensures Children(ApplyEffect(w, t, e))
  {
    var w' := ApplyEffect(w, t, e);
    forall r | r in w'.recs && w'.recs[r].cmd.Some?
      ensures Monitored(w', r, w'.recs[r].cmd.value)
    {
      EffectKeepsMonitored(w, t, e, r);
    }
  }

  lemma EffectKeepsAccounted(w: World, t: nat, e: Effect, c: nat)
    requires Children(w) && AllAccounted(w) && LawfulAt(w, t, e) && c in e.live
    requires w.tasks[t].Check? && !Superseded(w.recs[w.tasks[t].rec], w.tasks[t].ch) ==> w.recs[w.tasks[t].rec].cmd == None
    ensures Accounted(ApplyEffect(w, t, e), c)
  {
    var w' := ApplyEffect(w, t, e);
    if c !in w.live {
      assert Holds(w'.tasks[t], c);
    } else if r :| r in w.recs && w.recs[r].cmd == Some(c) {
      assert w'.recs[r].cmd == Some(c);
    } else {
      var u :| u in w.tasks && Holds(w.tasks[u], c);
      if u == t && e.proc.cmd == Some(c) {
        assert w'.recs[w.tasks[t].rec].cmd == Some(c);
      } else {
        assert Holds(w'.tasks[u], c);
      }
    }
  }

  /** What a step of a task may do to monitors and registrations. */
  ghost predicate LawfulExit(task: Task, p: Proc, id: nat, e: Effect) {
    && (e.task.Some? && Token(e.task.value) && HasChild(e.task.value) ==>
          || (task.Spawn? && e.task.value.child == id && e.task.value.Check?)
          || (Token(task) && HasChild(task) && e.task.value.child == task.child && !e.task.value.Check?))
    && (e.task.Some? && Ends(e.task.value) ==>
          || (Ends(task) && e.task.value.child == task.child)
          || (task.StopReq? && p.cmd == Some(e.task.value.child) && e.proc.stopped))
    && (e.task.Some? && Running(e.task.value) ==>
          && e.task.value.rec == task.rec && e.task.value.ch == task.ch && e.task.value.child == task.child
          && ((Running(task) && e.proc.cmd == p.cmd) || (task.Check? && e.proc.cmd == Some(task.child))))
    && (e.proc.cmd != p.cmd ==>
          || (task.Check? && !Superseded(p, task.ch))
          || ((task.Reap? || task.Note? || task.ClearCmd?) && p.cmd == Some(task.child)))
    && e.proc.stopCh == p.stopCh
    && (e.close <==> e.proc.stopped != p.stopped)
  }

  lemma TaskStepIsLawfulExit(task: Task, p: Proc, closed: set<nat>, live: set<nat>, id: nat, now: int, ok: bool)
    ensures LawfulExit(task, p, id, TaskStep(task, p, closed, live, id, now, ok))
  {
  }

  ghost predicate ExitsAt(w: World, t: nat, e: Effect) {
    && t in w.tasks && w.tasks[t].rec in w.recs
    && LawfulExit(w.tasks[t], w.recs[w.tasks[t].rec], w.next, e)
  }

  lemma EffectKeepsOneTask(w: World, t: nat, e: Effect, u: nat, v: nat)
    requires Fresh(w) && OneTaskEach(w) && ExitsAt(w, t, e)
    requires u in ApplyEffect(w, t, e).tasks && v in ApplyEffect(w, t, e).tasks
    ensures OneTask(ApplyEffect(w, t, e), u, v)
  {
    assert OneTask(w, u, v);
  }

  lemma EffectKeepsEnds(w: World, t: nat, e: Effect, u: nat, v: nat)
    requires Fresh(w) && KillsClose(w) && ExitsAt(w, t, e)
    requires u in ApplyEffect(w, t, e).tasks && v in ApplyEffect(w, t, e).tasks
    requires !(u == t && w.tasks[t].StopReq?)
    ensures KillCloses(ApplyEffect(w, t, e), u, v)
  {
    assert KillCloses(w, u, v);
  }

  lemma StopKeepsEnds(w: World, t: nat, e: Effect, v: nat)
    requires Channels(w) && Children(w) && OneTaskEach(w) && ExitsAt(w, t, e) && w.tasks[t].StopReq?
    requires t in ApplyEffect(w, t, e).tasks && v in ApplyEffect(w, t, e).tasks
    ensures KillCloses(ApplyEffect(w, t, e), t, v)
  {
    var w' := ApplyEffect(w, t, e);
    if Ends(w'.tasks[t]) && v != t && Token(w.tasks[v]) && HasChild(w.tasks[v]) && w.tasks[v].child == w'.tasks[t].child {
      MonitorOnCurrentChannel(w, w.tasks[t].rec, w'.tasks[t].child, v);
    }
  }

  lemma EffectKeepsStraggler(w: World, t: nat, e: Effect, u: nat)
    requires OneTaskEach(w) && KillsClose(w) && StragglersClosed(w) && ExitsAt(w, t, e)
    requires w.tasks[t].Check? && !Superseded(w.recs[w.tasks[t].rec], w.tasks[t].ch) ==> w.recs[w.tasks[t].rec].cmd == None
    requires u in ApplyEffect(w, t, e).tasks && u in w.tasks
    ensures StragglerClosed(ApplyEffect(w, t, e), u)
  {
    assert StragglerClosed(w, u);
    assert OneTask(w, t, u) && KillCloses(w, t, u);
  }

  lemma EffectKeepsOneTaskEach(w: World, t: nat, e: Effect)
    requires Fresh(w) && OneTaskEach(w) && ExitsAt(w, t, e)
    ensures OneTaskEach(ApplyEffect(w, t, e))
  {
    forall u, v | u in ApplyEffect(w, t, e).tasks && v in ApplyEffect(w, t, e).tasks
      ensures OneTask(ApplyEffect(w, t, e), u, v)
    {
      EffectKeepsOneTask(w, t, e, u, v);
    }
  }

  lemma EffectKeepsKillsClose(w: World, t: nat, e: Effect)
    requires Fresh(w) && Channels(w) && Children(w) && OneTaskEach(w) && KillsClose(w) && ExitsAt(w, t, e)
    ensures KillsClose(ApplyEffect(w, t, e))
  {
    forall u, v | u in ApplyEffect(w, t, e).tasks && v in ApplyEffect(w, t, e).tasks
      ensures KillCloses(ApplyEffect(w, t, e), u, v)
    {
      if u == t && w.tasks[t].StopReq? {
        StopKeepsEnds(w, t, e, v);
      } else {
        EffectKeepsEnds(w, t, e, u, v);
      }
    }
  }

  lemma EffectKeepsExits(w: World, t: nat, e: Effect)
    requires Fresh(w) && Channels(w) && Children(w) && Exits(w) && ExitsAt(w, t, e)
    requires w.tasks[t].Check? && !Superseded(w.recs[w.tasks[t].rec], w.tasks[t].ch) ==> w.recs[w.tasks[t].rec].cmd == None
    ensures Exits(ApplyEffect(w, t, e)) == true
  {
    EffectKeepsOneTaskEach(w, t, e);
    EffectKeepsKillsClose(w, t, e);
    forall u | u in ApplyEffect(w, t, e).tasks ensures StragglerClosed(ApplyEffect(w, t, e), u) {
      EffectKeepsStraggler(w, t, e, u);
    }
  }

  lemma AdvanceKeepsStatic(w: World, t: nat, e: Effect)
    requires Static(w) && Links(w) && Children(w) && LawfulAt(w, t, e)
    ensures Static(ApplyEffect(w, t, e)) == true && Links(ApplyEffect(w, t, e)) == true
  {
    EffectKeepsFresh(w, t, e);
    EffectKeepsNames(w, t, e);
    EffectKeepsChannels(w, t, e);
    EffectKeepsTokens(w, t, e);
  }

  lemma AdvanceKeepsChildren(w: World, t: nat, e: Effect)
    requires Fresh(w) && Tokens(w) && Children(w) && AllAccounted(w) && LawfulAt(w, t, e)
    ensures Children(ApplyEffect(w, t, e)) == true && AllAccounted(ApplyEffect(w, t, e)) == true
  {
    EffectKeepsChildren(w, t, e);
    NothingOverwritten(w, t);
    forall c | c in e.live ensures Accounted(ApplyEffect(w, t, e), c) {
      EffectKeepsAccounted(w, t, e, c);
    }
  }

  lemma NothingOverwritten(w: World, t: nat)
    requires Fresh(w) && Tokens(w) && Children(w) && t in w.tasks
    ensures w.tasks[t].Check? && !Superseded(w.recs[w.tasks[t].rec], w.tasks[t].ch) ==> w.recs[w.tasks[t].rec].cmd == None
  {
    if w.tasks[t].Check? && !Superseded(w.recs[w.tasks[t].rec], w.tasks[t].ch) {
      CheckFindsNoChild(w, t);
    }
  }

  lemma AdvanceKeepsInv(w: World, t: nat, now: int, ok: bool)
    requires Inv(w) && t in w.tasks
    ensures Inv(AdvanceStep(w, t, now, ok)) == true  // an equation, so that Inv is not taken apart
  {
    var task, p := w.tasks[t], w.recs[w.tasks[t].rec];
    var e := TaskStep(task, p, w.closed, w.live, w.next, now, ok);
    TaskStepIsLawful(task, p, w.closed, w.live, w.next, now, ok);
    TaskStepIsLawfulExit(task, p, w.closed, w.live, w.next, now, ok);
    EffectKeepsInv(w, t, e);
  }

  lemma EffectKeepsInv(w: World, t: nat, e: Effect)
    requires Inv(w) && LawfulAt(w, t, e) && ExitsAt(w, t, e)
    ensures Inv(ApplyEffect(w, t, e)) == true
  {
    AdvanceKeepsStatic(w, t, e);
    AdvanceKeepsChildren(w, t, e);
    NothingOverwritten(w, t);
    EffectKeepsExits(w, t, e);
  }

  lemma DropKeepsInv(w: World, name: string)
    requires Inv(w) && Bound(w, name)
    ensures Inv(Drop(w, name)) == true
  {
    DropKeepsStatic(w, name);
    DropKeepsLinks(w, name);
    DropKeepsChildren(w, name);
    DropKeepsExits(w, name);
  }

  lemma DropKeepsExits(w: World, name: string)
    requires Children(w) && Exits(w) && Bound(w, name)
    ensures Exits(Drop(w, name))
  {
    forall t | t in w.tasks && StragglerClosed(w, t) ensures StragglerClosed(Drop(w, name), t) {
      var r := w.procs[name];
      if Running(w.tasks[t]) && w.recs[r].cmd == Some(w.tasks[t].child) {
        MonitorOnCurrentChannel(w, r, w.tasks[t].child, t);
      }
    }
    FrameKeepsExits(w, Drop(w, name));
  }

  lemma DropKeepsStatic(w: World, name: string)
    requires Static(w) && Bound(w, name)
    ensures Static(Drop(w, name))
  {
  }

  lemma DropKeepsLinks(w: World, name: string)
    requires Fresh(w) && Links(w) && Bound(w, name)
    ensures Links(Drop(w, name))
  {
  }

  lemma DropKeepsChildren(w: World, name: string)
    requires Fresh(w) && Children(w) && AllAccounted(w) && Bound(w, name)
    ensures Children(Drop(w, name)) && AllAccounted(Drop(w, name))
  {
    FrameKeepsChildren(w, Drop(w, name));
  }

  lemma AddKeepsInv(w: World, name: string, autoRestart: bool, disabled: bool)
    requires Inv(w) && name !in w.procs
    ensures Inv(AddRecord(w, name, autoRestart, disabled)) == true
  {
    AddKeepsStatic(w, name, autoRestart, disabled);
    AddKeepsLinks(w, name, autoRestart, disabled);
    AddKeepsChildren(w, name, autoRestart, disabled);
    FrameKeepsExits(w, AddRecord(w, name, autoRestart, disabled));
  }

  lemma AddKeepsStatic(w: World, name: string, autoRestart: bool, disabled: bool)
    requires Static(w) && name !in w.procs
    ensures Static(AddRecord(w, name, autoRestart, disabled))
  {
  }

  lemma AddKeepsLinks(w: World, name: string, autoRestart: bool, disabled: bool)
    requires Fresh(w) && Links(w) && name !in w.procs
    ensures Links(AddRecord(w, name, autoRestart, disabled))
  {
  }

  lemma AddKeepsChildren(w: World, name: string, autoRestart: bool, disabled: bool)
    requires Fresh(w) && Children(w) && AllAccounted(w) && name !in w.procs
    ensures Children(AddRecord(w, name, autoRestart, disabled)) && AllAccounted(AddRecord(w, name, autoRestart, disabled))
  {
    FrameKeepsChildren(w, AddRecord(w, name, autoRestart, disabled));
  }

  lemma StartKeepsInv(w: World, name: string)
    requires Inv(w) && Bound(w, name)
    ensures Inv(StartStep(w, name)) == true
  {
    if Startable(w, name) {
      StartKeepsStatic(w, name);
      StartKeepsLinks(w, name);
      StartKeepsChildren(w, name);
      StartKeepsExits(w, name);
    }
  }

  lemma StartKeepsChildren(w: World, name: string)
    requires Fresh(w) && Children(w) && AllAccounted(w) && Bound(w, name) && Startable(w, name)
    ensures Children(Started(w, name)) && AllAccounted(Started(w, name))
  {
    FrameKeepsChildren(w, Started(w, name));
  }

  lemma StartKeepsExits(w: World, name: string)
    requires Fresh(w) && Exits(w) && Bound(w, name)
    ensures Exits(Started(w, name))
  {
    FrameKeepsExits(w, Started(w, name));
  }

  lemma StartKeepsStatic(w: World, name: string)
    requires Static(w) && Bound(w, name)
    ensures Static(Started(w, name))
  {
  }

  lemma StartKeepsLinks(w: World, name: string)
    requires Fresh(w) && Links(w) && Bound(w, name)
    ensures Links(Started(w, name))
  {
  }

  lemma ReloadKeepsInv(w: World, name: string, disabled: bool)
    requires Inv(w) && Bound(w, name)
    ensures Inv(Reload(w, name, disabled)) == true
  {
    ReloadKeepsStatic(w, name, disabled);
    ReloadKeepsLinks(w, name, disabled);
    ReloadKeepsChildren(w, name, disabled);
    FrameKeepsExits(w, Reload(w, name, disabled));
  }

  lemma ReloadKeepsStatic(w: World, name: string, disabled: bool)
    requires Static(w) && Bound(w, name)
    ensures Static(Reload(w, name, disabled))
  {
  }

  lemma ReloadKeepsLinks(w: World, name: string, disabled: bool)
    requires Fresh(w) && Links(w) && Bound(w, name)
    ensures Links(Reload(w, name, disabled))
  {
  }

  lemma ReloadKeepsChildren(w: World, name: string, disabled: bool)
    requires Fresh(w) && Children(w) && AllAccounted(w) && Bound(w, name)
    ensures Children(Reload(w, name, disabled)) && AllAccounted(Reload(w, name, disabled))
  {
    FrameKeepsChildren(w, Reload(w, name, disabled));
  }

  lemma StopKeepsInv(w: World, name: string)
    requires Inv(w) && Bound(w, name)
    ensures Inv(RequestStop(w, name)) == true
  {
    StopKeepsStatic(w, name);
    StopKeepsLinks(w, name);
    StopKeepsChildren(w, name);
    StopKeepsExits(w, name);
  }

  lemma StopKeepsExits(w: World, name: string)
    requires Fresh(w) && Exits(w) && Bound(w, name)
    ensures Exits(RequestStop(w, name))
  {
    FrameKeepsExits(w, RequestStop(w, name));
  }

  lemma StopKeepsStatic(w: World, name: string)
    requires Static(w) && Bound(w, name)
    ensures Static(RequestStop(w, name))
  {
  }

  lemma StopKeepsLinks(w: World, name: string)
    requires Fresh(w) && Links(w) && Bound(w, name)
    ensures Links(RequestStop(w, name))
  {
  }

  lemma StopKeepsChildren(w: World, name: string)
    requires Fresh(w) && Children(w) && AllAccounted(w) && Bound(w, name)
    ensures Children(RequestStop(w, name)) && AllAccounted(RequestStop(w, name))
  {
    FrameKeepsChildren(w, RequestStop(w, name));
  }

  lemma DieKeepsInv(w: World, c: nat)
    requires Inv(w) && c in w.live
    ensures Inv(Exit(w, c)) == true
  {
    DieKeepsStatic(w, c);
    DieKeepsLinks(w, c);
    DieKeepsChildren(w, c);
    FrameKeepsExits(w, Exit(w, c));
  }

  lemma DieKeepsStatic(w: World, c: nat)
    requires Static(w) && c in w.live
    ensures Static(Exit(w, c))
  {
  }

  lemma DieKeepsLinks(w: World, c: nat)
    requires Fresh(w) && Links(w) && c in w.live
    ensures Links(Exit(w, c))
  {
  }

  lemma DieKeepsChildren(w: World, c: nat)
    requires Fresh(w) && Children(w) && AllAccounted(w) && c in w.live
    ensures Children(Exit(w, c)) && AllAccounted(Exit(w, c))
  {
    FrameKeepsChildren(w, Exit(w, c));
  }

  lemma RegisterKeepsInv(w: World, name: string, auto: bool, disabled: bool)
    requires Inv(w)
    ensures Inv(RegisterStep(w, name, auto, disabled)) == true
  {
    if Bound(w, name) {
      DropKeepsInv(w, name);
      AddKeepsInv(Drop(w, name), name, auto, disabled);
    } else {
      AddKeepsInv(w, name, auto, disabled);
    }
  }

  lemma LoadKeepsInv(w: World, name: string, auto: bool, disabled: bool)
    requires Inv(w)
    ensures Inv(LoadStep(w, name, auto, disabled)) == true
  {
    if Bound(w, name) {
      ReloadKeepsInv(w, name, disabled);
    } else {
      AddKeepsInv(w, name, auto, disabled);
    }
  }

  lemma UnregisterKeepsInv(w: World, name: string)
    requires Inv(w)
    ensures Inv(UnregisterStep(w, name)) == true
  {
    if Bound(w, name) {
      DropKeepsInv(w, name);
    }
  }

  lemma StartEventKeepsInv(w: World, name: string)
    requires Inv(w)
    ensures Inv(StartEvent(w, name)) == true
  {
    if Bound(w, name) {
      StartKeepsInv(w, name);
    }
  }

  lemma StopEventKeepsInv(w: World, name: string)
    requires Inv(w)
    ensures Inv(StopEvent(w, name)) == true
  {
    if Bound(w, name) {
      StopKeepsInv(w, name);
    }
  }

  lemma DieStepKeepsInv(w: World, c: nat)
    requires Inv(w)
    ensures Inv(DieStep(w, c)) == true
  {
    if c in w.live {
      DieKeepsInv(w, c);
    }
  }

  lemma AdvanceEventKeepsInv(w: World, t: nat, now: int, ok: bool)
    requires Inv(w)
    ensures Inv(AdvanceEvent(w, t, now, ok)) == true
  {
    if t in w.tasks {
      AdvanceKeepsInv(w, t, now, ok);
    }
  }

  lemma StepKeepsInv(w: World, e: Event)
    requires Inv(w)
    ensures Inv(Step(w, e)) == true
  {
    match e
    case Register(name, auto, disabled) => RegisterKeepsInv(w, name, auto, disabled);
    case Load(name, auto, disabled) => LoadKeepsInv(w, name, auto, disabled);
    case Unregister(name) => UnregisterKeepsInv(w, name);
    case Start(name) => StartEventKeepsInv(w, name);
    case Stop(name) => StopEventKeepsInv(w, name);
    case Die(c) => DieStepKeepsInv(w, c);
    case Advance(t, now, ok) => AdvanceEventKeepsInv(w, t, now, ok);
  }

  lemma {:induction false} RunKeepsInv(w: World, es: seq<Event>)
    requires Inv(w)
    ensures Inv(Run(w, es))
    decreases |es|
  {
    if es != [] {
      StepKeepsInv(w, es[0]);
      RunKeepsInv(Step(w, es[0]), es[1..]);
    }
  }

  lemma {:induction false} RunSnoc(w: World, es: seq<Event>, e: Event)
    ensures Run(w, es + [e]) == Step(Run(w, es), e)
    decreases |es|
  {
    if es == [] {
      assert [e][1..] == [];
    } else {
      assert (es + [e])[1..] == es[1..] + [e];
      RunSnoc(Step(w, es[0]), es[1..], e);
    }
  }

  // ---- what holds in every run ----

  /** No live child is ever lost: Stop can reach it through the map, or a task
      holds it and will check or kill it. */
  lemma NoChildIsLost(es: seq<Event>, c: nat)
    requires c in Run(Init, es).live
    ensures var w := Run(Init, es);
            || (exists n :: n in w.procs && w.procs[n] in w.recs && w.recs[w.procs[n]].cmd == Some(c))
            || (exists t :: t in w.tasks && Holds(w.tasks[t], c))
  {
    RunKeepsInv(Init, es);
    RegisteredIsBound(Run(Init, es), c);
  }

  lemma RegisteredIsBound(w: World, c: nat)
    requires Names(w) && Accounted(w, c)
    ensures (exists n :: n in w.procs && w.procs[n] in w.recs && w.recs[w.procs[n]].cmd == Some(c))
            || (exists t :: t in w.tasks && Holds(w.tasks[t], c))
  {
    if r :| r in w.recs && w.recs[r].cmd == Some(c) {
      assert w.recs[w.procs[w.recs[r].name]].cmd == Some(c);
    }
  }

  /** A registration check that passes finds no registered child to overwrite. */
  lemma RegistrationOverwritesNothing(es: seq<Event>, t: nat, now: int, ok: bool)
    requires t in Run(Init, es).tasks && Run(Init, es).tasks[t].Check?
    ensures var w := Run(Init, es);
            var task := w.tasks[t];
            && task.rec in w.recs
            && (AdvanceStep(w, t, now, ok).recs[task.rec].cmd == Some(task.child) != w.recs[task.rec].cmd ==>
                  w.recs[task.rec].cmd == None)
  {
    var w := Run(Init, es);
    RunKeepsInv(Init, es);
    if !Superseded(w.recs[w.tasks[t].rec], w.tasks[t].ch) {
      CheckFindsNoChild(w, t);
    }
  }

  /** `stopped` says exactly whether the current channel is closed, so it is
      never closed twice, and a registered child is monitored under it. */
  lemma RegisteredChildIsOnCurrentChannel(es: seq<Event>, r: nat)
    requires r in Run(Init, es).recs
    ensures var w := Run(Init, es);
            && (w.recs[r].stopped <==> w.recs[r].stopCh in w.closed)
            && (w.recs[r].cmd.Some? ==> Monitored(w, r, w.recs[r].cmd.value))
  {
    RunKeepsInv(Init, es);
  }

  /** No start of this record is under way: it is stopped, or its channel has
      been handed to no task. */
  ghost predicate Asleep(w: World, r: nat)
    requires r in w.recs
  {
    w.recs[r].stopped || forall t :: t in w.tasks && Token(w.tasks[t]) ==> w.tasks[t].ch != w.recs[r].stopCh
  }

  /** No start of the app is under way, under whichever record. */
  ghost predicate Down(w: World, name: string) {
    forall r :: r in w.recs && w.recs[r].name == name ==> Asleep(w, r)
  }

  /** An app that is stopped, or not registered, is down. */
  lemma StoppedIsDown(w: World, name: string)
    requires Names(w) && (name in w.procs ==> w.procs[name] in w.recs && w.recs[w.procs[name]].stopped)
    ensures Down(w, name)
  {
  }

  /** No record of the app gains a child from `w` to `w'`. */
  ghost predicate GainsNothing(w: World, w': World, name: string) {
    forall r :: r in w'.recs && w'.recs[r].name == name && w'.recs[r].cmd.Some? ==>
      r in w.recs && w.recs[r].name == name && w.recs[r].cmd == w'.recs[r].cmd
  }

  ghost predicate StaysDown(w: World, w': World, name: string) {
    Down(w', name) && GainsNothing(w, w', name)
  }

  lemma AdvanceStaysDown(w: World, t: nat, now: int, ok: bool, name: string)
    requires Fresh(w) && Children(w) && Down(w, name) && t in w.tasks
    ensures StaysDown(w, AdvanceStep(w, t, now, ok), name)
  {
    var task, p := w.tasks[t], w.recs[w.tasks[t].rec];
    TaskStepKeepsRecord(task, p, w.closed, w.live, w.next, now, ok);
    TaskStepKeepsTask(task, p, w.closed, w.live, w.next, now, ok);
    TaskStepKeepsChild(task, p, w.closed, w.live, w.next, now, ok);
    assert task.rec in w.recs && p.name == name ==> Asleep(w, task.rec);
    var e := TaskStep(task, p, w.closed, w.live, w.next, now, ok);
    EffectStaysDown(w, t, e, name);
  }

  lemma EffectStaysDown(w: World, t: nat, e: Effect, name: string)
    requires t in w.tasks && w.tasks[t].rec in w.recs && Down(w, name)
    requires var task, p := w.tasks[t], w.recs[w.tasks[t].rec];
             LawfulRecord(p, e) && LawfulTask(task, p, w.next, e) && LawfulChild(task, p, w.live, w.next, e)
    ensures StaysDown(w, ApplyEffect(w, t, e), name)
  {
    var w' := ApplyEffect(w, t, e);
    forall r | r in w'.recs && w'.recs[r].name == name
      ensures Asleep(w', r)
    {
      assert Asleep(w, r);
    }
  }

  lemma DropStaysDown(w: World, name: string, other: string)
    requires Down(w, name) && Bound(w, other)
    ensures StaysDown(w, Drop(w, other), name)
  {
    var w' := Drop(w, other);
    forall r | r in w'.recs && w'.recs[r].name == name ensures Asleep(w', r) {
      assert Asleep(w, r);
    }
  }

  lemma AddStaysDown(w: World, name: string, other: string, auto: bool, disabled: bool)
    requires Fresh(w) && Down(w, name)
    ensures StaysDown(w, AddRecord(w, other, auto, disabled), name)
  {
    var w' := AddRecord(w, other, auto, disabled);
    forall r | r in w'.recs && w'.recs[r].name == name ensures Asleep(w', r) {
      assert r in w.recs ==> Asleep(w, r);
    }
  }

  lemma StartStaysDown(w: World, name: string, other: string)
    requires Fresh(w) && Names(w) && Down(w, name) && Bound(w, other) && other != name
    ensures StaysDown(w, Started(w, other), name)
  {
    var w' := Started(w, other);
    forall r | r in w'.recs && w'.recs[r].name == name ensures Asleep(w', r) {
      assert Asleep(w, r);
    }
  }

  lemma QuietStaysDown(w: World, name: string, other: string, disabled: bool, c: nat)
    requires Down(w, name)
    ensures Bound(w, other) ==> StaysDown(w, Reload(w, other, disabled), name)
    ensures Bound(w, other) && w.next !in w.tasks ==> StaysDown(w, RequestStop(w, other), name)
    ensures StaysDown(w, Exit(w, c), name) && StaysDown(w, w, name)
  {
    forall r | r in w.recs && w.recs[r].name == name ensures Asleep(w, r) {
    }
  }

  /** Every event but the app's own Start leaves it down. */
  lemma StepStaysDown(w: World, e: Event, name: string)
    requires Fresh(w) && Names(w) && Children(w) && Down(w, name) && e != Start(name)
    ensures StaysDown(w, Step(w, e), name) == true
  {
    QuietStaysDown(w, name, name, false, 0);
    match e
    case Register(other, auto, disabled) => RegisterStaysDown(w, name, other, auto, disabled);
    case Load(other, auto, disabled) =>
      if Bound(w, other) {
        QuietStaysDown(w, name, other, disabled, 0);
      } else {
        AddStaysDown(w, name, other, auto, disabled);
      }
    case Unregister(other) => if Bound(w, other) { DropStaysDown(w, name, other); }
    case Start(other) => if Bound(w, other) && Startable(w, other) { StartStaysDown(w, name, other); }
    case Stop(other) => QuietStaysDown(w, name, other, false, 0);
    case Die(c) => QuietStaysDown(w, name, name, false, c);
    case Advance(t, now, ok) => if t in w.tasks { AdvanceStaysDown(w, t, now, ok, name); }
  }

  lemma RegisterStaysDown(w: World, name: string, other: string, auto: bool, disabled: bool)
    requires Fresh(w) && Names(w) && Down(w, name)
    ensures StaysDown(w, RegisterStep(w, other, auto, disabled), name) == true
  {
    if Bound(w, other) {
      DropStaysDown(w, name, other);
      AddStaysDown(Drop(w, other), name, other, auto, disabled);
    } else {
      AddStaysDown(w, name, other, auto, disabled);
    }
  }

  /** From a stop of the app to its next Start nothing registers for it,
      whatever else runs and however often it is registered again: no record
      of that name, old or new, gains a child. */
  lemma {:induction false} StoppedStaysDown(w: World, name: string, es: seq<Event>)
    requires Inv(w) && Down(w, name) && Start(name) !in es
    ensures StaysDown(w, Run(w, es), name)
    decreases |es|
  {
    if es != [] {
      assert es[0] in es;
      StepStaysDown(w, es[0], name);
      StepKeepsInv(w, es[0]);
      StoppedStaysDown(Step(w, es[0]), name, es[1..]);
    }
  }

  // ---- the crash loop ----

  /** `e` is the crash-loop section for an exit of record `r`. */
  predicate NotesExit(w: World, e: Event, r: nat) {
    e.Advance? && e.task in w.tasks && w.tasks[e.task].Note? && w.tasks[e.task].rec == r && r in w.recs
  }

  predicate Schedules(w: World, e: Event, r: nat) {
    NotesExit(w, e, r) && e.task in Step(w, e).tasks
  }

  /** How many restarts of `r` the run schedules. */
  function Restarts(w: World, es: seq<Event>, r: nat): nat
    decreases |es|
  {
    if es == [] then 0 else (if Schedules(w, es[0], r) then 1 else 0) + Restarts(Step(w, es[0]), es[1..], r)
  }

  /** Every exit of `r` noted in the run came within 30s of the last start. */
  predicate AllQuick(w: World, es: seq<Event>, r: nat)
    decreases |es|
  {
    es == [] ||
    (&& (NotesExit(w, es[0], r) ==> es[0].now - w.recs[r].startedAt < CRASHLOOP_HEALTHY_WINDOW)
     && AllQuick(Step(w, es[0]), es[1..], r))
  }

  /** Only the crash-loop section touches the crash counters. */
  lemma TaskStepCrash(task: Task, p: Proc, closed: set<nat>, live: set<nat>, id: nat, now: int, ok: bool)
    requires task.Note? ==> now - p.startedAt < CRASHLOOP_HEALTHY_WINDOW
    requires InBudget(p)
    ensures var e := TaskStep(task, p, closed, live, id, now, ok);
            var n: nat := if task.Note? && e.task.Some? then 1 else 0;
            && e.proc.name == p.name
            && (p.gave ==> e.proc.gave && n == 0)
            && (!e.proc.gave ==> e.proc.restartCount == p.restartCount + n)
            && (!p.gave && e.proc.gave ==> p.restartCount == 9 && n == 0)
  {
  }

  lemma CrashStep(w: World, r: nat, e: Event)
    requires Static(w) && r in w.recs && e != Start(w.recs[r].name)
    requires NotesExit(w, e, r) ==> e.now - w.recs[r].startedAt < CRASHLOOP_HEALTHY_WINDOW
    ensures var w' := Step(w, e);
            && r in w'.recs && w'.recs[r].name == w.recs[r].name
            && (w.recs[r].gave ==> w'.recs[r].gave && !Schedules(w, e, r))
            && (!w'.recs[r].gave ==> w'.recs[r].restartCount == w.recs[r].restartCount + (if Schedules(w, e, r) then 1 else 0))
            && (!w.recs[r].gave && w'.recs[r].gave ==> w.recs[r].restartCount == 9 && !Schedules(w, e, r))
  {
    if e.Advance? && e.task in w.tasks {
      AdvanceCrash(w, r, e.task, e.now, e.ok);
    } else {
      OthersKeepCrash(w, r, e);
    }
  }

  ghost predicate SameCrash(w: World, w': World, r: nat)
    requires r in w.recs
  {
    && r in w'.recs && w'.recs[r].name == w.recs[r].name
    && w'.recs[r].gave == w.recs[r].gave && w'.recs[r].restartCount == w.recs[r].restartCount
  }

  lemma MapKeepsCrash(w: World, r: nat, name: string, auto: bool, disabled: bool)
    requires Fresh(w) && r in w.recs
    ensures Bound(w, name) ==> SameCrash(w, Drop(w, name), r) && SameCrash(w, Reload(w, name, disabled), r)
    ensures SameCrash(w, RegisterStep(w, name, auto, disabled), r)
    ensures SameCrash(w, AddRecord(w, name, auto, disabled), r)
  {
  }

  lemma StartKeepsCrash(w: World, r: nat, name: string)
    requires Names(w) && r in w.recs && Bound(w, name) && name != w.recs[r].name
    ensures SameCrash(w, Started(w, name), r)
  {
  }

  lemma OthersKeepCrash(w: World, r: nat, e: Event)
    requires Fresh(w) && Names(w) && r in w.recs && e != Start(w.recs[r].name)
    requires !(e.Advance? && e.task in w.tasks)
    ensures SameCrash(w, Step(w, e), r)
  {
    match e
    case Register(name, auto, disabled) => MapKeepsCrash(w, r, name, auto, disabled);
    case Load(name, auto, disabled) => MapKeepsCrash(w, r, name, auto, disabled);
    case Unregister(name) => MapKeepsCrash(w, r, name, false, false);
    case Start(name) => if Bound(w, name) && Startable(w, name) { StartKeepsCrash(w, r, name); }
    case _ =>
  }

  lemma AdvanceCrash(w: World, r: nat, t: nat, now: int, ok: bool)
    requires Fresh(w) && Budget(w) && r in w.recs && t in w.tasks
    requires w.tasks[t].Note? && w.tasks[t].rec == r ==> now - w.recs[r].startedAt < CRASHLOOP_HEALTHY_WINDOW
    ensures var w' := AdvanceStep(w, t, now, ok);
            var n: nat := if w.tasks[t].Note? && w.tasks[t].rec == r && t in w'.tasks then 1 else 0;
            && r in w'.recs && w'.recs[r].name == w.recs[r].name
            && (w.recs[r].gave ==> w'.recs[r].gave && n == 0)
            && (!w'.recs[r].gave ==> w'.recs[r].restartCount == w.recs[r].restartCount + n)
            && (!w.recs[r].gave && w'.recs[r].gave ==> w.recs[r].restartCount == 9 && n == 0)
  {
    var task := w.tasks[t];
    if task.rec == r {
      TaskStepCrash(task, w.recs[r], w.closed, w.live, w.next, now, ok);
    }
  }

  /** In an unbroken series of quick exits with no operator Start the counter
      counts the scheduled restarts exactly, and the supervisor gives up right
      after the ninth: from a fresh Start there are never more than nine. */
  lemma {:induction false} AtMostNineRestarts(w: World, r: nat, es: seq<Event>)
    requires Inv(w) && r in w.recs && AllQuick(w, es, r)
    requires Start(w.recs[r].name) !in es
    ensures var w' := Run(w, es); var n := Restarts(w, es, r);
            && r in w'.recs && n <= 9
            && (!w.recs[r].gave && !w'.recs[r].gave ==> w'.recs[r].restartCount == w.recs[r].restartCount + n)
            && (!w.recs[r].gave && w'.recs[r].gave ==> n == 9 - w.recs[r].restartCount)
            && (w.recs[r].gave ==> w'.recs[r].gave && n == 0)
    decreases |es|
  {
    if es == [] {
    } else {
      assert es[0] in es;
      CrashStep(w, r, es[0]);
      StepKeepsInv(w, es[0]);
      AtMostNineRestarts(Step(w, es[0]), r, es[1..]);
      if !w.recs[r].gave && !Run(w, es).recs[r].gave {
        RunKeepsInv(w, es);
      }
    }
  }

  // ---- what an undisturbed start and stop do ----

  /** Start of an idle, enabled app, left alone, ends with its child live,
      registered and watched, and with a fresh crash budget. */
  lemma UndisturbedStartRegisters(w: World, name: string, now: int, w1: World, w2: World, w3: World, w4: World)
    requires Bound(w, name) && !w.recs[w.procs[name]].disabled && w.recs[w.procs[name]].cmd == None
    requires w1 == Step(w, Start(name))
    requires w2 == Step(w1, Advance(w.next + 1, now, true))
    requires w3 == Step(w2, Advance(w.next + 1, now, true))
    requires w4 == Step(w3, Advance(w.next + 1, now, true))
    ensures var r, c := w.procs[name], w.next + 3;
            && w4.recs == w.recs[r := w.recs[r].(cmd := Some(c), startedAt := now, stopCh := w.next, stopped := false,
                                                 restartCount := 0, gave := false)]
            && w4.live == w.live + {c}
            && w4.tasks == w.tasks[w.next + 1 := Watch(r, w.next, c)]
            && w4.closed == w.closed && w4.procs == w.procs
  {
    var r := w.procs[name];
    assert w1.tasks[w.next + 1] == Launch(r, w.next);
    assert w2.tasks[w.next + 1] == Spawn(r, w.next);
    assert w3.tasks[w.next + 1] == Check(r, w.next, w.next + 3);
  }

  /** Stop of a running app, left alone, closes its channel, kills the child
      and clears the record. */
  lemma UndisturbedStopClears(w: World, name: string, w1: World, w2: World, w3: World, w4: World)
    requires Bound(w, name) && w.recs[w.procs[name]].cmd.Some? && w.next !in w.tasks
    requires w1 == Step(w, Stop(name))
    requires w2 == Step(w1, Advance(w.next, 0, true))
    requires w3 == Step(w2, Advance(w.next, 0, true))
    requires w4 == Step(w3, Advance(w.next, 0, true))
    ensures var r := w.procs[name];
            && w4.recs == w.recs[r := w.recs[r].(cmd := None, stopped := true)]
            && w4.live == w.live - {w.recs[r].cmd.value}
            && w4.tasks == w.tasks && w4.procs == w.procs
            && (w.recs[r].stopped || w.recs[r].stopCh in w4.closed)
  {
    var r := w.procs[name];
    var c := w.recs[r].cmd.value;
    assert w1.tasks[w.next] == StopReq(r);
    assert w2.tasks[w.next] == Kill(r, c, true);
    assert w3.tasks[w.next] == ClearCmd(r, c);
  }
}
