/**
 Which run an exit is booked on. The monitor of internal/apps/manager.go looks
 at its stop channel before it takes the lock, so an exit seen on an open
 channel may be booked after a Stop and a new Start.
 */
module StaleExits {
  import opened Options
  import opened Processes
  import opened Supervisor

  /** An exit this event books on record `r` comes from a monitor of the current run. */
  predicate BooksCurrent(w: World, e: Event, r: nat) {
    NotesExit(w, e, r) ==> w.tasks[e.task].ch == w.recs[r].stopCh
  }

  predicate AllCurrent(w: World, es: seq<Event>, r: nat)
    decreases |es|
  {
    es == [] || (BooksCurrent(w, es[0], r) && AllCurrent(Step(w, es[0]), es[1..], r))
  }

  /** A monitor of record `r` will book its exit on the run it watched, or not at all. */
  predicate CleanTask(task: Task, p: Proc, r: nat, closed: set<nat>) {
    task.rec == r ==>
      && (task.Note? ==> task.ch == p.stopCh)
      && (Running(task) ==> task.ch == p.stopCh || task.ch in closed)
  }

  ghost predicate Clean(w: World, r: nat)
    requires r in w.recs
  {
    forall t :: t in w.tasks ==> CleanTask(w.tasks[t], w.recs[r], r, w.closed)
  }

  // ---- clean records stay clean until their next Start ----

  /** What keeps a record clean: its channel and name stay, channels stay
      closed, and changed tasks are clean. */
  ghost predicate CleanStep(w: World, w': World, r: nat)
    requires r in w.recs
  {
    r in w'.recs && w'.recs[r].name == w.recs[r].name && w'.recs[r].stopCh == w.recs[r].stopCh && Clean(w', r)
  }

  lemma TaskStepIsClean(task: Task, p: Proc, closed: set<nat>, live: set<nat>, id: nat, now: int, ok: bool)
    requires CleanTask(task, p, task.rec, closed)
    ensures var e := TaskStep(task, p, closed, live, id, now, ok);
            e.task.Some? ==> e.task.value.rec == task.rec && CleanTask(e.task.value, p, task.rec, closed)
  {
  }

  lemma AdvanceIsClean(w: World, t: nat, now: int, ok: bool, r: nat)
    requires Fresh(w) && r in w.recs && Clean(w, r) && t in w.tasks
    ensures CleanStep(w, AdvanceStep(w, t, now, ok), r)
  {
    var task, p := w.tasks[t], w.recs[w.tasks[t].rec];
    TaskStepKeepsRecord(task, p, w.closed, w.live, w.next, now, ok);
    TaskStepKeepsRec(task, p, w.closed, w.live, w.next, now, ok);
    if task.rec == r {
      TaskStepIsClean(task, p, w.closed, w.live, w.next, now, ok);
    }
    EffectIsClean(w, t, TaskStep(task, p, w.closed, w.live, w.next, now, ok), r);
  }

  lemma TaskStepKeepsRec(task: Task, p: Proc, closed: set<nat>, live: set<nat>, id: nat, now: int, ok: bool)
    ensures var e := TaskStep(task, p, closed, live, id, now, ok); e.task.Some? ==> e.task.value.rec == task.rec
  {
  }

  lemma EffectIsClean(w: World, t: nat, e: Effect, r: nat)
    requires t in w.tasks && w.tasks[t].rec in w.recs && r in w.recs && Clean(w, r)
    requires LawfulRecord(w.recs[w.tasks[t].rec], e)
    requires e.task.Some? ==> e.task.value.rec == w.tasks[t].rec
    requires e.task.Some? && w.tasks[t].rec == r ==> CleanTask(e.task.value, w.recs[r], r, w.closed)
    ensures CleanStep(w, ApplyEffect(w, t, e), r)
  {
    var w' := ApplyEffect(w, t, e);
    forall u | u in w'.tasks ensures CleanTask(w'.tasks[u], w'.recs[r], r, w'.closed) {
      assert u in w.tasks ==> CleanTask(w.tasks[u], w.recs[r], r, w.closed);
    }
  }

  lemma DropIsClean(w: World, name: string, r: nat)
    requires r in w.recs && Clean(w, r) && Bound(w, name)
    ensures CleanStep(w, Drop(w, name), r)
  {
    var w' := Drop(w, name);
    forall u | u in w'.tasks ensures CleanTask(w'.tasks[u], w'.recs[r], r, w'.closed) {
      assert CleanTask(w.tasks[u], w.recs[r], r, w.closed);
    }
  }

  lemma AddIsClean(w: World, name: string, auto: bool, disabled: bool, r: nat)
    requires Fresh(w) && r in w.recs && Clean(w, r)
    ensures CleanStep(w, AddRecord(w, name, auto, disabled), r)
  {
  }

  lemma StartIsClean(w: World, name: string, r: nat)
    requires Fresh(w) && Names(w) && r in w.recs && Clean(w, r) && Bound(w, name) && name != w.recs[r].name
    ensures CleanStep(w, Started(w, name), r)
  {
    var w' := Started(w, name);
    forall u | u in w'.tasks ensures CleanTask(w'.tasks[u], w'.recs[r], r, w'.closed) {
      assert u in w.tasks ==> CleanTask(w.tasks[u], w.recs[r], r, w.closed);
    }
  }

  lemma QuietIsClean(w: World, name: string, disabled: bool, c: nat, r: nat)
    requires r in w.recs && Clean(w, r)
    ensures Bound(w, name) ==> CleanStep(w, Reload(w, name, disabled), r)
    ensures Bound(w, name) ==> CleanStep(w, RequestStop(w, name), r)
    ensures CleanStep(w, Exit(w, c), r) && CleanStep(w, w, r)
  {
    forall u | u in w.tasks ensures CleanTask(w.tasks[u], w.recs[r], r, w.closed) {
    }
  }

  lemma StepIsClean(w: World, e: Event, r: nat)
    requires Fresh(w) && Names(w) && r in w.recs && Clean(w, r) && e != Start(w.recs[r].name)
    ensures CleanStep(w, Step(w, e), r) == true
  {
    QuietIsClean(w, "", false, 0, r);
    match e
    case Register(name, auto, disabled) => RegisterIsClean(w, name, auto, disabled, r);
    case Load(name, auto, disabled) =>
      if Bound(w, name) {
        QuietIsClean(w, name, disabled, 0, r);
      } else {
        AddIsClean(w, name, auto, disabled, r);
      }
    case Unregister(name) => if Bound(w, name) { DropIsClean(w, name, r); }
    case Start(name) => if Bound(w, name) && Startable(w, name) { StartIsClean(w, name, r); }
    case Stop(name) => QuietIsClean(w, name, false, 0, r);
    case Die(c) => QuietIsClean(w, "", false, c, r);
    case Advance(t, now, ok) => if t in w.tasks { AdvanceIsClean(w, t, now, ok, r); }
  }

  lemma RegisterIsClean(w: World, name: string, auto: bool, disabled: bool, r: nat)
    requires Fresh(w) && Names(w) && r in w.recs && Clean(w, r)
    ensures CleanStep(w, RegisterStep(w, name, auto, disabled), r) == true
  {
    if Bound(w, name) {
      DropIsClean(w, name, r);
      AddIsClean(Drop(w, name), name, auto, disabled, r);
    } else {
      AddIsClean(w, name, auto, disabled, r);
    }
  }

  lemma {:induction false} CleanRunsBookCurrent(w: World, es: seq<Event>, r: nat)
    requires Inv(w) && r in w.recs && Clean(w, r) && Start(w.recs[r].name) !in es
    ensures AllCurrent(w, es, r)
    decreases |es|
  {
    if es != [] {
      assert es[0] in es;
      StepIsClean(w, es[0], r);
      StepKeepsInv(w, es[0]);
      CleanRunsBookCurrent(Step(w, es[0]), es[1..], r);
    }
  }

  // ---- exactly when a Start is clean ----

  /** An exit of record `r` was seen on an open channel and is not booked yet. */
  predicate ExitPending(w: World, r: nat) {
    exists t :: t in w.tasks && w.tasks[t].Note? && w.tasks[t].rec == r
  }

  lemma StartOfCleanRecord(w: World, name: string)
    requires Fresh(w) && StragglersClosed(w) && Bound(w, name) && Startable(w, name)
    requires !ExitPending(w, w.procs[name])
    ensures Clean(Started(w, name), w.procs[name])
  {
    var w', r := Started(w, name), w.procs[name];
    forall t | t in w'.tasks ensures CleanTask(w'.tasks[t], w'.recs[r], r, w'.closed) {
      if t in w.tasks {
        assert StragglerClosed(w, t);
      }
    }
  }

  lemma PendingExitIsBooked(w: World, name: string, t: nat)
    requires Fresh(w) && Bound(w, name) && t in w.tasks && w.tasks[t].Note? && w.tasks[t].rec == w.procs[name]
    ensures !AllCurrent(Started(w, name), [Advance(t, 0, true)], w.procs[name])
  {
    assert !BooksCurrent(Started(w, name), Advance(t, 0, true), w.procs[name]);
  }

  lemma CleanStartBooksCurrent(w: World, name: string, es: seq<Event>)
    requires Inv(w) && Bound(w, name) && Startable(w, name) && !ExitPending(w, w.procs[name]) && Start(name) !in es
    ensures AllCurrent(Started(w, name), es, w.procs[name])
  {
    StartOfCleanRecord(w, name);
    StartKeepsInv(w, name);
    CleanRunsBookCurrent(Started(w, name), es, w.procs[name]);
  }

  /**
   * For every reachable state and every Start it accepts: all exits booked on
   * the record until its next Start come from monitors of the new run exactly
   * if no exit of the record was pending at the Start.
   */
  lemma StartIsCleanIff(w: World, name: string)
    requires Inv(w) && Bound(w, name) && Startable(w, name)
    ensures (forall es :: Start(name) !in es ==> AllCurrent(Started(w, name), es, w.procs[name]))
            <==> !ExitPending(w, w.procs[name])
  {
    if t :| t in w.tasks && w.tasks[t].Note? && w.tasks[t].rec == w.procs[name] {
      PendingExitIsBooked(w, name, t);
      assert Start(name) !in [Advance(t, 0, true)];
    } else {
      forall es | Start(name) !in es ensures AllCurrent(Started(w, name), es, w.procs[name]) {
        CleanStartBooksCurrent(w, name, es);
      }
    }
  }

  // ---- a run in which an exit is booked on the next run ----

  lemma Extend(es: seq<Event>, w: World, e: Event, next: World)
    requires Run(Init, es) == w && Step(w, e) == next
    ensures Run(Init, es + [e]) == next
  {
    RunSnoc(Init, es, e);
  }

  /** A manager with one app, whose record is 0. */
  function One(name: string, p: Proc, tasks: map<nat, Task>, closed: set<nat>, live: set<nat>, next: nat): World {
    World(map[name := 0], map[0 := p], tasks, closed, live, next)
  }

  function Idle(name: string): Proc {
    Proc(name, None, 1, false, true, false, 0, false, 0)
  }

  /** One step of a task of that record that goes on as `task`, after a run. */
  lemma Advanced(es: seq<Event>, w: World, t: nat, task: Task, p: Proc, close: bool, live: set<nat>)
    requires Run(Init, es) == w && t in w.tasks && w.tasks[t].rec == 0 && 0 in w.recs && w.recs.Keys == {0}
    requires TaskStep(w.tasks[t], w.recs[0], w.closed, w.live, w.next, 0, true) == Effect(Some(task), p, close, live)
    ensures Run(Init, es + [Advance(t, 0, true)])
            == World(w.procs, map[0 := p], w.tasks[t := task],
                     if close then w.closed + {p.stopCh} else w.closed, live, w.next + 1)
  {
    RunSnoc(Init, es, Advance(t, 0, true));
    assert w.recs[0 := p] == map[0 := p];
  }

  /** Registered and started, with the start about to check its channel. */
  lemma Launched(name: string) returns (es: seq<Event>)
    ensures Run(Init, es) == One(name, Idle(name).(stopCh := 2), map[3 := Launch(0, 2)], {}, {}, 4)
  {
    var w := One(name, Idle(name), map[], {}, {}, 2);
    Extend([], Init, Register(name, true, false), w);
    Extend([] + [Register(name, true, false)], w, Start(name),
           One(name, Idle(name).(stopCh := 2), map[3 := Launch(0, 2)], {}, {}, 4));
    es := [] + [Register(name, true, false)] + [Start(name)];
  }

  /** The child 5 is registered under channel 2 and watched. */
  lemma FirstRun(name: string) returns (es: seq<Event>)
    ensures Run(Init, es) == One(name, Idle(name).(cmd := Some(5), stopCh := 2), map[3 := Watch(0, 2, 5)], {}, {5}, 7)
  {
    var p := Idle(name).(stopCh := 2);
    es := Launched(name);
    Advanced(es, One(name, p, map[3 := Launch(0, 2)], {}, {}, 4), 3, Spawn(0, 2), p, false, {});
    es := es + [Advance(3, 0, true)];
    Advanced(es, One(name, p, map[3 := Spawn(0, 2)], {}, {}, 5), 3, Check(0, 2, 5), p, false, {5});
    es := es + [Advance(3, 0, true)];
    Advanced(es, One(name, p, map[3 := Check(0, 2, 5)], {}, {5}, 6), 3, Watch(0, 2, 5), p.(cmd := Some(5)), false, {5});
    es := es + [Advance(3, 0, true)];
  }

  /** The child exits and its monitor sees the channel open. */
  lemma ExitSeen(name: string) returns (es: seq<Event>)
    ensures Run(Init, es) == One(name, Idle(name).(cmd := Some(5), stopCh := 2), map[3 := Note(0, 2, 5)], {}, {}, 9)
  {
    var p := Idle(name).(cmd := Some(5), stopCh := 2);
    es := FirstRun(name);
    var w := One(name, p, map[3 := Watch(0, 2, 5)], {}, {}, 7);
    Extend(es, One(name, p, map[3 := Watch(0, 2, 5)], {}, {5}, 7), Die(5), w);
    es := es + [Die(5)];
    Advanced(es, w, 3, Exited(0, 2, 5), p, false, {});
    es := es + [Advance(3, 0, true)];
    Advanced(es, One(name, p, map[3 := Exited(0, 2, 5)], {}, {}, 8), 3, Note(0, 2, 5), p, false, {});
    es := es + [Advance(3, 0, true)];
  }

  /** A Stop kills before the monitor gets the lock. */
  lemma KilledMeanwhile(name: string) returns (es: seq<Event>)
    ensures Run(Init, es) == One(name, Idle(name).(cmd := Some(5), stopCh := 2, stopped := true),
                                 map[3 := Note(0, 2, 5), 9 := ClearCmd(0, 5)], {2}, {}, 12)
  {
    var p, n := Idle(name).(cmd := Some(5), stopCh := 2), Note(0, 2, 5);
    var q := p.(stopped := true);
    es := ExitSeen(name);
    var w := One(name, p, map[3 := n, 9 := StopReq(0)], {}, {}, 10);
    Extend(es, One(name, p, map[3 := n], {}, {}, 9), Stop(name), w);
    es := es + [Stop(name)];
    Advanced(es, w, 9, Kill(0, 5, true), q, true, {});
    es := es + [Advance(9, 0, true)];
    var w1 := One(name, q, map[3 := n, 9 := Kill(0, 5, true)], {2}, {}, 11);
    assert Run(Init, es) == w1;
    Advanced(es, w1, 9, ClearCmd(0, 5), q, false, {});
    es := es + [Advance(9, 0, true)];
  }

  /** The Stop ends. */
  lemma StoppedMeanwhile(name: string) returns (es: seq<Event>)
    ensures Run(Init, es) == One(name, Idle(name).(stopCh := 2, stopped := true), map[3 := Note(0, 2, 5)], {2}, {}, 13)
  {
    var q := Idle(name).(cmd := Some(5), stopCh := 2, stopped := true);
    es := KilledMeanwhile(name);
    var w := One(name, q, map[3 := Note(0, 2, 5), 9 := ClearCmd(0, 5)], {2}, {}, 12);
    RunSnoc(Init, es, Advance(9, 0, true));
    assert w.tasks - {9} == map[3 := Note(0, 2, 5)];
    assert w.recs[0 := q.(cmd := None)] == map[0 := q.(cmd := None)];
    es := es + [Advance(9, 0, true)];
  }

  /** The next Start takes channel 13. */
  lemma StartedAgain(name: string) returns (es: seq<Event>)
    ensures Run(Init, es) == One(name, Idle(name).(stopCh := 13),
                                 map[3 := Note(0, 2, 5), 14 := Launch(0, 13)], {2}, {}, 15)
  {
    es := StoppedMeanwhile(name);
    Extend(es, One(name, Idle(name).(stopCh := 2, stopped := true), map[3 := Note(0, 2, 5)], {2}, {}, 13), Start(name),
           One(name, Idle(name).(stopCh := 13), map[3 := Note(0, 2, 5), 14 := Launch(0, 13)], {2}, {}, 15));
    es := es + [Start(name)];
  }

  /** It has not spawned yet when the exit of child 5, which ran under channel
      2, is counted against it. */
  lemma StaleExitIsBookedOnNextRun(name: string) returns (es: seq<Event>)
    ensures var w := Run(Init, es);
            && w.recs == map[0 := Idle(name).(stopCh := 13, restartCount := 1)]
            && w.tasks == map[3 := Backoff(0, 2, Delay(1)), 14 := Launch(0, 13)]
  {
    var p := Idle(name).(stopCh := 13);
    es := StartedAgain(name);
    Advanced(es, One(name, p, map[3 := Note(0, 2, 5), 14 := Launch(0, 13)], {2}, {}, 15), 3,
             Backoff(0, 2, Delay(1)), p.(restartCount := 1), false, {});
    es := es + [Advance(3, 0, true)];
  }
}
