/**
 What the supervisor of internal/apps/manager.go does when it is left alone:
 who may be started, what a registration leaves, and how an app whose child
 exits comes back after its delay.
 */
module Restarts {
  import opened Options
  import opened Durations
  import opened Processes
  import opened Supervisor

  /** `w` but for one task and its record, the running children and the counter. */
  function At(w: World, t: nat, task: Task, p: Proc, live: set<nat>, next: nat): World {
    w.(recs := w.recs[task.rec := p], tasks := w.tasks[t := task], live := live, next := next)
  }

  lemma AtOnce(w: World, t: nat, task: Task, p: Proc, live: set<nat>, next: nat,
               task': Task, p': Proc, live': set<nat>, next': nat)
    requires task.rec == task'.rec
    ensures At(At(w, t, task, p, live, next), t, task', p', live', next') == At(w, t, task', p', live', next')
  {
    var v := At(w, t, task, p, live, next);
    assert v.recs[task.rec := p'] == w.recs[task.rec := p'];
    assert v.tasks[t := task'] == w.tasks[t := task'];
  }

  /** One step of the task that goes on as `task'` and closes nothing. */
  lemma Advanced(v: World, t: nat, now: int, task': Task, p': Proc, live': set<nat>)
    requires t in v.tasks && v.tasks[t].rec in v.recs && task'.rec == v.tasks[t].rec
    requires TaskStep(v.tasks[t], v.recs[v.tasks[t].rec], v.closed, v.live, v.next, now, true)
             == Effect(Some(task'), p', false, live')
    ensures Step(v, Advance(t, now, true)) == At(v, t, task', p', live', v.next + 1)
  {
  }

  lemma AdvancedAt(w: World, t: nat, task: Task, p: Proc, live: set<nat>, next: nat,
                   now: int, task': Task, p': Proc, live': set<nat>)
    requires task'.rec == task.rec
    requires TaskStep(task, p, w.closed, live, next, now, true) == Effect(Some(task'), p', false, live')
    ensures Step(At(w, t, task, p, live, next), Advance(t, now, true))
            == At(At(w, t, task, p, live, next), t, task', p', live', next + 1)
  {
    var v := At(w, t, task, p, live, next);
    assert v.tasks[t] == task && v.recs[task.rec] == p && v.closed == w.closed && v.live == live && v.next == next;
    Advanced(v, t, now, task', p', live');
  }

  /** The task goes on from a world that differs from `w` only around it. */
  lemma Goes(w: World, v: World, t: nat, task: Task, p: Proc, live: set<nat>, next: nat,
             now: int, task': Task, p': Proc, live': set<nat>)
    requires v == At(w, t, task, p, live, next) && task'.rec == task.rec
    requires TaskStep(task, p, w.closed, live, next, now, true) == Effect(Some(task'), p', false, live')
    ensures Step(v, Advance(t, now, true)) == At(w, t, task', p', live', next + 1)
  {
    AdvancedAt(w, t, task, p, live, next, now, task', p', live');
    AtOnce(w, t, task, p, live, next, task', p', live', next + 1);
  }

  lemma RunFour(w: World, e1: Event, e2: Event, e3: Event, e4: Event, w1: World, w2: World, w3: World, w4: World)
    requires w1 == Step(w, e1) && w2 == Step(w1, e2) && w3 == Step(w2, e3) && w4 == Step(w3, e4)
    ensures Run(w, [] + [e1] + [e2] + [e3] + [e4]) == w4
  {
    RunSnoc(w, [], e1);
    RunSnoc(w, [] + [e1], e2);
    RunSnoc(w, [] + [e1] + [e2], e3);
    RunSnoc(w, [] + [e1] + [e2] + [e3], e4);
  }

  // ---- the crash-loop section, in numbers ----

  /** The crash count after an exit: one more within 30 s of the start, else 0. */
  function Crashes(p: Proc, exit: int): nat {
    if exit - p.startedAt < 30_000_000_000 then p.restartCount + 1 else 0
  }

  /** The delay before the restart: 2 s after a healthy run, else 2^n s up to 300 s. */
  function Pause(n: nat): int {
    if n == 0 then 2_000_000_000
    else if Pow2(n) >= 300 then 300_000_000_000
    else Pow2(n) * 1_000_000_000
  }

  lemma PauseIsDelay(n: nat)
    ensures Pause(n) == Delay(n)
  {
  }

  /** An exit of the registered child clears it. A restart is scheduled exactly
      if the app restarts by itself, has not been given up and stays below ten
      crashes in a row; at ten it is given up. */
  lemma ExitIsBooked(p: Proc, c: nat, exit: int)
    requires p.cmd == Some(c)
    ensures var (q, delay) := AfterExit(p, c, exit);
            var n := Crashes(p, exit);
            && (!p.autoRestart || p.gave ==> q == p.(cmd := None) && delay == None)
            && (p.autoRestart && !p.gave && n >= 10 ==> q == p.(cmd := None, restartCount := n, gave := true) && delay == None)
            && (p.autoRestart && !p.gave && n < 10 ==> q == p.(cmd := None, restartCount := n) && delay == Some(Pause(n)))
  {
    PauseIsDelay(Crashes(p, exit));
  }

  // ---- the restart ----

  /** The registered child `c` of record `r` is running and watched by `t`. */
  ghost predicate Up(w: World, t: nat, r: nat, c: nat) {
    && t in w.tasks && w.tasks[t].Watch? && w.tasks[t].rec == r && w.tasks[t].child == c
    && r in w.recs && w.recs[r].cmd == Some(c) && !w.recs[r].stopped && c in w.live
  }

  /** The child dies and its monitor books the exit at `exit`. */
  function ExitEvents(t: nat, c: nat, exit: int): seq<Event> {
    [] + [Die(c)] + [Advance(t, exit, true)] + [Advance(t, exit, true)] + [Advance(t, exit, true)]
  }

  /** The monitor waits until `late`, launches again and registers at `later`. */
  function RelaunchEvents(t: nat, late: int, later: int): seq<Event> {
    [] + [Advance(t, late, true)] + [Advance(t, late, true)]
    + [Advance(t, late, true)] + [Advance(t, late, true)] + [Advance(t, later, true)]
  }

  lemma ChildDies(w: World, t: nat, c: nat)
    requires t in w.tasks && w.tasks[t].rec in w.recs && c in w.live
    ensures Step(w, Die(c)) == At(w, t, w.tasks[t], w.recs[w.tasks[t].rec], w.live - {c}, w.next)
  {
    assert w.recs[w.tasks[t].rec := w.recs[w.tasks[t].rec]] == w.recs;
    assert w.tasks[t := w.tasks[t]] == w.tasks;
  }

  /** The first half: the exit is booked and the timer runs. */
  lemma ExitSchedulesRestart(w: World, t: nat, r: nat, c: nat, exit: int, ch: nat, n: nat)
    requires Up(w, t, r, c) && w.tasks[t].ch == ch && ch !in w.closed
    requires w.recs[r].autoRestart && !w.recs[r].gave && n == Crashes(w.recs[r], exit) < 10
    ensures Run(w, ExitEvents(t, c, exit))
            == At(w, t, Backoff(r, ch, exit + Pause(n)), w.recs[r].(cmd := None, restartCount := n),
                  w.live - {c}, w.next + 3)
  {
    var p, live, a := w.recs[r], w.live - {c}, Advance(t, exit, true);
    ChildDies(w, t, c);
    var w1 := Step(w, Die(c));
    Goes(w, w1, t, Watch(r, ch, c), p, live, w.next, exit, Exited(r, ch, c), p, live);
    var w2 := Step(w1, a);
    Goes(w, w2, t, Exited(r, ch, c), p, live, w.next + 1, exit, Note(r, ch, c), p, live);
    var w3 := Step(w2, a);
    ExitIsBooked(p, c, exit);
    Goes(w, w3, t, Note(r, ch, c), p, live, w.next + 2, exit,
         Backoff(r, ch, exit + Pause(n)), p.(cmd := None, restartCount := n), live);
    RunFour(w, Die(c), a, a, a, w1, w2, w3, Step(w3, a));
  }

  /** Until it is due, and while its channel is open, the timer stays as it is. */
  lemma TimerWaits(w: World, t: nat, now: int, ok: bool)
    requires t in w.tasks && w.tasks[t].Backoff? && w.tasks[t].rec in w.recs
    requires w.tasks[t].ch !in w.closed && now < w.tasks[t].due
    ensures Step(w, Advance(t, now, ok)) == w.(next := w.next + 1)
  {
    assert w.recs[w.tasks[t].rec := w.recs[w.tasks[t].rec]] == w.recs;
    assert w.tasks[t := w.tasks[t]] == w.tasks;
  }

  /** A timer whose channel was closed ends without a restart. */
  lemma StoppedTimerEnds(w: World, t: nat, now: int)
    requires t in w.tasks && w.tasks[t].Backoff? && w.tasks[t].rec in w.recs && w.tasks[t].ch in w.closed
    ensures Step(w, Advance(t, now, true)) == w.(tasks := w.tasks - {t}, next := w.next + 1)
  {
    assert w.recs[w.tasks[t].rec := w.recs[w.tasks[t].rec]] == w.recs;
  }

  /** Once due, the task goes on to launch again. */
  lemma TimerFires(w: World, t: nat, r: nat, ch: nat, due: int, late: int)
    requires t in w.tasks && w.tasks[t] == Backoff(r, ch, due) && r in w.recs && due <= late && ch !in w.closed
    ensures var a := Advance(t, late, true);
            Step(Step(w, a), a) == At(w, t, Launch(r, ch), w.recs[r], w.live, w.next + 2)
  {
    var p := w.recs[r];
    assert w.recs[r := p] == w.recs && w.tasks[t := w.tasks[t]] == w.tasks;
    Goes(w, w, t, Backoff(r, ch, due), p, w.live, w.next, late, Fired(r, ch), p, w.live);
    Goes(w, Step(w, Advance(t, late, true)), t, Fired(r, ch), p, w.live, w.next + 1, late, Launch(r, ch), p, w.live);
  }

  /** A launch that finds its channel current spawns and registers a child. */
  lemma LaunchRegisters(w: World, v: World, t: nat, r: nat, ch: nat, p: Proc, n: nat, late: int, later: int)
    requires v == At(w, t, Launch(r, ch), p, w.live, n) && !p.stopped && p.stopCh == ch
    ensures var a := Advance(t, late, true);
            Step(Step(Step(v, a), a), Advance(t, later, true))
            == At(w, t, Watch(r, ch, n + 1), p.(cmd := Some(n + 1), startedAt := later), w.live + {n + 1}, n + 3)
  {
    var a := Advance(t, late, true);
    Goes(w, v, t, Launch(r, ch), p, w.live, n, late, Spawn(r, ch), p, w.live);
    var v1 := Step(v, a);
    Goes(w, v1, t, Spawn(r, ch), p, w.live, n + 1, late, Check(r, ch, n + 1), p, w.live + {n + 1});
    var v2 := Step(v1, a);
    Goes(w, v2, t, Check(r, ch, n + 1), p, w.live + {n + 1}, n + 2, later,
         Watch(r, ch, n + 1), p.(cmd := Some(n + 1), startedAt := later), w.live + {n + 1});
  }

  /** The second half: once due, the task launches, spawns and registers. */
  lemma TimerRelaunches(w: World, t: nat, r: nat, ch: nat, due: int, late: int, later: int)
    requires t in w.tasks && w.tasks[t] == Backoff(r, ch, due) && r in w.recs && due <= late
    requires ch !in w.closed && !w.recs[r].stopped && w.recs[r].stopCh == ch
    ensures Run(w, RelaunchEvents(t, late, later))
            == At(w, t, Watch(r, ch, w.next + 3), w.recs[r].(cmd := Some(w.next + 3), startedAt := later),
                  w.live + {w.next + 3}, w.next + 5)
  {
    var a, b := Advance(t, late, true), Advance(t, later, true);
    TimerFires(w, t, r, ch, due, late);
    var v := Step(Step(w, a), a);
    LaunchRegisters(w, v, t, r, ch, w.recs[r], w.next + 2, late, later);
    RunFour(w, a, a, a, a, Step(w, a), v, Step(v, a), Step(Step(v, a), a));
    RunSnoc(w, [] + [a] + [a] + [a] + [a], b);
  }

  /** The channel of a running, registered child is open. */
  lemma ChannelIsOpen(w: World, t: nat, r: nat, c: nat)
    requires Inv(w) && Up(w, t, r, c)
    ensures w.tasks[t].ch == w.recs[r].stopCh && w.tasks[t].ch !in w.closed && w.next + 6 !in w.live
  {
    MonitorOnCurrentChannel(w, r, c, t);
  }

  lemma RelaunchFromTimer(w: World, w1: World, t: nat, r: nat, ch: nat, q: Proc, live: set<nat>, n: nat,
                          due: int, late: int, later: int)
    requires w1 == At(w, t, Backoff(r, ch, due), q, live, n) && due <= late
    requires ch !in w.closed && !q.stopped && q.stopCh == ch
    ensures Run(w1, RelaunchEvents(t, late, later))
            == At(w, t, Watch(r, ch, n + 3), q.(cmd := Some(n + 3), startedAt := later), live + {n + 3}, n + 5)
  {
    TimerRelaunches(w1, t, r, ch, due, late, later);
    AtOnce(w, t, Backoff(r, ch, due), q, live, n,
           Watch(r, ch, n + 3), q.(cmd := Some(n + 3), startedAt := later), live + {n + 3}, n + 5);
  }

  /**
   * For every reachable state: an app that restarts by itself and has not been
   * given up, whose registered child dies with fewer than nine crashes behind
   * it, is up again once its monitor has been left alone for the delay: a new
   * child is live, registered and watched under the same channel, and nothing
   * else has changed but the crash count.
   */
  lemma CrashedAppComesBack(w: World, t: nat, r: nat, c: nat, exit: int, late: int, later: int)
    requires Inv(w) && Up(w, t, r, c)
    requires w.recs[r].autoRestart && !w.recs[r].gave && w.recs[r].restartCount < 9
    requires late >= exit + Pause(Crashes(w.recs[r], exit))
    ensures var w', c' := Run(Run(w, ExitEvents(t, c, exit)), RelaunchEvents(t, late, later)), w.next + 6;
            && w'.recs == w.recs[r := w.recs[r].(cmd := Some(c'), startedAt := later,
                                                  restartCount := Crashes(w.recs[r], exit))]
            && w'.live == w.live - {c} + {c'} && c' !in w.live
            && w'.tasks == w.tasks[t := Watch(r, w.tasks[t].ch, c')]
            && w'.procs == w.procs && w'.closed == w.closed
  {
    ChannelIsOpen(w, t, r, c);
    BothHalves(w, t, r, c, w.tasks[t].ch, exit, late, later);
  }

  lemma BothHalves(w: World, t: nat, r: nat, c: nat, ch: nat, exit: int, late: int, later: int)
    requires Up(w, t, r, c) && w.tasks[t].ch == ch == w.recs[r].stopCh && ch !in w.closed
    requires w.recs[r].autoRestart && !w.recs[r].gave && w.recs[r].restartCount < 9
    requires late >= exit + Pause(Crashes(w.recs[r], exit))
    ensures Run(Run(w, ExitEvents(t, c, exit)), RelaunchEvents(t, late, later))
            == At(w, t, Watch(r, ch, w.next + 6),
                  w.recs[r].(cmd := Some(w.next + 6), startedAt := later, restartCount := Crashes(w.recs[r], exit)),
                  w.live - {c} + {w.next + 6}, w.next + 8)
  {
    var n := Crashes(w.recs[r], exit);
    ExitSchedulesRestart(w, t, r, c, exit, ch, n);
    var q := w.recs[r].(cmd := None, restartCount := n);
    RelaunchFromTimer(w, Run(w, ExitEvents(t, c, exit)), t, r, ch, q, w.live - {c}, w.next + 3,
                      exit + Pause(n), late, later);
  }

  /** An app that does not restart by itself, or has been given up, or crashes
      for the tenth time in a row, stays down: its monitor ends with the exit
      booked. */
  lemma ExitWithoutRestart(w: World, t: nat, exit: int, ok: bool)
    requires t in w.tasks && w.tasks[t].Note? && w.tasks[t].rec in w.recs
    requires w.recs[w.tasks[t].rec].cmd == Some(w.tasks[t].child)
    requires var p := w.recs[w.tasks[t].rec]; !p.autoRestart || p.gave || Crashes(p, exit) >= 10
    ensures var w', r := Step(w, Advance(t, exit, ok)), w.tasks[t].rec;
            && w'.tasks == w.tasks - {t} && w'.live == w.live
            && w'.recs[r].cmd == None && w'.recs[r].gave == (w.recs[r].gave || w.recs[r].autoRestart)
  {
    ExitIsBooked(w.recs[w.tasks[t].rec], w.tasks[t].child, exit);
  }

  // ---- starts that come too late ----

  /** A start whose run has been stopped or superseded spawns nothing: its task
      ends. One that has spawned already kills its own child and ends, without
      touching the record. */
  lemma LateStartLeavesNothing(w: World, t: nat, now: int, ok: bool)
    requires t in w.tasks && w.tasks[t].rec in w.recs && (w.tasks[t].Launch? || w.tasks[t].Check?)
    requires var p := w.recs[w.tasks[t].rec]; p.stopped || p.stopCh != w.tasks[t].ch
    ensures w.tasks[t].Launch? ==> Step(w, Advance(t, now, ok)) == w.(tasks := w.tasks - {t}, next := w.next + 1)
    ensures w.tasks[t].Check? ==>
              Step(Step(w, Advance(t, now, ok)), Advance(t, now, ok))
              == w.(tasks := w.tasks - {t}, live := w.live - {w.tasks[t].child}, next := w.next + 2)
  {
    var task, p := w.tasks[t], w.recs[w.tasks[t].rec];
    assert w.recs[task.rec := p] == w.recs;
    if task.Check? {
      var w1 := Step(w, Advance(t, now, ok));
      assert w1 == w.(tasks := w.tasks[t := Kill(task.rec, task.child, false)], next := w.next + 1);
      assert w1.tasks - {t} == w.tasks - {t};
    }
  }

  // ---- what Start, Register and Unregister change ----

  /** Start does nothing exactly if the app is not registered, disabled or running. */
  lemma StartIsRefusedIff(w: World, name: string)
    requires Inv(w)
    ensures Step(w, Start(name)) == w
            <==> name !in w.procs || w.recs[w.procs[name]].disabled || w.recs[w.procs[name]].cmd != None
  {
    if name in w.procs && !w.recs[w.procs[name]].disabled && w.recs[w.procs[name]].cmd == None {
      assert Step(w, Start(name)).next == w.next + 2;
    }
  }

  /** A registration under a new name leaves a new, idle record with an open
      channel of its own in the map; nothing else changes. */
  lemma RegisterAdds(w: World, name: string, auto: bool, disabled: bool)
    requires Inv(w) && name !in w.procs
    ensures var w' := Step(w, Register(name, auto, disabled));
            && w'.procs == w.procs[name := w.next] && w.next !in w.recs && w.next + 1 !in w.closed
            && w'.recs == w.recs[w.next := Proc(name, None, w.next + 1, false, auto, disabled, 0, false, 0)]
            && w'.tasks == w.tasks && w'.closed == w.closed && w'.live == w.live
  {
  }

  /** Under a name in use it first does what Unregister does. */
  lemma RegisterReplaces(w: World, name: string, auto: bool, disabled: bool)
    requires Inv(w)
    ensures var u := Step(w, Unregister(name));
            Step(w, Register(name, auto, disabled)) == Step(u, Register(name, auto, disabled))
  {
    if name in w.procs {
      assert name !in Drop(w, name).procs;
    }
  }

  /** Removing an app does the same to its record and leaves no new one; reading
      its file again changes the disabled flag of its record only. */
  lemma UnregisterAndReload(w: World, name: string, auto: bool, disabled: bool)
    requires Inv(w) && name in w.procs
    ensures var w', r := Step(w, Unregister(name)), w.procs[name];
            && w'.procs == w.procs - {name} && w'.tasks == w.tasks
            && w'.recs == w.recs[r := w.recs[r].(stopped := true, cmd := None)]
            && w'.closed == w.closed + {w.recs[r].stopCh}
            && w'.live == w.live - (if w.recs[r].cmd.Some? then {w.recs[r].cmd.value} else {})
    ensures var r := w.procs[name];
            Step(w, Load(name, auto, disabled)) == w.(recs := w.recs[r := w.recs[r].(disabled := disabled)])
  {
  }
}
