/**
 The supervised process record of internal/apps/manager.go.

 `Proc` is the value of one record; each function below is what one critical
 section of the manager does to it. `Process` is the record itself, updated in
 place, whose methods are proved against those functions. The interleavings of
 these sections are in Supervisor.dfy.
 */
module Processes {
  import opened Options
  import opened Durations

  const CRASHLOOP_HEALTHY_WINDOW: int := 30 * SECOND
  const CRASHLOOP_MAX_RESTARTS: nat := 10
  const CRASHLOOP_MAX_BACKOFF: int := 300 * SECOND

  datatype Proc = Proc(
    name: string,
    cmd: Option<nat>,      // the registered child
    stopCh: nat,           // the stop channel of the current run
    stopped: bool,
    autoRestart: bool,
    disabled: bool,
    restartCount: nat,
    gave: bool,
    startedAt: int
  )

  /** The locked half of Start. */
  function Begin(p: Proc, ch: nat): Proc {
    p.(restartCount := 0, gave := false, stopped := false, stopCh := ch)
  }

  /** The condition on which startNative aborts a spawn. */
  predicate Superseded(p: Proc, ch: nat) {
    p.stopped || p.stopCh != ch
  }

  /** The registration of a freshly spawned child. */
  function Adopt(p: Proc, child: nat, now: int): Proc {
    p.(cmd := Some(child), startedAt := now)
  }

  /** Clears the registered child if it is still this one. */
  function Forget(p: Proc, child: nat): Proc {
    if p.cmd == Some(child) then p.(cmd := None) else p
  }

  function Pow2(n: nat): (r: nat)
    ensures r >= 1
  {
    if n == 0 then 1 else 2 * Pow2(n - 1)
  }

  /** The documented restart delay: 2s, 4s, 8s, ... capped at five minutes. */
  function Delay(restartCount: int): int {
    if restartCount <= 0 then 2 * SECOND
    else if Pow2(restartCount) * SECOND >= CRASHLOOP_MAX_BACKOFF then CRASHLOOP_MAX_BACKOFF
    else Pow2(restartCount) * SECOND
  }

  /** The consecutive-crash count after an exit at `now`. */
  function CountAfterExit(p: Proc, now: int): nat {
    if now - p.startedAt < CRASHLOOP_HEALTHY_WINDOW then p.restartCount + 1 else 0
  }

  /** The crash-loop section of monitorNative; the second part is the delay of
      the restart it schedules, if any. */
  function AfterExit(p: Proc, child: nat, now: int): (Proc, Option<int>) {
    var q := Forget(p, child);
    if !q.autoRestart || q.gave then (q, None)
    else
      var n := CountAfterExit(q, now);
      if n >= CRASHLOOP_MAX_RESTARTS then (q.(restartCount := n, gave := true), None)
      else (q.(restartCount := n), Some(Delay(n)))
  }

  lemma {:induction false} Pow2Grows(i: nat, j: nat)
    requires i <= j
    ensures Pow2(i) <= Pow2(j)
  {
    if i < j { Pow2Grows(i, j - 1); }
  }

  /** The doubling loop computes min(2^n, 300) seconds for every count. */
  method ComputeBackoff(restartCount: int) returns (d: int)
    ensures restartCount >= 1 ==>
              d == (if Pow2(restartCount) <= 300 then Pow2(restartCount) * SECOND else 300 * SECOND)
    ensures restartCount <= 0 ==> d == 2 * SECOND
    ensures d == Delay(restartCount)
  {
    if restartCount <= 0 {
      return 2 * SECOND;
    }
    d := 2 * SECOND;
    var i := 0;
    while i < restartCount - 1 && d < CRASHLOOP_MAX_BACKOFF
      invariant 0 <= i <= restartCount - 1
      invariant d == Pow2(i + 1) * SECOND
    {
      d := d * 2;
      i := i + 1;
    }
    Pow2Grows(i + 1, restartCount);
    if d > CRASHLOOP_MAX_BACKOFF {
      d := CRASHLOOP_MAX_BACKOFF;
    }
  }

  class Process {
    const name: string
    const autoRestart: bool
    var disabled: bool
    var cmd: Option<nat>
    var stopCh: nat
    var stopped: bool
    var restartCount: nat
    var gave: bool
    var startedAt: int

    ghost function View(): Proc
      reads this
    {
      Proc(name, cmd, stopCh, stopped, autoRestart, disabled, restartCount, gave, startedAt)
    }

    /** registerLocked: an open channel, nothing running. */
    constructor (name: string, autoRestart: bool, disabled: bool, ch: nat)
      ensures View() == Proc(name, None, ch, false, autoRestart, disabled, 0, false, 0)
    {
      this.name, this.autoRestart, this.disabled := name, autoRestart, disabled;
      cmd, stopCh, stopped := None, ch, false;
      restartCount, gave, startedAt := 0, false, 0;
    }

    /** The locked half of Start, refused while disabled or running. */
    method TryStart(ch: nat) returns (ok: bool)
      modifies this
      ensures ok == (!old(disabled) && old(cmd) == None)
      ensures View() == if ok then Begin(old(View()), ch) else old(View())
    {
      if disabled || cmd != None {
        return false;
      }
      restartCount, gave := 0, false;
      stopped := false;
      stopCh := ch;
      return true;
    }

    /** The first locked half of stop: which channel to close, whom to kill. */
    method MarkStopped() returns (close: Option<nat>, victim: Option<nat>)
      modifies this
      ensures close == if old(stopped) then None else Some(old(stopCh))
      ensures victim == old(cmd)
      ensures View() == old(View()).(stopped := true)
    {
      close := None;
      if !stopped {
        stopped := true;
        close := Some(stopCh);
      }
      victim := cmd;
    }

    /** The registration check of startNative. */
    method TryRegister(ch: nat, child: nat, now: int) returns (ok: bool)
      modifies this
      ensures ok == !Superseded(old(View()), ch)
      ensures View() == if ok then Adopt(old(View()), child, now) else old(View())
    {
      if stopped || stopCh != ch {
        return false;
      }
      cmd := Some(child);
      startedAt := now;
      return true;
    }

    /** The last locked half of stop, and the stopped branch of monitorNative. */
    method ClearCmd(child: nat)
      modifies this
      ensures View() == Forget(old(View()), child)
    {
      if cmd == Some(child) {
        cmd := None;
      }
    }

    /** The crash-loop section of monitorNative. */
    method NoteExit(child: nat, now: int) returns (delay: Option<int>)
      modifies this
      ensures (View(), delay) == AfterExit(old(View()), child, now)
    {
      if cmd == Some(child) {
        cmd := None;
      }
      if !autoRestart || gave {
        return None;
      }
      if now - startedAt < CRASHLOOP_HEALTHY_WINDOW {
        restartCount := restartCount + 1;
      } else {
        restartCount := 0;
      }
      if restartCount >= CRASHLOOP_MAX_RESTARTS {
        gave := true;
        return None;
      }
      var d := ComputeBackoff(restartCount);
      return Some(d);
    }
  }
}
