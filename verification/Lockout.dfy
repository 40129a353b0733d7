/**
 Brute-force lockout (internal/auth/manager.go). A password check for a lockout
 key holds the key's gate from the lockout test to the recording of its outcome;
 attempts for other keys and the cleanup sweep interleave freely.
 */
module Lockout {
  import opened Durations

  const MAX_LOGIN_ATTEMPTS: nat := 5
  const LOGIN_LOCKOUT_WINDOW: int := 15 * MINUTE

  function Recent(attempts: seq<int>, cutoff: int): (r: seq<int>)
    ensures |r| <= |attempts|
  {
    if attempts == [] then []
    else if attempts[0] > cutoff then [attempts[0]] + Recent(attempts[1..], cutoff)
    else Recent(attempts[1..], cutoff)
  }

  lemma {:induction false} RecentSplit(a: seq<int>, b: seq<int>, cutoff: int)
    ensures Recent(a + b, cutoff) == Recent(a, cutoff) + Recent(b, cutoff)
    decreases |a|
  {
    if a == [] {
      assert a + b == b;
    } else {
      assert (a + b)[1..] == a[1..] + b;
      RecentSplit(a[1..], b, cutoff);
    }
  }

  class LoginGuard {
    var loginAttempts: map<string, seq<int>>

    function Attempts(key: string): seq<int>
      reads this
    {
      if key in loginAttempts then loginAttempts[key] else []
    }

    /** isLockedOut: trims the key's list to the window and tests its length. */
    method IsLockedOut(key: string, now: int) returns (locked: bool)
      modifies this
      ensures loginAttempts == old(loginAttempts)[key := Recent(old(Attempts(key)), now - LOGIN_LOCKOUT_WINDOW)]
      ensures locked <==> |Recent(old(Attempts(key)), now - LOGIN_LOCKOUT_WINDOW)| >= MAX_LOGIN_ATTEMPTS
    {
      var cutoff := now - LOGIN_LOCKOUT_WINDOW;
      var attempts := Attempts(key);
      var recent := [];
      for i := 0 to |attempts|
        invariant recent == Recent(attempts[..i], cutoff) && loginAttempts == old(loginAttempts)
      {
        assert attempts[..i + 1] == attempts[..i] + [attempts[i]];
        RecentSplit(attempts[..i], [attempts[i]], cutoff);
        if attempts[i] > cutoff {
          recent := recent + [attempts[i]];
        }
      }
      assert attempts[..|attempts|] == attempts;
      loginAttempts := loginAttempts[key := recent];
      return |recent| >= MAX_LOGIN_ATTEMPTS;
    }

    method RecordFailedAttempt(key: string, now: int)
      modifies this
      ensures loginAttempts == old(loginAttempts)[key := old(Attempts(key)) + [now]]
    {
      loginAttempts := loginAttempts[key := Attempts(key) + [now]];
    }

    method ClearFailedAttempts(key: string)
      modifies this
      ensures loginAttempts == old(loginAttempts) - {key}
    {
      loginAttempts := loginAttempts - {key};
    }

    /** cleanupLoginAttempts: forgets exactly the keys with nothing in the window. */
    method CleanupLoginAttempts(now: int)
      modifies this
      ensures loginAttempts == Swept(old(loginAttempts), now)
    {
      var cutoff := now - LOGIN_LOCKOUT_WINDOW;
      var todo := loginAttempts.Keys;
      while todo != {}
        invariant todo <= loginAttempts.Keys <= old(loginAttempts).Keys
        invariant forall k :: k in loginAttempts ==> loginAttempts[k] == old(loginAttempts)[k]
        invariant forall k :: k in loginAttempts && k !in todo ==> StillRecent(loginAttempts[k], cutoff)
        invariant forall k :: k in old(loginAttempts) && k !in loginAttempts ==> !StillRecent(old(loginAttempts)[k], cutoff)
        decreases |todo|
      {
        var k :| k in todo;
        todo := todo - {k};
        var stillRecent := false;
        var i := 0;
        while i < |loginAttempts[k]|
          invariant 0 <= i <= |loginAttempts[k]|
          invariant stillRecent <==> exists j :: 0 <= j < i && loginAttempts[k][j] > cutoff
        {
          if loginAttempts[k][i] > cutoff {
            stillRecent := true;
            break;
          }
          i := i + 1;
        }
        if !stillRecent {
          loginAttempts := loginAttempts - {k};
        }
      }
    }
  }

  predicate StillRecent(attempts: seq<int>, cutoff: int) {
    exists j :: 0 <= j < |attempts| && attempts[j] > cutoff
  }

  function Swept(m: map<string, seq<int>>, now: int): map<string, seq<int>> {
    map k | k in m && StillRecent(m[k], now - LOGIN_LOCKOUT_WINDOW) :: m[k]
  }

  // ---- runs ----

  datatype State = State(
    now: int,
    attempts: map<string, seq<int>>,
    inside: map<string, int>,        // keys whose gate is held past the lockout test, and when they passed it
    failures: map<string, seq<int>>  // history: every failed check since the key was last cleared
  )

  datatype Event =
    | Tick(d: nat)
    | Enter(key: string)      // take the gate, test the lockout
    | Fail(key: string)       // the comparison failed
    | Succeed(key: string)    // the comparison succeeded
    | Leave(key: string)      // return without a comparison
    | Sweep

  const Init := State(0, map[], map[], map[])

  function Listed(m: map<string, seq<int>>, key: string): seq<int> {
    if key in m then m[key] else []
  }

  function EnterStep(s: State, k: string): State {
    if k in s.inside then s
    else
      var recent := Recent(Listed(s.attempts, k), s.now - LOGIN_LOCKOUT_WINDOW);
      s.(attempts := s.attempts[k := recent],
         inside := if |recent| >= MAX_LOGIN_ATTEMPTS then s.inside else s.inside[k := s.now])
  }

  function FailStep(s: State, k: string): State {
    if k !in s.inside then s
    else s.(inside := s.inside - {k}, attempts := s.attempts[k := Listed(s.attempts, k) + [s.now]],
            failures := s.failures[k := Listed(s.failures, k) + [s.now]])
  }

  function SucceedStep(s: State, k: string): State {
    if k !in s.inside then s
    else s.(inside := s.inside - {k}, attempts := s.attempts - {k}, failures := s.failures - {k})
  }

  function Step(s: State, e: Event): State {
    match e
    case Tick(d) => s.(now := s.now + d)
    case Enter(k) => EnterStep(s, k)
    case Fail(k) => FailStep(s, k)
    case Succeed(k) => SucceedStep(s, k)
    case Leave(k) => s.(inside := s.inside - {k})
    case Sweep => s.(attempts := Swept(s.attempts, s.now))
  }

  function Run(s: State, es: seq<Event>): State
    decreases |es|
  {
    if es == [] then s else Run(Step(s, es[0]), es[1..])
  }

  /** No six failures within fifteen minutes. */
  ghost predicate Spaced(f: seq<int>) {
    forall i :: 0 <= i && i + 5 < |f| ==> f[i + 5] - f[i] >= 900_000_000_000
  }

  predicate Ordered(f: seq<int>, now: int) {
    (forall i, j :: 0 <= i < j < |f| ==> f[i] <= f[j]) && (forall i :: 0 <= i < |f| ==> f[i] <= now)
  }

  /** The list is the end of the failure history, cut no later than the window. */
  predicate Tail(f: seq<int>, a: seq<int>, now: int) {
    && |a| <= |f| && a == f[|f| - |a|..]
    && (forall i :: 0 <= i < |f| - |a| ==> f[i] <= now - LOGIN_LOCKOUT_WINDOW)
  }

  /** What holds of one key: its failures `f`, its list `a`, and, inside the
      gate, that fewer than five failures lay within the window at the test. */
  ghost predicate Good(f: seq<int>, a: seq<int>, now: int) {
    Ordered(f, now) && Spaced(f) && Tail(f, a, now)
  }

  predicate Admitted(f: seq<int>, at: int) {
    |f| >= MAX_LOGIN_ATTEMPTS ==> f[|f| - MAX_LOGIN_ATTEMPTS] <= at - LOGIN_LOCKOUT_WINDOW
  }

  ghost predicate KeyInv(s: State, k: string) {
    && Good(Listed(s.failures, k), Listed(s.attempts, k), s.now)
    && (k in s.inside ==> s.inside[k] <= s.now && Admitted(Listed(s.failures, k), s.inside[k]))
  }

  lemma {:induction false} RecentIsTail(a: seq<int>, cutoff: int)
    requires forall i, j :: 0 <= i < j < |a| ==> a[i] <= a[j]
    ensures var r := Recent(a, cutoff);
            && r == a[|a| - |r|..]
            && (forall i :: 0 <= i < |a| - |r| ==> a[i] <= cutoff)
            && (forall i :: |a| - |r| <= i < |a| ==> a[i] > cutoff)
    decreases |a|
  {
    if a != [] {
      RecentIsTail(a[1..], cutoff);
      if a[0] > cutoff {
        assert forall i :: 0 <= i < |a[1..]| ==> a[1..][i] > cutoff;
      }
    }
  }

  lemma TimePasses(f: seq<int>, a: seq<int>, now: int, later: int)
    requires Good(f, a, now) && now <= later
    ensures Good(f, a, later)
  {
  }

  lemma TestAdmits(f: seq<int>, a: seq<int>, now: int)
    requires Good(f, a, now)
    ensures var r := Recent(a, now - LOGIN_LOCKOUT_WINDOW);
            Good(f, r, now) && (|r| < MAX_LOGIN_ATTEMPTS ==> Admitted(f, now))
  {
    RecentIsTail(a, now - LOGIN_LOCKOUT_WINDOW);
    var r := Recent(a, now - LOGIN_LOCKOUT_WINDOW);
    assert forall i :: 0 <= i < |f| - |r| ==> f[i] <= now - LOGIN_LOCKOUT_WINDOW by {
      forall i | |f| - |a| <= i < |f| - |r| ensures f[i] <= now - LOGIN_LOCKOUT_WINDOW {
        assert a[i - (|f| - |a|)] == f[i];
      }
    }
  }

  lemma FailureIsSpaced(f: seq<int>, a: seq<int>, now: int, at: int)
    requires Good(f, a, now) && at <= now && Admitted(f, at)
    ensures Good(f + [now], a + [now], now)
  {
  }

  lemma ForgottenIsOld(f: seq<int>, a: seq<int>, now: int)
    requires Good(f, a, now) && !StillRecent(a, now - LOGIN_LOCKOUT_WINDOW)
    ensures Good(f, [], now)
  {
    forall i | |f| - |a| <= i < |f| ensures f[i] <= now - LOGIN_LOCKOUT_WINDOW {
      assert a[i - (|f| - |a|)] == f[i];
    }
  }

  /** An event that leaves the key's lists, time and gate alone. */
  lemma OtherKeyKeeps(s: State, t: State, k: string)
    requires KeyInv(s, k) && s.now == t.now
    requires Listed(t.failures, k) == Listed(s.failures, k) && Listed(t.attempts, k) == Listed(s.attempts, k)
    requires k in t.inside ==> k in s.inside && t.inside[k] == s.inside[k]
    ensures KeyInv(t, k)
  {
  }

  lemma TickKeeps(s: State, d: nat, k: string)
    requires KeyInv(s, k)
    ensures KeyInv(s.(now := s.now + d), k)
  {
    TimePasses(Listed(s.failures, k), Listed(s.attempts, k), s.now, s.now + d);
  }

  lemma EnterKeeps(s: State, k: string)
    requires KeyInv(s, k)
    ensures KeyInv(EnterStep(s, k), k)
  {
    TestAdmits(Listed(s.failures, k), Listed(s.attempts, k), s.now);
  }

  lemma FailKeeps(s: State, k: string)
    requires KeyInv(s, k)
    ensures KeyInv(FailStep(s, k), k)
  {
    if k in s.inside {
      FailureIsSpaced(Listed(s.failures, k), Listed(s.attempts, k), s.now, s.inside[k]);
    }
  }

  lemma SucceedKeeps(s: State, k: string)
    requires KeyInv(s, k)
    ensures KeyInv(SucceedStep(s, k), k)
  {
  }

  lemma SweepKeeps(s: State, k: string)
    requires KeyInv(s, k)
    ensures KeyInv(s.(attempts := Swept(s.attempts, s.now)), k)
  {
    var f, a := Listed(s.failures, k), Listed(s.attempts, k);
    var t := s.(attempts := Swept(s.attempts, s.now));
    if StillRecent(a, s.now - LOGIN_LOCKOUT_WINDOW) {
      OtherKeyKeeps(s, t, k);
    } else {
      ForgottenIsOld(f, a, s.now);
      assert Listed(t.attempts, k) == [];
    }
  }

  /** Events of other keys, and leaving the gate, do so. */
  lemma OthersLeaveKey(s: State, e: Event, k: string)
    requires !e.Tick? && !e.Sweep? && (e.key != k || e.Leave?)
    ensures var t := Step(s, e);
            && t.now == s.now && Listed(t.failures, k) == Listed(s.failures, k) && Listed(t.attempts, k) == Listed(s.attempts, k)
            && (k in t.inside ==> k in s.inside && t.inside[k] == s.inside[k])
  {
  }

  lemma KeyEventKeeps(s: State, e: Event, k: string)
    requires KeyInv(s, k) && (e.Enter? || e.Fail? || e.Succeed?) && e.key == k
    ensures KeyInv(Step(s, e), k) == true
  {
    match e
    case Enter(_) => EnterKeeps(s, k);
    case Fail(_) => FailKeeps(s, k);
    case Succeed(_) => SucceedKeeps(s, k);
  }

  lemma StepKeeps(s: State, e: Event, k: string)
    requires KeyInv(s, k)
    ensures KeyInv(Step(s, e), k) == true  // an equation, so that KeyInv is not taken apart
  {
    match e
    case Tick(d) => TickKeeps(s, d, k);
    case Sweep => SweepKeeps(s, k);
    case _ =>
      if e.key != k || e.Leave? {
        OthersLeaveKey(s, e, k);
        OtherKeyKeeps(s, Step(s, e), k);
      } else {
        KeyEventKeeps(s, e, k);
      }
  }

  lemma {:induction false} RunKeeps(s: State, es: seq<Event>, k: string)
    requires KeyInv(s, k)
    ensures KeyInv(Run(s, es), k)
    decreases |es|
  {
    if es != [] {
      StepKeeps(s, es[0], k);
      RunKeeps(Step(s, es[0]), es[1..], k);
    }
  }

  /** What a check leaves behind, inside the gate: a failure is added to the
      key's list, a success clears it, so that the next attempt is let in; other
      keys are not touched. */
  lemma OutcomeIsRecorded(s: State, k: string, other: string)
    requires k in s.inside && other != k
    ensures var t := Step(s, Fail(k));
            && t.attempts == s.attempts[k := Listed(s.attempts, k) + [s.now]] && k !in t.inside
            && Listed(t.attempts, other) == Listed(s.attempts, other)
    ensures var t := Step(s, Succeed(k));
            && Listed(t.attempts, k) == [] && k !in t.inside && k in Step(t, Enter(k)).inside
            && Listed(t.attempts, other) == Listed(s.attempts, other)
  {
  }

  /** For every key and every run: any six failed checks with no clearing success
      between them span at least fifteen minutes. */
  lemma SixFailuresSpanTheWindow(es: seq<Event>, k: string)
    ensures Spaced(Listed(Run(Init, es).failures, k))
  {
    RunKeeps(Init, es, k);
  }

  /** The lockout is never longer than that either: a key is refused only while
      five failures lie within the window. */
  lemma RefusedOnlyWhileFailing(es: seq<Event>, k: string)
    requires var s := Run(Init, es); k !in s.inside && k !in Step(s, Enter(k)).inside
    ensures var s := Run(Init, es);
            var f := Listed(s.failures, k);
            |f| >= 5 && f[|f| - 5] > s.now - 900_000_000_000
  {
    var s := Run(Init, es);
    RunKeeps(Init, es, k);
    RecentIsTail(Listed(s.attempts, k), s.now - LOGIN_LOCKOUT_WINDOW);
  }
}
