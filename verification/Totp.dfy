/**
 * One-time use of TOTP codes, section 5.2 of RFC 6238: a code that was
 * accepted once must not be accepted again.
 */
module Totp {
  const Period: int := 30
  const Skew: int := 1

  function StepAt(now: nat): nat {
    now / Period
  }

  // ---------- The check ----------

  /** Generates the code of a secret at a time step. */
  type Codes = (string, int) -> string

  predicate Matches(codes: Codes, secret: string, code: string, now: nat, step: int) {
    now / 30 - 1 <= step <= now / 30 + 1 && codes(secret, step) == code
  }

  /** Accepts exactly the codes of the three steps around now, and reports the earliest that matches. */
  method ValidateTOTP(codes: Codes, readable: string -> bool, secret: string, code: string, now: nat)
      returns (ok: bool, step: int)
    ensures ok <==> readable(secret) && exists s :: Matches(codes, secret, code, now, s)
    ensures ok ==> Matches(codes, secret, code, now, step)
    ensures ok ==> forall s :: Matches(codes, secret, code, now, s) ==> step <= s
    ensures !ok ==> step == -1
  {
    if !readable(secret) {
      return false, -1;
    }
    var i := -Skew;
    while i <= Skew
      invariant -Skew <= i <= Skew + 1
      invariant forall s :: Matches(codes, secret, code, now, s) ==> s >= StepAt(now) + i
    {
      var counter := StepAt(now) + i;
      if codes(secret, counter) == code {
        assert Matches(codes, secret, code, now, counter);
        return true, counter;
      }
      i := i + 1;
    }
    return false, -1;
  }

  // ---------- Burning a step ----------

  type Used = map<string, int>

  /** Records too old to match any code again are dropped. */
  function Pruned(used: Used, t: int): Used {
    map k | k in used && used[k] >= t - Skew :: used[k]
  }

  predicate Consumed(used: Used, secret: string, step: int) {
    secret in used && step <= used[secret]
  }

  function Burned(used: Used, secret: string, step: int, t: int): Used {
    Pruned(used, t)[secret := step]
  }

  class Guard {
    var used: Used

    constructor ()
      ensures used == map[]
    {
      used := map[];
    }

    /** The part under the lock, at time step `t`. */
    method Burn(secret: string, step: int, t: int) returns (ok: bool)
      modifies this
      ensures ok == !Consumed(old(used), secret, step)
      ensures used == if ok then Burned(old(used), secret, step, t) else old(used)
      ensures ok ==> secret in used && used[secret] == step
      ensures ok ==> forall k :: k != secret ==>
                (k in used <==> k in old(used) && old(used)[k] >= t - 1) && (k in used ==> used[k] == old(used)[k])
      ensures ok <==> !(secret in old(used) && step <= old(used)[secret])
    {
      if secret in used && step <= used[secret] {
        return false;
      }
      var oldest := t - Skew;
      var todo := used.Keys;
      while todo != {}
        invariant todo <= used.Keys <= old(used).Keys
        invariant forall k :: k in used ==> used[k] == old(used)[k]
        invariant forall k :: k in old(used) && k !in used ==> old(used)[k] < oldest
        invariant forall k :: k in used && k !in todo ==> used[k] >= oldest
        decreases |todo|
      {
        var k :| k in todo;
        todo := todo - {k};
        if used[k] < oldest {
          used := used - {k};
        }
      }
      assert used == Pruned(old(used), t);
      used := used[secret := step];
      return true;
    }

    /** The check reads the clock at `now`, the burn reads it again at `later`. */
    method ValidateNoReplay(codes: Codes, readable: string -> bool, secret: string, code: string,
                            now: nat, later: nat) returns (ok: bool)
      requires now <= later
      modifies this
      ensures ok ==> exists s ::
                  && Matches(codes, secret, code, now, s)
                  && !Consumed(old(used), secret, s)
                  && used == Burned(old(used), secret, s, StepAt(later))
      ensures !ok ==> used == old(used)
      ensures !ok ==>
                || !readable(secret)
                || (forall s :: !Matches(codes, secret, code, now, s))
                || exists s :: Matches(codes, secret, code, now, s) && Consumed(used, secret, s)
    {
      var valid, step := ValidateTOTP(codes, readable, secret, code, now);
      if !valid {
        return false;
      }
      ok := Burn(secret, step, StepAt(later));
    }
  }

  // ---------- Runs ----------

  /** A call between its check, in time step `at`, and its burn. */
  datatype Call = Call(secret: string, step: int, at: int)

  /** `accepted` lists the steps accepted for each secret, in order. */
  datatype World = World(now: int, used: Used, calls: seq<Call>, accepted: map<string, seq<int>>)

  /** Time steps; checks that find a step inside the window; burns of earlier checks. */
  datatype Event = Tick(steps: nat) | Check(secret: string, step: int) | Burn(call: nat)

  const Init := World(0, map[], [], map[])

  function Log(w: World, secret: string): seq<int> {
    if secret in w.accepted then w.accepted[secret] else []
  }

  function Step(w: World, e: Event): World {
    match e
    case Tick(n) => w.(now := w.now + n)
    case Check(secret, step) =>
      if w.now - Skew <= step <= w.now + Skew then w.(calls := w.calls + [Call(secret, step, w.now)]) else w
    case Burn(i) =>
      if i >= |w.calls| then w
      else
        var c := w.calls[i];
        var rest := w.calls[..i] + w.calls[i + 1..];
        if Consumed(w.used, c.secret, c.step) then w.(calls := rest)
        else w.(calls := rest, used := Burned(w.used, c.secret, c.step, w.now),
                accepted := w.accepted[c.secret := Log(w, c.secret) + [c.step]])
  }

  function Run(w: World, es: seq<Event>): World {
    if es == [] then w else Step(Run(w, es[..|es| - 1]), es[|es| - 1])
  }

  /** The burn comes while the step it burns is still inside the window. */
  predicate Timely(w: World, e: Event) {
    e.Burn? && e.call < |w.calls| ==> w.calls[e.call].step >= w.now - Skew
  }

  predicate AllTimely(w: World, es: seq<Event>) {
    es == [] || (AllTimely(w, es[..|es| - 1]) && Timely(Run(w, es[..|es| - 1]), es[|es| - 1]))
  }

  predicate Increasing(xs: seq<int>) {
    forall i, j :: 0 <= i < j < |xs| ==> xs[i] < xs[j]
  }

  /** The record of a secret is its last accepted step, or that step has left the window. */
  predicate Remembered(w: World, secret: string) {
    var log := Log(w, secret);
    if log == [] then secret !in w.used
    else
      var last := log[|log| - 1];
      if secret in w.used then w.used[secret] == last else last < w.now - Skew
  }

  ghost predicate Inv(w: World, secret: string) {
    Increasing(Log(w, secret)) && Remembered(w, secret)
  }

  lemma BurnKeeps(w: World, i: nat, secret: string)
    requires i < |w.calls| && Inv(w, secret) && Timely(w, Burn(i))
    ensures Inv(Step(w, Burn(i)), secret)
  {
    var c := w.calls[i];
    if !Consumed(w.used, c.secret, c.step) && c.secret != secret {
      var next := Step(w, Burn(i));
      assert Log(next, secret) == Log(w, secret);
      assert secret in next.used <==> secret in w.used && w.used[secret] >= w.now - Skew;
    }
  }

  lemma StepKeeps(w: World, e: Event, secret: string)
    requires Inv(w, secret) && Timely(w, e)
    ensures Inv(Step(w, e), secret)
  {
    if e.Burn? && e.call < |w.calls| {
      BurnKeeps(w, e.call, secret);
    }
  }

  lemma {:induction false} RunKeeps(es: seq<Event>, secret: string)
    requires AllTimely(Init, es)
    ensures Inv(Run(Init, es), secret)
  {
    if es != [] {
      RunKeeps(es[..|es| - 1], secret);
      StepKeeps(Run(Init, es[..|es| - 1]), es[|es| - 1], secret);
    }
  }

  /**
   * No replay: over any run in which burns are timely, in particular when a
   * call's check and burn fall into one time step, the steps accepted for a
   * secret strictly increase although old records are pruned.
   */
  lemma AcceptedStepsIncrease(es: seq<Event>, secret: string)
    requires AllTimely(Init, es)
    ensures Increasing(Log(Run(Init, es), secret))
  {
    RunKeeps(es, secret);
  }

  // ---------- When burns are timely ----------

  /** No tick came between the check of the call burned and this burn. */
  predicate Prompt(w: World, e: Event) {
    e.Burn? && e.call < |w.calls| ==> w.calls[e.call].at == w.now
  }

  predicate AllPrompt(w: World, es: seq<Event>) {
    es == [] || (AllPrompt(w, es[..|es| - 1]) && Prompt(Run(w, es[..|es| - 1]), es[|es| - 1]))
  }

  /** Every waiting call found its step inside the window of its own time. */
  predicate InWindow(w: World) {
    forall c :: c in w.calls ==> c.at - Skew <= c.step
  }

  lemma {:induction false} CallsAreInWindow(es: seq<Event>)
    ensures InWindow(Run(Init, es))
  {
    if es != [] {
      CallsAreInWindow(es[..|es| - 1]);
    }
  }

  /** Check and burn in one time step make a timely burn, whatever other calls
      do in between. */
  lemma {:induction false} PromptIsTimely(es: seq<Event>)
    requires AllPrompt(Init, es)
    ensures AllTimely(Init, es)
  {
    if es != [] {
      var before, e := es[..|es| - 1], es[|es| - 1];
      PromptIsTimely(before);
      CallsAreInWindow(before);
      var w := Run(Init, before);
      assert e.Burn? && e.call < |w.calls| ==> w.calls[e.call] in w.calls;
    }
  }

  // ---------- When a step can be accepted twice ----------

  /** After some run whose burns were all timely, a waiting call at time `late`
      would be accepted with a step that has been accepted already. */
  ghost predicate Replayable(step: int, late: int) {
    exists es, i, a :: AcceptsAgain(Run(Init, es), i, a, step, late) && AllTimely(Init, es)
  }

  predicate AcceptsAgain(w: World, i: nat, a: string, step: int, late: int) {
    && w.now == late && i < |w.calls| && w.calls[i].secret == a && w.calls[i].step == step
    && step in Log(w, a) && !Consumed(w.used, a, step)
  }

  lemma TimelyBurnIsNew(w: World, i: nat, a: string, step: int, late: int)
    requires Inv(w, a) && late <= step + Skew
    ensures !AcceptsAgain(w, i, a, step, late)
  {
  }

  /** Two checks of one code have passed, and one of them is burned. */
  function TwiceChecked(a: string, step: int): World {
    World(step, map[], [Call(a, step, step), Call(a, step, step)], map[])
  }

  function OnceBurned(a: string, step: int): World {
    World(step, map[a := step], [Call(a, step, step)], map[a := [step]])
  }

  lemma FirstBurn(a: string, step: int)
    ensures Step(TwiceChecked(a, step), Burn(0)) == OnceBurned(a, step)
  {
    var w := TwiceChecked(a, step);
    assert w.calls[..0] + w.calls[1..] == [Call(a, step, step)];
    assert Burned(w.used, a, step, step) == map[a := step];
    assert Log(w, a) + [step] == [step];
    assert w.accepted[a := [step]] == map[a := [step]];
  }

  /** Another secret's burn at a later time step drops the record. */
  lemma OtherBurn(w: World, a: string, b: string, c: Call, step: int)
    requires a != b && w.now > step + Skew
    requires w.used == map[a := step] && Log(w, a) == [step]
    requires w.calls == [c, Call(b, w.now, w.now)]
    ensures var next := Step(w, Burn(1));
            a !in next.used && next.now == w.now && next.calls == [c] && Log(next, a) == [step]
  {
    assert w.calls[..1] + w.calls[2..] == [c];
  }

  lemma Extend(es: seq<Event>, w: World, e: Event, next: World)
    requires AllTimely(Init, es) && Run(Init, es) == w && Timely(w, e) && Step(w, e) == next
    ensures AllTimely(Init, es + [e]) && Run(Init, es + [e]) == next
  {
    assert (es + [e])[..|es|] == es;
  }

  lemma CheckTwiceBurnOnce(a: string, step: nat) returns (es: seq<Event>)
    ensures AllTimely(Init, es) && Run(Init, es) == OnceBurned(a, step)
  {
    var w1 := World(step, map[], [], map[]);
    var w2 := World(step, map[], [Call(a, step, step)], map[]);
    Extend([], Init, Tick(step), w1);
    Extend([] + [Tick(step)], w1, Check(a, step), w2);
    es := [] + [Tick(step)] + [Check(a, step)];
    Extend(es, w2, Check(a, step), TwiceChecked(a, step));
    es := es + [Check(a, step)];
    FirstBurn(a, step);
    Extend(es, TwiceChecked(a, step), Burn(0), OnceBurned(a, step));
    es := es + [Burn(0)];
  }

  /** Two checks of one code pass; the first burn records it; another secret's
      burn at `late` prunes the record; the second call would now be accepted. */
  lemma LateBurnIsAccepted(a: string, b: string, step: nat, late: nat) returns (es: seq<Event>)
    requires a != b && late > step + Skew
    ensures AllTimely(Init, es) && AcceptsAgain(Run(Init, es), 0, a, step, late)
  {
    es := CheckTwiceBurnOnce(a, step);
    var w5 := OnceBurned(a, step).(now := late);
    var w6 := w5.(calls := [Call(a, step, step), Call(b, late, late)]);
    Extend(es, OnceBurned(a, step), Tick(late - step), w5);
    es := es + [Tick(late - step)];
    Extend(es, w5, Check(b, late), w6);
    es := es + [Check(b, late)];
    OtherBurn(w6, a, b, Call(a, step, step), step);
    Extend(es, w6, Burn(1), Step(w6, Burn(1)));
    es := es + [Burn(1)];
  }

  /**
   * Exactly when a step can be accepted twice although every earlier burn was
   * timely: when its burn comes after the step has left the window.
   */
  lemma ReplayableIffLate(step: nat, late: nat)
    ensures Replayable(step, late) <==> late > step + 1
  {
    if late > step + Skew {
      var es := LateBurnIsAccepted("a", "b", step, late);
      assert AcceptsAgain(Run(Init, es), 0, "a", step, late);
    } else {
      forall es, i: nat, a | AllTimely(Init, es)
        ensures !AcceptsAgain(Run(Init, es), i, a, step, late)
      {
        RunKeeps(es, a);
        TimelyBurnIsNew(Run(Init, es), i, a, step, late);
      }
    }
  }
}
