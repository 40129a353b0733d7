/**
 What account operations and logins do (internal/auth/manager.go): a password
 change makes the new password the one that logs in, and nothing else changes.
 */
module Passwords {
  import opened Options
  import opened Auth

  /** Every account but `name` is as it was. */
  ghost predicate OthersUntouched(d: Dir, d': Dir, name: string) {
    forall n :: n != name ==>
      && (n in d.users <==> n in d'.users)
      && (Known(d, n) ==> Known(d', n) && UserOf(d', n) == UserOf(d, n))
  }

  // ---- accounts ----

  lemma UpdatedInPlace(d: Dir, name: string, u: User)
    requires Indexed(d) && Known(d, name)
    ensures var d' := SetUser(d, d.users[name], u);
            && Known(d', name) && UserOf(d', name) == u && OthersUntouched(d, d', name) && d'.users == d.users
  {
    var d' := SetUser(d, d.users[name], u);
    forall n | n != name && Known(d, n) ensures Known(d', n) && UserOf(d', n) == UserOf(d, n) {
      assert IndexedUser(d, n) && IndexedUser(d, name);
    }
  }

  /** What the file holds of an account afterwards. */
  ghost predicate Filed(w: World, w': World, name: string, saved: bool) {
    if saved then Known(w'.dir, name) && name in w'.file && w'.file[name] == UserOf(w'.dir, name)
    else w'.file == w.file
  }

  lemma UpdateOutcome(w: World, name: string, reset: Option<string>, enabled: Option<bool>, saved: bool)
    requires Indexed(w.dir) && Known(w.dir, name)
    ensures var w' := UpdateStep(w, name, reset, enabled, saved);
            && Known(w'.dir, name) && UserOf(w'.dir, name) == Updated(UserOf(w.dir, name), reset, enabled, w.next)
            && OthersUntouched(w.dir, w'.dir, name) && Filed(w, w', name, saved)
            && w'.tasks == w.tasks && w'.next == w.next + 1 && w'.issued == w.issued
  {
    UpdatedInPlace(w.dir, name, Updated(UserOf(w.dir, name), reset, enabled, w.next));
  }

  /** An administrator's update, saved or not, in every reachable state: the new
      password if one was given, the requested flag if one was given, and
      nothing else. */
  lemma UpdateChangesPassword(es: seq<Event>, name: string, reset: Option<string>, enabled: Option<bool>, saved: bool)
    requires Known(Run(Init, es).dir, name)
    ensures var w := Run(Init, es);
            var w' := Step(w, Update(name, reset, enabled, saved));
            var u := UserOf(w.dir, name);
            && Known(w'.dir, name) && OthersUntouched(w.dir, w'.dir, name) && Filed(w, w', name, saved)
            && var v := UserOf(w'.dir, name);
               && v.id == u.id && v.name == u.name && v.keyHash == u.keyHash
               && (reset.Some? ==> v.hash.password == reset.value && v.hash.salt == w.next)
               && (reset.None? ==> v.hash == u.hash)
               && v.enabled == (if enabled.Some? then enabled.value else u.enabled)
  {
    RunKeepsInv(Init, es);
    UpdateOutcome(Run(Init, es), name, reset, enabled, saved);
  }

  /** The last section of a password change: it takes effect exactly if the
      account is still the one whose password was compared, on that password. */
  lemma CommitChangesPassword(w: World, t: nat, expiresAt: int, evict: set<nat>, saved: bool)
    requires Inv(w) && t in w.tasks && w.tasks[t].ChangeCommit?
    ensures var task := w.tasks[t];
            var w' := Step(w, Advance(t, expiresAt, evict, saved));
            if Unchanged(w.dir, task.name, task.ref, task.hash) then
              && Known(w'.dir, task.name) && OthersUntouched(w.dir, w'.dir, task.name) && Filed(w, w', task.name, saved)
              && var u, v := UserOf(w.dir, task.name), UserOf(w'.dir, task.name);
                 && v.hash.password == task.newPassword && v.hash.salt == w.next
                 && v == u.(hash := v.hash)
            else w'.dir == w.dir && w'.file == w.file && w'.sessions == w.sessions
  {
    var task := w.tasks[t];
    if Unchanged(w.dir, task.name, task.ref, task.hash) {
      UpdateOutcome(End(w, t), task.name, Some(task.newPassword), None, saved);
    }
  }

  /** A new account has the password it was created with, is enabled and filed. */
  lemma CreateMakesAccount(w: World, name: string, password: string)
    requires Inv(w) && name !in w.dir.users
    ensures var w' := Step(w, Create(name, password, true));
            && Known(w'.dir, name) && UserOf(w'.dir, name).hash.password == password
            && UserOf(w'.dir, name).enabled && UserOf(w'.dir, name).id !in w.dir.byId
            && OthersUntouched(w.dir, w'.dir, name) && Filed(w, w', name, true)
  {
    IndexesAreOld(w.dir, w.next);
    var u := NewUser(w, name, password);
    var d := Insert(w.dir, w.next, u);
    forall n | n != name && Known(w.dir, n) ensures Known(d, n) && UserOf(d, n) == UserOf(w.dir, n) {
      assert w.dir.users[n] != w.next;
    }
  }

  /** A deleted account is gone, and from the file too if that was written. */
  lemma DeleteRemovesAccount(w: World, name: string, saved: bool)
    requires Inv(w) && Known(w.dir, name)
    ensures var w' := Step(w, Delete(name, saved));
            && name !in w'.dir.users && UserOf(w.dir, name).id !in w'.dir.byId
            && OthersUntouched(w.dir, w'.dir, name)
            && (if saved then name !in w'.file else w'.file == w.file)
  {
  }

  /** A restart brings back exactly the filed accounts and the sessions of the
      sessions file, and forgets what was under way. */
  lemma RestartRestoresAccounts(w: World, stored: set<nat>, name: string)
    requires Inv(w)
    ensures var w' := RestartStep(w, stored);
            && (name in w'.dir.users <==> name in w.file)
            && (name in w.file ==> Known(w'.dir, name) && UserOf(w'.dir, name) == w.file[name])
            && w'.tasks == map[] && w'.file == w.file && w'.issued == w.issued
            && (forall t :: t in w'.sessions <==> t in stored && t in w.issued)
            && (forall t :: t in w'.sessions ==> w'.sessions[t] == w.issued[t])
  {
    assert IsLoad(Loaded(w.file), w.file);
  }

  /** A saved key rotation: the new key finds the account if it is enabled, and
      the old one finds nobody. */
  lemma RegenerateSwapsKeys(w: World, name: string)
    requires Inv(w) && Known(w.dir, name)
    ensures var d, u := Step(w, Regenerate(name, true)).dir, UserOf(w.dir, name);
            && Known(d, name) && UserOf(d, name) == u.(keyHash := KeyOf(w.next))
            && KeyLookup(d, w.next) == (if u.enabled then Some(UserOf(d, name)) else None)
            && (u.keyHash.KeyOf? ==> KeyLookup(d, u.keyHash.key) == None)
            && OthersUntouched(w.dir, d, name)
  {
    IndexesAreOld(w.dir, w.next);
    assert IndexedUser(w.dir, name);
    forall n | n != name && Known(w.dir, n)
      ensures w.dir.users[n] != w.dir.users[name]
    {
      assert IndexedUser(w.dir, n);
    }
  }

  // ---- sessions ----

  /** A token is accepted exactly if its session is there, has not run out, and
      some enabled account has its user id and, where it has a fingerprint, the
      password it was issued under. */
  lemma AcceptsIff(w: World, token: nat, now: int)
    requires Inv(w)
    ensures Accepts(w, token, now) <==>
            && token in w.sessions && now <= w.sessions[token].expiresAt
            && exists n :: Known(w.dir, n) && UserOf(w.dir, n).id == w.sessions[token].uid && UserOf(w.dir, n).enabled
                           && (w.sessions[token].fp == NoFp || w.sessions[token].fp == FpOf(UserOf(w.dir, n).hash))
  {
    if Accepts(w, token, now) {
      var ref := w.dir.byId[w.sessions[token].uid];
      assert Listed(w.dir, ref);
      assert Known(w.dir, w.dir.heap[ref].name) && UserOf(w.dir, w.dir.heap[ref].name) == w.dir.heap[ref];
    }
    if token in w.sessions {
      forall n | Known(w.dir, n) ensures w.dir.byId[UserOf(w.dir, n).id] == w.dir.users[n] {
        assert IndexedUser(w.dir, n);
      }
    }
  }

  /** Looking at a session, logging out and sweeping touch sessions only: a
      refused token, the token logged out, and exactly the ones run out go. */
  lemma SessionsGoOneByOne(w: World, token: nat, now: int)
    ensures Step(w, Validate(token, now)) == if Accepts(w, token, now) then w else w.(sessions := w.sessions - {token})
    ensures Step(w, Logout(token)) == w.(sessions := w.sessions - {token})
    ensures var w' := Step(w, Cleanup(now));
            && w' == w.(sessions := w'.sessions)
            && (forall t :: t in w'.sessions <==> t in w.sessions && w.sessions[t].expiresAt >= now)
            && (forall t :: t in w'.sessions ==> w'.sessions[t] == w.sessions[t])
  {
  }

  // ---- logins ----

  /** The account is there, enabled, and has this password. */
  predicate Admits(w: World, name: string, password: string) {
    Known(w.dir, name) && UserOf(w.dir, name).enabled && UserOf(w.dir, name).hash.password == password
  }

  lemma LoginStarts(w: World, name: string, password: string)
    requires Inv(w)
    ensures var w1 := Step(w, Login(name, password));
            && w.next !in w.tasks
            && (Known(w.dir, name) ==>
                  var u := UserOf(w.dir, name);
                  w1 == w.(tasks := w.tasks[w.next := LoginCompare(name, w.dir.users[name], u.hash, u.enabled, u.id, password)],
                           next := w.next + 1))
            && (!Known(w.dir, name) ==> w1 == w)
  {
  }

  /** The comparison and the insertion, when nothing comes between. */
  lemma LoginEnds(w: World, w1: World, t: nat, name: string, password: string, expiresAt: int, evict: set<nat>, saved: bool)
    requires Known(w.dir, name) && w1.dir == w.dir && t in w1.tasks
    requires var u := UserOf(w.dir, name);
             w1.tasks[t] == LoginCompare(name, w.dir.users[name], u.hash, u.enabled, u.id, password)
    ensures var u, go := UserOf(w.dir, name), Advance(t, expiresAt, evict, saved);
            var w3 := Step(Step(w1, go), go);
            && w3.dir == w.dir
            && (Admits(w, name, password) ==>
                  && w1.next in w3.sessions
                  && w3.sessions[w1.next] == Session(u.id, FpOf(u.hash), expiresAt, w1.next))
            && (!Admits(w, name, password) ==> w3.sessions == w1.sessions)
  {
    var go := Advance(t, expiresAt, evict, saved);
    var w2 := Step(w1, go);
    if Admits(w, name, password) {
      assert w2.tasks[t].LoginInsert? && w2.dir == w.dir && w2.next == w1.next;
    } else {
      assert w2 == End(w1, t);
    }
  }

  /**
   * In every reachable state a login that is left alone gets a session exactly
   * if the account is there and enabled and the password presented is its
   * current one; the token then validates until it runs out, and no longer.
   */
  lemma LoginSucceedsIff(w: World, name: string, password: string, expiresAt: int, evict: set<nat>, saved: bool, now: int)
    requires Inv(w)
    ensures var go := Advance(w.next, expiresAt, evict, saved);
            var w3 := Step(Step(Step(w, Login(name, password)), go), go);
            && (w3.sessions != w.sessions ==> Admits(w, name, password))
            && (Admits(w, name, password) ==>
                  w.next + 1 in w3.sessions && (Accepts(w3, w.next + 1, now) <==> now <= expiresAt))
  {
    LoginStarts(w, name, password);
    if Known(w.dir, name) {
      LoginEnds(w, Step(w, Login(name, password)), w.next, name, password, expiresAt, evict, saved);
      assert IndexedUser(w.dir, name);
    }
  }

  /** Whatever came before: after a reset, saved or not, and left alone, a login
      gets a session exactly with the new password, if the account is enabled. */
  lemma NewPasswordLogsIn(es: seq<Event>, name: string, changed: string, enabled: Option<bool>, saved: bool, password: string)
    requires Known(Run(Init, es).dir, name)
    ensures var w := Run(Init, es);
            Admits(Step(w, Update(name, Some(changed), enabled, saved)), name, password)
            <==> password == changed && (enabled == Some(true) || (enabled == None && UserOf(w.dir, name).enabled))
  {
    UpdateChangesPassword(es, name, Some(changed), enabled, saved);
  }

  /** A saved one still does after a restart on any sessions file. */
  lemma NewPasswordSurvivesRestart(es: seq<Event>, name: string, changed: string, password: string, stored: set<nat>)
    requires Known(Run(Init, es).dir, name)
    ensures var w := Step(Run(Init, es), Update(name, Some(changed), None, true));
            Admits(RestartStep(w, stored), name, password)
            <==> password == changed && UserOf(Run(Init, es).dir, name).enabled
  {
    UpdateChangesPassword(es, name, Some(changed), None, true);
    RunKeepsInv(Init, es);
    var e := Update(name, Some(changed), None, true);
    StepKeepsInv(Run(Init, es), e);
    RestartRestoresAccounts(Step(Run(Init, es), e), stored, name);
  }

  /** A password change left alone takes effect exactly if the current password
      was presented; otherwise the account stays as it is. */
  lemma ChangePasswordIff(w: World, name: string, current: string, changed: string, expiresAt: int, evict: set<nat>, saved: bool)
    requires Inv(w) && Known(w.dir, name)
    ensures var go := Advance(w.next, expiresAt, evict, saved);
            var w3 := Step(Step(Step(w, ChangePassword(name, current, changed)), go), go);
            var u := UserOf(w.dir, name);
            && Known(w3.dir, name)
            && (u.hash.password == current ==>
                  UserOf(w3.dir, name).hash.password == changed && UserOf(w3.dir, name).enabled == u.enabled)
            && (u.hash.password != current ==> w3.dir == w.dir)
  {
    var go, u := Advance(w.next, expiresAt, evict, saved), UserOf(w.dir, name);
    var w1 := Step(w, ChangePassword(name, current, changed));
    assert w1.tasks[w.next] == ChangeCompare(name, w.dir.users[name], u.hash, current, changed);
    StepKeepsInv(w, ChangePassword(name, current, changed));
    var w2 := Step(w1, go);
    if u.hash.password == current {
      assert w2.tasks[w.next] == ChangeCommit(name, w.dir.users[name], u.hash, changed) && w2.dir == w.dir;
      StepKeepsInv(w1, go);
      CommitChangesPassword(w2, w.next, expiresAt, evict, saved);
    } else {
      assert w2 == End(w1, w.next);
    }
  }
}
