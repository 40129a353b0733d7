/**
 What revokes a token for good (internal/auth): runs may hold further changes,
 failed saves, and restarts on any old sessions file, including one written by
 a version that knew no fingerprints.
 */
module Revocation {
  import opened Options
  import opened Auth

  // ---- dead sessions ----

  /** No user in memory or on disk has this id on this password any more. */
  ghost predicate Dead(w: World, s: Session) {
    Unbacked(w.dir, s) && forall n :: n in w.file ==> !Backs(w.file[n], s)
  }

  lemma CommitKeepsDead(w: World, d: Dir, next: nat, saved: bool, revoked: Option<nat>, s: Session)
    requires Unbacked(d, s) && (saved || Dead(w, s))
    ensures Dead(Commit(w, d, next, saved, revoked), s)
  {
  }

  lemma UpdateKeepsDead(w: World, name: string, reset: Option<string>, enabled: Option<bool>, saved: bool, s: Session)
    requires Indexed(w.dir) && Dead(w, s) && OldSession(w.next, s)
    ensures Dead(UpdateStep(w, name, reset, enabled, saved), s)
  {
    if Known(w.dir, name) {
      var u := UserOf(w.dir, name);
      UpdateDirSessions(w.dir, w.next, name, reset, enabled, s);
      CommitKeepsDead(w, SetUser(w.dir, w.dir.users[name], Updated(u, reset, enabled, w.next)), w.next + 1, saved,
                      if reset.Some? || enabled == Some(false) then Some(u.id) else None, s);
    }
  }

  lemma CreateKeepsDead(w: World, name: string, password: string, saved: bool, s: Session)
    requires Indexed(w.dir) && FreshDir(w.dir, w.next) && Dead(w, s) && OldSession(w.next, s)
    ensures Dead(CreateStep(w, name, password, saved), s)
  {
    if name !in w.dir.users {
      var u := NewUser(w, name, password);
      var d := Insert(w.dir, w.next, u);
      CreateDirSessions(w.dir, w.next, u, s);
      CommitKeepsDead(w, if saved then d else Remove(d, u), w.next + 4, saved, None, s);
    }
  }

  lemma RegenerateKeepsDead(w: World, name: string, saved: bool, s: Session)
    requires Dead(w, s)
    ensures Dead(RegenerateStep(w, name, saved), s)
  {
    if Known(w.dir, name) {
      var before := UserOf(w.dir, name).keyHash;
      RekeyDirSessions(w.dir, name, before, KeyOf(w.next), s);
      RekeyDirSessions(Rekey(w.dir, name, before, KeyOf(w.next)), name, KeyOf(w.next), before, s);
      CommitKeepsDead(w, Regenerated(w, name, saved), w.next + 1, saved, None, s);
    }
  }

  lemma RebootKeepsDead(w: World, stored: set<nat>, s: Session)
    requires Distinct(w.file) && Dead(w, s)
    ensures Dead(RestartStep(w, stored), s)
  {
    assert IsLoad(Loaded(w.file), w.file);
  }

  lemma DeleteKeepsDead(w: World, name: string, saved: bool, s: Session)
    requires Indexed(w.dir) && Dead(w, s)
    ensures Dead(DeleteStep(w, name, saved), s)
  {
    if Known(w.dir, name) {
      RemoveDirSessions(w.dir, name, s);
      CommitKeepsDead(w, Remove(w.dir, UserOf(w.dir, name)), w.next, saved, Some(UserOf(w.dir, name).id), s);
    }
  }

  lemma AdvanceKeepsDead(w: World, t: nat, expiresAt: int, evict: set<nat>, saved: bool, s: Session)
    requires Indexed(w.dir) && Dead(w, s) && OldSession(w.next, s) && t in w.tasks
    ensures Dead(AdvanceStep(w, t, expiresAt, evict, saved), s)
  {
    if w.tasks[t].ChangeCommit? {
      UpdateKeepsDead(End(w, t), w.tasks[t].name, Some(w.tasks[t].newPassword), None, saved, s);
    }
  }

  /** What is dead stays dead: ids and salts are never reused, and a restart
      brings back only what is on disk. */
  lemma StepKeepsDead(w: World, e: Event, s: Session)
    requires Inv(w) && Dead(w, s) && OldSession(w.next, s)
    ensures Dead(Step(w, e), s) == true
  {
    match e
    case Create(name, password, saved) => CreateKeepsDead(w, name, password, saved, s);
    case Update(name, reset, enabled, saved) => UpdateKeepsDead(w, name, reset, enabled, saved, s);
    case Delete(name, saved) => DeleteKeepsDead(w, name, saved, s);
    case Regenerate(name, saved) => RegenerateKeepsDead(w, name, saved, s);
    case Advance(t, expiresAt, evict, saved) => if t in w.tasks { AdvanceKeepsDead(w, t, expiresAt, evict, saved, s); }
    case Restart(stored) => RebootKeepsDead(w, stored, s);
    case _ =>
  }

  /** Issued tokens are never reissued. */
  ghost predicate Extends(w: World, w': World) {
    w'.next >= w.next && forall t :: t in w.issued && t < w.next ==> t in w'.issued && w'.issued[t] == w.issued[t]
  }

  lemma AdvanceExtends(w: World, t: nat, expiresAt: int, evict: set<nat>, saved: bool)
    requires t in w.tasks
    ensures Extends(w, AdvanceStep(w, t, expiresAt, evict, saved))
  {
    match w.tasks[t]
    case LoginInsert(name, ref, hash, uid, _) =>
    case _ => assert AdvanceStep(w, t, expiresAt, evict, saved).issued == w.issued;
  }

  lemma OthersIssueNothing(w: World, e: Event)
    requires !(e.Advance? && e.task in w.tasks) && !e.Legacy?
    ensures Step(w, e).issued == w.issued && Step(w, e).next >= w.next
  {
  }

  lemma StepExtends(w: World, e: Event)
    ensures Extends(w, Step(w, e))
  {
    if e.Advance? && e.task in w.tasks {
      AdvanceExtends(w, e.task, e.expiresAt, e.evict, e.saved);
    } else if e.Legacy? {
      assert Step(w, e).next >= w.next;
    } else {
      OthersIssueNothing(w, e);
    }
  }

  /** A dead session never validates, now or after any further run. */
  lemma {:induction false} DeadNeverValidates(w: World, token: nat, es: seq<Event>, now: int)
    requires Inv(w) && token in w.issued && Dead(w, w.issued[token])
    ensures !Accepts(Run(w, es), token, now)
    decreases |es|
  {
    if es == [] {
      var s := w.issued[token];
      if s.uid in w.dir.byId {
        var ref := w.dir.byId[s.uid];
        assert Listed(w.dir, ref) && w.dir.users[w.dir.heap[ref].name] == ref;
      }
    } else {
      StepKeepsInv(w, es[0]);
      StepKeepsDead(w, es[0], w.issued[token]);
      StepExtends(w, es[0]);
      DeadNeverValidates(Step(w, es[0]), token, es[1..], now);
    }
  }

  // ---- password changes and deletions ----

  /** The event changes the password of user `uid`, and the users file was written. */
  predicate Resets(w: World, e: Event, uid: nat) {
    match e
    case Update(name, reset, _, saved) => saved && reset.Some? && Known(w.dir, name) && UserOf(w.dir, name).id == uid
    case Advance(t, _, _, saved) =>
      && saved && t in w.tasks && w.tasks[t].ChangeCommit?
      && Unchanged(w.dir, w.tasks[t].name, w.tasks[t].ref, w.tasks[t].hash)
      && UserOf(w.dir, w.tasks[t].name).id == uid
    case _ => false
  }

  /** The event deletes user `uid`, and the users file was written. */
  predicate Deletes(w: World, e: Event, uid: nat) {
    e.Delete? && e.saved && Known(w.dir, e.name) && UserOf(w.dir, e.name).id == uid
  }

  /** The password change in it, whichever way it was made. */
  function ResetStep(w: World, e: Event): (World, string, Option<string>, Option<bool>) {
    if e.Advance? && e.task in w.tasks && w.tasks[e.task].ChangeCommit?
    then (End(w, e.task), w.tasks[e.task].name, Some(w.tasks[e.task].newPassword), None)
    else if e.Update? then (w, e.name, e.reset, e.enabled)
    else (w, "", None, None)
  }

  lemma ResetIsUpdate(w: World, e: Event, uid: nat)
    requires Resets(w, e, uid)
    ensures var (v, name, reset, enabled) := ResetStep(w, e);
            && Step(w, e) == UpdateStep(v, name, reset, enabled, true) && reset.Some?
            && v.dir == w.dir && v.next == w.next && Known(v.dir, name) && UserOf(v.dir, name).id == uid
  {
  }

  lemma ResetIsDead(w: World, name: string, reset: Option<string>, enabled: Option<bool>, s: Session)
    requires Indexed(w.dir) && Known(w.dir, name) && UserOf(w.dir, name).id == s.uid && reset.Some?
    requires OldSession(w.next, s) && s.fp != NoFp
    ensures Dead(UpdateStep(w, name, reset, enabled, true), s)
  {
    UpdateDirSessions(w.dir, w.next, name, reset, enabled, s);
    CommitKeepsDead(w, SetUser(w.dir, w.dir.users[name], Updated(UserOf(w.dir, name), reset, enabled, w.next)),
                    w.next + 1, true, Some(s.uid), s);
  }

  /** A saved deletion retires every session of the user, a saved password
      change those with a fingerprint. */
  lemma RetiredIsDead(w: World, e: Event, s: Session)
    requires Inv(w) && OldSession(w.next, s)
    requires Deletes(w, e, s.uid) || (Resets(w, e, s.uid) && s.fp != NoFp)
    ensures Dead(Step(w, e), s)
  {
    if e.Delete? {
      RemoveDirSessions(w.dir, e.name, s);
      CommitKeepsDead(w, Remove(w.dir, UserOf(w.dir, e.name)), w.next, true, Some(s.uid), s);
    } else {
      ResetIsUpdate(w, e, s.uid);
      var (v, name, reset, enabled) := ResetStep(w, e);
      ResetIsDead(v, name, reset, enabled, s);
    }
  }

  /** A token that is on record before a saved deletion of its user, or before a
      saved password change if it has a fingerprint, never validates again. */
  lemma RevokedTokenNeverValidates(es: seq<Event>, e: Event, token: nat, fs: seq<Event>, now: int)
    requires token in Run(Init, es).issued
    requires var w := Run(Init, es);
             var s := w.issued[token];
             Deletes(w, e, s.uid) || (Resets(w, e, s.uid) && s.fp != NoFp)
    ensures !Accepts(Run(Step(Run(Init, es), e), fs), token, now)
  {
    var w := Run(Init, es);
    RunKeepsInv(Init, es);
    RetiredIsDead(w, e, w.issued[token]);
    StepKeepsInv(w, e);
    StepExtends(w, e);
    DeadNeverValidates(Step(w, e), token, fs, now);
  }

  // ---- what brings a token back ----

  lemma {:induction false} RunSnoc(w: World, es: seq<Event>, e: Event)
    ensures Run(w, es + [e]) == Step(Run(w, es), e)
    decreases |es|
  {
    if es == [] {
      assert [e][1..] == [];
    } else {
      assert (es + [e])[1..] == es[1..] + [e];
      RunSnoc(Step(w, es[0]), es[1..], e);
    }
  }

  function Two(e: Event, f: Event): seq<Event> {
    [] + [e] + [f]
  }

  lemma RunTwo(w: World, e: Event, f: Event)
    ensures Run(w, Two(e, f)) == Step(Step(w, e), f)
  {
    RunSnoc(w, [], e);
    RunSnoc(w, [] + [e], f);
  }

  /** A restart on a file that holds the token, and the account enabled. */
  function Revival(token: nat, name: string): seq<Event> {
    Two(Restart({token}), Update(name, None, Some(true), true))
  }

  lemma EnableUser(w: World, name: string)
    requires Known(w.dir, name)
    ensures var w' := UpdateStep(w, name, None, Some(true), true);
            && w'.sessions == w.sessions && w'.dir.byId == w.dir.byId
            && w'.dir.heap == w.dir.heap[w.dir.users[name] := UserOf(w.dir, name).(enabled := true)]
  {
  }

  /** As long as the users file backs a token, it can validate again. */
  lemma BackedTokenRevives(w: World, token: nat, name: string)
    requires Distinct(w.file) && token in w.issued && name in w.file && Backs(w.file[name], w.issued[token])
    ensures Accepts(Run(w, Revival(token, name)), token, w.issued[token].expiresAt)
  {
    var restart, enable := Restart({token}), Update(name, None, Some(true), true);
    RunTwo(w, restart, enable);
    RebootBacks(w, token, name);
    EnabledAccepts(Step(w, restart), token, name, w.issued[token], w.file[name]);
  }

  lemma RebootBacks(w: World, token: nat, name: string)
    requires Distinct(w.file) && token in w.issued && name in w.file
    ensures var w1, u := Step(w, Restart({token})), w.file[name];
            && token in w1.sessions && w1.sessions[token] == w.issued[token]
            && Known(w1.dir, name) && UserOf(w1.dir, name) == u
            && u.id in w1.dir.byId && w1.dir.byId[u.id] == w1.dir.users[name]
  {
    RestartIs(w, {token});
    RestartReloads(w, {token}, token);
    UseLoaded(RestartStep(w, {token}).dir, w.file, name);
  }

  lemma RestartIs(w: World, stored: set<nat>)
    ensures Step(w, Restart(stored)) == RestartStep(w, stored)
  {
  }

  lemma RestartReloads(w: World, stored: set<nat>, token: nat)
    requires Distinct(w.file) && token in w.issued && token in stored
    ensures var w1 := RestartStep(w, stored);
            w1.dir == Loaded(w.file) && token in w1.sessions && w1.sessions[token] == w.issued[token]
  {
  }

  lemma UseLoaded(d: Dir, file: map<string, User>, name: string)
    requires Distinct(file) && name in file && d == Loaded(file)
    ensures var u := file[name];
            Known(d, name) && UserOf(d, name) == u && u.id in d.byId && d.byId[u.id] == d.users[name]
  {
    assert IsLoad(d, file) && IndexedUser(d, name);
  }

  lemma EnabledAccepts(w: World, token: nat, name: string, s: Session, u: User)
    requires token in w.sessions && w.sessions[token] == s && Backs(u, s)
    requires Known(w.dir, name) && UserOf(w.dir, name) == u && u.id in w.dir.byId && w.dir.byId[u.id] == w.dir.users[name]
    ensures Accepts(Step(w, Update(name, None, Some(true), true)), token, s.expiresAt)
  {
    EnableUser(w, name);
  }

  lemma UpdateIsStored(w: World, name: string, reset: Option<string>, enabled: Option<bool>)
    requires Known(w.dir, name) && IndexedUser(w.dir, name)
    ensures var w' := UpdateStep(w, name, reset, enabled, true);
            name in w'.file && w'.file[name] == Updated(UserOf(w.dir, name), reset, enabled, w.next)
            && w'.issued == w.issued
  {
  }

  lemma BareTokenOutlivesReset(w: World, e: Event, token: nat)
    requires Inv(w) && token in w.issued && Resets(w, e, w.issued[token].uid) && w.issued[token].fp == NoFp
    ensures exists fs, now :: Accepts(Run(Step(w, e), fs), token, now)
  {
    var s := w.issued[token];
    ResetIsUpdate(w, e, s.uid);
    var (v, name, reset, enabled) := ResetStep(w, e);
    UpdateIsStored(v, name, reset, enabled);
    StepKeepsInv(w, e);
    BackedTokenRevives(Step(w, e), token, name);
  }

  /**
   * Exactly when a saved password change revokes a token for good, over every
   * run that may follow: when the token carries a fingerprint. Sessions written
   * before the field existed are let through without a comparison.
   */
  lemma ResetRevokesIffFingerprinted(es: seq<Event>, e: Event, token: nat)
    requires token in Run(Init, es).issued && Resets(Run(Init, es), e, Run(Init, es).issued[token].uid)
    ensures (forall fs, now :: !Accepts(Run(Step(Run(Init, es), e), fs), token, now))
            <==> Run(Init, es).issued[token].fp != NoFp
  {
    if Run(Init, es).issued[token].fp == NoFp {
      RunKeepsInv(Init, es);
      BareTokenOutlivesReset(Run(Init, es), e, token);
    } else {
      forall fs, now ensures !Accepts(Run(Step(Run(Init, es), e), fs), token, now) {
        RevokedTokenNeverValidates(es, e, token, fs, now);
      }
    }
  }

  // ---- disabling an account ----

  /** Wherever user `uid` is still found, it is `name` and disabled. */
  ghost predicate OffIn(d: Dir, uid: nat, name: string) {
    forall n :: n in d.users && d.users[n] in d.heap && d.heap[d.users[n]].id == uid ==>
      n == name && !d.heap[d.users[n]].enabled
  }

  ghost predicate Off(w: World, uid: nat, name: string) {
    OffIn(w.dir, uid, name) && forall n :: n in w.file && w.file[n].id == uid ==> n == name && !w.file[n].enabled
  }

  predicate Enables(e: Event, name: string) {
    e.Update? && e.name == name && e.enabled == Some(true)
  }

  lemma CommitKeepsOff(w: World, d: Dir, next: nat, saved: bool, revoked: Option<nat>, uid: nat, name: string)
    requires OffIn(d, uid, name) && (saved || Off(w, uid, name))
    ensures Off(Commit(w, d, next, saved, revoked), uid, name)
  {
  }

  lemma UpdateKeepsOff(w: World, n: string, reset: Option<string>, enabled: Option<bool>, saved: bool, uid: nat, name: string)
    requires Indexed(w.dir) && Off(w, uid, name) && (n == name ==> enabled != Some(true))
    ensures Off(UpdateStep(w, n, reset, enabled, saved), uid, name)
  {
    if Known(w.dir, n) {
      var u := UserOf(w.dir, n);
      CommitKeepsOff(w, SetUser(w.dir, w.dir.users[n], Updated(u, reset, enabled, w.next)), w.next + 1, saved,
                     if reset.Some? || enabled == Some(false) then Some(u.id) else None, uid, name);
    }
  }

  lemma CreateKeepsOff(w: World, n: string, password: string, saved: bool, uid: nat, name: string)
    requires Indexed(w.dir) && FreshDir(w.dir, w.next) && uid < w.next && Off(w, uid, name)
    ensures Off(CreateStep(w, n, password, saved), uid, name)
  {
    if n !in w.dir.users {
      var u := NewUser(w, n, password);
      var d := Insert(w.dir, w.next, u);
      CommitKeepsOff(w, if saved then d else Remove(d, u), w.next + 4, saved, None, uid, name);
    }
  }

  lemma DeleteKeepsOff(w: World, n: string, saved: bool, uid: nat, name: string)
    requires Off(w, uid, name)
    ensures Off(DeleteStep(w, n, saved), uid, name)
  {
    if Known(w.dir, n) {
      var u := UserOf(w.dir, n);
      CommitKeepsOff(w, Remove(w.dir, u), w.next, saved, Some(u.id), uid, name);
    }
  }

  lemma RekeyKeepsOff(d: Dir, n: string, from: KeyHash, to: KeyHash, uid: nat, name: string)
    requires Known(d, n) && OffIn(d, uid, name)
    ensures OffIn(Rekey(d, n, from, to), uid, name)
  {
  }

  lemma RegenerateKeepsOff(w: World, n: string, saved: bool, uid: nat, name: string)
    requires Off(w, uid, name)
    ensures Off(RegenerateStep(w, n, saved), uid, name)
  {
    if Known(w.dir, n) {
      var before := UserOf(w.dir, n).keyHash;
      RekeyKeepsOff(w.dir, n, before, KeyOf(w.next), uid, name);
      RekeyKeepsOff(Rekey(w.dir, n, before, KeyOf(w.next)), n, KeyOf(w.next), before, uid, name);
      CommitKeepsOff(w, Regenerated(w, n, saved), w.next + 1, saved, None, uid, name);
    }
  }

  lemma AdvanceKeepsOff(w: World, t: nat, expiresAt: int, evict: set<nat>, saved: bool, uid: nat, name: string)
    requires Indexed(w.dir) && Off(w, uid, name) && t in w.tasks
    ensures Off(AdvanceStep(w, t, expiresAt, evict, saved), uid, name)
  {
    if w.tasks[t].ChangeCommit? {
      UpdateKeepsOff(End(w, t), w.tasks[t].name, Some(w.tasks[t].newPassword), None, saved, uid, name);
    }
  }

  lemma RebootKeepsOff(w: World, stored: set<nat>, uid: nat, name: string)
    requires Distinct(w.file) && Off(w, uid, name)
    ensures Off(RestartStep(w, stored), uid, name)
  {
    assert IsLoad(Loaded(w.file), w.file);
  }

  lemma StepKeepsOff(w: World, e: Event, uid: nat, name: string)
    requires Shape(w) && FreshDir(w.dir, w.next) && uid < w.next && Off(w, uid, name) && !Enables(e, name)
    ensures Off(Step(w, e), uid, name) == true
  {
    match e
    case Create(n, password, saved) => CreateKeepsOff(w, n, password, saved, uid, name);
    case Update(n, reset, enabled, saved) => UpdateKeepsOff(w, n, reset, enabled, saved, uid, name);
    case Delete(n, saved) => DeleteKeepsOff(w, n, saved, uid, name);
    case Regenerate(n, saved) => RegenerateKeepsOff(w, n, saved, uid, name);
    case Advance(t, expiresAt, evict, saved) =>
      if t in w.tasks { AdvanceKeepsOff(w, t, expiresAt, evict, saved, uid, name); }
    case Restart(stored) => RebootKeepsOff(w, stored, uid, name);
    case _ =>
  }

  lemma {:induction false} OffNeverValidates(w: World, token: nat, name: string, es: seq<Event>, now: int)
    requires Inv(w) && token in w.issued && Off(w, w.issued[token].uid, name)
    requires forall e :: e in es ==> !Enables(e, name)
    ensures !Accepts(Run(w, es), token, now)
    decreases |es|
  {
    var s := w.issued[token];
    if es == [] {
      if s.uid in w.dir.byId {
        var ref := w.dir.byId[s.uid];
        assert Listed(w.dir, ref) && w.dir.users[w.dir.heap[ref].name] == ref;
      }
    } else {
      assert es[0] in es;
      StepKeepsInv(w, es[0]);
      StepKeepsOff(w, es[0], s.uid, name);
      StepExtends(w, es[0]);
      OffNeverValidates(Step(w, es[0]), token, name, es[1..], now);
    }
  }

  lemma DisableTurnsOff(w: World, name: string, reset: Option<string>, uid: nat)
    requires Indexed(w.dir) && Known(w.dir, name) && UserOf(w.dir, name).id == uid
    ensures Off(UpdateStep(w, name, reset, Some(false), true), uid, name)
  {
    var u := UserOf(w.dir, name);
    var d := SetUser(w.dir, w.dir.users[name], Updated(u, reset, Some(false), w.next));
    forall n | n in d.users && d.users[n] in d.heap && d.heap[d.users[n]].id == uid
      ensures n == name && !d.heap[d.users[n]].enabled
    {
      assert IndexedUser(w.dir, n) && IndexedUser(w.dir, name);
    }
    CommitKeepsOff(w, d, w.next + 1, true, Some(uid), uid, name);
  }

  /** After a saved disable no earlier token of the user, with or without a
      fingerprint, validates in any run that does not enable the account again,
      restarts on stale sessions files included. */
  lemma DisableHoldsUntilEnable(es: seq<Event>, name: string, reset: Option<string>, token: nat, fs: seq<Event>, now: int)
    requires Known(Run(Init, es).dir, name) && token in Run(Init, es).issued
    requires Run(Init, es).issued[token].uid == UserOf(Run(Init, es).dir, name).id
    requires forall f :: f in fs ==> !Enables(f, name)
    ensures !Accepts(Run(Step(Run(Init, es), Update(name, reset, Some(false), true)), fs), token, now)
  {
    var w := Run(Init, es);
    RunKeepsInv(Init, es);
    DisableTurnsOff(w, name, reset, w.issued[token].uid);
    var e := Update(name, reset, Some(false), true);
    StepKeepsInv(w, e);
    StepExtends(w, e);
    OffNeverValidates(Step(w, e), token, name, fs, now);
  }

  /** And enabling it does bring back every token the password still backs:
      a restart on a file that holds it, then the enable. */
  lemma EnableRevivesToken(es: seq<Event>, name: string, token: nat)
    requires Known(Run(Init, es).dir, name) && token in Run(Init, es).issued
    requires Backs(UserOf(Run(Init, es).dir, name), Run(Init, es).issued[token])
    ensures var w := Step(Run(Init, es), Update(name, None, Some(false), true));
            Accepts(Run(w, Revival(token, name)), token, Run(Init, es).issued[token].expiresAt)
  {
    var w, e := Run(Init, es), Update(name, None, Some(false), true);
    RunKeepsInv(Init, es);
    UpdateIsStored(w, name, None, Some(false));
    StepKeepsInv(w, e);
    BackedTokenRevives(Step(w, e), token, name);
  }

  // ---- two runs from an empty installation ----

  /** The first account: object 0, user id 1, salt 2, API key 3. */
  function FirstUser(name: string, password: string): User {
    User(1, name, Hash(password, 2), true, KeyOf(3))
  }

  lemma AccountMade(name: string, password: string)
    ensures var w := Run(Init, [] + [Create(name, password, true)]);
            && Known(w.dir, name) && w.dir.users == map[name := 0] && UserOf(w.dir, name) == FirstUser(name, password)
            && w.next == 4 && w.tasks == map[] && w.issued == map[]
  {
    RunSnoc(Init, [], Create(name, password, true));
  }

  /** A login of that account: token 5. */
  lemma LoggedIn(name: string, password: string, expiresAt: int) returns (es: seq<Event>)
    ensures var w := Run(Init, es);
            && Known(w.dir, name) && UserOf(w.dir, name) == FirstUser(name, password)
            && w.issued == map[5 := Session(1, FpOf(Hash(password, 2)), expiresAt, 5)]
  {
    AccountMade(name, password);
    var e1 := [] + [Create(name, password, true)];
    var login, go := Login(name, password), Advance(4, expiresAt, {}, true);
    RunSnoc(Init, e1, login);
    var e2 := e1 + [login];
    assert Run(Init, e2).tasks == map[4 := LoginCompare(name, 0, Hash(password, 2), true, 1, password)];
    RunSnoc(Init, e2, go);
    var e3 := e2 + [go];
    assert Run(Init, e3).tasks == map[4 := LoginInsert(name, 0, Hash(password, 2), 1, password)];
    RunSnoc(Init, e3, go);
    es := e3 + [go];
  }

  /** Create, log in, disable, restart on the stale file, enable: the token validates. */
  lemma DisabledTokenRevivesInRun(name: string, password: string, expiresAt: int) returns (es: seq<Event>)
    ensures Accepts(Run(Step(Run(Init, es), Update(name, None, Some(false), true)), Revival(5, name)), 5, expiresAt)
  {
    es := LoggedIn(name, password, expiresAt);
    EnableRevivesToken(es, name, 5);
  }

  /** A session without a fingerprint from before a password change validates after a restart. */
  lemma BareTokenOutlivesResetInRun(name: string, password: string, changed: string, expiresAt: int)
    ensures var es := [] + [Create(name, password, true)] + [Legacy(name, expiresAt)];
            exists fs, now ::
              Accepts(Run(Step(Run(Init, es), Update(name, Some(changed), None, true)), fs), 4, now)
  {
    var es := [] + [Create(name, password, true)];
    AccountMade(name, password);
    RunSnoc(Init, es, Legacy(name, expiresAt));
    es := es + [Legacy(name, expiresAt)];
    assert Run(Init, es).issued == map[4 := Session(1, NoFp, expiresAt, 4)];
    RunKeepsInv(Init, es);
    BareTokenOutlivesReset(Run(Init, es), Update(name, Some(changed), None, true), 4);
  }
}
