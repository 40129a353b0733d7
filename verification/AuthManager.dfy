/**
 The auth manager's own data: user objects shared by three maps, and sessions
 (internal/auth/manager.go). Each method is one critical section, done in place
 through the shared pointers; `Valid` says that both secondary indexes hold
 exactly the users of the name map.
 */
module AuthManager {
  import opened Options
  import opened Auth

  const MaxSessionsPerUser: nat := 50

  function Of(sessions: map<nat, Session>, uid: nat): set<nat> {
    set t | t in sessions && sessions[t].uid == uid
  }

  /** The other users' sessions stay, and of this user's the newest, up to `limit`. */
  ghost predicate Trimmed(before: map<nat, Session>, after: map<nat, Session>, uid: nat, limit: nat) {
    && (forall t :: t in after ==> t in before && after[t] == before[t])
    && (forall t :: t in before && before[t].uid != uid ==> t in after)
    && |Of(after, uid)| == (if |Of(before, uid)| <= limit then |Of(before, uid)| else limit)
    && (forall d, k :: d in Of(before, uid) && d !in after && k in Of(after, uid) ==>
          before[d].createdAt <= before[k].createdAt)
  }

  /** Dropping the oldest of those left keeps the newest. */
  lemma Evict(before: map<nat, Session>, now: map<nat, Session>, uid: nat, oldest: nat)
    requires Trimmed(before, now, uid, |Of(now, uid)|) && oldest in Of(now, uid)
    requires forall t :: t in Of(now, uid) ==> now[oldest].createdAt <= now[t].createdAt
    ensures var after := now - {oldest};
            && |Of(after, uid)| == |Of(now, uid)| - 1 && |after| < |now|
            && Trimmed(before, after, uid, |Of(after, uid)|)
  {
    var after := now - {oldest};
    assert Of(after, uid) == Of(now, uid) - {oldest};
    assert after.Keys == now.Keys - {oldest};
    assert |after.Keys| == |after| && |now.Keys| == |now|;
  }

  class Account {
    const id: nat
    const name: string
    var hash: Hash
    var enabled: bool
    var keyHash: KeyHash

    constructor (id: nat, name: string, hash: Hash, keyHash: KeyHash)
      ensures this.id == id && this.name == name && this.hash == hash && enabled && this.keyHash == keyHash
    {
      this.id, this.name, this.hash, enabled, this.keyHash := id, name, hash, true, keyHash;
    }
  }

  lemma Undone<K, V>(m: map<K, V>, k: K, v: V)
    requires k !in m
    ensures m[k := v] - {k} == m
  {
  }

  class Manager {
    var users: map<string, Account>
    var usersByID: map<nat, Account>
    var usersByAPIKeyHash: map<KeyHash, Account>
    var sessions: map<nat, Session>

    ghost predicate Holds(u: Account)
      reads this
    {
      u.name in users && users[u.name] == u
    }

    ghost predicate Valid()
      reads this, users.Values
    {
      && (forall n :: n in users ==>
            && users[n].name == n
            && users[n].id in usersByID && usersByID[users[n].id] == users[n]
            && (users[n].keyHash != NoKey ==>
                  users[n].keyHash in usersByAPIKeyHash && usersByAPIKeyHash[users[n].keyHash] == users[n]))
      && (forall i :: i in usersByID ==> Holds(usersByID[i]) && usersByID[i].id == i)
      && (forall k :: k in usersByAPIKeyHash ==>
            k != NoKey && Holds(usersByAPIKeyHash[k]) && usersByAPIKeyHash[k].keyHash == k)
    }

    constructor ()
      ensures Valid() && users == map[] && usersByID == map[] && usersByAPIKeyHash == map[] && sessions == map[]
    {
      users, usersByID, usersByAPIKeyHash, sessions := map[], map[], map[], map[];
    }

    method AddUser(u: Account)
      requires Valid() && u.name !in users && u.id !in usersByID && u.keyHash !in usersByAPIKeyHash && u.keyHash != NoKey
      modifies this`users, this`usersByID, this`usersByAPIKeyHash
      ensures Valid()
      ensures users == old(users)[u.name := u] && usersByID == old(usersByID)[u.id := u]
      ensures usersByAPIKeyHash == old(usersByAPIKeyHash)[u.keyHash := u]
    {
      users := users[u.name := u];
      usersByID := usersByID[u.id := u];
      usersByAPIKeyHash := usersByAPIKeyHash[u.keyHash := u];
    }

    method RemoveUser(u: Account)
      requires Valid() && Holds(u)
      modifies this`users, this`usersByID, this`usersByAPIKeyHash
      ensures Valid()
      ensures users == old(users) - {u.name} && usersByID == old(usersByID) - {u.id}
      ensures usersByAPIKeyHash == old(usersByAPIKeyHash) - {u.keyHash}
    {
      users := users - {u.name};
      usersByID := usersByID - {u.id};
      if u.keyHash != NoKey {
        usersByAPIKeyHash := usersByAPIKeyHash - {u.keyHash};
      }
    }

    /** createUserLocked: a failed save takes the user out of all three maps. */
    method CreateUserLocked(name: string, hash: Hash, id: nat, key: nat, saved: bool) returns (ok: bool)
      requires Valid() && id !in usersByID && KeyOf(key) !in usersByAPIKeyHash
      modifies this`users, this`usersByID, this`usersByAPIKeyHash
      ensures Valid()
      ensures ok <==> name !in old(users) && saved
      ensures !ok ==> users == old(users) && usersByID == old(usersByID) && usersByAPIKeyHash == old(usersByAPIKeyHash)
      ensures ok ==> && name in users && fresh(users[name]) && users == old(users)[name := users[name]]
                     && users[name].id == id && users[name].hash == hash && users[name].enabled
                     && users[name].keyHash == KeyOf(key)
    {
      if name in users { return false; }
      var u := new Account(id, name, hash, KeyOf(key));
      AddUser(u);
      if !saved {
        RemoveUser(u);
        Undone(old(users), name, u);
        Undone(old(usersByID), id, u);
        Undone(old(usersByAPIKeyHash), KeyOf(key), u);
      }
      return saved;
    }

    /** Moves the index entry of `u` from its key to another. */
    method Rekey(u: Account, to: KeyHash)
      requires Valid() && Holds(u) && to !in usersByAPIKeyHash
      modifies this`usersByAPIKeyHash, u`keyHash
      ensures Valid() && u.keyHash == to
      ensures usersByAPIKeyHash == if to == NoKey then old(usersByAPIKeyHash) - {old(u.keyHash)}
                                   else (old(usersByAPIKeyHash) - {old(u.keyHash)})[to := u]
    {
      if u.keyHash != NoKey {
        usersByAPIKeyHash := usersByAPIKeyHash - {u.keyHash};
      }
      u.keyHash := to;
      if to != NoKey {
        usersByAPIKeyHash := usersByAPIKeyHash[to := u];
      }
    }

    /** RegenerateAPIKey: a failed save puts the old key back. */
    method RegenerateAPIKey(name: string, key: nat, saved: bool) returns (ok: bool)
      requires Valid() && KeyOf(key) !in usersByAPIKeyHash
      modifies this`usersByAPIKeyHash, (if name in users then {users[name]} else {})`keyHash
      ensures Valid()
      ensures ok <==> name in users && saved
      ensures !ok ==> usersByAPIKeyHash == old(usersByAPIKeyHash)
      ensures !ok && name in users ==> users[name].keyHash == old(users[name].keyHash)
      ensures ok ==> && users[name].keyHash == KeyOf(key)
                     && usersByAPIKeyHash == (old(usersByAPIKeyHash) - {old(users[name].keyHash)})[KeyOf(key) := users[name]]
    {
      if name !in users { return false; }
      var u := users[name];
      var before := u.keyHash;
      Rekey(u, KeyOf(key));
      if !saved {
        Rekey(u, before);
      }
      return saved;
    }

    /** AuthenticateAPIKey's index look-up: exactly the enabled user with this key. */
    method AuthenticateAPIKey(key: nat) returns (r: Option<Account>)
      requires Valid()
      ensures r.Some? ==> Holds(r.value) && r.value.enabled && r.value.keyHash == KeyOf(key)
      ensures r == None ==> forall n :: n in users ==> !(users[n].enabled && users[n].keyHash == KeyOf(key))
    {
      var h := KeyOf(key);
      if h in usersByAPIKeyHash && usersByAPIKeyHash[h].enabled && usersByAPIKeyHash[h].keyHash == h {
        return Some(usersByAPIKeyHash[h]);
      }
      return None;
    }

    /** invalidateUserSessionsLocked: exactly the user's sessions go. */
    method InvalidateUserSessions(uid: nat)
      modifies this`sessions
      ensures sessions == map t | t in old(sessions) && old(sessions)[t].uid != uid :: old(sessions)[t]
    {
      var todo := sessions.Keys;
      while todo != {}
        invariant todo <= sessions.Keys <= old(sessions).Keys
        invariant forall t :: t in sessions ==> sessions[t] == old(sessions)[t]
        invariant forall t :: t in sessions && t !in todo ==> sessions[t].uid != uid
        invariant forall t :: t in old(sessions) && t !in sessions ==> old(sessions)[t].uid == uid
        decreases |todo|
      {
        var t :| t in todo;
        todo := todo - {t};
        if sessions[t].uid == uid {
          sessions := sessions - {t};
        }
      }
    }

    /** updateUser, and the commit of a password change: the hash and the flag
        are set through the shared object; a new password or a disable takes the
        user's sessions away. */
    method UpdateUser(name: string, hash: Option<Hash>, enabled: Option<bool>) returns (existed: bool)
      requires Valid()
      modifies this`sessions, (if name in users then {users[name]} else {})`hash, (if name in users then {users[name]} else {})`enabled
      ensures Valid()
      ensures existed <==> name in users
      ensures !existed ==> sessions == old(sessions)
      ensures existed ==>
                && users[name].hash == (if hash.Some? then hash.value else old(users[name].hash))
                && users[name].enabled == (if enabled.Some? then enabled.value else old(users[name].enabled))
      ensures existed && hash.None? && enabled != Some(false) ==> sessions == old(sessions)
      ensures existed && (hash.Some? || enabled == Some(false)) ==>
                sessions == map t | t in old(sessions) && old(sessions)[t].uid != users[name].id :: old(sessions)[t]
    {
      if name !in users { return false; }
      var u := users[name];
      if hash.Some? {
        u.hash := hash.value;
      }
      if enabled.Some? {
        u.enabled := enabled.value;
      }
      if hash.Some? || enabled == Some(false) {
        InvalidateUserSessions(u.id);
      }
      return true;
    }

    /** deleteUser: out of all maps, and no session of the user is left. */
    method DeleteUser(name: string) returns (existed: bool)
      requires Valid()
      modifies this
      ensures Valid()
      ensures existed <==> name in old(users)
      ensures users == old(users) - {name}
      ensures existed ==> && usersByID == old(usersByID) - {old(users)[name].id}
                          && usersByAPIKeyHash == old(usersByAPIKeyHash) - {old(users)[name].keyHash}
                          && (forall t :: t in sessions <==> t in old(sessions) && old(sessions)[t].uid != old(users)[name].id)
      ensures !existed ==> sessions == old(sessions) && usersByID == old(usersByID) && usersByAPIKeyHash == old(usersByAPIKeyHash)
      ensures forall t :: t in sessions ==> t in old(sessions) && sessions[t] == old(sessions)[t]
    {
      if name !in users { return false; }
      var u := users[name];
      RemoveUser(u);
      InvalidateUserSessions(u.id);
      return true;
    }

    /** The user's oldest session, and how many there are. */
    method OldestSession(uid: nat) returns (count: nat, oldest: Option<nat>)
      ensures count == |Of(sessions, uid)|
      ensures oldest.None? <==> count == 0
      ensures oldest.Some? ==> oldest.value in Of(sessions, uid)
      ensures oldest.Some? ==> forall t :: t in Of(sessions, uid) ==> sessions[oldest.value].createdAt <= sessions[t].createdAt
    {
      count, oldest := 0, None;
      var todo := sessions.Keys;
      ghost var seen: set<nat> := {};
      while todo != {}
        invariant todo <= sessions.Keys
        invariant seen == set t | t in Of(sessions, uid) && t !in todo
        invariant count == |seen|
        invariant oldest.None? <==> seen == {}
        invariant oldest.Some? ==> oldest.value in seen
        invariant oldest.Some? ==> forall t :: t in seen ==> sessions[oldest.value].createdAt <= sessions[t].createdAt
        decreases |todo|
      {
        var t :| t in todo;
        todo := todo - {t};
        if sessions[t].uid == uid {
          seen := seen + {t};
          count := count + 1;
          if oldest.None? || sessions[t].createdAt < sessions[oldest.value].createdAt {
            oldest := Some(t);
          }
        }
      }
      assert seen == Of(sessions, uid);
    }

    /** evictOldestSessionsLocked: the user keeps the newest `limit` sessions. */
    method EvictOldestSessions(uid: nat, limit: nat)
      modifies this`sessions
      ensures Trimmed(old(sessions), sessions, uid, limit)
    {
      while true
        invariant Trimmed(old(sessions), sessions, uid, |Of(sessions, uid)|)
        invariant |Of(sessions, uid)| >= limit || sessions == old(sessions)
        decreases |sessions|
      {
        var count, oldest := OldestSession(uid);
        if count <= limit || oldest.None? {
          return;
        }
        Evict(old(sessions), sessions, uid, oldest.value);
        sessions := sessions - {oldest.value};
      }
    }

    /** The re-check and insert that end a login; beyond fifty the user's oldest sessions go. */
    method InsertSession(name: string, u: Account, hash: Hash, token: nat, expiresAt: int, createdAt: int)
        returns (ok: bool)
      requires Valid()
      modifies this`sessions
      ensures ok <==> Holds(u) && u.name == name && u.enabled && u.hash == hash
      ensures !ok ==> sessions == old(sessions)
      ensures ok ==> Trimmed(old(sessions)[token := Session(u.id, FpOf(hash), expiresAt, createdAt)], sessions,
                             u.id, MaxSessionsPerUser)
    {
      if name !in users || users[name] != u || !u.enabled || u.hash != hash {
        return false;
      }
      sessions := sessions[token := Session(u.id, FpOf(hash), expiresAt, createdAt)];
      EvictOldestSessions(u.id, MaxSessionsPerUser);
      return true;
    }

    /** ValidateSession: the user record is the authority; a session it no
        longer backs is dropped. */
    method ValidateSession(token: nat, now: int) returns (ok: bool)
      requires Valid()
      modifies this`sessions
      ensures ok <==>
                && token in old(sessions) && now <= old(sessions)[token].expiresAt
                && exists n :: n in users && users[n].id == old(sessions)[token].uid && users[n].enabled
                               && (old(sessions)[token].fp == NoFp || old(sessions)[token].fp == FpOf(users[n].hash))
      ensures sessions == if ok then old(sessions) else old(sessions) - {token}
    {
      if token !in sessions { return false; }
      var s := sessions[token];
      if now > s.expiresAt || s.uid !in usersByID || !usersByID[s.uid].enabled
         || (s.fp != NoFp && s.fp != FpOf(usersByID[s.uid].hash)) {
        sessions := sessions - {token};
        return false;
      }
      assert users[usersByID[s.uid].name].id == s.uid;
      return true;
    }
  }
}
