/**
 Users, their two secondary indexes, and sessions (internal/auth).

 Every critical section of the manager is one step; a login or a password change
 is three, because bcrypt runs outside the lock. Users are objects reached
 through references, as in the source. bcrypt hashes carry a fresh salt, and
 fingerprints and API-key hashes are injective. The users file is the one last
 written; the sessions file a restart reads may be any old one.
 */
module Auth {
  import opened Options

  /** A bcrypt hash: compares equal to its password only, never generated twice. */
  datatype Hash = Hash(password: string, salt: nat)

  /** The fingerprint of a password hash; sessions older than the field have none. */
  datatype Fingerprint = NoFp | FpOf(hash: Hash)

  /** hashAPIKey; a legacy user may have none. */
  datatype KeyHash = NoKey | KeyOf(key: nat)

  datatype User = User(id: nat, name: string, hash: Hash, enabled: bool, keyHash: KeyHash)

  /** In runs the creation time is a logical clock. */
  datatype Session = Session(uid: nat, fp: Fingerprint, expiresAt: int, createdAt: int)

  /** The three maps of user pointers, and the objects they point to. */
  datatype Dir = Dir(
    users: map<string, nat>,       // name -> reference
    byId: map<nat, nat>,           // user id -> reference
    byKey: map<KeyHash, nat>,      // key hash -> reference
    heap: map<nat, User>           // every user object of this process
  )

  datatype Task =
    | LoginCompare(name: string, ref: nat, hash: Hash, enabled: bool, uid: nat, password: string)
    | LoginInsert(name: string, ref: nat, hash: Hash, uid: nat, password: string)
    | ChangeCompare(name: string, ref: nat, hash: Hash, password: string, newPassword: string)
    | ChangeCommit(name: string, ref: nat, hash: Hash, newPassword: string)

  datatype World = World(
    dir: Dir,
    sessions: map<nat, Session>,
    tasks: map<nat, Task>,
    file: map<string, User>,       // users.json
    issued: map<nat, Session>,     // history: every token ever issued
    next: nat
  )

  datatype Event =
    | Create(name: string, password: string, saved: bool)
    | Update(name: string, reset: Option<string>, enabled: Option<bool>, saved: bool)
    | Delete(name: string, saved: bool)
    | Regenerate(name: string, saved: bool)
    | Login(name: string, password: string)
    | ChangePassword(name: string, password: string, newPassword: string)
    | Advance(task: nat, expiresAt: int, evict: set<nat>, saved: bool)
    | Validate(token: nat, now: int)
    | Logout(token: nat)
    | Cleanup(now: int)
    | Legacy(name: string, expiresAt: int)   // a version without fingerprints wrote a session for this user
    | Restart(stored: set<nat>)

  const EmptyDir := Dir(map[], map[], map[], map[])
  const Init := World(EmptyDir, map[], map[], map[], map[], 0)

  // ---- the directory ----

  predicate Known(d: Dir, name: string) {
    name in d.users && d.users[name] in d.heap
  }

  function UserOf(d: Dir, name: string): User
    requires Known(d, name)
  {
    d.heap[d.users[name]]
  }

  /** What saveUsers writes. */
  function Stored(d: Dir): map<string, User> {
    map n | n in d.users && d.users[n] in d.heap :: d.heap[d.users[n]]
  }

  function Insert(d: Dir, ref: nat, u: User): Dir {
    Dir(d.users[u.name := ref], d.byId[u.id := ref],
        if u.keyHash == NoKey then d.byKey else d.byKey[u.keyHash := ref], d.heap[ref := u])
  }

  function Remove(d: Dir, u: User): Dir {
    Dir(d.users - {u.name}, d.byId - {u.id},
        if u.keyHash == NoKey then d.byKey else d.byKey - {u.keyHash}, d.heap)
  }

  /** An update in place through the pointer: the maps do not change. */
  function SetUser(d: Dir, ref: nat, u: User): Dir {
    d.(heap := d.heap[ref := u])
  }

  /** The key rotation of RegenerateAPIKey, and its rollback. */
  function Rekey(d: Dir, name: string, from: KeyHash, to: KeyHash): Dir
    requires Known(d, name)
  {
    var r := d.users[name];
    var dropped := if from == NoKey then d.byKey else d.byKey - {from};
    Dir(d.users, d.byId, if to == NoKey then dropped else dropped[to := r], d.heap[r := d.heap[r].(keyHash := to)])
  }

  /** No two stored users share an id or an API key. */
  predicate Distinct(file: map<string, User>) {
    && (forall n :: n in file ==> file[n].name == n)
    && (forall m, n :: m in file && n in file && file[m].id == file[n].id ==> m == n)
    && (forall m, n :: m in file && n in file && file[m].keyHash == file[n].keyHash != NoKey ==> m == n)
  }

  /** What loadUsers builds: fresh objects, one for each stored user. */
  function Rebuilt(file: map<string, User>): Dir
    requires Distinct(file)
  {
    Dir(map n | n in file :: file[n].id,
        map n | n in file :: file[n].id := file[n].id,
        map n | n in file && file[n].keyHash != NoKey :: file[n].keyHash := file[n].id,
        map n | n in file :: file[n].id := file[n])
  }

  /** The directory holds exactly the stored users, with consistent indexes. */
  ghost predicate IsLoad(d: Dir, file: map<string, User>) {
    && d.users.Keys == file.Keys
    && (forall n :: n in file ==> d.users[n] == file[n].id && file[n].id in d.heap && d.heap[file[n].id] == file[n])
    && (forall r :: r in d.heap ==> d.heap[r].id == r && d.heap[r].name in file && file[d.heap[r].name] == d.heap[r])
    && Indexed(d)
  }

  /** The directory after a restart: by RebuiltIsLoad, loadUsers builds one. */
  ghost function Loaded(file: map<string, User>): (d: Dir)
    requires Distinct(file)
    ensures IsLoad(d, file)
  {
    RebuiltIsLoad(file);
    var d :| IsLoad(d, file);
    d
  }

  // ---- steps ----

  function Save(w: World, saved: bool): World {
    if saved then w.(file := Stored(w.dir)) else w
  }

  /** invalidateUserSessionsLocked */
  function Revoke(w: World, uid: nat): World {
    w.(sessions := map t | t in w.sessions && w.sessions[t].uid != uid :: w.sessions[t])
  }

  function NewUser(w: World, name: string, password: string): User {
    User(w.next + 1, name, Hash(password, w.next + 2), true, KeyOf(w.next + 3))
  }

  /** The end of every mutation: the new directory, saved or not, and the
      sessions of one user revoked if they must be. */
  function Commit(w: World, d: Dir, next: nat, saved: bool, revoked: Option<nat>): World {
    var w1 := Save(w.(dir := d, next := next), saved);
    if revoked.Some? then Revoke(w1, revoked.value) else w1
  }

  /** createUserLocked: inserted, saved, and taken out again if saving failed. */
  function CreateStep(w: World, name: string, password: string, saved: bool): World {
    if name in w.dir.users then w
    else
      var u := NewUser(w, name, password);
      var d := Insert(w.dir, w.next, u);
      Commit(w, if saved then d else Remove(d, u), w.next + 4, saved, None)
  }

  function Updated(u: User, reset: Option<string>, enabled: Option<bool>, salt: nat): User {
    u.(hash := if reset.Some? then Hash(reset.value, salt) else u.hash,
       enabled := if enabled.Some? then enabled.value else u.enabled)
  }

  /** The locked part of updateUser. */
  function UpdateStep(w: World, name: string, reset: Option<string>, enabled: Option<bool>, saved: bool): World {
    if !Known(w.dir, name) then w
    else
      var u := UserOf(w.dir, name);
      Commit(w, SetUser(w.dir, w.dir.users[name], Updated(u, reset, enabled, w.next)), w.next + 1, saved,
             if reset.Some? || enabled == Some(false) then Some(u.id) else None)
  }

  function DeleteStep(w: World, name: string, saved: bool): World {
    if !Known(w.dir, name) then w
    else
      var u := UserOf(w.dir, name);
      Commit(w, Remove(w.dir, u), w.next, saved, Some(u.id))
  }

  /** RegenerateAPIKey: rotated, saved, and rotated back if saving failed. */
  function RegenerateStep(w: World, name: string, saved: bool): World {
    if !Known(w.dir, name) then w
    else
      Commit(w, Regenerated(w, name, saved), w.next + 1, saved, None)
  }

  function Regenerated(w: World, name: string, saved: bool): Dir
    requires Known(w.dir, name)
  {
    var before := UserOf(w.dir, name).keyHash;
    var d := Rekey(w.dir, name, before, KeyOf(w.next));
    if saved then d else Rekey(d, name, KeyOf(w.next), before)
  }

  /** The snapshot of a login or a password change, under the read lock. */
  function Begin(w: World, task: Task): World {
    w.(tasks := w.tasks[w.next := task], next := w.next + 1)
  }

  function End(w: World, t: nat): World {
    w.(tasks := w.tasks - {t})
  }

  /** The re-check under the lock: same object, same password. */
  predicate Unchanged(d: Dir, name: string, ref: nat, hash: Hash) {
    name in d.users && d.users[name] == ref && ref in d.heap && d.heap[ref].hash == hash
  }

  /** The new session in, and beyond fifty the user's oldest ones out. */
  function AddSession(w: World, s: Session, evict: set<nat>): World {
    var kept := map k | k in w.sessions && !(k in evict && w.sessions[k].uid == s.uid) :: w.sessions[k];
    w.(sessions := kept[w.next := s], issued := w.issued[w.next := s], next := w.next + 1)
  }

  /** A session without a fingerprint stands in some old sessions file. */
  function AddLegacy(w: World, s: Session): World {
    w.(issued := w.issued[w.next := s], next := w.next + 1)
  }

  function AdvanceStep(w: World, t: nat, expiresAt: int, evict: set<nat>, saved: bool): World
    requires t in w.tasks
  {
    match w.tasks[t]
    case LoginCompare(name, ref, hash, enabled, uid, password) =>
      if enabled && hash.password == password
      then w.(tasks := w.tasks[t := LoginInsert(name, ref, hash, uid, password)])
      else End(w, t)
    case LoginInsert(name, ref, hash, uid, _) =>
      if Unchanged(w.dir, name, ref, hash) && w.dir.heap[ref].enabled
      then AddSession(End(w, t), Session(uid, FpOf(hash), expiresAt, w.next), evict)
      else End(w, t)
    case ChangeCompare(name, ref, hash, password, newPassword) =>
      if hash.password == password
      then w.(tasks := w.tasks[t := ChangeCommit(name, ref, hash, newPassword)])
      else End(w, t)
    case ChangeCommit(name, ref, hash, newPassword) =>
      if Unchanged(w.dir, name, ref, hash) then UpdateStep(End(w, t), name, Some(newPassword), None, saved)
      else End(w, t)
  }

  /** ValidateSession's answer. */
  predicate Accepts(w: World, token: nat, now: int) {
    && token in w.sessions && now <= w.sessions[token].expiresAt
    && var s := w.sessions[token];
       && s.uid in w.dir.byId && w.dir.byId[s.uid] in w.dir.heap
       && var u := w.dir.heap[w.dir.byId[s.uid]];
          u.enabled && (s.fp == NoFp || s.fp == FpOf(u.hash))
  }

  /** A restart: users from the saved file, sessions from any old sessions
      file, whichever version wrote it. */
  ghost function Reboot(w: World, stored: set<nat>): World
    requires Distinct(w.file)
  {
    World(Loaded(w.file), map t | t in stored && t in w.issued :: w.issued[t], map[], w.file, w.issued, w.next)
  }

  function LoginStep(w: World, name: string, password: string): World {
    if !Known(w.dir, name) then w
    else
      var u := UserOf(w.dir, name);
      Begin(w, LoginCompare(name, w.dir.users[name], u.hash, u.enabled, u.id, password))
  }

  function ChangeStep(w: World, name: string, password: string, newPassword: string): World {
    if !Known(w.dir, name) then w
    else Begin(w, ChangeCompare(name, w.dir.users[name], UserOf(w.dir, name).hash, password, newPassword))
  }

  function ValidateStep(w: World, token: nat, now: int): World {
    if Accepts(w, token, now) then w else LogoutStep(w, token)
  }

  function LogoutStep(w: World, token: nat): World {
    w.(sessions := w.sessions - {token})
  }

  function CleanupStep(w: World, now: int): World {
    w.(sessions := map t | t in w.sessions && now <= w.sessions[t].expiresAt :: w.sessions[t])
  }

  function LegacyStep(w: World, name: string, expiresAt: int): World {
    if !Known(w.dir, name) then w else AddLegacy(w, Session(UserOf(w.dir, name).id, NoFp, expiresAt, w.next))
  }

  ghost function RestartStep(w: World, stored: set<nat>): World {
    if Distinct(w.file) then Reboot(w, stored) else w
  }

  ghost function Step(w: World, e: Event): World {
    match e
    case Create(name, password, saved) => CreateStep(w, name, password, saved)
    case Update(name, reset, enabled, saved) => UpdateStep(w, name, reset, enabled, saved)
    case Delete(name, saved) => DeleteStep(w, name, saved)
    case Regenerate(name, saved) => RegenerateStep(w, name, saved)
    case Login(name, password) => LoginStep(w, name, password)
    case ChangePassword(name, password, newPassword) => ChangeStep(w, name, password, newPassword)
    case Advance(t, expiresAt, evict, saved) =>
      if t in w.tasks then AdvanceStep(w, t, expiresAt, evict, saved) else w
    case Validate(token, now) => ValidateStep(w, token, now)
    case Logout(token) => LogoutStep(w, token)
    case Cleanup(now) => CleanupStep(w, now)
    case Legacy(name, expiresAt) => LegacyStep(w, name, expiresAt)
    case Restart(stored) => RestartStep(w, stored)
  }

  ghost function Run(w: World, es: seq<Event>): World
    decreases |es|
  {
    if es == [] then w else Run(Step(w, es[0]), es[1..])
  }

  // ---- the indexes ----

  predicate Listed(d: Dir, ref: nat) {
    ref in d.heap && d.heap[ref].name in d.users && d.users[d.heap[ref].name] == ref
  }

  predicate IndexedUser(d: Dir, n: string)
    requires n in d.users
  {
    && d.users[n] in d.heap && d.heap[d.users[n]].name == n
    && var u := d.heap[d.users[n]];
       && u.id in d.byId && d.byId[u.id] == d.users[n]
       && (u.keyHash != NoKey ==> u.keyHash in d.byKey && d.byKey[u.keyHash] == d.users[n])
  }

  /** Both secondary indexes hold exactly the users of the name map. */
  ghost predicate Indexed(d: Dir) {
    && (forall n :: n in d.users ==> IndexedUser(d, n))
    && (forall i :: i in d.byId ==> Listed(d, d.byId[i]) && d.heap[d.byId[i]].id == i)
    && (forall k :: k in d.byKey ==> k != NoKey && Listed(d, d.byKey[k]) && d.heap[d.byKey[k]].keyHash == k)
  }

  lemma StoredIsDistinct(d: Dir)
    requires Indexed(d)
    ensures Distinct(Stored(d))
  {
  }

  lemma InsertKeepsIndexed(d: Dir, ref: nat, u: User)
    requires Indexed(d) && ref !in d.heap && u.name !in d.users && u.id !in d.byId && u.keyHash !in d.byKey
    ensures Indexed(Insert(d, ref, u))
  {
    var d' := Insert(d, ref, u);
    forall n | n in d'.users ensures IndexedUser(d', n) { assert n != u.name ==> IndexedUser(d, n); }
    forall i | i in d'.byId ensures Listed(d', d'.byId[i]) && d'.heap[d'.byId[i]].id == i { assert i != u.id ==> Listed(d, d.byId[i]); }
    forall k | k in d'.byKey
      ensures k != NoKey && Listed(d', d'.byKey[k]) && d'.heap[d'.byKey[k]].keyHash == k
    {
      assert k != u.keyHash ==> Listed(d, d.byKey[k]);
    }
  }

  lemma RemoveKeepsIndexed(d: Dir, name: string)
    requires Indexed(d) && name in d.users
    ensures Indexed(Remove(d, UserOf(d, name)))
  {
  }

  lemma SetUserKeepsIndexed(d: Dir, name: string, u: User)
    requires Indexed(d) && name in d.users
    requires var v := UserOf(d, name); u.id == v.id && u.name == v.name && u.keyHash == v.keyHash
    ensures Indexed(SetUser(d, d.users[name], u))
  {
  }

  lemma RekeyKeepsIndexed(d: Dir, name: string, to: KeyHash)
    requires Indexed(d) && name in d.users && to !in d.byKey
    ensures Indexed(Rekey(d, name, UserOf(d, name).keyHash, to))
  {
    var d' := Rekey(d, name, UserOf(d, name).keyHash, to);
    forall n | n in d'.users ensures IndexedUser(d', n) { assert IndexedUser(d, n) && IndexedUser(d, name); }
    forall i | i in d'.byId ensures Listed(d', d'.byId[i]) && d'.heap[d'.byId[i]].id == i { assert Listed(d, d.byId[i]); }
    forall k | k in d'.byKey
      ensures k != NoKey && Listed(d', d'.byKey[k]) && d'.heap[d'.byKey[k]].keyHash == k
    {
      assert k in d.byKey ==> Listed(d, d.byKey[k]);
    }
  }

  lemma RebuiltUser(file: map<string, User>, n: string)
    requires Distinct(file) && n in file
    ensures var d := Rebuilt(file); var u := file[n];
            && n in d.users && d.users[n] == u.id
            && u.id in d.heap && d.heap[u.id] == u
            && u.id in d.byId && d.byId[u.id] == u.id
            && (u.keyHash != NoKey ==> u.keyHash in d.byKey && d.byKey[u.keyHash] == u.id)
  {
  }

  lemma RebuiltById(file: map<string, User>, i: nat)
    requires Distinct(file) && i in Rebuilt(file).byId
    ensures var d := Rebuilt(file); Listed(d, d.byId[i]) && d.heap[d.byId[i]].id == i
  {
    var n :| n in file && file[n].id == i;
    RebuiltUser(file, n);
  }

  lemma RebuiltByKey(file: map<string, User>, k: KeyHash)
    requires Distinct(file) && k in Rebuilt(file).byKey
    ensures var d := Rebuilt(file); k != NoKey && Listed(d, d.byKey[k]) && d.heap[d.byKey[k]].keyHash == k
  {
    var n :| n in file && file[n].keyHash == k && k != NoKey;
    RebuiltUser(file, n);
  }

  /** loadUsers builds consistent indexes from any stored users file. */
  lemma RebuiltIsIndexed(file: map<string, User>)
    requires Distinct(file)
    ensures Indexed(Rebuilt(file))
  {
    var d := Rebuilt(file);
    forall n | n in d.users ensures IndexedUser(d, n) { RebuiltUser(file, n); }
    forall i | i in d.byId ensures Listed(d, d.byId[i]) && d.heap[d.byId[i]].id == i { RebuiltById(file, i); }
    forall k | k in d.byKey ensures k != NoKey && Listed(d, d.byKey[k]) && d.heap[d.byKey[k]].keyHash == k { RebuiltByKey(file, k); }
  }

  lemma RebuiltHeap(file: map<string, User>, r: nat)
    requires Distinct(file) && r in Rebuilt(file).heap
    ensures var u := Rebuilt(file).heap[r]; u.id == r && u.name in file && file[u.name] == u
  {
    var n :| n in file && file[n].id == r;
    RebuiltUser(file, n);
  }

  lemma RebuiltIsLoad(file: map<string, User>)
    requires Distinct(file)
    ensures IsLoad(Rebuilt(file), file)
  {
    var d := Rebuilt(file);
    RebuiltIsIndexed(file);
    forall n | n in file ensures d.users[n] == file[n].id && file[n].id in d.heap && d.heap[file[n].id] == file[n] {
      RebuiltUser(file, n);
    }
    forall r | r in d.heap ensures d.heap[r].id == r && d.heap[r].name in file && file[d.heap[r].name] == d.heap[r] {
      RebuiltHeap(file, r);
    }
  }

  // ---- every step keeps the invariant ----

  predicate Old(next: nat, u: User) {
    u.id < next && u.hash.salt < next && (u.keyHash.KeyOf? ==> u.keyHash.key < next)
  }

  ghost predicate FreshDir(d: Dir, next: nat) {
    forall r :: r in d.heap ==> r < next && Old(next, d.heap[r])
  }

  ghost predicate FreshFile(file: map<string, User>, next: nat) {
    forall n :: n in file ==> Old(next, file[n])
  }

  /** A task's snapshot is of an object that is still the same user. */
  ghost predicate FreshTasks(d: Dir, tasks: map<nat, Task>, next: nat) {
    forall t :: t in tasks ==>
      && t < next && tasks[t].hash.salt < next && tasks[t].ref in d.heap
      && (tasks[t].LoginCompare? || tasks[t].LoginInsert? ==> d.heap[tasks[t].ref].id == tasks[t].uid)
      && (tasks[t].LoginInsert? ==> tasks[t].hash.password == tasks[t].password)
  }

  predicate OldSession(next: nat, s: Session) {
    s.uid < next && (s.fp.FpOf? ==> s.fp.hash.salt < next)
  }

  ghost predicate FreshSessions(w: World) {
    && (forall t :: t in w.issued ==> t < w.next && OldSession(w.next, w.issued[t]))
    && (forall t :: t in w.sessions ==> t in w.issued && w.sessions[t] == w.issued[t])
  }

  ghost predicate Shape(w: World) {
    Indexed(w.dir) && Distinct(w.file)
  }

  ghost predicate Fresh(w: World) {
    && FreshDir(w.dir, w.next) && FreshFile(w.file, w.next) && FreshTasks(w.dir, w.tasks, w.next)
    && FreshSessions(w)
  }

  ghost predicate Inv(w: World) {
    Shape(w) && Fresh(w)
  }

  /** No object disappears or changes its id. */
  ghost predicate KeepsIds(d: Dir, d': Dir) {
    forall r :: r in d.heap ==> r in d'.heap && d'.heap[r].id == d.heap[r].id
  }

  ghost predicate GoodDir(d: Dir, d': Dir, next: nat) {
    Indexed(d') && FreshDir(d', next) && KeepsIds(d, d')
  }

  lemma CommitKeepsShape(w: World, d: Dir, next: nat, saved: bool, revoked: Option<nat>)
    requires Distinct(w.file) && Indexed(d)
    ensures Shape(Commit(w, d, next, saved, revoked))
  {
    StoredIsDistinct(d);
  }

  lemma CommitKeepsFresh(w: World, d: Dir, next: nat, saved: bool, revoked: Option<nat>)
    requires Fresh(w) && next >= w.next && FreshDir(d, next) && KeepsIds(w.dir, d)
    ensures Fresh(Commit(w, d, next, saved, revoked))
  {
  }

  lemma CommitKeepsInv(w: World, d: Dir, next: nat, saved: bool, revoked: Option<nat>)
    requires Inv(w) && next >= w.next && GoodDir(w.dir, d, next)
    ensures Inv(Commit(w, d, next, saved, revoked)) == true
  {
    CommitKeepsShape(w, d, next, saved, revoked);
    CommitKeepsFresh(w, d, next, saved, revoked);
  }

  lemma IndexesAreOld(d: Dir, next: nat)
    requires Indexed(d) && FreshDir(d, next)
    ensures forall i :: i in d.byId ==> i < next
    ensures forall k :: k in d.byKey ==> k.KeyOf? && k.key < next
  {
  }

  lemma CreateDir(d: Dir, next: nat, u: User)
    requires Indexed(d) && FreshDir(d, next) && u.name !in d.users
    requires u.id == next + 1 && u.hash.salt == next + 2 && u.keyHash == KeyOf(next + 3)
    ensures GoodDir(d, Insert(d, next, u), next + 4)
  {
    IndexesAreOld(d, next);
    InsertKeepsIndexed(d, next, u);
  }

  /** An object no map points to changes nothing. */
  lemma GarbageKeepsIndexed(d: Dir, ref: nat, u: User)
    requires Indexed(d) && ref !in d.heap
    ensures Indexed(d.(heap := d.heap[ref := u]))
  {
  }

  lemma CreateDirRollback(d: Dir, next: nat, u: User)
    requires Indexed(d) && FreshDir(d, next) && u.name !in d.users
    requires u.id == next + 1 && u.hash.salt == next + 2 && u.keyHash == KeyOf(next + 3)
    ensures Remove(Insert(d, next, u), u) == d.(heap := d.heap[next := u])
    ensures GoodDir(d, Remove(Insert(d, next, u), u), next + 4)
  {
    IndexesAreOld(d, next);
    RemoveInserted(d, next, u);
    GarbageKeepsIndexed(d, next, u);
  }

  lemma RemoveInserted(d: Dir, ref: nat, u: User)
    requires u.name !in d.users && u.id !in d.byId && u.keyHash !in d.byKey
    ensures Remove(Insert(d, ref, u), u) == d.(heap := d.heap[ref := u])
  {
  }

  lemma CreateKeepsInv(w: World, name: string, password: string, saved: bool)
    requires Inv(w)
    ensures Inv(CreateStep(w, name, password, saved))
  {
    if name !in w.dir.users {
      var u := NewUser(w, name, password);
      var d := Insert(w.dir, w.next, u);
      CreateDir(w.dir, w.next, u);
      CreateDirRollback(w.dir, w.next, u);
      CommitKeepsInv(w, if saved then d else Remove(d, u), w.next + 4, saved, None);
    }
  }

  lemma UpdateKeepsShape(w: World, name: string, reset: Option<string>, enabled: Option<bool>, saved: bool)
    requires Shape(w)
    ensures Shape(UpdateStep(w, name, reset, enabled, saved))
  {
    if Known(w.dir, name) {
      var u := UserOf(w.dir, name);
      var v := Updated(u, reset, enabled, w.next);
      SetUserKeepsIndexed(w.dir, name, v);
      CommitKeepsShape(w, SetUser(w.dir, w.dir.users[name], v), w.next + 1, saved,
                       if reset.Some? || enabled == Some(false) then Some(u.id) else None);
    }
  }

  lemma SetUserKeepsFreshDir(d: Dir, next: nat, name: string, u: User)
    requires FreshDir(d, next) && Known(d, name) && Old(next + 1, u) && u.id == UserOf(d, name).id
    ensures FreshDir(SetUser(d, d.users[name], u), next + 1) && KeepsIds(d, SetUser(d, d.users[name], u))
  {
  }

  lemma UpdateKeepsFresh(w: World, name: string, reset: Option<string>, enabled: Option<bool>, saved: bool)
    requires Fresh(w)
    ensures Fresh(UpdateStep(w, name, reset, enabled, saved)) == true  // an equation, so that Fresh is not taken apart
  {
    if Known(w.dir, name) {
      var u := UserOf(w.dir, name);
      var d := SetUser(w.dir, w.dir.users[name], Updated(u, reset, enabled, w.next));
      SetUserKeepsFreshDir(w.dir, w.next, name, Updated(u, reset, enabled, w.next));
      CommitKeepsFresh(w, d, w.next + 1, saved, if reset.Some? || enabled == Some(false) then Some(u.id) else None);
    }
  }

  lemma UpdateKeepsInv(w: World, name: string, reset: Option<string>, enabled: Option<bool>, saved: bool)
    requires Inv(w)
    ensures Inv(UpdateStep(w, name, reset, enabled, saved)) == true
  {
    UpdateKeepsShape(w, name, reset, enabled, saved);
    UpdateKeepsFresh(w, name, reset, enabled, saved);
  }

  lemma DeleteKeepsInv(w: World, name: string, saved: bool)
    requires Inv(w)
    ensures Inv(DeleteStep(w, name, saved)) == true
  {
    if Known(w.dir, name) {
      var u := UserOf(w.dir, name);
      RemoveKeepsIndexed(w.dir, name);
      CommitKeepsInv(w, Remove(w.dir, u), w.next, saved, Some(u.id));
    }
  }

  lemma RekeyDir(d: Dir, next: nat, name: string)
    requires Indexed(d) && FreshDir(d, next) && Known(d, name)
    ensures var before := UserOf(d, name).keyHash;
            var d1 := Rekey(d, name, before, KeyOf(next));
            && GoodDir(d, d1, next + 1) && Rekey(d1, name, KeyOf(next), before) == d
            && GoodDir(d, d, next + 1)
  {
    IndexesAreOld(d, next);
    RekeyKeepsIndexed(d, name, KeyOf(next));
    RekeyBack(d, name, KeyOf(next));
  }

  lemma RekeyBack(d: Dir, name: string, to: KeyHash)
    requires Known(d, name) && IndexedUser(d, name) && to !in d.byKey && to != NoKey
    requires NoKey !in d.byKey
    ensures var before := UserOf(d, name).keyHash; Rekey(Rekey(d, name, before, to), name, to, before) == d
  {
  }

  function Rekeyed(w: World, name: string): Dir
    requires Known(w.dir, name)
  {
    Rekey(w.dir, name, UserOf(w.dir, name).keyHash, KeyOf(w.next))
  }

  lemma SavedRekeyKeepsShape(w: World, name: string)
    requires Distinct(w.file) && Known(w.dir, name) && Indexed(Rekeyed(w, name))
    ensures Shape(RegenerateStep(w, name, true)) == true
  {
    CommitKeepsShape(w, Rekeyed(w, name), w.next + 1, true, None);
  }

  lemma SavedRekeyKeepsFresh(w: World, name: string)
    requires Fresh(w) && Known(w.dir, name)
    requires FreshDir(Rekeyed(w, name), w.next + 1) && KeepsIds(w.dir, Rekeyed(w, name))
    ensures Fresh(RegenerateStep(w, name, true)) == true
  {
    CommitKeepsFresh(w, Rekeyed(w, name), w.next + 1, true, None);
  }

  lemma RegenerateKeepsInv(w: World, name: string, saved: bool)
    requires Inv(w)
    ensures Inv(RegenerateStep(w, name, saved)) == true  // likewise
  {
    if !saved {
      FailedRegenerateRollsBack(w, name);
      NextKeepsInv(w);
    } else if Known(w.dir, name) {
      RekeyDir(w.dir, w.next, name);
      SavedRekeyKeepsShape(w, name);
      SavedRekeyKeepsFresh(w, name);
    }
  }

  lemma TaskKeepsInv(w: World, t: nat, task: Task)
    requires Inv(w) && t < w.next
    requires FreshTasks(w.dir, map[t := task], w.next)
    ensures Inv(w.(tasks := w.tasks[t := task])) && Inv(End(w, t))
  {
    assert task == map[t := task][t];
  }

  lemma NextKeepsInv(w: World)
    requires Inv(w)
    ensures Inv(w.(next := w.next + 1))
  {
  }

  lemma AddSessionKeepsInv(w: World, s: Session, evict: set<nat>)
    requires Inv(w) && OldSession(w.next, s)
    ensures Inv(AddSession(w, s, evict))
  {
  }

  lemma AdvanceKeepsInv(w: World, t: nat, expiresAt: int, evict: set<nat>, saved: bool)
    requires Inv(w) && t in w.tasks
    ensures Inv(AdvanceStep(w, t, expiresAt, evict, saved)) == true
  {
    TaskKeepsInv(w, t, w.tasks[t]);
    match w.tasks[t]
    case LoginCompare(name, ref, hash, enabled, uid, password) =>
      if hash.password == password {
        TaskKeepsInv(w, t, LoginInsert(name, ref, hash, uid, password));
      }
    case LoginInsert(name, ref, hash, uid, password) =>
      AddSessionKeepsInv(End(w, t), Session(uid, FpOf(hash), expiresAt, w.next), evict);
    case ChangeCompare(name, ref, hash, password, newPassword) =>
      TaskKeepsInv(w, t, ChangeCommit(name, ref, hash, newPassword));
    case ChangeCommit(name, ref, hash, newPassword) =>
      UpdateKeepsInv(End(w, t), name, Some(newPassword), None, saved);
  }

  lemma BeginKeepsInv(w: World, task: Task)
    requires Inv(w) && FreshTasks(w.dir, map[w.next := task], w.next + 1)
    ensures Inv(Begin(w, task))
  {
    NextKeepsInv(w);
    TaskKeepsInv(w.(next := w.next + 1), w.next, task);
  }

  lemma LoginKeepsInv(w: World, name: string, password: string)
    requires Inv(w)
    ensures Inv(LoginStep(w, name, password)) == true
  {
    if Known(w.dir, name) {
      var u := UserOf(w.dir, name);
      BeginKeepsInv(w, LoginCompare(name, w.dir.users[name], u.hash, u.enabled, u.id, password));
    }
  }

  lemma ChangeKeepsInv(w: World, name: string, password: string, newPassword: string)
    requires Inv(w)
    ensures Inv(ChangeStep(w, name, password, newPassword)) == true
  {
    if Known(w.dir, name) {
      BeginKeepsInv(w, ChangeCompare(name, w.dir.users[name], UserOf(w.dir, name).hash, password, newPassword));
    }
  }

  lemma RestartKeepsInv(w: World, stored: set<nat>)
    requires Inv(w)
    ensures Inv(RestartStep(w, stored)) == true
  {
    RebootKeepsInv(w, stored);
  }

  lemma SessionsKeepInv(w: World, token: nat, now: int)
    requires Inv(w)
    ensures Inv(ValidateStep(w, token, now)) == true && Inv(LogoutStep(w, token)) == true
    ensures Inv(CleanupStep(w, now)) == true
  {
    FewerSessions(w, LogoutStep(w, token).sessions);
    FewerSessions(w, CleanupStep(w, now).sessions);
  }

  lemma LegacyKeepsInv(w: World, name: string, expiresAt: int)
    requires Inv(w)
    ensures Inv(LegacyStep(w, name, expiresAt)) == true
  {
    if Known(w.dir, name) {
      AddLegacyKeepsInv(w, Session(UserOf(w.dir, name).id, NoFp, expiresAt, w.next));
    }
  }

  lemma RebootKeepsInv(w: World, stored: set<nat>)
    requires Inv(w)
    ensures Inv(Reboot(w, stored))
  {
    var d := Loaded(w.file);
    forall r | r in d.heap ensures r < w.next && Old(w.next, d.heap[r]) {
      assert Old(w.next, w.file[d.heap[r].name]);
    }
  }

  lemma StepKeepsInv(w: World, e: Event)
    requires Inv(w)
    ensures Inv(Step(w, e)) == true
  {
    match e
    case Create(name, password, saved) => CreateKeepsInv(w, name, password, saved);
    case Update(name, reset, enabled, saved) => UpdateKeepsInv(w, name, reset, enabled, saved);
    case Delete(name, saved) => DeleteKeepsInv(w, name, saved);
    case Regenerate(name, saved) => RegenerateKeepsInv(w, name, saved);
    case Login(name, password) => LoginKeepsInv(w, name, password);
    case ChangePassword(name, password, newPassword) => ChangeKeepsInv(w, name, password, newPassword);
    case Advance(t, expiresAt, evict, saved) => if t in w.tasks { AdvanceKeepsInv(w, t, expiresAt, evict, saved); }
    case Validate(token, now) => SessionsKeepInv(w, token, now);
    case Logout(token) => SessionsKeepInv(w, token, 0);
    case Cleanup(now) => SessionsKeepInv(w, 0, now);
    case Legacy(name, expiresAt) => LegacyKeepsInv(w, name, expiresAt);
    case Restart(stored) => RestartKeepsInv(w, stored);
  }

  lemma AddLegacyKeepsInv(w: World, s: Session)
    requires Inv(w) && OldSession(w.next, s)
    ensures Inv(AddLegacy(w, s))
  {
  }

  lemma FewerSessions(w: World, sessions: map<nat, Session>)
    requires Inv(w) && forall t :: t in sessions ==> t in w.sessions && sessions[t] == w.sessions[t]
    ensures Inv(w.(sessions := sessions))
  {
  }

  lemma {:induction false} RunKeepsInv(w: World, es: seq<Event>)
    requires Inv(w)
    ensures Inv(Run(w, es))
    decreases |es|
  {
    if es != [] {
      StepKeepsInv(w, es[0]);
      RunKeepsInv(Step(w, es[0]), es[1..]);
    }
  }

  // ---- API keys ----

  /** AuthenticateAPIKey through the hash index (global key and legacy
      plaintext fallback off). */
  function KeyLookup(d: Dir, key: nat): Option<User> {
    if KeyOf(key) in d.byKey && d.byKey[KeyOf(key)] in d.heap && d.heap[d.byKey[KeyOf(key)]].enabled
       && d.heap[d.byKey[KeyOf(key)]].keyHash == KeyOf(key)
    then Some(d.heap[d.byKey[KeyOf(key)]])
    else None
  }

  /** In every reachable state the index look-up accepts exactly the key of an
      enabled user in the name map, and returns that user. */
  lemma KeyLookupIsScan(es: seq<Event>, key: nat, u: User)
    ensures var d := Run(Init, es).dir;
            KeyLookup(d, key) == Some(u) <==>
            exists n :: n in d.users && d.users[n] in d.heap && d.heap[d.users[n]] == u && u.enabled && u.keyHash == KeyOf(key)
  {
    RunKeepsInv(Init, es);
    var d := Run(Init, es).dir;
    if KeyLookup(d, key) == Some(u) {
      assert d.heap[d.users[u.name]] == u;
    }
  }

  /** A creation or a key rotation whose save failed leaves every look-up as it
      was: by name, by id and by key. */
  lemma FailedCreateRollsBack(w: World, name: string, password: string)
    requires Inv(w)
    ensures var w' := CreateStep(w, name, password, false);
            && w'.dir.users == w.dir.users && w'.dir.byId == w.dir.byId && w'.dir.byKey == w.dir.byKey
            && w'.dir.heap == (if name in w.dir.users then w.dir.heap else w.dir.heap[w.next := NewUser(w, name, password)])
            && w'.file == w.file && w'.sessions == w.sessions
  {
    if name !in w.dir.users {
      CreateDirRollback(w.dir, w.next, NewUser(w, name, password));
    }
  }

  lemma FailedRegenerateRollsBack(w: World, name: string)
    requires Inv(w)
    ensures RegenerateStep(w, name, false) == if Known(w.dir, name) then w.(next := w.next + 1) else w
  {
    if Known(w.dir, name) {
      RekeyDir(w.dir, w.next, name);
    }
  }

  // ---- sessions and the directory ----

  /** The session's user is present, enabled and on the password it was issued under. */
  predicate CurrentSession(d: Dir, s: Session) {
    && s.uid in d.byId && d.byId[s.uid] in d.heap
    && d.heap[d.byId[s.uid]].enabled && s.fp == FpOf(d.heap[d.byId[s.uid]].hash)
  }

  predicate Backs(u: User, s: Session) {
    u.id == s.uid && (s.fp == NoFp || s.fp == FpOf(u.hash))
  }

  /** No user has the session's id on the session's password. */
  ghost predicate Unbacked(d: Dir, s: Session) {
    forall n :: n in d.users && d.users[n] in d.heap ==> !Backs(d.heap[d.users[n]], s)
  }

  lemma CreateDirSessions(d: Dir, next: nat, u: User, s: Session)
    requires Indexed(d) && FreshDir(d, next) && u.name !in d.users
    requires u.id == next + 1 && u.keyHash == KeyOf(next + 3)
    ensures var d1, d2 := Insert(d, next, u), Remove(Insert(d, next, u), u);
            && (CurrentSession(d, s) ==> CurrentSession(d1, s) && CurrentSession(d2, s))
            && (Unbacked(d, s) && s.uid < next ==> Unbacked(d1, s) && Unbacked(d2, s))
  {
  }

  lemma UpdateDirSessions(d: Dir, next: nat, name: string, reset: Option<string>, enabled: Option<bool>, s: Session)
    requires Indexed(d) && Known(d, name)
    ensures var u := UserOf(d, name);
            var d1 := SetUser(d, d.users[name], Updated(u, reset, enabled, next));
            && (CurrentSession(d, s) && (s.uid != u.id || (reset == None && enabled != Some(false))) ==> CurrentSession(d1, s))
            && (Unbacked(d, s) && OldSession(next, s) ==> Unbacked(d1, s))
            && (s.uid == u.id && reset.Some? && s.fp != NoFp && OldSession(next, s) ==> Unbacked(d1, s))
  {
  }

  lemma RemoveDirSessions(d: Dir, name: string, s: Session)
    requires Indexed(d) && Known(d, name)
    ensures var u := UserOf(d, name);
            && (CurrentSession(d, s) && s.uid != u.id ==> CurrentSession(Remove(d, u), s))
            && (Unbacked(d, s) || s.uid == u.id ==> Unbacked(Remove(d, u), s))
  {
  }

  lemma RekeyDirSessions(d: Dir, name: string, from: KeyHash, to: KeyHash, s: Session)
    requires Known(d, name)
    ensures CurrentSession(d, s) ==> CurrentSession(Rekey(d, name, from, to), s)
    ensures Unbacked(d, s) ==> Unbacked(Rekey(d, name, from, to), s)
  {
  }

  // ---- sessions in memory ----

  ghost predicate Current(w: World) {
    forall t :: t in w.sessions ==> CurrentSession(w.dir, w.sessions[t])
  }

  lemma CreateKeepsCurrent(w: World, name: string, password: string, saved: bool)
    requires Inv(w) && Current(w)
    ensures Current(CreateStep(w, name, password, saved))
  {
    if name !in w.dir.users {
      forall t | t in w.sessions ensures CurrentSession(CreateStep(w, name, password, saved).dir, w.sessions[t]) {
        CreateDirSessions(w.dir, w.next, NewUser(w, name, password), w.sessions[t]);
      }
    }
  }

  lemma UpdateKeepsCurrent(w: World, name: string, reset: Option<string>, enabled: Option<bool>, saved: bool)
    requires Inv(w) && Current(w)
    ensures Current(UpdateStep(w, name, reset, enabled, saved))
  {
    if Known(w.dir, name) {
      var w' := UpdateStep(w, name, reset, enabled, saved);
      forall t | t in w'.sessions ensures CurrentSession(w'.dir, w'.sessions[t]) {
        UpdateDirSessions(w.dir, w.next, name, reset, enabled, w.sessions[t]);
      }
    }
  }

  lemma DeleteKeepsCurrent(w: World, name: string, saved: bool)
    requires Inv(w) && Current(w)
    ensures Current(DeleteStep(w, name, saved))
  {
    if Known(w.dir, name) {
      var w' := DeleteStep(w, name, saved);
      forall t | t in w'.sessions ensures CurrentSession(w'.dir, w'.sessions[t]) {
        RemoveDirSessions(w.dir, name, w.sessions[t]);
      }
    }
  }

  lemma RegenerateKeepsCurrent(w: World, name: string, saved: bool)
    requires Inv(w) && Current(w)
    ensures Current(RegenerateStep(w, name, saved))
  {
    if Known(w.dir, name) {
      if saved {
        forall t | t in w.sessions ensures CurrentSession(RegenerateStep(w, name, saved).dir, w.sessions[t]) {
          RekeyDirSessions(w.dir, name, UserOf(w.dir, name).keyHash, KeyOf(w.next), w.sessions[t]);
        }
      } else {
        FailedRegenerateRollsBack(w, name);
      }
    }
  }

  lemma AdvanceKeepsCurrent(w: World, t: nat, expiresAt: int, evict: set<nat>, saved: bool)
    requires Inv(w) && Current(w) && t in w.tasks
    ensures Current(AdvanceStep(w, t, expiresAt, evict, saved))
  {
    TaskKeepsInv(w, t, w.tasks[t]);
    if w.tasks[t].ChangeCommit? {
      UpdateKeepsCurrent(End(w, t), w.tasks[t].name, Some(w.tasks[t].newPassword), None, saved);
    }
  }

  lemma StepKeepsCurrent(w: World, e: Event)
    requires Inv(w) && Current(w) && !e.Restart?
    ensures Current(Step(w, e))
  {
    match e
    case Create(name, password, saved) => CreateKeepsCurrent(w, name, password, saved);
    case Update(name, reset, enabled, saved) => UpdateKeepsCurrent(w, name, reset, enabled, saved);
    case Delete(name, saved) => DeleteKeepsCurrent(w, name, saved);
    case Regenerate(name, saved) => RegenerateKeepsCurrent(w, name, saved);
    case Advance(t, expiresAt, evict, saved) => if t in w.tasks { AdvanceKeepsCurrent(w, t, expiresAt, evict, saved); }
    case _ =>
  }

  /** However logins interleave with password changes, disables and deletes, no
      session outlives the credentials it was issued under, until a restart. */
  lemma {:induction false} SessionsStayCurrent(w: World, es: seq<Event>)
    requires Inv(w) && Current(w) && forall e :: e in es ==> !e.Restart?
    ensures Current(Run(w, es))
    decreases |es|
  {
    if es != [] {
      assert es[0] in es;
      StepKeepsCurrent(w, es[0]);
      StepKeepsInv(w, es[0]);
      SessionsStayCurrent(Step(w, es[0]), es[1..]);
    }
  }

  /** A login inserts a session only if the account is there, enabled, and its
      password at that moment is the one the login was given. */
  lemma LoginChecksCurrentPassword(es: seq<Event>, t: nat, expiresAt: int, evict: set<nat>, saved: bool)
    requires t in Run(Init, es).tasks && Run(Init, es).tasks[t].LoginInsert?
    ensures var w := Run(Init, es);
            var task := w.tasks[t];
            && w.next !in w.sessions
            && (w.next in AdvanceStep(w, t, expiresAt, evict, saved).sessions ==>
                  && Known(w.dir, task.name)
                  && UserOf(w.dir, task.name).enabled
                  && UserOf(w.dir, task.name).id == task.uid
                  && UserOf(w.dir, task.name).hash.password == task.password)
  {
    RunKeepsInv(Init, es);
  }
}
