/**
 SSH access as the brain and the host agent share it. The brain keeps a row per
 account and a row per key and pushes an account's whole state to the host; the host
 keeps what it was last told. Every store read, store write and host call may fail.
 Each handler is proved to be a transaction: it takes effect on both sides, or leaves
 both as they were, whenever the compensating writes it makes succeed.
 */
module SshAccess {
  import Maps
  import opened Options

  datatype Access = Access(enabled: bool, requirePassword: bool)
  datatype Key = Key(id: string, userID: string, line: string, fingerprint: string, name: string, addedAt: int)
  datatype User = User(username: string, role: string)
  datatype HostEntry = HostEntry(keys: set<string>, requirePassword: bool)

  datatype State = State(
    users: map<string, User>,
    access: map<string, Access>,
    keys: map<string, Key>,
    host: map<string, HostEntry>)

  const OFF := Access(false, false)
  const MAX_KEYS: nat := 10

  /** An absent row reads as the off state. */
  function AccessFor(access: map<string, Access>, uid: string): Access {
    if uid in access then access[uid] else OFF
  }

  /** ListSSHKeys: the account's own key rows. */
  function KeysOf(keys: map<string, Key>, uid: string): map<string, Key> {
    map k | k in keys && keys[k].userID == uid :: keys[k]
  }

  function Lines(rows: map<string, Key>): set<string> {
    set k | k in rows :: rows[k].line
  }

  /** What the account's row and keys ask the host for. */
  function Entry(s: State, uid: string): HostEntry {
    HostEntry(Lines(KeysOf(s.keys, uid)), AccessFor(s.access, uid).requirePassword)
  }

  /** The profile decides which factor is mandatory: the key on hosted, the password on the appliance. */
  function EffectiveRequirePassword(hosted: bool, asked: bool): bool {
    if !hosted then true else asked
  }

  /** Key ids are unique, and an account does not hold the same key twice. */
  predicate CanAdd(keys: map<string, Key>, k: Key) {
    k.id !in keys && forall l :: l in keys ==> !SameKey(k, keys[l])
  }

  // ----- The host agent -----

  /** The host's structural check on one request. */
  predicate Accepts(username: string, enabled: bool, requirePassword: bool, lines: set<string>) {
    username != "" && !(enabled && lines == {} && !requirePassword)
  }

  function Pushed(host: map<string, HostEntry>, username: string, enabled: bool, e: HostEntry): map<string, HostEntry> {
    if enabled then host[username := e] else host - {username}
  }

  // ----- What every operation keeps -----

  ghost predicate RowsOk(s: State) {
    && s.access.Keys <= s.users.Keys
    && (forall k :: k in s.keys ==> s.keys[k].id == k && s.keys[k].userID in s.users)
    && (forall k, l :: k in s.keys && l in s.keys && SameKey(s.keys[k], s.keys[l]) ==> k == l)
    && (forall u :: u in s.users ==> s.users[u].username != "")
    && (forall u, v :: u in s.users && v in s.users && s.users[u].username == s.users[v].username ==> u == v)
  }

  predicate SameKey(k: Key, l: Key) {
    k.userID == l.userID && k.fingerprint == l.fingerprint
  }

  ghost predicate On(s: State, uid: string) {
    uid in s.users && AccessFor(s.access, uid).enabled
  }

  ghost predicate OwnedBy(s: State, name: string, uid: string) {
    On(s, uid) && s.users[uid].username == name
  }

  /** The host enables exactly the accounts the brain has enabled, with the same keys and password flag. */
  ghost predicate Agree(s: State) {
    && (forall u :: On(s, u) ==> s.users[u].username in s.host && s.host[s.users[u].username] == Entry(s, u))
    && (forall name :: name in s.host ==> exists u :: OwnedBy(s, name, u))
  }

  /** An enabled account holds the factor its profile makes mandatory. */
  ghost predicate Policy(hosted: bool, s: State) {
    forall u :: On(s, u) ==> FactorOk(hosted, s, u)
  }

  ghost predicate FactorOk(hosted: bool, s: State, uid: string) {
    if hosted then KeysOf(s.keys, uid) != map[] else AccessFor(s.access, uid).requirePassword
  }

  ghost predicate Inv(hosted: bool, s: State) {
    RowsOk(s) && Agree(s) && Policy(hosted, s)
  }

  /** Nobody but `uid` notices the difference between two states. */
  ghost predicate OnlyFor(uid: string, name: string, s: State, t: State) {
    && (forall u :: u != uid ==>
          && (u in t.users <==> u in s.users)
          && (u in t.users ==> t.users[u].username == s.users[u].username)
          && AccessFor(t.access, u) == AccessFor(s.access, u)
          && KeysOf(t.keys, u) == KeysOf(s.keys, u))
    && (forall n :: n != name ==>
          && (n in t.host <==> n in s.host)
          && (n in t.host ==> t.host[n] == s.host[n]))
  }

  /** The account itself: on the host exactly when it is on, as its rows say, with its mandatory factor. */
  ghost predicate AccountOk(hosted: bool, s: State, uid: string, name: string) {
    && (uid in s.users ==> s.users[uid].username == name && name != "")
    && (On(s, uid) ==> name in s.host && s.host[name] == Entry(s, uid) && FactorOk(hosted, s, uid))
    && (!On(s, uid) ==> name !in s.host)
  }

  /** Two sides that agree still do after a change to one account, if they agree on that account. */
  lemma OneAccountChanges(hosted: bool, s: State, t: State, uid: string, name: string)
    requires Inv(hosted, s) && RowsOk(t) && OnlyFor(uid, name, s, t) && AccountOk(hosted, t, uid, name)
    requires forall u :: u in s.users && s.users[u].username == name ==> u == uid
    requires uid in s.users ==> s.users[uid].username == name
    ensures Inv(hosted, t)
  {
    OthersAgree(s, t, uid, name);
    OthersKeepFactor(hosted, s, t, uid, name);
    forall n | n in t.host ensures exists u :: OwnedBy(t, n, u) {
      if n == name { assert OwnedBy(t, n, uid); } else { OwnerStays(s, t, uid, name, n); }
    }
  }

  lemma OthersKeepFactor(hosted: bool, s: State, t: State, uid: string, name: string)
    requires Policy(hosted, s) && OnlyFor(uid, name, s, t)
    ensures forall u :: u != uid && On(t, u) ==> FactorOk(hosted, t, u)
  {
    forall u | u != uid && On(t, u) ensures FactorOk(hosted, t, u) {
      assert On(s, u) && FactorOk(hosted, s, u);
    }
  }

  lemma OthersAgree(s: State, t: State, uid: string, name: string)
    requires Agree(s) && OnlyFor(uid, name, s, t)
    requires forall u :: u in s.users && s.users[u].username == name ==> u == uid
    ensures forall u :: u != uid && On(t, u) ==>
              t.users[u].username in t.host && t.host[t.users[u].username] == Entry(t, u)
  {
    forall u | u != uid && On(t, u)
      ensures t.users[u].username in t.host && t.host[t.users[u].username] == Entry(t, u)
    {
      assert On(s, u) && Entry(t, u) == Entry(s, u);
    }
  }

  lemma OwnerStays(s: State, t: State, uid: string, name: string, n: string)
    requires Agree(s) && OnlyFor(uid, name, s, t) && n in t.host && n != name
    requires uid in s.users ==> s.users[uid].username == name
    ensures exists u :: OwnedBy(t, n, u)
  {
    var u :| OwnedBy(s, n, u);
    assert OwnedBy(t, n, u);
  }

  /** Two states no reader can tell apart: a row holding the off state is as good as none. */
  ghost predicate Same(s: State, t: State) {
    && t.users == s.users && t.keys == s.keys && t.host == s.host
    && t.access.Keys <= t.users.Keys
    && (forall u :: AccessFor(t.access, u) == AccessFor(s.access, u))
  }

  lemma SameKeepsInv(hosted: bool, s: State, t: State)
    requires Inv(hosted, s) && Same(s, t)
    ensures Inv(hosted, t)
  {
    assert forall u :: Entry(t, u) == Entry(s, u) && (On(t, u) <==> On(s, u));
    forall n | n in t.host ensures exists u :: OwnedBy(t, n, u) {
      var u :| OwnedBy(s, n, u);
      assert OwnedBy(t, n, u);
    }
  }

  // ----- The effect of each operation that succeeds -----

  function WithAccess(s: State, uid: string, a: Access): State
    requires uid in s.users
  {
    s.(access := s.access[uid := a],
       host := Pushed(s.host, s.users[uid].username, a.enabled,
                      HostEntry(Lines(KeysOf(s.keys, uid)), a.requirePassword)))
  }

  /** A key set changed: the host hears of it only while the account is enabled. */
  function WithKeys(s: State, uid: string, keys: map<string, Key>): State
    requires uid in s.users
  {
    var a := AccessFor(s.access, uid);
    s.(keys := keys,
       host := if a.enabled
               then s.host[s.users[uid].username := HostEntry(Lines(KeysOf(keys, uid)), a.requirePassword)]
               else s.host)
  }

  function Cascaded(keys: map<string, Key>, uid: string): map<string, Key> {
    map k | k in keys && keys[k].userID != uid :: keys[k]
  }

  function Without(s: State, uid: string): State
    requires uid in s.users
  {
    State(s.users - {uid}, s.access - {uid}, Cascaded(s.keys, uid), s.host - {s.users[uid].username})
  }

  /** A new account, or an old one under the user row a handler had read earlier. */
  function WithUser(s: State, uid: string, u: User): State {
    s.(users := s.users[uid := u])
  }

  lemma WithAccessKeepsInv(hosted: bool, s: State, uid: string, a: Access)
    requires Inv(hosted, s) && uid in s.users
    requires a.enabled ==> if hosted then KeysOf(s.keys, uid) != map[] else a.requirePassword
    ensures Inv(hosted, WithAccess(s, uid, a))
  {
    OneAccountChanges(hosted, s, WithAccess(s, uid, a), uid, s.users[uid].username);
  }

  /** An account that is off has nothing on the host, so revoking it would change nothing. */
  lemma OffHasNoEntry(s: State, uid: string)
    requires RowsOk(s) && Agree(s) && uid in s.users && !On(s, uid)
    ensures s.users[uid].username !in s.host
  {
    assert forall u :: OwnedBy(s, s.users[uid].username, u) ==> u == uid;
  }

  lemma WithKeysKeepsInv(hosted: bool, s: State, uid: string, keys: map<string, Key>)
    requires Inv(hosted, s) && uid in s.users && RowsOk(s.(keys := keys))
    requires forall u :: u != uid ==> KeysOf(keys, u) == KeysOf(s.keys, u)
    requires On(s, uid) && hosted ==> KeysOf(keys, uid) != map[]
    ensures Inv(hosted, WithKeys(s, uid, keys))
  {
    if !On(s, uid) { OffHasNoEntry(s, uid); }
    OneAccountChanges(hosted, s, WithKeys(s, uid, keys), uid, s.users[uid].username);
  }

  lemma CascadeKeepsOthers(keys: map<string, Key>, uid: string, u: string)
    requires u != uid
    ensures KeysOf(Cascaded(keys, uid), u) == KeysOf(keys, u)
  {
  }

  lemma WithoutKeepsInv(hosted: bool, s: State, uid: string)
    requires Inv(hosted, s) && uid in s.users
    ensures Inv(hosted, Without(s, uid))
  {
    forall u | u != uid ensures KeysOf(Cascaded(s.keys, uid), u) == KeysOf(s.keys, u) {
      CascadeKeepsOthers(s.keys, uid, u);
    }
    OneAccountChanges(hosted, s, Without(s, uid), uid, s.users[uid].username);
  }

  lemma WithUserKeepsInv(hosted: bool, s: State, uid: string, user: User)
    requires Inv(hosted, s) && uid !in s.users && user.username != ""
    requires forall u :: u in s.users ==> s.users[u].username != user.username
    ensures Inv(hosted, WithUser(s, uid, user))
  {
    assert forall u :: !OwnedBy(s, user.username, u);
    OneAccountChanges(hosted, s, WithUser(s, uid, user), uid, user.username);
  }

  /** An account has a line to send exactly when it has a key. */
  lemma HasLines(rows: map<string, Key>)
    ensures Lines(rows) == {} <==> rows == map[]
  {
    if rows != map[] {
      var k :| k in rows;
      assert rows[k].line in Lines(rows);
    }
  }

  lemma AddedKey(s: State, k: Key)
    requires RowsOk(s) && k.userID in s.users && CanAdd(s.keys, k)
    ensures RowsOk(s.(keys := s.keys[k.id := k]))
    ensures forall u :: u != k.userID ==> KeysOf(s.keys[k.id := k], u) == KeysOf(s.keys, u)
    ensures k.id in KeysOf(s.keys[k.id := k], k.userID)
    ensures s.keys[k.id := k] - {k.id} == s.keys
  {
    AddedRow(s.keys, k);
  }

  lemma AddedRow(keys: map<string, Key>, k: Key)
    requires k.id !in keys
    ensures forall u :: u != k.userID ==> KeysOf(keys[k.id := k], u) == KeysOf(keys, u)
    ensures k.id in KeysOf(keys[k.id := k], k.userID)
    ensures keys[k.id := k] - {k.id} == keys
  {
  }

  /** No account holds more than ten keys. */
  ghost predicate Capped(keys: map<string, Key>) {
    forall u :: |KeysOf(keys, u)| <= 10
  }

  lemma AddKeepsCap(keys: map<string, Key>, k: Key)
    requires Capped(keys) && k.id !in keys && |KeysOf(keys, k.userID)| < MAX_KEYS
    ensures Capped(keys[k.id := k])
  {
    var more := keys[k.id := k];
    forall u ensures |KeysOf(more, u)| <= 10 {
      if u == k.userID {
        assert KeysOf(more, u) == KeysOf(keys, u)[k.id := k];
      } else {
        assert KeysOf(more, u) == KeysOf(keys, u);
      }
    }
  }

  lemma FewerKeepsCap(keys: map<string, Key>, fewer: map<string, Key>)
    requires Capped(keys) && forall k :: k in fewer ==> k in keys && fewer[k] == keys[k]
    ensures Capped(fewer)
  {
    forall u ensures |KeysOf(fewer, u)| <= 10 {
      FewerKeys(KeysOf(fewer, u).Keys, KeysOf(keys, u).Keys);
      assert |KeysOf(fewer, u)| == |KeysOf(fewer, u).Keys| && |KeysOf(keys, u)| == |KeysOf(keys, u).Keys|;
    }
  }

  lemma {:induction false} FewerKeys(a: set<string>, b: set<string>)
    requires a <= b
    ensures |a| <= |b|
  {
    if a != {} {
      var x :| x in a;
      FewerKeys(a - {x}, b - {x});
    }
  }

  lemma RemovedKey(s: State, uid: string, id: string)
    requires RowsOk(s) && id in s.keys && s.keys[id].userID == uid
    ensures RowsOk(s.(keys := s.keys - {id}))
    ensures forall u :: u != uid ==> KeysOf(s.keys - {id}, u) == KeysOf(s.keys, u)
    ensures KeysOf(s.keys - {id}, uid) == KeysOf(s.keys, uid) - {id}
    ensures CanAdd(s.keys - {id}, s.keys[id])
    ensures (s.keys - {id})[id := s.keys[id]] == s.keys
  {
  }

  /** An account that held another key still has a line to send. */
  lemma StillHasFactor(keys: map<string, Key>, uid: string, id: string)
    requires id in KeysOf(keys, uid) && KeysOf(keys, uid).Keys != {id}
    ensures Lines(KeysOf(keys - {id}, uid)) != {}
  {
    var k :| k in KeysOf(keys, uid) && k != id;
    assert k in KeysOf(keys - {id}, uid);
    HasLines(KeysOf(keys - {id}, uid));
  }

  /** Key rows that can all be added to a table, in any order. */
  ghost predicate Fit(keys: map<string, Key>, rows: map<string, Key>) {
    && rows.Keys !! keys.Keys
    && (forall k :: k in rows ==> rows[k].id == k && CanAdd(keys, rows[k]))
    && (forall k, l :: k in rows && l in rows && SameKey(rows[k], rows[l]) ==> k == l)
  }

  lemma OneFits(keys: map<string, Key>, rows: map<string, Key>, k: string)
    requires Fit(keys, rows) && k in rows
    ensures Fit(keys[k := rows[k]], rows - {k}) && Fit(keys, rows - {k})
  {
  }

  lemma OneRestored(keys: map<string, Key>, rows: map<string, Key>, k: string, lost: set<string>)
    requires k in rows && rows.Keys !! keys.Keys
    ensures (if k in lost then keys else keys[k := rows[k]]) + (rows - {k} - lost) == keys + (rows - lost)
  {
  }

  /** Putting back what the cascade and the revoke took leaves the account as it was, user row aside. */
  lemma UndoneIsSame(s: State, t: State, uid: string, target: User)
    requires uid in s.users && s.access.Keys <= s.users.Keys && s.users[uid].username == target.username
    requires On(s, uid) ==> target.username in s.host && s.host[target.username] == Entry(s, uid)
    requires !On(s, uid) ==> target.username !in s.host
    requires t.users == (s.users - {uid})[uid := target] && t.keys == s.keys
    requires t.access == (s.access - {uid})[uid := AccessFor(s.access, uid)]
    requires t.host == if On(s, uid) then (s.host - {target.username})[target.username := Entry(s, uid)] else s.host
    ensures Same(WithUser(s, uid, target), t)
  {
  }

  lemma RevokeUndone(s: State, t: State, uid: string, name: string)
    requires s.access.Keys <= s.users.Keys
    requires On(s, uid) ==> name in s.host && s.host[name] == Entry(s, uid)
    requires t == s.(host := if AccessFor(s.access, uid).enabled then (s.host - {name})[name := Entry(s, uid)]
                             else s.host)
    ensures Same(s, t)
  {
    if AccessFor(s.access, uid).enabled {
      assert (s.host - {name})[name := Entry(s, uid)] == s.host;
    }
  }

  lemma CascadeUndone(s: State, uid: string)
    requires RowsOk(s)
    ensures Fit(Cascaded(s.keys, uid), KeysOf(s.keys, uid))
    ensures Cascaded(s.keys, uid) + KeysOf(s.keys, uid) == s.keys
  {
  }

  // ----- When a compensation fails -----

  /** Brain and host agree on one account. */
  ghost predicate AgreeOn(s: State, uid: string, name: string) {
    && (On(s, uid) ==> name in s.host && s.host[name] == Entry(s, uid))
    && (!On(s, uid) ==> name !in s.host)
  }

  /** After any change to one account, whole or half done, the two sides agree exactly when they agree on that account. */
  lemma AgreeIffOnAccount(s: State, t: State, uid: string, name: string)
    requires RowsOk(s) && Agree(s) && OnlyFor(uid, name, s, t)
    requires uid in s.users && s.users[uid].username == name && (uid in t.users ==> t.users[uid].username == name)
    ensures Agree(t) <==> AgreeOn(t, uid, name)
  {
    if AgreeOn(t, uid, name) {
      OthersAgree(s, t, uid, name);
      forall n | n in t.host ensures exists u :: OwnedBy(t, n, u) {
        if n == name { assert OwnedBy(t, n, uid); } else { OwnerStays(s, t, uid, name, n); }
      }
    }
    if Agree(t) && !On(t, uid) {
      assert forall u :: OwnedBy(t, name, u) ==> u == uid;
    }
  }

  /**
   A row whose push failed and whose rollback failed too: the two sides still agree exactly
   when the new row asks the host for what the old one did.
   */
  lemma LostRollback(s: State, uid: string, a: Access)
    requires RowsOk(s) && Agree(s) && uid in s.users
    ensures var p := AccessFor(s.access, uid);
            Agree(s.(access := s.access[uid := a])) <==>
            a.enabled == p.enabled && (a.enabled ==> a.requirePassword == p.requirePassword)
  {
    var name, t := s.users[uid].username, s.(access := s.access[uid := a]);
    AgreeIffOnAccount(s, s, uid, name);
    assert forall u :: u != uid ==> AccessFor(t.access, u) == AccessFor(s.access, u);
    AgreeIffOnAccount(s, t, uid, name);
    assert On(t, uid) == a.enabled && Entry(t, uid) == HostEntry(Entry(s, uid).keys, a.requirePassword);
  }

  /** The same for key rows: exactly when the account is off, or has the same lines as before. */
  lemma LostKeyRollback(s: State, uid: string, keys: map<string, Key>)
    requires RowsOk(s) && Agree(s) && uid in s.users
    requires forall u :: u != uid ==> KeysOf(keys, u) == KeysOf(s.keys, u)
    ensures Agree(s.(keys := keys)) <==> !On(s, uid) || Lines(KeysOf(keys, uid)) == Lines(KeysOf(s.keys, uid))
  {
    AgreeIffOnAccount(s, s, uid, s.users[uid].username);
    AgreeIffOnAccount(s, s.(keys := keys), uid, s.users[uid].username);
  }

  /** An added key that could not be taken back does no harm exactly when the account is off or another of its keys has that line. */
  lemma LostAddRollback(s: State, k: Key)
    requires RowsOk(s) && Agree(s) && k.userID in s.users && CanAdd(s.keys, k)
    ensures Agree(s.(keys := s.keys[k.id := k])) <==> !On(s, k.userID) || k.line in Lines(KeysOf(s.keys, k.userID))
  {
    AddedRow(s.keys, k);
    LostKeyRollback(s, k.userID, s.keys[k.id := k]);
    LinesGrow(s.keys, k);
  }

  lemma LinesGrow(keys: map<string, Key>, k: Key)
    requires k.id !in keys
    ensures Lines(KeysOf(keys[k.id := k], k.userID)) == Lines(KeysOf(keys, k.userID)) + {k.line}
  {
    var rows, more := KeysOf(keys, k.userID), KeysOf(keys[k.id := k], k.userID);
    assert more == rows[k.id := k];
    assert more[k.id].line == k.line;
    forall l | l in rows ensures rows[l].line in Lines(more) { assert more[l] == rows[l]; }
  }

  /** A dropped key that could not be put back does no harm exactly when the account is off or another of its keys has that line. */
  lemma LostDropRollback(s: State, uid: string, id: string)
    requires RowsOk(s) && Agree(s) && id in s.keys && s.keys[id].userID == uid
    ensures Agree(s.(keys := s.keys - {id})) <==>
            !On(s, uid) || exists l :: l in KeysOf(s.keys, uid) && l != id && s.keys[l].line == s.keys[id].line
  {
    RemovedKey(s, uid, id);
    LostKeyRollback(s, uid, s.keys - {id});
    var rows := KeysOf(s.keys, uid);
    assert id in rows && rows[id].line in Lines(rows);
    assert KeysOf(s.keys - {id}, uid) == rows - {id};
    LinesShrink(rows, id);
  }

  lemma LinesShrink(rows: map<string, Key>, id: string)
    requires id in rows
    ensures Lines(rows - {id}) == Lines(rows) <==> exists l :: l in rows && l != id && rows[l].line == rows[id].line
  {
    var less := rows - {id};
    if l :| l in rows && l != id && rows[l].line == rows[id].line {
      assert less[l].line in Lines(less);
      forall x | x in rows ensures rows[x].line in Lines(less) {
        if x != id { assert less[x].line in Lines(less); }
      }
    }
    if Lines(less) == Lines(rows) {
      assert rows[id].line in Lines(rows);
      var l :| l in less && less[l].line == rows[id].line;
      assert l in rows && l != id;
    }
  }

  /** What a delete that got as far as the revoke leaves when it then fails, with whichever of its compensations. */
  function AfterFailedDelete(s: State, uid: string, target: User, c: Calls): State {
    var a, rows, name := AccessFor(s.access, uid), KeysOf(s.keys, uid), target.username;
    var revoked := if a.enabled then s.host - {name} else s.host;
    var back := if a.enabled && c.undoPush then revoked[name := HostEntry(Lines(rows), a.requirePassword)] else revoked;
    if !(c.write && uid in s.users) then s.(host := back)
    else if !c.undoCreate then State(s.users - {uid}, s.access - {uid}, Cascaded(s.keys, uid), revoked)
    else State((s.users - {uid})[uid := target],
               if c.undoAccess then (s.access - {uid})[uid := a] else s.access - {uid},
               Cascaded(s.keys, uid) + (rows - c.lostKeys), back)
  }

  /** With every compensation a failed delete leaves the account as it was, user row aside, or gone. */
  lemma CompensatedDelete(hosted: bool, s: State, uid: string, target: User, c: Calls)
    requires ReadyFor(hosted, s, uid, target.username) && c.Compensates()
    requires Cascaded(s.keys, uid) + KeysOf(s.keys, uid) == s.keys
    ensures var t := AfterFailedDelete(s, uid, target, c);
            || Same(s, t)
            || (uid in s.users && c.undoCreate && Same(WithUser(s, uid, target), t))
            || (uid in s.users && !c.undoCreate && t == Without(s, uid))
  {
    var t := AfterFailedDelete(s, uid, target, c);
    if !(c.write && uid in s.users) {
      RevokeUndone(s, t, uid, target.username);
    } else if c.undoCreate {
      assert KeysOf(s.keys, uid) - {} == KeysOf(s.keys, uid);
      UndoneIsSame(s, t, uid, target);
    } else if !On(s, uid) {
      assert s.host - {target.username} == s.host;
    }
  }

  lemma KeysPutBack(keys: map<string, Key>, uid: string, lost: set<string>)
    ensures var t := Cascaded(keys, uid) + (KeysOf(keys, uid) - lost);
            && KeysOf(t, uid) == KeysOf(keys, uid) - lost
            && KeysOf(Cascaded(keys, uid), uid) == map[]
            && forall u :: u != uid ==> KeysOf(t, u) == KeysOf(keys, u) && KeysOf(Cascaded(keys, uid), u) == KeysOf(keys, u)
  {
  }

  /**
   A failed delete, with any of its compensations failing: the two sides agree afterwards
   exactly when the account was off; or when the row delete failed and the push back got
   through; or when not even the user row came back; or when access row, push and every line
   came back, or neither row nor push did.
   */
  lemma FailedDeleteAgreesIff(s: State, uid: string, target: User, c: Calls)
    requires RowsOk(s) && Agree(s) && uid in s.users && s.users[uid].username == target.username
    ensures var rows := KeysOf(s.keys, uid);
            Agree(AfterFailedDelete(s, uid, target, c)) <==>
            || !On(s, uid)
            || (if !c.write then c.undoPush
                else if !c.undoCreate then true
                else if c.undoAccess then c.undoPush && Lines(rows - c.lostKeys) == Lines(rows)
                else !c.undoPush)
  {
    FailedDeleteIsOnlyFor(s, uid, target, c);
    AgreeIffOnAccount(s, s, uid, target.username);
    AgreeIffOnAccount(s, AfterFailedDelete(s, uid, target, c), uid, target.username);
    FailedDeleteAgreesOn(s, uid, target, c);
  }

  lemma FailedDeleteIsOnlyFor(s: State, uid: string, target: User, c: Calls)
    requires uid in s.users && s.users[uid].username == target.username
    ensures OnlyFor(uid, target.username, s, AfterFailedDelete(s, uid, target, c))
  {
    KeysPutBack(s.keys, uid, c.lostKeys);
  }

  lemma FailedDeleteAgreesOn(s: State, uid: string, target: User, c: Calls)
    requires uid in s.users && AgreeOn(s, uid, target.username)
    ensures AgreeOn(AfterFailedDelete(s, uid, target, c), uid, target.username) <==>
            || !On(s, uid)
            || (if !c.write then c.undoPush
                else if !c.undoCreate then true
                else if c.undoAccess then c.undoPush && Lines(KeysOf(s.keys, uid) - c.lostKeys) == Lines(KeysOf(s.keys, uid))
                else !c.undoPush)
  {
    KeysPutBack(s.keys, uid, c.lostKeys);
  }

  /** The rollback of a creation runs without the SSH lock; it keeps the two sides in agreement exactly when the new account has not been enabled meanwhile. */
  lemma UnlockedRollback(s: State, uid: string)
    requires RowsOk(s) && Agree(s) && uid in s.users
    ensures Agree(State(s.users - {uid}, s.access - {uid}, Cascaded(s.keys, uid), s.host)) <==> !On(s, uid)
  {
    var name, t := s.users[uid].username, State(s.users - {uid}, s.access - {uid}, Cascaded(s.keys, uid), s.host);
    KeysPutBack(s.keys, uid, {});
    AgreeIffOnAccount(s, s, uid, name);
    assert OnlyFor(uid, name, s, t);
    AgreeIffOnAccount(s, t, uid, name);
  }

  // ----- The handlers -----

  datatype Outcome = Done | Rejected | Failed

  /** Which of the calls a handler makes would succeed; the `undo` ones are its compensating writes, `lostKeys` the keys whose re-insert fails. */
  datatype Calls = Calls(
    readAccess: bool, readKeys: bool, write: bool, push: bool, hostDelete: bool,
    rereadAccess: bool, rereadKeys: bool,
    setRole: bool,
    undoWrite: bool, undoCreate: bool, undoAccess: bool, undoPush: bool, lostKeys: set<string>)
  {
    predicate Compensates() { undoWrite && undoAccess && undoPush && lostKeys == {} }
  }

  datatype Request =
    | Set(uid: string, name: string, enabled: bool, asked: bool)
    | Add(name: string, key: Key)
    | Drop(uid: string, name: string, id: string)
    | Delete(actor: string, uid: string, target: User, admins: nat)
    | Create(uid: string, user: User)

  /** The session or row a request was made from names the account as it was created. */
  ghost predicate Names(nameOf: string -> string, q: Request) {
    match q
    case Set(uid, name, _, _) => name == nameOf(uid)
    case Add(name, k) => name == nameOf(k.userID)
    case Drop(uid, name, _) => name == nameOf(uid)
    case Delete(_, uid, target, _) => target.username == nameOf(uid)
    case Create(uid, u) => u.username == nameOf(uid)
  }

  ghost predicate NamedRight(users: map<string, User>, q: Request) {
    match q
    case Set(uid, name, _, _) => uid in users ==> users[uid].username == name
    case Add(name, k) => k.userID in users ==> users[k.userID].username == name
    case Drop(uid, name, _) => uid in users ==> users[uid].username == name
    case Delete(_, uid, target, _) => uid in users ==> users[uid].username == target.username
    case Create(_, _) => true
  }

  /** What the account asked about the password when it was last set, if it ever was. */
  ghost function LastSet(requests: seq<(Request, Calls)>, rs: seq<Outcome>, uid: string): Option<bool>
    requires |requests| == |rs|
  {
    if requests == [] then None
    else
      var n := |requests| - 1;
      var q := requests[n].0;
      if q.Set? && q.uid == uid && rs[n].Done? then Some(q.asked) else LastSet(requests[..n], rs[..n], uid)
  }

  ghost predicate FlagIs(hosted: bool, requests: seq<(Request, Calls)>, rs: seq<Outcome>, uid: string, was: Access, now: Access)
    requires |requests| == |rs|
  {
    now.requirePassword == match LastSet(requests, rs, uid)
                           case None => was.requirePassword
                           case Some(asked) => !hosted || asked
  }

  /** One more request moves every enabled account's flag as it should. */
  lemma FlagMoves(hosted: bool, requests: seq<(Request, Calls)>, rs: seq<Outcome>, i: nat, r: Outcome, uid: string,
                  was: Access, before: Access, now: Access)
    requires i < |requests| && |rs| == i
    requires var q := requests[i].0;
             now == if q.Set? && q.uid == uid && r.Done? then Access(q.enabled, !hosted || q.asked) else before
    requires now == before ==> FlagIs(hosted, requests[..i], rs, uid, was, before)
    ensures FlagIs(hosted, requests[..i + 1], rs + [r], uid, was, now)
  {
    assert requests[..i + 1][..i] == requests[..i] && (rs + [r])[..i] == rs;
  }

  ghost predicate Fresh(s: State, uid: string, u: User) {
    uid !in s.users && u.username != "" && forall v :: v in s.users ==> s.users[v].username != u.username
  }

  ghost predicate ReadyFor(hosted: bool, s: State, uid: string, name: string) {
    && s.access.Keys <= s.users.Keys
    && (uid in s.users ==> AccountOk(hosted, s, uid, name))
    && (forall k :: k in s.keys ==> s.keys[k].id == k)
  }

  lemma InvIsReady(hosted: bool, s: State, uid: string, name: string)
    requires Inv(hosted, s) && (uid in s.users ==> s.users[uid].username == name)
    ensures ReadyFor(hosted, s, uid, name)
  {
    if uid in s.users && !On(s, uid) { OffHasNoEntry(s, uid); }
  }

  lemma SetKeepsInv(hosted: bool, s: State, t: State, uid: string, enabled: bool, asked: bool, done: bool)
    requires Inv(hosted, s)
    requires done ==> && uid in s.users && !(enabled && hosted && KeysOf(s.keys, uid) == map[])
                      && t == WithAccess(s, uid, Access(enabled, EffectiveRequirePassword(hosted, asked)))
    requires !done ==> Same(s, t)
    ensures Inv(hosted, t)
  {
    if done { WithAccessKeepsInv(hosted, s, uid, Access(enabled, EffectiveRequirePassword(hosted, asked))); }
    else { SameKeepsInv(hosted, s, t); }
  }

  lemma AddKeepsInv(hosted: bool, s: State, t: State, k: Key, done: bool)
    requires Inv(hosted, s)
    requires done ==> && k.userID in s.users && CanAdd(s.keys, k)
                      && t == WithKeys(s, k.userID, s.keys[k.id := k])
    requires !done ==> Same(s, t)
    ensures Inv(hosted, t)
  {
    if done {
      AddedKey(s, k);
      WithKeysKeepsInv(hosted, s, k.userID, s.keys[k.id := k]);
    } else {
      SameKeepsInv(hosted, s, t);
    }
  }

  lemma DropKeepsInv(hosted: bool, s: State, t: State, uid: string, id: string, done: bool)
    requires Inv(hosted, s)
    requires done ==> && uid in s.users && id in s.keys && s.keys[id].userID == uid
                      && !(AccessFor(s.access, uid).enabled && hosted && KeysOf(s.keys, uid).Keys == {id})
                      && t == WithKeys(s, uid, s.keys - {id})
    requires !done ==> Same(s, t)
    ensures Inv(hosted, t)
  {
    if done {
      RemovedKey(s, uid, id);
      if On(s, uid) && hosted {
        StillHasFactor(s.keys, uid, id);
        HasLines(KeysOf(s.keys - {id}, uid));
      }
      WithKeysKeepsInv(hosted, s, uid, s.keys - {id});
    } else {
      SameKeepsInv(hosted, s, t);
    }
  }

  lemma DeleteKeepsInv(hosted: bool, s: State, t: State, uid: string, target: User)
    requires Inv(hosted, s) && (uid in s.users ==> s.users[uid].username == target.username)
    requires || Same(s, t)
             || (uid in s.users && Same(WithUser(s, uid, target), t))
             || (uid in s.users && t == Without(s, uid))
    ensures Inv(hosted, t)
  {
    if Same(s, t) {
      SameKeepsInv(hosted, s, t);
    } else if t == Without(s, uid) {
      WithoutKeepsInv(hosted, s, uid);
    } else {
      RoleKeepsInv(hosted, s, uid, target);
      SameKeepsInv(hosted, WithUser(s, uid, target), t);
    }
  }

  lemma RoleKeepsInv(hosted: bool, s: State, uid: string, target: User)
    requires Inv(hosted, s) && uid in s.users && s.users[uid].username == target.username
    ensures Inv(hosted, WithUser(s, uid, target))
  {
    if !On(s, uid) { OffHasNoEntry(s, uid); }
    OneAccountChanges(hosted, s, WithUser(s, uid, target), uid, target.username);
  }

  lemma CreateKeepsInv(hosted: bool, s: State, t: State, uid: string, u: User)
    requires Inv(hosted, s)
    requires t == s || (Fresh(s, uid, u) && t == WithUser(s, uid, u))
    ensures Inv(hosted, t)
  {
    if t != s { WithUserKeepsInv(hosted, s, uid, u); }
  }

  class Box {
    const hosted: bool
    var users: map<string, User>
    var access: map<string, Access>
    var keys: map<string, Key>
    var host: map<string, HostEntry>
    /** How many requests the host turned down for want of any factor, or of a username. */
    ghost var refusals: nat

    ghost function View(): State
      reads this
    {
      State(users, access, keys, host)
    }

    constructor (hosted: bool)
      ensures this.hosted == hosted && View() == State(map[], map[], map[], map[]) && refusals == 0
      ensures Inv(hosted, View())
    {
      this.hosted := hosted;
      users, access, keys, host := map[], map[], map[], map[];
      refusals := 0;
    }

    // Store rows. A write for an account that is gone fails its foreign key.

    method SetAccessRow(uid: string, a: Access, up: bool) returns (ok: bool)
      modifies this`access
      ensures ok == (up && uid in users)
      ensures access == if ok then old(access)[uid := a] else old(access)
    {
      ok := up && uid in users;
      if ok { access := access[uid := a]; }
    }

    method AddKeyRow(k: Key, up: bool) returns (ok: bool)
      modifies this`keys
      ensures ok == (up && k.userID in users && CanAdd(old(keys), k))
      ensures keys == if ok then old(keys)[k.id := k] else old(keys)
    {
      ok := up && k.userID in users && CanAdd(keys, k);
      if ok { keys := keys[k.id := k]; }
    }

    method DeleteKeyRow(uid: string, id: string, up: bool) returns (ok: bool)
      modifies this`keys
      ensures ok == (up && id in old(keys) && old(keys)[id].userID == uid)
      ensures keys == if ok then old(keys) - {id} else old(keys)
    {
      ok := up && id in keys && keys[id].userID == uid;
      if ok { keys := keys - {id}; }
    }

    /** Deleting the user row cascades to the account's access and key rows. */
    method DeleteUserRow(uid: string, up: bool) returns (ok: bool)
      modifies this`users, this`access, this`keys
      ensures ok == (up && uid in old(users))
      ensures ok ==> users == old(users) - {uid} && access == old(access) - {uid}
      ensures ok ==> keys == Cascaded(old(keys), uid)
      ensures !ok ==> users == old(users) && access == old(access) && keys == old(keys)
    {
      ok := up && uid in users;
      if ok {
        users, access := users - {uid}, access - {uid};
        keys := Cascaded(keys, uid);
      }
    }

    /** One full-state push, with the host agent's own check at the far end. */
    method ApplySSH(username: string, enabled: bool, requirePassword: bool, lines: set<string>, up: bool) returns (ok: bool)
      modifies this`host, this`refusals
      ensures ok == (up && Accepts(username, enabled, requirePassword, lines))
      ensures host == if ok then Pushed(old(host), username, enabled, HostEntry(lines, requirePassword)) else old(host)
      ensures Accepts(username, enabled, requirePassword, lines) ==> refusals == old(refusals)
      ensures username == "" || (enabled && lines == {} && !requirePassword) ==> !ok && host == old(host)
    {
      ok := false;
      if !up { return; }
      if username == "" || (enabled && |lines| == 0 && !requirePassword) {
        refusals := refusals + 1;
        return;
      }
      if enabled {
        host := host[username := HostEntry(lines, requirePassword)];
      } else {
        host := host - {username};
      }
      ok := true;
    }

    /** What a handler may rely on about the account it is asked to act on. */
    ghost predicate Ready(uid: string, name: string)
      reads this
    {
      ReadyFor(hosted, View(), uid, name)
    }

    /** Turns an account's SSH on or off: row first, then the push, and the old row again when the push fails. */
    method SetMySSH(uid: string, name: string, enabled: bool, asked: bool, c: Calls) returns (r: Outcome)
      requires Ready(uid, name)
      modifies this`access, this`host, this`refusals
      ensures r.Done? <==> && uid in users && c.readKeys && c.readAccess && c.write && c.push
                           && !(enabled && hosted && KeysOf(keys, uid) == map[])
      ensures r.Done? ==>
                View() == WithAccess(old(View()), uid, Access(enabled, EffectiveRequirePassword(hosted, asked)))
      ensures r.Done? && enabled ==>
                && uid in access && access[uid] == Access(true, !hosted || asked)
                && name in host && host[name] == HostEntry(Lines(KeysOf(keys, uid)), !hosted || asked)
      ensures r.Done? && !enabled ==> uid in access && !access[uid].enabled && name !in host
      ensures !r.Done? && c.undoWrite ==> Same(old(View()), View())
      ensures !r.Done? && !c.undoWrite ==>
                || View() == old(View())
                || View() == old(View()).(access :=
                     old(access)[uid := Access(enabled, EffectiveRequirePassword(hosted, asked))])
      ensures refusals == old(refusals)
    {
      var requirePassword := EffectiveRequirePassword(hosted, asked);
      if !c.readKeys { return Failed; }
      var mine := KeysOf(keys, uid);
      if enabled && hosted && |mine| == 0 { return Rejected; }
      if !c.readAccess { return Failed; }
      var prev := AccessFor(access, uid);
      var ok := SetAccessRow(uid, Access(enabled, requirePassword), c.write);
      if !ok { return Failed; }
      HasLines(mine);
      ok := ApplySSH(name, enabled, requirePassword, Lines(mine), c.push);
      if !ok {
        ok := SetAccessRow(uid, prev, c.undoWrite);
        return Failed;
      }
      return Done;
    }

    method SyncIfEnabled(uid: string, name: string, c: Calls) returns (ok: bool)
      requires AccessFor(access, uid).enabled ==>
                 Accepts(name, true, AccessFor(access, uid).requirePassword, Lines(KeysOf(keys, uid)))
      modifies this`host, this`refusals
      ensures var a := AccessFor(access, uid);
              && (ok <==> c.rereadAccess && (a.enabled ==> c.rereadKeys && c.push))
              && host == (if ok && a.enabled
                          then old(host)[name := HostEntry(Lines(KeysOf(keys, uid)), a.requirePassword)] else old(host))
      ensures refusals == old(refusals)
    {
      if !c.rereadAccess { return false; }
      var a := AccessFor(access, uid);
      if !a.enabled { return true; }
      if !c.rereadKeys { return false; }
      ok := ApplySSH(name, a.enabled, a.requirePassword, Lines(KeysOf(keys, uid)), c.push);
    }

    /** Adds a key, within the cap, and takes it back when the push fails. */
    method AddMySSHKey(name: string, k: Key, c: Calls) returns (r: Outcome)
      requires Ready(k.userID, name)
      modifies this`keys, this`host, this`refusals
      ensures r.Done? <==> && c.readKeys && |KeysOf(old(keys), k.userID)| < MAX_KEYS
                           && c.write && k.userID in users && CanAdd(old(keys), k)
                           && c.rereadAccess && (AccessFor(access, k.userID).enabled ==> c.rereadKeys && c.push)
      ensures r.Done? ==> View() == WithKeys(old(View()), k.userID, old(keys)[k.id := k])
      ensures !r.Done? && c.Compensates() ==> Same(old(View()), View())
      ensures !r.Done? ==>
                var added := c.readKeys && |KeysOf(old(keys), k.userID)| < MAX_KEYS
                             && c.write && k.userID in users && CanAdd(old(keys), k);
                View() == if added && !c.undoWrite then old(View()).(keys := old(keys)[k.id := k]) else old(View())
      ensures refusals == old(refusals)
    {
      if !c.readKeys { return Failed; }
      var existing := KeysOf(keys, k.userID);
      if |existing| >= MAX_KEYS { return Rejected; }
      var ok := AddKeyRow(k, c.write);
      if !ok { return if c.write && k.userID in users then Rejected else Failed; }
      assert keys - {k.id} == old(keys);
      assert k.id in KeysOf(keys, k.userID);
      HasLines(KeysOf(keys, k.userID));
      ok := SyncIfEnabled(k.userID, name, c);
      if !ok {
        ok := DeleteKeyRow(k.userID, k.id, c.undoWrite);
        return Failed;
      }
      return Done;
    }

    /** Removes a key, except the last one of an enabled hosted account, and puts the row back when the push fails. */
    method DeleteMySSHKey(uid: string, name: string, id: string, c: Calls) returns (r: Outcome)
      requires Ready(uid, name)
      requires id in keys ==> keys[id].userID in users && CanAdd(keys - {id}, keys[id])
      modifies this`keys, this`host, this`refusals
      ensures r.Done? ==> uid in users && View() == WithKeys(old(View()), uid, old(keys) - {id})
      ensures r.Done? <==> && c.readAccess && c.readKeys && c.write
                           && id in old(keys) && old(keys)[id].userID == uid
                           && !(AccessFor(access, uid).enabled && hosted && KeysOf(old(keys), uid).Keys == {id})
                           && c.rereadAccess && (AccessFor(access, uid).enabled ==> c.rereadKeys && c.push)
      ensures !r.Done? && c.Compensates() ==> Same(old(View()), View())
      ensures !r.Done? ==>
                var dropped := c.readAccess && c.readKeys && c.write && id in old(keys) && old(keys)[id].userID == uid
                               && !(AccessFor(access, uid).enabled && hosted && KeysOf(old(keys), uid).Keys == {id});
                View() == if dropped && !c.undoWrite then old(View()).(keys := old(keys) - {id}) else old(View())
      ensures refusals == old(refusals)
    {
      if !c.readAccess { return Failed; }
      var a := AccessFor(access, uid);
      if !c.readKeys { return Failed; }
      var mine := KeysOf(keys, uid);
      if a.enabled && hosted && mine.Keys == {id} { return Rejected; }
      r := DropThenSync(uid, name, id, c);
    }

    /** The part of a key delete that changes anything: the row goes, the host hears of it, or the row comes back. */
    method DropThenSync(uid: string, name: string, id: string, c: Calls) returns (r: Outcome)
      requires Ready(uid, name)
      requires id in keys ==> keys[id].userID in users && CanAdd(keys - {id}, keys[id])
      requires !(AccessFor(access, uid).enabled && hosted && KeysOf(keys, uid).Keys == {id})
      modifies this`keys, this`host, this`refusals
      ensures r.Done? ==> uid in users && View() == WithKeys(old(View()), uid, old(keys) - {id})
      ensures r.Done? <==> && c.write && id in old(keys) && old(keys)[id].userID == uid
                           && c.rereadAccess && (AccessFor(access, uid).enabled ==> c.rereadKeys && c.push)
      ensures !r.Done? && c.Compensates() ==> Same(old(View()), View())
      ensures !r.Done? ==>
                var dropped := c.write && id in old(keys) && old(keys)[id].userID == uid;
                View() == if dropped && !c.undoWrite then old(View()).(keys := old(keys) - {id}) else old(View())
      ensures refusals == old(refusals)
    {
      var mine := KeysOf(keys, uid);
      var removed := if id in mine then [mine[id]] else [];
      if mine.Keys != {id} && id in mine { StillHasFactor(keys, uid, id); }
      var ok := DeleteKeyRow(uid, id, c.write);
      if !ok { return if c.write then Rejected else Failed; }
      assert keys[id := mine[id]] == old(keys);
      ok := SyncIfEnabled(uid, name, c);
      if !ok {
        if removed != [] { ok := AddKeyRow(removed[0], c.undoWrite); }
        return Failed;
      }
      return Done;
    }

    method RestoreSSH(username: string, a: Access, lines: set<string>, up: bool)
      requires a.enabled ==> Accepts(username, true, a.requirePassword, lines)
      modifies this`host, this`refusals
      ensures host == if a.enabled && up
                      then old(host)[username := HostEntry(lines, a.requirePassword)] else old(host)
      ensures refusals == old(refusals)
    {
      if !a.enabled { return; }
      var ok := ApplySSH(username, a.enabled, a.requirePassword, lines, up);
    }

    /** Re-inserts the rows a cascade took, each on its own; they fit because they all fitted before. */
    method RestoreKeys(rows: map<string, Key>, lost: set<string>)
      requires Fit(keys, rows) && forall k :: k in rows ==> rows[k].userID in users
      modifies this`keys
      ensures keys == old(keys) + (rows - lost)
    {
      var todo := rows;
      while todo != map[]
        invariant Fit(keys, todo) && forall k :: k in todo ==> todo[k].userID in users
        invariant keys + (todo - lost) == old(keys) + (rows - lost)
        decreases todo.Keys
      {
        var k :| k in todo;
        OneFits(keys, todo, k);
        OneRestored(keys, todo, k, lost);
        var ok := AddKeyRow(todo[k], k !in lost);
        todo := todo - {k};
      }
      assert todo - lost == map[];
    }

    method UndoDelete(uid: string, target: User, a: Access, rows: map<string, Key>, c: Calls)
      requires Fit(keys, rows) && forall k :: k in rows ==> rows[k].userID == uid
      requires a.enabled ==> Accepts(target.username, true, a.requirePassword, Lines(rows))
      modifies this
      ensures !c.undoCreate ==> View() == old(View())
      ensures c.undoCreate ==>
                && users == old(users)[uid := target]
                && access == (if c.undoAccess then old(access)[uid := a] else old(access))
                && keys == old(keys) + (rows - c.lostKeys)
                && host == (if a.enabled && c.undoPush
                            then old(host)[target.username := HostEntry(Lines(rows), a.requirePassword)] else old(host))
      ensures refusals == old(refusals)
    {
      if !c.undoCreate { return; }
      users := users[uid := target];
      var ok := SetAccessRow(uid, a, c.undoAccess);
      RestoreKeys(rows, c.lostKeys);
      RestoreSSH(target.username, a, Lines(rows), c.undoPush);
    }

    /**
     Deletes an account. The revoke comes first because the delete cascades away what it has
     to read, so every later failure owes a push that puts the account's SSH back.
     `target` is the user row as read before the lock was taken.
     */
    method DeleteUser(actor: string, uid: string, target: User, admins: nat, c: Calls) returns (r: Outcome)
      requires Ready(uid, target.username)
      requires Fit(Cascaded(keys, uid), KeysOf(keys, uid)) && Cascaded(keys, uid) + KeysOf(keys, uid) == keys
      modifies this
      ensures r.Done? <==> && actor != uid && !(target.role == "admin" && admins <= 1)
                           && uid in old(users) && c.readAccess && c.readKeys && c.write && c.hostDelete
                           && (AccessFor(old(access), uid).enabled ==> c.push)
      ensures r.Done? ==> View() == Without(old(View()), uid)
      ensures !r.Done? && c.Compensates() ==>
                || Same(old(View()), View())
                || (uid in old(users) && c.undoCreate && Same(WithUser(old(View()), uid, target), View()))
                || (uid in old(users) && !c.undoCreate && View() == Without(old(View()), uid))
      ensures !r.Done? ==>
                var revoked := && actor != uid && !(target.role == "admin" && admins <= 1) && c.readAccess && c.readKeys
                               && (AccessFor(old(access), uid).enabled ==> c.push);
                View() == if revoked then AfterFailedDelete(old(View()), uid, target, c) else old(View())
      ensures refusals == old(refusals)
    {
      if actor == uid { return Rejected; }
      if target.role == "admin" && admins <= 1 { return Rejected; }
      if !c.readAccess { return Failed; }
      if !c.readKeys { return Failed; }
      ghost var s := View();
      var ok := RevokeThenErase(uid, target, c);
      if !ok && c.Compensates() { CompensatedDelete(hosted, s, uid, target, c); }
      return if ok then Done else Failed;
    }

    /** The part of a delete that changes anything. */
    method RevokeThenErase(uid: string, target: User, c: Calls) returns (ok: bool)
      requires Ready(uid, target.username)
      requires Fit(Cascaded(keys, uid), KeysOf(keys, uid)) && Cascaded(keys, uid) + KeysOf(keys, uid) == keys
      modifies this
      ensures ok <==> uid in old(users) && c.write && c.hostDelete && (AccessFor(old(access), uid).enabled ==> c.push)
      ensures ok ==> View() == Without(old(View()), uid)
      ensures !ok ==> View() == if AccessFor(old(access), uid).enabled && !c.push then old(View())
                                else AfterFailedDelete(old(View()), uid, target, c)
      ensures refusals == old(refusals)
    {
      var a, mine := AccessFor(access, uid), KeysOf(keys, uid);
      HasLines(mine);
      if a.enabled {
        var pushed := ApplySSH(target.username, false, false, {}, c.push);
        if !pushed { return false; }
      }
      ok := Erase(uid, target, a, mine, c);
    }

    /** The second half of a delete: the rows, the host account, and the way back when either fails. */
    method Erase(uid: string, target: User, a: Access, rows: map<string, Key>, c: Calls) returns (ok: bool)
      requires rows == KeysOf(keys, uid) && Fit(Cascaded(keys, uid), rows)
      requires a.enabled ==> Accepts(target.username, true, a.requirePassword, Lines(rows))
      modifies this
      ensures var gone := uid in old(users) && c.write;
              var back := if a.enabled && c.undoPush
                          then old(host)[target.username := HostEntry(Lines(rows), a.requirePassword)] else old(host);
              && (ok <==> gone && c.hostDelete)
              && (ok || (gone && !c.undoCreate) ==>
                    View() == State(old(users) - {uid}, old(access) - {uid}, Cascaded(old(keys), uid), old(host)))
              && (!ok && !gone ==> View() == old(View()).(host := back))
              && (!ok && gone && c.undoCreate ==>
                    View() == State((old(users) - {uid})[uid := target],
                                    if c.undoAccess then (old(access) - {uid})[uid := a] else old(access) - {uid},
                                    Cascaded(old(keys), uid) + (rows - c.lostKeys), back))
      ensures refusals == old(refusals)
    {
      ok := DeleteUserRow(uid, c.write);
      if !ok {
        RestoreSSH(target.username, a, Lines(rows), c.undoPush);
        return false;
      }
      if !c.hostDelete {
        UndoDelete(uid, target, a, rows, c);
        return false;
      }
    }

    /** Creates an account; it has no SSH rows yet, so the host's SSH state is not touched. */
    method CreateUser(uid: string, u: User, c: Calls) returns (r: Outcome)
      requires uid !in users ==> uid !in access && Cascaded(keys, uid) == keys
      modifies this`users, this`access, this`keys
      ensures r.Done? <==> && u.username != "" && uid !in old(users) && c.write && c.push && c.setRole
                           && (forall v :: v in old(users) ==> old(users)[v].username != u.username)
      ensures r.Done? ==> View() == WithUser(old(View()), uid, u)
      ensures !r.Done? ==>
                || View() == old(View())
                || (!c.undoWrite && Fresh(old(View()), uid, u) && View() == WithUser(old(View()), uid, u))
    {
      if u.username == "" { return Rejected; }
      if uid in users || exists v :: v in users && users[v].username == u.username { return Rejected; }
      if !c.write { return Failed; }
      users := users[uid := u];
      if !c.push || !c.setRole {
        var ok := DeleteUserRow(uid, c.undoWrite);
        assert old(access) - {uid} == old(access);
        assert old(users)[uid := u] - {uid} == old(users);
        return Failed;
      }
      return Done;
    }

    /** One request of any kind keeps the invariant when its compensations succeed. */
    method Handle(q: Request, c: Calls) returns (r: Outcome)
      requires Inv(hosted, View()) && NamedRight(users, q)
      requires Capped(keys)
      modifies this
      ensures c.Compensates() ==> Inv(hosted, View())
      ensures c.Compensates() ==> forall u :: On(View(), u) ==>
                AccessFor(access, u) == if q.Set? && q.uid == u && r.Done? then Access(q.enabled, !hosted || q.asked)
                                        else AccessFor(old(access), u)
      ensures c.Compensates() ==> Capped(keys)
      ensures refusals == old(refusals)
      ensures c.Compensates() ==> forall u :: u in users ==>
                if u in old(users) then users[u].username == old(users)[u].username
                else q.Create? && u == q.uid && users[u].username == q.user.username
    {
      match q {
        case Delete(actor, uid, target, admins) => r := HandleDelete(actor, uid, target, admins, c);
        case Create(uid, u) => r := HandleCreate(uid, u, c);
        case _ => r := HandleSSH(q, c);
      }
    }

    method HandleSSH(q: Request, c: Calls) returns (r: Outcome)
      requires Inv(hosted, View()) && NamedRight(users, q) && (q.Set? || q.Add? || q.Drop?)
      requires Capped(keys)
      modifies this`access, this`keys, this`host, this`refusals
      ensures c.Compensates() ==> Inv(hosted, View())
      ensures c.Compensates() ==> forall u :: On(View(), u) ==>
                AccessFor(access, u) == if q.Set? && q.uid == u && r.Done? then Access(q.enabled, !hosted || q.asked)
                                        else AccessFor(old(access), u)
      ensures c.Compensates() ==> Capped(keys)
      ensures refusals == old(refusals)
    {
      ghost var s := View();
      match q
      case Set(uid, name, enabled, asked) =>
        InvIsReady(hosted, s, uid, name);
        r := SetMySSH(uid, name, enabled, asked, c);
        if c.Compensates() { SetKeepsInv(hosted, s, View(), uid, enabled, asked, r.Done?); }
      case Add(name, k) =>
        InvIsReady(hosted, s, k.userID, name);
        r := AddMySSHKey(name, k, c);
        if c.Compensates() {
          AddKeepsInv(hosted, s, View(), k, r.Done?);
          if r.Done? { AddKeepsCap(s.keys, k); }
        }
      case Drop(uid, name, id) =>
        InvIsReady(hosted, s, uid, name);
        if id in keys { RemovedKey(s, keys[id].userID, id); }
        r := DeleteMySSHKey(uid, name, id, c);
        if c.Compensates() {
          DropKeepsInv(hosted, s, View(), uid, id, r.Done?);
          FewerKeepsCap(s.keys, keys);
        }
    }

    method HandleDelete(actor: string, uid: string, target: User, admins: nat, c: Calls) returns (r: Outcome)
      requires Inv(hosted, View()) && Capped(keys) && (uid in users ==> users[uid].username == target.username)
      modifies this
      ensures c.Compensates() ==> Inv(hosted, View()) && Capped(keys)
      ensures c.Compensates() ==> forall u :: On(View(), u) ==> AccessFor(access, u) == AccessFor(old(access), u)
      ensures c.Compensates() ==> forall u :: u in users ==> u in old(users) && users[u].username == old(users)[u].username
      ensures refusals == old(refusals)
    {
      ghost var s := View();
      InvIsReady(hosted, s, uid, target.username);
      CascadeUndone(s, uid);
      r := DeleteUser(actor, uid, target, admins, c);
      if c.Compensates() {
        DeleteKeepsInv(hosted, s, View(), uid, target);
        FewerKeepsCap(s.keys, keys);
      }
    }

    method HandleCreate(uid: string, u: User, c: Calls) returns (r: Outcome)
      requires Inv(hosted, View())
      modifies this`users, this`access, this`keys
      ensures Inv(hosted, View()) && keys == old(keys) && access == old(access)
      ensures forall v :: v in users ==>
                if v in old(users) then users[v].username == old(users)[v].username
                else v == uid && users[v].username == u.username
    {
      ghost var s := View();
      assert uid !in users ==> Cascaded(keys, uid) == keys;
      r := CreateUser(uid, u, c);
      CreateKeepsInv(hosted, s, View(), uid, u);
    }

    /**
     Every sequence of requests, with failures of reads, writes and host calls anywhere: when
     each request's compensating writes succeed, the two sides agree after every one of them,
     every enabled account has its mandatory factor, holds at most ten keys, and the host
     never turns a request down. What the host asks of an enabled account is the password on
     an appliance, and on a hosted box what the account asked for when it was last set.
     `nameOf` gives the name an account id was created with; a request may come from an
     account that is already gone.
     */
    method Serve(requests: seq<(Request, Calls)>, ghost nameOf: string -> string) returns (rs: seq<Outcome>)
      requires Inv(hosted, View()) && forall u :: u in users ==> users[u].username == nameOf(u)
      requires forall i :: 0 <= i < |requests| ==> requests[i].1.Compensates() && Names(nameOf, requests[i].0)
      requires Capped(keys)
      modifies this
      ensures Inv(hosted, View()) && refusals == old(refusals) && Capped(keys)
      ensures |rs| == |requests|
      ensures forall u :: On(View(), u) ==>
                && users[u].username in host
                && host[users[u].username].requirePassword ==
                   match LastSet(requests, rs, u)
                   case None => AccessFor(old(access), u).requirePassword
                   case Some(asked) => !hosted || asked
    {
      rs := [];
      for i := 0 to |requests|
        invariant |rs| == i
        invariant Inv(hosted, View()) && refusals == old(refusals) && Capped(keys)
        invariant forall u :: u in users ==> users[u].username == nameOf(u)
        invariant forall u :: On(View(), u) ==> FlagIs(hosted, requests[..i], rs, u, AccessFor(old(access), u), AccessFor(access, u))
      {
        ghost var before, rs0 := View(), rs;
        var r := Handle(requests[i].0, requests[i].1);
        rs := rs + [r];
        forall u | On(View(), u)
          ensures FlagIs(hosted, requests[..i + 1], rs, u, AccessFor(old(access), u), AccessFor(access, u))
        {
          assert AccessFor(access, u) == AccessFor(before.access, u) ==> On(before, u);
          FlagMoves(hosted, requests, rs0, i, r, u, AccessFor(old(access), u), AccessFor(before.access, u), AccessFor(access, u));
        }
      }
      assert requests[..|requests|] == requests;
    }
  }
}
