/** Failures leave nothing half done: a store operation takes effect on the account row and its bindings together or
    not at all, and an answer other than 0 leaves every account record as it was. */
module Atomicity {
  import opened Text
  import opened RoleClient
  import opened Store
  import opened Schema
  import opened Handlers

  // ---------- store operations under a failure at any statement ----------

  /** A create that reports success has added exactly one row and its bindings; otherwise nothing has changed. */
  lemma CreateAllOrNothing(db: Db, draw: Draw, username: string, hash: string, status: string, roleIds: seq<string>,
                           failAt: nat)
    requires SchemaOk(db) && |draw.ranks| == |roleIds|
    ensures var (db', reply) := SqlCreate(db, draw, username, hash, status, roleIds, failAt);
      if reply.Stored? then
        && draw.id !in db.rows && db'.rows == db.rows[draw.id := Row(reply.account, false, None)]
        && reply.account == Account(draw.id, username, hash, status, false, draw.now, draw.now)
        && BindingsOf(db'.bindings, draw.id) == NewBindings(draw.id, roleIds, draw.ranks)
        && (forall other | other != draw.id :: BindingsOf(db'.bindings, other) == BindingsOf(db.bindings, other))
      else reply == StoreError && db' == db
  {
    if draw.id !in db.rows {
      var row := Row(Account(draw.id, username, hash, status, false, draw.now, draw.now), false, None);
      ReplaceRolesEffect(db.(rows := db.rows[draw.id := row]), draw.id, roleIds, draw.ranks, failAt, 2);
    }
  }

  /** An update changes status, time and bindings of one account together, or nothing. */
  lemma UpdateAllOrNothing(db: Db, id: string, status: string, roleIds: seq<string>, draw: Draw, failAt: nat)
    requires SchemaOk(db) && |draw.ranks| == |roleIds|
    ensures var (db', reply) := SqlUpdate(db, id, status, roleIds, draw, failAt);
      if reply.Stored? then
        && id in db.rows && reply.account == db.rows[id].account.(status := status, updatedAt := draw.now)
        && db'.rows == db.rows[id := db.rows[id].(account := reply.account)]
        && BindingsOf(db'.bindings, id) == NewBindings(id, roleIds, draw.ranks)
        && (forall other | other != id :: BindingsOf(db'.bindings, other) == BindingsOf(db.bindings, other))
      else db' == db && (reply == Absent ==> id !in db.rows)
  {
    if id in db.rows {
      var row := db.rows[id].(account := db.rows[id].account.(status := status, updatedAt := draw.now));
      ReplaceRolesEffect(db.(rows := db.rows[id := row]), id, roleIds, draw.ranks, failAt, 2);
    }
  }

  /** A delete removes the row and every binding of the account, or nothing. */
  lemma DeleteAllOrNothing(db: Db, rawId: string, failAt: nat)
    requires SchemaOk(db)
    ensures var (db', reply) := SqlDelete(db, rawId, failAt);
      var id := TrimSpace(rawId);
      if reply.Deleted? then
        && id in db.rows && db'.rows == db.rows - {id} && BindingsOf(db'.bindings, id) == []
        && (forall other | other != id :: BindingsOf(db'.bindings, other) == BindingsOf(db.bindings, other))
      else db' == db && (reply.NothingDeleted? ==> id !in db.rows)
  {
    forall other ensures BindingsOf(Without(db.bindings, TrimSpace(rawId)), other)
      == if other == TrimSpace(rawId) then [] else BindingsOf(db.bindings, other)
    {
      WithoutOthers(db.bindings, TrimSpace(rawId), other);
    }
  }

  // ---------- reads ----------

  /** The rows stay, and no account gains a binding. */
  ghost predicate OnlyShrunk(db: Db, db': Db) {
    && db'.rows == db.rows && db'.oneRolePerAccount == db.oneRolePerAccount
    && (forall b | b in db'.bindings :: b in db.bindings)
    && (forall id :: Bound(db'.bindings, id) <= Bound(db.bindings, id))
    && (SchemaOk(db) ==> SchemaOk(db'))
  }

  ghost predicate KeysAreIds(accounts: map<string, Account>) {
    forall id | id in accounts :: accounts[id].id == id
  }

  /** Several roles have given way to one of them, without the white space around it; in the tables to none if that text
      is not one of them. */
  ghost predicate Reduced(before: seq<string>, after: seq<string>, inTables: bool) {
    |before| > 1 && exists r | r in before ::
      TrimSpace(r) != "" && after == if inTables && TrimSpace(r) !in before then [] else [TrimSpace(r)]
  }

  ghost predicate ListCompacted(store: Store, store': Store, id: string) {
    StoredRoles(store', id) == StoredRoles(store, id)
    || Reduced(StoredRoles(store, id), StoredRoles(store', id), store.Sql?)
  }

  /** The constraints of the tables; in memory, keys that are record IDs. */
  ghost predicate ConstraintsOk(store: Store) {
    match store
    case Sql(db) => SchemaOk(db)
    case Mem(m) => KeysAreIds(m.accounts)
  }

  ghost predicate RecordsKept(store: Store, store': Store) {
    match (store, store')
    case (Sql(db), Sql(db')) => OnlyShrunk(db, db')
    case (Mem(m), Mem(m')) => m'.accounts == m.accounts
    case (_, _) => false
  }

  /** All that a read may do: the account records stay, and every role list is as it was or compacted. */
  ghost predicate OnlyCompacted(store: Store, store': Store) {
    RecordsKept(store, store') && (ConstraintsOk(store) ==> forall id :: ListCompacted(store, store', id))
  }

  lemma ListCompactedTransitive(a: Store, b: Store, c: Store, id: string)
    requires a.Sql? == b.Sql? && ListCompacted(a, b, id) && ListCompacted(b, c, id)
    ensures ListCompacted(a, c, id)
  {
  }

  lemma OnlyCompactedTransitive(a: Store, b: Store, c: Store)
    requires OnlyCompacted(a, b) && OnlyCompacted(b, c)
    ensures OnlyCompacted(a, c)
  {
    if ConstraintsOk(a) {
      forall id ensures ListCompacted(a, c, id) {
        ListCompactedTransitive(a, b, c, id);
      }
    }
  }

  /** What one lookup in memory does to the role lists. */
  lemma MemRolesCompacts(m: Memory, account: Account, dir: Directory)
    ensures OnlyCompacted(Mem(m), Mem(MemRoles(m, account, RolesIn(m.roles, account.id), dir).0))
  {
    var stored := RolesIn(m.roles, account.id);
    var m' := MemRoles(m, account, stored, dir).0;
    ChoiceReduces(dir, stored, false);
    forall id ensures ListCompacted(Mem(m), Mem(m'), id) {
    }
  }

  /** The role to compact to is the trimmed text of one of several. */
  lemma ChoiceReduces(dir: Directory, stored: seq<string>, inTables: bool)
    ensures var choice := Choose(dir, stored);
      choice.CompactTo? ==>
        Reduced(stored, if inTables && choice.roleId !in stored then [] else [choice.roleId], inTables)
  {
    var k := FirstEnabledMeaning(dir, stored);
    if Choose(dir, stored).CompactTo? {
      assert stored[k] in stored;
    }
  }

  lemma CompactionShrinks(db: Db, accountId: string, roleId: string)
    ensures OnlyShrunk(db, db.(bindings := KeepOnly(db.bindings, accountId, roleId)))
  {
    KeepOnlyMembers(db.bindings, accountId, roleId);
    forall id ensures Bound(KeepOnly(db.bindings, accountId, roleId), id) <= Bound(db.bindings, id) {
      KeepOnlyShrinks(db.bindings, accountId, roleId, id);
    }
    if SchemaOk(db) {
      KeepOnlyOk(db.bindings, accountId, roleId, db.rows.Keys, db.oneRolePerAccount);
    }
  }

  lemma KeepOnlyCompacts(db: Db, accountId: string, dir: Directory, roleId: string)
    requires Choose(dir, RolesOf(db.bindings, accountId)) == CompactTo(roleId)
    ensures OnlyCompacted(Sql(db), Sql(db.(bindings := KeepOnly(db.bindings, accountId, roleId))))
  {
    var db' := db.(bindings := KeepOnly(db.bindings, accountId, roleId));
    CompactionShrinks(db, accountId, roleId);
    if SchemaOk(db) {
      ChoiceReduces(dir, RolesOf(db.bindings, accountId), true);
      KeepOnlyOwn(db.bindings, accountId, roleId, db.oneRolePerAccount);
      forall id ensures ListCompacted(Sql(db), Sql(db'), id) {
        if id != accountId { KeepOnlyOthers(db.bindings, accountId, roleId, id); }
      }
    }
  }

  lemma SqlRolesCompacts(db: Db, account: Account, dir: Directory, fault: nat)
    ensures OnlyCompacted(Sql(db), Sql(SqlRoles(db, account, dir, fault).0))
  {
    var choice := Choose(dir, RolesOf(db.bindings, account.id));
    UntouchedIsCompacted(Sql(db));
    if choice.CompactTo? { KeepOnlyCompacts(db, account.id, dir, choice.roleId); }
    assert SqlRoles(db, account, dir, fault).0 == db
        || SqlRoles(db, account, dir, fault).0 == db.(bindings := KeepOnly(db.bindings, account.id, choice.roleId));
  }

  lemma GetByIdCompacts(store: Store, id: string, dir: Directory, fault: nat)
    ensures OnlyCompacted(store, GetById(store, id, dir, fault).0)
  {
    if store.Sql? && TrimSpace(id) in store.db.rows {
      SqlRolesCompacts(store.db, store.db.rows[TrimSpace(id)].account, dir, fault);
    }
    if store.Mem? && TrimSpace(id) in store.memory.accounts && KeysAreIds(store.memory.accounts) {
      MemRolesCompacts(store.memory, store.memory.accounts[TrimSpace(id)], dir);
    }
  }

  lemma ByKeyCompacts(store: Store, key: Option<string>, dir: Directory, fault: nat)
    requires key.Some? ==> key.value in AccountsOf(store)
    ensures OnlyCompacted(store, GetByKey(store, key, dir, fault).0)
  {
    if key.Some? {
      match store
      case Sql(db) => SqlRolesCompacts(db, db.rows[key.value].account, dir, fault);
      case Mem(m) => MemRolesCompacts(m, m.accounts[key.value], dir);
    }
  }

  lemma GetByNameCompacts(store: Store, username: string, dir: Directory, fault: nat)
    ensures OnlyCompacted(store, GetByName(store, username, dir, fault).0)
  {
    ByKeyCompacts(store, KeyOfName(AccountsOf(store), username), dir, fault);
  }

  lemma LoginAtCompacts(store: Store, key: Option<string>, rawAccount: string, password: string, dir: Directory,
                        draw: LoginDraw)
    requires key.Some? ==> key.value in AccountsOf(store)
    ensures OnlyCompacted(store, LoginAt(store, key, rawAccount, password, dir, draw).0)
  {
    ByKeyCompacts(store, key, dir, draw.nameFault);
  }

  lemma ByProjectCompacts(store: Store, token: string, env: Env)
    ensures OnlyCompacted(store, ByProject(store, token, env).0)
  {
    var answer := env.project(TrimSpace(token));
    if answer.FromHook? {
      GetByIdCompacts(store, TrimSpace(answer.hookId), env.dir, env.projectFault);
    } else if answer.FromTable? {
      GetByIdCompacts(store, answer.tableId, env.dir, env.projectFault);
    }
  }

  lemma ByAnyTokenCompacts(store: Store, token: string, env: Env)
    ensures OnlyCompacted(store, ByAnyToken(store, token, env).0)
  {
    var (store', _) := ByRedis(store, token, env);
    var answer := env.redis(TrimSpace(token));
    if answer.SessionOf? {
      GetByIdCompacts(store, answer.accountId, env.dir, env.redisFault);
    }
    assert OnlyCompacted(store, store');
    ByProjectCompacts(store', token, env);
    OnlyCompactedTransitive(store, store', ByProject(store', token, env).0);
  }

  lemma ByHeadersCompacts(store: Store, env: Env)
    ensures OnlyCompacted(store, ByHeaders(store, env).0)
  {
    GetByIdCompacts(store, TrimSpace(env.headers.accountId), env.dir, env.headerFault);
    var first := TrimSpace(env.headers.adminSessionToken);
    var second := if first == "" then TrimSpace(env.headers.adminToken) else first;
    ByProjectCompacts(store, if second == "" then TrimSpace(TrimBearer(env.headers.authorization)) else second, env);
  }

  lemma GateCompacts(store: Store, token: string, env: Env, codes: Codes)
    ensures OnlyCompacted(store, RequireManage(store, token, env, codes).0)
  {
    var (store1, _) := ByAnyToken(store, token, env);
    ByAnyTokenCompacts(store, token, env);
    ByHeadersCompacts(store1, env);
    OnlyCompactedTransitive(store, store1, ByHeaders(store1, env).0);
  }

  // ---------- handlers ----------

  /** A permission check and a login never change an account record. */
  lemma ReadersOnlyCompact(store: Store, token: string, code: string, env: Env, password: string, draw: LoginDraw)
    ensures OnlyCompacted(store, CheckPermission(store, token, code, env).0)
    ensures OnlyCompacted(store, Me(store, token, env).0)
    ensures OnlyCompacted(store, Login(store, token, password, env.dir, draw).0)
  {
    ByAnyTokenCompacts(store, TrimSpace(token), env);
    LoginAtCompacts(store, KeyOfName(AccountsOf(store), TrimSpace(token)), token, password, env.dir, draw);
  }

  lemma CreateFailureOnlyCompacts(store: Store, req: CreateRequest, env: Env, w: WriteDraw)
    requires |w.draw.ranks| == 1
    ensures var (store', answer) := HandleCreate(store, req, env, w);
      answer.status != 0 ==> OnlyCompacted(store, store')
  {
    var (store1, gate) := RequireManage(store, req.token, env, CREATE_CODES);
    GateCompacts(store, req.token, env, CREATE_CODES);
    if gate.Admitted? {
      CreateAdmittedFailure(store1, req, env.dir, w);
      var (store2, answer) := CreateAdmitted(store1, req, env.dir, w);
      if answer.status != 0 { OnlyCompactedTransitive(store, store1, store2); }
    }
  }

  /** Where the create of an admitted operator ends: at a check, at the lookup of the name, or at the write. */
  lemma CreatePaths(store: Store, req: CreateRequest, dir: Directory, w: WriteDraw)
    requires |w.draw.ranks| == 1
    ensures var account, vetted, result :=
        TrimSpace(req.account), VetCreate(dir, req), CreateAdmitted(store, req, dir, w);
      var (looked, found) := GetByName(store, account, dir, w.lookupFault);
      && (vetted.Stop? ==> result.0 == store)
      && (vetted.Go? && !found.NoAccount? ==> result.0 == looked)
      && (vetted.Go? && found.NoAccount? ==>
            result == WriteCreate(looked, account, w.hash(req.password), vetted.status, vetted.roleId, w))
  {
  }

  lemma CreateAdmittedFailure(store: Store, req: CreateRequest, dir: Directory, w: WriteDraw)
    requires |w.draw.ranks| == 1
    ensures var (store', answer) := CreateAdmitted(store, req, dir, w);
      answer.status != 0 ==> OnlyCompacted(store, store')
  {
    var account, vetted := TrimSpace(req.account), VetCreate(dir, req);
    CreatePaths(store, req, dir, w);
    if vetted.Stop? {
      UntouchedIsCompacted(store);
    } else {
      GetByNameCompacts(store, account, dir, w.lookupFault);
      WriteCreateFailure(GetByName(store, account, dir, w.lookupFault).0, account, w.hash(req.password), vetted.status,
                         vetted.roleId, w);
    }
  }

  lemma UntouchedIsCompacted(store: Store)
    ensures OnlyCompacted(store, store)
  {
  }

  lemma WriteCreateFailure(store: Store, account: string, hash: string, status: string, roleId: string, w: WriteDraw)
    requires |w.draw.ranks| == 1
    ensures var (store', answer) := WriteCreate(store, account, hash, status, roleId, w);
      answer.status != 0 ==> store' == store
  {
  }

  lemma UpdateFailureOnlyCompacts(store: Store, req: UpdateRequest, env: Env, w: WriteDraw)
    requires |w.draw.ranks| == 1
    ensures var (store', answer) := HandleUpdate(store, req, env, w);
      answer.status != 0 ==> OnlyCompacted(store, store')
  {
    var (store1, gate) := RequireManage(store, req.token, env, UPDATE_CODES);
    GateCompacts(store, req.token, env, UPDATE_CODES);
    if gate.Admitted? {
      UpdateAdmittedFailure(store1, gate.operator, req, env.dir, w);
      var (store2, answer) := UpdateAdmitted(store1, gate.operator, req, env.dir, w);
      if answer.status != 0 { OnlyCompactedTransitive(store, store1, store2); }
    }
  }

  lemma UpdateAdmittedFailure(store: Store, operator: Account, req: UpdateRequest, dir: Directory, w: WriteDraw)
    requires |w.draw.ranks| == 1
    ensures var (store', answer) := UpdateAdmitted(store, operator, req, dir, w);
      answer.status != 0 ==> OnlyCompacted(store, store')
  {
    var vetted := VetUpdate(dir, req);
    GetByIdCompacts(store, req.accountId, dir, w.lookupFault);
    if vetted.Go? {
      WriteUpdateFailure(GetById(store, req.accountId, dir, w.lookupFault).0, req.accountId, vetted.status,
                         vetted.roleId, w);
    }
  }

  lemma WriteUpdateFailure(store: Store, accountId: string, status: string, roleId: string, w: WriteDraw)
    requires |w.draw.ranks| == 1
    ensures var (store', answer) := WriteUpdate(store, accountId, status, roleId, w);
      answer.status != 0 ==> store' == store
  {
  }

  lemma ResetFailureOnlyCompacts(store: Store, req: ResetRequest, env: Env, w: WriteDraw)
    ensures var (store', answer) := HandleReset(store, req, env, w);
      answer.status != 0 ==> OnlyCompacted(store, store')
  {
    var (store1, gate) := RequireManage(store, req.token, env, RESET_CODES);
    GateCompacts(store, req.token, env, RESET_CODES);
    if gate.Admitted? {
      ResetAdmittedFailure(store1, gate.operator, req, env.dir, w);
      var (store2, answer) := ResetAdmitted(store1, gate.operator, req, env.dir, w);
      if answer.status != 0 { OnlyCompactedTransitive(store, store1, store2); }
    }
  }

  lemma ResetAdmittedFailure(store: Store, operator: Account, req: ResetRequest, dir: Directory, w: WriteDraw)
    ensures var (store', answer) := ResetAdmitted(store, operator, req, dir, w);
      answer.status != 0 ==> OnlyCompacted(store, store')
  {
    GetByIdCompacts(store, req.accountId, dir, w.lookupFault);
  }

  lemma DeleteFailureOnlyCompacts(store: Store, req: DeleteRequest, env: Env, w: WriteDraw)
    ensures var (store', answer) := HandleDelete(store, req, env, w);
      answer.status != 0 ==> OnlyCompacted(store, store')
  {
    var (store1, gate) := RequireManage(store, req.token, env, DELETE_CODES);
    GateCompacts(store, req.token, env, DELETE_CODES);
    if gate.Admitted? {
      DeleteAdmittedFailure(store1, gate.operator, req, env.dir, w);
      var (store2, answer) := DeleteAdmitted(store1, gate.operator, req, env.dir, w);
      if answer.status != 0 { OnlyCompactedTransitive(store, store1, store2); }
    }
  }

  lemma DeleteAdmittedFailure(store: Store, operator: Account, req: DeleteRequest, dir: Directory, w: WriteDraw)
    ensures var (store', answer) := DeleteAdmitted(store, operator, req, dir, w);
      answer.status != 0 ==> OnlyCompacted(store, store')
  {
    GetByIdCompacts(store, TrimSpace(req.accountId), dir, w.lookupFault);
  }

  // ---------- names in memory mode ----------

  /** Memory mode has no constraint on names, yet a create request handled as one step keeps them unique. */
  lemma CreateKeepsNamesUnique(store: Store, req: CreateRequest, env: Env, w: WriteDraw)
    requires store.Mem? && |w.draw.ranks| == 1
    requires NamesUnique(AccountsOf(store)) && w.draw.id !in AccountsOf(store)
    ensures NamesUnique(AccountsOf(HandleCreate(store, req, env, w).0))
  {
    var (store1, gate) := RequireManage(store, req.token, env, CREATE_CODES);
    GateCompacts(store, req.token, env, CREATE_CODES);
    assert AccountsOf(store1) == AccountsOf(store);
    if gate.Admitted? {
      AdmittedKeepsNamesUnique(store1, req, env.dir, w);
    }
  }

  lemma AdmittedKeepsNamesUnique(store: Store, req: CreateRequest, dir: Directory, w: WriteDraw)
    requires store.Mem? && |w.draw.ranks| == 1
    requires NamesUnique(AccountsOf(store)) && w.draw.id !in AccountsOf(store)
    ensures NamesUnique(AccountsOf(CreateAdmitted(store, req, dir, w).0))
  {
    var account, vetted := TrimSpace(req.account), VetCreate(dir, req);
    var (looked, found) := GetByName(store, account, dir, w.lookupFault);
    CreatePaths(store, req, dir, w);
    if vetted.Go? {
      NameLookedUp(store, account, dir, w.lookupFault);
      if found.NoAccount? {
        NewNameKeepsNamesUnique(looked, account, w.hash(req.password), vetted.status, vetted.roleId, w);
      }
    }
  }

  lemma NameLookedUp(store: Store, account: string, dir: Directory, fault: nat)
    requires store.Mem?
    ensures var (store', found) := GetByName(store, account, dir, fault);
      && store'.Mem? && AccountsOf(store') == AccountsOf(store)
      && (found.NoAccount? ==> forall id | id in AccountsOf(store) :: AccountsOf(store)[id].username != account)
  {
    GetByNameCompacts(store, account, dir, fault);
  }

  lemma NewNameKeepsNamesUnique(store: Store, account: string, hash: string, status: string, roleId: string,
                                w: WriteDraw)
    requires store.Mem? && |w.draw.ranks| == 1
    requires NamesUnique(AccountsOf(store)) && w.draw.id !in AccountsOf(store)
    requires forall id | id in AccountsOf(store) :: AccountsOf(store)[id].username != account
    ensures NamesUnique(AccountsOf(WriteCreate(store, account, hash, status, roleId, w).0))
  {
  }
}
