/** What the answers of the write handlers mean for the store: any code but 0 changes no account record; 0 means that
    the named record was changed as asked and no other, and that the guard on super administrators held. */
module Outcomes {
  import opened Text
  import opened RoleClient
  import opened Store
  import opened Schema
  import opened Handlers
  import opened Atomicity
  import opened AnswerCodes

  /** The facts a store keeps: constraints, keys that are record IDs, and IDs without white space around them. */
  ghost predicate StoreOk(store: Store) {
    && (forall id | id in AccountsOf(store) :: Trimmed(id))
    && ConstraintsOk(store)
  }

  lemma CompactedIsOk(store: Store, store': Store)
    requires StoreOk(store) && OnlyCompacted(store, store')
    ensures StoreOk(store') && AccountsOf(store') == AccountsOf(store)
  {
  }

  /** Compactions before a write that touches one account's roles. */
  lemma CompactedBefore(store: Store, looked: Store, store': Store, id: string)
    requires StoreOk(store) && OnlyCompacted(store, looked) && OthersCompacted(looked, store', id)
    ensures OthersCompacted(store, store', id)
    ensures ListCompacted(looked, store', id) ==> ListCompacted(store, store', id)
  {
    forall other | ListCompacted(looked, store', other) ensures ListCompacted(store, store', other) {
      ListCompactedTransitive(store, looked, store', other);
    }
  }

  // ---------- lookups by a name that may not be unique ----------

  ghost predicate IsKeyOf(accounts: map<string, Account>, username: string, key: Option<string>) {
    match key
    case None => forall id | id in accounts :: accounts[id].username != username
    case Some(id) => id in accounts && accounts[id].username == username
  }

  /** With unique names there is one such key. */
  lemma KeyIsUnique(accounts: map<string, Account>, username: string, key: Option<string>)
    requires NamesUnique(accounts) && IsKeyOf(accounts, username, key)
    ensures key == KeyOfName(accounts, username)
  {
    var chosen := KeyOfName(accounts, username);
    assert key.Some? ==> chosen.Some? && accounts[chosen.value].username == accounts[key.value].username;
  }

  // ---------- logins ----------

  /** The answer is a credential with the drawn token, kept in Redis, for an enabled account of the name and the
      password. */
  ghost predicate IsLoggedIn(store: Store, name: string, password: string, draw: LoginDraw, data: Data) {
    && data.Credential? && data.token == draw.token && draw.stored
    && IsHolder(data.holder, name, password, draw)
    && exists id | id in AccountsOf(store) :: data.holder == AccountsOf(store)[id]
  }

  predicate IsHolder(account: Account, name: string, password: string, draw: LoginDraw) {
    account.username == TrimSpace(name) && account.passwordHash == draw.hash(password) && account.status == "enabled"
  }

  /** On either backend answer 0 means that, whatever fails and whatever the role module answers. */
  lemma LoginIsSound(store: Store, key: Option<string>, name: string, password: string, dir: Directory, draw: LoginDraw)
    requires IsKeyOf(AccountsOf(store), TrimSpace(name), key)
    ensures var answer := LoginAt(store, key, name, password, dir, draw).1;
      if answer.status == 0 then IsLoggedIn(store, name, password, draw, answer.data) else answer.data == Nothing
  {
    LoginCode(store, key, name, password, dir, draw);
    if key.Some? { FoundIsAtKey(store, key.value, dir, draw.nameFault); }
  }

  lemma FoundIsAtKey(store: Store, id: string, dir: Directory, fault: nat)
    requires id in AccountsOf(store)
    ensures var found := GetByKey(store, Some(id), dir, fault).1;
      !found.NoAccount? && (found.Found? ==> found.account == AccountsOf(store)[id])
  {
  }

  /** A well-formed login under a name that no account has is told that name or password is wrong. */
  lemma UnknownNameIsRefused(store: Store, key: Option<string>, name: string, password: string, dir: Directory,
                             draw: LoginDraw)
    requires IsKeyOf(AccountsOf(store), TrimSpace(name), key) && NameFree(AccountsOf(store), TrimSpace(name))
    requires 4 <= ByteLen(TrimSpace(name)) <= 32 && 6 <= ByteLen(password) <= 32
    requires store.Mem? || draw.nameFault > 0
    ensures LoginAt(store, key, name, password, dir, draw) == (store, Answer(2202, Nothing))
  {
    LoginCode(store, key, name, password, dir, draw);
  }

  // ---------- outcomes ----------

  /** The operator that the gate admits, if any. */
  function GateOf(store: Store, token: string, env: Env, codes: Codes): Gate {
    RequireManage(store, token, env, codes).1
  }

  /** The record exists, and is a super administrator's only if the operator is one. */
  ghost predicate MayChange(accounts: map<string, Account>, operator: Account, id: string) {
    id in accounts && (accounts[id].isSuperAdmin ==> operator.isSuperAdmin)
  }

  /** The roles of every account but one are as they were, or compacted. */
  ghost predicate OthersCompacted(before: Store, after: Store, id: string) {
    forall other | other != id :: ListCompacted(before, after, other)
  }

  ghost predicate IsUpdated(before: Store, after: Store, operator: Account, req: UpdateRequest, now: int, data: Data) {
    && MayChange(AccountsOf(before), operator, req.accountId)
    && OthersCompacted(before, after, req.accountId)
    && var account := AccountsOf(before)[req.accountId].(status := TrimSpace(req.status), updatedAt := now);
       && AccountsOf(after) == AccountsOf(before)[req.accountId := account]
       && |req.roleIds| == 1 && StoredRoles(after, req.accountId) == [TrimSpace(req.roleIds[0])]
       && data == Record(account, [TrimSpace(req.roleIds[0])])
  }

  ghost predicate IsReset(before: Store, after: Store, operator: Account, id: string, hash: string, now: int,
                          data: Data)
  {
    && MayChange(AccountsOf(before), operator, id)
    && AccountsOf(after) == AccountsOf(before)[id := AccountsOf(before)[id].(passwordHash := hash, updatedAt := now)]
    && (forall any :: ListCompacted(before, after, any))
    && data == Updated(id, now)
  }

  ghost predicate IsDeleted(before: Store, after: Store, operator: Account, id: string) {
    && MayChange(AccountsOf(before), operator, id) && operator.id != id
    && AccountsOf(after) == AccountsOf(before) - {id} && StoredRoles(after, id) == []
    && OthersCompacted(before, after, id)
  }

  // What a request must say to be answered 0, whoever asks.

  predicate UpdateFits(dir: Directory, req: UpdateRequest) {
    && OneRoleGiven(req.roleIds) && GivenIsEnabled(dir, req.roleIds)
    && ValidRecordId(req.accountId) && IsStatus(TrimSpace(req.status))
  }

  predicate ResetFits(req: ResetRequest) { ValidRecordId(req.accountId) && 6 <= ByteLen(req.newPassword) <= 32 }

  predicate CreateFits(dir: Directory, req: CreateRequest) {
    && OneRoleGiven(req.roleIds) && GivenIsEnabled(dir, req.roleIds)
    && WellFormed(TrimSpace(req.account), req.password) && IsStatus(TrimSpace(req.status))
  }

  ghost predicate UpdateOutcome(before: Store, after: Store, req: UpdateRequest, env: Env, now: int, answer: Answer) {
    var gate := GateOf(before, req.token, env, UPDATE_CODES);
    if answer.status != 0 then OnlyCompacted(before, after)
    else gate.Admitted? && UpdateFits(env.dir, req) && IsUpdated(before, after, gate.operator, req, now, answer.data)
  }

  ghost predicate ResetOutcome(before: Store, after: Store, req: ResetRequest, env: Env, hash: string, now: int,
                               answer: Answer) {
    var gate := GateOf(before, req.token, env, RESET_CODES);
    if answer.status != 0 then OnlyCompacted(before, after)
    else
      gate.Admitted? && ResetFits(req) && IsReset(before, after, gate.operator, req.accountId, hash, now, answer.data)
  }

  ghost predicate DeleteOutcome(before: Store, after: Store, req: DeleteRequest, env: Env, answer: Answer) {
    var gate := GateOf(before, req.token, env, DELETE_CODES);
    if answer.status != 0 then OnlyCompacted(before, after)
    else
      && gate.Admitted? && ValidRecordId(TrimSpace(req.accountId)) && answer.data == Nothing
      && IsDeleted(before, after, gate.operator, TrimSpace(req.accountId))
  }

  ghost predicate CreateOutcome(before: Store, after: Store, req: CreateRequest, env: Env, w: WriteDraw,
                                answer: Answer) {
    if answer.status != 0 then OnlyCompacted(before, after)
    else
      && GateOf(before, req.token, env, CREATE_CODES).Admitted? && CreateFits(env.dir, req)
      && IsCreated(before, after, req, w, answer.data)
  }

  /** The account asked for is there, under a name that was free, and no other has changed. */
  ghost predicate IsCreated(before: Store, after: Store, req: CreateRequest, w: WriteDraw, data: Data) {
    && NameFree(AccountsOf(before), TrimSpace(req.account))
    && AccountsOf(after) == AccountsOf(before)[w.draw.id := AskedFor(req, w)]
    && |req.roleIds| == 1 && StoredRoles(after, w.draw.id) == [TrimSpace(req.roleIds[0])]
    && data == Record(AskedFor(req, w), [TrimSpace(req.roleIds[0])])
    && OthersCompacted(before, after, w.draw.id)
  }

  ghost predicate NameFree(accounts: map<string, Account>, username: string) {
    forall id | id in accounts :: accounts[id].username != username
  }

  function AskedFor(req: CreateRequest, w: WriteDraw): Account {
    Account(w.draw.id, TrimSpace(req.account), w.hash(req.password), TrimSpace(req.status), false,
            w.draw.now, w.draw.now)
  }

  // ---------- update ----------

  /** A lookup that passes the guard has found the record under the trimmed ID. */
  lemma FoundIsStored(store: Store, id: string, dir: Directory, fault: nat)
    ensures var (store', found) := GetById(store, id, dir, fault);
      found.Found? ==> TrimSpace(id) in AccountsOf(store) && found.account == AccountsOf(store)[TrimSpace(id)]
  {
  }

  lemma UpdateWritten(store: Store, id: string, status: string, roleId: string, w: WriteDraw)
    requires StoreOk(store) && |w.draw.ranks| == 1
    ensures var (store', answer) := WriteUpdate(store, id, status, roleId, w);
      if answer.status != 0 then store' == store
      else
        && StoreOk(store') && id in AccountsOf(store) && OthersCompacted(store, store', id)
        && var account := AccountsOf(store)[id].(status := status, updatedAt := w.draw.now);
           && answer.data == Record(account, [roleId])
           && AccountsOf(store') == AccountsOf(store)[id := account] && StoredRoles(store', id) == [roleId]
  {
    if store.Sql? { RowUpdated(store.db, id, status, roleId, w.draw, w.writeFault); }
  }

  lemma RowUpdated(db: Db, id: string, status: string, roleId: string, draw: Draw, fault: nat)
    requires SchemaOk(db) && |draw.ranks| == 1
    ensures var (db', reply) := SqlUpdate(db, id, status, [roleId], draw, fault);
      if reply.Stored? then
        && SchemaOk(db') && id in db.rows
        && reply.account == db.rows[id].account.(status := status, updatedAt := draw.now)
        && Accounts(db'.rows) == Accounts(db.rows)[id := reply.account] && RolesOf(db'.bindings, id) == [roleId]
        && (forall other | other != id :: RolesOf(db'.bindings, other) == RolesOf(db.bindings, other))
      else db' == db
  {
    var (db', reply) := SqlUpdate(db, id, status, [roleId], draw, fault);
    UpdateAllOrNothing(db, id, status, [roleId], draw, fault);
    UpdateKeepsSchema(db, id, status, [roleId], draw, fault);
    if reply.Stored? {
      AccountsUpdated(db.rows, id, db.rows[id].(account := reply.account));
      NewRolesInOrder(db'.bindings, id, [roleId], draw.ranks);
    }
  }

  lemma UpdateVetted(dir: Directory, req: UpdateRequest)
    requires VetUpdate(dir, req).Go?
    ensures VetUpdate(dir, req).status == TrimSpace(req.status)
    ensures |req.roleIds| == 1 && VetUpdate(dir, req).roleId == TrimSpace(req.roleIds[0])
  {
  }

  lemma UpdateEnds(store: Store, req: UpdateRequest, env: Env, w: WriteDraw)
    requires StoreOk(store) && |w.draw.ranks| == 1
    ensures var (store', answer) := HandleUpdate(store, req, env, w);
      StoreOk(store') && UpdateOutcome(store, store', req, env, w.draw.now, answer)
  {
    var (store1, gate) := RequireManage(store, req.token, env, UPDATE_CODES);
    GateCompacts(store, req.token, env, UPDATE_CODES);
    CompactedIsOk(store, store1);
    UpdateFailureOnlyCompacts(store, req, env, w);
    if gate.Admitted? {
      AdmittedUpdateEnds(store1, gate.operator, req, env.dir, w);
      UpdateCode(store1, gate.operator, req, env.dir, w);
      var (store2, answer) := UpdateAdmitted(store1, gate.operator, req, env.dir, w);
      if answer.status == 0 { CompactedBefore(store, store1, store2, req.accountId); }
    }
  }

  lemma AdmittedUpdateEnds(store: Store, operator: Account, req: UpdateRequest, dir: Directory, w: WriteDraw)
    requires StoreOk(store) && |w.draw.ranks| == 1
    ensures var (store', answer) := UpdateAdmitted(store, operator, req, dir, w);
      StoreOk(store') && (answer.status == 0 ==> IsUpdated(store, store', operator, req, w.draw.now, answer.data))
  {
    var vetted := VetUpdate(dir, req);
    if vetted.Go? {
      var (looked, found) := GetById(store, req.accountId, dir, w.lookupFault);
      GetByIdCompacts(store, req.accountId, dir, w.lookupFault);
      CompactedIsOk(store, looked);
      if Guard(found, operator, 2254, 2257, 2258).None? {
        UpdateVetted(dir, req);
        FoundIsStored(store, req.accountId, dir, w.lookupFault);
        UpdateWritten(looked, req.accountId, vetted.status, vetted.roleId, w);
        var (store', answer) := WriteUpdate(looked, req.accountId, vetted.status, vetted.roleId, w);
        if answer.status == 0 { CompactedBefore(store, looked, store', req.accountId); }
      }
    }
  }

  // ---------- reset ----------

  lemma ResetEnds(store: Store, req: ResetRequest, env: Env, w: WriteDraw)
    requires StoreOk(store)
    ensures var (store', answer) := HandleReset(store, req, env, w);
      StoreOk(store') && ResetOutcome(store, store', req, env, w.hash(req.newPassword), w.draw.now, answer)
  {
    var (store1, gate) := RequireManage(store, req.token, env, RESET_CODES);
    GateCompacts(store, req.token, env, RESET_CODES);
    CompactedIsOk(store, store1);
    ResetFailureOnlyCompacts(store, req, env, w);
    if gate.Admitted? {
      AdmittedResetEnds(store1, gate.operator, req, env.dir, w);
      ResetCode(store1, gate.operator, req, env.dir, w);
      var (store2, answer) := ResetAdmitted(store1, gate.operator, req, env.dir, w);
      if answer.status == 0 { CompactedBefore(store, store1, store2, req.accountId); }
    }
  }

  lemma ResetWritten(store: Store, id: string, hash: string, now: int, fault: nat)
    requires StoreOk(store)
    ensures var (store', reply) := Reset(store, id, hash, now, fault);
      if reply.Stored? then
        && StoreOk(store') && id in AccountsOf(store)
        && AccountsOf(store') == AccountsOf(store)[id := AccountsOf(store)[id].(passwordHash := hash, updatedAt := now)]
        && (forall any :: ListCompacted(store, store', any)) && reply.account.updatedAt == now
      else store' == store
  {
    if store.Sql? && id in store.db.rows {
      var db := store.db;
      ResetKeepsSchema(db, id, hash, now, fault);
      var account := db.rows[id].account.(passwordHash := hash, updatedAt := now);
      AccountsUpdated(db.rows, id, db.rows[id].(account := account));
    }
  }

  lemma AdmittedResetEnds(store: Store, operator: Account, req: ResetRequest, dir: Directory, w: WriteDraw)
    requires StoreOk(store)
    ensures var (store', answer) := ResetAdmitted(store, operator, req, dir, w);
      && StoreOk(store')
      && (answer.status == 0 ==>
            IsReset(store, store', operator, req.accountId, w.hash(req.newPassword), w.draw.now, answer.data))
  {
    var (looked, found) := GetById(store, req.accountId, dir, w.lookupFault);
    GetByIdCompacts(store, req.accountId, dir, w.lookupFault);
    CompactedIsOk(store, looked);
    ResetCode(store, operator, req, dir, w);
    FoundIsStored(store, req.accountId, dir, w.lookupFault);
    ResetWritten(looked, req.accountId, w.hash(req.newPassword), w.draw.now, w.writeFault);
    var (store', reply) := Reset(looked, req.accountId, w.hash(req.newPassword), w.draw.now, w.writeFault);
    if reply.Stored? { CompactedBefore(store, looked, store', req.accountId); }
  }

  // ---------- delete ----------

  lemma DeleteEnds(store: Store, req: DeleteRequest, env: Env, w: WriteDraw)
    requires StoreOk(store)
    ensures var (store', answer) := HandleDelete(store, req, env, w);
      StoreOk(store') && DeleteOutcome(store, store', req, env, answer)
  {
    var (store1, gate) := RequireManage(store, req.token, env, DELETE_CODES);
    GateCompacts(store, req.token, env, DELETE_CODES);
    CompactedIsOk(store, store1);
    DeleteFailureOnlyCompacts(store, req, env, w);
    if gate.Admitted? {
      AdmittedDeleteEnds(store1, gate.operator, req, env.dir, w);
      DeleteCode(store1, gate.operator, req, env.dir, w);
      var (store2, answer) := DeleteAdmitted(store1, gate.operator, req, env.dir, w);
      if answer.status == 0 { CompactedBefore(store, store1, store2, TrimSpace(req.accountId)); }
    }
  }

  lemma DeleteWritten(store: Store, id: string, fault: nat)
    requires StoreOk(store) && Trimmed(id)
    ensures var (store', reply) := Delete(store, id, fault);
      if reply.Deleted? then
        && StoreOk(store') && id in AccountsOf(store)
        && AccountsOf(store') == AccountsOf(store) - {id} && StoredRoles(store', id) == []
        && OthersCompacted(store, store', id)
      else store' == store
  {
    if store.Sql? {
      DeleteAllOrNothing(store.db, id, fault);
      DeleteKeepsSchema(store.db, id, fault);
      AccountsRemoved(store.db.rows, id);
    }
  }

  lemma AdmittedDeleteEnds(store: Store, operator: Account, req: DeleteRequest, dir: Directory, w: WriteDraw)
    requires StoreOk(store)
    ensures var (store', answer) := DeleteAdmitted(store, operator, req, dir, w);
      StoreOk(store') && (answer.status == 0 ==> IsDeleted(store, store', operator, TrimSpace(req.accountId)))
  {
    var id := TrimSpace(req.accountId);
    var (looked, found) := GetById(store, id, dir, w.lookupFault);
    GetByIdCompacts(store, id, dir, w.lookupFault);
    CompactedIsOk(store, looked);
    DeleteCode(store, operator, req, dir, w);
    FoundIsStored(store, id, dir, w.lookupFault);
    if found.Found? { KeysAreTheirIds(store, id); }
    DeleteWritten(looked, id, w.writeFault);
    var (store', reply) := Delete(looked, id, w.writeFault);
    if reply.Deleted? { CompactedBefore(store, looked, store', id); }
  }

  lemma KeysAreTheirIds(store: Store, id: string)
    requires StoreOk(store) && id in AccountsOf(store)
    ensures AccountsOf(store)[id].id == id
  {
  }

  // ---------- create ----------

  lemma CreateEnds(store: Store, key: Option<string>, req: CreateRequest, env: Env, w: WriteDraw)
    requires StoreOk(store) && |w.draw.ranks| == 1 && Trimmed(w.draw.id) && w.draw.id !in AccountsOf(store)
    requires IsKeyOf(AccountsOf(store), TrimSpace(req.account), key)
    ensures AccountsOf(RequireManage(store, req.token, env, CREATE_CODES).0) == AccountsOf(store)
    ensures var (store', answer) := CreateAt(store, key, req, env, w);
      StoreOk(store') && CreateOutcome(store, store', req, env, w, answer)
  {
    var (store1, gate) := RequireManage(store, req.token, env, CREATE_CODES);
    GateCompacts(store, req.token, env, CREATE_CODES);
    CompactedIsOk(store, store1);
    if gate.Admitted? {
      AdmittedCreateEnds(store1, key, req, env.dir, w);
      CreateCode(store1, key, req, env.dir, w);
      var (store2, answer) := CreateAdmittedAt(store1, key, req, env.dir, w);
      if answer.status != 0 { OnlyCompactedTransitive(store, store1, store2); }
      else { CompactedBefore(store, store1, store2, w.draw.id); }
    }
  }

  lemma CreateWritten(store: Store, account: string, hash: string, status: string, roleId: string, w: WriteDraw)
    requires StoreOk(store) && |w.draw.ranks| == 1 && Trimmed(w.draw.id) && w.draw.id !in AccountsOf(store)
    ensures var (store', answer) := WriteCreate(store, account, hash, status, roleId, w);
      if answer.status != 0 then store' == store
      else
        && StoreOk(store')
        && AccountsOf(store')
           == AccountsOf(store)[w.draw.id := Account(w.draw.id, account, hash, status, false, w.draw.now, w.draw.now)]
        && StoredRoles(store', w.draw.id) == [roleId]
        && OthersCompacted(store, store', w.draw.id)
        && answer.data
           == Record(Account(w.draw.id, account, hash, status, false, w.draw.now, w.draw.now), [roleId])
  {
    if store.Sql? { RowCreated(store.db, account, hash, status, roleId, w.draw, w.writeFault); }
  }

  lemma RowCreated(db: Db, account: string, hash: string, status: string, roleId: string, draw: Draw, fault: nat)
    requires SchemaOk(db) && |draw.ranks| == 1
    ensures var (db', reply) := SqlCreate(db, draw, account, hash, status, [roleId], fault);
      if reply.Stored? then
        && SchemaOk(db') && reply.account == Account(draw.id, account, hash, status, false, draw.now, draw.now)
        && Accounts(db'.rows) == Accounts(db.rows)[draw.id := reply.account]
        && RolesOf(db'.bindings, draw.id) == [roleId]
        && (forall other | other != draw.id :: RolesOf(db'.bindings, other) == RolesOf(db.bindings, other))
      else db' == db
  {
    var (db', reply) := SqlCreate(db, draw, account, hash, status, [roleId], fault);
    CreateAllOrNothing(db, draw, account, hash, status, [roleId], fault);
    CreateKeepsSchema(db, draw, account, hash, status, [roleId], fault);
    if reply.Stored? {
      AccountsUpdated(db.rows, draw.id, Row(reply.account, false, None));
      NewRolesInOrder(db'.bindings, draw.id, [roleId], draw.ranks);
    }
  }

  lemma CreateVetted(dir: Directory, req: CreateRequest)
    requires VetCreate(dir, req).Go?
    ensures VetCreate(dir, req).status == TrimSpace(req.status)
    ensures |req.roleIds| == 1 && VetCreate(dir, req).roleId == TrimSpace(req.roleIds[0])
  {
  }

  lemma AdmittedCreateEnds(store: Store, key: Option<string>, req: CreateRequest, dir: Directory, w: WriteDraw)
    requires StoreOk(store) && |w.draw.ranks| == 1 && Trimmed(w.draw.id) && w.draw.id !in AccountsOf(store)
    requires IsKeyOf(AccountsOf(store), TrimSpace(req.account), key)
    ensures var (store', answer) := CreateAdmittedAt(store, key, req, dir, w);
      && StoreOk(store')
      && if answer.status != 0 then OnlyCompacted(store, store') else IsCreated(store, store', req, w, answer.data)
  {
    var vetted := VetCreate(dir, req);
    if vetted.Stop? {
      assert CreateAdmittedAt(store, key, req, dir, w) == (store, Error(vetted.code));
      UntouchedIsCompacted(store);
    } else {
      var (looked, found) := GetByKey(store, key, dir, w.lookupFault);
      ByKeyCompacts(store, key, dir, w.lookupFault);
      CompactedIsOk(store, looked);
      if found.NoAccount? {
        FoundHasKey(store, key, dir, w.lookupFault);
        FreeNameEnds(store, looked, req, dir, w);
        assert CreateAdmittedAt(store, key, req, dir, w)
            == WriteCreate(looked, TrimSpace(req.account), w.hash(req.password), vetted.status, vetted.roleId, w);
      } else {
        StoppedByLookup(store, key, req, dir, w);
      }
    }
  }

  lemma StoppedByLookup(store: Store, key: Option<string>, req: CreateRequest, dir: Directory, w: WriteDraw)
    requires |w.draw.ranks| == 1 && (key.Some? ==> key.value in AccountsOf(store))
    requires VetCreate(dir, req).Go? && !GetByKey(store, key, dir, w.lookupFault).1.NoAccount?
    ensures var (store', answer) := CreateAdmittedAt(store, key, req, dir, w);
      store' == GetByKey(store, key, dir, w.lookupFault).0 && answer.status != 0
  {
  }

  lemma FreeNameEnds(store: Store, looked: Store, req: CreateRequest, dir: Directory, w: WriteDraw)
    requires StoreOk(store) && StoreOk(looked) && OnlyCompacted(store, looked)
    requires AccountsOf(looked) == AccountsOf(store)
    requires |w.draw.ranks| == 1 && Trimmed(w.draw.id) && w.draw.id !in AccountsOf(store)
    requires VetCreate(dir, req).Go? && NameFree(AccountsOf(store), TrimSpace(req.account))
    ensures var vetted := VetCreate(dir, req);
      var (store', answer) :=
        WriteCreate(looked, TrimSpace(req.account), w.hash(req.password), vetted.status, vetted.roleId, w);
      && StoreOk(store')
      && if answer.status != 0 then OnlyCompacted(store, store') else IsCreated(store, store', req, w, answer.data)
  {
    CreateVetted(dir, req);
    var vetted := VetCreate(dir, req);
    CreateWritten(looked, TrimSpace(req.account), w.hash(req.password), vetted.status, vetted.roleId, w);
    var (store', answer) :=
      WriteCreate(looked, TrimSpace(req.account), w.hash(req.password), vetted.status, vetted.roleId, w);
    if answer.status == 0 { CompactedBefore(store, looked, store', w.draw.id); }
  }

  lemma FoundHasKey(store: Store, key: Option<string>, dir: Directory, fault: nat)
    requires key.Some? ==> key.value in AccountsOf(store)
    ensures GetByKey(store, key, dir, fault).1.NoAccount? ==> key.None?
  {
  }
}
