/** Credentials across requests: who can log in, and that what an account is created, reset or generated with is what it
    can log in with. */
module Credentials {
  import opened Text
  import opened RoleClient
  import opened Store
  import opened Schema
  import opened Handlers
  import opened Atomicity
  import opened AnswerCodes
  import opened Resolution
  import Machine

  /** No statement of the lookup fails, and Redis stores the session. */
  predicate Undisturbed(draw: LoginDraw) { draw.nameFault > 2 && draw.stored }

  /** A name that the login form accepts as it stands. */
  predicate FormName(name: string) { Trimmed(name) && ValidAccount(name) }

  /** No role is left to choose. */
  predicate NoneLeft(dir: Directory, stored: seq<string>) {
    if |stored| == 1 then TrimSpace(stored[0]) == "" else forall i | 0 <= i < |stored| :: Skipped(dir, stored[i])
  }

  /** The first role that is neither blank nor known not to be enabled is enabled. */
  predicate FirstIsEnabled(dir: Directory, stored: seq<string>, k: nat) {
    Decides(dir, stored, k) && SaysEnabled(dir.detail(TrimSpace(stored[k])))
  }

  /** The stored roles let a login through: a single role must be enabled, or the first of several that counts; and a
      super administrator may have none. */
  ghost predicate RolesAllow(dir: Directory, stored: seq<string>, isSuperAdmin: bool) {
    || (|stored| == 1 && TrimSpace(stored[0]) != "" && SaysEnabled(dir.detail(TrimSpace(stored[0]))))
    || (exists k: nat :: FirstIsEnabled(dir, stored, k))
    || (isSuperAdmin && NoneLeft(dir, stored))
  }

  predicate ChoiceAllows(dir: Directory, choice: Choice, isSuperAdmin: bool) {
    match choice
    case Only(roleId) => Enabled(dir, roleId)
    case CompactTo(_) => true
    case NoUsableRole => isSuperAdmin
    case OracleFailed => false
  }

  /** Which is what the choice says. */
  lemma AllowedByChoice(dir: Directory, stored: seq<string>, isSuperAdmin: bool)
    ensures RolesAllow(dir, stored, isSuperAdmin) <==> ChoiceAllows(dir, Choose(dir, stored), isSuperAdmin)
  {
    if |stored| <= 1 {
      if |stored| == 1 { StandingOnReply(dir, TrimSpace(stored[0])); }
    } else {
      var k := FirstDecisive(dir, stored);
      if k < |stored| {
        OneDecides(dir, stored, k);
        assert SaysEnabled(dir.detail(TrimSpace(stored[k]))) ==> FirstIsEnabled(dir, stored, k);
      }
    }
  }

  lemma FirstDecisive(dir: Directory, stored: seq<string>) returns (k: nat)
    requires |stored| > 1
    ensures k <= |stored| && (k == |stored| <==> NoneLeft(dir, stored)) && (k < |stored| ==> Decides(dir, stored, k))
    ensures Choose(dir, stored) ==
      if k == |stored| then NoUsableRole
      else if SaysEnabled(dir.detail(TrimSpace(stored[k]))) then CompactTo(TrimSpace(stored[k]))
      else OracleFailed
  {
    k := FirstEnabledMeaning(dir, stored);
    forall i | 0 <= i < |stored| ensures Skipped(dir, stored[i]) <==> PassedOver(dir, stored[i]) {
      StandingOnReply(dir, TrimSpace(stored[i]));
    }
    if k < |stored| { StandingOnReply(dir, TrimSpace(stored[k])); }
  }

  lemma OneDecides(dir: Directory, stored: seq<string>, k: nat)
    requires Decides(dir, stored, k)
    ensures forall j: nat | Decides(dir, stored, j) :: j == k
  {
  }

  /** Everything about the account but its password allows a login. */
  ghost predicate CanLogIn(db: Db, id: string, dir: Directory) {
    && id in db.rows && db.rows[id].account.status == "enabled"
    && RolesAllow(dir, RolesOf(db.bindings, id), db.rows[id].account.isSuperAdmin)
  }

  lemma NameFindsKey(db: Db, id: string)
    requires SchemaOk(db) && id in db.rows
    ensures KeyOfName(Accounts(db.rows), db.rows[id].account.username) == Some(id)
  {
    assert id in Accounts(db.rows) && Accounts(db.rows)[id].username == db.rows[id].account.username;
  }

  lemma ChosenIsAvailable(dir: Directory, stored: seq<string>)
    ensures var choice := Choose(dir, stored);
      && (choice.Only? ==> (AvailabilityOf(dir, [choice.roleId]) == Available(true) <==> Enabled(dir, choice.roleId)))
      && (choice.CompactTo? ==> AvailabilityOf(dir, [choice.roleId]) == Available(true))
  {
    var k := FirstEnabledMeaning(dir, stored);
  }

  /** A login under an account's name succeeds if and only if the password is well-formed and the account's, and the
      account can log in; its expiry is not asked for. */
  lemma LoginIff(db: Db, id: string, password: string, dir: Directory, draw: LoginDraw)
    requires SchemaOk(db) && id in db.rows && FormName(db.rows[id].account.username) && Undisturbed(draw)
    ensures var account := db.rows[id].account;
      var answer := Login(Sql(db), account.username, password, dir, draw).1;
      && (answer.status == 0
          <==> ValidPassword(password) && draw.hash(password) == account.passwordHash && CanLogIn(db, id, dir))
      && (answer.status == 0
          ==> answer.data.Credential? && answer.data.holder == account && answer.data.token == draw.token)
  {
    var account := db.rows[id].account;
    var found := SqlGetByName(db, account.username, dir, draw.nameFault).1;
    NameFindsKey(db, id);
    assert found == SqlRoles(db, account, dir, draw.nameFault).1
           == Settle(account, Choose(dir, RolesOf(db.bindings, id)));
    FoundLogsIn(account, RolesOf(db.bindings, id), password, dir, draw);
  }

  lemma FoundLogsIn(account: Account, stored: seq<string>, password: string, dir: Directory, draw: LoginDraw)
    requires draw.stored
    ensures var answer := LoginFrom(Settle(account, Choose(dir, stored)), password, dir, draw);
      && (answer.status == 0
          <==> draw.hash(password) == account.passwordHash && account.status == "enabled"
               && RolesAllow(dir, stored, account.isSuperAdmin))
      && (answer.status == 0
          ==> answer.data.Credential? && answer.data.holder == account && answer.data.token == draw.token)
  {
    AllowedByChoice(dir, stored, account.isSuperAdmin);
    ChosenLogsIn(account, stored, password, dir, draw);
  }

  lemma ChosenLogsIn(account: Account, stored: seq<string>, password: string, dir: Directory, draw: LoginDraw)
    requires draw.stored
    ensures var choice := Choose(dir, stored);
      var answer := LoginFrom(Settle(account, choice), password, dir, draw);
      && (answer.status == 0
          <==> draw.hash(password) == account.passwordHash && account.status == "enabled"
               && ChoiceAllows(dir, choice, account.isSuperAdmin))
      && (answer.status == 0
          ==> answer.data.Credential? && answer.data.holder == account && answer.data.token == draw.token)
  {
    ChosenIsAvailable(dir, stored);
  }

  // ---------- reset, then log in ----------

  /** After a password reset an account logs in with a well-formed password of the new hash and no other, exactly
      when it could log in before but for the password. */
  lemma ResetDecidesLogin(db: Db, id: string, dir: Directory, hash: string, now: int, fault: nat,
                          password: string, draw: LoginDraw)
    requires SchemaOk(db) && id in db.rows && FormName(db.rows[id].account.username) && Undisturbed(draw)
    requires SqlReset(db, id, hash, now, fault).1.Stored?
    ensures var (db', reply) := SqlReset(db, id, hash, now, fault);
      && reply.account == db.rows[id].account.(passwordHash := hash, updatedAt := now)
      && (Login(Sql(db'), reply.account.username, password, dir, draw).1.status == 0
          <==> ValidPassword(password) && draw.hash(password) == hash && CanLogIn(db, id, dir))
  {
    ResetKeepsSchema(db, id, hash, now, fault);
    LoginIff(SqlReset(db, id, hash, now, fault).0, id, password, dir, draw);
  }

  // ---------- the temporary administrator ----------

  /** A login goes by the expiry of no record: whatever it is set to, the answer is the same. */
  lemma LoginIgnoresExpiry(db: Db, id: string, expiresAt: Option<int>, name: string, password: string, dir: Directory,
                           draw: LoginDraw)
    requires id in db.rows
    ensures var db' := db.(rows := db.rows[id := db.rows[id].(expiresAt := expiresAt)]);
      Login(Sql(db'), name, password, dir, draw).1 == Login(Sql(db), name, password, dir, draw).1
  {
    var db' := db.(rows := db.rows[id := db.rows[id].(expiresAt := expiresAt)]);
    assert Accounts(db'.rows) == Accounts(db.rows);
  }

  /** The tables after a creation that succeeded. */
  function Generated(db: Db, name: string, hash: string, now: int): Db {
    SqlGenerate(db, name, hash, now + Machine.TEMPORARY_TTL, now, 1).0
  }

  lemma GeneratedHolds(db: Db, name: string, hash: string, now: int)
    requires SchemaOk(db) && !NameTaken(db.rows, name, TEMPORARY_ID)
    ensures var db' := Generated(db, name, hash, now);
      && SchemaOk(db') && TEMPORARY_ID in db'.rows && db'.bindings == db.bindings
      && var account := db'.rows[TEMPORARY_ID].account;
         account.username == name && account.passwordHash == hash && account.status == "enabled" && account.isSuperAdmin
  {
    GenerateKeepsSchema(db, name, hash, now + Machine.TEMPORARY_TTL, now, 1);
  }

  /** A generated credential logs in if and only if the roles that the fixed record has kept do not stand in the way. */
  lemma RecoveryLogsInIff(db: Db, name: string, password: string, now: int, dir: Directory, draw: LoginDraw)
    requires SchemaOk(db) && FormName(name) && !NameTaken(db.rows, name, TEMPORARY_ID)
    requires ValidPassword(password) && Undisturbed(draw)
    ensures Login(Sql(Generated(db, name, draw.hash(password), now)), name, password, dir, draw).1.status == 0
      <==> RolesAllow(dir, RolesOf(db.bindings, TEMPORARY_ID), true)
  {
    GeneratedHolds(db, name, draw.hash(password), now);
    LoginIff(Generated(db, name, draw.hash(password), now), TEMPORARY_ID, password, dir, draw);
  }

  /** A generated credential whose record has no role logs in however long ago it expired, as long as no scan has
      disabled it. */
  lemma ExpiredCredentialLogsIn(db: Db, name: string, password: string, created: int, now: int, dir: Directory,
                                draw: LoginDraw)
    requires SchemaOk(db) && FormName(name) && !NameTaken(db.rows, name, TEMPORARY_ID)
    requires ValidPassword(password) && Undisturbed(draw) && RolesOf(db.bindings, TEMPORARY_ID) == []
    requires now > created + 600_000_000_000
    ensures var db' := Generated(db, name, draw.hash(password), created);
      && TEMPORARY_ID in db'.rows
      && db'.rows[TEMPORARY_ID].expiresAt.Some? && db'.rows[TEMPORARY_ID].expiresAt.value < now
      && Login(Sql(db'), name, password, dir, draw).1.status == 0
  {
    RecoveryLogsInIff(db, name, password, created, dir, draw);
  }

  /** A generated credential is refused at once when the one role that an update has given the fixed record is not
      enabled, or the role module does not answer for it. */
  lemma CredentialRefused(db: Db, name: string, password: string, now: int, roleId: string, dir: Directory,
                          draw: LoginDraw)
    requires SchemaOk(db) && FormName(name) && !NameTaken(db.rows, name, TEMPORARY_ID)
    requires ValidPassword(password) && Undisturbed(draw)
    requires RolesOf(db.bindings, TEMPORARY_ID) == [roleId] && Trimmed(roleId) && roleId != ""
    requires !SaysEnabled(dir.detail(roleId))
    ensures Login(Sql(Generated(db, name, draw.hash(password), now)), name, password, dir, draw).1
         == Answer(if TellsNothing(dir.detail(roleId)) then 2204 else 2203, Nothing)
  {
    StandingOnReply(dir, roleId);
    var db' := Generated(db, name, draw.hash(password), now);
    GeneratedHolds(db, name, draw.hash(password), now);
    NameFindsKey(db', TEMPORARY_ID);
    assert Choose(dir, [roleId]) == Only(roleId);
    assert RolesOf(db'.bindings, TEMPORARY_ID) == [roleId];
  }

  // ---------- create, then log in ----------

  /** The store holds the account, found by its name, with one enabled role. */
  ghost predicate Ready(store: Store, id: string, roleId: string, dir: Directory) {
    && Trimmed(roleId) && roleId != "" && AvailabilityOf(dir, [roleId]) == Available(true)
    && id in AccountsOf(store) && AccountsOf(store)[id].id == id && FormName(AccountsOf(store)[id].username)
    && NamesUnique(AccountsOf(store)) && StoredRoles(store, id) == [roleId]
  }

  /** What a login of a ready account answers: the password decides, then the status. */
  function ReadyAnswer(account: Account, roleId: string, password: string, draw: LoginDraw): Answer {
    if !ValidPassword(password) then Error(2201)
    else if account.passwordHash != draw.hash(password) then Error(2202)
    else if account.status != "enabled" then Error(2203)
    else Answer(0, Credential(account, [roleId], draw.token))
  }

  lemma ReadyIsFound(store: Store, id: string, roleId: string, dir: Directory, fault: nat)
    requires Ready(store, id, roleId, dir) && fault > 2
    ensures GetByName(store, AccountsOf(store)[id].username, dir, fault)
         == (store, Found(AccountsOf(store)[id], [roleId]))
  {
    assert KeyOfName(AccountsOf(store), AccountsOf(store)[id].username) == Some(id);
    assert Choose(dir, [roleId]) == Only(roleId);
  }

  lemma ReadyLogsIn(store: Store, id: string, roleId: string, password: string, dir: Directory, draw: LoginDraw)
    requires Ready(store, id, roleId, dir) && Undisturbed(draw)
    ensures Login(store, AccountsOf(store)[id].username, password, dir, draw)
         == (store, ReadyAnswer(AccountsOf(store)[id], roleId, password, draw))
  {
    ReadyIsFound(store, id, roleId, dir, draw.nameFault);
  }

  /** The constraints of the tables; in memory what they would give: unique names and a fresh ID. */
  ghost predicate Creatable(store: Store, id: string) {
    match store
    case Sql(db) => SchemaOk(db)
    case Mem(m) => NamesUnique(m.accounts) && id !in m.accounts
  }

  /** On either backend, a create that succeeded leaves an account that can log in with the password it was given, and
      with no password of another hash, for as long as its role is enabled. */
  lemma CreatedCanLogIn(store: Store, req: CreateRequest, env: Env, w: WriteDraw, password: string, later: Directory,
                        draw: LoginDraw)
    requires Creatable(store, w.draw.id) && |w.draw.ranks| == 1 && Undisturbed(draw)
    requires HandleCreate(store, req, env, w).1.status == 0
    requires forall r | r in req.roleIds :: SaysEnabled(later.detail(TrimSpace(r)))
    ensures var (store', answer) := HandleCreate(store, req, env, w);
      var created := answer.data;
      && created.Record? && created.account.passwordHash == w.hash(req.password)
      && created.account.username == TrimSpace(req.account)
      && |req.roleIds| == 1 && created.roleIds == [TrimSpace(req.roleIds[0])]
      && Login(store', created.account.username, password, later, draw)
         == (store', ReadyAnswer(created.account, created.roleIds[0], password, draw))
  {
    var id, roleId := CreatedIsReady(store, req, env, w);
    FewRolesAvailable(later, [roleId]);
    ReadyLogsIn(HandleCreate(store, req, env, w).0, id, roleId, password, later, draw);
  }

  lemma CreatedIsReady(store: Store, req: CreateRequest, env: Env, w: WriteDraw) returns (id: string, roleId: string)
    requires Creatable(store, w.draw.id) && |w.draw.ranks| == 1 && HandleCreate(store, req, env, w).1.status == 0
    ensures |req.roleIds| == 1 && roleId == TrimSpace(req.roleIds[0])
    ensures var (store', answer) := HandleCreate(store, req, env, w);
      && Ready(store', id, roleId, env.dir)
      && answer.data == Record(AccountsOf(store')[id], [roleId])
      && answer.data.account.passwordHash == w.hash(req.password)
      && answer.data.account.username == TrimSpace(req.account)
  {
    var gated := RequireManage(store, req.token, env, CREATE_CODES).0;
    GateCompacts(store, req.token, env, CREATE_CODES);
    assert Creatable(gated, w.draw.id);
    id, roleId := AdmittedIsReady(gated, req, env.dir, w);
  }

  lemma AdmittedIsReady(store: Store, req: CreateRequest, dir: Directory, w: WriteDraw)
    returns (id: string, roleId: string)
    requires Creatable(store, w.draw.id) && |w.draw.ranks| == 1
    requires CreateAdmitted(store, req, dir, w).1.status == 0
    ensures |req.roleIds| == 1 && roleId == TrimSpace(req.roleIds[0])
    ensures var (store', answer) := CreateAdmitted(store, req, dir, w);
      && Ready(store', id, roleId, dir)
      && answer.data == Record(AccountsOf(store')[id], [roleId])
      && answer.data.account.passwordHash == w.hash(req.password)
      && answer.data.account.username == TrimSpace(req.account)
  {
    var vetted, account := VetCreate(dir, req), TrimSpace(req.account);
    var looked := GetByName(store, account, dir, w.lookupFault).0;
    GetByNameCompacts(store, account, dir, w.lookupFault);
    NameIsFree(store, account, dir, w.lookupFault);
    VettedIsFit(dir, req);
    CreateCode(store, KeyOfName(AccountsOf(store), account), req, dir, w);
    id, roleId := w.draw.id, vetted.roleId;
    WrittenIsReady(looked, account, w.hash(req.password), vetted.status, roleId, dir, w);
  }

  lemma NameIsFree(store: Store, account: string, dir: Directory, fault: nat)
    ensures var (store', found) := GetByName(store, account, dir, fault);
      found.NoAccount? ==> forall id | id in AccountsOf(store') :: AccountsOf(store')[id].username != account
  {
  }

  lemma VettedIsFit(dir: Directory, req: CreateRequest)
    requires VetCreate(dir, req).Go?
    ensures var roleId := VetCreate(dir, req).roleId;
      && Trimmed(roleId) && roleId != "" && AvailabilityOf(dir, [roleId]) == Available(true)
      && FormName(TrimSpace(req.account))
  {
  }

  lemma WrittenIsReady(store: Store, account: string, hash: string, status: string, roleId: string, dir: Directory,
                       w: WriteDraw)
    requires Creatable(store, w.draw.id) && |w.draw.ranks| == 1
    requires forall id | id in AccountsOf(store) :: AccountsOf(store)[id].username != account
    requires Trimmed(roleId) && roleId != "" && AvailabilityOf(dir, [roleId]) == Available(true) && FormName(account)
    requires WriteCreate(store, account, hash, status, roleId, w).1.status == 0
    ensures var (store', answer) := WriteCreate(store, account, hash, status, roleId, w);
      && Ready(store', w.draw.id, roleId, dir)
      && answer.data == Record(AccountsOf(store')[w.draw.id], [roleId])
      && answer.data.account.passwordHash == hash && answer.data.account.username == account
  {
    if store.Sql? {
      var db := store.db;
      var db' := SqlCreate(db, w.draw, account, hash, status, [roleId], w.writeFault).0;
      CreateAllOrNothing(db, w.draw, account, hash, status, [roleId], w.writeFault);
      CreateKeepsSchema(db, w.draw, account, hash, status, [roleId], w.writeFault);
      NewRolesInOrder(db'.bindings, w.draw.id, [roleId], w.draw.ranks);
    } else {
      NewNameKeepsNamesUnique(store, account, hash, status, roleId, w);
    }
  }
}
