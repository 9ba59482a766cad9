/** The plugin object: its store methods and handlers, each proved against what the store does and what its answer means
    for the accounts. */
module Plugin {
  import opened Text
  import opened RoleClient
  import opened Store
  import opened Schema
  import opened Handlers
  import opened Atomicity
  import opened Outcomes
  import Machine

  /** What normalizeAccountRoles returns. */
  datatype Normalized = NormalRoles(roleIds: seq<string>) | NoValidRoleError | NormalizeError

  function NormalizedOf(choice: Choice, fails: bool): Normalized {
    match choice
    case Only(roleId) => NormalRoles([roleId])
    case CompactTo(roleId) => if fails then NormalizeError else NormalRoles([roleId])
    case NoUsableRole => NoValidRoleError
    case OracleFailed => NormalizeError
  }

  /** The store after an account's roles are reduced to one. */
  function KeptOnly(store: Store, accountId: string, roleId: string): Store {
    match store
    case Sql(db) => Sql(db.(bindings := KeepOnly(db.bindings, accountId, roleId)))
    case Mem(m) => Mem(m.(roles := m.roles[accountId := [roleId]]))
  }

  /** What a lookup makes of a row and its normalised roles. */
  function LookupOf(account: Account, normalized: Normalized): Lookup {
    match normalized
    case NormalRoles(roleIds) => Found(account, roleIds)
    case NoValidRoleError => if account.isSuperAdmin then Found(account, []) else NoValidRole(account)
    case NormalizeError => LookupError
  }

  lemma AnyTokenOnlyCompacts(store: Store, token: string, env: Env)
    ensures OnlyCompacted(store, ByAnyToken(store, token, env).0) && OnlyCompacted(store, store)
  {
    ByAnyTokenCompacts(store, token, env);
    UntouchedIsCompacted(store);
  }

  // ---------- what the statements mean ----------

  /** Every other account keeps its roles. The account itself is left with the role: in memory in any case, in the
      tables if the role was bound to it, and otherwise with none. */
  ghost predicate RoleKept(before: Store, after: Store, accountId: string, roleId: string) {
    && AccountsOf(after) == AccountsOf(before)
    && (forall other | other != accountId :: StoredRoles(after, other) == StoredRoles(before, other))
    && match before
       case Mem(_) => StoredRoles(after, accountId) == [roleId]
       case Sql(db) =>
         PairsUnique(db.bindings, db.oneRolePerAccount) ==>
           StoredRoles(after, accountId) == if roleId in StoredRoles(before, accountId) then [roleId] else []
  }

  lemma KeptOnlyMeaning(store: Store, accountId: string, roleId: string)
    ensures RoleKept(store, KeptOnly(store, accountId, roleId), accountId, roleId)
  {
    match store
    case Mem(_) =>
    case Sql(db) =>
      forall other | other != accountId
        ensures StoredRoles(KeptOnly(store, accountId, roleId), other) == StoredRoles(store, other)
      {
        KeepOnlyOthers(db.bindings, accountId, roleId, other);
      }
      if PairsUnique(db.bindings, db.oneRolePerAccount) {
        KeepOnlyOwn(db.bindings, accountId, roleId, db.oneRolePerAccount);
      }
  }

  /** What one scan leaves: the temporary rows that were enabled past their expiry are disabled; every other row and all
      bindings are as they were. */
  ghost predicate IsScanned(before: Db, after: Db, now: int) {
    && after.rows.Keys == before.rows.Keys
    && after.bindings == before.bindings && after.oneRolePerAccount == before.oneRolePerAccount
    && forall id | id in before.rows ::
        ScannedRow(before.rows[id], after.rows[id], now)
  }

  /** What a load leaves: the fixed row as it was or, where there was none, the seed row; every other row and all
      bindings as they were; and the index if it was there or no account has two bindings. */
  ghost predicate IsLoaded(before: Db, after: Db, now: int) {
    && after.rows == (if TEMPORARY_ID in before.rows then before.rows else before.rows[TEMPORARY_ID := SeedRow(now)])
    && IsIndexed(before, after)
  }

  ghost predicate IsIndexed(before: Db, after: Db) {
    && after.bindings == before.bindings
    && (after.oneRolePerAccount <==> before.oneRolePerAccount || forall id :: Bound(before.bindings, id) <= 1)
  }

  lemma IndexMeaning(db: Db)
    ensures IsIndexed(db, SqlAddIndex(db)) && SqlAddIndex(db).rows == db.rows
  {
    EachSingleMeaning(db.bindings);
  }

  class AdminAccountPlugin {
    /** The database, or None in memory mode. */
    var db: Option<Db>
    var accounts: map<string, Account>
    var roles: map<string, seq<string>>

    function Contents(): Store
      reads this
    {
      match db
      case Some(d) => Sql(d)
      case None => Mem(Memory(accounts, roles))
    }

    constructor (db: Option<Db>)
      ensures Contents() == match db case Some(d) => Sql(d) case None => Mem(Memory(map[], map[]))
    {
      this.db := db;
      accounts, roles := map[], map[];
    }

    // ---------- roles ----------

    method KeepOnlyAccountRole(accountId: string, roleId: string, fails: bool) returns (ok: bool)
      modifies this
      ensures ok <==> !(fails && old(db).Some?)
      ensures Contents() == if ok then KeptOnly(old(Contents()), accountId, roleId) else old(Contents())
      ensures ok ==> RoleKept(old(Contents()), Contents(), accountId, roleId)
    {
      KeptOnlyMeaning(Contents(), accountId, roleId);
      if db.None? {
        roles := roles[accountId := [roleId]];
        return true;
      }
      if fails {
        return false;
      }
      db := Some(db.value.(bindings := KeepOnly(db.value.bindings, accountId, roleId)));
      return true;
    }

    method NormalizeAccountRoles(accountId: string, roleIds: seq<string>, dir: Directory, fails: bool)
      returns (r: Normalized)
      modifies this
      ensures r == NormalizedOf(Choose(dir, roleIds), fails && old(db).Some?)
      ensures Contents() == (if r.NormalRoles? && Choose(dir, roleIds).CompactTo?
                             then KeptOnly(old(Contents()), accountId, Choose(dir, roleIds).roleId)
                             else old(Contents()))
    {
      if |roleIds| <= 1 {
        if |roleIds| == 1 && TrimSpace(roleIds[0]) != "" {
          return NormalRoles([TrimSpace(roleIds[0])]);
        }
        return NoValidRoleError;
      }
      for k := 0 to |roleIds|
        invariant Choose(dir, roleIds) == FirstEnabled(dir, roleIds[k..])
        invariant db == old(db) && Contents() == old(Contents())
      {
        assert roleIds[k..][1..] == roleIds[k + 1..];
        var roleId := TrimSpace(roleIds[k]);
        if roleId == "" {
          continue;
        }
        var verdict := AdminRoleDetail(dir, roleId);
        if verdict.DetailError? {
          return NormalizeError;
        }
        if verdict.DetailAbsent? || NormalizeRoleStatus(verdict.detail) != "enabled" {
          continue;
        }
        var ok := KeepOnlyAccountRole(accountId, roleId, fails);
        return if ok then NormalRoles([roleId]) else NormalizeError;
      }
      return NoValidRoleError;
    }

    /** The DELETE and the INSERTs of replaceAccountRolesTx on a transaction's working copy; None: one of them
        failed. */
    static method ReplaceAccountRolesTx(tx: Db, accountId: string, roleIds: seq<string>, ranks: seq<int>, failAt: nat,
                                        stmt: nat)
      returns (done: Option<Db>)
      requires |ranks| == |roleIds|
      ensures done == ReplaceRoles(tx, accountId, roleIds, ranks, failAt, stmt)
    {
      if failAt == stmt {
        return None;
      }
      var work := tx.(bindings := Without(tx.bindings, accountId));
      for k := 0 to |roleIds|
        invariant ReplaceRoles(tx, accountId, roleIds, ranks, failAt, stmt)
               == InsertBindings(work, accountId, roleIds[k..], ranks[k..], failAt, stmt + 1 + k)
      {
        assert roleIds[k..][1..] == roleIds[k + 1..] && ranks[k..][1..] == ranks[k + 1..];
        if failAt == stmt + 1 + k {
          return None;
        }
        var inserted := InsertBinding(work, Binding(ranks[k], accountId, roleIds[k]));
        if inserted.None? {
          return None;
        }
        work := inserted.value;
      }
      return Some(work);
    }

    // ---------- lookups ----------

    /** Rows are read at statement 0, roles at 1, and the compaction is statement 2. */
    method GetAccountByID(rawId: string, dir: Directory, failAt: nat) returns (found: Lookup)
      modifies this
      ensures Contents() == GetById(old(Contents()), rawId, dir, failAt).0
      ensures found == GetById(old(Contents()), rawId, dir, failAt).1
    {
      var accountId := TrimSpace(rawId);
      if db.Some? {
        if failAt == 0 {
          return LookupError;
        }
        if accountId !in db.value.rows {
          return NoAccount;
        }
        found := FinishInSql(db.value.rows[accountId].account, dir, failAt);
        return;
      }
      if accountId !in accounts {
        return NoAccount;
      }
      found := FinishInMemory(accounts[accountId], RolesIn(roles, accountId), dir);
    }

    /** The roles of a row that was read. */
    method FinishInSql(account: Account, dir: Directory, failAt: nat) returns (found: Lookup)
      requires db.Some?
      modifies this
      ensures Contents() == Sql(SqlRoles(old(db).value, account, dir, failAt).0)
      ensures found == SqlRoles(old(db).value, account, dir, failAt).1
    {
      if failAt == 1 {
        return LookupError;
      }
      var normalized := NormalizeAccountRoles(account.id, RolesOf(db.value.bindings, account.id), dir, failAt == 2);
      return LookupOf(account, normalized);
    }

    method FinishInMemory(account: Account, roleIds: seq<string>, dir: Directory) returns (found: Lookup)
      requires db.None?
      modifies this
      ensures Contents() == Mem(MemRoles(Memory(old(accounts), old(roles)), account, roleIds, dir).0)
      ensures found == MemRoles(Memory(old(accounts), old(roles)), account, roleIds, dir).1
    {
      var normalized := NormalizeAccountRoles(account.id, roleIds, dir, false);
      return LookupOf(account, normalized);
    }

    /** The loop over the accounts, in any order, up to the first with the name. */
    static method KeyWithName(accounts: map<string, Account>, username: string) returns (key: Option<string>)
      ensures IsKeyOf(accounts, username, key)
    {
      var rest := accounts.Keys;
      while rest != {}
        invariant rest <= accounts.Keys
        invariant forall id | id in accounts.Keys - rest :: accounts[id].username != username
        decreases rest
      {
        var id :| id in rest;
        if accounts[id].username == username {
          return Some(id);
        }
        rest := rest - {id};
      }
      return None;
    }

    method GetAccountByAccount(username: string, dir: Directory, failAt: nat)
      returns (found: Lookup, ghost key: Option<string>)
      modifies this
      ensures IsKeyOf(AccountsOf(old(Contents())), username, key)
      ensures Contents() == GetByKey(old(Contents()), key, dir, failAt).0
      ensures found == GetByKey(old(Contents()), key, dir, failAt).1
    {
      var at := KeyWithName(AccountsOf(Contents()), username);
      key := at;
      if db.Some? {
        if failAt == 0 {
          return LookupError, key;
        }
        if at.None? {
          return NoAccount, key;
        }
        found := FinishInSql(db.value.rows[at.value].account, dir, failAt);
        return;
      }
      if at.None? {
        return NoAccount, key;
      }
      var account := accounts[at.value];
      found := FinishInMemory(account, RolesIn(roles, account.id), dir);
    }

    // ---------- writes ----------

    method CreateAccount(draw: Draw, username: string, hash: string, status: string, roleIds: seq<string>, failAt: nat)
      returns (reply: Reply)
      requires |draw.ranks| == |roleIds|
      modifies this
      ensures Contents() == Create(old(Contents()), draw, username, hash, status, roleIds, failAt).0
      ensures reply == Create(old(Contents()), draw, username, hash, status, roleIds, failAt).1
    {
      var account := Account(draw.id, username, hash, status, false, draw.now, draw.now);
      if db.Some? {
        if failAt == 0 {
          return StoreError;
        }
        var tx := db.value;
        if failAt == 1 || draw.id in tx.rows || NameTaken(tx.rows, username, draw.id) {
          return StoreError;
        }
        tx := tx.(rows := tx.rows[draw.id := Row(account, false, None)]);
        var replaced := ReplaceAccountRolesTx(tx, draw.id, roleIds, draw.ranks, failAt, 2);
        if replaced.None? || failAt == 3 + |roleIds| {
          return StoreError;
        }
        db := replaced;
        return Stored(account, roleIds);
      }
      accounts := accounts[account.id := account];
      roles := roles[account.id := roleIds];
      return Stored(account, roleIds);
    }

    method UpdateAccount(accountId: string, status: string, roleIds: seq<string>, draw: Draw, failAt: nat)
      returns (reply: Reply)
      requires |draw.ranks| == |roleIds|
      modifies this
      ensures Contents() == Update(old(Contents()), accountId, status, roleIds, draw, failAt).0
      ensures reply == Update(old(Contents()), accountId, status, roleIds, draw, failAt).1
    {
      if db.Some? {
        if failAt == 0 {
          return StoreError;
        }
        var tx := db.value;
        if failAt == 1 {
          return StoreError;
        }
        if accountId !in tx.rows {
          return Absent;
        }
        var account := tx.rows[accountId].account.(status := status, updatedAt := draw.now);
        tx := tx.(rows := tx.rows[accountId := tx.rows[accountId].(account := account)]);
        var replaced := ReplaceAccountRolesTx(tx, account.id, roleIds, draw.ranks, failAt, 2);
        if replaced.None? || failAt == 3 + |roleIds| {
          return StoreError;
        }
        db := replaced;
        return Stored(account, roleIds);
      }
      if accountId !in accounts {
        return Absent;
      }
      var account := accounts[accountId].(status := status, updatedAt := draw.now);
      accounts := accounts[account.id := account];
      roles := roles[account.id := roleIds];
      return Stored(account, roleIds);
    }

    method ResetPassword(accountId: string, hash: string, now: int, failAt: nat) returns (reply: Reply)
      modifies this
      ensures Contents() == Reset(old(Contents()), accountId, hash, now, failAt).0
      ensures reply == Reset(old(Contents()), accountId, hash, now, failAt).1
    {
      if db.Some? {
        var rows := db.value.rows;
        if failAt == 0 {
          return StoreError;
        }
        if accountId !in rows {
          return Absent;
        }
        var account := rows[accountId].account.(passwordHash := hash, updatedAt := now);
        db := Some(db.value.(rows := rows[accountId := rows[accountId].(account := account)]));
        return Stored(account, []);
      }
      if accountId !in accounts {
        return Absent;
      }
      var account := accounts[accountId].(passwordHash := hash, updatedAt := now);
      accounts := accounts[account.id := account];
      return Stored(account, []);
    }

    method DeleteAccount(rawId: string, failAt: nat) returns (reply: DeleteReply)
      modifies this
      ensures Contents() == Delete(old(Contents()), rawId, failAt).0
      ensures reply == Delete(old(Contents()), rawId, failAt).1
    {
      var accountId := TrimSpace(rawId);
      if db.Some? {
        if failAt == 0 {
          return DeleteError;
        }
        var tx := db.value;
        if failAt == 1 {
          return DeleteError;
        }
        tx := tx.(bindings := Without(tx.bindings, accountId));
        if failAt == 2 || failAt == 3 {
          return DeleteError;
        }
        if accountId !in tx.rows {
          return NothingDeleted;
        }
        tx := tx.(rows := tx.rows - {accountId});
        if failAt == 4 {
          return DeleteError;
        }
        db := Some(tx);
        return Deleted;
      }
      if accountId !in accounts {
        return NothingDeleted;
      }
      accounts := accounts - {accountId};
      roles := roles - {accountId};
      return Deleted;
    }

    // ---------- a load ----------

    /** The statements of a load that touch what the tables hold: the index at position 0, the seed row at 1. */
    method InitStorage(now: int, failAt: nat) returns (ok: bool)
      modifies this
      ensures accounts == old(accounts) && roles == old(roles) && db.Some? == old(db).Some?
      ensures old(db).None? ==> ok
      ensures ok && old(db).Some? ==> IsLoaded(old(db).value, db.value, now)
      ensures !ok ==> db.Some? && db.value.rows == old(db).value.rows
                      && (db == old(db) || IsIndexed(old(db).value, db.value))
      ensures old(db).Some? ==>
        (ok <==> failAt > 1 && (TEMPORARY_ID in old(db).value.rows
                                || !NameTaken(old(db).value.rows, SEED_NAME, TEMPORARY_ID)))
    {
      if db.None? {
        return true;
      }
      if failAt == 0 {
        return false;
      }
      IndexMeaning(db.value);
      db := Some(SqlAddIndex(db.value));
      var rows := db.value.rows;
      if failAt == 1 || (TEMPORARY_ID !in rows && NameTaken(rows, SEED_NAME, TEMPORARY_ID)) {
        return false;
      }
      db := Some(SqlAddSeed(db.value, now));
      return true;
    }

    // ---------- the temporary administrator ----------

    /** Needs the database; one statement resets the fixed row. */
    method CreateTemporaryAdmin(username: string, hash: string, now: int, failAt: nat) returns (ok: bool)
      modifies this
      ensures old(db).None? ==> !ok && Contents() == old(Contents())
      ensures old(db).Some? ==> db.Some? && accounts == old(accounts) && roles == old(roles)
      ensures old(db).Some? ==>
        (db.value, ok) == SqlGenerate(old(db).value, username, hash, now + Machine.TEMPORARY_TTL, now, failAt)
      ensures if ok then old(db).Some? && IsGenerated(old(db).value, db.value, username, hash, now) else db == old(db)
      ensures ok <==> && old(db).Some? && failAt > 0
                      && forall id | id in old(db).value.rows && id != TEMPORARY_ID ::
                          old(db).value.rows[id].account.username != username
    {
      if db.None? {
        return false;
      }
      var rows := db.value.rows;
      if failAt == 0 || NameTaken(rows, username, TEMPORARY_ID) {
        return false;
      }
      var createdAt := now;
      if TEMPORARY_ID in rows {
        createdAt := rows[TEMPORARY_ID].account.createdAt;
      }
      var account := Account(TEMPORARY_ID, username, hash, "enabled", true, createdAt, now);
      db := Some(db.value.(rows := rows[TEMPORARY_ID := Row(account, true, Some(now + Machine.TEMPORARY_TTL))]));
      return true;
    }

    /** One scan of the worker. */
    method DisableExpired(now: int, fails: bool)
      modifies this
      ensures accounts == old(accounts) && roles == old(roles) && db.Some? == old(db).Some?
      ensures fails ==> db == old(db)
      ensures old(db).Some? && !fails ==> IsScanned(old(db).value, db.value, now)
    {
      if db.None? {
        return;
      }
      if !fails {
        db := Some(SqlTick(db.value, now));
      }
    }

    // ---------- sessions ----------

    method CurrentAccountByToken(rawToken: string, env: Env) returns (session: Session)
      modifies this
      ensures Contents() == ByRedis(old(Contents()), rawToken, env).0
      ensures session == ByRedis(old(Contents()), rawToken, env).1
    {
      var token := TrimSpace(rawToken);
      if token == "" {
        return SessionMissing;
      }
      var answer := env.redis(token);
      if !answer.SessionOf? {
        return SessionMissing;
      }
      var found := GetAccountByID(answer.accountId, env.dir, env.redisFault);
      return SessionFrom(found);
    }

    method CurrentProjectAdminAccountByToken(rawToken: string, env: Env) returns (session: Session)
      modifies this
      ensures Contents() == ByProject(old(Contents()), rawToken, env).0
      ensures session == ByProject(old(Contents()), rawToken, env).1
    {
      var token := TrimSpace(rawToken);
      if token == "" {
        return SessionMissing;
      }
      var answer := env.project(token);
      if answer.NoProjectSession? || answer.ProjectError? {
        return SessionMissing;
      }
      var accountId := if answer.FromHook? then TrimSpace(answer.hookId) else answer.tableId;
      if accountId == "" {
        return AccountMissing;
      }
      var found := GetAccountByID(accountId, env.dir, env.projectFault);
      return SessionFrom(found);
    }

    method CurrentAccountByAnySessionToken(token: string, env: Env) returns (session: Session)
      modifies this
      ensures Contents() == ByAnyToken(old(Contents()), token, env).0
      ensures session == ByAnyToken(old(Contents()), token, env).1
    {
      session := CurrentAccountByToken(token, env);
      if session != SessionMissing {
        return;
      }
      session := CurrentProjectAdminAccountByToken(token, env);
    }

    method CurrentProjectAdminAccount(env: Env) returns (session: Session)
      modifies this
      ensures Contents() == ByHeaders(old(Contents()), env).0
      ensures session == ByHeaders(old(Contents()), env).1
    {
      var accountId := TrimSpace(env.headers.accountId);
      if accountId != "" {
        var found := GetAccountByID(accountId, env.dir, env.headerFault);
        return if found.NoValidRole? then SessionMissing else SessionFrom(found);
      }
      var token := TrimSpace(env.headers.adminSessionToken);
      if token == "" {
        token := TrimSpace(env.headers.adminToken);
      }
      if token == "" {
        token := TrimSpace(TrimBearer(env.headers.authorization));
      }
      if token == "" {
        return SessionMissing;
      }
      session := CurrentProjectAdminAccountByToken(token, env);
    }

    method RequireAccountManageToken(token: string, env: Env, codes: Codes) returns (gate: Gate)
      modifies this
      ensures Contents() == RequireManage(old(Contents()), token, env, codes).0
      ensures gate == RequireManage(old(Contents()), token, env, codes).1
    {
      var session := CurrentAccountByAnySessionToken(token, env);
      if session == SessionMissing && TrimSpace(token) == "" {
        session := CurrentProjectAdminAccount(env);
      }
      if !session.AccountOk? || session.account.status != "enabled" {
        return Refused(codes.invalid);
      }
      if session.account.isSuperAdmin {
        return Admitted(session.account);
      }
      var evaluation := EvaluateRolePermission(env.dir, session.roleIds, MANAGE);
      if evaluation.EvaluationError? {
        return Refused(codes.failure);
      }
      return if |evaluation.matched| > 0 then Admitted(session.account) else Refused(codes.denied);
    }

    // ---------- handlers ----------

    method HandleCheckPermission(rawToken: string, rawCode: string, env: Env) returns (answer: Answer)
      modifies this
      ensures Contents() == CheckPermission(old(Contents()), rawToken, rawCode, env).0
      ensures answer == CheckPermission(old(Contents()), rawToken, rawCode, env).1
      ensures OnlyCompacted(old(Contents()), Contents())
    {
      AnyTokenOnlyCompacts(Contents(), TrimSpace(rawToken), env);
      var token, code := TrimSpace(rawToken), TrimSpace(rawCode);
      if token == "" {
        return Error(2271);
      }
      if !ValidPermissionCode(code) {
        return Error(2273);
      }
      var session := CurrentAccountByAnySessionToken(token, env);
      if session.SessionMissing? {
        return Error(2272);
      }
      if !session.AccountOk? || session.account.status != "enabled" {
        return Error(2274);
      }
      if session.account.isSuperAdmin {
        return Answer(0, Permission(true, true, [], []));
      }
      if |session.roleIds| != 1 {
        return Error(2274);
      }
      var evaluation := EvaluateRolePermission(env.dir, session.roleIds, code);
      if evaluation.EvaluationError? {
        return Error(2275);
      }
      var states := evaluation.states;
      if |states| != 1 || states[0].roleStatus != "enabled" {
        return Error(2274);
      }
      return Answer(0, Permission(|evaluation.matched| > 0, false, evaluation.matched, states));
    }

    method HandleMe(rawToken: string, env: Env) returns (answer: Answer)
      modifies this
      ensures Contents() == Me(old(Contents()), rawToken, env).0
      ensures answer == Me(old(Contents()), rawToken, env).1
      ensures OnlyCompacted(old(Contents()), Contents())
    {
      AnyTokenOnlyCompacts(Contents(), TrimSpace(rawToken), env);
      var token := TrimSpace(rawToken);
      if token == "" {
        return Error(2211);
      }
      var session := CurrentAccountByAnySessionToken(token, env);
      if session.SessionMissing? {
        return Error(2212);
      }
      if session.AccountMissing? {
        return Error(2213);
      }
      if !session.AccountOk? || session.account.status != "enabled" {
        return Error(2214);
      }
      if session.account.isSuperAdmin {
        return Answer(0, Profile(session.account, [], []));
      }
      var details := RoleDetailsAndPermissions(env.dir, session.roleIds);
      DetailsUnique(env.dir, session.roleIds, details, DetailsOf(env.dir, session.roleIds));
      if details.DetailsError? {
        return Error(2215);
      }
      if |details.roles| != 1 || details.roles[0].roleStatus != "enabled" {
        return Error(2214);
      }
      return Answer(0, Profile(session.account, details.roles, details.permissions));
    }

    /** cleanAndValidateRoles. */
    static method CleanAndValidateRoles(dir: Directory, roleIds: seq<string>) returns (cleaned: Cleaned)
      ensures cleaned == CleanRoles(dir, roleIds)
    {
      if |roleIds| != 1 {
        return BadRoles;
      }
      var roleId := TrimSpace(roleIds[0]);
      if roleId == "" || !ValidRecordId(roleId) {
        return BadRoles;
      }
      var available := RolesAvailable(dir, [roleId]);
      return if available == Available(true) then Clean(roleId) else RoleUnavailable;
    }

    method HandleLogin(rawAccount: string, password: string, dir: Directory, draw: LoginDraw)
      returns (answer: Answer, ghost key: Option<string>)
      modifies this
      ensures IsKeyOf(AccountsOf(old(Contents())), TrimSpace(rawAccount), key)
      ensures Contents() == LoginAt(old(Contents()), key, rawAccount, password, dir, draw).0
      ensures answer == LoginAt(old(Contents()), key, rawAccount, password, dir, draw).1
      ensures OnlyCompacted(old(Contents()), Contents())
      ensures NamesUnique(AccountsOf(old(Contents()))) ==>
        (Contents(), answer) == Login(old(Contents()), rawAccount, password, dir, draw)
      ensures if answer.status == 0 then IsLoggedIn(old(Contents()), rawAccount, password, draw, answer.data)
              else answer.data == Nothing
    {
      ghost var before := Contents();
      var account := TrimSpace(rawAccount);
      key := KeyOfName(AccountsOf(before), account);
      if ValidAccount(account) && ValidPassword(password) {
        answer, key := LoginWithName(account, password, dir, draw);
      } else {
        answer := Error(2201);
      }
      LoginAtCompacts(before, key, rawAccount, password, dir, draw);
      LoginIsSound(before, key, rawAccount, password, dir, draw);
      if NamesUnique(AccountsOf(before)) { KeyIsUnique(AccountsOf(before), TrimSpace(rawAccount), key); }
    }

    /** What follows the checks of the form. */
    method LoginWithName(account: string, password: string, dir: Directory, draw: LoginDraw)
      returns (answer: Answer, ghost key: Option<string>)
      modifies this
      ensures IsKeyOf(AccountsOf(old(Contents())), account, key)
      ensures Contents() == GetByKey(old(Contents()), key, dir, draw.nameFault).0
      ensures answer == LoginFrom(GetByKey(old(Contents()), key, dir, draw.nameFault).1, password, dir, draw)
    {
      var found: Lookup;
      found, key := GetAccountByAccount(account, dir, draw.nameFault);
      if found.NoValidRole? {
        return Error(2203), key;
      }
      if found.LookupError? {
        return Error(2204), key;
      }
      if !found.Found? || found.account.passwordHash != draw.hash(password) {
        return Error(2202), key;
      }
      if found.account.status != "enabled" {
        return Error(2203), key;
      }
      var available := RolesAvailable(dir, found.roleIds);
      if available.CannotTell? {
        return Error(2204), key;
      }
      if !available.all {
        return Error(2203), key;
      }
      answer := if draw.stored then Answer(0, Credential(found.account, found.roleIds, draw.token)) else Error(2204);
    }

    method HandleAccountCreate(req: CreateRequest, env: Env, w: WriteDraw)
      returns (answer: Answer, ghost key: Option<string>)
      requires |w.draw.ranks| == 1
      modifies this
      ensures IsKeyOf(AccountsOf(old(Contents())), TrimSpace(req.account), key)
      ensures AccountsOf(RequireManage(old(Contents()), req.token, env, CREATE_CODES).0) == AccountsOf(old(Contents()))
      ensures Contents() == CreateAt(old(Contents()), key, req, env, w).0
      ensures answer == CreateAt(old(Contents()), key, req, env, w).1
      ensures NamesUnique(AccountsOf(old(Contents()))) ==>
        (Contents(), answer) == HandleCreate(old(Contents()), req, env, w)
      ensures StoreOk(old(Contents())) && Trimmed(w.draw.id) && w.draw.id !in AccountsOf(old(Contents())) ==>
        StoreOk(Contents()) && CreateOutcome(old(Contents()), Contents(), req, env, w, answer)
    {
      ghost var before := Contents();
      GateCompacts(before, req.token, env, CREATE_CODES);
      key := KeyOfName(AccountsOf(before), TrimSpace(req.account));
      var gate := RequireAccountManageToken(req.token, env, CREATE_CODES);
      assert AccountsOf(Contents()) == AccountsOf(before);
      if gate.Refused? {
        answer := Error(gate.code);
      } else {
        answer, key := CreateAdmitted(req, env.dir, w);
      }
      if NamesUnique(AccountsOf(before)) { KeyIsUnique(AccountsOf(before), TrimSpace(req.account), key); }
      if StoreOk(before) && Trimmed(w.draw.id) && w.draw.id !in AccountsOf(before) {
        CreateEnds(before, key, req, env, w);
      }
    }

    /** What follows the gate. */
    method CreateAdmitted(req: CreateRequest, dir: Directory, w: WriteDraw)
      returns (answer: Answer, ghost key: Option<string>)
      requires |w.draw.ranks| == 1
      modifies this
      ensures IsKeyOf(AccountsOf(old(Contents())), TrimSpace(req.account), key)
      ensures Contents() == CreateAdmittedAt(old(Contents()), key, req, dir, w).0
      ensures answer == CreateAdmittedAt(old(Contents()), key, req, dir, w).1
    {
      var account, status := TrimSpace(req.account), NormalizeStatus(req.status);
      key := KeyOfName(AccountsOf(Contents()), account);
      var cleaned := CleanAndValidateRoles(dir, req.roleIds);
      if !cleaned.Clean? {
        return Error(if cleaned.BadRoles? then 2225 else 2226), key;
      }
      if !ValidAccount(account) || !ValidPassword(req.password) || status == "" {
        return Error(2223), key;
      }
      var found: Lookup;
      found, key := GetAccountByAccount(account, dir, w.lookupFault);
      if found.LookupError? || found.NoValidRole? {
        return Error(2227), key;
      }
      if found.Found? {
        return Error(2224), key;
      }
      var reply := CreateAccount(w.draw, account, w.hash(req.password), status, [cleaned.roleId], w.writeFault);
      answer := if reply.Stored? then Answer(0, Record(reply.account, reply.roleIds)) else Error(2227);
    }

    method HandleAccountUpdate(req: UpdateRequest, env: Env, w: WriteDraw) returns (answer: Answer)
      requires |w.draw.ranks| == 1
      modifies this
      ensures Contents() == HandleUpdate(old(Contents()), req, env, w).0
      ensures answer == HandleUpdate(old(Contents()), req, env, w).1
      ensures StoreOk(old(Contents())) ==>
        StoreOk(Contents()) && UpdateOutcome(old(Contents()), Contents(), req, env, w.draw.now, answer)
    {
      if StoreOk(Contents()) { UpdateEnds(Contents(), req, env, w); }
      var gate := RequireAccountManageToken(req.token, env, UPDATE_CODES);
      if gate.Refused? {
        return Error(gate.code);
      }
      answer := UpdateAdmitted(gate.operator, req, env.dir, w);
    }

    /** What follows the gate. */
    method UpdateAdmitted(operator: Account, req: UpdateRequest, dir: Directory, w: WriteDraw) returns (answer: Answer)
      requires |w.draw.ranks| == 1
      modifies this
      ensures Contents() == Handlers.UpdateAdmitted(old(Contents()), operator, req, dir, w).0
      ensures answer == Handlers.UpdateAdmitted(old(Contents()), operator, req, dir, w).1
    {
      var status := NormalizeStatus(req.status);
      var cleaned := CleanAndValidateRoles(dir, req.roleIds);
      if !cleaned.Clean? {
        return Error(if cleaned.BadRoles? then 2255 else 2256);
      }
      if !ValidRecordId(req.accountId) {
        return Error(2253);
      }
      if status == "" {
        return Error(2255);
      }
      var found := GetAccountByID(req.accountId, dir, w.lookupFault);
      if found.LookupError? || found.NoValidRole? {
        return Error(2258);
      }
      if found.NoAccount? {
        return Error(2254);
      }
      if found.account.isSuperAdmin && !operator.isSuperAdmin {
        return Error(2257);
      }
      var reply := UpdateAccount(req.accountId, status, [cleaned.roleId], w.draw, w.writeFault);
      return match reply
        case StoreError => Error(2258)
        case Absent => Error(2254)
        case Stored(account, roleIds) => Answer(0, Record(account, roleIds));
    }

    method HandleResetPassword(req: ResetRequest, env: Env, w: WriteDraw) returns (answer: Answer)
      modifies this
      ensures Contents() == HandleReset(old(Contents()), req, env, w).0
      ensures answer == HandleReset(old(Contents()), req, env, w).1
      ensures StoreOk(old(Contents())) ==>
        && StoreOk(Contents())
        && ResetOutcome(old(Contents()), Contents(), req, env, w.hash(req.newPassword), w.draw.now, answer)
    {
      if StoreOk(Contents()) { ResetEnds(Contents(), req, env, w); }
      var gate := RequireAccountManageToken(req.token, env, RESET_CODES);
      if gate.Refused? {
        return Error(gate.code);
      }
      if !ValidRecordId(req.accountId) {
        return Error(2263);
      }
      if !ValidPassword(req.newPassword) {
        return Error(2265);
      }
      var found := GetAccountByID(req.accountId, env.dir, w.lookupFault);
      if found.LookupError? || found.NoValidRole? {
        return Error(2267);
      }
      if found.NoAccount? {
        return Error(2264);
      }
      if found.account.isSuperAdmin && !gate.operator.isSuperAdmin {
        return Error(2266);
      }
      var reply := ResetPassword(req.accountId, w.hash(req.newPassword), w.draw.now, w.writeFault);
      return match reply
        case StoreError => Error(2267)
        case Absent => Error(2264)
        case Stored(account, _) => Answer(0, Updated(req.accountId, account.updatedAt));
    }

    method HandleAccountDelete(req: DeleteRequest, env: Env, w: WriteDraw) returns (answer: Answer)
      modifies this
      ensures Contents() == HandleDelete(old(Contents()), req, env, w).0
      ensures answer == HandleDelete(old(Contents()), req, env, w).1
      ensures StoreOk(old(Contents())) ==>
        StoreOk(Contents()) && DeleteOutcome(old(Contents()), Contents(), req, env, answer)
    {
      if StoreOk(Contents()) { DeleteEnds(Contents(), req, env, w); }
      var gate := RequireAccountManageToken(req.token, env, DELETE_CODES);
      if gate.Refused? {
        return Error(gate.code);
      }
      var accountId := TrimSpace(req.accountId);
      if !ValidRecordId(accountId) {
        return Error(2293);
      }
      var found := GetAccountByID(accountId, env.dir, w.lookupFault);
      if found.LookupError? || found.NoValidRole? {
        return Error(2297);
      }
      if found.NoAccount? {
        return Error(2294);
      }
      if found.account.id == gate.operator.id {
        return Error(2295);
      }
      if found.account.isSuperAdmin && !gate.operator.isSuperAdmin {
        return Error(2296);
      }
      var deleted := DeleteAccount(accountId, w.writeFault);
      return match deleted
        case DeleteError => Error(2297)
        case NothingDeleted => Error(2294)
        case Deleted => Answer(0, Nothing);
    }
  }
}
