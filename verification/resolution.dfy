/** Whom a request is answered for: what a lookup finds, told from the stored rows and the role module's answers as they
    come; which account a token or the headers lead to; and who passes the gate. */
module Resolution {
  import opened Text
  import opened RoleClient
  import opened Store
  import opened Schema
  import opened Handlers
  import opened Verdicts

  // ---------- lookups ----------

  ghost predicate Keyed(store: Store, id: string) {
    Trimmed(id) && id in AccountsOf(store) && AccountsOf(store)[id].id == id
  }

  /** The role is blank, or the role module says that it is not enabled. */
  predicate Skipped(dir: Directory, role: string) {
    TrimSpace(role) == ""
    || (!SaysEnabled(dir.detail(TrimSpace(role))) && !TellsNothing(dir.detail(TrimSpace(role))))
  }

  /** The first role at k of several is neither blank nor known not to be enabled. */
  predicate Decides(dir: Directory, stored: seq<string>, k: nat) {
    |stored| > 1 && k < |stored| && !Skipped(dir, stored[k]) && forall i | 0 <= i < k :: Skipped(dir, stored[i])
  }

  /** A single nonblank role is taken as it stands, and nothing is asked. */
  lemma FindsSingleRole(store: Store, id: string, dir: Directory, fault: nat, roleId: string)
    requires Keyed(store, id) && StoredRoles(store, id) == [roleId] && TrimSpace(roleId) != "" && fault > 1
    ensures GetById(store, id, dir, fault) == (store, Found(AccountsOf(store)[id], [TrimSpace(roleId)]))
  {
  }

  /** Without a usable role only a super administrator is found. */
  lemma FindsNoRole(store: Store, id: string, dir: Directory, fault: nat)
    requires Keyed(store, id) && fault > 1
    requires var stored := StoredRoles(store, id);
      if |stored| == 1 then TrimSpace(stored[0]) == "" else forall i | 0 <= i < |stored| :: Skipped(dir, stored[i])
    ensures var account := AccountsOf(store)[id];
      GetById(store, id, dir, fault)
        == (store, if account.isSuperAdmin then Found(account, []) else NoValidRole(account))
  {
    var stored := StoredRoles(store, id);
    if |stored| > 1 { SkippedFront(dir, stored, |stored|); }
  }

  lemma SkippedHead(dir: Directory, stored: seq<string>)
    requires stored != [] && Skipped(dir, stored[0])
    ensures FirstEnabled(dir, stored) == FirstEnabled(dir, stored[1..])
  {
    StandingOnReply(dir, TrimSpace(stored[0]));
  }

  lemma DecisiveHead(dir: Directory, stored: seq<string>)
    requires stored != [] && !Skipped(dir, stored[0])
    ensures var role := TrimSpace(stored[0]);
      FirstEnabled(dir, stored) == if SaysEnabled(dir.detail(role)) then CompactTo(role) else OracleFailed
  {
    StandingOnReply(dir, TrimSpace(stored[0]));
  }

  lemma {:induction false} SkippedFront(dir: Directory, stored: seq<string>, k: nat)
    requires k <= |stored| && forall i | 0 <= i < k :: Skipped(dir, stored[i])
    ensures FirstEnabled(dir, stored) == FirstEnabled(dir, stored[k..])
  {
    if k == 0 {
      assert stored[0..] == stored;
    } else {
      SkippedFront(dir, stored, k - 1);
      SkippedHead(dir, stored[k - 1..]);
      assert stored[k - 1..][1..] == stored[k..];
    }
  }

  lemma FirstDecides(dir: Directory, stored: seq<string>, k: nat)
    requires k < |stored| && !Skipped(dir, stored[k]) && forall i | 0 <= i < k :: Skipped(dir, stored[i])
    ensures var role := TrimSpace(stored[k]);
      FirstEnabled(dir, stored) == if SaysEnabled(dir.detail(role)) then CompactTo(role) else OracleFailed
  {
    SkippedFront(dir, stored, k);
    DecisiveHead(dir, stored[k..]);
  }

  /** Of several roles the first enabled one is found, and it alone is kept, if its trimmed text was stored. */
  lemma FindsFirstEnabled(store: Store, id: string, dir: Directory, fault: nat, k: nat)
    requires Keyed(store, id) && fault > 2 && Decides(dir, StoredRoles(store, id), k)
    requires SaysEnabled(dir.detail(TrimSpace(StoredRoles(store, id)[k])))
    requires store.Sql? ==> SchemaOk(store.db)
    ensures var role := TrimSpace(StoredRoles(store, id)[k]);
      var (store', found) := GetById(store, id, dir, fault);
      && found == Found(AccountsOf(store)[id], [role])
      && StoredRoles(store', id) == if store.Mem? || role in StoredRoles(store, id) then [role] else []
  {
    FirstDecides(dir, StoredRoles(store, id), k);
    var role := TrimSpace(StoredRoles(store, id)[k]);
    assert Choose(dir, StoredRoles(store, id)) == CompactTo(role);
    if store.Sql? { KeepOnlyOwn(store.db.bindings, id, role, store.db.oneRolePerAccount); }
  }

  /** A question that fails before an enabled role is found fails the lookup. */
  lemma FailsOnQuestion(store: Store, id: string, dir: Directory, fault: nat, k: nat)
    requires Keyed(store, id) && fault > 1 && Decides(dir, StoredRoles(store, id), k)
    requires TellsNothing(dir.detail(TrimSpace(StoredRoles(store, id)[k])))
    ensures GetById(store, id, dir, fault) == (store, LookupError)
  {
    FirstDecides(dir, StoredRoles(store, id), k);
  }

  /** So does a statement: the row's, the roles', or the compaction's if there is one. */
  lemma FailsOnStatement(db: Db, id: string, dir: Directory, fault: nat, k: nat)
    requires fault == 0 || Keyed(Sql(db), id)
    requires fault <= 1 || (fault == 2 && Decides(dir, RolesOf(db.bindings, id), k))
    ensures GetById(Sql(db), id, dir, fault) == (Sql(db), LookupError)
  {
    if fault == 2 { FirstDecides(dir, RolesOf(db.bindings, id), k); }
  }

  lemma FindsNobody(store: Store, id: string, dir: Directory, fault: nat)
    requires TrimSpace(id) !in AccountsOf(store) && (store.Mem? || fault > 0)
    ensures GetById(store, id, dir, fault) == (store, NoAccount)
  {
  }

  /** The lookup of a name is that of the account with the name, and finds nobody without one. */
  lemma NameLeads(store: Store, key: Option<string>, dir: Directory, fault: nat)
    requires key.Some? ==> Keyed(store, key.value)
    ensures key.Some? ==> GetByKey(store, key, dir, fault) == GetById(store, key.value, dir, fault)
    ensures key.None? && (store.Mem? || fault > 0) ==> GetByKey(store, key, dir, fault) == (store, NoAccount)
  {
  }

  // ---------- tokens and headers ----------

  /** What a session is when its account has been looked up. */
  predicate IsSessionOf(session: Session, found: Lookup) {
    && (found.Found? ==> session == AccountOk(found.account, found.roleIds))
    && (found.NoValidRole? ==> session == AccountInvalidRole(found.account))
    && (found.NoAccount? ==> session == AccountMissing)
    && (found.LookupError? ==> session == SessionMissing)
  }

  /** A token that Redis knows leads to its account; if that lookup fails, the project is asked. */
  lemma RedisLeads(store: Store, token: string, env: Env, id: string)
    requires TrimSpace(token) != "" && env.redis(TrimSpace(token)) == SessionOf(id)
    ensures var (store', found) := GetById(store, id, env.dir, env.redisFault);
      var (store'', session) := ByAnyToken(store, token, env);
      if found.LookupError? then (store'', session) == ByProject(store', token, env)
      else store'' == store' && IsSessionOf(session, found)
  {
  }

  /** One that Redis does not know, or cannot be asked for, leads where the project says. */
  lemma ProjectLeads(store: Store, token: string, env: Env)
    requires TrimSpace(token) != "" && !env.redis(TrimSpace(token)).SessionOf?
    ensures ByAnyToken(store, token, env) == ByProject(store, token, env)
  {
  }

  /** The project's hook is trimmed and its table is not; no session and an error are told from a blank account. */
  lemma ProjectRules(store: Store, token: string, env: Env)
    requires TrimSpace(token) != ""
    ensures var answer := env.project(TrimSpace(token));
      var (store', session) := ByProject(store, token, env);
      && (answer.NoProjectSession? || answer.ProjectError? ==> (store', session) == (store, SessionMissing))
      && (answer.FromHook? && TrimSpace(answer.hookId) == "" ==> (store', session) == (store, AccountMissing))
      && (answer.FromTable? && answer.tableId == "" ==> (store', session) == (store, AccountMissing))
      && (answer.FromHook? && TrimSpace(answer.hookId) != "" ==>
            var (looked, found) := GetById(store, answer.hookId, env.dir, env.projectFault);
            store' == looked && IsSessionOf(session, found))
      && (answer.FromTable? && answer.tableId != "" ==>
            var (looked, found) := GetById(store, answer.tableId, env.dir, env.projectFault);
            store' == looked && IsSessionOf(session, found))
  {
  }

  lemma BlankTokenLeadsNowhere(store: Store, token: string, env: Env)
    requires TrimSpace(token) == ""
    ensures ByAnyToken(store, token, env) == (store, SessionMissing)
  {
  }

  /** The token that the headers carry: the first that is not blank of three, the last without its scheme. */
  ghost predicate HeaderToken(headers: Headers, token: string) {
    && (TrimSpace(headers.adminSessionToken) != "" ==> token == TrimSpace(headers.adminSessionToken))
    && (TrimSpace(headers.adminSessionToken) == "" && TrimSpace(headers.adminToken) != "" ==>
          token == TrimSpace(headers.adminToken))
    && (TrimSpace(headers.adminSessionToken) == "" && TrimSpace(headers.adminToken) == "" ==>
          if |headers.authorization| >= 7 && headers.authorization[..7] == "Bearer "
          then token == TrimSpace(headers.authorization[7..])
          else token == TrimSpace(headers.authorization))
  }

  /** The gate looks at the headers only if the request has no token, */
  lemma GateLooksAtToken(store: Store, token: string, env: Env, codes: Codes)
    requires TrimSpace(token) != ""
    ensures var (looked, session) := ByAnyToken(store, token, env);
      RequireManage(store, token, env, codes) == (looked, Judgment(env.dir, session, codes))
  {
  }

  /** at the account ID first, */
  lemma GateLooksAtAccountHeader(store: Store, token: string, env: Env, codes: Codes)
    requires TrimSpace(token) == "" && TrimSpace(env.headers.accountId) != ""
    ensures var (looked, found) := GetById(store, env.headers.accountId, env.dir, env.headerFault);
      RequireManage(store, token, env, codes)
        == (looked, if found.Found? then Judgment(env.dir, AccountOk(found.account, found.roleIds), codes)
                    else Refused(codes.invalid))
  {
    BlankTokenLeadsNowhere(store, token, env);
    AccountHeader(store, env);
  }

  lemma AccountHeader(store: Store, env: Env)
    requires TrimSpace(env.headers.accountId) != ""
    ensures var (looked, found) := GetById(store, env.headers.accountId, env.dir, env.headerFault);
      var (store', session) := ByHeaders(store, env);
      && store' == looked
      && if found.Found? then session == AccountOk(found.account, found.roleIds) else !session.AccountOk?
  {
    assert GetById(store, TrimSpace(env.headers.accountId), env.dir, env.headerFault)
        == GetById(store, env.headers.accountId, env.dir, env.headerFault);
  }

  /** and then at the tokens, which only the project knows. */
  lemma GateLooksAtTokenHeaders(store: Store, token: string, env: Env, codes: Codes, headerToken: string)
    requires TrimSpace(token) == "" && TrimSpace(env.headers.accountId) == "" && HeaderToken(env.headers, headerToken)
    ensures var (looked, session) :=
        if headerToken == "" then (store, SessionMissing) else ByProject(store, headerToken, env);
      RequireManage(store, token, env, codes) == (looked, Judgment(env.dir, session, codes))
  {
    BlankTokenLeadsNowhere(store, token, env);
    TokenHeaders(store, env, headerToken);
  }

  lemma TokenHeaders(store: Store, env: Env, headerToken: string)
    requires TrimSpace(env.headers.accountId) == "" && HeaderToken(env.headers, headerToken)
    ensures ByHeaders(store, env)
      == if headerToken == "" then (store, SessionMissing) else ByProject(store, headerToken, env)
  {
  }

  // ---------- who passes the gate ----------

  /** An ordinary account with one role, known to Redis by the request's token, passes the gate if and only if it is
      enabled and the role module says that its role is enabled and has the management permission. */
  lemma AdmittedIff(store: Store, token: string, env: Env, codes: Codes, id: string, roleId: string)
    requires TrimSpace(token) != "" && env.redis(TrimSpace(token)) == SessionOf(id) && env.redisFault > 1
    requires Keyed(store, id) && StoredRoles(store, id) == [roleId] && TrimSpace(roleId) != ""
    requires !AccountsOf(store)[id].isSuperAdmin
    ensures var account, role := AccountsOf(store)[id], TrimSpace(roleId);
      var (store', gate) := RequireManage(store, token, env, codes);
      && store' == store
      && (gate == Admitted(account)
          <==> account.status == "enabled" && SaysEnabled(env.dir.detail(role))
               && SaysAllowed(env.dir.check(role, "admin_account.manage")))
      && (gate != Admitted(account) ==> gate.Refused?)
  {
    var account, role := AccountsOf(store)[id], TrimSpace(roleId);
    FindsSingleRole(store, id, env.dir, env.redisFault, roleId);
    RedisLeads(store, token, env, id);
    var session := AccountOk(account, [role]);
    GateOnSession(env.dir, session, codes);
    if account.status == "enabled" { GateOnReplies(env.dir, session, role, codes); }
  }

  lemma AllowsOnReplies(dir: Directory, session: Session, roleId: string, code: string)
    requires session.AccountOk? && !session.account.isSuperAdmin && session.roleIds == [roleId]
    ensures Allows(PermissionAnswer(dir, session, code))
      <==> && session.account.status == "enabled"
           && SaysEnabled(dir.detail(roleId)) && SaysAllowed(dir.check(roleId, code))
  {
    OtherSessions(dir, session, code);
    if session.account.status == "enabled" { PermissionOnReplies(dir, session, roleId, code); }
  }

  lemma AnswersSession(store: Store, token: string, code: string, env: Env)
    requires TrimSpace(token) != ""
    ensures CheckPermission(store, token, code, env).1 ==
      if !ValidPermissionCode(TrimSpace(code)) then Error(2273)
      else PermissionAnswer(env.dir, ByAnyToken(store, TrimSpace(token), env).1, TrimSpace(code))
  {
  }

  /** And the permission endpoint allows it a well-formed code under the same condition with that code. */
  lemma AllowedIff(store: Store, token: string, code: string, env: Env, id: string, roleId: string)
    requires TrimSpace(token) != "" && env.redis(TrimSpace(token)) == SessionOf(id) && env.redisFault > 1
    requires Keyed(store, id) && StoredRoles(store, id) == [roleId] && TrimSpace(roleId) != ""
    requires !AccountsOf(store)[id].isSuperAdmin
    ensures var account, role := AccountsOf(store)[id], TrimSpace(roleId);
      Allows(CheckPermission(store, token, code, env).1)
      <==> && ValidPermissionCode(TrimSpace(code)) && account.status == "enabled" && SaysEnabled(env.dir.detail(role))
           && SaysAllowed(env.dir.check(role, TrimSpace(code)))
  {
    var account, role := AccountsOf(store)[id], TrimSpace(roleId);
    FindsSingleRole(store, id, env.dir, env.redisFault, roleId);
    RedisLeads(store, TrimSpace(token), env, id);
    AnswersSession(store, token, code, env);
    AllowsOnReplies(env.dir, AccountOk(account, [role]), role, TrimSpace(code));
  }
}
