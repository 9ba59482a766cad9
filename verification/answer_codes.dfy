/** The code of every answer: for each endpoint the checks in the order in which it makes them, told from the request,
    the stored accounts and the role module's answers as they come; the first that fails decides, and 0 means that none
    does. */
module AnswerCodes {
  import opened Text
  import opened RoleClient
  import opened Store
  import opened Handlers
  import opened Verdicts

  predicate WellFormed(name: string, password: string) {
    4 <= ByteLen(name) <= 32 && 6 <= ByteLen(password) <= 32
  }

  predicate IsStatus(status: string) { status == "enabled" || status == "disabled" }

  /** One role, well-formed without the white space around it. */
  predicate OneRoleGiven(roleIds: seq<string>) {
    |roleIds| == 1 && TrimSpace(roleIds[0]) != "" && ValidRecordId(TrimSpace(roleIds[0]))
  }

  predicate GivenIsEnabled(dir: Directory, roleIds: seq<string>) {
    |roleIds| == 1 && SaysEnabled(dir.detail(TrimSpace(roleIds[0])))
  }

  predicate LookupFails(found: Lookup) { found.LookupError? || found.NoValidRole? }

  /** A super administrator's record, and an operator who is none. */
  predicate IsGuarded(found: Lookup, operator: Account) {
    found.Found? && found.account.isSuperAdmin && !operator.isSuperAdmin
  }

  // ---------- login ----------

  lemma LoginCode(store: Store, key: Option<string>, name: string, password: string, dir: Directory, draw: LoginDraw)
    requires key.Some? ==> key.value in AccountsOf(store)
    ensures var found, roles := GetByKey(store, key, dir, draw.nameFault).1, RolesFound(store, key, dir, draw);
      var answer := LoginAt(store, key, name, password, dir, draw).1;
      && answer.status ==
           (if !WellFormed(TrimSpace(name), password) then 2201
            else if found.LookupError? then 2204
            else if found.NoValidRole? then 2203
            else if found.NoAccount? || found.account.passwordHash != draw.hash(password) then 2202
            else if found.account.status != "enabled" then 2203
            else if exists r :: r in roles && TellsNothing(dir.detail(r)) then 2204
            else if exists r :: r in roles && !SaysEnabled(dir.detail(r)) then 2203
            else if !draw.stored then 2204
            else 0)
      && (answer.status != 0 ==> answer.data == Nothing)
      && (answer.status == 0 ==> found.Found? && answer.data == Credential(found.account, roles, draw.token))
  {
    FewRolesAvailable(dir, RolesFound(store, key, dir, draw));
  }

  function RolesFound(store: Store, key: Option<string>, dir: Directory, draw: LoginDraw): (roles: seq<string>)
    requires key.Some? ==> key.value in AccountsOf(store)
    ensures |roles| <= 1
  {
    var found := GetByKey(store, key, dir, draw.nameFault).1;
    if found.Found? then found.roleIds else []
  }

  lemma FewRolesAvailable(dir: Directory, roleIds: seq<string>)
    requires |roleIds| <= 1
    ensures AvailabilityOf(dir, roleIds) ==
      if exists r :: r in roleIds && TellsNothing(dir.detail(r)) then CannotTell
      else Available(!exists r :: r in roleIds && !SaysEnabled(dir.detail(r)))
  {
    if |roleIds| == 1 {
      StandingOnReply(dir, roleIds[0]);
      assert AvailabilityOf(dir, roleIds[1..]) == Available(true);
    }
  }

  // ---------- profile and permission ----------

  /** What comes before the account is asked about; PermissionOnReplies, ProfileOnReplies and OtherSessions say the
      rest. */
  lemma EntryCodes(store: Store, token: string, code: string, env: Env)
    ensures var (store', answer) := CheckPermission(store, token, code, env);
      if TrimSpace(token) == "" then (store', answer) == (store, Error(2271))
      else if !ValidPermissionCode(TrimSpace(code)) then (store', answer) == (store, Error(2273))
      else
        var (looked, session) := ByAnyToken(store, TrimSpace(token), env);
        (store', answer) == (looked, PermissionAnswer(env.dir, session, TrimSpace(code)))
    ensures var (store', answer) := Me(store, token, env);
      if TrimSpace(token) == "" then (store', answer) == (store, Error(2211))
      else
        var (looked, session) := ByAnyToken(store, TrimSpace(token), env);
        (store', answer) == (looked, ProfileAnswer(env.dir, session))
  {
  }

  // ---------- the write requests ----------

  lemma CleanOnReplies(dir: Directory, roleIds: seq<string>)
    ensures CleanRoles(dir, roleIds) ==
      if !OneRoleGiven(roleIds) then BadRoles
      else if !GivenIsEnabled(dir, roleIds) then RoleUnavailable
      else Clean(TrimSpace(roleIds[0]))
  {
    if OneRoleGiven(roleIds) { FewRolesAvailable(dir, [TrimSpace(roleIds[0])]); }
  }

  lemma StatusesGiven(raw: string)
    ensures NormalizeStatus(raw) == if IsStatus(TrimSpace(raw)) then TrimSpace(raw) else ""
  {
  }

  /** A create of an admitted operator; the gate's own codes are those of GateOnReplies and GateOnSession. */
  lemma CreateCode(store: Store, key: Option<string>, req: CreateRequest, dir: Directory, w: WriteDraw)
    requires |w.draw.ranks| == 1 && (key.Some? ==> key.value in AccountsOf(store))
    ensures var (looked, found) := GetByKey(store, key, dir, w.lookupFault);
      var name, role := TrimSpace(req.account), if |req.roleIds| == 1 then TrimSpace(req.roleIds[0]) else "";
      var (done, reply) :=
        Create(looked, w.draw, name, w.hash(req.password), TrimSpace(req.status), [role], w.writeFault);
      CreateAdmittedAt(store, key, req, dir, w) ==
        if !OneRoleGiven(req.roleIds) then (store, Error(2225))
        else if !GivenIsEnabled(dir, req.roleIds) then (store, Error(2226))
        else if !WellFormed(name, req.password) || !IsStatus(TrimSpace(req.status)) then (store, Error(2223))
        else if LookupFails(found) then (looked, Error(2227))
        else if found.Found? then (looked, Error(2224))
        else if !reply.Stored? then (done, Error(2227))
        else (done, Answer(0, Record(reply.account, reply.roleIds)))
  {
    CleanOnReplies(dir, req.roleIds);
    StatusesGiven(req.status);
  }

  lemma UpdateCode(store: Store, operator: Account, req: UpdateRequest, dir: Directory, w: WriteDraw)
    requires |w.draw.ranks| == 1
    ensures var (looked, found) := GetById(store, req.accountId, dir, w.lookupFault);
      var role := if |req.roleIds| == 1 then TrimSpace(req.roleIds[0]) else "";
      var (done, reply) := Update(looked, req.accountId, TrimSpace(req.status), [role], w.draw, w.writeFault);
      UpdateAdmitted(store, operator, req, dir, w) ==
        if !OneRoleGiven(req.roleIds) then (store, Error(2255))
        else if !GivenIsEnabled(dir, req.roleIds) then (store, Error(2256))
        else if !ValidRecordId(req.accountId) then (store, Error(2253))
        else if !IsStatus(TrimSpace(req.status)) then (store, Error(2255))
        else if LookupFails(found) then (looked, Error(2258))
        else if found.NoAccount? then (looked, Error(2254))
        else if IsGuarded(found, operator) then (looked, Error(2257))
        else if reply.StoreError? then (done, Error(2258))
        else if reply.Absent? then (done, Error(2254))
        else (done, Answer(0, Record(reply.account, reply.roleIds)))
  {
    CleanOnReplies(dir, req.roleIds);
    StatusesGiven(req.status);
  }

  lemma ResetCode(store: Store, operator: Account, req: ResetRequest, dir: Directory, w: WriteDraw)
    ensures var (looked, found) := GetById(store, req.accountId, dir, w.lookupFault);
      var (done, reply) := Reset(looked, req.accountId, w.hash(req.newPassword), w.draw.now, w.writeFault);
      ResetAdmitted(store, operator, req, dir, w) ==
        if !ValidRecordId(req.accountId) then (store, Error(2263))
        else if !(6 <= ByteLen(req.newPassword) <= 32) then (store, Error(2265))
        else if LookupFails(found) then (looked, Error(2267))
        else if found.NoAccount? then (looked, Error(2264))
        else if IsGuarded(found, operator) then (looked, Error(2266))
        else if reply.StoreError? then (done, Error(2267))
        else if reply.Absent? then (done, Error(2264))
        else (done, Answer(0, Updated(req.accountId, reply.account.updatedAt)))
  {
  }

  lemma DeleteCode(store: Store, operator: Account, req: DeleteRequest, dir: Directory, w: WriteDraw)
    ensures var id := TrimSpace(req.accountId);
      var (looked, found) := GetById(store, id, dir, w.lookupFault);
      var (done, reply) := Delete(looked, id, w.writeFault);
      DeleteAdmitted(store, operator, req, dir, w) ==
        if !ValidRecordId(id) then (store, Error(2293))
        else if LookupFails(found) then (looked, Error(2297))
        else if found.NoAccount? then (looked, Error(2294))
        else if found.account.id == operator.id then (looked, Error(2295))
        else if IsGuarded(found, operator) then (looked, Error(2296))
        else if reply.DeleteError? then (done, Error(2297))
        else if reply.NothingDeleted? then (done, Error(2294))
        else (done, Answer(0, Nothing))
  {
  }

  /** What the gate refuses is answered with its code; the codes of the four requests. */
  lemma RefusedCodes(store: Store, key: Option<string>, create: CreateRequest, update: UpdateRequest,
                     reset: ResetRequest, delete: DeleteRequest, env: Env, w: WriteDraw)
    requires |w.draw.ranks| == 1
    requires key.Some? ==> key.value in AccountsOf(RequireManage(store, create.token, env, Codes(2221, 2222, 2227)).0)
    ensures var (gated, gate) := RequireManage(store, create.token, env, Codes(2221, 2222, 2227));
      CreateAt(store, key, create, env, w)
        == if gate.Refused? then (gated, Error(gate.code)) else CreateAdmittedAt(gated, key, create, env.dir, w)
    ensures var (gated, gate) := RequireManage(store, update.token, env, Codes(2251, 2252, 2258));
      HandleUpdate(store, update, env, w)
        == if gate.Refused? then (gated, Error(gate.code))
           else UpdateAdmitted(gated, gate.operator, update, env.dir, w)
    ensures var (gated, gate) := RequireManage(store, reset.token, env, Codes(2261, 2262, 2267));
      HandleReset(store, reset, env, w)
        == if gate.Refused? then (gated, Error(gate.code)) else ResetAdmitted(gated, gate.operator, reset, env.dir, w)
    ensures var (gated, gate) := RequireManage(store, delete.token, env, Codes(2291, 2292, 2297));
      HandleDelete(store, delete, env, w)
        == if gate.Refused? then (gated, Error(gate.code)) else DeleteAdmitted(gated, gate.operator, delete, env.dir, w)
  {
  }
}
