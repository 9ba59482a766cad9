/** The request handlers as functions from a store, a decoded request and an environment to the next store and an
    answer. The environment answers session lookups and role questions, and says at which statement each store call
    fails. */
module Handlers {
  import opened Text
  import opened RoleClient
  import opened Store

  // ---------- sessions ----------

  datatype RedisAnswer = NoRedis | NoSuchKey | RedisError | SessionOf(accountId: string)

  /** What the project's own session table or lookup hook answers. */
  datatype ProjectAnswer = NoProjectSession | ProjectError | FromHook(hookId: string) | FromTable(tableId: string)

  datatype Headers = Headers(accountId: string, adminSessionToken: string, adminToken: string, authorization: string)

  datatype Env = Env(redis: string -> RedisAnswer, project: string -> ProjectAnswer, headers: Headers, dir: Directory,
                     redisFault: nat, projectFault: nat, headerFault: nat)

  datatype Session = SessionMissing | AccountMissing | AccountInvalidRole(invalid: Account)
                   | AccountOk(account: Account, roleIds: seq<string>)

  function SessionFrom(found: Lookup): Session {
    match found
    case LookupError => SessionMissing
    case NoAccount => AccountMissing
    case NoValidRole(account) => AccountInvalidRole(account)
    case Found(account, roleIds) => AccountOk(account, roleIds)
  }

  /** currentAccountByToken over getAccountBySessionState. */
  function ByRedis(store: Store, rawToken: string, env: Env): (result: (Store, Session))
    ensures result.0.Sql? == store.Sql?
  {
    var token := TrimSpace(rawToken);
    if token == "" || !env.redis(token).SessionOf? then (store, SessionMissing)
    else
      var (store', found) := GetById(store, env.redis(token).accountId, env.dir, env.redisFault);
      (store', SessionFrom(found))
  }

  /** currentProjectAdminAccountByToken over getAccountByProjectAdminSessionState. */
  function ByProject(store: Store, rawToken: string, env: Env): (result: (Store, Session))
    ensures result.0.Sql? == store.Sql?
  {
    var token := TrimSpace(rawToken);
    if token == "" || env.project(token).NoProjectSession? || env.project(token).ProjectError? then
      (store, SessionMissing)
    else
      var answer := env.project(token);
      var accountId := if answer.FromHook? then TrimSpace(answer.hookId) else answer.tableId;
      if accountId == "" then (store, AccountMissing)
      else
        var (store', found) := GetById(store, accountId, env.dir, env.projectFault);
        (store', SessionFrom(found))
  }

  function ByAnyToken(store: Store, token: string, env: Env): (result: (Store, Session))
    ensures result.0.Sql? == store.Sql?
  {
    var (store', session) := ByRedis(store, token, env);
    if session != SessionMissing then (store', session) else ByProject(store', token, env)
  }

  function TrimBearer(value: string): string {
    if "Bearer " <= value then value[7..] else value
  }

  /** currentProjectAdminAccount: the headers, used when the request carries no token. */
  function ByHeaders(store: Store, env: Env): (result: (Store, Session))
    ensures result.0.Sql? == store.Sql?
  {
    var accountId := TrimSpace(env.headers.accountId);
    if accountId != "" then
      var (store', found) := GetById(store, accountId, env.dir, env.headerFault);
      (store', if found.NoValidRole? then SessionMissing else SessionFrom(found))
    else
      var first := TrimSpace(env.headers.adminSessionToken);
      var second := if first == "" then TrimSpace(env.headers.adminToken) else first;
      var token := if second == "" then TrimSpace(TrimBearer(env.headers.authorization)) else second;
      if token == "" then (store, SessionMissing) else ByProject(store, token, env)
  }

  // ---------- the gate of the management handlers ----------

  const MANAGE := "admin_account.manage"

  datatype Codes = Codes(invalid: int, denied: int, failure: int)
  datatype Gate = Refused(code: int) | Admitted(operator: Account)

  function Judgment(dir: Directory, session: Session, codes: Codes): Gate {
    if !session.AccountOk? || session.account.status != "enabled" then Refused(codes.invalid)
    else if session.account.isSuperAdmin then Admitted(session.account)
    else match Evaluate(dir, MANAGE, session.roleIds)
      case EvaluationError => Refused(codes.failure)
      case Evaluated(matched, _) => if matched != [] then Admitted(session.account) else Refused(codes.denied)
  }

  function RequireManage(store: Store, token: string, env: Env, codes: Codes): (result: (Store, Gate))
    ensures result.0.Sql? == store.Sql?
  {
    var (store1, first) := ByAnyToken(store, token, env);
    var (store2, session) :=
      if first.SessionMissing? && TrimSpace(token) == "" then ByHeaders(store1, env) else (store1, first);
    (store2, Judgment(env.dir, session, codes))
  }

  // ---------- answers ----------

  datatype Data =
    | Nothing
    | Permission(allowed: bool, superAdmin: bool, matched: seq<string>, states: seq<RoleState>)
    | Profile(profile: Account, roles: seq<RoleState>, permissionCodes: seq<string>)
    | Record(account: Account, roleIds: seq<string>)
    | Updated(accountId: string, updatedAt: int)
    | Credential(holder: Account, holderRoles: seq<string>, token: string)

  datatype Answer = Answer(status: int, data: Data)

  function Error(status: int): Answer { Answer(status, Nothing) }

  // ---------- permission check and profile ----------

  function CheckPermission(store: Store, rawToken: string, rawCode: string, env: Env): (Store, Answer) {
    var token, code := TrimSpace(rawToken), TrimSpace(rawCode);
    if token == "" then (store, Error(2271))
    else if !ValidPermissionCode(code) then (store, Error(2273))
    else
      var (store', session) := ByAnyToken(store, token, env);
      (store', PermissionAnswer(env.dir, session, code))
  }

  function PermissionAnswer(dir: Directory, session: Session, code: string): Answer {
    if session.SessionMissing? then Error(2272)
    else if !session.AccountOk? || session.account.status != "enabled" then Error(2274)
    else if session.account.isSuperAdmin then Answer(0, Permission(true, true, [], []))
    else if |session.roleIds| != 1 then Error(2274)
    else match Evaluate(dir, code, session.roleIds)
      case EvaluationError => Error(2275)
      case Evaluated(matched, states) =>
        if |states| != 1 || states[0].roleStatus != "enabled" then Error(2274)
        else Answer(0, Permission(matched != [], false, matched, states))
  }

  ghost function Me(store: Store, rawToken: string, env: Env): (Store, Answer) {
    var token := TrimSpace(rawToken);
    if token == "" then (store, Error(2211))
    else
      var (store', session) := ByAnyToken(store, token, env);
      (store', ProfileAnswer(env.dir, session))
  }

  ghost function ProfileAnswer(dir: Directory, session: Session): Answer {
    if session.SessionMissing? then Error(2212)
    else if session.AccountMissing? then Error(2213)
    else if !session.AccountOk? || session.account.status != "enabled" then Error(2214)
    else if session.account.isSuperAdmin then Answer(0, Profile(session.account, [], []))
    else match DetailsOf(dir, session.roleIds)
      case DetailsError => Error(2215)
      case Details(roles, permissions) =>
        if |roles| != 1 || roles[0].roleStatus != "enabled" then Error(2214)
        else Answer(0, Profile(session.account, roles, permissions))
  }

  // ---------- login ----------

  /** What a login draws and what may fail in it: the hash function, the new token, and whether Redis stores it. */
  datatype LoginDraw = LoginDraw(hash: string -> string, token: string, stored: bool, nameFault: nat)

  /** The answer to a login, once the name has been looked up. */
  function LoginFrom(found: Lookup, password: string, dir: Directory, draw: LoginDraw): Answer {
    match found
    case LookupError => Error(2204)
    case NoValidRole(_) => Error(2203)
    case NoAccount => Error(2202)
    case Found(holder, roleIds) =>
      if holder.passwordHash != draw.hash(password) then Error(2202)
      else if holder.status != "enabled" then Error(2203)
      else match AvailabilityOf(dir, roleIds)
        case CannotTell => Error(2204)
        case Available(all) =>
          if !all then Error(2203)
          else if !draw.stored then Error(2204)
          else Answer(0, Credential(holder, roleIds, draw.token))
  }

  /** The login of the account at the key. */
  function LoginAt(store: Store, key: Option<string>, rawAccount: string, password: string, dir: Directory,
                   draw: LoginDraw): (result: (Store, Answer))
    requires key.Some? ==> key.value in AccountsOf(store)
    ensures result.0.Sql? == store.Sql?
  {
    if !ValidAccount(TrimSpace(rawAccount)) || !ValidPassword(password) then (store, Error(2201))
    else
      var (store', found) := GetByKey(store, key, dir, draw.nameFault);
      (store', LoginFrom(found, password, dir, draw))
  }

  ghost function Login(store: Store, rawAccount: string, password: string, dir: Directory,
                       draw: LoginDraw): (Store, Answer)
  {
    LoginAt(store, KeyOfName(AccountsOf(store), TrimSpace(rawAccount)), rawAccount, password, dir, draw)
  }

  // ---------- validation ----------

  function NormalizeStatus(raw: string): string {
    var status := TrimSpace(raw);
    if status == "enabled" || status == "disabled" then status else ""
  }

  datatype Cleaned = BadRoles | RoleUnavailable | Clean(roleId: string)

  /** cleanAndValidateRoles: exactly one role, well-formed and enabled. */
  function CleanRoles(dir: Directory, roleIds: seq<string>): Cleaned {
    if |roleIds| != 1 then BadRoles
    else
      var roleId := TrimSpace(roleIds[0]);
      if roleId == "" || !ValidRecordId(roleId) then BadRoles
      else if AvailabilityOf(dir, [roleId]) == Available(true) then Clean(roleId)
      else RoleUnavailable
  }

  // ---------- management handlers ----------

  datatype CreateRequest = CreateRequest(token: string, account: string, password: string, status: string,
                                         roleIds: seq<string>)
  datatype UpdateRequest = UpdateRequest(token: string, accountId: string, status: string, roleIds: seq<string>)
  datatype ResetRequest = ResetRequest(token: string, accountId: string, newPassword: string)
  datatype DeleteRequest = DeleteRequest(token: string, accountId: string)

  /** What a write draws, and where its lookup and its store call fail. */
  datatype WriteDraw = WriteDraw(draw: Draw, hash: string -> string, lookupFault: nat, writeFault: nat)

  /** The checks of the request itself: the code of the first that fails, or the cleaned status and role. */
  datatype Vetted = Stop(code: int) | Go(status: string, roleId: string)

  function VetCreate(dir: Directory, req: CreateRequest): Vetted {
    match CleanRoles(dir, req.roleIds)
    case BadRoles => Stop(2225)
    case RoleUnavailable => Stop(2226)
    case Clean(roleId) =>
      var status := NormalizeStatus(req.status);
      if !ValidAccount(TrimSpace(req.account)) || !ValidPassword(req.password) || status == "" then Stop(2223)
      else Go(status, roleId)
  }

  function VetUpdate(dir: Directory, req: UpdateRequest): Vetted {
    match CleanRoles(dir, req.roleIds)
    case BadRoles => Stop(2255)
    case RoleUnavailable => Stop(2256)
    case Clean(roleId) =>
      var status := NormalizeStatus(req.status);
      if !ValidRecordId(req.accountId) then Stop(2253) else if status == "" then Stop(2255) else Go(status, roleId)
  }

  function ResetRejects(req: ResetRequest): Option<int> {
    if !ValidRecordId(req.accountId) then Some(2263) else if !ValidPassword(req.newPassword) then Some(2265) else None
  }

  /** The guard on the looked-up target of an update or a reset: the code that stops the request, if any. */
  function Guard(found: Lookup, operator: Account, absent: int, guarded: int, failure: int): Option<int> {
    match found
    case LookupError => Some(failure)
    case NoValidRole(_) => Some(failure)
    case NoAccount => Some(absent)
    case Found(target, _) => if target.isSuperAdmin && !operator.isSuperAdmin then Some(guarded) else None
  }

  /** The guard of a delete also forbids an account to delete itself. */
  function DeleteGuard(found: Lookup, operator: Account): Option<int> {
    if found.Found? && found.account.id == operator.id then Some(2295) else Guard(found, operator, 2294, 2296, 2297)
  }

  const CREATE_CODES := Codes(2221, 2222, 2227)
  const UPDATE_CODES := Codes(2251, 2252, 2258)
  const RESET_CODES := Codes(2261, 2262, 2267)
  const DELETE_CODES := Codes(2291, 2292, 2297)

  /** A create request, for the key that its name is found at once the gate has been passed. */
  function CreateAt(store: Store, key: Option<string>, req: CreateRequest, env: Env, w: WriteDraw): (Store, Answer)
    requires |w.draw.ranks| == 1
    requires key.Some? ==> key.value in AccountsOf(RequireManage(store, req.token, env, CREATE_CODES).0)
  {
    var (store', gate) := RequireManage(store, req.token, env, CREATE_CODES);
    if gate.Refused? then (store', Error(gate.code)) else CreateAdmittedAt(store', key, req, env.dir, w)
  }

  function CreateAdmittedAt(store: Store, key: Option<string>, req: CreateRequest, dir: Directory, w: WriteDraw)
    : (Store, Answer)
    requires |w.draw.ranks| == 1 && (key.Some? ==> key.value in AccountsOf(store))
  {
    var vetted := VetCreate(dir, req);
    if vetted.Stop? then (store, Error(vetted.code))
    else
      var (store', found) := GetByKey(store, key, dir, w.lookupFault);
      if found.LookupError? || found.NoValidRole? then (store', Error(2227))
      else if found.Found? then (store', Error(2224))
      else WriteCreate(store', TrimSpace(req.account), w.hash(req.password), vetted.status, vetted.roleId, w)
  }

  ghost function HandleCreate(store: Store, req: CreateRequest, env: Env, w: WriteDraw): (Store, Answer)
    requires |w.draw.ranks| == 1
  {
    var store' := RequireManage(store, req.token, env, CREATE_CODES).0;
    CreateAt(store, KeyOfName(AccountsOf(store'), TrimSpace(req.account)), req, env, w)
  }

  ghost function CreateAdmitted(store: Store, req: CreateRequest, dir: Directory, w: WriteDraw): (Store, Answer)
    requires |w.draw.ranks| == 1
  {
    CreateAdmittedAt(store, KeyOfName(AccountsOf(store), TrimSpace(req.account)), req, dir, w)
  }

  function WriteCreate(store: Store, account: string, hash: string, status: string, roleId: string,
                       w: WriteDraw): (Store, Answer)
    requires |w.draw.ranks| == 1
  {
    var (store', reply) := Create(store, w.draw, account, hash, status, [roleId], w.writeFault);
    (store', if reply.Stored? then Answer(0, Record(reply.account, reply.roleIds)) else Error(2227))
  }

  function HandleUpdate(store: Store, req: UpdateRequest, env: Env, w: WriteDraw): (Store, Answer)
    requires |w.draw.ranks| == 1
  {
    var (store', gate) := RequireManage(store, req.token, env, UPDATE_CODES);
    if gate.Refused? then (store', Error(gate.code)) else UpdateAdmitted(store', gate.operator, req, env.dir, w)
  }

  function UpdateAdmitted(store: Store, operator: Account, req: UpdateRequest, dir: Directory, w: WriteDraw)
    : (Store, Answer)
    requires |w.draw.ranks| == 1
  {
    var vetted := VetUpdate(dir, req);
    if vetted.Stop? then (store, Error(vetted.code))
    else
      var (store', found) := GetById(store, req.accountId, dir, w.lookupFault);
      var stop := Guard(found, operator, 2254, 2257, 2258);
      if stop.Some? then (store', Error(stop.value))
      else WriteUpdate(store', req.accountId, vetted.status, vetted.roleId, w)
  }

  function WriteUpdate(store: Store, accountId: string, status: string, roleId: string, w: WriteDraw): (Store, Answer)
    requires |w.draw.ranks| == 1
  {
    var (store', reply) := Update(store, accountId, status, [roleId], w.draw, w.writeFault);
    (store', match reply
      case StoreError => Error(2258)
      case Absent => Error(2254)
      case Stored(account, roleIds) => Answer(0, Record(account, roleIds)))
  }

  function HandleReset(store: Store, req: ResetRequest, env: Env, w: WriteDraw): (Store, Answer) {
    var (store', gate) := RequireManage(store, req.token, env, RESET_CODES);
    if gate.Refused? then (store', Error(gate.code)) else ResetAdmitted(store', gate.operator, req, env.dir, w)
  }

  function ResetAdmitted(store: Store, operator: Account, req: ResetRequest, dir: Directory, w: WriteDraw)
    : (Store, Answer)
  {
    var stop := ResetRejects(req);
    if stop.Some? then (store, Error(stop.value))
    else
      var (store', found) := GetById(store, req.accountId, dir, w.lookupFault);
      var stop := Guard(found, operator, 2264, 2266, 2267);
      if stop.Some? then (store', Error(stop.value))
      else
        var (done, reply) := Reset(store', req.accountId, w.hash(req.newPassword), w.draw.now, w.writeFault);
        (done, match reply
          case StoreError => Error(2267)
          case Absent => Error(2264)
          case Stored(account, _) => Answer(0, Updated(req.accountId, account.updatedAt)))
  }

  function HandleDelete(store: Store, req: DeleteRequest, env: Env, w: WriteDraw): (Store, Answer) {
    var (store', gate) := RequireManage(store, req.token, env, DELETE_CODES);
    if gate.Refused? then (store', Error(gate.code)) else DeleteAdmitted(store', gate.operator, req, env.dir, w)
  }

  function DeleteAdmitted(store: Store, operator: Account, req: DeleteRequest, dir: Directory, w: WriteDraw)
    : (Store, Answer)
  {
    var accountId := TrimSpace(req.accountId);
    if !ValidRecordId(accountId) then (store, Error(2293))
    else
      var (store', found) := GetById(store, accountId, dir, w.lookupFault);
      var stop := DeleteGuard(found, operator);
      if stop.Some? then (store', Error(stop.value))
      else
        var (done, deleted) := Delete(store', accountId, w.writeFault);
        (done, match deleted
          case DeleteError => Error(2297)
          case NothingDeleted => Error(2294)
          case Deleted => Answer(0, Nothing))
  }
}
