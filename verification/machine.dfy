/** The whole service in SQL mode as a state machine that interleaves without restriction. Every statement outside a
    transaction is a step of its own: a lookup reads the row, then the roles, and then compacts them; a request looks
    its operator up, passes the gate, looks its target up, passes the guard, and commits its write. Logins, other
    readers, temporary-admin creations, worker scans and the statements of a load come in between at any point. */
module Machine {
  import opened Text
  import opened RoleClient
  import opened Store
  import opened Handlers
  import Rfc3339

  const SECOND := Rfc3339.SECOND
  const TEMPORARY_TTL := 600 * SECOND
  const TICK_PERIOD := 60 * SECOND

  datatype Job =
    | UpdateJob(update: UpdateRequest)
    | ResetJob(reset: ResetRequest)
    | DeleteJob(delete: DeleteRequest)
    | CreateJob(create: CreateRequest)
  {
    function Token(): string {
      match this
      case UpdateJob(req) => req.token
      case ResetJob(req) => req.token
      case DeleteJob(req) => req.token
      case CreateJob(req) => req.token
    }
  }

  /** The store call a request is about to make. */
  datatype Write =
    | PutUpdate(accountId: string, status: string, roleId: string)
    | PutReset(accountId: string, password: string)
    | PutDelete(accountId: string)
    | PutCreate(username: string, password: string, status: string, roleId: string)
  {
    /** The row an update, reset or delete goes to: only the delete trims. */
    function Key(): string
      requires !PutCreate?
    {
      if PutDelete? then TrimSpace(accountId) else accountId
    }
  }

  /** What a lookup asks for. */
  datatype Key = ById(id: string) | ByName(username: string)

  /** What a lookup is for: the operator of a request, where fallback says that the project's session is asked next if
      this lookup fails; the target of a cleared operator's write; the holder of a login; or an answer only. */
  datatype Purpose =
    | ForOperator(job: Job, env: Env, fallback: bool)
    | ForTarget(operator: Account, write: Write)
    | ForLogin(password: string)
    | ForReader

  /** Where a request stands: about to read a row, about to read that account's roles, about to compact them to one;
      through the gate, through the guard, or a login with its lookup done. */
  datatype Pending =
    | Asking(key: Key, purpose: Purpose)
    | Reading(account: Account, purpose: Purpose)
    | Compacting(account: Account, roleId: string, purpose: Purpose)
    | Authorised(operator: Account, job: Job)
    | Cleared(operator: Account, write: Write)
    | SigningIn(found: Lookup, password: string)

  datatype SessionEntry = SessionEntry(accountId: string, expiresAt: int)

  /** A write that took effect: what it found, and who asked for it. */
  datatype Entry = Entry(targetId: string, targetSuper: bool, operatorId: string, operatorSuper: bool)

  /** db, clock, time of the last scan, Redis sessions with their lifetime, and requests under way; then history: IDs
      ever used, accounts that tokens were issued to, writes done, and when the temporary record was last enabled. */
  datatype State = State(
    db: Db, now: int, lastTick: int, ttl: nat, sessions: map<string, SessionEntry>, pending: map<nat, Pending>,
    used: set<string>, issued: map<string, string>, audit: seq<Entry>, enabledAt: int)

  datatype Event =
    | Request(request: nat, job: Job, env: Env)
    | OpenLogin(request: nat, account: string, password: string)
    | Visit(request: nat, key: Key)
    | ReadRow(request: nat, fails: bool)
    | ReadRoles(request: nat, dir: Directory, fails: bool)
    | Compact(request: nat, fails: bool)
    | Proceed(request: nat, dir: Directory)
    | Commit(request: nat, w: WriteDraw)
    | SignIn(request: nat, dir: Directory, draw: LoginDraw)
    | Generate(username: string, hash: string, fault: nat)
    | Tick
    | AddIndex
    | AddSeed
    | Pass(duration: nat)

  // ---------- whose account a request asks for ----------

  /** Redis as it stands: a token is known until it expires; env can make the question fail. */
  function LiveEnv(s: State, env: Env): Env {
    env.(redis := token =>
      if env.redis(token).NoRedis? || env.redis(token).RedisError? then env.redis(token)
      else if token in s.sessions && s.now < s.sessions[token].expiresAt then SessionOf(s.sessions[token].accountId)
      else NoSuchKey)
  }

  datatype Route = Nowhere | To(accountId: string, fallback: bool)

  function ProjectRoute(env: Env, rawToken: string): Route {
    var token := TrimSpace(rawToken);
    if token == "" then Nowhere
    else match env.project(token)
      case NoProjectSession => Nowhere
      case ProjectError => Nowhere
      case FromHook(id) => if TrimSpace(id) == "" then Nowhere else To(TrimSpace(id), false)
      case FromTable(id) => if id == "" then Nowhere else To(id, false)
  }

  function HeaderRoute(env: Env): Route {
    var accountId := TrimSpace(env.headers.accountId);
    if accountId != "" then To(accountId, false)
    else
      var first := TrimSpace(env.headers.adminSessionToken);
      var second := if first == "" then TrimSpace(env.headers.adminToken) else first;
      ProjectRoute(env, if second == "" then TrimSpace(TrimBearer(env.headers.authorization)) else second)
  }

  function FirstRoute(env: Env, rawToken: string): Route {
    var token := TrimSpace(rawToken);
    if token == "" then HeaderRoute(env)
    else if env.redis(token).SessionOf? then To(env.redis(token).accountId, true)
    else ProjectRoute(env, token)
  }

  // ---------- steps ----------

  function Drop(s: State, r: nat): State { s.(pending := s.pending - {r}) }

  function Put(s: State, r: nat, p: Pending): State { s.(pending := s.pending[r := p]) }

  function Move(s: State, r: nat, next: Option<Pending>): State {
    match next
    case None => Drop(s, r)
    case Some(p) => Put(s, r, p)
  }

  function RoutedTo(route: Route, job: Job, env: Env): Option<Pending> {
    match route
    case Nowhere => None
    case To(accountId, fallback) => Some(Asking(ById(accountId), ForOperator(job, env, fallback)))
  }

  function Follow(s: State, r: nat, route: Route, job: Job, env: Env): State { Move(s, r, RoutedTo(route, job, env)) }

  /** The guard on what a target's lookup found. */
  function Passes(found: Lookup, operator: Account, write: Write): bool {
    match write
    case PutCreate(_, _, _, _) => found.NoAccount?
    case PutDelete(_) => DeleteGuard(found, operator).None?
    case _ => Guard(found, operator, 1, 2, 3).None?
  }

  /** Where a request goes when its lookup ends: the gate, the guard, or the password check that follows. */
  function After(purpose: Purpose, found: Lookup): Option<Pending> {
    match purpose
    case ForOperator(job, env, fallback) =>
      if found.LookupError? && fallback then RoutedTo(ProjectRoute(env, job.Token()), job, env)
      else
        (match Judgment(env.dir, SessionFrom(found), Codes(1, 2, 3))
         case Refused(_) => None
         case Admitted(operator) => Some(Authorised(operator, job)))
    case ForTarget(operator, write) => if Passes(found, operator, write) then Some(Cleared(operator, write)) else None
    case ForLogin(password) => Some(SigningIn(found, password))
    case ForReader => None
  }

  function Finish(s: State, r: nat, purpose: Purpose, found: Lookup): State { Move(s, r, After(purpose, found)) }

  ghost function RowOf(db: Db, key: Key): (account: Option<Account>) {
    match key
    case ById(id) => if TrimSpace(id) in db.rows then Some(db.rows[TrimSpace(id)].account) else None
    case ByName(username) =>
      var id := KeyOfName(Accounts(db.rows), username);
      if id.Some? then Some(db.rows[id.value].account) else None
  }

  ghost function ReadRowStep(s: State, r: nat, key: Key, purpose: Purpose, fails: bool): State {
    if fails then Finish(s, r, purpose, LookupError)
    else match RowOf(s.db, key)
      case None => Finish(s, r, purpose, NoAccount)
      case Some(account) => Put(s, r, Reading(account, purpose))
  }

  function ReadRolesStep(s: State, r: nat, account: Account, purpose: Purpose, dir: Directory, fails: bool): State {
    if fails then Finish(s, r, purpose, LookupError)
    else
      var choice := Choose(dir, RolesOf(s.db.bindings, account.id));
      if choice.CompactTo? then Put(s, r, Compacting(account, choice.roleId, purpose))
      else Finish(s, r, purpose, Settle(account, choice))
  }

  function CompactStep(s: State, r: nat, account: Account, roleId: string, purpose: Purpose, fails: bool): State {
    if fails then Finish(s, r, purpose, LookupError)
    else
      var db' := s.db.(bindings := KeepOnly(s.db.bindings, account.id, roleId));
      Finish(s.(db := db'), r, purpose, Found(account, [roleId]))
  }

  datatype Vet = Unfit | Fit(key: Key, write: Write)

  /** The checks of the request itself, and what it goes on to look up and to write. */
  function VetJob(dir: Directory, job: Job): Vet {
    match job
    case UpdateJob(req) =>
      (match VetUpdate(dir, req)
       case Stop(_) => Unfit
       case Go(status, roleId) => Fit(ById(req.accountId), PutUpdate(req.accountId, status, roleId)))
    case ResetJob(req) =>
      if ResetRejects(req).Some? then Unfit else Fit(ById(req.accountId), PutReset(req.accountId, req.newPassword))
    case DeleteJob(req) =>
      var accountId := TrimSpace(req.accountId);
      if ValidRecordId(accountId) then Fit(ById(accountId), PutDelete(accountId)) else Unfit
    case CreateJob(req) =>
      (match VetCreate(dir, req)
       case Stop(_) => Unfit
       case Go(status, roleId) =>
         var account := TrimSpace(req.account);
         Fit(ByName(account), PutCreate(account, req.password, status, roleId)))
  }

  function ProceedStep(s: State, r: nat, operator: Account, job: Job, dir: Directory): State {
    match VetJob(dir, job)
    case Unfit => Drop(s, r)
    case Fit(key, write) => Put(s, r, Asking(key, ForTarget(operator, write)))
  }

  function OpenLoginStep(s: State, r: nat, rawAccount: string, password: string): State {
    var account := TrimSpace(rawAccount);
    if ValidAccount(account) && ValidPassword(password) then Put(s, r, Asking(ByName(account), ForLogin(password)))
    else s
  }

  /** The store call: the next database and whether it took effect. */
  function Perform(db: Db, write: Write, w: WriteDraw): (Db, bool)
    requires |w.draw.ranks| == 1
  {
    match write
    case PutUpdate(id, status, roleId) =>
      var (db', reply) := SqlUpdate(db, id, status, [roleId], w.draw, w.writeFault); (db', reply.Stored?)
    case PutReset(id, password) =>
      var (db', reply) := SqlReset(db, id, w.hash(password), w.draw.now, w.writeFault); (db', reply.Stored?)
    case PutDelete(id) =>
      var (db', reply) := SqlDelete(db, id, w.writeFault); (db', reply.Deleted?)
    case PutCreate(username, password, status, roleId) =>
      var (db', reply) := SqlCreate(db, w.draw, username, w.hash(password), status, [roleId], w.writeFault);
      (db', reply.Stored?)
  }

  function Enables(write: Write): bool {
    write.PutUpdate? && write.accountId == TEMPORARY_ID && write.status == "enabled"
  }

  function EntryFor(db: Db, operator: Account, write: Write): Entry
    requires !write.PutCreate?
  {
    var key := write.Key();
    Entry(key, key in db.rows && db.rows[key].account.isSuperAdmin, operator.id, operator.isSuperAdmin)
  }

  function CommitStep(s: State, r: nat, operator: Account, write: Write, w: WriteDraw): State
    requires |w.draw.ranks| == 1
  {
    var (db', done) := Perform(s.db, write, w);
    var s' := Drop(s, r).(db := db');
    if !done then s'
    else if write.PutCreate? then s'.(used := s.used + {w.draw.id})
    else
      s'.(audit := s.audit + [EntryFor(s.db, operator, write)],
          enabledAt := if Enables(write) then s.now else s.enabledAt)
  }

  function SignInStep(s: State, r: nat, found: Lookup, password: string, dir: Directory, draw: LoginDraw): State {
    var answer := LoginFrom(found, password, dir, draw);
    if answer.data.Credential? then
      var id := answer.data.holder.id;
      Drop(s, r).(sessions := s.sessions[draw.token := SessionEntry(id, s.now + s.ttl)],
                  issued := s.issued[draw.token := id])
    else Drop(s, r)
  }

  function GenerateStep(s: State, username: string, hash: string, fault: nat): State {
    var (db', done) := SqlGenerate(s.db, username, hash, s.now + TEMPORARY_TTL, s.now, fault);
    s.(db := db', used := if done then s.used + {TEMPORARY_ID} else s.used,
       enabledAt := if done then s.now else s.enabledAt)
  }

  function AddSeedStep(s: State): State {
    var db' := SqlAddSeed(s.db, s.now);
    s.(db := db', used := if TEMPORARY_ID in db'.rows then s.used + {TEMPORARY_ID} else s.used)
  }

  /** What the environment can do in a state: requests step in order, and drawn IDs and tokens are fresh. */
  ghost predicate Possible(s: State, e: Event) {
    match e
    case Request(r, _, _) => r !in s.pending
    case OpenLogin(r, _, _) => r !in s.pending
    case Visit(r, _) => r !in s.pending
    case ReadRow(r, _) => r in s.pending && s.pending[r].Asking?
    case ReadRoles(r, _, _) => r in s.pending && s.pending[r].Reading?
    case Compact(r, _) => r in s.pending && s.pending[r].Compacting?
    case Proceed(r, _) => r in s.pending && s.pending[r].Authorised?
    case Commit(r, w) =>
      && r in s.pending && s.pending[r].Cleared?
      && |w.draw.ranks| == 1 && w.draw.now == s.now
      && (s.pending[r].write.PutCreate? ==> IsShortId(w.draw.id) && w.draw.id !in s.used)
    case SignIn(r, _, draw) =>
      r in s.pending && s.pending[r].SigningIn? && IsToken(draw.token) && draw.token !in s.issued
    case Generate(_, _, _) => true
    case Tick => true
    case AddIndex => true
    case AddSeed => true
    case Pass(_) => true
  }

  /** One step; an event that is not possible changes nothing. */
  ghost function Step(s: State, e: Event): State {
    if !Possible(s, e) then s
    else match e
      case Request(r, job, env) => Follow(s, r, FirstRoute(LiveEnv(s, env), job.Token()), job, env)
      case OpenLogin(r, account, password) => OpenLoginStep(s, r, account, password)
      case Visit(r, key) => Put(s, r, Asking(key, ForReader))
      case ReadRow(r, fails) => ReadRowStep(s, r, s.pending[r].key, s.pending[r].purpose, fails)
      case ReadRoles(r, dir, fails) => ReadRolesStep(s, r, s.pending[r].account, s.pending[r].purpose, dir, fails)
      case Compact(r, fails) =>
        CompactStep(s, r, s.pending[r].account, s.pending[r].roleId, s.pending[r].purpose, fails)
      case Proceed(r, dir) => ProceedStep(s, r, s.pending[r].operator, s.pending[r].job, dir)
      case Commit(r, w) => CommitStep(s, r, s.pending[r].operator, s.pending[r].write, w)
      case SignIn(r, dir, draw) => SignInStep(s, r, s.pending[r].found, s.pending[r].password, dir, draw)
      case Generate(username, hash, fault) => GenerateStep(s, username, hash, fault)
      case Tick => s.(db := SqlTick(s.db, s.now), lastTick := s.now)
      case AddIndex => s.(db := SqlAddIndex(s.db))
      case AddSeed => AddSeedStep(s)
      case Pass(duration) => s.(now := s.now + duration)
  }

  ghost function Run(s: State, events: seq<Event>): State
    decreases |events|
  {
    if events == [] then s else Run(Step(s, events[0]), events[1..])
  }

  lemma {:induction false} RunAppend(s: State, a: seq<Event>, b: seq<Event>)
    ensures Run(s, a + b) == Run(Run(s, a), b)
    decreases |a|
  {
    if a == [] {
      assert a + b == b;
    } else {
      assert (a + b)[0] == a[0] && (a + b)[1..] == a[1..] + b;
      RunAppend(Step(s, a[0]), a[1..], b);
    }
  }
}
