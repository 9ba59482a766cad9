/** Session tokens over whole runs: a token never resolves to another account than the one that logged in, and
    resolves to nothing once that account is deleted. */
module Sessions {
  import opened Text
  import opened RoleClient
  import opened Store
  import opened Schema
  import opened Handlers
  import opened Machine
  import opened Reachable

  lemma TokenTrimmed(token: string)
    requires IsToken(token)
    ensures TrimSpace(token) == token && token != ""
  {
    assert IsHexChar(token[0]) && IsHexChar(token[31]);
  }

  lemma GetByIdFindsKey(db: Db, id: string, dir: Directory, fault: nat)
    requires SchemaOk(db) && Trimmed(id)
    ensures var found := SqlGetById(db, id, dir, fault).1;
      && (found.Found? ==> found.account.id == id)
      && (found.NoValidRole? ==> found.account.id == id)
      && (fault != 0 ==> (found.NoAccount? <==> id !in db.rows))
      && (found.NoAccount? ==> id !in db.rows)
  {
  }

  /** The account that a token resolves to, if it resolves to one. */
  ghost predicate ResolvesOnlyTo(session: Session, accountId: string) {
    match session
    case AccountOk(account, _) => account.id == accountId
    case AccountInvalidRole(account) => account.id == accountId
    case _ => true
  }

  lemma TokenResolves(s: State, token: string, env: Env)
    requires Basic(s) && token in s.issued
    ensures var session := ByRedis(Sql(s.db), token, LiveEnv(s, env)).1;
      && ResolvesOnlyTo(session, s.issued[token])
      && (session.AccountMissing? ==> s.issued[token] !in s.db.rows)
      && (session.AccountOk? || session.AccountInvalidRole? ==> s.issued[token] in s.db.rows)
  {
    TokenTrimmed(token);
    GetByIdFindsKey(s.db, s.issued[token], env.dir, env.redisFault);
  }

  /** In every run, whatever else happens, an issued token resolves to the account it was issued to or to none. */
  lemma TokensNeverCross(s0: State, events: seq<Event>, token: string, env: Env)
    requires Started(s0)
    ensures var s := Run(s0, events);
      token in s.issued ==> ResolvesOnlyTo(ByRedis(Sql(s.db), token, LiveEnv(s, env)).1, s.issued[token])
  {
    RunKeepsBasic(s0, events);
    var s := Run(s0, events);
    if token in s.issued { TokenResolves(s, token, env); }
  }

  predicate Lives(s: State, token: string) {
    token in s.sessions && s.now < s.sessions[token].expiresAt
  }

  /** Neither Redis nor the row query fails. */
  predicate Answered(token: string, env: Env) {
    !env.redis(token).NoRedis? && !env.redis(token).RedisError? && env.redisFault != 0
  }

  /** While a token lives and neither Redis nor the row query fails, it resolves to "account missing" exactly when its
      account does not exist. */
  lemma MissingIffDeleted(s: State, token: string, env: Env)
    requires Basic(s) && Lives(s, token) && Answered(token, env)
    ensures ByRedis(Sql(s.db), token, LiveEnv(s, env)).1.AccountMissing? <==> s.issued[token] !in s.db.rows
  {
    TokenTrimmed(token);
    GetByIdFindsKey(s.db, s.issued[token], env.dir, env.redisFault);
  }

  /** A token that Redis has not, or no longer, leads nowhere. */
  lemma ExpiredTokenIsMissing(s: State, token: string, env: Env)
    requires IsToken(token) && (token in s.sessions ==> s.sessions[token].expiresAt <= s.now)
    ensures ByRedis(Sql(s.db), token, LiveEnv(s, env)) == (Sql(s.db), SessionMissing)
  {
    TokenTrimmed(token);
  }

  lemma StepKeepsSession(s: State, e: Event, token: string)
    requires token in s.sessions && token in s.issued
    ensures var s' := Step(s, e);
      token in s'.sessions && s'.sessions[token] == s.sessions[token] && token in s'.issued
  {
    OthersKeepSessions(s, e);
  }

  lemma {:induction false} RunKeepsSession(s: State, events: seq<Event>, token: string)
    requires token in s.sessions && token in s.issued
    ensures var s' := Run(s, events); token in s'.sessions && s'.sessions[token] == s.sessions[token]
    decreases |events|
  {
    if events != [] {
      StepKeepsSession(s, events[0], token);
      RunKeepsSession(Step(s, events[0]), events[1..], token);
    }
  }

  /** A token is good for exactly the lifetime of sessions after its login, in every run: until then a missing account
      is the only reason not to find one, and from then on the session is missing. */
  lemma TokenLivesForItsTime(s: State, r: nat, dir: Directory, draw: LoginDraw, events: seq<Event>, env: Env)
    requires Basic(s) && Possible(s, SignIn(r, dir, draw))
    requires LoginFrom(s.pending[r].found, s.pending[r].password, dir, draw).status == 0
    ensures var found, s' := s.pending[r].found, Run(Step(s, SignIn(r, dir, draw)), events);
      var session := ByRedis(Sql(s'.db), draw.token, LiveEnv(s', env)).1;
      && found.Found?
      && (s'.now >= s.now + s.ttl ==> session == SessionMissing)
      && (s'.now < s.now + s.ttl && Answered(draw.token, env) ==>
            (session == AccountMissing <==> found.account.id !in s'.db.rows))
  {
    var found, password := s.pending[r].found, s.pending[r].password;
    var s1 := SignInStep(s, r, found, password, dir, draw);
    assert Step(s, SignIn(r, dir, draw)) == s1;
    CredentialIssued(s, r, found, password, dir, draw);
    StepKeepsBasic(s, SignIn(r, dir, draw));
    RunKeepsBasic(s1, events);
    RunKeepsSession(s1, events, draw.token);
    RunKeepsIssued(s1, events, draw.token);
    var s' := Run(s1, events);
    if s'.now >= s.now + s.ttl { ExpiredTokenIsMissing(s', draw.token, env); }
    else if Answered(draw.token, env) { MissingIffDeleted(s', draw.token, env); }
  }

  lemma CredentialIssued(s: State, r: nat, found: Lookup, password: string, dir: Directory, draw: LoginDraw)
    requires LoginFrom(found, password, dir, draw).status == 0
    ensures found.Found?
    ensures var s' := SignInStep(s, r, found, password, dir, draw);
      && s'.now == s.now && draw.token in s'.issued && s'.issued[draw.token] == found.account.id
      && draw.token in s'.sessions && s'.sessions[draw.token] == SessionEntry(found.account.id, s.now + s.ttl)
  {
  }

  lemma PerformAddsOnlyTheDraw(db: Db, write: Write, w: WriteDraw)
    requires SchemaOk(db) && |w.draw.ranks| == 1
    ensures Perform(db, write, w).0.rows.Keys <= db.rows.Keys + (if write.PutCreate? then {w.draw.id} else {})
  {
    PerformEffect(db, write, w);
  }

  lemma CommitKeepsDeleted(s: State, e: Event, id: string)
    requires Basic(s) && e.Commit? && Possible(s, e) && id in s.used && id !in s.db.rows
    ensures id !in Step(s, e).db.rows
  {
    var r := e.request;
    assert Step(s, e) == CommitStep(s, r, s.pending[r].operator, s.pending[r].write, e.w);
    PerformAddsOnlyTheDraw(s.db, s.pending[r].write, e.w);
  }

  lemma StepKeepsAbsent(s: State, e: Event, id: string)
    requires Basic(s) && id in s.used && id !in s.db.rows && id != TEMPORARY_ID
    ensures id !in Step(s, e).db.rows
  {
    if !WritesDb(e) {
      ReadersShrink(s, e);
    } else if e.Commit? && Possible(s, e) {
      CommitKeepsDeleted(s, e, id);
    }
  }

  lemma StepKeepsDeleted(s: State, e: Event, id: string)
    requires Basic(s) && id in s.used && id !in s.db.rows && id != TEMPORARY_ID
    ensures id !in Step(s, e).db.rows && id in Step(s, e).used && Basic(Step(s, e))
  {
    StepKeepsBasic(s, e);
    StepKeepsAbsent(s, e, id);
    OthersKeepSessions(s, e);
  }

  /** IDs are never reused, except the fixed one. */
  lemma {:induction false} DeletedStaysDeleted(s: State, events: seq<Event>, id: string)
    requires Basic(s) && id in s.used && id !in s.db.rows && id != TEMPORARY_ID
    ensures id !in Run(s, events).db.rows
    decreases |events|
  {
    if events != [] {
      StepKeepsDeleted(s, events[0], id);
      DeletedStaysDeleted(Step(s, events[0]), events[1..], id);
    }
  }

  lemma {:induction false} RunKeepsIssued(s: State, events: seq<Event>, token: string)
    requires token in s.issued
    ensures token in Run(s, events).issued && Run(s, events).issued[token] == s.issued[token]
    decreases |events|
  {
    if events != [] {
      StepKeepsIssued(s, events[0]);
      RunKeepsIssued(Step(s, events[0]), events[1..], token);
    }
  }

  /** Once the account is deleted, its tokens are dead for the rest of every run: they never resolve to an account
      again, and a token that still lives resolves to "account missing" whenever Redis and the row query answer. The
      fixed temporary record is the exception, because a later creation or load brings its ID back. */
  lemma TokensDieWithTheirAccount(s: State, events: seq<Event>, token: string, env: Env)
    requires Basic(s) && token in s.issued && s.issued[token] !in s.db.rows && s.issued[token] != TEMPORARY_ID
    ensures var s' := Run(s, events);
      var session := ByRedis(Sql(s'.db), token, LiveEnv(s', env)).1;
      && (session.AccountMissing? || session.SessionMissing?)
      && (Lives(s', token) && Answered(token, env) ==> session.AccountMissing?)
  {
    RunKeepsBasic(s, events);
    RunKeepsIssued(s, events, token);
    DeletedStaysDeleted(s, events, s.issued[token]);
    var s' := Run(s, events);
    TokenResolves(s', token, env);
    if Lives(s', token) && Answered(token, env) { MissingIffDeleted(s', token, env); }
  }

  /** The exception at work: a live token of the deleted temporary record resolves to the record made by the next
      creation, an enabled super administrator. */
  lemma CreationRevivesTokens(s: State, username: string, hash: string, token: string, env: Env)
    requires Basic(s) && Lives(s, token) && s.issued[token] == TEMPORARY_ID && TEMPORARY_ID !in s.db.rows
    requires !NameTaken(s.db.rows, username, TEMPORARY_ID)
    requires Answered(token, env) && env.redisFault > 1
    ensures var s' := Step(s, Generate(username, hash, 1));
      var session := ByRedis(Sql(s'.db), token, LiveEnv(s', env)).1;
      session.AccountOk? && session.account.isSuperAdmin && session.account.status == "enabled"
      && session.account.username == username
  {
    var s' := GenerateStep(s, username, hash, 1);
    assert Step(s, Generate(username, hash, 1)) == s';
    var account := Account(TEMPORARY_ID, username, hash, "enabled", true, s.now, s.now);
    SuperWithoutRoleIsFound(s.db, s'.db, env.dir, env.redisFault);
    assert SqlGetById(s'.db, TEMPORARY_ID, env.dir, env.redisFault).1 == Found(account, []);
    LiveTokenFinds(s', token, env);
    assert ByRedis(Sql(s'.db), token, LiveEnv(s', env)).1 == AccountOk(account, []);
  }

  /** A load brings the record back too, but disabled. */
  lemma LoadRevivesTokens(s: State, token: string, env: Env)
    requires Basic(s) && Lives(s, token) && s.issued[token] == TEMPORARY_ID && TEMPORARY_ID !in s.db.rows
    requires !NameTaken(s.db.rows, SEED_NAME, TEMPORARY_ID)
    requires Answered(token, env) && env.redisFault > 1
    ensures var s' := Step(s, AddSeed);
      ByRedis(Sql(s'.db), token, LiveEnv(s', env)).1 == AccountOk(SeedRow(s.now).account, [])
  {
    var s' := AddSeedStep(s);
    assert Step(s, AddSeed) == s';
    SuperWithoutRoleIsFound(s.db, s'.db, env.dir, env.redisFault);
    LiveTokenFinds(s', token, env);
  }

  /** A live token of the fixed record is looked up under its ID. */
  lemma LiveTokenFinds(s: State, token: string, env: Env)
    requires IsToken(token) && Lives(s, token) && s.sessions[token].accountId == TEMPORARY_ID
    requires !env.redis(token).NoRedis? && !env.redis(token).RedisError?
    ensures ByRedis(Sql(s.db), token, LiveEnv(s, env)).1
         == SessionFrom(SqlGetById(s.db, TEMPORARY_ID, env.dir, env.redisFault).1)
  {
    TokenTrimmed(token);
  }

  /** A new fixed record has no role, and as a super administrator's needs none. */
  lemma SuperWithoutRoleIsFound(db: Db, db': Db, dir: Directory, fault: nat)
    requires SchemaOk(db) && TEMPORARY_ID !in db.rows && db'.bindings == db.bindings && fault > 1
    requires TEMPORARY_ID in db'.rows && db'.rows[TEMPORARY_ID].account.id == TEMPORARY_ID
    requires db'.rows[TEMPORARY_ID].account.isSuperAdmin
    ensures SqlGetById(db', TEMPORARY_ID, dir, fault) == (db', Found(db'.rows[TEMPORARY_ID].account, []))
  {
    TemporaryIdTrimmed();
    NoneBound(db.bindings, TEMPORARY_ID);
    assert RolesOf(db.bindings, TEMPORARY_ID) == [];
  }
}
