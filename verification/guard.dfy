/** The guard on super administrators across interleavings: when does every run keep it that a write to a super
    administrator's record was asked for by a super administrator? */
module Guard {
  import opened Text
  import opened RoleClient
  import opened Store
  import opened Schema
  import opened Atomicity
  import opened Handlers
  import opened Machine
  import opened Reachable
  import opened Temporary

  /** Every effective update, reset and delete of a super administrator's record came from a super administrator. */
  ghost predicate GuardHolds(s: State) {
    forall entry | entry in s.audit :: entry.targetSuper ==> entry.operatorSuper
  }

  // ---------- who can be authorised ----------

  ghost predicate Usable(db: Db, id: string) {
    exists b | b in db.bindings :: b.accountId == id && TrimSpace(b.roleId) != ""
  }

  ghost predicate CanOperate(db: Db, id: string) {
    id in db.rows && db.rows[id].account.status == "enabled" && (db.rows[id].account.isSuperAdmin || Usable(db, id))
  }

  ghost predicate AnyOperator(db: Db) {
    exists id | id in db.rows :: CanOperate(db, id)
  }

  /** The fixed record is there without the super flag, and some account can pass the management gate. */
  ghost predicate Exposed(db: Db) {
    TEMPORARY_ID in db.rows && !db.rows[TEMPORARY_ID].account.isSuperAdmin && AnyOperator(db)
  }

  lemma ShrinkingKeepsUnusable(db: Db, db': Db, id: string)
    requires OnlyShrunk(db, db')
    ensures Usable(db', id) ==> Usable(db, id)
    ensures CanOperate(db', id) ==> CanOperate(db, id)
    ensures AnyOperator(db') ==> AnyOperator(db)
  {
    if AnyOperator(db') {
      var other :| other in db'.rows && CanOperate(db', other);
      assert CanOperate(db, other);
    }
  }

  /** A chosen role is a stored nonblank one. */
  lemma FoundIsUsable(db: Db, id: string, dir: Directory, fault: nat)
    requires SchemaOk(db)
    ensures var found := SqlGetById(db, id, dir, fault).1;
      found.Found? ==> && TrimSpace(id) in db.rows && found.account == db.rows[TrimSpace(id)].account
                       && (!found.account.isSuperAdmin ==> Usable(db, TrimSpace(id)))
  {
    var key := TrimSpace(id);
    var found := SqlGetById(db, id, dir, fault).1;
    if found.Found? && !found.account.isSuperAdmin {
      var stored := RolesOf(db.bindings, key);
      var k := FirstEnabledMeaning(dir, stored);
      var k' := if |stored| == 1 then 0 else k;
      assert TrimSpace(stored[k']) != "";
      RolesOfMembers(db.bindings, key, stored[k']);
      assert stored[k'] in stored;
    }
  }

  /** What a session says about its account in the database the request started from. */
  ghost predicate Backed(db: Db, session: Session) {
    session.AccountOk? ==>
      && session.account.id in db.rows && session.account == db.rows[session.account.id].account
      && (!session.account.isSuperAdmin ==> Usable(db, session.account.id))
  }

  lemma LookupBacked(db: Db, id: string, dir: Directory, fault: nat)
    requires SchemaOk(db)
    ensures Backed(db, SessionFrom(SqlGetById(db, id, dir, fault).1))
  {
    FoundIsUsable(db, id, dir, fault);
  }

  lemma BackedEarlier(db: Db, db': Db, session: Session)
    requires OnlyShrunk(db, db') && Backed(db', session)
    ensures Backed(db, session)
  {
    if session.AccountOk? { ShrinkingKeepsUnusable(db, db', session.account.id); }
  }

  lemma ByProjectBacked(db: Db, token: string, env: Env)
    requires SchemaOk(db)
    ensures Backed(db, ByProject(Sql(db), token, env).1)
  {
    var answer := env.project(TrimSpace(token));
    if answer.FromHook? {
      LookupBacked(db, TrimSpace(answer.hookId), env.dir, env.projectFault);
    } else if answer.FromTable? {
      LookupBacked(db, answer.tableId, env.dir, env.projectFault);
    }
  }

  lemma ByRedisBacked(db: Db, token: string, env: Env)
    requires SchemaOk(db)
    ensures Backed(db, ByRedis(Sql(db), token, env).1)
    ensures OnlyShrunk(db, ByRedis(Sql(db), token, env).0.db)
  {
    var answer := env.redis(TrimSpace(token));
    if answer.SessionOf? {
      LookupBacked(db, answer.accountId, env.dir, env.redisFault);
      GetByIdCompacts(Sql(db), answer.accountId, env.dir, env.redisFault);
    }
  }

  lemma ByAnyTokenBacked(db: Db, token: string, env: Env)
    requires SchemaOk(db)
    ensures Backed(db, ByAnyToken(Sql(db), token, env).1)
  {
    ByRedisBacked(db, token, env);
    var db' := ByRedis(Sql(db), token, env).0.db;
    ByProjectBacked(db', token, env);
    BackedEarlier(db, db', ByProject(Sql(db'), token, env).1);
  }

  lemma ByHeadersBacked(db: Db, env: Env)
    requires SchemaOk(db)
    ensures Backed(db, ByHeaders(Sql(db), env).1)
  {
    LookupBacked(db, TrimSpace(env.headers.accountId), env.dir, env.headerFault);
    var first := TrimSpace(env.headers.adminSessionToken);
    var second := if first == "" then TrimSpace(env.headers.adminToken) else first;
    ByProjectBacked(db, if second == "" then TrimSpace(TrimBearer(env.headers.authorization)) else second, env);
  }

  /** Whoever passes the gate is an account of the store that can operate. */
  lemma AdmittedCanOperate(db: Db, token: string, env: Env, codes: Codes)
    requires SchemaOk(db)
    ensures var gate := RequireManage(Sql(db), token, env, codes).1;
      gate.Admitted? ==> CanOperate(db, gate.operator.id)
  {
    var (store', first) := ByAnyToken(Sql(db), token, env);
    ByAnyTokenBacked(db, token, env);
    ByAnyTokenCompacts(Sql(db), token, env);
    ByHeadersBacked(store'.db, env);
    BackedEarlier(db, store'.db, ByHeaders(store', env).1);
  }

  lemma SameBindingsSameUse(db: Db, db': Db, id: string)
    requires BindingsOf(db'.bindings, id) == BindingsOf(db.bindings, id)
    ensures Usable(db', id) <==> Usable(db, id)
  {
    BindingsOfMembers(db.bindings, id);
    BindingsOfMembers(db'.bindings, id);
    if b :| b in db.bindings && b.accountId == id && TrimSpace(b.roleId) != "" {
      assert b in BindingsOf(db'.bindings, id);
    }
    if b :| b in db'.bindings && b.accountId == id && TrimSpace(b.roleId) != "" {
      assert b in BindingsOf(db.bindings, id);
    }
  }

  // ---------- a store whose fixed record has the flag, or is absent ----------

  /** The super flag of every row but the fixed one is what it was; new rows have none. */
  ghost predicate FlagsKept(db: Db, db': Db) {
    forall id | id in db'.rows && id != TEMPORARY_ID ::
      db'.rows[id].account.isSuperAdmin == (id in db.rows && db.rows[id].account.isSuperAdmin)
  }

  ghost predicate FixedIsSuper(db: Db) {
    TEMPORARY_ID in db.rows ==> db.rows[TEMPORARY_ID].account.isSuperAdmin
  }

  /** No record with this ID is or becomes a super administrator's. */
  ghost predicate NeverSuper(db: Db, id: string) {
    id != TEMPORARY_ID && (id in db.rows ==> !db.rows[id].account.isSuperAdmin)
  }

  /** The row that was read is the one the write goes to, and carried the flag if that record ever will. */
  ghost predicate TargetOk(db: Db, account: Account, write: Write) {
    write.PutCreate? || (account.id == TrimSpace(write.Key()) && (account.isSuperAdmin || NeverSuper(db, account.id)))
  }

  /** A cleared write to a super administrator's record has a super operator. */
  ghost predicate WriteOk(db: Db, operator: Account, write: Write) {
    write.PutCreate? || operator.isSuperAdmin || NeverSuper(db, write.Key())
  }

  ghost predicate KeyOk(key: Key, write: Write) {
    write.PutCreate? || (key.ById? && TrimSpace(key.id) == TrimSpace(write.Key()))
  }

  /** What holds of a request under way. */
  ghost predicate InFlightOk(db: Db, p: Pending) {
    match p
    case Asking(key, purpose) => purpose.ForTarget? ==> KeyOk(key, purpose.write)
    case Reading(account, purpose) => purpose.ForTarget? ==> TargetOk(db, account, purpose.write)
    case Compacting(account, _, purpose) => purpose.ForTarget? ==> TargetOk(db, account, purpose.write)
    case Cleared(operator, write) => WriteOk(db, operator, write)
    case _ => true
  }

  ghost predicate Open(s: State) {
    FixedIsSuper(s.db) && forall r | r in s.pending :: InFlightOk(s.db, s.pending[r])
  }

  lemma FlagsKeepInFlight(db: Db, db': Db, p: Pending)
    requires FlagsKept(db, db') && InFlightOk(db, p)
    ensures InFlightOk(db', p)
  {
  }

  lemma FlagsKeepOpen(s: State, s': State)
    requires Open(s) && FlagsKept(s.db, s'.db) && FixedIsSuper(s'.db)
    requires forall r | r in s'.pending :: r in s.pending && s'.pending[r] == s.pending[r]
    ensures Open(s')
  {
    forall r | r in s'.pending ensures InFlightOk(s'.db, s'.pending[r]) {
      FlagsKeepInFlight(s.db, s'.db, s.pending[r]);
    }
  }

  /** The guard lets a write through only if it may go to that record. */
  lemma PassedIsOk(db: Db, found: Lookup, operator: Account, write: Write)
    requires forall id | id in db.rows :: Trimmed(id)
    requires Passes(found, operator, write)
    requires found.Found? ==> TargetOk(db, found.account, write)
    ensures WriteOk(db, operator, write)
  {
    if !write.PutCreate? && !operator.isSuperAdmin {
      assert found.Found? && !found.account.isSuperAdmin && NeverSuper(db, found.account.id);
      assert write.Key() in db.rows ==> write.Key() == TrimSpace(write.Key());
      TemporaryIdTrimmed();
    }
  }

  /** Ending a lookup keeps every request in order. */
  lemma FinishKeepsOpen(s: State, r: nat, purpose: Purpose, found: Lookup)
    requires Open(s) && IdsOk(s.db, s.used)
    requires purpose.ForTarget? && found.Found? ==> TargetOk(s.db, found.account, purpose.write)
    ensures Open(Finish(s, r, purpose, found))
  {
    if purpose.ForTarget? && Passes(found, purpose.operator, purpose.write) {
      PassedIsOk(s.db, found, purpose.operator, purpose.write);
    }
  }

  lemma RowIsOk(db: Db, key: Key, write: Write)
    requires SchemaOk(db) && FixedIsSuper(db) && KeyOk(key, write) && RowOf(db, key).Some?
    ensures TargetOk(db, RowOf(db, key).value, write)
  {
  }

  lemma ReadRowKeepsOpen(s: State, r: nat, fails: bool)
    requires Basic(s) && Open(s) && r in s.pending && s.pending[r].Asking?
    ensures Open(ReadRowStep(s, r, s.pending[r].key, s.pending[r].purpose, fails))
  {
    var Asking(key, purpose) := s.pending[r];
    FinishKeepsOpen(s, r, purpose, if fails then LookupError else NoAccount);
    if purpose.ForTarget? && RowOf(s.db, key).Some? { RowIsOk(s.db, key, purpose.write); }
  }

  lemma ReadRolesKeepsOpen(s: State, r: nat, dir: Directory, fails: bool)
    requires Basic(s) && Open(s) && r in s.pending && s.pending[r].Reading?
    ensures Open(ReadRolesStep(s, r, s.pending[r].account, s.pending[r].purpose, dir, fails))
  {
    var Reading(account, purpose) := s.pending[r];
    var choice := Choose(dir, RolesOf(s.db.bindings, account.id));
    assert InFlightOk(s.db, s.pending[r]);
    FinishKeepsOpen(s, r, purpose, if fails then LookupError else Settle(account, choice));
  }

  lemma CompactKeepsOpen(s: State, r: nat, fails: bool)
    requires Basic(s) && Open(s) && r in s.pending && s.pending[r].Compacting?
    ensures Open(CompactStep(s, r, s.pending[r].account, s.pending[r].roleId, s.pending[r].purpose, fails))
  {
    var Compacting(account, roleId, purpose) := s.pending[r];
    assert InFlightOk(s.db, s.pending[r]);
    if fails {
      FinishKeepsOpen(s, r, purpose, LookupError);
    } else {
      var compacted := s.(db := s.db.(bindings := KeepOnly(s.db.bindings, account.id, roleId)));
      FlagsKeepOpen(s, compacted);
      FinishKeepsOpen(compacted, r, purpose, Found(account, [roleId]));
    }
  }

  lemma ProceedKeepsOpen(s: State, r: nat, operator: Account, job: Job, dir: Directory)
    requires Open(s)
    ensures Open(ProceedStep(s, r, operator, job, dir))
  {
    var vet := VetJob(dir, job);
    if vet.Fit? { assert KeyOk(vet.key, vet.write); }
  }

  lemma WriteKeepsFlags(s: State, e: Event)
    requires Basic(s) && WritesDb(e)
    ensures FlagsKept(s.db, Step(s, e).db)
    ensures FixedIsSuper(s.db) ==> FixedIsSuper(Step(s, e).db)
  {
    if e.Commit? { CommitKeepsFlags(s, e); } else { UpkeepKeepsFlags(s, e); }
  }

  lemma UpkeepKeepsFlags(s: State, e: Event)
    requires WritesDb(e) && !e.Commit?
    ensures FlagsKept(s.db, Step(s, e).db)
    ensures FixedIsSuper(s.db) ==> FixedIsSuper(Step(s, e).db)
  {
    match e
    case Generate(username, hash, fault) => GenerateKeepsFlags(s.db, username, hash, s.now, fault);
    case Tick => TickKeepsFlags(s.db, s.now);
    case _ =>
  }

  lemma CommitKeepsFlags(s: State, e: Event)
    requires Basic(s) && e.Commit?
    ensures FlagsKept(s.db, Step(s, e).db)
    ensures FixedIsSuper(s.db) ==> FixedIsSuper(Step(s, e).db)
  {
    if Possible(s, e) {
      PerformKeepsFlags(s.db, s.pending[e.request].write, e.w);
      assert Step(s, e).db == Perform(s.db, s.pending[e.request].write, e.w).0;
    }
  }

  lemma GenerateKeepsFlags(db: Db, username: string, hash: string, now: int, fault: nat)
    ensures var db' := SqlGenerate(db, username, hash, now + TEMPORARY_TTL, now, fault).0;
      FlagsKept(db, db') && (FixedIsSuper(db) ==> FixedIsSuper(db'))
  {
  }

  lemma TickKeepsFlags(db: Db, now: int)
    ensures FlagsKept(db, SqlTick(db, now)) && (FixedIsSuper(db) ==> FixedIsSuper(SqlTick(db, now)))
  {
  }

  lemma PerformKeepsFlags(db: Db, write: Write, w: WriteDraw)
    requires SchemaOk(db) && |w.draw.ranks| == 1 && (write.PutCreate? ==> IsShortId(w.draw.id))
    ensures FlagsKept(db, Perform(db, write, w).0)
    ensures FixedIsSuper(db) ==> FixedIsSuper(Perform(db, write, w).0)
  {
    PerformOnRows(db, write, w);
    if write.PutCreate? { ShortIdTrimmed(w.draw.id); }
  }

  lemma WriteKeepsOpen(s: State, e: Event)
    requires Basic(s) && Open(s) && WritesDb(e)
    ensures Open(Step(s, e))
  {
    WriteKeepsFlags(s, e);
    FlagsKeepOpen(s, Step(s, e));
  }

  lemma LookupKeepsOpen(s: State, e: Event)
    requires Basic(s) && Open(s) && Possible(s, e) && (e.ReadRow? || e.ReadRoles? || e.Compact?)
    ensures Open(Step(s, e))
  {
    match e
    case ReadRow(r, fails) => ReadRowKeepsOpen(s, r, fails);
    case ReadRoles(r, dir, fails) => ReadRolesKeepsOpen(s, r, dir, fails);
    case Compact(r, fails) => CompactKeepsOpen(s, r, fails);
  }

  lemma OtherKeepsOpen(s: State, e: Event)
    requires Open(s) && Possible(s, e) && !WritesDb(e) && !e.ReadRow? && !e.ReadRoles? && !e.Compact?
    ensures Open(Step(s, e))
  {
    if e.Proceed? {
      ProceedKeepsOpen(s, e.request, s.pending[e.request].operator, s.pending[e.request].job, e.dir);
    }
  }

  lemma StepKeepsOpen(s: State, e: Event)
    requires Basic(s) && Open(s)
    ensures Open(Step(s, e))
  {
    if WritesDb(e) {
      WriteKeepsOpen(s, e);
    } else if Possible(s, e) {
      if e.ReadRow? || e.ReadRoles? || e.Compact? { LookupKeepsOpen(s, e); } else { OtherKeepsOpen(s, e); }
    }
  }

  // ---------- a store where nobody can pass the gate ----------

  /** An account as it was read that the gate refuses, whatever the roles answer. */
  ghost predicate Barred(db: Db, account: Account) {
    account.status == "enabled" ==> !account.isSuperAdmin && !Usable(db, account.id)
  }

  /** What holds of a request under way while nobody can operate: none is through the gate. */
  ghost predicate InFlightBarred(db: Db, p: Pending) {
    match p
    case Asking(_, purpose) => !purpose.ForTarget?
    case Reading(account, purpose) => !purpose.ForTarget? && (purpose.ForOperator? ==> Barred(db, account))
    case Compacting(account, _, purpose) =>
      !purpose.ForTarget? && (purpose.ForOperator? ==> account.status != "enabled")
    case Authorised(_, _) => false
    case Cleared(_, _) => false
    case SigningIn(_, _) => true
  }

  ghost predicate Closed(s: State) {
    !AnyOperator(s.db) && forall r | r in s.pending :: InFlightBarred(s.db, s.pending[r])
  }

  /** Fewer can operate, and those who were read are still refused. */
  lemma FewerKeepClosed(s: State, s': State)
    requires Closed(s) && (AnyOperator(s'.db) ==> AnyOperator(s.db))
    requires forall id :: Usable(s'.db, id) ==> Usable(s.db, id)
    requires forall r | r in s'.pending :: r in s.pending && s'.pending[r] == s.pending[r]
    ensures Closed(s')
  {
    forall r | r in s'.pending ensures InFlightBarred(s'.db, s'.pending[r]) {
      assert InFlightBarred(s.db, s.pending[r]);
    }
  }

  /** A chosen role is a stored nonblank one. */
  lemma ChosenIsUsable(db: Db, account: Account, dir: Directory)
    ensures var choice := Choose(dir, RolesOf(db.bindings, account.id));
      choice.Only? || choice.CompactTo? ==> Usable(db, account.id)
  {
    var stored := RolesOf(db.bindings, account.id);
    var choice := Choose(dir, stored);
    if choice.Only? || choice.CompactTo? {
      var k := FirstEnabledMeaning(dir, stored);
      var role := stored[if |stored| == 1 then 0 else k];
      assert TrimSpace(role) != "" && role in stored;
      RolesOfMembers(db.bindings, account.id, role);
    }
  }

  lemma FinishKeepsClosed(s: State, r: nat, purpose: Purpose, found: Lookup)
    requires Closed(s) && !purpose.ForTarget?
    requires purpose.ForOperator? && found.Found? ==> found.account.status != "enabled"
    ensures Closed(Finish(s, r, purpose, found))
  {
  }

  lemma ReadRowKeepsClosed(s: State, r: nat, fails: bool)
    requires Basic(s) && Closed(s) && r in s.pending && s.pending[r].Asking?
    ensures Closed(ReadRowStep(s, r, s.pending[r].key, s.pending[r].purpose, fails))
  {
    var Asking(key, purpose) := s.pending[r];
    assert InFlightBarred(s.db, s.pending[r]);
    FinishKeepsClosed(s, r, purpose, if fails then LookupError else NoAccount);
    var row := RowOf(s.db, key);
    if row.Some? {
      assert row.value.id in s.db.rows && s.db.rows[row.value.id].account == row.value;
      assert !CanOperate(s.db, row.value.id);
      assert Barred(s.db, row.value);
    }
  }

  lemma ReadRolesKeepsClosed(s: State, r: nat, dir: Directory, fails: bool)
    requires Basic(s) && Closed(s) && r in s.pending && s.pending[r].Reading?
    ensures Closed(ReadRolesStep(s, r, s.pending[r].account, s.pending[r].purpose, dir, fails))
  {
    var Reading(account, purpose) := s.pending[r];
    assert InFlightBarred(s.db, s.pending[r]);
    ChosenIsUsable(s.db, account, dir);
    var choice := Choose(dir, RolesOf(s.db.bindings, account.id));
    FinishKeepsClosed(s, r, purpose, if fails then LookupError else Settle(account, choice));
  }

  lemma CompactKeepsClosed(s: State, r: nat, fails: bool)
    requires Basic(s) && Closed(s) && r in s.pending && s.pending[r].Compacting?
    ensures Closed(CompactStep(s, r, s.pending[r].account, s.pending[r].roleId, s.pending[r].purpose, fails))
  {
    var Compacting(account, roleId, purpose) := s.pending[r];
    assert InFlightBarred(s.db, s.pending[r]);
    if fails {
      FinishKeepsClosed(s, r, purpose, LookupError);
    } else {
      var compacted := s.(db := s.db.(bindings := KeepOnly(s.db.bindings, account.id, roleId)));
      CompactionShrinks(s.db, account.id, roleId);
      ShrinkingKeepsUnusable(s.db, compacted.db, TEMPORARY_ID);
      forall id ensures Usable(compacted.db, id) ==> Usable(s.db, id) {
        ShrinkingKeepsUnusable(s.db, compacted.db, id);
      }
      FewerKeepClosed(s, compacted);
      FinishKeepsClosed(compacted, r, purpose, Found(account, [roleId]));
    }
  }

  lemma TickAddsNoOperator(db: Db, now: int)
    ensures AnyOperator(SqlTick(db, now)) ==> AnyOperator(db)
    ensures forall id :: Usable(SqlTick(db, now), id) == Usable(db, id)
  {
    if AnyOperator(SqlTick(db, now)) {
      var id :| id in db.rows && CanOperate(SqlTick(db, now), id);
      assert CanOperate(db, id);
    }
  }

  lemma TickKeepsClosed(s: State)
    requires Closed(s)
    ensures Closed(Step(s, Tick))
  {
    TickAddsNoOperator(s.db, s.now);
    FewerKeepClosed(s, Step(s, Tick));
  }

  /** The seed row is disabled. */
  lemma LoadAddsNoOperator(db: Db, now: int)
    ensures AnyOperator(SqlAddIndex(db)) ==> AnyOperator(db)
    ensures AnyOperator(SqlAddSeed(db, now)) ==> AnyOperator(db)
    ensures forall id :: Usable(SqlAddIndex(db), id) == Usable(db, id) == Usable(SqlAddSeed(db, now), id)
  {
    if AnyOperator(SqlAddIndex(db)) {
      var id :| id in db.rows && CanOperate(SqlAddIndex(db), id);
      assert CanOperate(db, id);
    }
    if AnyOperator(SqlAddSeed(db, now)) {
      var id :| id in SqlAddSeed(db, now).rows && CanOperate(SqlAddSeed(db, now), id);
      assert CanOperate(db, id);
    }
  }

  lemma LoadKeepsClosed(s: State, e: Event)
    requires Closed(s) && (e.AddIndex? || e.AddSeed?)
    ensures Closed(Step(s, e))
  {
    LoadAddsNoOperator(s.db, s.now);
    FewerKeepClosed(s, Step(s, e));
  }

  lemma NothingIsCleared(s: State, e: Event)
    requires Closed(s) && (e.Proceed? || e.Commit?)
    ensures !Possible(s, e)
  {
    if e.request in s.pending {
      assert InFlightBarred(s.db, s.pending[e.request]);
    }
  }

  lemma LookupKeepsClosed(s: State, e: Event)
    requires Basic(s) && Closed(s) && Possible(s, e) && (e.ReadRow? || e.ReadRoles? || e.Compact?)
    ensures Closed(Step(s, e))
  {
    match e
    case ReadRow(r, fails) => ReadRowKeepsClosed(s, r, fails);
    case ReadRoles(r, dir, fails) => ReadRolesKeepsClosed(s, r, dir, fails);
    case Compact(r, fails) => CompactKeepsClosed(s, r, fails);
  }

  lemma OtherKeepsClosed(s: State, e: Event)
    requires Closed(s) && Possible(s, e) && !e.ReadRow? && !e.ReadRoles? && !e.Compact?
    requires !e.Proceed? && !e.Commit? && !e.Generate? && !e.Tick? && !e.AddIndex? && !e.AddSeed?
    ensures Closed(Step(s, e))
  {
  }

  /** Without an operator nothing passes the gate, until a creation gives the fixed record the flag. */
  lemma StepKeepsClosed(s: State, e: Event)
    requires Basic(s) && Closed(s) && !e.Generate?
    ensures Closed(Step(s, e))
  {
    if e.Proceed? || e.Commit? {
      NothingIsCleared(s, e);
    } else if Possible(s, e) {
      if e.ReadRow? || e.ReadRoles? || e.Compact? {
        LookupKeepsClosed(s, e);
      } else if e.Tick? {
        TickKeepsClosed(s);
      } else if e.AddIndex? || e.AddSeed? {
        LoadKeepsClosed(s, e);
      } else {
        OtherKeepsClosed(s, e);
      }
    }
  }

  lemma GenerateOpens(s: State, e: Event)
    requires Closed(s) && e.Generate?
    ensures Closed(Step(s, e)) || Open(Step(s, e))
  {
    var s' := Step(s, e);
    if s'.db != s.db {
      forall r | r in s'.pending ensures InFlightOk(s'.db, s'.pending[r]) {
        assert InFlightBarred(s.db, s.pending[r]);
      }
    }
  }

  // ---------- the guard ----------

  ghost predicate Safe(s: State) {
    Basic(s) && GuardHolds(s) && (Open(s) || Closed(s))
  }

  lemma CommitGuarded(s: State, r: nat, w: WriteDraw)
    requires GuardHolds(s) && r in s.pending && s.pending[r].Cleared? && |w.draw.ranks| == 1
    requires WriteOk(s.db, s.pending[r].operator, s.pending[r].write)
    ensures GuardHolds(CommitStep(s, r, s.pending[r].operator, s.pending[r].write, w))
  {
  }

  lemma StepKeepsGuard(s: State, e: Event)
    requires Safe(s)
    ensures GuardHolds(Step(s, e))
  {
    if Possible(s, e) {
      if e.Commit? {
        assert Closed(s) ==> InFlightBarred(s.db, s.pending[e.request]);
        assert Open(s) ==> InFlightOk(s.db, s.pending[e.request]);
        CommitGuarded(s, e.request, e.w);
      } else if e.ReadRow? || e.ReadRoles? || e.Compact? {
        LookupKeepsSessions(s, e);
      }
    }
  }

  lemma StepKeepsSafe(s: State, e: Event)
    requires Safe(s)
    ensures Safe(Step(s, e))
  {
    StepKeepsBasic(s, e);
    StepKeepsGuard(s, e);
    if Open(s) {
      StepKeepsOpen(s, e);
    } else if e.Generate? {
      GenerateOpens(s, e);
    } else {
      StepKeepsClosed(s, e);
    }
  }

  lemma {:induction false} RunKeepsSafe(s: State, events: seq<Event>)
    requires Safe(s)
    ensures Safe(Run(s, events))
    decreases |events|
  {
    if events != [] {
      StepKeepsSafe(s, events[0]);
      RunKeepsSafe(Step(s, events[0]), events[1..]);
    }
  }

  /** From the seeded store, every interleaving keeps the guard. */
  lemma SeededRunsAreGuarded(s0: State, events: seq<Event>)
    requires Seeded(s0)
    ensures GuardHolds(Run(s0, events))
  {
    RunKeepsSafe(s0, events);
  }

  /** So does every interleaving from any started store that is not exposed. */
  lemma UnexposedRunsAreGuarded(s0: State, events: seq<Event>)
    requires Started(s0) && !Exposed(s0.db)
    ensures GuardHolds(Run(s0, events))
  {
    RunKeepsSafe(s0, events);
  }
}
