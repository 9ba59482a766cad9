/** Building runs: under a role module that grants everything, requests whose operator can operate go through. */
module Runs {
  import opened Text
  import opened RoleClient
  import opened Store
  import opened Schema
  import opened Handlers
  import opened Machine
  import opened Reachable
  import opened Guard
  import A = Atomicity
  import B = Backends
  import S = Steps
  import V = Verdicts

  /** No statement fails. */
  const NEVER: nat := 9

  /** A role module in which every role is enabled and grants everything. */
  function Generous(): Directory {
    Directory(_ => Reply(0, Some(RoleDetail("enabled", "", []))), (_, _) => Reply(0, Some(RoleCheck(true, "enabled"))))
  }

  /** An environment in which the project's session table names the account. */
  function Naming(accountId: string): Env {
    Env(_ => RedisError, _ => FromTable(accountId), Headers("", "", "", ""), Generous(), NEVER, NEVER, NEVER)
  }

  function Drawn(now: int, id: string): WriteDraw {
    WriteDraw(Draw(id, now, [0]), password => password, NEVER, NEVER)
  }

  ghost predicate Sane(db: Db) {
    SchemaOk(db) && forall id | id in db.rows :: Trimmed(id) && id != ""
  }

  // ---------- reads ----------

  lemma GenerousGrants(roleId: string)
    ensures Enabled(Generous(), roleId) && Judge(Generous(), MANAGE, roleId) == Judged("enabled", true)
  {
    assert Trimmed("enabled");
  }

  /** The generous role module never fails a question, and a usable account gets a role. */
  lemma GenerousChoice(db: Db, id: string)
    ensures var choice := Choose(Generous(), RolesOf(db.bindings, id));
      !choice.OracleFailed? && (Usable(db, id) ==> !choice.NoUsableRole?)
  {
    var stored := RolesOf(db.bindings, id);
    var k := FirstEnabledMeaning(Generous(), stored);
    if k < |stored| {
      GenerousGrants(TrimSpace(stored[k]));
    }
    if b :| b in db.bindings && b.accountId == id && TrimSpace(b.roleId) != "" {
      RolesOfMembers(db.bindings, id, b.roleId);
      assert HasRole(db.bindings, id, b.roleId);
      var i :| 0 <= i < |stored| && stored[i] == b.roleId;
      GenerousGrants(TrimSpace(b.roleId));
      assert !PassedOver(Generous(), stored[i]);
    }
  }

  ghost predicate Readable(db: Db, id: string) {
    id in db.rows && (db.rows[id].account.isSuperAdmin || Usable(db, id))
  }

  lemma GenerousRead(db: Db, id: string)
    requires Sane(db) && Readable(db, id)
    ensures var (db', found) := SqlGetById(db, id, Generous(), NEVER);
      found.Found? && found.account == db.rows[id].account && Sane(db') && db'.rows == db.rows
  {
    GenerousChoice(db, id);
    A.GetByIdCompacts(Sql(db), id, Generous(), NEVER);
  }

  /** Reading an account leaves the bindings of the others alone. */
  lemma ReadLeavesOthers(db: Db, id: string, other: string)
    requires Sane(db) && id in db.rows && other != id
    ensures BindingsOf(SqlGetById(db, id, Generous(), NEVER).0.bindings, other) == BindingsOf(db.bindings, other)
  {
    var choice := Choose(Generous(), RolesOf(db.bindings, id));
    if choice.CompactTo? { KeepOnlyOthers(db.bindings, id, choice.roleId, other); }
  }

  // ---------- the gate ----------

  /** The account that the project's session names passes the gate if it can operate. */
  lemma OperatorAdmitted(db: Db, id: string, env: Env, codes: Codes)
    requires Sane(db) && CanOperate(db, id)
    requires env.redis("t") == RedisError && env.project("t") == FromTable(id)
    requires env.dir == Generous() && env.projectFault == NEVER
    ensures RequireManage(Sql(db), "t", env, codes)
         == (Sql(SqlGetById(db, id, Generous(), NEVER).0), Admitted(db.rows[id].account))
  {
    var (db', found) := SqlGetById(db, id, Generous(), NEVER);
    GenerousRead(db, id);
    SessionNamed(db, id, env);
    GenerousVerdict(db, id, codes);
  }

  lemma SessionNamed(db: Db, id: string, env: Env)
    requires env.redis("t") == RedisError && env.project("t") == FromTable(id)
    requires env.dir == Generous() && env.projectFault == NEVER && id != ""
    ensures var (db', found) := SqlGetById(db, id, Generous(), NEVER);
      ByAnyToken(Sql(db), "t", env) == (Sql(db'), SessionFrom(found))
  {
    assert TrimSpace("t") == "t";
    assert ByRedis(Sql(db), "t", env) == (Sql(db), SessionMissing);
  }

  lemma GenerousVerdict(db: Db, id: string, codes: Codes)
    ensures var found := SqlGetById(db, id, Generous(), NEVER).1;
      found.Found? && found.account.status == "enabled" ==>
        Judgment(Generous(), SessionFrom(found), codes) == Admitted(found.account)
  {
    var found := SqlGetById(db, id, Generous(), NEVER).1;
    V.FoundHasOneRole(Sql(db), id, Generous(), NEVER);
    if found.Found? && !found.account.isSuperAdmin {
      assert found.roleIds == [found.roleIds[0]];
      GenerousGrants(found.roleIds[0]);
      V.EvaluateSingle(Generous(), MANAGE, found.roleIds[0]);
    }
  }

  // ---------- writes ----------

  predicate FitRole(roleId: string) { Trimmed(roleId) && roleId != "" && ValidRecordId(roleId) }

  lemma RoleIsClean(roleId: string)
    requires FitRole(roleId)
    ensures CleanRoles(Generous(), [roleId]) == Clean(roleId)
  {
    GenerousGrants(roleId);
    assert AvailabilityOf(Generous(), [roleId]) == Available(true);
  }

  lemma StatusesAreNormal()
    ensures NormalizeStatus("enabled") == "enabled" && NormalizeStatus("disabled") == "disabled"
  {
    assert Trimmed("enabled") && Trimmed("disabled");
  }

  lemma ReplacementAt(work: Db, id: string, roles: seq<string>, ranks: seq<int>)
    requires |roles| == 1 && |ranks| == 1 && id in work.rows
    ensures ReplaceRoles(work, id, roles, ranks, NEVER, 2).Some?
  {
    var cleared := work.(bindings := Without(work.bindings, id));
    WithoutMembers(work.bindings, id);
    B.InsertionSucceedsIff(cleared, id, roles, ranks, NEVER, 3);
  }

  /** The row after an update that enables it. */
  function EnabledRow(row: Row, now: int): Row {
    row.(account := row.account.(status := "enabled", updatedAt := now))
  }

  lemma EnableTakesEffect(db: Db, id: string, roleId: string, w: WriteDraw)
    requires SchemaOk(db) && id in db.rows && w.draw.ranks == [0]
    ensures var (db', reply) := SqlUpdate(db, id, "enabled", [roleId], w.draw, NEVER);
      && reply.Stored? && db'.rows == db.rows[id := EnabledRow(db.rows[id], w.draw.now)]
      && RolesOf(db'.bindings, id) == [roleId]
      && (forall other | other != id :: BindingsOf(db'.bindings, other) == BindingsOf(db.bindings, other))
  {
    ReplacementAt(db.(rows := db.rows[id := EnabledRow(db.rows[id], w.draw.now)]), id, [roleId], w.draw.ranks);
    UpdateSucceeds(db, id, roleId, w);
    A.UpdateAllOrNothing(db, id, "enabled", [roleId], w.draw, NEVER);
    NewRolesInOrder(SqlUpdate(db, id, "enabled", [roleId], w.draw, NEVER).0.bindings, id, [roleId], w.draw.ranks);
  }

  lemma UpdateSucceeds(db: Db, id: string, roleId: string, w: WriteDraw)
    requires id in db.rows && w.draw.ranks == [0]
    requires ReplaceRoles(db.(rows := db.rows[id := EnabledRow(db.rows[id], w.draw.now)]),
                 db.rows[id].account.id, [roleId],
                          w.draw.ranks, NEVER, 2).Some?
    ensures SqlUpdate(db, id, "enabled", [roleId], w.draw, NEVER).1.Stored?
  {
  }

  // ---------- whole requests ----------

  ghost predicate AsksAs(env: Env, id: string) {
    && env.redis("t") == RedisError && env.project("t") == FromTable(id)
    && env.dir == Generous() && env.projectFault == NEVER
  }

  function EnableJob(id: string, roleId: string): Job { UpdateJob(UpdateRequest("t", id, "enabled", [roleId])) }

  function ResetJobOf(id: string): Job { ResetJob(ResetRequest("t", id, "secret")) }

  function DeleteJobOf(id: string): Job { DeleteJob(DeleteRequest("t", id)) }

  function CreateJobOf(name: string, roleId: string): Job {
    CreateJob(CreateRequest("t", name, "secret", "enabled", [roleId]))
  }

  lemma SecretIsValid()
    ensures ValidPassword("secret")
  {
    assert ByteLen("secret") == 6 by {
      assert "secret"[1..] == "ecret" && "ecret"[1..] == "cret" && "cret"[1..] == "ret";
      assert "ret"[1..] == "et" && "et"[1..] == "t" && "t"[1..] == "";
    }
  }

  lemma EnableIsFit(id: string, roleId: string)
    requires ValidRecordId(id) && FitRole(roleId)
    ensures VetJob(Generous(), EnableJob(id, roleId)) == Fit(ById(id), PutUpdate(id, "enabled", roleId))
  {
    RoleIsClean(roleId);
    StatusesAreNormal();
  }

  lemma ResetIsFit(id: string)
    requires ValidRecordId(id)
    ensures VetJob(Generous(), ResetJobOf(id)) == Fit(ById(id), PutReset(id, "secret"))
  {
    SecretIsValid();
  }

  predicate FitName(name: string) { Trimmed(name) && ValidAccount(name) }

  lemma CreateIsFit(name: string, roleId: string)
    requires FitName(name) && FitRole(roleId)
    ensures VetJob(Generous(), CreateJobOf(name, roleId))
         == Fit(ByName(name), PutCreate(name, "secret", "enabled", roleId))
  {
    RoleIsClean(roleId);
    StatusesAreNormal();
    SecretIsValid();
  }

  /** A request of an operator that passes the guard: after the gate and its lookup, the write is performed. */
  lemma RequestPerforms(db: Db, operatorId: string, job: Job, key: Key, write: Write, env: Env, w: WriteDraw)
    requires Sane(db) && CanOperate(db, operatorId) && AsksAs(env, operatorId) && job.Token() == "t"
    requires |w.draw.ranks| == 1 && w.lookupFault == NEVER
    requires VetJob(Generous(), job) == Fit(key, write)
    requires var db1 := SqlGetById(db, operatorId, Generous(), NEVER).0;
      Passes(S.Get(db1, key, Generous(), NEVER).1, db.rows[operatorId].account, write)
    ensures var db1 := SqlGetById(db, operatorId, Generous(), NEVER).0;
      var db2 := S.Get(db1, key, Generous(), NEVER).0;
      S.Handled(db, job, env, w) == Sql(Perform(db2, write, w).0)
  {
    OperatorAdmitted(db, operatorId, env, Codes(1, 2, 3));
    S.HandledIsGated(db, job, env, w);
  }

  /** A target that can be read passes the guard, for an operator of its own kind or above. */
  lemma TargetPasses(db: Db, id: string, operator: Account, write: Write)
    requires Sane(db) && Readable(db, id) && (db.rows[id].account.isSuperAdmin ==> operator.isSuperAdmin)
    requires !write.PutCreate? && (write.PutDelete? ==> operator.id != id)
    ensures Passes(SqlGetById(db, id, Generous(), NEVER).1, operator, write)
  {
    GenerousRead(db, id);
  }

  /** Enabling an account. */
  lemma EnableHandled(db: Db, operatorId: string, id: string, roleId: string, env: Env, w: WriteDraw)
    requires Sane(db) && CanOperate(db, operatorId) && AsksAs(env, operatorId) && FitRole(roleId) && ValidRecordId(id)
    requires w.draw.ranks == [0] && w.lookupFault == NEVER && w.writeFault == NEVER
    requires Readable(SqlGetById(db, operatorId, Generous(), NEVER).0, id)
    requires db.rows[id].account.isSuperAdmin ==> db.rows[operatorId].account.isSuperAdmin
    ensures var store := S.Handled(db, EnableJob(id, roleId), env, w);
      store.Sql? && store.db.rows == db.rows[id := EnabledRow(db.rows[id], w.draw.now)]
        && RolesOf(store.db.bindings, id) == [roleId]
  {
    var db1 := SqlGetById(db, operatorId, Generous(), NEVER).0;
    var db2 := SqlGetById(db1, id, Generous(), NEVER).0;
    var write := PutUpdate(id, "enabled", roleId);
    GenerousRead(db, operatorId);
    GenerousRead(db1, id);
    EnableIsFit(id, roleId);
    TargetPasses(db1, id, db.rows[operatorId].account, write);
    RequestPerforms(db, operatorId, EnableJob(id, roleId), ById(id), write, env, w);
    EnableTakesEffect(db2, id, roleId, w);
  }

  /** Deleting another account. */
  lemma DeleteHandled(db: Db, operatorId: string, id: string, env: Env, w: WriteDraw)
    requires Sane(db) && CanOperate(db, operatorId) && AsksAs(env, operatorId) && ValidRecordId(id) && operatorId != id
    requires w.draw.ranks == [0] && w.lookupFault == NEVER && w.writeFault == NEVER
    requires Readable(SqlGetById(db, operatorId, Generous(), NEVER).0, id)
    requires db.rows[id].account.isSuperAdmin ==> db.rows[operatorId].account.isSuperAdmin
    ensures var store := S.Handled(db, DeleteJobOf(id), env, w);
      store.Sql? && store.db.rows == db.rows - {id}
  {
    var db1 := SqlGetById(db, operatorId, Generous(), NEVER).0;
    var db2 := SqlGetById(db1, id, Generous(), NEVER).0;
    GenerousRead(db, operatorId);
    GenerousRead(db1, id);
    TargetPasses(db1, id, db.rows[operatorId].account, PutDelete(id));
    RequestPerforms(db, operatorId, DeleteJobOf(id), ById(id), PutDelete(id), env, w);
    A.DeleteAllOrNothing(db2, id, NEVER);
  }

  /** Creating an account under a free name. */
  lemma CreateHandled(db: Db, operatorId: string, name: string, roleId: string, env: Env, w: WriteDraw)
    requires Sane(db) && CanOperate(db, operatorId) && AsksAs(env, operatorId) && FitRole(roleId) && FitName(name)
    requires w.draw.ranks == [0] && w.lookupFault == NEVER && w.writeFault == NEVER && w.draw.id !in db.rows
    requires forall id | id in db.rows :: db.rows[id].account.username != name
    ensures var store := S.Handled(db, CreateJobOf(name, roleId), env, w);
      && store.Sql?
      && store.db.rows == db.rows[w.draw.id := Row(NewAccount(name, w), false, None)]
      && RolesOf(store.db.bindings, w.draw.id) == [roleId]
  {
    var db1 := SqlGetById(db, operatorId, Generous(), NEVER).0;
    GenerousRead(db, operatorId);
    CreateIsFit(name, roleId);
    NameIsFree(db1, name);
    RequestPerforms(db, operatorId, CreateJobOf(name, roleId), ByName(name),
                    PutCreate(name, "secret", "enabled", roleId), env, w);
    CreateTakesEffect(db1, name, roleId, w);
  }

  function NewAccount(name: string, w: WriteDraw): Account {
    Account(w.draw.id, name, w.hash("secret"), "enabled", false, w.draw.now, w.draw.now)
  }

  lemma NameIsFree(db: Db, name: string)
    requires forall id | id in db.rows :: db.rows[id].account.username != name
    ensures S.Get(db, ByName(name), Generous(), NEVER) == (db, NoAccount)
  {
  }

  lemma CreateTakesEffect(db: Db, name: string, roleId: string, w: WriteDraw)
    requires SchemaOk(db) && w.draw.ranks == [0] && w.draw.id !in db.rows
    requires forall id | id in db.rows :: db.rows[id].account.username != name
    ensures var (db', reply) := SqlCreate(db, w.draw, name, w.hash("secret"), "enabled", [roleId], NEVER);
      && reply.Stored? && db'.rows == db.rows[w.draw.id := Row(NewAccount(name, w), false, None)]
      && RolesOf(db'.bindings, w.draw.id) == [roleId]
  {
    var hash, row := w.hash("secret"), Row(NewAccount(name, w), false, None);
    ReplacementAt(db.(rows := db.rows[w.draw.id := row]), w.draw.id, [roleId], w.draw.ranks);
    CreateSucceeds(db, name, roleId, w);
    A.CreateAllOrNothing(db, w.draw, name, hash, "enabled", [roleId], NEVER);
    var db' := SqlCreate(db, w.draw, name, hash, "enabled", [roleId], NEVER).0;
    NewRolesInOrder(db'.bindings, w.draw.id, [roleId], w.draw.ranks);
  }

  lemma CreateSucceeds(db: Db, name: string, roleId: string, w: WriteDraw)
    requires w.draw.ranks == [0] && w.draw.id !in db.rows
    requires forall id | id in db.rows :: db.rows[id].account.username != name
    requires ReplaceRoles(db.(rows := db.rows[w.draw.id := Row(NewAccount(name, w), false, None)]), w.draw.id, [roleId],
                          w.draw.ranks, NEVER, 2).Some?
    ensures SqlCreate(db, w.draw, name, w.hash("secret"), "enabled", [roleId], NEVER).1.Stored?
  {
  }

  /** The statements of a request on their own, as a run. */
  lemma RequestRun(s: State, r: nat, operatorId: string, job: Job, w: WriteDraw) returns (events: seq<Event>, s': State)
    requires Basic(s) && r !in s.pending && |w.draw.ranks| == 1 && w.draw.now == s.now
    requires job.CreateJob? ==> S.Fresh(s, w.draw.id)
    ensures s' == Run(s, events) && Basic(s')
    ensures AsksAs(LiveEnv(s, Naming(operatorId)), operatorId)
    ensures Sql(s'.db) == S.Handled(s.db, job, LiveEnv(s, Naming(operatorId)), w)
    ensures s'.pending == s.pending && S.OnlyWrote(s, s')
  {
    var env := Naming(operatorId);
    events := S.RequestEvents(r, job, env, LiveEnv(s, env), w);
    s' := Run(s, events);
    S.HandlerIsItsSteps(s, r, job, env, w);
    RunKeepsBasic(s, events);
  }
}
