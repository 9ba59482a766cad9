/** Runs that reach the states in which a promise no longer holds: a temporary record enabled for good, a token that
    outlives the temporary record, an account left without a role. */
module Incidents {
  import opened Text
  import opened RoleClient
  import opened Store
  import opened Handlers
  import opened Machine
  import opened Reachable
  import opened Temporary
  import opened Guard
  import opened Runs
  import E = Exposure
  import N = Sessions
  import S = Steps

  // ---------- the seed row, enabled for good ----------

  ghost predicate EnabledSuper(db: Db, id: string) {
    id in db.rows && db.rows[id].account.isSuperAdmin && db.rows[id].account.status == "enabled"
  }

  /** A super administrator enables the seed row, which has no expiry. */
  lemma SuperEnablesSeed(s: State, superId: string) returns (events: seq<Event>)
    requires Basic(s) && s.pending == map[] && EnabledSuper(s.db, superId)
    requires TEMPORARY_ID in s.db.rows && s.db.rows[TEMPORARY_ID].account.isSuperAdmin
    requires s.db.rows[TEMPORARY_ID].expiresAt == None
    ensures EnabledWithoutExpiry(Run(s, events).db)
  {
    var w := Drawn(s.now, "");
    var s';
    TemporaryIdIsValid();
    E.RoleIsFit();
    GenerousRead(s.db, superId);
    events, s' := RequestRun(s, 0, superId, EnableJob(TEMPORARY_ID, E.ROLE), w);
    EnableHandled(s.db, superId, TEMPORARY_ID, E.ROLE, LiveEnv(s, Naming(superId)), w);
  }

  // ---------- a token that outlives the temporary record ----------

  const PASSWORD := "secret"

  /** A login of the temporary record that a creation has just enabled. */
  lemma FixedLogsIn(s: State, name: string, token: string) returns (events: seq<Event>, s': State)
    requires Basic(s) && s.pending == map[] && FitName(name) && IsToken(token) && token !in s.issued
    requires TEMPORARY_ID in s.db.rows && FixedAccount(s.db.rows[TEMPORARY_ID].account, name)
    ensures s' == Run(s, events) && Basic(s') && s'.pending == map[] && s'.db.rows == s.db.rows
    ensures s'.now == s.now && s'.ttl == s.ttl && HasSession(s', token, s.now + s.ttl)
  {
    var draw := LoginDraw(p => p, token, true, NEVER);
    events := S.LoginEvents(0, name, PASSWORD, Generous(), draw);
    s' := Run(s, events);
    RunKeepsBasic(s, events);
    LoginIssues(s, name, draw);
  }

  /** The session of the temporary record is there, for its lifetime. */
  ghost predicate HasSession(s: State, token: string, expiresAt: int) {
    && token in s.sessions && s.sessions[token] == SessionEntry(TEMPORARY_ID, expiresAt)
    && token in s.issued && s.issued[token] == TEMPORARY_ID
  }

  lemma LoginIssues(s: State, name: string, draw: LoginDraw)
    requires Basic(s) && s.pending == map[] && FitName(name) && IsToken(draw.token) && draw.token !in s.issued
    requires draw.stored && draw.hash(PASSWORD) == PASSWORD && draw.nameFault == NEVER
    requires TEMPORARY_ID in s.db.rows && FixedAccount(s.db.rows[TEMPORARY_ID].account, name)
    ensures var s' := Run(s, S.LoginEvents(0, name, PASSWORD, Generous(), draw));
      && s'.db.rows == s.db.rows && s'.pending == map[] && s'.now == s.now && s'.ttl == s.ttl
      && HasSession(s', draw.token, s.now + s.ttl)
  {
    S.LoginIsItsSteps(s, 0, name, PASSWORD, Generous(), draw);
    FixedAnswered(s.db, name, draw);
  }

  lemma FixedAnswered(db: Db, name: string, draw: LoginDraw)
    requires Sane(db) && TEMPORARY_ID in db.rows && FixedAccount(db.rows[TEMPORARY_ID].account, name) && FitName(name)
    requires draw.stored && draw.hash(PASSWORD) == PASSWORD && draw.nameFault == NEVER
    ensures var (store, answer) := Login(Sql(db), name, PASSWORD, Generous(), draw);
      && store.Sql? && store.db.rows == db.rows && answer.data.Credential?
      && answer.data.holder.id == TEMPORARY_ID && answer.data.token == draw.token
  {
    SecretIsValid();
    FixedIsFound(db, name);
    FixedSignsIn(S.Get(db, ByName(name), Generous(), NEVER).1, draw);
  }

  predicate FixedAccount(account: Account, name: string) {
    && account.id == TEMPORARY_ID && account.username == name && account.passwordHash == PASSWORD
    && account.status == "enabled" && account.isSuperAdmin
  }

  lemma FixedIsFound(db: Db, name: string)
    requires Sane(db) && TEMPORARY_ID in db.rows && FixedAccount(db.rows[TEMPORARY_ID].account, name)
    ensures var (db', found) := S.Get(db, ByName(name), Generous(), NEVER);
      db'.rows == db.rows && found.Found? && found.account == db.rows[TEMPORARY_ID].account
      && AvailabilityOf(Generous(), found.roleIds) == Available(true)
  {
    assert Accounts(db.rows)[TEMPORARY_ID].username == name;
    assert KeyOfName(Accounts(db.rows), name) == Some(TEMPORARY_ID);
    GenerousChoice(db, TEMPORARY_ID);
    var choice := Choose(Generous(), RolesOf(db.bindings, TEMPORARY_ID));
    if choice.Only? || choice.CompactTo? { GenerousGrants(choice.roleId); }
  }

  lemma FixedSignsIn(found: Lookup, draw: LoginDraw)
    requires found.Found? && FixedAccount(found.account, found.account.username) && draw.stored
    requires draw.hash(PASSWORD) == PASSWORD
    requires AvailabilityOf(Generous(), found.roleIds) == Available(true)
    ensures var answer := LoginFrom(found, PASSWORD, Generous(), draw);
      answer.data.Credential? && answer.data.holder == found.account && answer.data.token == draw.token
  {
  }

  /** A creation under a free name makes the record the login finds. */
  lemma FixedCreated(s0: State, name: string) returns (e: Event, s': State)
    requires Seeded(s0) && FitName(name) && !NameTaken(s0.db.rows, name, TEMPORARY_ID)
    ensures s' == Run(s0, [e]) && Basic(s') && Open(s') && s'.pending == map[] && s'.issued == map[]
    ensures s'.now == s0.now && s'.ttl == s0.ttl
    ensures TEMPORARY_ID in s'.db.rows && FixedAccount(s'.db.rows[TEMPORARY_ID].account, name)
    ensures s'.db.rows == s0.db.rows[TEMPORARY_ID := s'.db.rows[TEMPORARY_ID]]
  {
    e := Generate(name, PASSWORD, NEVER);
    s' := GenerateStep(s0, name, PASSWORD, NEVER);
    S.OneEvent(s0, e);
    StepKeepsBasic(s0, e);
    StepKeepsOpen(s0, e);
  }

  lemma FixedEnablesHandled(db: Db, superId: string, env: Env, w: WriteDraw)
    requires Sane(db) && CanOperate(db, TEMPORARY_ID) && db.rows[TEMPORARY_ID].account.isSuperAdmin
    requires superId in db.rows && superId != TEMPORARY_ID && db.rows[superId].account.isSuperAdmin
    requires ValidRecordId(superId)
    requires AsksAs(env, TEMPORARY_ID) && w.draw.ranks == [0] && w.lookupFault == NEVER && w.writeFault == NEVER
    ensures var store := S.Handled(db, EnableJob(superId, E.ROLE), env, w);
      store.Sql? && store.db.rows == db.rows[superId := EnabledRow(db.rows[superId], w.draw.now)]
  {
    E.RoleIsFit();
    GenerousRead(db, TEMPORARY_ID);
    EnableHandled(db, TEMPORARY_ID, superId, E.ROLE, env, w);
  }

  /** The temporary administrator enables another super administrator. */
  lemma FixedEnables(s: State, superId: string) returns (events: seq<Event>, s': State)
    requires Basic(s) && s.pending == map[] && CanOperate(s.db, TEMPORARY_ID)
    requires s.db.rows[TEMPORARY_ID].account.isSuperAdmin
    requires superId in s.db.rows && superId != TEMPORARY_ID && s.db.rows[superId].account.isSuperAdmin
    requires ValidRecordId(superId)
    ensures s' == Run(s, events) && Basic(s') && s'.pending == map[] && S.OnlyWrote(s, s')
    ensures s'.db.rows == s.db.rows[superId := EnabledRow(s.db.rows[superId], s.now)]
  {
    var w := Drawn(s.now, "");
    events, s' := RequestRun(s, 0, TEMPORARY_ID, EnableJob(superId, E.ROLE), w);
    FixedEnablesHandled(s.db, superId, LiveEnv(s, Naming(TEMPORARY_ID)), w);
  }

  /** Which deletes the temporary record. */
  lemma SuperDeletesFixed(s: State, superId: string) returns (events: seq<Event>, s': State)
    requires Basic(s) && s.pending == map[] && EnabledSuper(s.db, superId) && superId != TEMPORARY_ID
    requires TEMPORARY_ID in s.db.rows && s.db.rows[TEMPORARY_ID].account.isSuperAdmin
    ensures s' == Run(s, events) && Basic(s') && s'.pending == map[] && S.OnlyWrote(s, s')
    ensures s'.db.rows == s.db.rows - {TEMPORARY_ID}
  {
    var w := Drawn(s.now, "");
    TemporaryIdIsValid();
    GenerousRead(s.db, superId);
    events, s' := RequestRun(s, 0, superId, DeleteJobOf(TEMPORARY_ID), w);
    DeleteHandled(s.db, superId, TEMPORARY_ID, LiveEnv(s, Naming(superId)), w);
  }

  /** From a seeded store with another super administrator, enabled or not: a creation, a login, and a delete leave a
      live token of the temporary record that is gone. */
  lemma TokenOutlivesFixedRecord(s0: State, superId: string, name: string, token: string) returns (events: seq<Event>)
    requires Seeded(s0) && s0.ttl > 0 && IsToken(token) && FitName(name) && !NameTaken(s0.db.rows, name, TEMPORARY_ID)
    requires superId in s0.db.rows && superId != TEMPORARY_ID && s0.db.rows[superId].account.isSuperAdmin
    requires ValidRecordId(superId)
    ensures var s := Run(s0, events);
      N.Lives(s, token) && token in s.issued && s.issued[token] == TEMPORARY_ID && TEMPORARY_ID !in s.db.rows
  {
    var e, s1 := FixedCreated(s0, name);
    var second, s2 := FixedLogsIn(s1, name, token);
    var third, s3 := FixedEnables(s2, superId);
    var fourth, s4 := SuperDeletesFixed(s3, superId);
    events := [e] + (second + (third + fourth));
    RunAppend(s0, [e], second + (third + fourth));
    RunAppend(s1, second, third + fourth);
    RunAppend(s2, third, fourth);
  }

  // ---------- a seed row inserted again ----------

  lemma IndexAdded(s: State)
    requires Basic(s)
    ensures var s' := Step(s, AddIndex);
      Basic(s') && s'.pending == s.pending && s'.now == s.now && s'.db.rows == s.db.rows
  {
    StepKeepsBasic(s, AddIndex);
  }

  lemma SeedAdded(s: State)
    requires Basic(s) && TEMPORARY_ID !in s.db.rows && !NameTaken(s.db.rows, SEED_NAME, TEMPORARY_ID)
    ensures var s' := Step(s, AddSeed);
      Basic(s') && s'.pending == s.pending && s'.db.rows == s.db.rows[TEMPORARY_ID := SeedRow(s.now)]
  {
    StepKeepsBasic(s, AddSeed);
  }

  /** A load after the delete inserts the seed row again, disabled and without an expiry. */
  lemma LoadAddsSeed(s: State) returns (events: seq<Event>, s': State)
    requires Basic(s) && TEMPORARY_ID !in s.db.rows && !NameTaken(s.db.rows, SEED_NAME, TEMPORARY_ID)
    ensures s' == Run(s, events) && Basic(s') && s'.pending == s.pending
    ensures s'.db.rows == s.db.rows[TEMPORARY_ID := SeedRow(s.now)]
  {
    events := [AddIndex, AddSeed];
    s' := Step(Step(s, AddIndex), AddSeed);
    S.TwoEvents(s, AddIndex, AddSeed);
    IndexAdded(s);
    SeedAdded(Step(s, AddIndex));
  }

  /** Without the fixed row, and under the names as they were. */
  ghost predicate SomeRowsOf(before: map<string, Row>, after: map<string, Row>) {
    && TEMPORARY_ID !in after
    && forall id | id in after :: id in before && after[id].account.username == before[id].account.username
  }

  lemma RowsAfterDelete(before: map<string, Row>, created: map<string, Row>, after: map<string, Row>, superId: string,
                        row: Row)
    requires TEMPORARY_ID in created && created == before[TEMPORARY_ID := created[TEMPORARY_ID]]
    requires superId in before && row.account.username == before[superId].account.username
    requires after == created[superId := row]
    ensures SomeRowsOf(before, after - {TEMPORARY_ID})
  {
  }

  /** The temporary administrator enables a second super administrator, who deletes the temporary record. */
  lemma SecondDeletesFixed(s0: State, superId: string, name: string) returns (events: seq<Event>, s': State)
    requires Seeded(s0) && FitName(name) && !NameTaken(s0.db.rows, name, TEMPORARY_ID)
    requires superId in s0.db.rows && superId != TEMPORARY_ID && s0.db.rows[superId].account.isSuperAdmin
    requires ValidRecordId(superId)
    ensures s' == Run(s0, events) && Basic(s') && s'.pending == map[]
    ensures EnabledSuper(s'.db, superId) && SomeRowsOf(s0.db.rows, s'.db.rows)
  {
    var e, s1 := FixedCreated(s0, name);
    var second, s2 := FixedEnables(s1, superId);
    var third, s3 := SuperDeletesFixed(s2, superId);
    s' := s3;
    RowsAfterDelete(s0.db.rows, s1.db.rows, s2.db.rows, superId, EnabledRow(s1.db.rows[superId], s1.now));
    events := [e] + (second + third);
    RunAppend(s0, [e], second + third);
    RunAppend(s1, second, third);
  }

  /** From a seeded store with a second super administrator, enabled or not: a creation, whose holder enables the
      second; a delete of the fixed record; a load; and an update that enables the new seed row. */
  lemma SecondEnablesSeed(s0: State, superId: string, name: string) returns (events: seq<Event>)
    requires Seeded(s0) && FitName(name) && !NameTaken(s0.db.rows, name, TEMPORARY_ID)
    requires !NameTaken(s0.db.rows, SEED_NAME, TEMPORARY_ID)
    requires superId in s0.db.rows && superId != TEMPORARY_ID && s0.db.rows[superId].account.isSuperAdmin
    requires ValidRecordId(superId)
    ensures EnabledWithoutExpiry(Run(s0, events).db)
  {
    var first, s1 := SecondDeletesFixed(s0, superId, name);
    NamesStayFree(s0.db.rows, s1.db.rows);
    var load, s2 := LoadAddsSeed(s1);
    var last := SuperEnablesSeed(s2, superId);
    events := first + (load + last);
    RunAppend(s0, first, load + last);
    RunAppend(s1, load, last);
  }

  lemma NamesStayFree(before: map<string, Row>, after: map<string, Row>)
    requires !NameTaken(before, SEED_NAME, TEMPORARY_ID) && SomeRowsOf(before, after)
    ensures !NameTaken(after, SEED_NAME, TEMPORARY_ID)
  {
  }

  // ---------- an account left without a role ----------

  const OTHER_ROLE := "role-two"

  lemma OtherRoleIsFit()
    ensures FitRole(OTHER_ROLE) && OTHER_ROLE != E.ROLE
  {
    assert |OTHER_ROLE| == 8 && OTHER_ROLE[0] == 'r' && OTHER_ROLE[7] == 'o' && E.ROLE[7] == 'e';
    assert MatchesRecordId(OTHER_ROLE);
  }

  lemma ReaderReads(s: State, id: string) returns (s': State)
    requires Basic(s) && s.pending == map[] && id in s.db.rows
    ensures s' == Step(Step(s, Visit(0, ById(id))), ReadRow(0, false))
    ensures s'.db == s.db && s'.pending == map[0 := Reading(s.db.rows[id].account, ForReader)]
  {
    var s1 := Step(s, Visit(0, ById(id)));
    assert s1 == Put(s, 0, Asking(ById(id), ForReader));
    s' := Step(s1, ReadRow(0, false));
    assert s' == ReadRowStep(s1, 0, ById(id), ForReader, false);
  }

  /** A reader has read the roles of an account and is about to compact them. */
  lemma ReaderChooses(s: State, id: string) returns (events: seq<Event>, s': State, roleId: string)
    requires Basic(s) && s.pending == map[] && id in s.db.rows
    requires Choose(Generous(), RolesOf(s.db.bindings, id)).CompactTo?
    ensures s' == Run(s, events) && Basic(s') && s'.db == s.db
    ensures s'.pending == map[0 := Compacting(s.db.rows[id].account, roleId, ForReader)]
  {
    var visit, row, roles := Visit(0, ById(id)), ReadRow(0, false), ReadRoles(0, Generous(), false);
    events := [visit, row, roles];
    S.ThreeEvents(s, visit, row, roles);
    RunKeepsBasic(s, events);
    var s1 := ReaderReads(s, id);
    roleId := RolesChosen(s1, s.db.rows[id].account);
    s' := Step(s1, roles);
  }

  lemma RolesChosen(s: State, account: Account) returns (roleId: string)
    requires s.pending == map[0 := Reading(account, ForReader)]
    requires Choose(Generous(), RolesOf(s.db.bindings, account.id)).CompactTo?
    ensures var s' := Step(s, ReadRoles(0, Generous(), false));
      s'.db == s.db && s'.pending == map[0 := Compacting(account, roleId, ForReader)]
  {
    roleId := Choose(Generous(), RolesOf(s.db.bindings, account.id)).roleId;
    assert Step(s, ReadRoles(0, Generous(), false)) == ReadRolesStep(s, 0, account, ForReader, Generous(), false);
    assert map[0 := Reading(account, ForReader)][0 := Compacting(account, roleId, ForReader)]
        == map[0 := Compacting(account, roleId, ForReader)];
  }

  lemma ManyAreCompacted(db: Db, id: string)
    requires |RolesOf(db.bindings, id)| > 1 && Usable(db, id)
    ensures Choose(Generous(), RolesOf(db.bindings, id)).CompactTo?
  {
    GenerousChoice(db, id);
    var k := FirstEnabledMeaning(Generous(), RolesOf(db.bindings, id));
  }

  lemma CompactsAway(s: State, account: Account, chosen: string, given: string)
    requires Basic(s) && s.pending == map[0 := Compacting(account, chosen, ForReader)] && account.id in s.db.rows
    requires RolesOf(s.db.bindings, account.id) == [given] && given != chosen
    ensures var s' := Run(s, [Compact(0, false)]);
      account.id in s'.db.rows && RolesOf(s'.db.bindings, account.id) == []
  {
    S.OneEvent(s, Compact(0, false));
    LateCompactionKeepsRoleIff(s, 0);
    ReadersShrink(s, Compact(0, false));
  }

  /** An account with several roles loses them all: a reader chooses one, an update gives the account another, and the
      reader's compaction then deletes it. */
  lemma RaceLeavesNoRole(s0: State, id: string, operatorId: string) returns (events: seq<Event>)
    requires Basic(s0) && s0.pending == map[] && CanOperate(s0.db, operatorId) && operatorId != id
    requires id in s0.db.rows && !s0.db.rows[id].account.isSuperAdmin && ValidRecordId(id)
    requires |RolesOf(s0.db.bindings, id)| > 1 && Usable(s0.db, id)
    ensures var s := Run(s0, events); id in s.db.rows && RolesOf(s.db.bindings, id) == []
  {
    ManyAreCompacted(s0.db, id);
    var first, s1, chosen := ReaderChooses(s0, id);
    var second, s2, given := RoleGiven(s1, id, operatorId, chosen);
    var last := Compact(0, false);
    CompactsAway(s2, s0.db.rows[id].account, chosen, given);
    events := first + (second + [last]);
    ThreeStretches(s0, first, second, [last]);
  }

  lemma ThreeStretches(s: State, a: seq<Event>, b: seq<Event>, c: seq<Event>)
    ensures Run(s, a + (b + c)) == Run(Run(Run(s, a), b), c)
  {
    RunAppend(s, a, b + c);
    RunAppend(Run(s, a), b, c);
  }

  lemma RoleGiven(s: State, id: string, operatorId: string, chosen: string)
    returns (events: seq<Event>, s': State, given: string)
    requires Basic(s) && 1 !in s.pending && CanOperate(s.db, operatorId) && operatorId != id
    requires id in s.db.rows && !s.db.rows[id].account.isSuperAdmin && ValidRecordId(id) && Usable(s.db, id)
    ensures s' == Run(s, events) && Basic(s') && s'.pending == s.pending && id in s'.db.rows
    ensures RolesOf(s'.db.bindings, id) == [given] && given != chosen
  {
    var w := Drawn(s.now, "");
    E.RoleIsFit();
    OtherRoleIsFit();
    given := if chosen == E.ROLE then OTHER_ROLE else E.ROLE;
    GenerousRead(s.db, operatorId);
    ReadLeavesOthers(s.db, operatorId, id);
    SameBindingsSameUse(s.db, SqlGetById(s.db, operatorId, Generous(), NEVER).0, id);
    events, s' := RequestRun(s, 1, operatorId, EnableJob(id, given), w);
    EnableHandled(s.db, operatorId, id, given, LiveEnv(s, Naming(operatorId)), w);
  }
}
