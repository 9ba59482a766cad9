/** The other half of the guard theorem: from an exposed store there is a run that breaks the guard. */
module Exposure {
  import opened Text
  import opened RoleClient
  import opened Store
  import opened Schema
  import opened Handlers
  import opened Machine
  import opened Reachable
  import opened Guard
  import opened Runs
  import S = Steps

  const ROLE := "role-one"

  lemma RoleIsFit()
    ensures FitRole(ROLE)
  {
    assert |ROLE| == 8 && ROLE[0] == 'r' && ROLE[7] == 'e';
    assert MatchesRecordId(ROLE);
  }

  /** The fixed record lacks the flag, nothing is under way, and an ordinary account can operate. */
  ghost predicate Ripe(s: State, operatorId: string) {
    && Basic(s) && s.pending == map[]
    && TEMPORARY_ID in s.db.rows && !s.db.rows[TEMPORARY_ID].account.isSuperAdmin
    && CanOperate(s.db, operatorId) && !s.db.rows[operatorId].account.isSuperAdmin
  }

  const RESET := PutReset(TEMPORARY_ID, "secret")

  /** A request has read the fixed record without the flag, and goes on with its operator's reset. */
  ghost predicate HasReadFixed(s: State, operator: Account, row: Account) {
    && Basic(s) && !operator.isSuperAdmin && !row.isSuperAdmin && row.id == TEMPORARY_ID
    && TEMPORARY_ID in s.db.rows
    && s.pending == map[0 := Reading(row, ForTarget(operator, RESET))]
  }

  // ---------- the run, stretch by stretch ----------

  /** The operator's reset passes the gate and reads the fixed record. */
  lemma ReadsFixed(s: State, operatorId: string) returns (events: seq<Event>, s': State)
    requires Ripe(s, operatorId)
    ensures s' == Run(s, events)
    ensures HasReadFixed(s', s.db.rows[operatorId].account, s.db.rows[TEMPORARY_ID].account)
  {
    var env, job := Naming(operatorId), ResetJobOf(TEMPORARY_ID);
    var operator, row := s.db.rows[operatorId].account, s.db.rows[TEMPORARY_ID].account;
    var gate := S.GateEvents(0, job, env, LiveEnv(s, env));
    S.GateInSevenSteps(s, 0, job, env);
    OperatorAdmitted(s.db, operatorId, LiveEnv(s, env), Codes(1, 2, 3));
    GenerousRead(s.db, operatorId);
    var s1 := Run(s, gate);
    assert s1.pending == map[0 := Authorised(operator, job)] && s1.db.rows == s.db.rows;
    var proceed, read := Proceed(0, Generous()), ReadRow(0, false);
    s' := TargetRead(s1, operator, row);
    S.TwoEvents(s1, proceed, read);
    RunAppend(s, gate, [proceed, read]);
    events := gate + [proceed, read];
    RunKeepsBasic(s, events);
  }

  lemma TargetRead(s: State, operator: Account, row: Account) returns (s': State)
    requires SchemaOk(s.db) && TEMPORARY_ID in s.db.rows && s.db.rows[TEMPORARY_ID].account == row
    requires s.pending == map[0 := Authorised(operator, ResetJobOf(TEMPORARY_ID))]
    ensures s' == Step(Step(s, Proceed(0, Generous())), ReadRow(0, false))
    ensures s'.db == s.db && s'.pending == map[0 := Reading(row, ForTarget(operator, RESET))]
  {
    TemporaryIdIsValid();
    TemporaryIdTrimmed();
    s' := IdRead(s, TEMPORARY_ID, operator, row);
  }

  lemma IdRead(s: State, id: string, operator: Account, row: Account) returns (s': State)
    requires id in s.db.rows && s.db.rows[id].account == row && ValidRecordId(id) && TrimSpace(id) == id
    requires s.pending == map[0 := Authorised(operator, ResetJobOf(id))]
    ensures s' == Step(Step(s, Proceed(0, Generous())), ReadRow(0, false))
    ensures s'.db == s.db && s'.pending == map[0 := Reading(row, ForTarget(operator, PutReset(id, "secret")))]
  {
    var purpose := ForTarget(operator, PutReset(id, "secret"));
    var s1 := Step(s, Proceed(0, Generous()));
    ResetProceeds(s, id, operator);
    s' := Step(s1, ReadRow(0, false));
    RowStep(s1, id, purpose, row);
    OnePending(0, s.pending[0], Asking(ById(id), purpose), Reading(row, purpose));
  }

  lemma OnePending(r: nat, p: Pending, q: Pending, last: Pending)
    ensures map[r := p][r := q][r := last] == map[r := last]
  {
  }

  lemma ResetProceeds(s: State, id: string, operator: Account)
    requires 0 in s.pending && s.pending[0] == Authorised(operator, ResetJobOf(id)) && ValidRecordId(id)
    ensures Step(s, Proceed(0, Generous())) == Put(s, 0, Asking(ById(id), ForTarget(operator, PutReset(id, "secret"))))
  {
    ProceedIsStep(s, operator, ResetJobOf(id), Generous());
    ResetGoesOn(s, id, operator);
  }

  lemma ProceedIsStep(s: State, operator: Account, job: Job, dir: Directory)
    requires 0 in s.pending && s.pending[0] == Authorised(operator, job)
    ensures Step(s, Proceed(0, dir)) == ProceedStep(s, 0, operator, job, dir)
  {
  }

  lemma ResetGoesOn(s: State, id: string, operator: Account)
    requires ValidRecordId(id)
    ensures ProceedStep(s, 0, operator, ResetJobOf(id), Generous())
         == Put(s, 0, Asking(ById(id), ForTarget(operator, PutReset(id, "secret"))))
  {
    ResetIsFit(id);
  }

  lemma RowStep(s: State, id: string, purpose: Purpose, row: Account)
    requires id in s.db.rows && s.db.rows[id].account == row && TrimSpace(id) == id
    requires 0 in s.pending && s.pending[0] == Asking(ById(id), purpose)
    ensures Step(s, ReadRow(0, false)) == Put(s, 0, Reading(row, purpose))
  {
    assert Step(s, ReadRow(0, false)) == ReadRowStep(s, 0, ById(id), purpose, false);
  }

  /** A creation gives the fixed record the flag, and it can operate. */
  lemma GetsFlag(s: State, operator: Account, row: Account) returns (e: Event, s': State)
    requires HasReadFixed(s, operator, row)
    ensures s' == Run(s, [e]) && HasReadFixed(s', operator, row)
    ensures s'.db.rows[TEMPORARY_ID].account.isSuperAdmin && CanOperate(s'.db, TEMPORARY_ID)
  {
    var username := s.db.rows[TEMPORARY_ID].account.username;
    e := Generate(username, "hash", NEVER);
    s' := GenerateStep(s, username, "hash", NEVER);
    OwnNameIsFree(s.db, TEMPORARY_ID);
    S.OneEvent(s, e);
    StepKeepsBasic(s, e);
  }

  lemma OwnNameIsFree(db: Db, id: string)
    requires SchemaOk(db) && id in db.rows
    ensures !NameTaken(db.rows, db.rows[id].account.username, id)
  {
    forall other | other in db.rows && other != id
      ensures db.rows[other].account.username != db.rows[id].account.username
    {
      assert Accounts(db.rows)[other].username == db.rows[other].account.username;
      assert Accounts(db.rows)[id].username == db.rows[id].account.username;
    }
  }

  /** The fixed record, by now a super administrator, gives itself a role. */
  lemma GetsRole(s: State, operator: Account, row: Account) returns (events: seq<Event>, s': State)
    requires HasReadFixed(s, operator, row)
    requires s.db.rows[TEMPORARY_ID].account.isSuperAdmin && CanOperate(s.db, TEMPORARY_ID)
    ensures s' == Run(s, events) && HasReadFixed(s', operator, row)
    ensures s'.db.rows[TEMPORARY_ID].account.isSuperAdmin && RolesOf(s'.db.bindings, TEMPORARY_ID) == [ROLE]
  {
    var w := Drawn(s.now, "");
    TemporaryIdIsValid();
    RoleIsFit();
    events, s' := RequestRun(s, 1, TEMPORARY_ID, EnableJob(TEMPORARY_ID, ROLE), w);
    GenerousRead(s.db, TEMPORARY_ID);
    EnableHandled(s.db, TEMPORARY_ID, TEMPORARY_ID, ROLE, LiveEnv(s, Naming(TEMPORARY_ID)), w);
  }

  /** The operator's lookup now reads that role, passes the guard by the row it has read, and resets a super
      administrator's password. */
  lemma ResetsSuper(s: State, operator: Account, row: Account) returns (events: seq<Event>)
    requires HasReadFixed(s, operator, row)
    requires s.db.rows[TEMPORARY_ID].account.isSuperAdmin && RolesOf(s.db.bindings, TEMPORARY_ID) == [ROLE]
    ensures !GuardHolds(Run(s, events))
  {
    var roles, commit := ReadRoles(0, Generous(), false), Commit(0, Drawn(s.now, ""));
    events := [roles, commit];
    S.TwoEvents(s, roles, commit);
    RoleClears(s, operator, row);
    ResetRecorded(Put(s, 0, Cleared(operator, RESET)), operator);
  }

  lemma RoleClears(s: State, operator: Account, row: Account)
    requires s.pending == map[0 := Reading(row, ForTarget(operator, RESET))] && !row.isSuperAdmin
    requires RolesOf(s.db.bindings, row.id) == [ROLE]
    ensures Step(s, ReadRoles(0, Generous(), false)) == Put(s, 0, Cleared(operator, RESET))
  {
    RoleIsFit();
    assert Choose(Generous(), [ROLE]) == Only(ROLE);
    assert Step(s, ReadRoles(0, Generous(), false)) == Finish(s, 0, ForTarget(operator, RESET), Found(row, [ROLE]));
  }

  lemma ResetRecorded(s: State, operator: Account)
    requires 0 in s.pending && s.pending[0] == Cleared(operator, RESET) && !operator.isSuperAdmin
    requires TEMPORARY_ID in s.db.rows && s.db.rows[TEMPORARY_ID].account.isSuperAdmin
    ensures !GuardHolds(Step(s, Commit(0, Drawn(s.now, ""))))
  {
    var s' := Step(s, Commit(0, Drawn(s.now, "")));
    var entry := Entry(TEMPORARY_ID, true, operator.id, false);
    assert s'.audit == s.audit + [entry];
    assert entry in s'.audit;
  }

  /** An ordinary operator reads the fixed record before a creation, and resets it afterwards. */
  lemma OrdinaryBreaksGuard(s: State, operatorId: string) returns (events: seq<Event>)
    requires Ripe(s, operatorId)
    ensures !GuardHolds(Run(s, events))
  {
    var operator, row := s.db.rows[operatorId].account, s.db.rows[TEMPORARY_ID].account;
    var first, s1 := ReadsFixed(s, operatorId);
    var second, s2 := GetsFlag(s1, operator, row);
    var third, s3 := GetsRole(s2, operator, row);
    var fourth := ResetsSuper(s3, operator, row);
    events := first + ([second] + (third + fourth));
    RunAppend(s, first, [second] + (third + fourth));
    RunAppend(s1, [second], third + fourth);
    RunAppend(s2, third, fourth);
  }

  // ---------- where the ordinary operator comes from ----------

  /** A fresh ID and a free name are left. */
  ghost predicate CanCreate(s: State, id: string, name: string) {
    S.Fresh(s, id) && FitName(name) && forall other | other in s.db.rows :: s.db.rows[other].account.username != name
  }

  /** A super administrator creates an ordinary operator. */
  lemma SuperCreatesOrdinary(s: State, superId: string, id: string, name: string)
    returns (events: seq<Event>, s': State)
    requires Basic(s) && s.pending == map[] && TEMPORARY_ID in s.db.rows
    requires !s.db.rows[TEMPORARY_ID].account.isSuperAdmin
    requires CanOperate(s.db, superId) && CanCreate(s, id, name)
    ensures s' == Run(s, events) && Ripe(s', id)
  {
    var w := Drawn(s.now, id);
    RoleIsFit();
    ShortIdTrimmed(id);
    events, s' := RequestRun(s, 0, superId, CreateJobOf(name, ROLE), w);
    CreateHandled(s.db, superId, name, ROLE, LiveEnv(s, Naming(superId)), w);
    RoleIsUsable(s'.db, id);
  }

  lemma RoleIsUsable(db: Db, id: string)
    requires RolesOf(db.bindings, id) == [ROLE]
    ensures Usable(db, id)
  {
    RoleIsFit();
    RolesOfMembers(db.bindings, id, ROLE);
    assert ROLE in RolesOf(db.bindings, id);
    var b :| b in db.bindings && b.accountId == id && b.roleId == ROLE;
  }

  /** As long as an account can still be created, every run from a started store keeps the guard exactly when the store
      is not exposed: when its fixed record has the super flag or is absent, or nobody can operate. */
  lemma GuardedIffNotExposed(s0: State, id: string, name: string)
    requires Started(s0) && CanCreate(s0, id, name)
    ensures (forall events :: GuardHolds(Run(s0, events))) <==> !Exposed(s0.db)
  {
    if Exposed(s0.db) {
      var events := ExposedBreaksGuard(s0, id, name);
      assert !GuardHolds(Run(s0, events));
    } else {
      forall events ensures GuardHolds(Run(s0, events)) {
        UnexposedRunsAreGuarded(s0, events);
      }
    }
  }

  lemma ExposedBreaksGuard(s0: State, id: string, name: string) returns (events: seq<Event>)
    requires Started(s0) && CanCreate(s0, id, name) && Exposed(s0.db)
    ensures !GuardHolds(Run(s0, events))
  {
    var operatorId :| operatorId in s0.db.rows && CanOperate(s0.db, operatorId);
    if !s0.db.rows[operatorId].account.isSuperAdmin {
      events := OrdinaryBreaksGuard(s0, operatorId);
    } else {
      var before, s1 := SuperCreatesOrdinary(s0, operatorId, id, name);
      var after := OrdinaryBreaksGuard(s1, id);
      RunAppend(s0, before, after);
      events := before + after;
    }
  }
}
