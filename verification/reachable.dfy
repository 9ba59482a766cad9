/** What every run of the machine keeps: the schema, used IDs, tokens and their accounts, and the bound on bindings. */
module Reachable {
  import opened Text
  import opened RoleClient
  import opened Store
  import opened Schema
  import opened Handlers
  import opened Atomicity
  import opened Machine

  ghost predicate IdsOk(db: Db, used: set<string>) {
    db.rows.Keys <= used && forall id | id in db.rows :: Trimmed(id) && id != ""
  }

  /** Stored sessions are issued ones, for the account they were issued to; those IDs have been used. */
  ghost predicate TokensOk(sessions: map<string, SessionEntry>, issued: map<string, string>, used: set<string>) {
    && (forall token | token in sessions :: token in issued && sessions[token].accountId == issued[token])
    && (forall token | token in issued :: IsToken(token) && IsUsed(issued[token], used))
  }

  predicate IsUsed(id: string, used: set<string>) { Trimmed(id) && id != "" && id in used }

  predicate FoundUsed(found: Lookup, used: set<string>) {
    found.Found? || found.NoValidRole? ==> IsUsed(found.account.id, used)
  }

  /** The row that a request has read and still goes by, however the table has changed since, had a used ID. */
  predicate SnapshotUsed(p: Pending, used: set<string>) {
    match p
    case Reading(account, _) => IsUsed(account.id, used)
    case Compacting(account, _, _) => IsUsed(account.id, used)
    case SigningIn(found, _) => FoundUsed(found, used)
    case _ => true
  }

  ghost predicate SnapshotsOk(pending: map<nat, Pending>, used: set<string>) {
    forall r | r in pending :: SnapshotUsed(pending[r], used)
  }

  /** The invariant of every run. */
  ghost predicate Basic(s: State) {
    && SchemaOk(s.db) && IdsOk(s.db, s.used) && TokensOk(s.sessions, s.issued, s.used)
    && SnapshotsOk(s.pending, s.used)
    && s.lastTick <= s.now && s.enabledAt <= s.now
  }

  /** A store that satisfies its constraints, with nothing under way and no history. */
  ghost predicate Started(s: State) {
    && SchemaOk(s.db) && IdsOk(s.db, s.used) && s.lastTick <= s.now && s.enabledAt <= s.now
    && s.pending == map[] && s.sessions == map[] && s.issued == map[] && s.audit == []
  }

  predicate WritesDb(e: Event) { e.Commit? || e.Generate? || e.Tick? || e.AddIndex? || e.AddSeed? }

  // ---------- steps that only read ----------

  /** Ending a lookup moves one request and nothing else. */
  lemma FinishMovesOne(s: State, r: nat, purpose: Purpose, found: Lookup)
    ensures var s' := Finish(s, r, purpose, found);
      s' == s.(pending := s'.pending) && s'.pending - {r} == s.pending - {r}
  {
  }

  /** Only a compaction touches the tables, and it only deletes bindings. */
  lemma ReadersKeepDb(s: State, e: Event)
    requires !WritesDb(e) && !e.Compact?
    ensures Step(s, e).db == s.db
  {
    if Possible(s, e) {
      match e
      case ReadRow(r, fails) =>
        FinishMovesOne(s, r, s.pending[r].purpose, if fails then LookupError else NoAccount);
      case ReadRoles(r, dir, fails) =>
        var choice := Choose(dir, RolesOf(s.db.bindings, s.pending[r].account.id));
        FinishMovesOne(s, r, s.pending[r].purpose, if fails then LookupError else Settle(s.pending[r].account, choice));
      case _ =>
    }
  }

  lemma CompactShrinks(s: State, e: Event)
    requires e.Compact?
    ensures OnlyShrunk(s.db, Step(s, e).db)
  {
    if Possible(s, e) {
      var r := e.request;
      var Compacting(account, roleId, purpose) := s.pending[r];
      CompactionShrinks(s.db, account.id, roleId);
      var compacted := s.(db := s.db.(bindings := KeepOnly(s.db.bindings, account.id, roleId)));
      FinishMovesOne(s, r, purpose, LookupError);
      FinishMovesOne(compacted, r, purpose, Found(account, [roleId]));
    }
  }

  lemma ReadersShrink(s: State, e: Event)
    requires !WritesDb(e)
    ensures OnlyShrunk(s.db, Step(s, e).db)
  {
    if e.Compact? {
      CompactShrinks(s, e);
    } else {
      ReadersKeepDb(s, e);
    }
  }

  // ---------- writes ----------

  /** A performed write keeps the schema; it touches one key; its account has at most one binding afterwards. */
  lemma PerformEffect(db: Db, write: Write, w: WriteDraw)
    requires SchemaOk(db) && |w.draw.ranks| == 1
    ensures var (db', done) := Perform(db, write, w);
      && SchemaOk(db') && (!done ==> db' == db)
      && db'.rows.Keys <= db.rows.Keys + (if done && write.PutCreate? then {w.draw.id} else {})
      && forall id :: Bound(db'.bindings, id) <= Max(1, Bound(db.bindings, id))
  {
    match write
    case PutUpdate(id, status, roleId) =>
      UpdateKeepsSchema(db, id, status, [roleId], w.draw, w.writeFault);
      UpdateAllOrNothing(db, id, status, [roleId], w.draw, w.writeFault);
      NewBindingsAt(id, [roleId], w.draw.ranks);
    case PutReset(id, password) => ResetKeepsSchema(db, id, w.hash(password), w.draw.now, w.writeFault);
    case PutDelete(id) =>
      DeleteKeepsSchema(db, id, w.writeFault);
      DeleteAllOrNothing(db, id, w.writeFault);
    case PutCreate(username, password, status, roleId) =>
      CreateKeepsSchema(db, w.draw, username, w.hash(password), status, [roleId], w.writeFault);
      CreateAllOrNothing(db, w.draw, username, w.hash(password), status, [roleId], w.writeFault);
      NewBindingsAt(w.draw.id, [roleId], w.draw.ranks);
  }

  function Max(a: nat, b: nat): nat { if a < b then b else a }

  lemma ShortIdTrimmed(id: string)
    requires IsShortId(id)
    ensures Trimmed(id) && id != TEMPORARY_ID && id != ""
  {
    assert |TEMPORARY_ID| == 36;
  }

  /** What a step may do to the tables. */
  ghost predicate DbKept(s: State, s': State) {
    && SchemaOk(s'.db) && IdsOk(s'.db, s'.used)
    && forall id :: Bound(s'.db.bindings, id) <= Max(1, Bound(s.db.bindings, id))
  }

  lemma CommitKeepsDb(s: State, r: nat, operator: Account, write: Write, w: WriteDraw)
    requires SchemaOk(s.db) && IdsOk(s.db, s.used) && |w.draw.ranks| == 1 && (write.PutCreate? ==> IsShortId(w.draw.id))
    ensures DbKept(s, CommitStep(s, r, operator, write, w))
  {
    PerformEffect(s.db, write, w);
    if write.PutCreate? { ShortIdTrimmed(w.draw.id); }
  }

  lemma TemporaryIdTrimmed()
    ensures Trimmed(TEMPORARY_ID) && TEMPORARY_ID != "" && TrimSpace(TEMPORARY_ID) == TEMPORARY_ID
  {
    assert |TEMPORARY_ID| == 36 && TEMPORARY_ID[0] == '0' && TEMPORARY_ID[35] == 'e';
  }

  lemma TemporaryIdIsValid()
    ensures ValidRecordId(TEMPORARY_ID)
  {
    TemporaryIdTrimmed();
    assert |TEMPORARY_ID| == 36;
    assert forall i | 0 <= i < 36 :: IsRecordIdChar(TEMPORARY_ID[i]);
    assert MatchesRecordId(TEMPORARY_ID);
  }

  lemma GenerateKeepsDb(s: State, username: string, hash: string, fault: nat)
    requires SchemaOk(s.db) && IdsOk(s.db, s.used)
    ensures DbKept(s, GenerateStep(s, username, hash, fault))
  {
    var s' := GenerateStep(s, username, hash, fault);
    GenerateKeepsTables(s.db, username, hash, s.now, fault);
    TablesKept(s, s');
  }

  lemma TablesKept(s: State, s': State)
    requires SchemaOk(s'.db) && s'.db.bindings == s.db.bindings
    requires (forall id | id in s'.db.rows :: Trimmed(id) && id != "") && s'.db.rows.Keys <= s'.used
    ensures DbKept(s, s')
  {
  }

  lemma GenerateKeepsTables(db: Db, username: string, hash: string, now: int, fault: nat)
    requires SchemaOk(db) && forall id | id in db.rows :: Trimmed(id) && id != ""
    ensures var (db', done) := SqlGenerate(db, username, hash, now + TEMPORARY_TTL, now, fault);
      && SchemaOk(db') && db'.bindings == db.bindings && (forall id | id in db'.rows :: Trimmed(id) && id != "")
      && db'.rows.Keys <= db.rows.Keys + (if done then {TEMPORARY_ID} else {})
  {
    GenerateKeepsSchema(db, username, hash, now + TEMPORARY_TTL, now, fault);
    TemporaryIdTrimmed();
  }

  lemma AddSeedKeepsDb(s: State)
    requires SchemaOk(s.db) && IdsOk(s.db, s.used)
    ensures DbKept(s, AddSeedStep(s))
  {
    AddSeedKeepsSchema(s.db, s.now);
    TemporaryIdTrimmed();
    TablesKept(s, AddSeedStep(s));
  }

  lemma ShrunkIsKept(s: State, s': State)
    requires SchemaOk(s.db) && IdsOk(s.db, s.used) && OnlyShrunk(s.db, s'.db) && s.used <= s'.used
    ensures DbKept(s, s')
  {
  }

  lemma WriteKeepsDb(s: State, e: Event)
    requires SchemaOk(s.db) && IdsOk(s.db, s.used) && WritesDb(e)
    ensures DbKept(s, Step(s, e))
  {
    if Possible(s, e) {
      match e
      case Commit(r, w) => CommitKeepsDb(s, r, s.pending[r].operator, s.pending[r].write, w);
      case Generate(username, hash, fault) => GenerateKeepsDb(s, username, hash, fault);
      case Tick => TickKeepsSchema(s.db, s.now);
      case AddIndex => AddIndexKeepsSchema(s.db);
      case AddSeed => AddSeedKeepsDb(s);
    }
  }

  /** A creation, a scan and a load remove no row and leave bindings and requests alone. */
  lemma UpkeepAdds(s: State, e: Event)
    requires WritesDb(e) && !e.Commit?
    ensures var s' := Step(s, e);
      s.db.rows.Keys <= s'.db.rows.Keys && s'.db.bindings == s.db.bindings && s'.pending == s.pending
  {
  }

  lemma StepKeepsDb(s: State, e: Event)
    requires SchemaOk(s.db) && IdsOk(s.db, s.used)
    ensures DbKept(s, Step(s, e))
  {
    if WritesDb(e) {
      WriteKeepsDb(s, e);
    } else {
      var s' := Step(s, e);
      ReadersShrink(s, e);
      OthersKeepSessions(s, e);
      ShrunkIsKept(s, s');
    }
  }

  // ---------- snapshots and tokens ----------

  lemma FinishKeepsSnapshots(s: State, r: nat, purpose: Purpose, found: Lookup)
    requires SnapshotsOk(s.pending, s.used) && FoundUsed(found, s.used)
    ensures SnapshotsOk(Finish(s, r, purpose, found).pending, s.used)
  {
  }

  lemma RowIsUsed(db: Db, key: Key, used: set<string>)
    requires SchemaOk(db) && IdsOk(db, used)
    ensures RowOf(db, key).Some? ==> IsUsed(RowOf(db, key).value.id, used)
  {
  }

  lemma LookupKeepsSnapshots(s: State, e: Event)
    requires Basic(s) && Possible(s, e) && (e.ReadRow? || e.ReadRoles? || e.Compact?)
    ensures SnapshotsOk(Step(s, e).pending, s.used)
  {
    var r := e.request;
    var purpose := s.pending[r].purpose;
    match e
    case ReadRow(_, fails) =>
      RowIsUsed(s.db, s.pending[r].key, s.used);
      FinishKeepsSnapshots(s, r, purpose, if fails then LookupError else NoAccount);
    case ReadRoles(_, dir, fails) =>
      var account := s.pending[r].account;
      var choice := Choose(dir, RolesOf(s.db.bindings, account.id));
      assert FoundUsed(Settle(account, choice), s.used);
      FinishKeepsSnapshots(s, r, purpose, if fails then LookupError else Settle(account, choice));
    case Compact(_, fails) =>
      var Compacting(account, roleId, _) := s.pending[r];
      var compacted := s.(db := s.db.(bindings := KeepOnly(s.db.bindings, account.id, roleId)));
      FinishKeepsSnapshots(s, r, purpose, LookupError);
      FinishKeepsSnapshots(compacted, r, purpose, Found(account, [roleId]));
  }

  lemma StepKeepsSnapshots(s: State, e: Event)
    requires Basic(s)
    ensures SnapshotsOk(Step(s, e).pending, s.used)
  {
    if Possible(s, e) && (e.ReadRow? || e.ReadRoles? || e.Compact?) {
      LookupKeepsSnapshots(s, e);
    }
  }

  /** A login that answers with a credential names the account it looked up. */
  lemma CredentialNamesTheFound(found: Lookup, password: string, dir: Directory, draw: LoginDraw)
    ensures var answer := LoginFrom(found, password, dir, draw);
      answer.data.Credential? ==> found.Found? && answer.data.holder == found.account && answer.status == 0
  {
  }

  lemma SignInKeepsTokens(s: State, r: nat, found: Lookup, password: string, dir: Directory, draw: LoginDraw)
    requires TokensOk(s.sessions, s.issued, s.used) && FoundUsed(found, s.used)
    requires IsToken(draw.token) && draw.token !in s.issued
    ensures var s' := SignInStep(s, r, found, password, dir, draw); TokensOk(s'.sessions, s'.issued, s'.used)
  {
    CredentialNamesTheFound(found, password, dir, draw);
  }

  lemma LookupKeepsSessions(s: State, e: Event)
    requires Possible(s, e) && (e.ReadRow? || e.ReadRoles? || e.Compact?)
    ensures var s' := Step(s, e); s' == s.(db := s'.db, pending := s'.pending)
  {
    var r := e.request;
    var purpose := s.pending[r].purpose;
    match e
    case ReadRow(_, fails) => FinishMovesOne(s, r, purpose, if fails then LookupError else NoAccount);
    case ReadRoles(_, dir, fails) =>
      var account := s.pending[r].account;
      var choice := Choose(dir, RolesOf(s.db.bindings, account.id));
      FinishMovesOne(s, r, purpose, if fails then LookupError else Settle(account, choice));
    case Compact(_, fails) =>
      var Compacting(account, roleId, _) := s.pending[r];
      var compacted := s.(db := s.db.(bindings := KeepOnly(s.db.bindings, account.id, roleId)));
      FinishMovesOne(s, r, purpose, LookupError);
      FinishMovesOne(compacted, r, purpose, Found(account, [roleId]));
  }

  lemma OthersKeepSessions(s: State, e: Event)
    ensures var s' := Step(s, e);
      (e.SignIn? || (s'.sessions == s.sessions && s'.issued == s.issued)) && s.used <= s'.used
  {
    if Possible(s, e) && (e.ReadRow? || e.ReadRoles? || e.Compact?) {
      LookupKeepsSessions(s, e);
    }
  }

  lemma StepKeepsTokens(s: State, e: Event)
    requires Basic(s)
    ensures var s' := Step(s, e);
      TokensOk(s'.sessions, s'.issued, s'.used) && SnapshotsOk(s'.pending, s'.used) && s.used <= s'.used
  {
    OthersKeepSessions(s, e);
    StepKeepsSnapshots(s, e);
    if e.SignIn? && Possible(s, e) {
      SignInKeepsTokens(s, e.request, s.pending[e.request].found, s.pending[e.request].password, e.dir, e.draw);
    }
  }

  /** Issued tokens keep their account. */
  lemma StepKeepsIssued(s: State, e: Event)
    ensures forall token | token in s.issued ::
      token in Step(s, e).issued && Step(s, e).issued[token] == s.issued[token]
  {
    OthersKeepSessions(s, e);
  }

  lemma StepKeepsClock(s: State, e: Event)
    requires s.lastTick <= s.now && s.enabledAt <= s.now
    ensures Step(s, e).lastTick <= Step(s, e).now && s.enabledAt <= Step(s, e).enabledAt <= Step(s, e).now
    ensures s.now <= Step(s, e).now
  {
    if Possible(s, e) && (e.ReadRow? || e.ReadRoles? || e.Compact?) {
      LookupKeepsSessions(s, e);
    }
  }

  lemma StepKeepsBasic(s: State, e: Event)
    requires Basic(s)
    ensures Basic(Step(s, e)) && DbKept(s, Step(s, e))
  {
    StepKeepsDb(s, e);
    StepKeepsTokens(s, e);
    StepKeepsClock(s, e);
  }

  /** In every run the schema holds throughout: every binding belongs to an existing account, no pair repeats; and no
      account ever has more bindings than it started with, or one. */
  lemma {:induction false} RunKeepsBasic(s: State, events: seq<Event>)
    requires Basic(s)
    ensures Basic(Run(s, events))
    ensures forall id :: Bound(Run(s, events).db.bindings, id) <= Max(1, Bound(s.db.bindings, id))
    decreases |events|
  {
    if events != [] {
      StepKeepsBasic(s, events[0]);
      RunKeepsBasic(Step(s, events[0]), events[1..]);
    }
  }

  /** A late compaction leaves the account with its chosen role exactly when that role is still bound, and with no role
      otherwise: "exactly one role" is not kept when an update comes between the read and the compaction. */
  lemma LateCompactionKeepsRoleIff(s: State, r: nat)
    requires Basic(s) && r in s.pending && s.pending[r].Compacting?
    ensures var Compacting(account, roleId, _) := s.pending[r];
      RolesOf(Step(s, Compact(r, false)).db.bindings, account.id)
        == if roleId in RolesOf(s.db.bindings, account.id) then [roleId] else []
  {
    var Compacting(account, roleId, purpose) := s.pending[r];
    var compacted := s.(db := s.db.(bindings := KeepOnly(s.db.bindings, account.id, roleId)));
    FinishMovesOne(compacted, r, purpose, Found(account, [roleId]));
    assert Step(s, Compact(r, false)).db == compacted.db;
    KeepOnlyOwn(s.db.bindings, account.id, roleId, s.db.oneRolePerAccount);
  }
}
