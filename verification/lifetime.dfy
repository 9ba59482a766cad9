/** How long the temporary record can stay enabled. As long as the seed row is the only super administrator's, it is
    enabled only by a creation, which gives it an expiry. */
module Lifetime {
  import opened Text
  import opened RoleClient
  import opened Store
  import opened Schema
  import opened Handlers
  import opened Machine
  import opened Reachable
  import opened Temporary
  import opened Guard
  import opened Runs
  import opened Incidents
  import opened Survival

  /** Requests of super administrators are not under way. */
  ghost predicate NoSuperUnderWay(p: Pending) {
    match p
    case Asking(_, purpose) => purpose.ForTarget? ==> !purpose.operator.isSuperAdmin
    case Reading(account, purpose) => NoSuperRead(account, purpose)
    case Compacting(account, _, purpose) => NoSuperRead(account, purpose)
    case Authorised(operator, _) => !operator.isSuperAdmin
    case Cleared(operator, _) => !operator.isSuperAdmin
    case SigningIn(_, _) => true
  }

  ghost predicate NoSuperRead(account: Account, purpose: Purpose) {
    && (purpose.ForTarget? ==> !purpose.operator.isSuperAdmin)
    && (purpose.ForOperator? ==> !account.isSuperAdmin || account.status != "enabled")
  }

  /** Nobody is an enabled super administrator, and nobody acts as one. */
  ghost predicate NoSuperYet(s: State) {
    && (forall id :: !EnabledSuper(s.db, id))
    && (forall r | r in s.pending :: NoSuperUnderWay(s.pending[r]))
  }

  /** The fixed record is absent or has an expiry. */
  ghost predicate FixedExpires(db: Db) {
    TEMPORARY_ID in db.rows ==> db.rows[TEMPORARY_ID].expiresAt.Some?
  }

  lemma FinishKeepsNoSuper(s: State, r: nat, purpose: Purpose, found: Lookup)
    requires NoSuperYet(s)
    requires purpose.ForTarget? ==> !purpose.operator.isSuperAdmin
    requires purpose.ForOperator? && found.Found? ==> !found.account.isSuperAdmin || found.account.status != "enabled"
    ensures NoSuperYet(Finish(s, r, purpose, found))
  {
  }

  lemma ReadRowKeepsNoSuper(s: State, r: nat, fails: bool)
    requires Basic(s) && NoSuperYet(s) && r in s.pending && s.pending[r].Asking?
    ensures NoSuperYet(ReadRowStep(s, r, s.pending[r].key, s.pending[r].purpose, fails))
  {
    var Asking(key, purpose) := s.pending[r];
    assert NoSuperUnderWay(s.pending[r]);
    FinishKeepsNoSuper(s, r, purpose, if fails then LookupError else NoAccount);
    var row := RowOf(s.db, key);
    if row.Some? { assert !EnabledSuper(s.db, row.value.id); }
  }

  lemma ReadRolesKeepsNoSuper(s: State, r: nat, dir: Directory, fails: bool)
    requires NoSuperYet(s) && r in s.pending && s.pending[r].Reading?
    ensures NoSuperYet(ReadRolesStep(s, r, s.pending[r].account, s.pending[r].purpose, dir, fails))
  {
    var Reading(account, purpose) := s.pending[r];
    assert NoSuperUnderWay(s.pending[r]);
    var choice := Choose(dir, RolesOf(s.db.bindings, account.id));
    FinishKeepsNoSuper(s, r, purpose, if fails then LookupError else Settle(account, choice));
  }

  lemma CompactKeepsNoSuper(s: State, r: nat, fails: bool)
    requires NoSuperYet(s) && r in s.pending && s.pending[r].Compacting?
    ensures NoSuperYet(CompactStep(s, r, s.pending[r].account, s.pending[r].roleId, s.pending[r].purpose, fails))
  {
    var Compacting(account, roleId, purpose) := s.pending[r];
    assert NoSuperUnderWay(s.pending[r]);
    var compacted := s.(db := s.db.(bindings := KeepOnly(s.db.bindings, account.id, roleId)));
    assert forall id :: EnabledSuper(compacted.db, id) == EnabledSuper(s.db, id);
    FinishKeepsNoSuper(s, r, purpose, LookupError);
    FinishKeepsNoSuper(compacted, r, purpose, Found(account, [roleId]));
  }

  lemma LookupKeepsNoSuper(s: State, e: Event)
    requires Basic(s) && NoSuperYet(s) && Possible(s, e) && (e.ReadRow? || e.ReadRoles? || e.Compact?)
    ensures NoSuperYet(Step(s, e))
  {
    match e
    case ReadRow(r, fails) => ReadRowKeepsNoSuper(s, r, fails);
    case ReadRoles(r, dir, fails) => ReadRolesKeepsNoSuper(s, r, dir, fails);
    case Compact(r, fails) => CompactKeepsNoSuper(s, r, fails);
  }

  ghost predicate FixedStays(db: Db, db': Db)
    requires TEMPORARY_ID in db.rows
  {
    && TEMPORARY_ID in db'.rows
    && db'.rows[TEMPORARY_ID].account.status == db.rows[TEMPORARY_ID].account.status
    && db'.rows[TEMPORARY_ID].expiresAt == db.rows[TEMPORARY_ID].expiresAt
  }

  /** A write of an operator without the flag touches no super administrator's record. */
  lemma CommitKeepsNoSuper(s: State, r: nat, w: WriteDraw)
    requires Basic(s) && Open(s) && NoSuperYet(s) && Possible(s, Commit(r, w))
    ensures var s' := Step(s, Commit(r, w));
      && NoSuperYet(s')
      && (TEMPORARY_ID in s.db.rows ==> FixedStays(s.db, s'.db))
  {
    var Cleared(operator, write) := s.pending[r];
    var s' := Step(s, Commit(r, w));
    assert s' == CommitStep(s, r, operator, write, w) && s'.db == Perform(s.db, write, w).0;
    assert NoSuperUnderWay(s.pending[r]) && InFlightOk(s.db, s.pending[r]);
    PerformKeepsNoSuper(s.db, write, w);
  }

  lemma PerformKeepsNoSuper(db: Db, write: Write, w: WriteDraw)
    requires SchemaOk(db) && |w.draw.ranks| == 1 && (write.PutCreate? || NeverSuper(db, write.Key()))
    requires forall id :: !EnabledSuper(db, id)
    ensures forall id :: !EnabledSuper(Perform(db, write, w).0, id)
    ensures TEMPORARY_ID in db.rows ==> FixedStays(db, Perform(db, write, w).0)
  {
    PerformOnRows(db, write, w);
    if TEMPORARY_ID in db.rows { PerformKeepsOthers(db, write, w, TEMPORARY_ID); }
    forall id ensures !EnabledSuper(Perform(db, write, w).0, id) {
      assert !EnabledSuper(db, id);
    }
  }

  /** Until the first creation the fixed record stays disabled; after it, the record has an expiry. */
  ghost predicate Bounded(s: State) {
    Basic(s) && Open(s) && Alone(s) && (FixedExpires(s.db) || (NoSuperYet(s) && !EnabledWithoutExpiry(s.db)))
  }

  lemma WritesKeepExpiry(s: State, e: Event)
    requires Basic(s) && WritesDb(e) && TEMPORARY_ID in s.db.rows && FixedExpires(s.db)
    ensures FixedExpires(Step(s, e).db)
  {
    if e.Commit? { CommitKeepsExpiry(s, e); } else { UpkeepKeepsExpiry(s, e); }
  }

  lemma UpkeepKeepsExpiry(s: State, e: Event)
    requires TEMPORARY_ID in s.db.rows && FixedExpires(s.db) && WritesDb(e) && !e.Commit?
    ensures FixedExpires(Step(s, e).db)
  {
  }

  lemma CommitKeepsExpiry(s: State, e: Event)
    requires Basic(s) && e.Commit? && FixedExpires(s.db)
    ensures FixedExpires(Step(s, e).db)
  {
    if Possible(s, e) {
      var write := s.pending[e.request].write;
      PerformOnRows(s.db, write, e.w);
      if write.PutCreate? { ShortIdTrimmed(e.w.draw.id); }
      assert Step(s, e).db == Perform(s.db, write, e.w).0;
    }
  }

  lemma EarlyKeepsBounded(s: State, e: Event)
    requires Basic(s) && Open(s) && NoSuperYet(s) && !EnabledWithoutExpiry(s.db) && !e.Generate?
    requires TEMPORARY_ID in s.db.rows
    ensures NoSuperYet(Step(s, e)) && !EnabledWithoutExpiry(Step(s, e).db)
  {
    if Possible(s, e) {
      if e.Commit? {
        CommitKeepsNoSuper(s, e.request, e.w);
        CommitKeepsDisabled(s, e.request, e.w);
      } else if WritesDb(e) {
        UpkeepKeepsNoSuper(s, e);
      } else {
        ReadersKeepNoSuper(s, e);
      }
    }
  }

  lemma ReadersKeepNoSuper(s: State, e: Event)
    requires Basic(s) && NoSuperYet(s) && !EnabledWithoutExpiry(s.db) && Possible(s, e) && !WritesDb(e)
    ensures NoSuperYet(Step(s, e)) && !EnabledWithoutExpiry(Step(s, e).db)
  {
    ReadersKeepDisabled(s, e);
    if e.ReadRow? || e.ReadRoles? || e.Compact? { LookupKeepsNoSuper(s, e); } else { OthersKeepNoSuper(s, e); }
  }

  lemma ReadersKeepDisabled(s: State, e: Event)
    requires !EnabledWithoutExpiry(s.db) && !WritesDb(e)
    ensures !EnabledWithoutExpiry(Step(s, e).db)
  {
    ReadersShrink(s, e);
  }

  lemma UpkeepKeepsNoSuper(s: State, e: Event)
    requires NoSuperYet(s) && !EnabledWithoutExpiry(s.db) && TEMPORARY_ID in s.db.rows
    requires e.Tick? || e.AddIndex? || e.AddSeed?
    ensures NoSuperYet(Step(s, e)) && !EnabledWithoutExpiry(Step(s, e).db)
  {
    if e.Tick? { TickKeepsNoSuper(s); } else { LoadKeepsNoSuper(s, e); }
  }

  lemma CommitKeepsDisabled(s: State, r: nat, w: WriteDraw)
    requires Basic(s) && Open(s) && NoSuperYet(s) && !EnabledWithoutExpiry(s.db) && Possible(s, Commit(r, w))
    ensures !EnabledWithoutExpiry(Step(s, Commit(r, w)).db)
  {
    CommitKeepsNoSuper(s, r, w);
    if TEMPORARY_ID !in s.db.rows {
      var write := s.pending[r].write;
      PerformEffect(s.db, write, w);
      if write.PutCreate? { ShortIdTrimmed(w.draw.id); }
      assert Step(s, Commit(r, w)).db == Perform(s.db, write, w).0;
    }
  }

  lemma TickKeepsNoSuper(s: State)
    requires NoSuperYet(s) && !EnabledWithoutExpiry(s.db)
    ensures NoSuperYet(Step(s, Tick)) && !EnabledWithoutExpiry(Step(s, Tick).db)
  {
    var s' := Step(s, Tick);
    forall id ensures !EnabledSuper(s'.db, id) {
      assert !EnabledSuper(s.db, id);
    }
  }

  /** The fixed row is there, so a load inserts none. */
  lemma LoadKeepsNoSuper(s: State, e: Event)
    requires NoSuperYet(s) && !EnabledWithoutExpiry(s.db) && TEMPORARY_ID in s.db.rows && (e.AddIndex? || e.AddSeed?)
    ensures NoSuperYet(Step(s, e)) && !EnabledWithoutExpiry(Step(s, e).db)
  {
    var s' := Step(s, e);
    assert s'.db.rows == s.db.rows;
    forall id ensures !EnabledSuper(s'.db, id) {
      assert !EnabledSuper(s.db, id);
    }
  }

  lemma OthersKeepNoSuper(s: State, e: Event)
    requires NoSuperYet(s) && !EnabledWithoutExpiry(s.db) && Possible(s, e)
    requires !WritesDb(e) && !e.ReadRow? && !e.ReadRoles? && !e.Compact?
    ensures NoSuperYet(Step(s, e)) && !EnabledWithoutExpiry(Step(s, e).db)
  {
    ReadersKeepDb(s, e);
    if e.Proceed? { assert NoSuperUnderWay(s.pending[e.request]); }
  }

  lemma StepKeepsBounded(s: State, e: Event)
    requires Bounded(s)
    ensures Bounded(Step(s, e))
  {
    StepKeepsBasic(s, e);
    StepKeepsOpen(s, e);
    StepKeepsAlone(s, e);
    if FixedExpires(s.db) {
      if WritesDb(e) { WritesKeepExpiry(s, e); } else { ReadersShrink(s, e); }
    } else if e.Generate? {
      var s' := GenerateStep(s, e.username, e.hash, e.fault);
      assert Step(s, e) == s' && s'.pending == s.pending;
      assert FixedExpires(s'.db) || s'.db == s.db;
      if s'.db == s.db { assert NoSuperYet(s'); }
    } else {
      EarlyKeepsBounded(s, e);
    }
  }

  lemma {:induction false} RunKeepsBounded(s: State, events: seq<Event>)
    requires Bounded(s)
    ensures Bounded(Run(s, events))
    decreases |events|
  {
    if events != [] {
      StepKeepsBounded(s, events[0]);
      RunKeepsBounded(Step(s, events[0]), events[1..]);
    }
  }

  /** From the seeded store the fixed record always stays disabled or has an expiry, in every run, if and only if the
      seed row is the only super administrator's. */
  lemma NeverEnabledForGoodIff(s0: State, name: string)
    requires Seeded(s0) && FitName(name) && !NameTaken(s0.db.rows, name, TEMPORARY_ID)
    requires !NameTaken(s0.db.rows, SEED_NAME, TEMPORARY_ID) && forall id | id in s0.db.rows :: ValidRecordId(id)
    ensures (forall events :: FixedIsBounded(Run(s0, events))) <==> AloneInTable(s0.db)
  {
    if AloneInTable(s0.db) {
      forall events ensures FixedIsBounded(Run(s0, events)) {
        RunKeepsBounded(s0, events);
      }
    } else {
      var id :| id in s0.db.rows && id != TEMPORARY_ID && s0.db.rows[id].account.isSuperAdmin;
      var events := SecondEnablesSeed(s0, id, name);
      assert !FixedIsBounded(Run(s0, events));
    }
  }

  ghost predicate FixedIsBounded(s: State) { !EnabledWithoutExpiry(s.db) }

  /** And then the bound of eleven minutes holds without a condition on the expiry: with the last scan at most a minute
      ago, an enabled temporary record was enabled at most 660 seconds ago. */
  lemma EnabledAtMostElevenMinutesAlways(s0: State, events: seq<Event>)
    requires Seeded(s0) && AloneInTable(s0.db)
    requires var s := Run(s0, events); s.now - s.lastTick <= TICK_PERIOD
    ensures var s := Run(s0, events);
      TEMPORARY_ID in s.db.rows && s.db.rows[TEMPORARY_ID].account.status == "enabled" ==>
        s.now <= s.enabledAt + 660 * SECOND
  {
    RunKeepsBounded(s0, events);
    EnabledAtMostElevenMinutes(s0, events);
  }
}
