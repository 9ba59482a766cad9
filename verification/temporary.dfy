/** The temporary super administrator: one record with a fixed ID, enabled by a creation for ten minutes and disabled
    by the first scan after its expiry. */
module Temporary {
  import opened Text
  import opened Store
  import opened Schema
  import opened Atomicity
  import opened Handlers
  import opened Machine
  import opened Reachable

  /** The state after the tables are created: nothing temporary but the seed row, which is disabled and has no
      expiry. */
  ghost predicate Seeded(s: State) {
    && Started(s)
    && (forall id | id in s.db.rows :: s.db.rows[id].isTemporary <==> id == TEMPORARY_ID)
    && TEMPORARY_ID in s.db.rows
    && s.db.rows[TEMPORARY_ID].account.isSuperAdmin
    && s.db.rows[TEMPORARY_ID].account.status == "disabled"
    && s.db.rows[TEMPORARY_ID].expiresAt == None
  }

  /** So is the state that starts with the tables as they are created. */
  lemma InitialIsSeeded(oneRolePerAccount: bool, now: int, ttl: nat)
    ensures Seeded(
        State(InitialDb(oneRolePerAccount, now), now, now, ttl, map[], map[], {TEMPORARY_ID}, map[], [], now))
  {
    TemporaryIdTrimmed();
  }

  /** Only the fixed record is temporary; its expiry is at most a lifetime after it was last enabled; and a
      scan later than both its expiry and that moment has disabled it. */
  ghost predicate TemporaryOk(s: State) {
    && (forall id | id in s.db.rows && id != TEMPORARY_ID :: !s.db.rows[id].isTemporary)
    && (TEMPORARY_ID in s.db.rows ==>
          var row := s.db.rows[TEMPORARY_ID];
          && row.isTemporary
          && (row.expiresAt.Some? ==> row.expiresAt.value <= s.enabledAt + TEMPORARY_TTL)
          && (row.expiresAt.Some? && row.account.status == "enabled" ==>
                s.lastTick <= row.expiresAt.value || s.lastTick <= s.enabledAt))
  }

  lemma ReadersKeepTemporary(s: State, e: Event)
    requires TemporaryOk(s) && !WritesDb(e)
    ensures TemporaryOk(Step(s, e))
  {
    ReadersShrink(s, e);
    ReadersKeepTimes(s, e);
  }

  lemma ReadersKeepTimes(s: State, e: Event)
    requires !WritesDb(e)
    ensures Step(s, e).lastTick == s.lastTick && Step(s, e).enabledAt == s.enabledAt
  {
    if Possible(s, e) && (e.ReadRow? || e.ReadRoles? || e.Compact?) {
      LookupKeepsSessions(s, e);
    }
  }

  predicate FixedEnabled(db: Db) {
    TEMPORARY_ID in db.rows && db.rows[TEMPORARY_ID].account.status == "enabled"
  }

  /** The time of the last enabling is set when the fixed record becomes enabled, and only by a creation or by a write
      that asks for it. */
  lemma EnablingIsRecorded(s: State, e: Event)
    requires Basic(s)
    ensures !FixedEnabled(s.db) && FixedEnabled(Step(s, e).db) ==> Step(s, e).enabledAt == s.now
    ensures Step(s, e).enabledAt != s.enabledAt ==> Step(s, e).enabledAt == s.now && FixedEnabled(Step(s, e).db)
  {
    if !WritesDb(e) {
      ReadersShrink(s, e);
      ReadersKeepTimes(s, e);
    } else if e.Commit? {
      CommitRecorded(s, e);
    } else {
      UpkeepRecorded(s, e);
    }
  }

  lemma UpkeepRecorded(s: State, e: Event)
    requires WritesDb(e) && !e.Commit?
    ensures !FixedEnabled(s.db) && FixedEnabled(Step(s, e).db) ==> Step(s, e).enabledAt == s.now
    ensures Step(s, e).enabledAt != s.enabledAt ==> Step(s, e).enabledAt == s.now && FixedEnabled(Step(s, e).db)
  {
    TickOnRow(s.db, s.now, TEMPORARY_ID);
  }

  lemma CommitRecorded(s: State, e: Event)
    requires Basic(s) && e.Commit?
    ensures !FixedEnabled(s.db) && FixedEnabled(Step(s, e).db) ==> Step(s, e).enabledAt == s.now
    ensures Step(s, e).enabledAt != s.enabledAt ==> Step(s, e).enabledAt == s.now && FixedEnabled(Step(s, e).db)
  {
    if Possible(s, e) {
      var Cleared(operator, write) := s.pending[e.request];
      PerformOnRows(s.db, write, e.w);
      if write.PutCreate? { ShortIdTrimmed(e.w.draw.id); }
      if Enables(write) { PerformEnables(s.db, write, e.w); }
      assert Step(s, e) == CommitStep(s, e.request, operator, write, e.w);
    }
  }

  lemma PerformEnables(db: Db, write: Write, w: WriteDraw)
    requires SchemaOk(db) && |w.draw.ranks| == 1 && Enables(write)
    ensures Perform(db, write, w).1 ==> FixedEnabled(Perform(db, write, w).0)
  {
    UpdateAllOrNothing(db, write.accountId, write.status, [write.roleId], w.draw, w.writeFault);
  }

  /** What a performed write does to a row that was there before: an update may change the status, nothing else
      matters. */
  lemma PerformOnRows(db: Db, write: Write, w: WriteDraw)
    requires SchemaOk(db) && |w.draw.ranks| == 1
    ensures var (db', done) := Perform(db, write, w);
      forall id | id in db'.rows ::
        if id in db.rows then
          && db'.rows[id].isTemporary == db.rows[id].isTemporary && db'.rows[id].expiresAt == db.rows[id].expiresAt
          && db'.rows[id].account.isSuperAdmin == db.rows[id].account.isSuperAdmin
          && (db'.rows[id].account.status == db.rows[id].account.status
              || (done && write.PutUpdate? && write.accountId == id && db'.rows[id].account.status == write.status))
        else write.PutCreate? && id == w.draw.id && !db'.rows[id].isTemporary && db'.rows[id].expiresAt == None
             && !db'.rows[id].account.isSuperAdmin
  {
    match write
    case PutUpdate(id, status, roleId) => UpdateAllOrNothing(db, id, status, [roleId], w.draw, w.writeFault);
    case PutReset(_, _) =>
    case PutDelete(id) => DeleteAllOrNothing(db, id, w.writeFault);
    case PutCreate(username, password, status, roleId) =>
      CreateAllOrNothing(db, w.draw, username, w.hash(password), status, [roleId], w.writeFault);
  }

  lemma CommitKeepsTemporary(s: State, r: nat, operator: Account, write: Write, w: WriteDraw)
    requires Basic(s) && TemporaryOk(s) && |w.draw.ranks| == 1 && (write.PutCreate? ==> IsShortId(w.draw.id))
    ensures TemporaryOk(CommitStep(s, r, operator, write, w))
  {
    PerformOnRows(s.db, write, w);
    if write.PutCreate? { ShortIdTrimmed(w.draw.id); }
    var s' := CommitStep(s, r, operator, write, w);
    assert s'.lastTick == s.lastTick && s'.enabledAt >= s.enabledAt;
    assert s'.db == Perform(s.db, write, w).0;
  }

  lemma GenerateKeepsTemporary(s: State, username: string, hash: string, fault: nat)
    requires Basic(s) && TemporaryOk(s)
    ensures TemporaryOk(GenerateStep(s, username, hash, fault))
  {
  }

  lemma TickKeepsTemporary(s: State)
    requires Basic(s) && TemporaryOk(s)
    ensures TemporaryOk(Step(s, Tick))
  {
    TickOnRow(s.db, s.now, TEMPORARY_ID);
    forall id | id in s.db.rows ensures SqlTick(s.db, s.now).rows[id].isTemporary == s.db.rows[id].isTemporary {
      TickOnRow(s.db, s.now, id);
    }
  }

  lemma AddSeedKeepsTemporary(s: State)
    requires TemporaryOk(s)
    ensures TemporaryOk(AddSeedStep(s))
  {
  }

  lemma StepKeepsTemporary(s: State, e: Event)
    requires Basic(s) && TemporaryOk(s)
    ensures TemporaryOk(Step(s, e))
  {
    if !WritesDb(e) {
      ReadersKeepTemporary(s, e);
    } else if Possible(s, e) {
      match e
      case Commit(r, w) => CommitKeepsTemporary(s, r, s.pending[r].operator, s.pending[r].write, w);
      case Generate(username, hash, fault) => GenerateKeepsTemporary(s, username, hash, fault);
      case Tick => TickKeepsTemporary(s);
      case AddIndex =>
      case AddSeed => AddSeedKeepsTemporary(s);
    }
  }

  lemma {:induction false} RunKeepsTemporary(s: State, events: seq<Event>)
    requires Basic(s) && TemporaryOk(s)
    ensures TemporaryOk(Run(s, events))
    decreases |events|
  {
    if events != [] {
      StepKeepsBasic(s, events[0]);
      StepKeepsTemporary(s, events[0]);
      RunKeepsTemporary(Step(s, events[0]), events[1..]);
    }
  }

  /** In every state reached from the seeded one, the fixed record is the only temporary one. */
  lemma OnlyOneTemporary(s0: State, events: seq<Event>, id: string)
    requires Seeded(s0) && id in Run(s0, events).db.rows
    ensures Run(s0, events).db.rows[id].isTemporary <==> id == TEMPORARY_ID
  {
    SeededIsOk(s0);
    RunKeepsTemporary(s0, events);
  }

  lemma SeededIsOk(s: State)
    requires Seeded(s)
    ensures TemporaryOk(s)
  {
  }

  /** In every run a scan disables the temporary records that are enabled past their expiry, and leaves every other row
      as it was, those whose expiry is still to come among them. */
  lemma ScanLeavesNoneExpired(s0: State, events: seq<Event>, id: string)
    ensures var s, s' := Run(s0, events), Run(s0, events + [Tick]);
      && s'.db.rows.Keys == s.db.rows.Keys && s'.db.bindings == s.db.bindings && s'.now == s.now
      && (id in s.db.rows ==> ScannedRow(s.db.rows[id], s'.db.rows[id], s.now))
  {
    RunAppend(s0, events, [Tick]);
    assert Run(Run(s0, events), [Tick]) == Step(Run(s0, events), Tick);
    TickOnRow(Run(s0, events).db, Run(s0, events).now, id);
  }

  /** With scans at most a minute apart, whenever the temporary record is enabled and has an expiry, the time is at most
      one scan period after the later of its expiry and the moment it was last enabled, and at most 660 seconds after
      that moment. So a credential dies within 660 seconds of its creation unless a later step enables the record again,
      and an expired record enabled again lasts at most one scan period. */
  lemma EnabledAtMostElevenMinutes(s0: State, events: seq<Event>)
    requires Seeded(s0)
    requires var s := Run(s0, events); s.now - s.lastTick <= TICK_PERIOD
    ensures var s := Run(s0, events);
      TEMPORARY_ID in s.db.rows && s.db.rows[TEMPORARY_ID].account.status == "enabled"
        && s.db.rows[TEMPORARY_ID].expiresAt.Some? ==>
      var expiry := s.db.rows[TEMPORARY_ID].expiresAt.value;
      && (s.now <= expiry + TICK_PERIOD || s.now <= s.enabledAt + TICK_PERIOD)
      && s.now <= s.enabledAt + 660 * SECOND
  {
    SeededIsOk(s0);
    RunKeepsTemporary(s0, events);
  }

  ghost predicate EnabledWithoutExpiry(db: Db) {
    TEMPORARY_ID in db.rows && db.rows[TEMPORARY_ID].account.status == "enabled"
    && db.rows[TEMPORARY_ID].expiresAt == None
  }

  /** No creation, and no write that disables or deletes the fixed record. */
  ghost predicate Spares(s: State, e: Event) {
    && !e.Generate?
    && (e.Commit? && Possible(s, e) ==> SparedBy(s.pending[e.request].write))
  }

  predicate SparedBy(write: Write) {
    && (write.PutUpdate? && write.Key() == TEMPORARY_ID ==> write.status == "enabled")
    && (write.PutDelete? ==> write.Key() != TEMPORARY_ID)
  }

  ghost predicate AllSpare(s: State, events: seq<Event>)
    decreases |events|
  {
    events != [] ==> Spares(s, events[0]) && AllSpare(Step(s, events[0]), events[1..])
  }

  /** Only a delete removes a row, and no other than its own. */
  lemma PerformKeepsOthers(db: Db, write: Write, w: WriteDraw, id: string)
    requires SchemaOk(db) && |w.draw.ranks| == 1 && id in db.rows && (write.PutDelete? ==> write.Key() != id)
    ensures id in Perform(db, write, w).0.rows
  {
    match write
    case PutUpdate(key, status, roleId) => UpdateAllOrNothing(db, key, status, [roleId], w.draw, w.writeFault);
    case PutReset(_, _) =>
    case PutDelete(key) => DeleteAllOrNothing(db, key, w.writeFault);
    case PutCreate(username, password, status, roleId) =>
      CreateAllOrNothing(db, w.draw, username, w.hash(password), status, [roleId], w.writeFault);
  }

  /** The fixed record is enabled, with this expiry or without one. */
  ghost predicate EnabledUntil(db: Db, expiry: Option<int>) {
    TEMPORARY_ID in db.rows && db.rows[TEMPORARY_ID].account.status == "enabled"
    && db.rows[TEMPORARY_ID].expiresAt == expiry
  }

  lemma SparingKeepsEnabled(s: State, e: Event, expiry: Option<int>)
    requires Basic(s) && EnabledUntil(s.db, expiry) && Spares(s, e) && (expiry.Some? ==> s.now <= expiry.value)
    ensures EnabledUntil(Step(s, e).db, expiry)
  {
    if !WritesDb(e) {
      ReadersShrink(s, e);
    } else if e.Commit? {
      SparingCommitKeepsEnabled(s, e, expiry);
    } else {
      UpkeepKeepsEnabled(s, e, expiry);
    }
  }

  lemma UpkeepKeepsEnabled(s: State, e: Event, expiry: Option<int>)
    requires EnabledUntil(s.db, expiry) && (e.Tick? || e.AddIndex? || e.AddSeed?)
    requires expiry.Some? ==> s.now <= expiry.value
    ensures EnabledUntil(Step(s, e).db, expiry)
  {
    TickOnRow(s.db, s.now, TEMPORARY_ID);
  }

  lemma SparingCommitKeepsEnabled(s: State, e: Event, expiry: Option<int>)
    requires Basic(s) && EnabledUntil(s.db, expiry) && Spares(s, e) && e.Commit?
    ensures EnabledUntil(Step(s, e).db, expiry)
  {
    if Possible(s, e) {
      SparingWriteKeepsEnabled(s.db, s.pending[e.request].write, e.w, expiry);
      assert Step(s, e).db == Perform(s.db, s.pending[e.request].write, e.w).0;
    }
  }

  lemma SparingWriteKeepsEnabled(db: Db, write: Write, w: WriteDraw, expiry: Option<int>)
    requires SchemaOk(db) && |w.draw.ranks| == 1 && EnabledUntil(db, expiry) && SparedBy(write)
    ensures EnabledUntil(Perform(db, write, w).0, expiry)
  {
    PerformOnRows(db, write, w);
    PerformKeepsOthers(db, write, w, TEMPORARY_ID);
  }

  lemma {:induction false} RunKeepsEnabled(s: State, events: seq<Event>, expiry: Option<int>)
    requires Basic(s) && EnabledUntil(s.db, expiry) && AllSpare(s, events)
    requires expiry.Some? ==> Run(s, events).now <= expiry.value
    ensures EnabledUntil(Run(s, events).db, expiry)
    decreases |events|
  {
    if events != [] {
      ClockNeverTurnsBack(s, events);
      StepKeepsBasic(s, events[0]);
      SparingKeepsEnabled(s, events[0], expiry);
      RunKeepsEnabled(Step(s, events[0]), events[1..], expiry);
    }
  }

  lemma {:induction false} ClockNeverTurnsBack(s: State, events: seq<Event>)
    requires Basic(s)
    ensures s.now <= Run(s, events).now
    decreases |events|
  {
    if events != [] {
      StepKeepsClock(s, events[0]);
      StepKeepsBasic(s, events[0]);
      ClockNeverTurnsBack(Step(s, events[0]), events[1..]);
    }
  }

  /** A creation that succeeds gives ten minutes: the record stays enabled, with its expiry, for that long in every run
      without another creation and without a write that disables or deletes it, however many scans there are. */
  lemma EnabledForTenMinutes(s: State, username: string, hash: string, fault: nat, events: seq<Event>)
    requires Basic(s) && fault > 0 && !NameTaken(s.db.rows, username, TEMPORARY_ID)
    requires AllSpare(Step(s, Generate(username, hash, fault)), events)
    requires Run(Step(s, Generate(username, hash, fault)), events).now <= s.now + 600_000_000_000
    ensures var s' := Run(Step(s, Generate(username, hash, fault)), events);
      && TEMPORARY_ID in s'.db.rows && s'.db.rows[TEMPORARY_ID].account.status == "enabled"
      && s'.db.rows[TEMPORARY_ID].expiresAt == Some(s.now + 600_000_000_000)
  {
    var s1 := Step(s, Generate(username, hash, fault));
    assert s1 == GenerateStep(s, username, hash, fault);
    StepKeepsBasic(s, Generate(username, hash, fault));
    RunKeepsEnabled(s1, events, Some(s.now + 600_000_000_000));
  }

  /** And no longer than to the next scan: one that comes later than that disables the record. */
  lemma ScanAfterTenMinutes(s: State, username: string, hash: string, fault: nat, duration: nat)
    requires fault > 0 && !NameTaken(s.db.rows, username, TEMPORARY_ID) && duration > 600_000_000_000
    ensures var s' := Step(Step(s, Generate(username, hash, fault)), Pass(duration));
      && s'.now == s.now + duration
      && TEMPORARY_ID in Step(s', Tick).db.rows && Step(s', Tick).db.rows[TEMPORARY_ID].account.status == "disabled"
  {
    var s1 := GenerateStep(s, username, hash, fault);
    assert Step(s, Generate(username, hash, fault)) == s1;
    ScanOnExpired(Step(s1, Pass(duration)), s.now + 600_000_000_000);
  }

  lemma ScanOnExpired(s: State, expiry: int)
    requires TEMPORARY_ID in s.db.rows && s.db.rows[TEMPORARY_ID].isTemporary && expiry < s.now
    requires EnabledUntil(s.db, Some(expiry))
    ensures TEMPORARY_ID in Step(s, Tick).db.rows && Step(s, Tick).db.rows[TEMPORARY_ID].account.status == "disabled"
  {
    TickOnRow(s.db, s.now, TEMPORARY_ID);
  }

  /** The condition on the expiry cannot be dropped: a temporary record that is enabled without one, as an update of the
      seed row makes it, stays enabled whatever happens, until a creation gives it an expiry or a write disables or
      deletes it. No scan does. */
  lemma NoExpiryNeverDisabled(s: State, events: seq<Event>)
    requires Basic(s) && EnabledWithoutExpiry(s.db) && AllSpare(s, events)
    ensures EnabledWithoutExpiry(Run(s, events).db)
  {
    RunKeepsEnabled(s, events, None);
  }
}
