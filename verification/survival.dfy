/** What survives in every run. A token outlives the temporary record only if a second super administrator can delete
    that record: nobody deletes himself, and the guard keeps everybody else away. An account keeps a role if it starts
    with one: only several are ever compacted. */
module Survival {
  import opened Text
  import opened RoleClient
  import opened Store
  import opened Schema
  import opened Handlers
  import opened Machine
  import opened Reachable
  import opened Temporary
  import opened Guard
  import opened Runs
  import opened Incidents
  import N = Sessions
  import Atomicity

  /** An account read at some time is a super administrator's only if it is the fixed one. */
  predicate SuperIsFixed(account: Account) {
    account.isSuperAdmin ==> account.id == TEMPORARY_ID
  }

  predicate NotSelf(operator: Account, write: Write) {
    write.PutDelete? ==> operator.id != TrimSpace(write.Key())
  }

  predicate ActsAlone(purpose: Purpose) {
    purpose.ForTarget? ==> SuperIsFixed(purpose.operator)
  }

  /** What holds of a request under way while there is no second super administrator. */
  ghost predicate AloneUnderWay(p: Pending) {
    match p
    case Asking(_, purpose) => ActsAlone(purpose)
    case Reading(account, purpose) => SuperIsFixed(account) && ActsAlone(purpose)
    case Compacting(account, _, purpose) => SuperIsFixed(account) && ActsAlone(purpose)
    case Authorised(operator, _) => SuperIsFixed(operator)
    case Cleared(operator, write) => SuperIsFixed(operator) && NotSelf(operator, write)
    case SigningIn(_, _) => true
  }

  /** The fixed record is there, and no other is a super administrator's. */
  ghost predicate AloneInTable(db: Db) {
    TEMPORARY_ID in db.rows && forall id | id in db.rows && id != TEMPORARY_ID :: !db.rows[id].account.isSuperAdmin
  }

  ghost predicate Alone(s: State) {
    AloneInTable(s.db) && forall r | r in s.pending :: AloneUnderWay(s.pending[r])
  }

  lemma FinishKeepsAlone(s: State, r: nat, purpose: Purpose, found: Lookup)
    requires Alone(s) && ActsAlone(purpose)
    requires found.Found? ==> SuperIsFixed(found.account)
    requires purpose.ForTarget? && found.Found? ==> TargetOk(s.db, found.account, purpose.write)
    ensures Alone(Finish(s, r, purpose, found))
  {
    if purpose.ForTarget? && Passes(found, purpose.operator, purpose.write) {
      assert NotSelf(purpose.operator, purpose.write);
    }
  }

  lemma ReadRowKeepsAlone(s: State, r: nat, fails: bool)
    requires Basic(s) && Alone(s) && r in s.pending && s.pending[r].Asking?
    ensures Alone(ReadRowStep(s, r, s.pending[r].key, s.pending[r].purpose, fails))
  {
    var Asking(key, purpose) := s.pending[r];
    assert AloneUnderWay(s.pending[r]);
    FinishKeepsAlone(s, r, purpose, if fails then LookupError else NoAccount);
    var row := RowOf(s.db, key);
    if row.Some? { assert row.value.id in s.db.rows && s.db.rows[row.value.id].account == row.value; }
  }

  lemma ReadRolesKeepsAlone(s: State, r: nat, dir: Directory, fails: bool)
    requires Open(s) && Alone(s) && r in s.pending && s.pending[r].Reading?
    ensures Alone(ReadRolesStep(s, r, s.pending[r].account, s.pending[r].purpose, dir, fails))
  {
    var Reading(account, purpose) := s.pending[r];
    assert AloneUnderWay(s.pending[r]) && InFlightOk(s.db, s.pending[r]);
    var choice := Choose(dir, RolesOf(s.db.bindings, account.id));
    FinishKeepsAlone(s, r, purpose, if fails then LookupError else Settle(account, choice));
  }

  lemma CompactKeepsAlone(s: State, r: nat, fails: bool)
    requires Open(s) && Alone(s) && r in s.pending && s.pending[r].Compacting?
    ensures Alone(CompactStep(s, r, s.pending[r].account, s.pending[r].roleId, s.pending[r].purpose, fails))
  {
    var Compacting(account, roleId, purpose) := s.pending[r];
    assert AloneUnderWay(s.pending[r]) && InFlightOk(s.db, s.pending[r]);
    var compacted := s.(db := s.db.(bindings := KeepOnly(s.db.bindings, account.id, roleId)));
    FinishKeepsAlone(s, r, purpose, LookupError);
    FinishKeepsAlone(compacted, r, purpose, Found(account, [roleId]));
  }

  lemma LookupKeepsAlone(s: State, e: Event)
    requires Basic(s) && Open(s) && Alone(s) && Possible(s, e) && (e.ReadRow? || e.ReadRoles? || e.Compact?)
    ensures Alone(Step(s, e))
  {
    match e
    case ReadRow(r, fails) => ReadRowKeepsAlone(s, r, fails);
    case ReadRoles(r, dir, fails) => ReadRolesKeepsAlone(s, r, dir, fails);
    case Compact(r, fails) => CompactKeepsAlone(s, r, fails);
  }

  /** The one super administrator cannot delete himself, and no other operator gets as far as the write. */
  lemma FixedIsNotDeleted(db: Db, operator: Account, write: Write)
    requires AloneUnderWay(Cleared(operator, write)) && WriteOk(db, operator, write)
    ensures write.PutDelete? ==> write.Key() != TEMPORARY_ID
  {
    TemporaryIdTrimmed();
  }

  lemma CommitKeepsFixed(s: State, r: nat, w: WriteDraw)
    requires Basic(s) && Open(s) && Alone(s) && Possible(s, Commit(r, w))
    ensures TEMPORARY_ID in Step(s, Commit(r, w)).db.rows
  {
    var Cleared(operator, write) := s.pending[r];
    assert AloneUnderWay(s.pending[r]) && InFlightOk(s.db, s.pending[r]);
    FixedIsNotDeleted(s.db, operator, write);
    PerformKeepsOthers(s.db, write, w, TEMPORARY_ID);
    assert Step(s, Commit(r, w)).db == Perform(s.db, write, w).0;
  }

  lemma WriteKeepsAlone(s: State, e: Event)
    requires Basic(s) && Open(s) && Alone(s) && Possible(s, e) && WritesDb(e)
    ensures Alone(Step(s, e))
  {
    WriteKeepsFlags(s, e);
    if e.Commit? { CommitKeepsFixed(s, e.request, e.w); } else { UpkeepAdds(s, e); }
  }

  lemma OtherKeepsAlone(s: State, e: Event)
    requires Alone(s) && Possible(s, e) && !WritesDb(e) && !e.ReadRow? && !e.ReadRoles? && !e.Compact?
    ensures Alone(Step(s, e))
  {
    ReadersKeepDb(s, e);
    if e.Proceed? { assert AloneUnderWay(s.pending[e.request]); }
  }

  lemma StepKeepsAlone(s: State, e: Event)
    requires Basic(s) && Open(s) && Alone(s)
    ensures Alone(Step(s, e))
  {
    if Possible(s, e) {
      if e.ReadRow? || e.ReadRoles? || e.Compact? { LookupKeepsAlone(s, e); }
      else if WritesDb(e) { WriteKeepsAlone(s, e); }
      else { OtherKeepsAlone(s, e); }
    }
  }

  lemma {:induction false} RunKeepsAlone(s: State, events: seq<Event>)
    requires Basic(s) && Open(s) && Alone(s)
    ensures Alone(Run(s, events))
    decreases |events|
  {
    if events != [] {
      StepKeepsBasic(s, events[0]);
      StepKeepsOpen(s, events[0]);
      StepKeepsAlone(s, events[0]);
      RunKeepsAlone(Step(s, events[0]), events[1..]);
    }
  }

  /** Every issued token of the fixed record that still lives has its record. */
  ghost predicate NoTokenOutlives(s: State) {
    forall token | token in s.issued && s.issued[token] == TEMPORARY_ID ::
      N.Lives(s, token) ==> TEMPORARY_ID in s.db.rows
  }

  /** From the seeded store no token outlives the temporary record in any run, if and only if the seed row is the only
      super administrator's. */
  lemma TokenOutlivesIff(s0: State, name: string, token: string)
    requires Seeded(s0) && s0.ttl > 0 && IsToken(token) && FitName(name) && !NameTaken(s0.db.rows, name, TEMPORARY_ID)
    requires forall id | id in s0.db.rows :: ValidRecordId(id)
    ensures (forall events :: NoTokenOutlives(Run(s0, events))) <==> AloneInTable(s0.db)
  {
    if AloneInTable(s0.db) {
      forall events ensures NoTokenOutlives(Run(s0, events)) {
        RunKeepsAlone(s0, events);
      }
    } else {
      var id :| id in s0.db.rows && id != TEMPORARY_ID && s0.db.rows[id].account.isSuperAdmin;
      var events := TokenOutlivesFixedRecord(s0, id, name, token);
      assert !NoTokenOutlives(Run(s0, events));
    }
  }

  // ---------- an account's role ----------

  ghost predicate KeepsRole(s: State, id: string) {
    id in s.db.rows ==> RolesOf(s.db.bindings, id) != []
  }

  ghost predicate NotCompacting(p: Pending, id: string) {
    p.Compacting? ==> p.account.id != id
  }

  /** The account has one role, as long as it exists, and nobody is about to compact it. */
  ghost predicate Single(s: State, id: string) {
    && Basic(s) && id in s.used && id != TEMPORARY_ID
    && Bound(s.db.bindings, id) <= 1 && (id in s.db.rows ==> Bound(s.db.bindings, id) == 1)
    && NoneCompacts(s, id)
  }

  lemma PerformKeepsSingle(db: Db, write: Write, w: WriteDraw, id: string)
    requires SchemaOk(db) && |w.draw.ranks| == 1 && id in db.rows && Bound(db.bindings, id) == 1
    ensures var db' := Perform(db, write, w).0;
      id in db'.rows ==> Bound(db'.bindings, id) == 1
  {
    match write
    case PutUpdate(key, status, roleId) =>
      Atomicity.UpdateAllOrNothing(db, key, status, [roleId], w.draw, w.writeFault);
      NewBindingsAt(key, [roleId], w.draw.ranks);
    case PutReset(_, _) =>
    case PutDelete(key) => Atomicity.DeleteAllOrNothing(db, key, w.writeFault);
    case PutCreate(username, password, status, roleId) =>
      Atomicity.CreateAllOrNothing(db, w.draw, username, w.hash(password), status, [roleId], w.writeFault);
  }

  ghost predicate NoneCompacts(s: State, id: string) {
    forall r | r in s.pending :: NotCompacting(s.pending[r], id)
  }

  lemma FinishKeepsUncompacted(s: State, r: nat, purpose: Purpose, found: Lookup, id: string)
    requires NoneCompacts(s, id)
    ensures NoneCompacts(Finish(s, r, purpose, found), id)
  {
  }

  /** One role is never compacted. */
  lemma OneIsNotCompacted(bindings: seq<Binding>, id: string, dir: Directory)
    requires Bound(bindings, id) <= 1
    ensures !Choose(dir, RolesOf(bindings, id)).CompactTo?
  {
    RolesOfMembers(bindings, id, "");
  }

  lemma ReadRolesKeepsSingle(s: State, r: nat, dir: Directory, fails: bool, id: string)
    requires NoneCompacts(s, id) && Bound(s.db.bindings, id) <= 1 && r in s.pending && s.pending[r].Reading?
    ensures NoneCompacts(ReadRolesStep(s, r, s.pending[r].account, s.pending[r].purpose, dir, fails), id)
  {
    var Reading(account, purpose) := s.pending[r];
    var choice := Choose(dir, RolesOf(s.db.bindings, account.id));
    OneIsNotCompacted(s.db.bindings, id, dir);
    assert choice.CompactTo? ==> account.id != id;
    FinishKeepsUncompacted(s, r, purpose, if fails then LookupError else Settle(account, choice), id);
  }

  lemma ReadRowKeepsSingle(s: State, r: nat, fails: bool, id: string)
    requires NoneCompacts(s, id) && r in s.pending && s.pending[r].Asking?
    ensures NoneCompacts(ReadRowStep(s, r, s.pending[r].key, s.pending[r].purpose, fails), id)
  {
    FinishKeepsUncompacted(s, r, s.pending[r].purpose, if fails then LookupError else NoAccount, id);
  }

  lemma CompactKeepsSingle(s: State, r: nat, fails: bool, id: string)
    requires NoneCompacts(s, id) && r in s.pending && s.pending[r].Compacting?
    ensures var s' := CompactStep(s, r, s.pending[r].account, s.pending[r].roleId, s.pending[r].purpose, fails);
      NoneCompacts(s', id) && Bound(s'.db.bindings, id) == Bound(s.db.bindings, id)
  {
    var Compacting(account, roleId, purpose) := s.pending[r];
    assert NotCompacting(s.pending[r], id);
    KeepOnlyOthers(s.db.bindings, account.id, roleId, id);
    var compacted := s.(db := s.db.(bindings := KeepOnly(s.db.bindings, account.id, roleId)));
    FinishMovesOne(s, r, purpose, LookupError);
    FinishMovesOne(compacted, r, purpose, Found(account, [roleId]));
    FinishKeepsUncompacted(s, r, purpose, LookupError, id);
    FinishKeepsUncompacted(compacted, r, purpose, Found(account, [roleId]), id);
  }

  lemma LookupKeepsSingle(s: State, e: Event, id: string)
    requires Single(s, id) && Possible(s, e) && (e.ReadRow? || e.ReadRoles? || e.Compact?)
    ensures Bound(Step(s, e).db.bindings, id) == Bound(s.db.bindings, id)
    ensures NoneCompacts(Step(s, e), id)
  {
    if !e.Compact? { ReadersKeepDb(s, e); }
    match e
    case ReadRow(r, fails) => ReadRowKeepsSingle(s, r, fails, id);
    case ReadRoles(r, dir, fails) => ReadRolesKeepsSingle(s, r, dir, fails, id);
    case Compact(r, fails) => CompactKeepsSingle(s, r, fails, id);
  }

  lemma WriteKeepsSingle(s: State, e: Event, id: string)
    requires Single(s, id) && id in s.db.rows && Possible(s, e) && WritesDb(e)
    ensures id in Step(s, e).db.rows ==> Bound(Step(s, e).db.bindings, id) == 1
  {
    if e.Commit? {
      var write := s.pending[e.request].write;
      PerformKeepsSingle(s.db, write, e.w, id);
      assert Step(s, e).db == Perform(s.db, write, e.w).0;
    } else {
      UpkeepAdds(s, e);
    }
  }

  lemma WriteKeepsUncompacted(s: State, e: Event, id: string)
    requires NoneCompacts(s, id) && Possible(s, e) && WritesDb(e)
    ensures NoneCompacts(Step(s, e), id)
  {
    assert forall r | r in Step(s, e).pending :: r in s.pending && Step(s, e).pending[r] == s.pending[r];
  }

  lemma OtherKeepsUncompacted(s: State, e: Event, id: string)
    requires NoneCompacts(s, id) && Possible(s, e) && !WritesDb(e) && !e.ReadRow? && !e.ReadRoles? && !e.Compact?
    ensures NoneCompacts(Step(s, e), id)
  {
  }

  lemma StepKeepsSingle(s: State, e: Event, id: string)
    requires Single(s, id)
    ensures Single(Step(s, e), id)
  {
    StepKeepsBasic(s, e);
    StepKeepsTokens(s, e);
    if id !in s.db.rows { N.StepKeepsAbsent(s, e, id); }
    if Possible(s, e) {
      if e.ReadRow? || e.ReadRoles? || e.Compact? {
        LookupKeepsSingle(s, e, id);
        ReadersShrink(s, e);
      } else {
        if !WritesDb(e) {
          OtherKeepsUncompacted(s, e, id);
          ReadersKeepDb(s, e);
        } else {
          WriteKeepsUncompacted(s, e, id);
          if id in s.db.rows { WriteKeepsSingle(s, e, id); }
        }
      }
    }
  }

  lemma {:induction false} RunKeepsSingle(s: State, events: seq<Event>, id: string)
    requires Single(s, id)
    ensures Single(Run(s, events), id)
    decreases |events|
  {
    if events != [] {
      StepKeepsSingle(s, events[0], id);
      RunKeepsSingle(Step(s, events[0]), events[1..], id);
    }
  }

  lemma SingleKeepsRole(s0: State, events: seq<Event>, id: string)
    requires Started(s0) && id in s0.db.rows && id != TEMPORARY_ID && |RolesOf(s0.db.bindings, id)| == 1
    ensures KeepsRole(Run(s0, events), id)
  {
    RolesOfMembers(s0.db.bindings, id, "");
    RunKeepsSingle(s0, events, id);
    RolesOfMembers(Run(s0, events).db.bindings, id, "");
  }

  /** Beside an operator, an ordinary account with a nonblank role keeps a role for as long as it exists, in every run,
      if and only if it starts with a single one. */
  lemma RoleIsKeptIff(s0: State, id: string, operatorId: string)
    requires Started(s0) && CanOperate(s0.db, operatorId) && operatorId != id && id != TEMPORARY_ID
    requires id in s0.db.rows && !s0.db.rows[id].account.isSuperAdmin && ValidRecordId(id) && Usable(s0.db, id)
    ensures (forall events :: KeepsRole(Run(s0, events), id)) <==> |RolesOf(s0.db.bindings, id)| == 1
  {
    if |RolesOf(s0.db.bindings, id)| == 1 {
      forall events ensures KeepsRole(Run(s0, events), id) {
        SingleKeepsRole(s0, events, id);
      }
    } else {
      UsableIsBound(s0.db, id);
      var events := RaceLeavesNoRole(s0, id, operatorId);
      assert !KeepsRole(Run(s0, events), id);
    }
  }

  lemma UsableIsBound(db: Db, id: string)
    requires Usable(db, id)
    ensures RolesOf(db.bindings, id) != []
  {
    var b :| b in db.bindings && b.accountId == id && TrimSpace(b.roleId) != "";
    RolesOfMembers(db.bindings, id, b.roleId);
  }
}
