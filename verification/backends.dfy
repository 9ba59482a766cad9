/** The memory backend and the SQL backend do the same: over any sequence of admissible operations they give the
    same results and end in related states, although one compaction overwrites and the other deletes the rest. The
    database also holds its seed row, which memory has not; operations on other accounts cannot tell. */
module Backends {
  import opened Text
  import opened RoleClient
  import opened Store
  import opened Schema

  datatype Op =
    | CreateOp(draw: Draw, username: string, hash: string, status: string, roleIds: seq<string>)
    | UpdateOp(id: string, status: string, roleIds: seq<string>, draw: Draw)
    | ResetOp(id: string, hash: string, now: int)
    | DeleteOp(id: string)
    | LookUpOp(id: string, dir: Directory)
    | LookUpNameOp(username: string, dir: Directory)
    | CompactOp(id: string, roleId: string)

  datatype Result = Replied(reply: Reply) | DeleteReplied(deleted: DeleteReply) | LookedUp(found: Lookup) | Compacted

  /** A statement position that no operation with these roles reaches. */
  function Never(roleIds: seq<string>): nat { 5 + |roleIds| }

  predicate Wellformed(op: Op) {
    match op
    case CreateOp(draw, _, _, _, roleIds) => |draw.ranks| == |roleIds|
    case UpdateOp(_, _, roleIds, draw) => |draw.ranks| == |roleIds|
    case _ => true
  }

  ghost function SqlStep(db: Db, op: Op): (Db, Result)
    requires Wellformed(op)
  {
    match op
    case CreateOp(draw, username, hash, status, roleIds) =>
      var (db', reply) := SqlCreate(db, draw, username, hash, status, roleIds, Never(roleIds)); (db', Replied(reply))
    case UpdateOp(id, status, roleIds, draw) =>
      var (db', reply) := SqlUpdate(db, id, status, roleIds, draw, Never(roleIds)); (db', Replied(reply))
    case ResetOp(id, hash, now) => var (db', reply) := SqlReset(db, id, hash, now, Never([])); (db', Replied(reply))
    case DeleteOp(id) => var (db', deleted) := SqlDelete(db, id, Never([])); (db', DeleteReplied(deleted))
    case LookUpOp(id, dir) => var (db', found) := SqlGetById(db, id, dir, Never([])); (db', LookedUp(found))
    case LookUpNameOp(username, dir) =>
      var (db', found) := SqlGetByName(db, username, dir, Never([])); (db', LookedUp(found))
    case CompactOp(id, roleId) => (db.(bindings := KeepOnly(db.bindings, id, roleId)), Compacted)
  }

  ghost function MemStep(m: Memory, op: Op): (Memory, Result) {
    match op
    case CreateOp(draw, username, hash, status, roleIds) =>
      var (m', reply) := MemCreate(m, draw, username, hash, status, roleIds); (m', Replied(reply))
    case UpdateOp(id, status, roleIds, draw) =>
      var (m', reply) := MemUpdate(m, id, status, roleIds, draw.now); (m', Replied(reply))
    case ResetOp(id, hash, now) => var (m', reply) := MemReset(m, id, hash, now); (m', Replied(reply))
    case DeleteOp(id) => var (m', deleted) := MemDelete(m, id); (m', DeleteReplied(deleted))
    case LookUpOp(id, dir) => var (m', found) := MemGetById(m, id, dir); (m', LookedUp(found))
    case LookUpNameOp(username, dir) => var (m', found) := MemGetByName(m, username, dir); (m', LookedUp(found))
    case CompactOp(id, roleId) => (m.(roles := m.roles[id := [roleId]]), Compacted)
  }

  /** The rows that memory has too: all but the fixed one. */
  function Shared(rows: map<string, Row>): map<string, Row> { rows - {TEMPORARY_ID} }

  /** The same accounts, and for each account the same roles in the same order. */
  ghost predicate Related(m: Memory, db: Db) {
    m.accounts == Accounts(Shared(db.rows)) && SameRoles(m.roles, Shared(db.rows).Keys, db.bindings)
  }

  ghost predicate SameRoles(roles: map<string, seq<string>>, ids: set<string>, bindings: seq<Binding>) {
    forall id | id in ids :: RolesIn(roles, id) == RolesOf(bindings, id)
  }

  predicate NoRepeats(roleIds: seq<string>) {
    forall i, j | 0 <= i < j < |roleIds| :: roleIds[i] != roleIds[j]
  }

  /** Role lists the two backends store alike. */
  ghost predicate GoodRoles(db: Db, roleIds: seq<string>, ranks: seq<int>) {
    && NoRepeats(roleIds)
    && (forall r | r in roleIds :: Trimmed(r))
    && (db.oneRolePerAccount ==> |roleIds| <= 1)
    && Ascending(ranks)
  }

  ghost predicate Admissible(db: Db, op: Op) {
    Wellformed(op) && LeavesSeed(db, op) && ChecksHold(db, op)
  }

  /** The operation is not about the fixed record. */
  ghost predicate LeavesSeed(db: Db, op: Op) {
    match op
    case CreateOp(draw, _, _, _, _) => draw.id != TEMPORARY_ID
    case UpdateOp(id, _, _, _) => id != TEMPORARY_ID
    case ResetOp(id, _, _) => id != TEMPORARY_ID
    case DeleteOp(id) => TrimSpace(id) != TEMPORARY_ID
    case LookUpOp(id, _) => TrimSpace(id) != TEMPORARY_ID
    case LookUpNameOp(username, _) => TEMPORARY_ID in db.rows ==> username != db.rows[TEMPORARY_ID].account.username
    case CompactOp(id, _) => id != TEMPORARY_ID
  }

  /** What the tables check and memory does not. */
  ghost predicate ChecksHold(db: Db, op: Op)
    requires Wellformed(op)
  {
    match op
    case CreateOp(draw, username, _, _, roleIds) =>
      draw.id !in db.rows && !NameTaken(db.rows, username, draw.id) && GoodRoles(db, roleIds, draw.ranks)
    case UpdateOp(id, _, roleIds, draw) => id in db.rows ==> GoodRoles(db, roleIds, draw.ranks)
    case CompactOp(id, roleId) => id in db.rows ==> roleId in RolesOf(db.bindings, id)
    case _ => true
  }

  // ---------- when the insertions go through ----------

  ghost predicate Insertable(work: Db, id: string, roleIds: seq<string>) {
    && NoRepeats(roleIds)
    && (forall b | b in work.bindings && b.accountId == id :: b.roleId !in roleIds)
    && (work.oneRolePerAccount && roleIds != [] ==>
          |roleIds| == 1 && forall b | b in work.bindings :: b.accountId != id)
  }

  lemma {:induction false} InsertionSucceedsIff(work: Db, id: string, roleIds: seq<string>, ranks: seq<int>,
                                                failAt: nat, stmt: nat)
    requires |ranks| == |roleIds| && id in work.rows && failAt >= stmt + |roleIds|
    ensures InsertBindings(work, id, roleIds, ranks, failAt, stmt).Some? <==> Insertable(work, id, roleIds)
    decreases roleIds
  {
    if roleIds != [] {
      var b := Binding(ranks[0], id, roleIds[0]);
      var rest := roleIds[1..];
      var next := InsertBinding(work, b);
      assert roleIds == [roleIds[0]] + rest;
      if next.Some? {
        InsertionSucceedsIff(next.value, id, rest, ranks[1..], failAt, stmt + 1);
        assert b in next.value.bindings;
        if Insertable(next.value, id, rest) {
          assert roleIds[0] !in rest;
          assert NoRepeats(roleIds);
        }
        if Insertable(work, id, roleIds) {
          assert NoRepeats(rest) by {
            assert forall i | 0 <= i < |rest| :: rest[i] == roleIds[i + 1];
          }
        }
      }
    }
  }

  lemma {:induction false} InsertionFails(work: Db, id: string, roleIds: seq<string>, ranks: seq<int>, failAt: nat,
                                          stmt: nat)
    requires |ranks| == |roleIds| && stmt <= failAt < stmt + |roleIds|
    ensures InsertBindings(work, id, roleIds, ranks, failAt, stmt) == None
    decreases roleIds
  {
    if failAt != stmt {
      var next := InsertBinding(work, Binding(ranks[0], id, roleIds[0]));
      if next.Some? { InsertionFails(next.value, id, roleIds[1..], ranks[1..], failAt, stmt + 1); }
    }
  }

  /** Statement 2 clears the bindings, and one statement for each role follows it. */
  lemma ReplacementSucceedsUnless(work: Db, id: string, roleIds: seq<string>, ranks: seq<int>, failAt: nat)
    requires |ranks| == |roleIds| && id in work.rows && failAt >= 2
    ensures ReplaceRoles(work, id, roleIds, ranks, failAt, 2).Some?
      <==> failAt > 2 + |roleIds| && NoRepeats(roleIds) && (work.oneRolePerAccount ==> |roleIds| <= 1)
  {
    var cleared := work.(bindings := Without(work.bindings, id));
    WithoutMembers(work.bindings, id);
    if failAt > 2 + |roleIds| {
      InsertionSucceedsIff(cleared, id, roleIds, ranks, failAt, 3);
    } else if failAt > 2 {
      InsertionFails(cleared, id, roleIds, ranks, failAt, 3);
    }
  }

  /** A create succeeds exactly when none of its statements fails, begin and commit among them, ID and name are free, no
      role repeats and the index is respected. */
  lemma CreateSucceedsIff(db: Db, draw: Draw, username: string, hash: string, status: string, roleIds: seq<string>,
                          failAt: nat)
    requires |draw.ranks| == |roleIds|
    ensures SqlCreate(db, draw, username, hash, status, roleIds, failAt).1.Stored?
      <==> && failAt > 3 + |roleIds| && draw.id !in db.rows
           && (forall id | id in db.rows :: db.rows[id].account.username != username)
           && NoRepeats(roleIds) && (db.oneRolePerAccount ==> |roleIds| <= 1)
  {
    var row := Row(Account(draw.id, username, hash, status, false, draw.now, draw.now), false, None);
    if failAt >= 2 {
      ReplacementSucceedsUnless(db.(rows := db.rows[draw.id := row]), draw.id, roleIds, draw.ranks, failAt);
    }
  }

  /** An update of an existing account likewise; an update of none finds it absent, unless it fails before. */
  lemma UpdateSucceedsIff(db: Db, id: string, status: string, roleIds: seq<string>, draw: Draw, failAt: nat)
    requires |draw.ranks| == |roleIds| && (id in db.rows ==> db.rows[id].account.id == id)
    ensures var reply := SqlUpdate(db, id, status, roleIds, draw, failAt).1;
      && (reply.Stored? <==> && failAt > 3 + |roleIds| && id in db.rows
                             && NoRepeats(roleIds) && (db.oneRolePerAccount ==> |roleIds| <= 1))
      && (reply.Absent? <==> failAt > 1 && id !in db.rows)
  {
    if failAt >= 2 && id in db.rows {
      var account := db.rows[id].account.(status := status, updatedAt := draw.now);
      var work := db.(rows := db.rows[id := db.rows[id].(account := account)]);
      ReplacementSucceedsUnless(work, id, roleIds, draw.ranks, failAt);
    }
  }

  /** A reset and a delete of an existing account succeed exactly when none of their statements fails. */
  lemma OthersSucceedIff(db: Db, id: string, hash: string, now: int, failAt: nat)
    ensures var reply := SqlReset(db, id, hash, now, failAt).1;
      (reply.Stored? <==> id in db.rows && failAt > 0) && (reply.Absent? <==> id !in db.rows && failAt > 0)
    ensures var reply := SqlDelete(db, id, failAt).1;
      && (reply.Deleted? <==> TrimSpace(id) in db.rows && failAt > 4)
      && (reply.NothingDeleted? <==> TrimSpace(id) !in db.rows && failAt > 3)
  {
  }

  lemma ReplacementSucceedsIff(work: Db, id: string, roleIds: seq<string>, ranks: seq<int>)
    requires |ranks| == |roleIds| && id in work.rows
    ensures ReplaceRoles(work, id, roleIds, ranks, Never(roleIds), 2).Some?
      <==> NoRepeats(roleIds) && (work.oneRolePerAccount ==> |roleIds| <= 1)
  {
    var cleared := work.(bindings := Without(work.bindings, id));
    WithoutMembers(work.bindings, id);
    InsertionSucceedsIff(cleared, id, roleIds, ranks, Never(roleIds), 3);
  }

  /** A create gives the same answer on both backends exactly when the ID and the name are free, no role repeats and
      the one-role index, if there is one, is respected: memory checks none of this. */
  lemma CreateAgreesIff(m: Memory, db: Db, draw: Draw, username: string, hash: string, status: string,
                        roleIds: seq<string>)
    requires |draw.ranks| == |roleIds|
    ensures SqlCreate(db, draw, username, hash, status, roleIds, Never(roleIds)).1
         == MemCreate(m, draw, username, hash, status, roleIds).1
      <==> && draw.id !in db.rows && !NameTaken(db.rows, username, draw.id)
           && NoRepeats(roleIds) && (db.oneRolePerAccount ==> |roleIds| <= 1)
  {
    var row := Row(Account(draw.id, username, hash, status, false, draw.now, draw.now), false, None);
    ReplacementSucceedsIff(db.(rows := db.rows[draw.id := row]), draw.id, roleIds, draw.ranks);
  }

  // ---------- one step ----------

  ghost predicate Simulates(m: Memory, db: Db, op: Op)
    requires Wellformed(op)
  {
    MemStep(m, op).1 == SqlStep(db, op).1 && Related(MemStep(m, op).0, SqlStep(db, op).0)
  }

  /** What a replacement of one account's roles does, given that its role list is good. */
  lemma ReplacementSimulates(m: Memory, db: Db, work: Db, id: string, roleIds: seq<string>, ranks: seq<int>)
    returns (done: Db)
    requires BindingsOk(db.bindings, db.rows.Keys, db.oneRolePerAccount)
    requires RolesTrimmed(db.bindings) && SameRoles(m.roles, Shared(db.rows).Keys, db.bindings) && id != TEMPORARY_ID
    requires |ranks| == |roleIds| && GoodRoles(db, roleIds, ranks)
    requires work.bindings == db.bindings && work.oneRolePerAccount == db.oneRolePerAccount
    requires work.rows.Keys == db.rows.Keys + {id}
    ensures ReplaceRoles(work, id, roleIds, ranks, Never(roleIds), 2) == Some(done)
    ensures done.rows == work.rows && RolesTrimmed(done.bindings)
    ensures SameRoles(m.roles[id := roleIds], Shared(work.rows).Keys, done.bindings)
  {
    ReplacementSucceedsIff(work, id, roleIds, ranks);
    ReplaceRolesEffect(work, id, roleIds, ranks, Never(roleIds), 2);
    done := ReplaceRoles(work, id, roleIds, ranks, Never(roleIds), 2).value;
    NewRolesInOrder(done.bindings, id, roleIds, ranks);
    ReplacementKeepsTrimmed(work.bindings, done.bindings, id, roleIds, ranks);
    forall other | other in Shared(work.rows)
      ensures RolesIn(m.roles[id := roleIds], other) == RolesOf(done.bindings, other)
    {
      if other != id {
        assert other in Shared(db.rows);
        assert RolesIn(m.roles, other) == RolesOf(db.bindings, other);
        assert BindingsOf(done.bindings, other) == BindingsOf(db.bindings, other);
      }
    }
  }

  lemma ReplacementKeepsTrimmed(bindings: seq<Binding>, done: seq<Binding>, id: string, roleIds: seq<string>,
                                ranks: seq<int>)
    requires RolesTrimmed(bindings) && |ranks| == |roleIds| && forall r | r in roleIds :: Trimmed(r)
    requires forall other | other != id :: BindingsOf(done, other) == BindingsOf(bindings, other)
    requires BindingsOf(done, id) == NewBindings(id, roleIds, ranks)
    ensures RolesTrimmed(done)
  {
    NewBindingsAt(id, roleIds, ranks);
    forall b | b in done ensures Trimmed(b.roleId) {
      BindingsOfMembers(done, b.accountId);
      BindingsOfMembers(bindings, b.accountId);
      assert b in BindingsOf(done, b.accountId);
    }
  }

  lemma SharedUpdated(rows: map<string, Row>, id: string, row: Row)
    requires id != TEMPORARY_ID
    ensures Accounts(Shared(rows[id := row])) == Accounts(Shared(rows))[id := row.account]
    ensures Shared(rows[id := row]).Keys == Shared(rows).Keys + {id}
  {
  }

  lemma SharedRemoved(rows: map<string, Row>, id: string)
    ensures Accounts(Shared(rows - {id})) == Accounts(Shared(rows)) - {id}
  {
  }

  lemma CreateSimulates(m: Memory, db: Db, op: Op)
    requires op.CreateOp? && Admissible(db, op)
    requires SchemaOk(db) && RolesTrimmed(db.bindings) && Related(m, db)
    ensures Simulates(m, db, op) && RolesTrimmed(SqlStep(db, op).0.bindings)
  {
    var CreateOp(draw, username, hash, status, roleIds) := op;
    var row := Row(Account(draw.id, username, hash, status, false, draw.now, draw.now), false, None);
    var done := ReplacementSimulates(m, db, db.(rows := db.rows[draw.id := row]), draw.id, roleIds, draw.ranks);
    SharedUpdated(db.rows, draw.id, row);
    assert SqlStep(db, op) == (done, Replied(Stored(row.account, roleIds)));
    assert MemStep(m, op) ==
      (Memory(m.accounts[draw.id := row.account], m.roles[draw.id := roleIds]), SqlStep(db, op).1);
  }

  lemma UpdateSimulates(m: Memory, db: Db, op: Op)
    requires op.UpdateOp? && Admissible(db, op)
    requires SchemaOk(db) && RolesTrimmed(db.bindings) && Related(m, db)
    ensures Simulates(m, db, op) && RolesTrimmed(SqlStep(db, op).0.bindings)
  {
    var UpdateOp(id, status, roleIds, draw) := op;
    if id in db.rows {
      var row := db.rows[id].(account := db.rows[id].account.(status := status, updatedAt := draw.now));
      var work := db.(rows := db.rows[id := row]);
      assert work.rows.Keys == db.rows.Keys + {id};
      var done := ReplacementSimulates(m, db, work, id, roleIds, draw.ranks);
      SharedUpdated(db.rows, id, row);
      assert SqlStep(db, op) == (done, Replied(Stored(row.account, roleIds)));
      assert MemStep(m, op) == (Memory(m.accounts[id := row.account], m.roles[id := roleIds]), SqlStep(db, op).1);
    }
  }

  lemma DeleteSimulates(m: Memory, db: Db, op: Op)
    requires op.DeleteOp? && Admissible(db, op)
    requires SchemaOk(db) && RolesTrimmed(db.bindings) && Related(m, db)
    ensures Simulates(m, db, op) && RolesTrimmed(SqlStep(db, op).0.bindings)
  {
    var id := TrimSpace(op.id);
    var (db', _) := SqlStep(db, op);
    var (m', _) := MemStep(m, op);
    WithoutMembers(db.bindings, id);
    if id in db.rows {
      forall other | other in Shared(db'.rows) ensures RolesOf(db'.bindings, other) == RolesIn(m'.roles, other) {
        WithoutOthers(db.bindings, id, other);
        assert other in Shared(db.rows);
      }
      SharedRemoved(db.rows, id);
    }
  }

  /** A read with its compaction: one backend overwrites the list, the other deletes the rest. */
  lemma ReadSimulates(m: Memory, db: Db, id: string, dir: Directory)
    requires SchemaOk(db) && RolesTrimmed(db.bindings) && Related(m, db) && id in Shared(db.rows)
    ensures var (db', found) := SqlRoles(db, db.rows[id].account, dir, Never([]));
            var (m', found') := MemRoles(m, m.accounts[id], RolesIn(m.roles, id), dir);
            found == found' && Related(m', db') && RolesTrimmed(db'.bindings)
  {
    var account, roleIds := db.rows[id].account, RolesOf(db.bindings, id);
    var choice := Choose(dir, roleIds);
    if choice.CompactTo? {
      ChosenIsStored(db.bindings, id, dir);
      CompactionSimulates(m.roles, Shared(db.rows).Keys, db.bindings, db.oneRolePerAccount, id, choice.roleId);
      assert SqlRoles(db, account, dir, Never([])).0 == db.(bindings := KeepOnly(db.bindings, id, choice.roleId));
      assert MemRoles(m, account, roleIds, dir).0 == m.(roles := m.roles[id := [choice.roleId]]);
    }
  }

  /** With trimmed roles, the role to compact to is one of the stored ones. */
  lemma ChosenIsStored(bindings: seq<Binding>, id: string, dir: Directory)
    requires RolesTrimmed(bindings)
    ensures var choice := Choose(dir, RolesOf(bindings, id));
      choice.CompactTo? ==> choice.roleId in RolesOf(bindings, id)
  {
    var roleIds := RolesOf(bindings, id);
    var k := FirstEnabledMeaning(dir, roleIds);
    if Choose(dir, roleIds).CompactTo? {
      RolesOfMembers(bindings, id, roleIds[k]);
      assert roleIds[k] in roleIds;
    }
  }

  lemma CompactionSimulates(roles: map<string, seq<string>>, ids: set<string>, bindings: seq<Binding>, one: bool,
                            id: string, roleId: string)
    requires PairsUnique(bindings, one) && RolesTrimmed(bindings) && SameRoles(roles, ids, bindings)
    requires roleId in RolesOf(bindings, id)
    ensures SameRoles(roles[id := [roleId]], ids, KeepOnly(bindings, id, roleId))
    ensures RolesTrimmed(KeepOnly(bindings, id, roleId))
  {
    KeepOnlyMembers(bindings, id, roleId);
    forall other | other in ids
      ensures RolesIn(roles[id := [roleId]], other) == RolesOf(KeepOnly(bindings, id, roleId), other)
    {
      if other == id {
        KeepOnlyOwn(bindings, id, roleId, one);
      } else {
        KeepOnlyOthers(bindings, id, roleId, other);
        assert RolesIn(roles, other) == RolesOf(bindings, other);
      }
    }
  }

  lemma StepSimulates(m: Memory, db: Db, op: Op)
    requires SchemaOk(db) && RolesTrimmed(db.bindings) && Related(m, db) && Admissible(db, op)
    ensures Simulates(m, db, op) && RolesTrimmed(SqlStep(db, op).0.bindings)
  {
    match op
    case CreateOp(_, _, _, _, _) => CreateSimulates(m, db, op);
    case UpdateOp(_, _, _, _) => UpdateSimulates(m, db, op);
    case ResetOp(_, _, _) => ResetSimulates(m, db, op);
    case DeleteOp(_) => DeleteSimulates(m, db, op);
    case LookUpOp(_, _) => LookUpSimulates(m, db, op);
    case LookUpNameOp(_, _) => LookUpSimulates(m, db, op);
    case CompactOp(_, _) => CompactSimulates(m, db, op);
  }

  lemma ResetSimulates(m: Memory, db: Db, op: Op)
    requires op.ResetOp? && Admissible(db, op)
    requires SchemaOk(db) && RolesTrimmed(db.bindings) && Related(m, db)
    ensures Simulates(m, db, op) && RolesTrimmed(SqlStep(db, op).0.bindings)
  {
    if op.id in db.rows {
      var row := db.rows[op.id].(account := db.rows[op.id].account.(passwordHash := op.hash, updatedAt := op.now));
      SharedUpdated(db.rows, op.id, row);
      assert SqlStep(db, op).0.rows == db.rows[op.id := row];
      assert MemStep(m, op).0.accounts == m.accounts[op.id := row.account];
    }
  }

  lemma CompactSimulates(m: Memory, db: Db, op: Op)
    requires op.CompactOp? && Admissible(db, op)
    requires SchemaOk(db) && RolesTrimmed(db.bindings) && Related(m, db)
    ensures Simulates(m, db, op) && RolesTrimmed(SqlStep(db, op).0.bindings)
  {
    var ids := Shared(db.rows).Keys;
    KeepOnlyMembers(db.bindings, op.id, op.roleId);
    if op.id in db.rows {
      CompactionSimulates(m.roles, ids, db.bindings, db.oneRolePerAccount, op.id, op.roleId);
    } else {
      forall other | other in ids
        ensures RolesIn(m.roles[op.id := [op.roleId]], other) == RolesOf(KeepOnly(db.bindings, op.id, op.roleId), other)
      {
        KeepOnlyOthers(db.bindings, op.id, op.roleId, other);
      }
    }
  }

  /** A compaction leaves the backends alike exactly when the chosen role is bound to the account. */
  lemma CompactionAgreesIff(m: Memory, db: Db, id: string, roleId: string)
    requires SchemaOk(db) && RolesTrimmed(db.bindings) && Related(m, db) && id in Shared(db.rows)
    ensures Simulates(m, db, CompactOp(id, roleId)) <==> roleId in RolesOf(db.bindings, id)
  {
    var op := CompactOp(id, roleId);
    if roleId in RolesOf(db.bindings, id) {
      CompactSimulates(m, db, op);
    } else {
      KeepOnlyOwn(db.bindings, id, roleId, db.oneRolePerAccount);
      var m', db' := MemStep(m, op).0, SqlStep(db, op).0;
      assert RolesIn(m'.roles, id) == [roleId] && RolesOf(db'.bindings, id) == [];
      assert id in Shared(db'.rows);
    }
  }

  lemma LookUpSimulates(m: Memory, db: Db, op: Op)
    requires (op.LookUpOp? || op.LookUpNameOp?) && Admissible(db, op)
    requires SchemaOk(db) && RolesTrimmed(db.bindings) && Related(m, db)
    ensures Simulates(m, db, op) && RolesTrimmed(SqlStep(db, op).0.bindings)
  {
    if op.LookUpOp? {
      if TrimSpace(op.id) in db.rows { ReadSimulates(m, db, TrimSpace(op.id), op.dir); }
    } else {
      SameKey(m, db, op.username);
      var key := KeyOfName(m.accounts, op.username);
      if key.Some? { ReadSimulates(m, db, key.value, op.dir); }
    }
  }

  /** A name other than the fixed record's has the same key on both sides. */
  lemma SameKey(m: Memory, db: Db, username: string)
    requires SchemaOk(db) && Related(m, db)
    requires TEMPORARY_ID in db.rows ==> username != db.rows[TEMPORARY_ID].account.username
    ensures KeyOfName(m.accounts, username) == KeyOfName(Accounts(db.rows), username)
  {
    var ours, theirs := KeyOfName(m.accounts, username), KeyOfName(Accounts(db.rows), username);
    if theirs.Some? {
      assert theirs.value in m.accounts && m.accounts[theirs.value] == Accounts(db.rows)[theirs.value];
    }
    if ours.Some? {
      assert ours.value in Accounts(db.rows) && Accounts(db.rows)[ours.value] == m.accounts[ours.value];
    }
  }

  /** A lookup by ID tells the backends apart exactly when it asks for the fixed record and the database holds it. */
  lemma SeedIsSeenIff(m: Memory, db: Db, id: string, dir: Directory)
    requires SchemaOk(db) && RolesTrimmed(db.bindings) && Related(m, db)
    ensures MemStep(m, LookUpOp(id, dir)).1 != SqlStep(db, LookUpOp(id, dir)).1
      <==> TrimSpace(id) == TEMPORARY_ID && TEMPORARY_ID in db.rows
  {
    if TrimSpace(id) != TEMPORARY_ID {
      LookUpSimulates(m, db, LookUpOp(id, dir));
    }
  }

  lemma StepKeepsSchema(db: Db, op: Op)
    requires SchemaOk(db) && Wellformed(op)
    ensures SchemaOk(SqlStep(db, op).0)
  {
    match op
    case CreateOp(draw, username, hash, status, roleIds) =>
      CreateKeepsSchema(db, draw, username, hash, status, roleIds, Never(roleIds));
    case UpdateOp(id, status, roleIds, draw) => UpdateKeepsSchema(db, id, status, roleIds, draw, Never(roleIds));
    case ResetOp(id, hash, now) => ResetKeepsSchema(db, id, hash, now, Never([]));
    case DeleteOp(id) => DeleteKeepsSchema(db, id, Never([]));
    case LookUpOp(id, dir) =>
      if TrimSpace(id) in db.rows { RolesKeepSchema(db, db.rows[TrimSpace(id)].account, dir, Never([])); }
    case LookUpNameOp(username, dir) =>
      var key := KeyOfName(Accounts(db.rows), username);
      if key.Some? { RolesKeepSchema(db, db.rows[key.value].account, dir, Never([])); }
    case CompactOp(id, roleId) => KeepOnlyOk(db.bindings, id, roleId, db.rows.Keys, db.oneRolePerAccount);
  }

  // ---------- whole runs ----------

  ghost function SqlRun(db: Db, ops: seq<Op>): (Db, seq<Result>)
    requires forall op | op in ops :: Wellformed(op)
    decreases |ops|
  {
    if ops == [] then (db, [])
    else
      var (db', result) := SqlStep(db, ops[0]);
      var (end, results) := SqlRun(db', ops[1..]);
      (end, [result] + results)
  }

  ghost function MemRun(m: Memory, ops: seq<Op>): (Memory, seq<Result>)
    decreases |ops|
  {
    if ops == [] then (m, [])
    else
      var (m', result) := MemStep(m, ops[0]);
      var (end, results) := MemRun(m', ops[1..]);
      (end, [result] + results)
  }

  ghost predicate AdmissibleRun(db: Db, ops: seq<Op>)
    ensures AdmissibleRun(db, ops) ==> forall op | op in ops :: Wellformed(op)
    decreases |ops|
  {
    ops == [] || (Admissible(db, ops[0]) && AdmissibleRun(SqlStep(db, ops[0]).0, ops[1..]))
  }

  /** The two backends cannot be told apart by any admissible sequence of operations. */
  lemma {:induction false} BackendsAgree(m: Memory, db: Db, ops: seq<Op>)
    requires SchemaOk(db) && RolesTrimmed(db.bindings) && Related(m, db)
    requires AdmissibleRun(db, ops)
    ensures MemRun(m, ops).1 == SqlRun(db, ops).1
    ensures Related(MemRun(m, ops).0, SqlRun(db, ops).0)
    decreases |ops|
  {
    if ops != [] {
      StepKeepsSchema(db, ops[0]);
      StepSimulates(m, db, ops[0]);
      BackendsAgree(MemStep(m, ops[0]).0, SqlStep(db, ops[0]).0, ops[1..]);
    }
  }

  /** So from the start, when memory is empty and the database holds the seed row alone. */
  lemma BackendsAgreeFromStart(one: bool, now: int, ops: seq<Op>)
    requires AdmissibleRun(InitialDb(one, now), ops)
    ensures var m, db := Memory(map[], map[]), InitialDb(one, now);
      MemRun(m, ops).1 == SqlRun(db, ops).1 && Related(MemRun(m, ops).0, SqlRun(db, ops).0)
  {
    InitialIsOk(one, now);
    BackendsAgree(Memory(map[], map[]), InitialDb(one, now), ops);
  }

  lemma InitialIsOk(one: bool, now: int)
    ensures SchemaOk(InitialDb(one, now)) && RolesTrimmed(InitialDb(one, now).bindings)
    ensures Related(Memory(map[], map[]), InitialDb(one, now))
  {
    assert Shared(InitialDb(one, now).rows) == map[];
  }

  // ---------- reading twice ----------

  /** In SQL mode a second read, with any role answers, gives the same single role and changes nothing, exactly when
      the chosen role is stored as it is returned. A role stored with surrounding blanks is trimmed, and the
      compaction then deletes it too. */
  lemma SecondReadAgreesIff(db: Db, rawId: string, dir: Directory, later: Directory)
    requires SchemaOk(db)
    requires var found := SqlGetById(db, rawId, dir, Never([])).1; found.Found? && |found.roleIds| == 1
    ensures var (db', found) := SqlGetById(db, rawId, dir, Never([]));
            var stored := RolesOf(db.bindings, found.account.id);
            SqlGetById(db', rawId, later, Never([])) == (db', found) <==> |stored| == 1 || found.roleIds[0] in stored
  {
    var account := db.rows[TrimSpace(rawId)].account;
    var stored := RolesOf(db.bindings, account.id);
    var choice := Choose(dir, stored);
    var k := FirstEnabledMeaning(dir, stored);
    if choice.CompactTo? {
      var db' := db.(bindings := KeepOnly(db.bindings, account.id, choice.roleId));
      assert SqlGetById(db, rawId, dir, Never([])) == (db', Found(account, [choice.roleId]));
      KeepOnlyOwn(db.bindings, account.id, choice.roleId, db.oneRolePerAccount);
      ReadingOne(db', account, choice.roleId, later);
    } else {
      ReadingOne(db, account, choice.roleId, later);
    }
  }

  /** A read that finds one role, under some role answers, is repeated by the next read under others, which changes
      nothing. */
  ghost predicate ReadsAgree(db: Db, id: string, dir: Directory, later: Directory) {
    var (db', found) := SqlGetById(db, id, dir, Never([]));
    found.Found? && |found.roleIds| == 1 ==> SqlGetById(db', id, later, Never([])) == (db', found)
  }

  /** Every nonblank role is stored without white space around it, or its trimmed text is stored too. */
  predicate TrimmedAreStored(stored: seq<string>) {
    forall r | r in stored && TrimSpace(r) != "" :: TrimSpace(r) in stored
  }

  /** In SQL mode every two reads in a row agree, whatever the role module answers at each, if and only if the
      account has at most one binding or the trimmed text of each of its roles is stored. Otherwise a compaction
      deletes the role that it chose. */
  lemma ReadsAgreeIff(db: Db, id: string)
    requires SchemaOk(db) && id in db.rows && Trimmed(id)
    ensures var stored := RolesOf(db.bindings, id);
      (forall dir, later :: ReadsAgree(db, id, dir, later)) <==> |stored| <= 1 || TrimmedAreStored(stored)
  {
    var stored := RolesOf(db.bindings, id);
    if |stored| <= 1 || TrimmedAreStored(stored) {
      forall dir, later ensures ReadsAgree(db, id, dir, later) {
        StoredChoiceAgrees(db, id, dir, later);
      }
    } else {
      var r :| r in stored && TrimSpace(r) != "" && TrimSpace(r) !in stored;
      var dir := EnablingOnly(TrimSpace(r));
      UnstoredChoiceDisagrees(db, id, r);
      assert !ReadsAgree(db, id, dir, dir);
    }
  }

  lemma StoredChoiceAgrees(db: Db, id: string, dir: Directory, later: Directory)
    requires SchemaOk(db) && id in db.rows && Trimmed(id)
    requires |RolesOf(db.bindings, id)| <= 1 || TrimmedAreStored(RolesOf(db.bindings, id))
    ensures ReadsAgree(db, id, dir, later)
  {
    var stored := RolesOf(db.bindings, id);
    var found := SqlGetById(db, id, dir, Never([])).1;
    var k := FirstEnabledMeaning(dir, stored);
    if found.Found? && |found.roleIds| == 1 {
      SecondReadAgreesIff(db, id, dir, later);
      assert |stored| > 1 ==> stored[k] in stored && found.roleIds == [TrimSpace(stored[k])];
    }
  }

  /** A role module that knows one role, enabled. */
  function EnablingOnly(roleId: string): Directory {
    Directory(id => if id == roleId then Reply(0, Some(RoleDetail("enabled", "", []))) else Reply(2122, None),
              (_, _) => Unreachable)
  }

  lemma EnablesOnly(roleId: string, other: string)
    ensures RoleStanding(EnablingOnly(roleId), other) == Standing(if other == roleId then "enabled" else "missing")
  {
    assert Trimmed("enabled");
  }

  /** The role module enables only the trimmed text of r: the read compacts to it, and deletes all bindings. */
  lemma UnstoredChoiceDisagrees(db: Db, id: string, r: string)
    requires SchemaOk(db) && id in db.rows && Trimmed(id)
    requires var stored := RolesOf(db.bindings, id);
      |stored| > 1 && r in stored && TrimSpace(r) != "" && TrimSpace(r) !in stored
    ensures !ReadsAgree(db, id, EnablingOnly(TrimSpace(r)), EnablingOnly(TrimSpace(r)))
  {
    var account, stored, dir := db.rows[id].account, RolesOf(db.bindings, id), EnablingOnly(TrimSpace(r));
    var k := FirstEnabledMeaning(dir, stored);
    var i :| 0 <= i < |stored| && stored[i] == r;
    EnablesOnly(TrimSpace(r), TrimSpace(r));
    assert !PassedOver(dir, stored[i]);
    EnablesOnly(TrimSpace(r), TrimSpace(stored[k]));
    assert SqlGetById(db, id, dir, Never([])).1 == Found(account, [TrimSpace(r)]);
    SecondReadAgreesIff(db, id, dir, dir);
  }

  /** The smallest case: an account bound to " r1" and to "r2". */
  function PaddedDb(id: string): Db {
    Db(map[id := Row(Account(id, "name", "", "enabled", false, 0, 0), false, None)],
       [Binding(0, id, " r1"), Binding(1, id, "r2")], false)
  }

  /** Read while r1 is enabled, it has the role r1; read again, it has none. */
  lemma PaddedRoleIsLost(id: string)
    requires Trimmed(id)
    ensures var db, dir := PaddedDb(id), EnablingOnly("r1");
      var (db', found) := SqlGetById(db, id, dir, Never([]));
      && SchemaOk(db) && RolesOf(db.bindings, id) == [" r1", "r2"]
      && found == Found(db.rows[id].account, ["r1"])
      && SqlGetById(db', id, dir, Never([])).1 == NoValidRole(db.rows[id].account)
  {
    PaddedRoles(id);
    PaddedRead(PaddedDb(id), id);
  }

  lemma PaddedRead(db: Db, id: string)
    requires SchemaOk(db) && id in db.rows && TrimSpace(id) == id && RolesOf(db.bindings, id) == [" r1", "r2"]
    requires !db.rows[id].account.isSuperAdmin
    ensures var dir := EnablingOnly("r1");
      var (db', found) := SqlGetById(db, id, dir, Never([]));
      && found == Found(db.rows[id].account, ["r1"])
      && SqlGetById(db', id, dir, Never([])).1 == NoValidRole(db.rows[id].account)
  {
    var dir := EnablingOnly("r1");
    PaddedChoice(dir);
    PaddedTexts();
    KeepOnlyOwn(db.bindings, id, "r1", db.oneRolePerAccount);
    assert Choose(dir, []) == NoUsableRole;
  }

  lemma PaddedChoice(dir: Directory)
    requires dir == EnablingOnly("r1")
    ensures Choose(dir, [" r1", "r2"]) == CompactTo("r1")
  {
    PaddedTexts();
    EnablesOnly("r1", "r1");
  }

  lemma PaddedTexts()
    ensures TrimSpace(" r1") == "r1" && "r1" !in [" r1", "r2"] && " r1" != "r2"
  {
    var r := " r1";
    assert r[1..] == "r1";
    assert TrimLeft(r) == TrimLeft("r1") == "r1";
    assert "r2"[1] == '2' && "r1"[1] == '1' && |" r1"| == 3 && |"r1"| == 2;
  }

  lemma PaddedRoles(id: string)
    ensures SchemaOk(PaddedDb(id)) && RolesOf(PaddedDb(id).bindings, id) == [" r1", "r2"]
  {
    var c := Binding(1, id, "r2");
    assert PaddedDb(id).bindings[1..] == [c] && [c][1..] == [];
    assert " r1" != "r2" by { PaddedTexts(); }
    TwoBindings(id, " r1", "r2");
  }

  lemma TwoBindings(id: string, first: string, second: string)
    ensures RolesOf([Binding(0, id, first), Binding(1, id, second)], id) == [first, second]
  {
    var b, c := Binding(0, id, first), Binding(1, id, second);
    assert [b, c][1..] == [c] && [c][1..] == [];
    assert BindingsOf([c], id) == [c];
    assert BindingsOf([b, c], id) == [b, c];
    assert [b, c][..1] == [b] && [b][..0] == [];
    assert SortByRank([b]) == [b];
    assert SortByRank([b, c]) == InsertByRank([b], c) == [b, c];
    assert RoleColumn([b, c]) == [first] + RoleColumn([c]);
  }

  lemma ReadingOne(db: Db, account: Account, roleId: string, dir: Directory)
    requires roleId != "" && Trimmed(roleId)
    ensures RolesOf(db.bindings, account.id) == [roleId]
      ==> SqlRoles(db, account, dir, Never([])) == (db, Found(account, [roleId]))
    ensures RolesOf(db.bindings, account.id) == []
      ==> SqlRoles(db, account, dir, Never([])).1 != Found(account, [roleId])
  {
  }

  /** In memory mode it always does. */
  lemma SecondMemoryReadAgrees(m: Memory, rawId: string, dir: Directory, later: Directory)
    requires forall id | id in m.accounts :: m.accounts[id].id == id
    requires var found := MemGetById(m, rawId, dir).1; found.Found? && |found.roleIds| == 1
    ensures var (m', found) := MemGetById(m, rawId, dir);
            MemGetById(m', rawId, later) == (m', found)
            && (m' == m || RolesIn(m'.roles, found.account.id) == found.roleIds)
  {
    var id := TrimSpace(rawId);
    var choice := Choose(dir, RolesIn(m.roles, id));
    var k := FirstEnabledMeaning(dir, RolesIn(m.roles, id));
    if choice.CompactTo? {
      var (m', _) := MemGetById(m, rawId, dir);
      assert RolesIn(m'.roles, id) == [choice.roleId];
      assert Choose(later, [choice.roleId]) == Only(choice.roleId);
    }
  }
}
