/** What the tables' constraints guarantee, laws of the binding queries, and that every operation,
    wherever it fails, keeps the constraints. */
module Schema {
  import opened Text
  import opened RoleClient
  import opened Store

  /** Keys are record IDs, names are unique, bindings refer to accounts, and no (account, role) pair repeats. */
  ghost predicate SchemaOk(db: Db) {
    && (forall id | id in db.rows :: db.rows[id].account.id == id)
    && NamesUnique(Accounts(db.rows))
    && BindingsOk(db.bindings, db.rows.Keys, db.oneRolePerAccount)
  }

  ghost predicate BindingsOk(bindings: seq<Binding>, ids: set<string>, oneRolePerAccount: bool) {
    && (forall b | b in bindings :: b.accountId in ids)
    && PairsUnique(bindings, oneRolePerAccount)
  }

  /** UNIQUE (account_id, role_id), and UNIQUE (account_id) with the optional index. */
  ghost predicate PairsUnique(bindings: seq<Binding>, oneRolePerAccount: bool) {
    bindings == [] ||
        (NoClash(bindings[0], bindings[1..], oneRolePerAccount) && PairsUnique(bindings[1..], oneRolePerAccount))
  }

  ghost predicate NoClash(b: Binding, others: seq<Binding>, oneRolePerAccount: bool) {
    forall c | c in others && c.accountId == b.accountId :: c.roleId != b.roleId && !oneRolePerAccount
  }

  ghost predicate RolesTrimmed(bindings: seq<Binding>) {
    forall b | b in bindings :: Trimmed(b.roleId)
  }

  lemma AccountsRemoved(rows: map<string, Row>, id: string)
    ensures Accounts(rows - {id}) == Accounts(rows) - {id}
  {
  }

  lemma AccountsUpdated(rows: map<string, Row>, id: string, row: Row)
    ensures Accounts(rows[id := row]) == Accounts(rows)[id := row.account]
  {
  }

  /** The number of roles bound to an account. */
  function Bound(bindings: seq<Binding>, accountId: string): nat {
    |BindingsOf(bindings, accountId)|
  }

  // ---------- the queries ----------

  lemma {:induction false} BindingsOfAppend(a: seq<Binding>, b: seq<Binding>, id: string)
    ensures BindingsOf(a + b, id) == BindingsOf(a, id) + BindingsOf(b, id)
  {
    if a == [] {
      assert a + b == b;
    } else {
      var head := if a[0].accountId == id then [a[0]] else [];
      assert (a + b)[0] == a[0] && (a + b)[1..] == a[1..] + b;
      BindingsOfAppend(a[1..], b, id);
      assert head + (BindingsOf(a[1..], id) + BindingsOf(b, id)) == head + BindingsOf(a[1..], id) + BindingsOf(b, id);
    }
  }

  lemma {:induction false} BindingsOfMembers(bindings: seq<Binding>, id: string)
    ensures forall b :: b in BindingsOf(bindings, id) <==> b in bindings && b.accountId == id
    ensures |BindingsOf(bindings, id)| <= |bindings|
  {
    if bindings != [] {
      BindingsOfMembers(bindings[1..], id);
    }
  }

  lemma {:induction false} SortKeepsElements(bindings: seq<Binding>)
    ensures |SortByRank(bindings)| == |bindings|
    ensures forall b :: b in SortByRank(bindings) <==> b in bindings
  {
    if bindings != [] {
      var front, last := bindings[..|bindings| - 1], bindings[|bindings| - 1];
      SortKeepsElements(front);
      InsertKeepsElements(SortByRank(front), last);
      assert bindings == front + [last];
    }
  }

  lemma {:induction false} InsertKeepsElements(sorted: seq<Binding>, b: Binding)
    ensures |InsertByRank(sorted, b)| == |sorted| + 1
    ensures forall c :: c in InsertByRank(sorted, b) <==> c == b || c in sorted
  {
    if sorted != [] && b.rank >= sorted[0].rank {
      InsertKeepsElements(sorted[1..], b);
      assert sorted == [sorted[0]] + sorted[1..];
    }
  }

  lemma {:induction false} RoleColumnAt(bindings: seq<Binding>)
    ensures |RoleColumn(bindings)| == |bindings|
    ensures forall i | 0 <= i < |bindings| :: RoleColumn(bindings)[i] == bindings[i].roleId
  {
    if bindings != [] {
      RoleColumnAt(bindings[1..]);
    }
  }

  ghost predicate HasRole(bindings: seq<Binding>, id: string, roleId: string) {
    exists b | b in bindings :: b.accountId == id && b.roleId == roleId
  }

  /** The query returns exactly the bound roles, one entry per binding. */
  lemma RolesOfMembers(bindings: seq<Binding>, id: string, roleId: string)
    ensures |RolesOf(bindings, id)| == Bound(bindings, id)
    ensures roleId in RolesOf(bindings, id) <==> HasRole(bindings, id, roleId)
  {
    var mine := BindingsOf(bindings, id);
    BindingsOfMembers(bindings, id);
    SortKeepsElements(mine);
    RoleColumnAt(SortByRank(mine));
    if roleId in RolesOf(bindings, id) {
      var i :| 0 <= i < |mine| && RoleColumn(SortByRank(mine))[i] == roleId;
      var b := SortByRank(mine)[i];
      assert b in mine && b in bindings;
    }
    if b :| b in bindings && b.accountId == id && b.roleId == roleId {
      assert b in SortByRank(mine);
      var i :| 0 <= i < |mine| && SortByRank(mine)[i] == b;
      assert RoleColumn(SortByRank(mine))[i] == b.roleId;
    }
  }

  ghost predicate RanksAscend(bindings: seq<Binding>) {
    forall i, j | 0 <= i < j < |bindings| :: bindings[i].rank <= bindings[j].rank
  }

  lemma {:induction false} InsertAscends(sorted: seq<Binding>, b: Binding)
    requires RanksAscend(sorted)
    ensures RanksAscend(InsertByRank(sorted, b))
  {
    if sorted != [] && b.rank >= sorted[0].rank {
      InsertAscends(sorted[1..], b);
      InsertKeepsElements(sorted[1..], b);
      var rest := InsertByRank(sorted[1..], b);
      forall j | 0 <= j < |rest| ensures sorted[0].rank <= rest[j].rank {
        assert rest[j] in rest;
      }
    }
  }

  lemma {:induction false} InsertPermutes(sorted: seq<Binding>, b: Binding)
    ensures multiset(InsertByRank(sorted, b)) == multiset(sorted) + multiset{b}
  {
    if sorted != [] && b.rank >= sorted[0].rank {
      InsertPermutes(sorted[1..], b);
      assert sorted == [sorted[0]] + sorted[1..];
    }
  }

  lemma {:induction false} SortAscends(bindings: seq<Binding>)
    ensures RanksAscend(SortByRank(bindings)) && multiset(SortByRank(bindings)) == multiset(bindings)
  {
    if bindings != [] {
      var front, last := bindings[..|bindings| - 1], bindings[|bindings| - 1];
      SortAscends(front);
      InsertAscends(SortByRank(front), last);
      InsertPermutes(SortByRank(front), last);
      assert bindings == front + [last];
    }
  }

  /** The query reads the account's bindings, each once, by time and identifier. */
  lemma RolesAreOrdered(bindings: seq<Binding>, id: string) returns (mine: seq<Binding>)
    ensures multiset(mine) == multiset(BindingsOf(bindings, id)) && RanksAscend(mine)
    ensures |RolesOf(bindings, id)| == |mine|
    ensures forall i | 0 <= i < |mine| :: RolesOf(bindings, id)[i] == mine[i].roleId
  {
    mine := SortByRank(BindingsOf(bindings, id));
    SortAscends(BindingsOf(bindings, id));
    RoleColumnAt(mine);
  }

  // ---------- the deletions ----------

  lemma {:induction false} WithoutOthers(bindings: seq<Binding>, id: string, other: string)
    ensures BindingsOf(Without(bindings, id), other) == if other == id then [] else BindingsOf(bindings, other)
  {
    if bindings != [] {
      WithoutOthers(bindings[1..], id, other);
      var head := if bindings[0].accountId == id then [] else [bindings[0]];
      BindingsOfAppend(head, Without(bindings[1..], id), other);
    }
  }

  lemma {:induction false} KeepOnlyOthers(bindings: seq<Binding>, id: string, roleId: string, other: string)
    requires other != id
    ensures BindingsOf(KeepOnly(bindings, id, roleId), other) == BindingsOf(bindings, other)
  {
    if bindings != [] {
      KeepOnlyOthers(bindings[1..], id, roleId, other);
      var head := if bindings[0].accountId == id && bindings[0].roleId != roleId then [] else [bindings[0]];
      BindingsOfAppend(head, KeepOnly(bindings[1..], id, roleId), other);
    }
  }

  lemma {:induction false} KeepOnlyMembers(bindings: seq<Binding>, id: string, roleId: string)
    ensures forall b :: b in KeepOnly(bindings, id, roleId) <==>
        b in bindings && (b.accountId != id || b.roleId == roleId)
  {
    if bindings != [] {
      KeepOnlyMembers(bindings[1..], id, roleId);
    }
  }

  lemma {:induction false} WithoutMembers(bindings: seq<Binding>, id: string)
    ensures forall b :: b in Without(bindings, id) <==> b in bindings && b.accountId != id
  {
    if bindings != [] {
      WithoutMembers(bindings[1..], id);
    }
  }

  lemma {:induction false} WithoutUnique(bindings: seq<Binding>, id: string, one: bool)
    requires PairsUnique(bindings, one)
    ensures PairsUnique(Without(bindings, id), one)
  {
    if bindings != [] {
      WithoutUnique(bindings[1..], id, one);
      WithoutMembers(bindings[1..], id);
      var rest := Without(bindings[1..], id);
      assert Without(bindings, id) == if bindings[0].accountId == id then rest else [bindings[0]] + rest;
    }
  }

  lemma {:induction false} KeepOnlyUnique(bindings: seq<Binding>, id: string, roleId: string, one: bool)
    requires PairsUnique(bindings, one)
    ensures PairsUnique(KeepOnly(bindings, id, roleId), one)
  {
    if bindings != [] {
      KeepOnlyUnique(bindings[1..], id, roleId, one);
      KeepOnlyMembers(bindings[1..], id, roleId);
      var rest := KeepOnly(bindings[1..], id, roleId);
      assert KeepOnly(bindings, id, roleId)
          == if bindings[0].accountId == id && bindings[0].roleId != roleId then rest else [bindings[0]] + rest;
    }
  }

  lemma WithoutOk(bindings: seq<Binding>, id: string, ids: set<string>, one: bool)
    requires BindingsOk(bindings, ids, one)
    ensures BindingsOk(Without(bindings, id), ids, one) && BindingsOk(Without(bindings, id), ids - {id}, one)
  {
    WithoutMembers(bindings, id);
    WithoutUnique(bindings, id, one);
  }

  lemma KeepOnlyOk(bindings: seq<Binding>, id: string, roleId: string, ids: set<string>, one: bool)
    requires BindingsOk(bindings, ids, one)
    ensures BindingsOk(KeepOnly(bindings, id, roleId), ids, one)
  {
    KeepOnlyMembers(bindings, id, roleId);
    KeepOnlyUnique(bindings, id, roleId, one);
  }

  /** Compaction leaves the chosen role alone if it is bound, and nothing if it is not. */
  lemma KeepOnlyOwn(bindings: seq<Binding>, id: string, roleId: string, one: bool)
    requires PairsUnique(bindings, one)
    ensures RolesOf(KeepOnly(bindings, id, roleId), id) == if roleId in RolesOf(bindings, id) then [roleId] else []
  {
    var kept := KeepOnly(bindings, id, roleId);
    KeepOnlyMembers(bindings, id, roleId);
    RolesOfMembers(bindings, id, roleId);
    RolesOfMembers(kept, id, roleId);
    if roleId in RolesOf(bindings, id) {
      var b :| b in bindings && b.accountId == id && b.roleId == roleId;
      assert b in kept;
      KeepOnlyUnique(bindings, id, roleId, one);
      SingleRoleLeft(kept, id, roleId, one);
      assert roleId in RolesOf(kept, id) && |RolesOf(kept, id)| <= 1;
    } else {
      assert forall b | b in kept && b.accountId == id :: b in bindings && b.roleId == roleId;
      NoneBound(kept, id);
    }
  }

  lemma {:induction false} NoneBound(bindings: seq<Binding>, id: string)
    requires forall b | b in bindings :: b.accountId != id
    ensures BindingsOf(bindings, id) == []
  {
    if bindings != [] {
      NoneBound(bindings[1..], id);
    }
  }

  /** When every binding of an account has one role, there is at most one binding. */
  lemma {:induction false} SingleRoleLeft(bindings: seq<Binding>, id: string, roleId: string, one: bool)
    requires PairsUnique(bindings, one)
    requires forall b | b in bindings && b.accountId == id :: b.roleId == roleId
    ensures Bound(bindings, id) <= 1
  {
    if bindings != [] {
      var head, tail := bindings[0], bindings[1..];
      if head.accountId == id {
        NoneBound(tail, id);
      } else {
        SingleRoleLeft(tail, id, roleId, one);
      }
    }
  }

  /** No deletion adds a binding to any account. */
  lemma {:induction false} KeepOnlyShrinks(bindings: seq<Binding>, id: string, roleId: string, other: string)
    ensures Bound(KeepOnly(bindings, id, roleId), other) <= Bound(bindings, other)
  {
    if bindings != [] {
      KeepOnlyShrinks(bindings[1..], id, roleId, other);
      var head := if bindings[0].accountId == id && bindings[0].roleId != roleId then [] else [bindings[0]];
      BindingsOfAppend(head, KeepOnly(bindings[1..], id, roleId), other);
    }
  }

  // ---------- the insertions ----------

  lemma {:induction false} AppendUnique(bindings: seq<Binding>, b: Binding, one: bool)
    requires PairsUnique(bindings, one)
    requires forall c | c in bindings && c.accountId == b.accountId :: c.roleId != b.roleId && !one
    ensures PairsUnique(bindings + [b], one)
  {
    if bindings != [] {
      AppendUnique(bindings[1..], b, one);
      assert (bindings + [b])[1..] == bindings[1..] + [b];
    }
  }

  lemma InsertBindingOk(db: Db, b: Binding)
    requires BindingsOk(db.bindings, db.rows.Keys, db.oneRolePerAccount)
    ensures InsertBinding(db, b).Some? ==>
      BindingsOk(InsertBinding(db, b).value.bindings, db.rows.Keys, db.oneRolePerAccount)
  {
    if InsertBinding(db, b).Some? {
      AppendUnique(db.bindings, b, db.oneRolePerAccount);
    }
  }

  lemma {:induction false} InsertBindingsAppend(work: Db, id: string, roleIds: seq<string>, ranks: seq<int>,
                                                failAt: nat, stmt: nat)
    requires |ranks| == |roleIds|
    ensures var result := InsertBindings(work, id, roleIds, ranks, failAt, stmt);
      result.Some? ==> result.value == work.(bindings := work.bindings + NewBindings(id, roleIds, ranks))
    decreases roleIds
  {
    if roleIds == [] {
      assert work.bindings + [] == work.bindings;
    } else if failAt != stmt {
      var b := Binding(ranks[0], id, roleIds[0]);
      var next := InsertBinding(work, b);
      if next.Some? {
        InsertBindingsAppend(next.value, id, roleIds[1..], ranks[1..], failAt, stmt + 1);
        var rest := NewBindings(id, roleIds[1..], ranks[1..]);
        assert NewBindings(id, roleIds, ranks) == [b] + rest;
        assert (work.bindings + [b]) + rest == work.bindings + ([b] + rest);
      }
    }
  }

  lemma {:induction false} InsertBindingsOk(work: Db, id: string, roleIds: seq<string>, ranks: seq<int>, failAt: nat,
                                            stmt: nat)
    requires |ranks| == |roleIds|
    requires BindingsOk(work.bindings, work.rows.Keys, work.oneRolePerAccount)
    ensures var result := InsertBindings(work, id, roleIds, ranks, failAt, stmt);
      result.Some? ==> BindingsOk(result.value.bindings, work.rows.Keys, work.oneRolePerAccount)
    decreases roleIds
  {
    if roleIds != [] && failAt != stmt {
      var b := Binding(ranks[0], id, roleIds[0]);
      var next := InsertBinding(work, b);
      InsertBindingOk(work, b);
      if next.Some? {
        InsertBindingsOk(next.value, id, roleIds[1..], ranks[1..], failAt, stmt + 1);
      }
    }
  }

  function NewBindings(id: string, roleIds: seq<string>, ranks: seq<int>): seq<Binding>
    requires |ranks| == |roleIds|
  {
    if roleIds == [] then [] else [Binding(ranks[0], id, roleIds[0])] + NewBindings(id, roleIds[1..], ranks[1..])
  }

  lemma {:induction false} NewBindingsAt(id: string, roleIds: seq<string>, ranks: seq<int>)
    requires |ranks| == |roleIds|
    ensures |NewBindings(id, roleIds, ranks)| == |roleIds|
    ensures forall i | 0 <= i < |roleIds| :: NewBindings(id, roleIds, ranks)[i] == Binding(ranks[i], id, roleIds[i])
  {
    if roleIds != [] {
      NewBindingsAt(id, roleIds[1..], ranks[1..]);
    }
  }

  lemma {:induction false} NewBindingsOf(id: string, roleIds: seq<string>, ranks: seq<int>, other: string)
    requires |ranks| == |roleIds|
    ensures BindingsOf(NewBindings(id, roleIds, ranks), other) ==
        if other == id then NewBindings(id, roleIds, ranks) else []
  {
    if roleIds != [] {
      NewBindingsOf(id, roleIds[1..], ranks[1..], other);
    }
  }

  ghost predicate Ascending(ranks: seq<int>) {
    forall i, j | 0 <= i < j < |ranks| :: ranks[i] < ranks[j]
  }

  lemma {:induction false} SortAscending(bindings: seq<Binding>)
    requires forall i, j | 0 <= i < j < |bindings| :: bindings[i].rank <= bindings[j].rank
    ensures SortByRank(bindings) == bindings
  {
    if bindings != [] {
      var front, last := bindings[..|bindings| - 1], bindings[|bindings| - 1];
      SortAscending(front);
      InsertAtEnd(front, last);
      assert bindings == front + [last];
    }
  }

  lemma {:induction false} InsertAtEnd(sorted: seq<Binding>, b: Binding)
    requires forall i | 0 <= i < |sorted| :: sorted[i].rank <= b.rank
    ensures InsertByRank(sorted, b) == sorted + [b]
  {
    if sorted != [] {
      InsertAtEnd(sorted[1..], b);
      assert sorted == [sorted[0]] + sorted[1..];
    }
  }

  /** What a completed replacement of one account's roles looks like. */
  ghost predicate IsReplacement(work: Db, id: string, roleIds: seq<string>, ranks: seq<int>, done: Db)
    requires |ranks| == |roleIds|
  {
    && done.rows == work.rows && done.oneRolePerAccount == work.oneRolePerAccount
    && BindingsOk(done.bindings, done.rows.Keys, done.oneRolePerAccount)
    && (forall other | other != id :: BindingsOf(done.bindings, other) == BindingsOf(work.bindings, other))
    && BindingsOf(done.bindings, id) == NewBindings(id, roleIds, ranks)
  }

  lemma ReplaceRolesEffect(work: Db, id: string, roleIds: seq<string>, ranks: seq<int>, failAt: nat, stmt: nat)
    requires |ranks| == |roleIds|
    requires BindingsOk(work.bindings, work.rows.Keys, work.oneRolePerAccount)
    ensures var result := ReplaceRoles(work, id, roleIds, ranks, failAt, stmt);
      result.Some? ==> IsReplacement(work, id, roleIds, ranks, result.value)
  {
    var cleared := work.(bindings := Without(work.bindings, id));
    WithoutOk(work.bindings, id, work.rows.Keys, work.oneRolePerAccount);
    InsertBindingsAppend(cleared, id, roleIds, ranks, failAt, stmt + 1);
    InsertBindingsOk(cleared, id, roleIds, ranks, failAt, stmt + 1);
    forall other ensures BindingsOf(cleared.bindings + NewBindings(id, roleIds, ranks), other)
      == if other == id then NewBindings(id, roleIds, ranks) else BindingsOf(work.bindings, other)
    {
      ReplacedBindings(work.bindings, id, roleIds, ranks, other);
    }
  }

  lemma ReplacedBindings(bindings: seq<Binding>, id: string, roleIds: seq<string>, ranks: seq<int>, other: string)
    requires |ranks| == |roleIds|
    ensures BindingsOf(Without(bindings, id) + NewBindings(id, roleIds, ranks), other)
         == if other == id then NewBindings(id, roleIds, ranks) else BindingsOf(bindings, other)
  {
    BindingsOfAppend(Without(bindings, id), NewBindings(id, roleIds, ranks), other);
    WithoutOthers(bindings, id, other);
    NewBindingsOf(id, roleIds, ranks, other);
  }

  /** Bindings drawn in ascending order are read back in the list's order. */
  lemma NewRolesInOrder(bindings: seq<Binding>, id: string, roleIds: seq<string>, ranks: seq<int>)
    requires |ranks| == |roleIds| && Ascending(ranks)
    requires BindingsOf(bindings, id) == NewBindings(id, roleIds, ranks)
    ensures RolesOf(bindings, id) == roleIds
  {
    var added := NewBindings(id, roleIds, ranks);
    NewBindingsAt(id, roleIds, ranks);
    SortAscending(added);
    RoleColumnAt(added);
    assert RoleColumn(added) == roleIds;
  }

  // ---------- every operation keeps the schema ----------

  lemma UpdatedRowsKeepNames(rows: map<string, Row>, rows': map<string, Row>)
    requires forall id | id in rows :: rows[id].account.id == id
    requires NamesUnique(Accounts(rows))
    requires rows'.Keys <= rows.Keys
    requires forall id | id in rows' ::
      rows'[id].account.id == id && rows'[id].account.username == rows[id].account.username
    ensures NamesUnique(Accounts(rows'))
  {
    forall i, j | i in rows' && j in rows' && rows'[i].account.username == rows'[j].account.username ensures i == j {
      assert Accounts(rows)[i].username == Accounts(rows)[j].username;
    }
  }

  lemma InsertedRowKeepsNames(rows: map<string, Row>, row: Row)
    requires NamesUnique(Accounts(rows))
    requires !NameTaken(rows, row.account.username, row.account.id)
    ensures NamesUnique(Accounts(rows[row.account.id := row]))
  {
    var accounts := Accounts(rows[row.account.id := row]);
    forall i, j | i in accounts && j in accounts && accounts[i].username == accounts[j].username ensures i == j {
      if i != row.account.id && j != row.account.id {
        assert Accounts(rows)[i].username == Accounts(rows)[j].username;
      }
    }
  }

  lemma CreateKeepsSchema(db: Db, draw: Draw, username: string, hash: string, status: string, roleIds: seq<string>,
                          failAt: nat)
    requires SchemaOk(db) && |draw.ranks| == |roleIds|
    ensures SchemaOk(SqlCreate(db, draw, username, hash, status, roleIds, failAt).0)
  {
    var row := Row(Account(draw.id, username, hash, status, false, draw.now, draw.now), false, None);
    if draw.id !in db.rows && !NameTaken(db.rows, username, draw.id) {
      var work := db.(rows := db.rows[draw.id := row]);
      InsertedRowKeepsNames(db.rows, row);
      ReplaceRolesEffect(work, draw.id, roleIds, draw.ranks, failAt, 2);
    }
  }

  lemma UpdateKeepsSchema(db: Db, id: string, status: string, roleIds: seq<string>, draw: Draw, failAt: nat)
    requires SchemaOk(db) && |draw.ranks| == |roleIds|
    ensures SchemaOk(SqlUpdate(db, id, status, roleIds, draw, failAt).0)
  {
    if id in db.rows {
      var account := db.rows[id].account.(status := status, updatedAt := draw.now);
      var work := db.(rows := db.rows[id := db.rows[id].(account := account)]);
      UpdatedRowsKeepNames(db.rows, work.rows);
      assert work.rows.Keys == db.rows.Keys;
      ReplaceRolesEffect(work, id, roleIds, draw.ranks, failAt, 2);
    }
  }

  lemma ResetKeepsSchema(db: Db, id: string, hash: string, now: int, failAt: nat)
    requires SchemaOk(db)
    ensures SchemaOk(SqlReset(db, id, hash, now, failAt).0)
  {
    var db' := SqlReset(db, id, hash, now, failAt).0;
    UpdatedRowsKeepNames(db.rows, db'.rows);
    assert db'.rows.Keys == db.rows.Keys;
  }

  lemma DeleteKeepsSchema(db: Db, rawId: string, failAt: nat)
    requires SchemaOk(db)
    ensures SchemaOk(SqlDelete(db, rawId, failAt).0)
  {
    var db' := SqlDelete(db, rawId, failAt).0;
    UpdatedRowsKeepNames(db.rows, db'.rows);
    WithoutOk(db.bindings, TrimSpace(rawId), db.rows.Keys, db.oneRolePerAccount);
    assert db'.rows.Keys == db.rows.Keys || db'.rows.Keys == db.rows.Keys - {TrimSpace(rawId)};
  }

  lemma GenerateKeepsSchema(db: Db, username: string, hash: string, expiresAt: int, now: int, failAt: nat)
    requires SchemaOk(db)
    ensures SchemaOk(SqlGenerate(db, username, hash, expiresAt, now, failAt).0)
  {
    var db' := SqlGenerate(db, username, hash, expiresAt, now, failAt).0;
    if db' != db {
      InsertedRowKeepsNames(db.rows, db'.rows[TEMPORARY_ID]);
      assert db'.rows == db.rows[TEMPORARY_ID := db'.rows[TEMPORARY_ID]];
    }
  }

  lemma TickKeepsSchema(db: Db, now: int)
    requires SchemaOk(db)
    ensures SchemaOk(SqlTick(db, now))
  {
    UpdatedRowsKeepNames(db.rows, SqlTick(db, now).rows);
    assert SqlTick(db, now).rows.Keys == db.rows.Keys;
  }

  function DisabledRow(row: Row, now: int): Row {
    row.(account := row.account.(status := "disabled", updatedAt := now))
  }

  /** A scan disables a temporary record that is enabled past its expiry, and leaves any other row as it was. */
  predicate ScannedRow(row: Row, row': Row, now: int) {
    && (row.isTemporary && row.account.status == "enabled" && row.expiresAt.Some? && row.expiresAt.value < now ==>
          row' == DisabledRow(row, now))
    && (!row.isTemporary || row.account.status != "enabled" || row.expiresAt.None? || now <= row.expiresAt.value ==>
          row' == row)
  }

  lemma TickOnRow(db: Db, now: int, id: string)
    ensures var db' := SqlTick(db, now);
      && db'.rows.Keys == db.rows.Keys && db'.bindings == db.bindings && db'.oneRolePerAccount == db.oneRolePerAccount
      && (id in db.rows ==> ScannedRow(db.rows[id], db'.rows[id], now))
  {
  }

  /** What a creation leaves: the fixed row is an enabled temporary super administrator's for the next ten minutes,
      under the new name and password; every other row and all bindings are as they were. */
  ghost predicate IsGenerated(before: Db, after: Db, username: string, hash: string, now: int) {
    && TEMPORARY_ID in after.rows && after.rows - {TEMPORARY_ID} == before.rows - {TEMPORARY_ID}
    && after.bindings == before.bindings && after.oneRolePerAccount == before.oneRolePerAccount
    && var row := after.rows[TEMPORARY_ID];
       && row.isTemporary && row.account.isSuperAdmin && row.account.status == "enabled"
       && row.account.username == username && row.account.passwordHash == hash
       && row.expiresAt == Some(now + 600_000_000_000)
       && row.account.id == TEMPORARY_ID && row.account.updatedAt == now
       && row.account.createdAt
          == if TEMPORARY_ID in before.rows then before.rows[TEMPORARY_ID].account.createdAt else now
  }

  /** A creation succeeds exactly when its statement does and no other account has the name; otherwise it changes
      nothing. */
  lemma GenerateMeaning(db: Db, username: string, hash: string, now: int, failAt: nat)
    ensures var (db', ok) := SqlGenerate(db, username, hash, now + 600_000_000_000, now, failAt);
      && (ok <==> failAt > 0
                  && forall id | id in db.rows && id != TEMPORARY_ID :: db.rows[id].account.username != username)
      && if ok then IsGenerated(db, db', username, hash, now) else db' == db
  {
  }

  lemma AddSeedKeepsSchema(db: Db, now: int)
    requires SchemaOk(db)
    ensures SchemaOk(SqlAddSeed(db, now)) && SqlAddSeed(db, now).bindings == db.bindings
  {
    if SqlAddSeed(db, now) != db {
      InsertedRowKeepsNames(db.rows, SeedRow(now));
    }
  }

  lemma AddIndexKeepsSchema(db: Db)
    requires SchemaOk(db)
    ensures SchemaOk(SqlAddIndex(db)) && SqlAddIndex(db).rows == db.rows && SqlAddIndex(db).bindings == db.bindings
  {
    EachSingleMeaning(db.bindings);
    if EachSingle(db.bindings) { SingleBindingsUnique(db.bindings); }
  }

  lemma EachSingleMeaning(bindings: seq<Binding>)
    ensures EachSingle(bindings) <==> forall id :: Bound(bindings, id) <= 1
  {
    if EachSingle(bindings) {
      forall id ensures Bound(bindings, id) <= 1 {
        if forall b | b in bindings :: b.accountId != id { NoneBound(bindings, id); }
      }
    } else {
      var b :| b in bindings && |BindingsOf(bindings, b.accountId)| > 1;
      assert Bound(bindings, b.accountId) > 1;
    }
  }

  /** The index can be built where no account has two bindings. */
  lemma {:induction false} SingleBindingsUnique(bindings: seq<Binding>)
    requires forall id :: Bound(bindings, id) <= 1
    ensures PairsUnique(bindings, true)
  {
    if bindings != [] {
      var b, tail := bindings[0], bindings[1..];
      forall id ensures Bound(tail, id) <= 1 {
        assert Bound(bindings, id) <= 1;
      }
      SingleBindingsUnique(tail);
      assert Bound(bindings, b.accountId) <= 1;
      BindingsOfMembers(tail, b.accountId);
    }
  }

  lemma RolesKeepSchema(db: Db, account: Account, dir: Directory, failAt: nat)
    requires SchemaOk(db)
    ensures SchemaOk(SqlRoles(db, account, dir, failAt).0) && SqlRoles(db, account, dir, failAt).0.rows == db.rows
  {
    var choice := Choose(dir, RolesOf(db.bindings, account.id));
    if choice.CompactTo? {
      KeepOnlyOk(db.bindings, account.id, choice.roleId, db.rows.Keys, db.oneRolePerAccount);
    }
  }
}
