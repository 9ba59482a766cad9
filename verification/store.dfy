/** The account store: the two SQL tables and the two in-memory maps, and what each operation
    on them does. An SQL operation takes failAt, the position of its first failing statement;
    a position past the last statement means that none fails. */
module Store {
  import opened Text
  import opened RoleClient

  /** The ID of the temporary super administrator's record. */
  const TEMPORARY_ID := "00000000-0000-0000-0000-0000000000fe"

  datatype Account = Account(id: string, username: string, passwordHash: string, status: string,
                             isSuperAdmin: bool, createdAt: int, updatedAt: int)

  /** A row of account_accounts. */
  datatype Row = Row(account: Account, isTemporary: bool, expiresAt: Option<int>)

  /** A row of account_role_bindings; rank stands for its place in the order (created_at, id). */
  datatype Binding = Binding(rank: int, accountId: string, roleId: string)

  /** oneRolePerAccount: the migration has found no account with two roles and created the unique index. */
  datatype Db = Db(rows: map<string, Row>, bindings: seq<Binding>, oneRolePerAccount: bool)

  datatype Memory = Memory(accounts: map<string, Account>, roles: map<string, seq<string>>)

  datatype Store = Sql(db: Db) | Mem(memory: Memory)

  /** What the environment draws for a new record: its ID, the clock and the order of new bindings. */
  datatype Draw = Draw(id: string, now: int, ranks: seq<int>)

  datatype Reply = StoreError | Absent | Stored(account: Account, roleIds: seq<string>)

  // ---------- bindings ----------

  function BindingsOf(bindings: seq<Binding>, accountId: string): seq<Binding> {
    if bindings == [] then []
    else (if bindings[0].accountId == accountId then [bindings[0]] else []) + BindingsOf(bindings[1..], accountId)
  }

  function InsertByRank(sorted: seq<Binding>, b: Binding): seq<Binding> {
    if sorted == [] || b.rank < sorted[0].rank then [b] + sorted
    else [sorted[0]] + InsertByRank(sorted[1..], b)
  }

  function SortByRank(bindings: seq<Binding>): seq<Binding> {
    if bindings == [] then []
    else InsertByRank(SortByRank(bindings[..|bindings| - 1]), bindings[|bindings| - 1])
  }

  function RoleColumn(bindings: seq<Binding>): seq<string> {
    if bindings == [] then [] else [bindings[0].roleId] + RoleColumn(bindings[1..])
  }

  /** SELECT role_id ... WHERE account_id = accountId ORDER BY created_at, id. */
  function RolesOf(bindings: seq<Binding>, accountId: string): seq<string> {
    RoleColumn(SortByRank(BindingsOf(bindings, accountId)))
  }

  /** DELETE ... WHERE account_id = accountId. */
  function Without(bindings: seq<Binding>, accountId: string): seq<Binding> {
    if bindings == [] then []
    else (if bindings[0].accountId == accountId then [] else [bindings[0]]) + Without(bindings[1..], accountId)
  }

  /** DELETE ... WHERE account_id = accountId AND role_id <> roleId. */
  function KeepOnly(bindings: seq<Binding>, accountId: string, roleId: string): seq<Binding> {
    if bindings == [] then []
    else
      (if bindings[0].accountId == accountId && bindings[0].roleId != roleId then [] else [bindings[0]])
      + KeepOnly(bindings[1..], accountId, roleId)
  }

  /** INSERT of one binding, with the foreign key, the (account_id, role_id) key and the optional index. */
  function InsertBinding(db: Db, b: Binding): Option<Db> {
    if || b.accountId !in db.rows
       || (exists c | c in db.bindings :: c.accountId == b.accountId && c.roleId == b.roleId)
       || (db.oneRolePerAccount && exists c | c in db.bindings :: c.accountId == b.accountId)
    then None
    else Some(db.(bindings := db.bindings + [b]))
  }

  /** The INSERTs of replaceAccountRolesTx, the first of them at position stmt. */
  function InsertBindings(work: Db, accountId: string, roleIds: seq<string>, ranks: seq<int>, failAt: nat,
                          stmt: nat): Option<Db>
    requires |ranks| == |roleIds|
    decreases roleIds
  {
    if roleIds == [] then Some(work)
    else if failAt == stmt then None
    else match InsertBinding(work, Binding(ranks[0], accountId, roleIds[0]))
      case None => None
      case Some(next) => InsertBindings(next, accountId, roleIds[1..], ranks[1..], failAt, stmt + 1)
  }

  function ReplaceRoles(work: Db, accountId: string, roleIds: seq<string>, ranks: seq<int>, failAt: nat,
                        stmt: nat): Option<Db>
    requires |ranks| == |roleIds|
  {
    if failAt == stmt then None
    else InsertBindings(work.(bindings := Without(work.bindings, accountId)), accountId,
                       roleIds, ranks, failAt, stmt + 1)
  }

  // ---------- SQL operations ----------

  predicate NameTaken(rows: map<string, Row>, username: string, exceptId: string) {
    exists id | id in rows :: id != exceptId && rows[id].account.username == username
  }

  /** createAccount: begin, insert the row, replace the bindings, commit. */
  function SqlCreate(db: Db, draw: Draw, username: string, hash: string, status: string, roleIds: seq<string>,
                     failAt: nat): (Db, Reply)
    requires |draw.ranks| == |roleIds|
  {
    if failAt <= 1 || draw.id in db.rows || NameTaken(db.rows, username, draw.id) then (db, StoreError)
    else
      var account := Account(draw.id, username, hash, status, false, draw.now, draw.now);
      match ReplaceRoles(db.(rows := db.rows[draw.id := Row(account, false, None)]), draw.id, roleIds,
                         draw.ranks, failAt, 2)
      case None => (db, StoreError)
      case Some(work) => if failAt == 3 + |roleIds| then (db, StoreError) else (work, Stored(account, roleIds))
  }

  /** updateAccount: begin, update the row, replace the bindings, commit. */
  function SqlUpdate(db: Db, id: string, status: string, roleIds: seq<string>, draw: Draw, failAt: nat): (Db, Reply)
    requires |draw.ranks| == |roleIds|
  {
    if failAt <= 1 then (db, StoreError)
    else if id !in db.rows then (db, Absent)
    else
      var account := db.rows[id].account.(status := status, updatedAt := draw.now);
      match ReplaceRoles(db.(rows := db.rows[id := db.rows[id].(account := account)]), account.id, roleIds,
                         draw.ranks, failAt, 2)
      case None => (db, StoreError)
      case Some(work) => if failAt == 3 + |roleIds| then (db, StoreError) else (work, Stored(account, roleIds))
  }

  /** resetPassword: one UPDATE. */
  function SqlReset(db: Db, id: string, hash: string, now: int, failAt: nat): (Db, Reply) {
    if failAt == 0 then (db, StoreError)
    else if id !in db.rows then (db, Absent)
    else
      var account := db.rows[id].account.(passwordHash := hash, updatedAt := now);
      (db.(rows := db.rows[id := db.rows[id].(account := account)]), Stored(account, []))
  }

  datatype DeleteReply = DeleteError | NothingDeleted | Deleted

  /** deleteAccount: begin, delete the bindings, delete the row, count, commit. */
  function SqlDelete(db: Db, rawId: string, failAt: nat): (Db, DeleteReply) {
    var id := TrimSpace(rawId);
    if failAt <= 3 then (db, DeleteError)
    else if id !in db.rows then (db, NothingDeleted)
    else if failAt == 4 then (db, DeleteError)
    else (db.(rows := db.rows - {id}, bindings := Without(db.bindings, id)), Deleted)
  }

  /** createTemporaryAdmin: one upsert of the fixed row. Returns whether it succeeded. */
  function SqlGenerate(db: Db, username: string, hash: string, expiresAt: int, now: int, failAt: nat): (Db, bool) {
    if failAt == 0 || NameTaken(db.rows, username, TEMPORARY_ID) then (db, false)
    else
      var createdAt := if TEMPORARY_ID in db.rows then db.rows[TEMPORARY_ID].account.createdAt else now;
      var account := Account(TEMPORARY_ID, username, hash, "enabled", true, createdAt, now);
      (db.(rows := db.rows[TEMPORARY_ID := Row(account, true, Some(expiresAt))]), true)
  }

  predicate IsExpired(row: Row, now: int) {
    row.isTemporary && row.account.status == "enabled" && row.expiresAt.Some? && row.expiresAt.value < now
  }

  /** One successful scan of the expiry worker. */
  function SqlTick(db: Db, now: int): Db {
    db.(rows := map id | id in db.rows ::
      if IsExpired(db.rows[id], now)
        then db.rows[id].(account := db.rows[id].account.(status := "disabled", updatedAt := now))
        else db.rows[id])
  }

  // ---------- memory operations ----------

  function RolesIn(roles: map<string, seq<string>>, id: string): seq<string> {
    if id in roles then roles[id] else []
  }

  function MemCreate(m: Memory, draw: Draw, username: string, hash: string, status: string,
                     roleIds: seq<string>): (Memory, Reply) {
    var account := Account(draw.id, username, hash, status, false, draw.now, draw.now);
    (Memory(m.accounts[draw.id := account], m.roles[draw.id := roleIds]), Stored(account, roleIds))
  }

  function MemUpdate(m: Memory, id: string, status: string, roleIds: seq<string>, now: int): (Memory, Reply) {
    if id !in m.accounts then (m, Absent)
    else
      var account := m.accounts[id].(status := status, updatedAt := now);
      (Memory(m.accounts[account.id := account], m.roles[account.id := roleIds]), Stored(account, roleIds))
  }

  function MemReset(m: Memory, id: string, hash: string, now: int): (Memory, Reply) {
    if id !in m.accounts then (m, Absent)
    else
      var account := m.accounts[id].(passwordHash := hash, updatedAt := now);
      (m.(accounts := m.accounts[account.id := account]), Stored(account, []))
  }

  function MemDelete(m: Memory, rawId: string): (Memory, DeleteReply) {
    var id := TrimSpace(rawId);
    if id !in m.accounts then (m, NothingDeleted)
    else (Memory(m.accounts - {id}, m.roles - {id}), Deleted)
  }

  // ---------- normalisation of an account's roles ----------

  /** What normalizeAccountRoles decides: the only role as it stands, the role to compact to, no usable role,
      or a failed question. */
  datatype Choice = Only(roleId: string) | CompactTo(roleId: string) | NoUsableRole | OracleFailed

  function FirstEnabled(dir: Directory, roleIds: seq<string>): Choice {
    if roleIds == [] then NoUsableRole
    else
      var roleId := TrimSpace(roleIds[0]);
      if roleId == "" then FirstEnabled(dir, roleIds[1..])
      else match RoleStanding(dir, roleId)
        case Unknown => OracleFailed
        case Standing(status) => if status == "enabled" then CompactTo(roleId) else FirstEnabled(dir, roleIds[1..])
  }

  function Choose(dir: Directory, roleIds: seq<string>): Choice {
    if |roleIds| <= 1 then
      if |roleIds| == 1 && TrimSpace(roleIds[0]) != "" then Only(TrimSpace(roleIds[0])) else NoUsableRole
    else FirstEnabled(dir, roleIds)
  }

  /** A role is passed over: it is blank, or it has a status other than enabled. */
  predicate PassedOver(dir: Directory, roleId: string) {
    TrimSpace(roleId) == ""
    || (RoleStanding(dir, TrimSpace(roleId)).Standing? && !Enabled(dir, TrimSpace(roleId)))
  }

  /** Several roles are normalised to the first nonblank enabled one, unless a question fails before it. */
  lemma {:induction false} FirstEnabledMeaning(dir: Directory, roleIds: seq<string>) returns (k: nat)
    ensures k <= |roleIds| && forall i | 0 <= i < k :: PassedOver(dir, roleIds[i])
    ensures k == |roleIds| <==> FirstEnabled(dir, roleIds) == NoUsableRole
    ensures k < |roleIds| ==>
      var roleId := TrimSpace(roleIds[k]);
      && roleId != ""
      && FirstEnabled(dir, roleIds) == (if Enabled(dir, roleId) then CompactTo(roleId) else OracleFailed)
      && (!Enabled(dir, roleId) ==> RoleStanding(dir, roleId).Unknown?)
  {
    k := 0;
    if roleIds != [] && PassedOver(dir, roleIds[0]) {
      var rest := FirstEnabledMeaning(dir, roleIds[1..]);
      k := rest + 1;
    }
  }

  // ---------- lookups, which may compact ----------

  datatype Lookup =
    | LookupError
    | NoAccount
    | NoValidRole(account: Account)
    | Found(account: Account, roleIds: seq<string>)

  /** A super administrator needs no role. */
  function Settle(account: Account, choice: Choice): Lookup {
    match choice
    case Only(roleId) => Found(account, [roleId])
    case CompactTo(roleId) => Found(account, [roleId])
    case NoUsableRole => if account.isSuperAdmin then Found(account, []) else NoValidRole(account)
    case OracleFailed => LookupError
  }

  /** The part shared by both lookups, after the row is read at position 0: roles at 1, compaction at 2. */
  function SqlRoles(db: Db, account: Account, dir: Directory, failAt: nat): (Db, Lookup) {
    if failAt == 1 then (db, LookupError)
    else
      var choice := Choose(dir, RolesOf(db.bindings, account.id));
      if choice.CompactTo? then
        if failAt == 2 then (db, LookupError)
        else (db.(bindings := KeepOnly(db.bindings, account.id, choice.roleId)), Settle(account, choice))
      else (db, Settle(account, choice))
  }

  function SqlGetById(db: Db, rawId: string, dir: Directory, failAt: nat): (Db, Lookup) {
    var id := TrimSpace(rawId);
    if failAt == 0 then (db, LookupError)
    else if id !in db.rows then (db, NoAccount)
    else SqlRoles(db, db.rows[id].account, dir, failAt)
  }

  function MemRoles(m: Memory, account: Account, roleIds: seq<string>, dir: Directory): (Memory, Lookup) {
    var choice := Choose(dir, roleIds);
    if choice.CompactTo? then (m.(roles := m.roles[account.id := [choice.roleId]]), Settle(account, choice))
    else (m, Settle(account, choice))
  }

  function MemGetById(m: Memory, rawId: string, dir: Directory): (Memory, Lookup) {
    var id := TrimSpace(rawId);
    if id !in m.accounts then (m, NoAccount)
    else MemRoles(m, m.accounts[id], RolesIn(m.roles, id), dir)
  }

  function Accounts(rows: map<string, Row>): map<string, Account> {
    map id | id in rows :: rows[id].account
  }

  /** The key of an account with the name: the only one under UNIQUE (account), any one otherwise. */
  ghost function KeyOfName(accounts: map<string, Account>, username: string): (key: Option<string>)
    ensures key.Some? ==> key.value in accounts && accounts[key.value].username == username
    ensures key.None? ==> forall id | id in accounts :: accounts[id].username != username
  {
    if id :| id in accounts && accounts[id].username == username then Some(id) else None
  }

  ghost predicate NamesUnique(accounts: map<string, Account>) {
    forall i, j | i in accounts && j in accounts && accounts[i].username == accounts[j].username :: i == j
  }

  /** The lookup of the account that a name was found to belong to. */
  function SqlGetByKey(db: Db, key: Option<string>, dir: Directory, failAt: nat): (Db, Lookup)
    requires key.Some? ==> key.value in db.rows
  {
    if failAt == 0 then (db, LookupError)
    else match key
      case None => (db, NoAccount)
      case Some(id) => SqlRoles(db, db.rows[id].account, dir, failAt)
  }

  function MemGetByKey(m: Memory, key: Option<string>, dir: Directory): (Memory, Lookup)
    requires key.Some? ==> key.value in m.accounts
  {
    match key
    case None => (m, NoAccount)
    case Some(id) => MemRoles(m, m.accounts[id], RolesIn(m.roles, m.accounts[id].id), dir)
  }

  ghost function SqlGetByName(db: Db, username: string, dir: Directory, failAt: nat): (Db, Lookup) {
    SqlGetByKey(db, KeyOfName(Accounts(db.rows), username), dir, failAt)
  }

  ghost function MemGetByName(m: Memory, username: string, dir: Directory): (Memory, Lookup) {
    MemGetByKey(m, KeyOfName(m.accounts, username), dir)
  }

  // ---------- either backend ----------

  function GetById(store: Store, rawId: string, dir: Directory, failAt: nat): (result: (Store, Lookup))
    ensures result.0.Sql? == store.Sql?
  {
    match store
    case Sql(db) => var (db', found) := SqlGetById(db, rawId, dir, failAt); (Sql(db'), found)
    case Mem(m) => var (m', found) := MemGetById(m, rawId, dir); (Mem(m'), found)
  }

  function GetByKey(store: Store, key: Option<string>, dir: Directory, failAt: nat): (result: (Store, Lookup))
    requires key.Some? ==> key.value in AccountsOf(store)
    ensures result.0.Sql? == store.Sql?
  {
    match store
    case Sql(db) => var (db', found) := SqlGetByKey(db, key, dir, failAt); (Sql(db'), found)
    case Mem(m) => var (m', found) := MemGetByKey(m, key, dir); (Mem(m'), found)
  }

  ghost function GetByName(store: Store, username: string, dir: Directory, failAt: nat): (Store, Lookup) {
    GetByKey(store, KeyOfName(AccountsOf(store), username), dir, failAt)
  }

  function Create(store: Store, draw: Draw, username: string, hash: string, status: string, roleIds: seq<string>,
                  failAt: nat): (Store, Reply)
    requires |draw.ranks| == |roleIds|
  {
    match store
    case Sql(db) => var (db', reply) := SqlCreate(db, draw, username, hash, status, roleIds, failAt); (Sql(db'), reply)
    case Mem(m) => var (m', reply) := MemCreate(m, draw, username, hash, status, roleIds); (Mem(m'), reply)
  }

  function Update(store: Store, id: string, status: string, roleIds: seq<string>, draw: Draw, failAt: nat)
    : (Store, Reply)
    requires |draw.ranks| == |roleIds|
  {
    match store
    case Sql(db) => var (db', reply) := SqlUpdate(db, id, status, roleIds, draw, failAt); (Sql(db'), reply)
    case Mem(m) => var (m', reply) := MemUpdate(m, id, status, roleIds, draw.now); (Mem(m'), reply)
  }

  function Reset(store: Store, id: string, hash: string, now: int, failAt: nat): (Store, Reply) {
    match store
    case Sql(db) => var (db', reply) := SqlReset(db, id, hash, now, failAt); (Sql(db'), reply)
    case Mem(m) => var (m', reply) := MemReset(m, id, hash, now); (Mem(m'), reply)
  }

  function Delete(store: Store, rawId: string, failAt: nat): (Store, DeleteReply) {
    match store
    case Sql(db) => var (db', reply) := SqlDelete(db, rawId, failAt); (Sql(db'), reply)
    case Mem(m) => var (m', reply) := MemDelete(m, rawId); (Mem(m'), reply)
  }

  function AccountsOf(store: Store): map<string, Account> {
    match store
    case Sql(db) => Accounts(db.rows)
    case Mem(m) => m.accounts
  }

  // ---------- the tables as they are created ----------

  const SEED_NAME := "__temporary_super_admin_seed__"

  /** The row that every load inserts unless there is one with its ID. */
  function SeedRow(now: int): Row {
    Row(Account(TEMPORARY_ID, SEED_NAME, "", "disabled", true, now, now), true, None)
  }

  function InitialDb(oneRolePerAccount: bool, now: int): Db {
    Db(map[TEMPORARY_ID := SeedRow(now)], [], oneRolePerAccount)
  }

  /** The INSERT of the seed row; with its name taken it fails on the unique name. */
  function SqlAddSeed(db: Db, now: int): Db {
    if TEMPORARY_ID in db.rows || NameTaken(db.rows, SEED_NAME, TEMPORARY_ID) then db
    else db.(rows := db.rows[TEMPORARY_ID := SeedRow(now)])
  }

  /** The unique index on the account of a binding, created if no account has two. */
  function SqlAddIndex(db: Db): Db {
    if EachSingle(db.bindings) then db.(oneRolePerAccount := true) else db
  }

  predicate EachSingle(bindings: seq<Binding>) {
    forall b | b in bindings :: |BindingsOf(bindings, b.accountId)| <= 1
  }

  /** The roles stored for an account. */
  function StoredRoles(store: Store, id: string): seq<string> {
    match store
    case Sql(db) => RolesOf(db.bindings, id)
    case Mem(m) => RolesIn(m.roles, id)
  }
}
