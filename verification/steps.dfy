/** The machine's steps of one request, taken in a row, do what its handler does: so what holds of every interleaving
    holds of the handlers. */
module Steps {
  import opened Text
  import opened RoleClient
  import opened Store
  import opened Handlers
  import opened Machine
  import Atomicity

  // ---------- short runs ----------

  lemma OneEvent(s: State, e: Event)
    ensures Run(s, [e]) == Step(s, e)
  {
    assert Run(Step(s, e), [e][1..]) == Step(s, e);
  }

  lemma ThreeEvents(s: State, a: Event, b: Event, c: Event)
    ensures Run(s, [a, b, c]) == Step(Step(Step(s, a), b), c)
  {
    assert [a, b, c][1..] == [b, c];
    OneEvent(s, a);
    TwoEvents(Step(s, a), b, c);
  }

  lemma TwoEvents(s: State, a: Event, b: Event)
    ensures Run(s, [a, b]) == Step(Step(s, a), b)
  {
    assert [a, b][1..] == [b];
    OneEvent(Step(s, a), b);
  }

  /** An event and two stretches of events. */
  lemma EventThenTwo(s: State, e: Event, a: seq<Event>, b: seq<Event>)
    ensures Run(s, [e] + (a + b)) == Run(Run(Step(s, e), a), b)
  {
    assert ([e] + (a + b))[0] == e && ([e] + (a + b))[1..] == a + b;
    RunAppend(Step(s, e), a, b);
  }

  // ---------- one lookup ----------

  ghost function Get(db: Db, key: Key, dir: Directory, fault: nat): (Db, Lookup) {
    match key
    case ById(id) => SqlGetById(db, id, dir, fault)
    case ByName(username) => SqlGetByName(db, username, dir, fault)
  }

  /** The statements of a lookup, the one at position fault failing. */
  function LookupEvents(r: nat, dir: Directory, fault: nat): seq<Event> {
    [ReadRow(r, fault == 0), ReadRoles(r, dir, fault == 1), Compact(r, fault == 2)]
  }

  /** No lookup is under way in the request. */
  predicate Idle(s: State, r: nat) {
    r in s.pending ==> !s.pending[r].Asking? && !s.pending[r].Reading? && !s.pending[r].Compacting?
  }

  lemma IdleStaysPut(s: State, r: nat, dir: Directory, fault: nat)
    requires Idle(s, r)
    ensures Run(s, LookupEvents(r, dir, fault)) == s
  {
    ThreeEvents(s, ReadRow(r, fault == 0), ReadRoles(r, dir, fault == 1), Compact(r, fault == 2));
  }

  /** What a request was doing when its lookup ends does not matter. */
  lemma FinishForgets(s: State, r: nat, p: Pending, purpose: Purpose, found: Lookup)
    ensures Finish(Put(s, r, p), r, purpose, found) == Finish(s, r, purpose, found)
  {
    MoveForgets(s, r, p, After(purpose, found));
  }

  lemma MoveForgets(s: State, r: nat, p: Pending, next: Option<Pending>)
    ensures Move(Put(s, r, p), r, next) == Move(s, r, next)
  {
    assert s.pending[r := p] - {r} == s.pending - {r};
    if next.Some? {
      assert s.pending[r := p][r := next.value] == s.pending[r := next.value];
    }
  }

  /** The end of a lookup is no statement in the middle of one. */
  lemma FinishEnds(s: State, r: nat, purpose: Purpose, found: Lookup)
    ensures var s' := Finish(s, r, purpose, found);
      r in s'.pending ==> !s'.pending[r].Reading? && !s'.pending[r].Compacting?
  {
  }

  lemma EndsStaysPut(s: State, r: nat, dir: Directory, fails: bool, fails': bool)
    requires r in s.pending ==> !s.pending[r].Reading? && !s.pending[r].Compacting?
    ensures Step(s, ReadRoles(r, dir, fails)) == s && Step(s, Compact(r, fails')) == s
  {
  }

  lemma RolesInTwoSteps(s: State, r: nat, account: Account, purpose: Purpose, dir: Directory, fault: nat)
    requires fault != 0 && r in s.pending && s.pending[r] == Reading(account, purpose)
    ensures var (db', found) := SqlRoles(s.db, account, dir, fault);
      Step(Step(s, ReadRoles(r, dir, fault == 1)), Compact(r, fault == 2)) == Finish(s.(db := db'), r, purpose, found)
  {
    var choice := Choose(dir, RolesOf(s.db.bindings, account.id));
    var s1 := Step(s, ReadRoles(r, dir, fault == 1));
    assert s1 == ReadRolesStep(s, r, account, purpose, dir, fault == 1);
    if fault != 1 && choice.CompactTo? {
      var p := Compacting(account, choice.roleId, purpose);
      assert s1 == Put(s, r, p);
      assert Step(s1, Compact(r, fault == 2)) == CompactStep(s1, r, account, choice.roleId, purpose, fault == 2);
      var db' := s.db.(bindings := KeepOnly(s.db.bindings, account.id, choice.roleId));
      assert s1.(db := db') == Put(s.(db := db'), r, p);
      FinishForgets(s, r, p, purpose, LookupError);
      FinishForgets(s.(db := db'), r, p, purpose, Found(account, [choice.roleId]));
    } else {
      var found := if fault == 1 then LookupError else Settle(account, choice);
      FinishEnds(s, r, purpose, found);
      EndsStaysPut(s1, r, dir, false, fault == 2);
      assert s.(db := s.db) == s;
    }
  }

  lemma GetIsRowThenRoles(db: Db, key: Key, dir: Directory, fault: nat)
    ensures Get(db, key, dir, fault)
      == if fault == 0 then (db, LookupError)
         else if RowOf(db, key).None? then (db, NoAccount)
         else SqlRoles(db, RowOf(db, key).value, dir, fault)
  {
  }

  /** The three statements in a row are the lookup. */
  lemma LookupInThreeSteps(s: State, r: nat, key: Key, purpose: Purpose, dir: Directory, fault: nat)
    requires r in s.pending && s.pending[r] == Asking(key, purpose)
    ensures var (db', found) := Get(s.db, key, dir, fault);
      Run(s, LookupEvents(r, dir, fault)) == Finish(s.(db := db'), r, purpose, found)
  {
    var first, second, third := ReadRow(r, fault == 0), ReadRoles(r, dir, fault == 1), Compact(r, fault == 2);
    var s1 := Step(s, first);
    var row := RowOf(s.db, key);
    GetIsRowThenRoles(s.db, key, dir, fault);
    ThreeEvents(s, first, second, third);
    assert s1 == ReadRowStep(s, r, key, purpose, fault == 0);
    if fault != 0 && row.Some? {
      var p := Reading(row.value, purpose);
      assert s1 == Put(s, r, p);
      RolesInTwoSteps(s1, r, row.value, purpose, dir, fault);
      var (db', found) := SqlRoles(s.db, row.value, dir, fault);
      assert s1.(db := db') == Put(s.(db := db'), r, p);
      FinishForgets(s.(db := db'), r, p, purpose, found);
    } else {
      var found := if fault == 0 then LookupError else NoAccount;
      FinishEnds(s, r, purpose, found);
      EndsStaysPut(s1, r, dir, fault == 1, fault == 2);
      assert s.(db := s.db) == s;
    }
  }

  // ---------- the gate ----------

  /** The project's session leads where its route says. */
  lemma ProjectRouted(db: Db, token: string, env: Env)
    ensures var (store, session) := ByProject(Sql(db), token, env);
      match ProjectRoute(env, token)
      case Nowhere => store == Sql(db) && !session.AccountOk?
      case To(id, fallback) =>
        var (db', found) := SqlGetById(db, id, env.dir, env.projectFault);
        !fallback && store == Sql(db') && session == SessionFrom(found)
  {
  }

  /** The fault of the first lookup of a request. */
  function FirstFault(env: Env, rawToken: string): nat {
    var token := TrimSpace(rawToken);
    if token == "" then (if TrimSpace(env.headers.accountId) != "" then env.headerFault else env.projectFault)
    else if env.redis(token).SessionOf? then env.redisFault
    else env.projectFault
  }

  /** What the gate does with a route: its store, and whether and as whom it admits. */
  ghost predicate Leads(db: Db, route: Route, dir: Directory, fault: nat, store: Store, gate: Gate) {
    match route
    case Nowhere => store == Sql(db) && gate.Refused?
    case To(id, _) =>
      var (db', found) := SqlGetById(db, id, dir, fault);
      store == Sql(db') && SameGate(gate, Judgment(dir, SessionFrom(found), Codes(1, 2, 3)))
  }

  predicate SameGate(a: Gate, b: Gate) {
    if a.Admitted? then a == b else b.Refused?
  }

  lemma HeadersRouted(db: Db, env: Env)
    ensures var (store, session) := ByHeaders(Sql(db), env);
      Leads(db, HeaderRoute(env), env.dir,
            if TrimSpace(env.headers.accountId) != "" then env.headerFault else env.projectFault,
            store, Judgment(env.dir, session, Codes(1, 2, 3)))
  {
    var first := TrimSpace(env.headers.adminSessionToken);
    var second := if first == "" then TrimSpace(env.headers.adminToken) else first;
    ProjectRouted(db, if second == "" then TrimSpace(TrimBearer(env.headers.authorization)) else second, env);
  }

  /** The gate follows the first route, and the project's after a failed lookup that has a fallback. */
  lemma GateRouted(db: Db, token: string, env: Env)
    ensures var (store, gate) := RequireManage(Sql(db), token, env, Codes(1, 2, 3));
      var route, fault := FirstRoute(env, token), FirstFault(env, token);
      if route.To? && route.fallback && SqlGetById(db, route.accountId, env.dir, fault).1.LookupError? then
        Leads(SqlGetById(db, route.accountId, env.dir, fault).0, ProjectRoute(env, token), env.dir, env.projectFault,
              store, gate)
      else Leads(db, route, env.dir, fault, store, gate)
  {
    if TrimSpace(token) == "" {
      HeadersRouted(db, env);
    } else if env.redis(TrimSpace(token)).SessionOf? {
      var (db', _) := SqlGetById(db, env.redis(TrimSpace(token)).accountId, env.dir, env.redisFault);
      ProjectRouted(db', token, env);
    } else {
      ProjectRouted(db, token, env);
    }
  }

  /** The state of a request after the gate. */
  ghost function Gated(s: State, r: nat, job: Job, db: Db, gate: Gate): State {
    var s' := s.(db := db);
    if gate.Admitted? then Put(s', r, Authorised(gate.operator, job)) else Drop(s', r)
  }

  /** A route that has been followed is looked up in three steps, and ends at the gate. */
  lemma RouteInThreeSteps(s: State, r: nat, route: Route, job: Job, env: Env, fault: nat, store: Store, gate: Gate)
    requires Leads(s.db, route, env.dir, fault, store, gate)
    requires route.To? && route.fallback ==> !SqlGetById(s.db, route.accountId, env.dir, fault).1.LookupError?
    ensures store.Sql?
    ensures Run(Follow(s, r, route, job, env), LookupEvents(r, env.dir, fault)) == Gated(s, r, job, store.db, gate)
    ensures Idle(Gated(s, r, job, store.db, gate), r)
  {
    var s1 := Follow(s, r, route, job, env);
    match route
    case Nowhere =>
      IdleStaysPut(s1, r, env.dir, fault);
      assert s.(db := s.db) == s;
    case To(id, fallback) =>
      var purpose := ForOperator(job, env, fallback);
      var p := Asking(ById(id), purpose);
      var (db', found) := SqlGetById(s.db, id, env.dir, fault);
      LookupInThreeSteps(s1, r, ById(id), purpose, env.dir, fault);
      assert s1.(db := db') == Put(s.(db := db'), r, p);
      FinishForgets(s.(db := db'), r, p, purpose, found);
  }

  function GateEvents(r: nat, job: Job, env: Env, live: Env): seq<Event> {
    [Request(r, job, env)]
    + (LookupEvents(r, env.dir, FirstFault(live, job.Token())) + LookupEvents(r, env.dir, env.projectFault))
  }

  lemma GateInSevenSteps(s: State, r: nat, job: Job, env: Env)
    requires r !in s.pending
    ensures var (store, gate) := RequireManage(Sql(s.db), job.Token(), LiveEnv(s, env), Codes(1, 2, 3));
      store.Sql? && Run(s, GateEvents(r, job, env, LiveEnv(s, env))) == Gated(s, r, job, store.db, gate)
  {
    var live := LiveEnv(s, env);
    var (store, gate) := RequireManage(Sql(s.db), job.Token(), live, Codes(1, 2, 3));
    var fault := FirstFault(live, job.Token());
    assert Step(s, Request(r, job, env)) == Follow(s, r, FirstRoute(live, job.Token()), job, env);
    EventThenTwo(s, Request(r, job, env), LookupEvents(r, env.dir, fault), LookupEvents(r, env.dir, env.projectFault));
    LookupsInSixSteps(s, r, job, env, live, store, gate);
  }

  lemma LookupsInSixSteps(s: State, r: nat, job: Job, env: Env, live: Env, store: Store, gate: Gate)
    requires live.dir == env.dir && live.project == env.project && live.projectFault == env.projectFault
    requires (store, gate) == RequireManage(Sql(s.db), job.Token(), live, Codes(1, 2, 3))
    ensures store.Sql?
    ensures var s1 := Follow(s, r, FirstRoute(live, job.Token()), job, env);
            var s2 := Run(s1, LookupEvents(r, env.dir, FirstFault(live, job.Token())));
      Run(s2, LookupEvents(r, env.dir, env.projectFault)) == Gated(s, r, job, store.db, gate)
  {
    var route, fault := FirstRoute(live, job.Token()), FirstFault(live, job.Token());
    GateRouted(s.db, job.Token(), live);
    assert ProjectRoute(live, job.Token()) == ProjectRoute(env, job.Token());
    if route.To? && route.fallback && SqlGetById(s.db, route.accountId, env.dir, fault).1.LookupError? {
      var db := SqlGetById(s.db, route.accountId, env.dir, fault).0;
      FallbackInThreeSteps(s, r, job, env, route.accountId, fault, db, store, gate);
    } else {
      RouteInThreeSteps(s, r, route, job, env, fault, store, gate);
      IdleStaysPut(Gated(s, r, job, store.db, gate), r, env.dir, env.projectFault);
    }
  }

  lemma FallbackInThreeSteps(s: State, r: nat, job: Job, env: Env, id: string, fault: nat, db: Db, store: Store,
                             gate: Gate)
    requires SqlGetById(s.db, id, env.dir, fault) == (db, LookupError)
    requires Leads(db, ProjectRoute(env, job.Token()), env.dir, env.projectFault, store, gate)
    ensures store.Sql?
    ensures Run(Run(Follow(s, r, To(id, true), job, env), LookupEvents(r, env.dir, fault)),
                LookupEvents(r, env.dir, env.projectFault)) == Gated(s, r, job, store.db, gate)
  {
    FailedLookupFollows(s, r, job, env, id, fault, db);
    RouteInThreeSteps(s.(db := db), r, ProjectRoute(env, job.Token()), job, env, env.projectFault, store, gate);
    GatedForgetsDb(s, r, job, db, store.db, gate);
  }

  lemma GatedForgetsDb(s: State, r: nat, job: Job, before: Db, db: Db, gate: Gate)
    ensures Gated(s.(db := before), r, job, db, gate) == Gated(s, r, job, db, gate)
  {
  }

  lemma FailedLookupFollows(s: State, r: nat, job: Job, env: Env, id: string, fault: nat, db: Db)
    requires SqlGetById(s.db, id, env.dir, fault) == (db, LookupError)
    ensures Run(Follow(s, r, To(id, true), job, env), LookupEvents(r, env.dir, fault))
         == Follow(s.(db := db), r, ProjectRoute(env, job.Token()), job, env)
  {
    var purpose := ForOperator(job, env, true);
    var p := Asking(ById(id), purpose);
    LookupInThreeSteps(Put(s, r, p), r, ById(id), purpose, env.dir, fault);
    assert Put(s, r, p).(db := db) == Put(s.(db := db), r, p);
    FinishForgets(s.(db := db), r, p, purpose, LookupError);
  }

  // ---------- after the gate ----------

  predicate Fresh(s: State, id: string) { IsShortId(id) && id !in s.used }

  /** Clock, scans and sessions are as they were; what a write changes may differ. */
  predicate OnlyWrote(s: State, s': State) {
    && s'.now == s.now && s'.lastTick == s.lastTick && s'.ttl == s.ttl
    && s'.sessions == s.sessions && s'.issued == s.issued
  }

  /** Validation, lookup and guard: the next tables and, if the request goes on, its write. */
  ghost function Clear(db: Db, operator: Account, job: Job, dir: Directory, fault: nat): (Db, Option<Write>) {
    match VetJob(dir, job)
    case Unfit => (db, None)
    case Fit(key, write) =>
      var (db', found) := Get(db, key, dir, fault);
      (db', if Passes(found, operator, write) then Some(write) else None)
  }

  /** What happens after the gate when nothing interleaves. */
  ghost function Uninterrupted(db: Db, operator: Account, job: Job, dir: Directory, w: WriteDraw): Db
    requires |w.draw.ranks| == 1
  {
    var (db', write) := Clear(db, operator, job, dir, w.lookupFault);
    if write.None? then db' else Perform(db', write.value, w).0
  }

  /** What a write records. */
  function Entries(db: Db, operator: Account, write: Write, done: bool): seq<Entry> {
    if done && !write.PutCreate? then [EntryFor(db, operator, write)] else []
  }

  /** What is recorded after the gate when nothing interleaves. */
  ghost function Recorded(db: Db, operator: Account, job: Job, dir: Directory, w: WriteDraw): seq<Entry>
    requires |w.draw.ranks| == 1
  {
    var (db', write) := Clear(db, operator, job, dir, w.lookupFault);
    if write.None? then [] else Entries(db', operator, write.value, Perform(db', write.value, w).1)
  }

  lemma AdmittedInFiveSteps(s: State, r: nat, operator: Account, job: Job, dir: Directory, w: WriteDraw)
    requires r in s.pending && s.pending[r] == Authorised(operator, job)
    requires |w.draw.ranks| == 1 && w.draw.now == s.now && (job.CreateJob? ==> Fresh(s, w.draw.id))
    ensures var s' := Run(s, AfterGate(r, dir, w));
      && s'.db == Uninterrupted(s.db, operator, job, dir, w) && s'.pending == s.pending - {r} && OnlyWrote(s, s')
      && s'.audit == s.audit + Recorded(s.db, operator, job, dir, w)
  {
    var lookup, commit := LookupEvents(r, dir, w.lookupFault), Commit(r, w);
    var s1 := ProceedStep(s, r, operator, job, dir);
    assert Step(s, Proceed(r, dir)) == s1;
    EventThenTwo(s, Proceed(r, dir), lookup, [commit]);
    var vet := VetJob(dir, job);
    if vet.Unfit? {
      IdleStaysPut(s1, r, dir, w.lookupFault);
      OneEvent(s1, commit);
    } else {
      FitInFourSteps(s, r, operator, vet.key, vet.write, dir, w);
    }
  }

  lemma FitInFourSteps(s: State, r: nat, operator: Account, key: Key, write: Write, dir: Directory, w: WriteDraw)
    requires |w.draw.ranks| == 1 && w.draw.now == s.now && (write.PutCreate? ==> Fresh(s, w.draw.id))
    ensures var (db', found) := Get(s.db, key, dir, w.lookupFault);
      var s1 := Put(s, r, Asking(key, ForTarget(operator, write)));
      var s' := Run(Run(s1, LookupEvents(r, dir, w.lookupFault)), [Commit(r, w)]);
      && s'.db == (if Passes(found, operator, write) then Perform(db', write, w).0 else db')
      && s'.pending == s.pending - {r} && OnlyWrote(s, s')
      && s'.audit == s.audit
         + (if Passes(found, operator, write) then Entries(db', operator, write, Perform(db', write, w).1) else [])
  {
    var s1 := Put(s, r, Asking(key, ForTarget(operator, write)));
    var purpose := ForTarget(operator, write);
    var (db', found) := Get(s.db, key, dir, w.lookupFault);
    LookupInThreeSteps(s1, r, key, purpose, dir, w.lookupFault);
    assert s1.(db := db') == Put(s.(db := db'), r, Asking(key, purpose));
    FinishForgets(s.(db := db'), r, Asking(key, purpose), purpose, found);
    var s2 := Finish(s.(db := db'), r, purpose, found);
    OneEvent(s2, Commit(r, w));
    CommitEnds(s2, s.pending, r, operator, write, found, w);
  }

  /** The last event commits a cleared write, and is nothing to a dropped request. */
  lemma CommitEnds(s2: State, pending: map<nat, Pending>, r: nat, operator: Account, write: Write, found: Lookup,
                   w: WriteDraw)
    requires |w.draw.ranks| == 1 && w.draw.now == s2.now && (write.PutCreate? ==> Fresh(s2, w.draw.id))
    requires s2.pending ==
        if Passes(found, operator, write) then pending[r := Cleared(operator, write)] else pending - {r}
    ensures var s' := Step(s2, Commit(r, w));
      && s'.db == (if Passes(found, operator, write) then Perform(s2.db, write, w).0 else s2.db)
      && s'.pending == pending - {r} && OnlyWrote(s2, s')
      && s'.audit == s2.audit
         + (if Passes(found, operator, write) then Entries(s2.db, operator, write, Perform(s2.db, write, w).1) else [])
  {
    if Passes(found, operator, write) {
      assert Step(s2, Commit(r, w)) == CommitStep(s2, r, operator, write, w);
      assert pending[r := Cleared(operator, write)] - {r} == pending - {r};
    }
  }

  function AfterGate(r: nat, dir: Directory, w: WriteDraw): seq<Event> {
    [Proceed(r, dir)] + (LookupEvents(r, dir, w.lookupFault) + [Commit(r, w)])
  }

  // ---------- the handlers ----------

  lemma UpdateUninterrupted(db: Db, operator: Account, req: UpdateRequest, dir: Directory, w: WriteDraw)
    requires |w.draw.ranks| == 1
    ensures UpdateAdmitted(Sql(db), operator, req, dir, w).0 == Sql(Uninterrupted(db, operator, UpdateJob(req), dir, w))
  {
    var vetted := VetUpdate(dir, req);
    if vetted.Go? {
      var (db', found) := SqlGetById(db, req.accountId, dir, w.lookupFault);
      GuardIgnoresCodes(found, operator, 2254, 2257, 2258);
      WriteIsPerform(db', req.accountId, vetted.status, vetted.roleId, w);
    }
  }

  lemma GuardIgnoresCodes(found: Lookup, operator: Account, absent: int, guarded: int, failure: int)
    ensures Guard(found, operator, absent, guarded, failure).None? == Guard(found, operator, 1, 2, 3).None?
  {
  }

  lemma WriteIsPerform(db: Db, accountId: string, status: string, roleId: string, w: WriteDraw)
    requires |w.draw.ranks| == 1
    ensures WriteUpdate(Sql(db), accountId, status, roleId, w).0
         == Sql(Perform(db, PutUpdate(accountId, status, roleId), w).0)
  {
  }

  lemma ResetUninterrupted(db: Db, operator: Account, req: ResetRequest, dir: Directory, w: WriteDraw)
    requires |w.draw.ranks| == 1
    ensures ResetAdmitted(Sql(db), operator, req, dir, w).0 == Sql(Uninterrupted(db, operator, ResetJob(req), dir, w))
  {
    GuardIgnoresCodes(SqlGetById(db, req.accountId, dir, w.lookupFault).1, operator, 2264, 2266, 2267);
  }

  lemma DeleteUninterrupted(db: Db, operator: Account, req: DeleteRequest, dir: Directory, w: WriteDraw)
    requires |w.draw.ranks| == 1
    ensures DeleteAdmitted(Sql(db), operator, req, dir, w).0 == Sql(Uninterrupted(db, operator, DeleteJob(req), dir, w))
  {
  }

  lemma CreateUninterrupted(db: Db, operator: Account, req: CreateRequest, dir: Directory, w: WriteDraw)
    requires |w.draw.ranks| == 1
    ensures CreateAdmitted(Sql(db), req, dir, w).0 == Sql(Uninterrupted(db, operator, CreateJob(req), dir, w))
  {
    var vetted, account := VetCreate(dir, req), TrimSpace(req.account);
    if vetted.Go? {
      var (db', found) := SqlGetByName(db, account, dir, w.lookupFault);
      CreateIsPerform(db', account, req.password, vetted.status, vetted.roleId, w);
      CreateLookedUp(db, req, dir, w, vetted.status, vetted.roleId);
    }
  }

  lemma CreateLookedUp(db: Db, req: CreateRequest, dir: Directory, w: WriteDraw, status: string, roleId: string)
    requires |w.draw.ranks| == 1 && VetCreate(dir, req) == Go(status, roleId)
    ensures var account := TrimSpace(req.account);
      var (db', found) := SqlGetByName(db, account, dir, w.lookupFault);
      CreateAdmitted(Sql(db), req, dir, w).0
        == if found.NoAccount? then WriteCreate(Sql(db'), account, w.hash(req.password), status, roleId, w).0
           else Sql(db')
  {
  }

  lemma CreateIsPerform(db: Db, account: string, password: string, status: string, roleId: string, w: WriteDraw)
    requires |w.draw.ranks| == 1
    ensures WriteCreate(Sql(db), account, w.hash(password), status, roleId, w).0
         == Sql(Perform(db, PutCreate(account, password, status, roleId), w).0)
  {
  }

  /** The store after a handler runs on its own. */
  ghost function Handled(db: Db, job: Job, env: Env, w: WriteDraw): Store
    requires |w.draw.ranks| == 1
  {
    match job
    case UpdateJob(req) => HandleUpdate(Sql(db), req, env, w).0
    case ResetJob(req) => HandleReset(Sql(db), req, env, w).0
    case DeleteJob(req) => HandleDelete(Sql(db), req, env, w).0
    case CreateJob(req) => HandleCreate(Sql(db), req, env, w).0
  }

  /** The gate's verdict does not depend on the codes it would answer with. */
  lemma GateIgnoresCodes(store: Store, token: string, env: Env, codes: Codes, others: Codes)
    ensures RequireManage(store, token, env, codes).0 == RequireManage(store, token, env, others).0
    ensures SameGate(RequireManage(store, token, env, codes).1, RequireManage(store, token, env, others).1)
  {
  }

  lemma HandledIsGated(db: Db, job: Job, env: Env, w: WriteDraw)
    requires |w.draw.ranks| == 1
    ensures var (store, gate) := RequireManage(Sql(db), job.Token(), env, Codes(1, 2, 3));
      Handled(db, job, env, w) ==
        if gate.Refused? then store else Sql(Uninterrupted(store.db, gate.operator, job, env.dir, w))
  {
    var (store, gate) := RequireManage(Sql(db), job.Token(), env, Codes(1, 2, 3));
    match job
    case UpdateJob(req) =>
      GateIgnoresCodes(Sql(db), req.token, env, UPDATE_CODES, Codes(1, 2, 3));
      if gate.Admitted? { UpdateUninterrupted(store.db, gate.operator, req, env.dir, w); }
    case ResetJob(req) =>
      GateIgnoresCodes(Sql(db), req.token, env, RESET_CODES, Codes(1, 2, 3));
      if gate.Admitted? { ResetUninterrupted(store.db, gate.operator, req, env.dir, w); }
    case DeleteJob(req) =>
      GateIgnoresCodes(Sql(db), req.token, env, DELETE_CODES, Codes(1, 2, 3));
      if gate.Admitted? { DeleteUninterrupted(store.db, gate.operator, req, env.dir, w); }
    case CreateJob(req) =>
      GateIgnoresCodes(Sql(db), req.token, env, CREATE_CODES, Codes(1, 2, 3));
      if gate.Admitted? { CreateUninterrupted(store.db, gate.operator, req, env.dir, w); }
  }

  /** What the handler answers. */
  ghost function AnswerTo(db: Db, job: Job, env: Env, w: WriteDraw): Answer
    requires |w.draw.ranks| == 1
  {
    match job
    case UpdateJob(req) => HandleUpdate(Sql(db), req, env, w).1
    case ResetJob(req) => HandleReset(Sql(db), req, env, w).1
    case DeleteJob(req) => HandleDelete(Sql(db), req, env, w).1
    case CreateJob(req) => HandleCreate(Sql(db), req, env, w).1
  }

  function TargetOf(job: Job): string
    requires !job.CreateJob?
  {
    match job
    case UpdateJob(req) => req.accountId
    case ResetJob(req) => req.accountId
    case DeleteJob(req) => TrimSpace(req.accountId)
  }

  /** The write is cleared and takes effect. */
  ghost predicate Effective(db: Db, operator: Account, job: Job, dir: Directory, w: WriteDraw)
    requires |w.draw.ranks| == 1
  {
    var (db', write) := Clear(db, operator, job, dir, w.lookupFault);
    write.Some? && Perform(db', write.value, w).1
  }

  lemma UpdateAnswered(db: Db, operator: Account, req: UpdateRequest, dir: Directory, w: WriteDraw)
    requires |w.draw.ranks| == 1
    ensures UpdateAdmitted(Sql(db), operator, req, dir, w).1.status == 0
      <==> Effective(db, operator, UpdateJob(req), dir, w)
  {
    var vetted := VetUpdate(dir, req);
    if vetted.Go? {
      var (db', found) := SqlGetById(db, req.accountId, dir, w.lookupFault);
      UpdateCleared(db, operator, req, dir, w.lookupFault);
      if Guard(found, operator, 2254, 2257, 2258).None? {
        UpdateReachesWrite(db, operator, req, dir, w);
        WriteAnswered(db', req.accountId, vetted.status, vetted.roleId, w);
      }
    }
  }

  lemma UpdateReachesWrite(db: Db, operator: Account, req: UpdateRequest, dir: Directory, w: WriteDraw)
    requires |w.draw.ranks| == 1 && VetUpdate(dir, req).Go?
    requires Guard(SqlGetById(db, req.accountId, dir, w.lookupFault).1, operator, 2254, 2257, 2258).None?
    ensures var vetted, db' := VetUpdate(dir, req), SqlGetById(db, req.accountId, dir, w.lookupFault).0;
      UpdateAdmitted(Sql(db), operator, req, dir, w)
        == WriteUpdate(Sql(db'), req.accountId, vetted.status, vetted.roleId, w)
  {
  }

  lemma UpdateCleared(db: Db, operator: Account, req: UpdateRequest, dir: Directory, fault: nat)
    requires VetUpdate(dir, req).Go?
    ensures var vetted := VetUpdate(dir, req);
      var (db', found) := SqlGetById(db, req.accountId, dir, fault);
      Clear(db, operator, UpdateJob(req), dir, fault)
        == (db', if Guard(found, operator, 2254, 2257, 2258).None?
                 then Some(PutUpdate(req.accountId, vetted.status, vetted.roleId)) else None)
  {
    GuardIgnoresCodes(SqlGetById(db, req.accountId, dir, fault).1, operator, 2254, 2257, 2258);
  }

  lemma WriteAnswered(db: Db, accountId: string, status: string, roleId: string, w: WriteDraw)
    requires |w.draw.ranks| == 1
    ensures WriteUpdate(Sql(db), accountId, status, roleId, w).1.status == 0
      <==> Perform(db, PutUpdate(accountId, status, roleId), w).1
  {
  }

  lemma ResetAnswered(db: Db, operator: Account, req: ResetRequest, dir: Directory, w: WriteDraw)
    requires |w.draw.ranks| == 1
    ensures ResetAdmitted(Sql(db), operator, req, dir, w).1.status == 0
      <==> Effective(db, operator, ResetJob(req), dir, w)
  {
    GuardIgnoresCodes(SqlGetById(db, req.accountId, dir, w.lookupFault).1, operator, 2264, 2266, 2267);
  }

  lemma DeleteAnswered(db: Db, operator: Account, req: DeleteRequest, dir: Directory, w: WriteDraw)
    requires |w.draw.ranks| == 1
    ensures DeleteAdmitted(Sql(db), operator, req, dir, w).1.status == 0
      <==> Effective(db, operator, DeleteJob(req), dir, w)
  {
  }

  lemma RefusalIsNoSuccess(store: Store, token: string, env: Env, codes: Codes)
    requires codes.invalid != 0 && codes.denied != 0 && codes.failure != 0
    ensures var gate := RequireManage(store, token, env, codes).1; gate.Refused? ==> gate.code != 0
  {
  }

  /** Answer 0 means that the gate has admitted the operator and the write has taken effect. */
  lemma AnsweredIsEffective(db: Db, job: Job, env: Env, w: WriteDraw)
    requires |w.draw.ranks| == 1 && !job.CreateJob?
    ensures var (store, gate) := RequireManage(Sql(db), job.Token(), env, Codes(1, 2, 3));
      store.Sql? && (AnswerTo(db, job, env, w).status == 0
                     <==> gate.Admitted? && Effective(store.db, gate.operator, job, env.dir, w))
  {
    var (store, gate) := RequireManage(Sql(db), job.Token(), env, Codes(1, 2, 3));
    match job
    case UpdateJob(req) =>
      GateIgnoresCodes(Sql(db), req.token, env, UPDATE_CODES, Codes(1, 2, 3));
      RefusalIsNoSuccess(Sql(db), req.token, env, UPDATE_CODES);
      if gate.Admitted? { UpdateAnswered(store.db, gate.operator, req, env.dir, w); }
    case ResetJob(req) =>
      GateIgnoresCodes(Sql(db), req.token, env, RESET_CODES, Codes(1, 2, 3));
      RefusalIsNoSuccess(Sql(db), req.token, env, RESET_CODES);
      if gate.Admitted? { ResetAnswered(store.db, gate.operator, req, env.dir, w); }
    case DeleteJob(req) =>
      GateIgnoresCodes(Sql(db), req.token, env, DELETE_CODES, Codes(1, 2, 3));
      RefusalIsNoSuccess(Sql(db), req.token, env, DELETE_CODES);
      if gate.Admitted? { DeleteAnswered(store.db, gate.operator, req, env.dir, w); }
  }

  /** Who did what to whom: the entry that an effective write leaves. */
  function TrailOf(db: Db, operator: Account, job: Job): Entry
    requires !job.CreateJob?
  {
    Entry(TargetOf(job), TargetOf(job) in db.rows && db.rows[TargetOf(job)].account.isSuperAdmin,
          operator.id, operator.isSuperAdmin)
  }

  lemma RecordedIsTrail(db: Db, operator: Account, job: Job, dir: Directory, w: WriteDraw)
    requires |w.draw.ranks| == 1
    ensures Recorded(db, operator, job, dir, w)
      == if !job.CreateJob? && Effective(db, operator, job, dir, w) then [TrailOf(db, operator, job)] else []
  {
    var (db', write) := Clear(db, operator, job, dir, w.lookupFault);
    if write.Some? { ClearedIsOfJob(db, operator, job, dir, w.lookupFault); }
  }

  lemma ClearedIsOfJob(db: Db, operator: Account, job: Job, dir: Directory, fault: nat)
    requires Clear(db, operator, job, dir, fault).1.Some?
    ensures var (db', write) := Clear(db, operator, job, dir, fault);
      && db'.rows == db.rows && (job.CreateJob? <==> write.value.PutCreate?)
      && (!job.CreateJob? ==> write.value.Key() == TargetOf(job))
  {
    var vet := VetJob(dir, job);
    VettedIsOfJob(dir, job);
    GetKeepsRows(db, vet.key, dir, fault);
  }

  lemma VettedIsOfJob(dir: Directory, job: Job)
    ensures var vet := VetJob(dir, job);
      vet.Fit? ==>
        && (job.CreateJob? <==> vet.write.PutCreate?)
        && (!job.CreateJob? ==> vet.write.Key() == TargetOf(job))
  {
  }

  lemma GetKeepsRows(db: Db, key: Key, dir: Directory, fault: nat)
    ensures Get(db, key, dir, fault).0.rows == db.rows
  {
    GetIsRowThenRoles(db, key, dir, fault);
  }

  /** The audit grows by one entry exactly when an update, a reset or a delete is answered 0. */
  ghost predicate AuditedAsAnswered(s: State, s': State, job: Job, env: Env, w: WriteDraw)
    requires |w.draw.ranks| == 1
  {
    if !job.CreateJob? && AnswerTo(s.db, job, env, w).status == 0 then
      var gate := RequireManage(Sql(s.db), job.Token(), env, Codes(1, 2, 3)).1;
      gate.Admitted? && s'.audit == s.audit + [TrailOf(s.db, gate.operator, job)]
    else s'.audit == s.audit
  }

  lemma AuditIsAnswered(s: State, s': State, job: Job, env: Env, w: WriteDraw)
    requires |w.draw.ranks| == 1
    requires var (store, gate) := RequireManage(Sql(s.db), job.Token(), env, Codes(1, 2, 3));
      s'.audit == s.audit + (if gate.Refused? then [] else Recorded(store.db, gate.operator, job, env.dir, w))
    ensures AuditedAsAnswered(s, s', job, env, w)
  {
    var (store, gate) := RequireManage(Sql(s.db), job.Token(), env, Codes(1, 2, 3));
    Atomicity.GateCompacts(Sql(s.db), job.Token(), env, Codes(1, 2, 3));
    if gate.Admitted? { RecordedIsTrail(store.db, gate.operator, job, env.dir, w); }
    if !job.CreateJob? { AnsweredIsEffective(s.db, job, env, w); }
  }

  // ---------- a login ----------

  function LoginEvents(r: nat, name: string, password: string, dir: Directory, draw: LoginDraw): seq<Event> {
    [OpenLogin(r, name, password)] + (LookupEvents(r, dir, draw.nameFault) + [SignIn(r, dir, draw)])
  }

  /** What a login leaves: the token it answers with leads to its holder for the lifetime of sessions. */
  ghost predicate SignedIn(s: State, s': State, answer: Answer) {
    if answer.data.Credential? then
      && s'.issued == s.issued[answer.data.token := answer.data.holder.id]
      && s'.sessions == s.sessions[answer.data.token := SessionEntry(answer.data.holder.id, s.now + s.ttl)]
    else s'.issued == s.issued && s'.sessions == s.sessions
  }

  /** The statements of a login, with nothing in between, do what its handler does. */
  lemma LoginIsItsSteps(s: State, r: nat, name: string, password: string, dir: Directory, draw: LoginDraw)
    requires r !in s.pending && IsToken(draw.token) && draw.token !in s.issued
    ensures var s' := Run(s, LoginEvents(r, name, password, dir, draw));
      var (store, answer) := Login(Sql(s.db), name, password, dir, draw);
      && Sql(s'.db) == store && SignedIn(s, s', answer)
      && s'.pending == s.pending && s'.now == s.now && s'.ttl == s.ttl && s'.audit == s.audit
  {
    var open, signIn := OpenLogin(r, name, password), SignIn(r, dir, draw);
    var lookup := LookupEvents(r, dir, draw.nameFault);
    var key, purpose := ByName(TrimSpace(name)), ForLogin(password);
    var s1 := OpenLoginStep(s, r, name, password);
    assert Step(s, open) == s1;
    EventThenTwo(s, open, lookup, [signIn]);
    if ValidAccount(TrimSpace(name)) && ValidPassword(password) {
      LookupInThreeSteps(s1, r, key, purpose, dir, draw.nameFault);
      var (db', found) := Get(s.db, key, dir, draw.nameFault);
      assert s1.(db := db') == Put(s.(db := db'), r, Asking(key, purpose));
      FinishForgets(s.(db := db'), r, Asking(key, purpose), purpose, found);
      SignInEnds(s, s.(db := db'), r, found, password, dir, draw);
    } else {
      IdleStaysPut(s1, r, dir, draw.nameFault);
      OneEvent(s1, signIn);
    }
  }

  lemma SignInEnds(s: State, s2: State, r: nat, found: Lookup, password: string, dir: Directory, draw: LoginDraw)
    requires r !in s2.pending && IsToken(draw.token) && draw.token !in s2.issued
    requires s2 == s.(db := s2.db)
    ensures var s' := Run(Finish(s2, r, ForLogin(password), found), [SignIn(r, dir, draw)]);
      && s'.db == s2.db && SignedIn(s, s', LoginFrom(found, password, dir, draw))
      && s'.pending == s.pending && s'.now == s.now && s'.ttl == s.ttl && s'.audit == s.audit
  {
    var s3 := Put(s2, r, SigningIn(found, password));
    assert Finish(s2, r, ForLogin(password), found) == s3;
    SignInRuns(s3, r, found, password, dir, draw);
    SignInWrites(s3, r, found, password, dir, draw);
    var s' := SignInStep(s3, r, found, password, dir, draw);
    SignedInEarlier(s, s3, s', LoginFrom(found, password, dir, draw));
    assert s2.pending[r := SigningIn(found, password)] - {r} == s2.pending;
  }

  lemma SignedInEarlier(s: State, s3: State, s': State, answer: Answer)
    requires SignedIn(s3, s', answer)
    requires s.issued == s3.issued && s.sessions == s3.sessions && s.now == s3.now && s.ttl == s3.ttl
    ensures SignedIn(s, s', answer)
  {
  }

  lemma SignInRuns(s: State, r: nat, found: Lookup, password: string, dir: Directory, draw: LoginDraw)
    requires r in s.pending && s.pending[r] == SigningIn(found, password)
    requires IsToken(draw.token) && draw.token !in s.issued
    ensures Run(s, [SignIn(r, dir, draw)]) == SignInStep(s, r, found, password, dir, draw)
  {
    OneEvent(s, SignIn(r, dir, draw));
  }

  lemma SignInWrites(s: State, r: nat, found: Lookup, password: string, dir: Directory, draw: LoginDraw)
    ensures var s' := SignInStep(s, r, found, password, dir, draw);
      && s'.db == s.db && SignedIn(s, s', LoginFrom(found, password, dir, draw))
      && s'.pending == s.pending - {r} && s'.now == s.now && s'.ttl == s.ttl && s'.audit == s.audit
  {
  }

  /** All the statements of a request, one after the other: the gate with up to two lookups, the target's lookup, the
      write. */
  function RequestEvents(r: nat, job: Job, env: Env, live: Env, w: WriteDraw): seq<Event> {
    GateEvents(r, job, env, live) + AfterGate(r, env.dir, w)
  }

  /** With nothing in between they do to the tables what the handler does, nothing of the request stays behind, and the
      audit holds what the handler has answered. */
  lemma HandlerIsItsSteps(s: State, r: nat, job: Job, env: Env, w: WriteDraw)
    requires r !in s.pending
    requires |w.draw.ranks| == 1 && w.draw.now == s.now && (job.CreateJob? ==> Fresh(s, w.draw.id))
    ensures var s' := Run(s, RequestEvents(r, job, env, LiveEnv(s, env), w));
      && Sql(s'.db) == Handled(s.db, job, LiveEnv(s, env), w) && s'.pending == s.pending && OnlyWrote(s, s')
      && AuditedAsAnswered(s, s', job, LiveEnv(s, env), w)
  {
    var live := LiveEnv(s, env);
    var (store, gate) := RequireManage(Sql(s.db), job.Token(), live, Codes(1, 2, 3));
    HandledIsGated(s.db, job, live, w);
    GateInSevenSteps(s, r, job, env);
    RunAppend(s, GateEvents(r, job, env, live), AfterGate(r, env.dir, w));
    GatedInFiveSteps(s, r, job, store.db, gate, env.dir, w);
    AuditIsAnswered(s, Run(s, RequestEvents(r, job, env, live, w)), job, live, w);
  }

  lemma GatedInFiveSteps(s: State, r: nat, job: Job, db: Db, gate: Gate, dir: Directory, w: WriteDraw)
    requires r !in s.pending
    requires |w.draw.ranks| == 1 && w.draw.now == s.now && (job.CreateJob? ==> Fresh(s, w.draw.id))
    ensures var s' := Run(Gated(s, r, job, db, gate), AfterGate(r, dir, w));
      && s'.db == (if gate.Refused? then db else Uninterrupted(db, gate.operator, job, dir, w))
      && s'.pending == s.pending && OnlyWrote(s, s')
      && s'.audit == s.audit + (if gate.Refused? then [] else Recorded(db, gate.operator, job, dir, w))
  {
    var s1 := Gated(s, r, job, db, gate);
    if gate.Admitted? {
      AdmittedInFiveSteps(s1, r, gate.operator, job, dir, w);
      assert s.pending[r := Authorised(gate.operator, job)] - {r} == s.pending;
    } else {
      RefusedStaysPut(s1, r, dir, w);
      assert s.pending - {r} == s.pending;
    }
  }

  lemma RefusedStaysPut(s: State, r: nat, dir: Directory, w: WriteDraw)
    requires r !in s.pending
    ensures Run(s, AfterGate(r, dir, w)) == s
  {
    var lookup, commit := LookupEvents(r, dir, w.lookupFault), Commit(r, w);
    assert Step(s, Proceed(r, dir)) == s;
    EventThenTwo(s, Proceed(r, dir), lookup, [commit]);
    IdleStaysPut(s, r, dir, w.lookupFault);
    OneEvent(s, commit);
  }
}
