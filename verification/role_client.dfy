/** The client of the role module: how its answers are read, and the loops that evaluate an
    account's roles. The role module itself is a Directory: any function from questions to answers. */
module RoleClient {
  import opened Text
  import opened Lists

  datatype RoleDetail = RoleDetail(status: string, deletedAt: string, permissions: seq<string>)
  datatype RoleCheck = RoleCheck(allowed: bool, roleStatus: string)

  /** One answer of the role module: no usable transport, or a status with data (None: not decodable). */
  datatype Wire<+T> = Unreachable | Reply(status: int, data: Option<T>)

  datatype Directory = Directory(detail: string -> Wire<RoleDetail>, check: (string, string) -> Wire<RoleCheck>)

  datatype DetailVerdict = DetailError | DetailAbsent | DetailIs(detail: RoleDetail)
  datatype CheckVerdict = CheckError | Checked(allowed: bool, roleStatus: string)

  function AdminRoleDetail(dir: Directory, roleId: string): DetailVerdict {
    match dir.detail(roleId)
    case Unreachable => DetailError
    case Reply(status, data) =>
      if status in {2122, 2312, 2322, 2332, 2342} then DetailAbsent
      else if status != 0 || data.None? then DetailError
      else DetailIs(data.value)
  }

  function AdminRoleCheckPermission(dir: Directory, roleId: string, code: string): CheckVerdict {
    match dir.check(roleId, code)
    case Unreachable => CheckError
    case Reply(status, data) =>
      if status == 2173 then Checked(false, "missing")
      else if status == 2174 then Checked(false, "enabled")
      else if status != 0 || data.None? then CheckError
      else
        var trimmed := TrimSpace(data.value.roleStatus);
        var roleStatus := if trimmed == "" then "enabled" else trimmed;
        Checked(data.value.allowed && roleStatus == "enabled", roleStatus)
  }

  function NormalizeRoleStatus(detail: RoleDetail): string {
    var status := TrimSpace(detail.status);
    if status == "deleted" || TrimSpace(detail.deletedAt) != "" then "deleted"
    else if status == "" then "missing"
    else status
  }

  /** What one detail question says of a role: an oracle failure, or a status. */
  datatype Standing = Unknown | Standing(status: string)

  function RoleStanding(dir: Directory, roleId: string): Standing {
    match AdminRoleDetail(dir, roleId)
    case DetailError => Unknown
    case DetailAbsent => Standing("missing")
    case DetailIs(detail) => Standing(NormalizeRoleStatus(detail))
  }

  predicate Enabled(dir: Directory, roleId: string) {
    RoleStanding(dir, roleId) == Standing("enabled")
  }

  // ---------- rolesAvailable ----------

  datatype Availability = CannotTell | Available(all: bool)

  function AvailabilityOf(dir: Directory, roleIds: seq<string>): Availability {
    if roleIds == [] then Available(true)
    else match RoleStanding(dir, roleIds[0])
      case Unknown => CannotTell
      case Standing(status) => if status == "enabled" then AvailabilityOf(dir, roleIds[1..]) else Available(false)
  }

  method RolesAvailable(dir: Directory, roleIds: seq<string>) returns (a: Availability)
    ensures a == AvailabilityOf(dir, roleIds)
  {
    for k := 0 to |roleIds|
      invariant AvailabilityOf(dir, roleIds) == AvailabilityOf(dir, roleIds[k..])
    {
      assert roleIds[k..][1..] == roleIds[k + 1..];
      var verdict := AdminRoleDetail(dir, roleIds[k]);
      if verdict.DetailError? {
        return CannotTell;
      }
      if verdict.DetailAbsent? || NormalizeRoleStatus(verdict.detail) != "enabled" {
        return Available(false);
      }
    }
    return Available(true);
  }

  /** All roles are enabled, or the first role that is not decides the answer. */
  lemma {:induction false} AvailabilityMeaning(dir: Directory, roleIds: seq<string>) returns (k: nat)
    ensures k <= |roleIds| && forall i | 0 <= i < k :: Enabled(dir, roleIds[i])
    ensures k == |roleIds| <==> AvailabilityOf(dir, roleIds) == Available(true)
    ensures k < |roleIds| ==> !Enabled(dir, roleIds[k])
    ensures k < |roleIds| ==>
      AvailabilityOf(dir, roleIds) == if RoleStanding(dir, roleIds[k]).Unknown? then CannotTell else Available(false)
  {
    k := 0;
    if roleIds != [] && Enabled(dir, roleIds[0]) {
      var rest := AvailabilityMeaning(dir, roleIds[1..]);
      k := rest + 1;
    }
  }

  // ---------- evaluateRolePermission ----------

  datatype RoleState = RoleState(roleId: string, roleStatus: string)
  datatype Evaluation = EvaluationError | Evaluated(matched: seq<string>, states: seq<RoleState>)

  /** The verdict on one role: the status reported for it, and whether it grants the code. */
  datatype Judgement = Undecided | Judged(status: string, granted: bool)

  function Judge(dir: Directory, code: string, roleId: string): Judgement {
    match RoleStanding(dir, roleId)
    case Unknown => Undecided
    case Standing(status) =>
      if status != "enabled" then Judged(status, false)
      else match AdminRoleCheckPermission(dir, roleId, code)
        case CheckError => Undecided
        case Checked(allowed, roleStatus) =>
          if roleStatus != "enabled" then Judged(roleStatus, false) else Judged("enabled", allowed)
  }

  function JudgedStatus(dir: Directory, code: string, roleId: string): string {
    match Judge(dir, code, roleId)
    case Undecided => ""
    case Judged(status, _) => status
  }

  // The four questions the loop asks of a role, as functions to fold a list with.

  function IsUndecided(dir: Directory, code: string): string -> bool {
    roleId => Judge(dir, code, roleId).Undecided?
  }

  function IsInvalid(dir: Directory, code: string): string -> bool {
    roleId => JudgedStatus(dir, code, roleId) != "enabled"
  }

  function Grants(dir: Directory, code: string): string -> bool {
    roleId => Judge(dir, code, roleId).Judged? && Judge(dir, code, roleId).granted
  }

  function StateOf(dir: Directory, code: string): string -> RoleState {
    roleId => RoleState(roleId, JudgedStatus(dir, code, roleId))
  }

  /** The rule evaluateRolePermission implements: every role is judged; one undecided role is an error;
      the granting roles count only when no role is disabled, deleted or missing. */
  function Evaluate(dir: Directory, code: string, roleIds: seq<string>): Evaluation {
    if Any(IsUndecided(dir, code), roleIds) then EvaluationError
    else Evaluated(
      if Any(IsInvalid(dir, code), roleIds) then [] else Filter(Grants(dir, code), roleIds),
      Map(StateOf(dir, code), roleIds))
  }

  /** The two questions of one iteration: the detail, and the permission check of an enabled role. */
  method JudgeRole(dir: Directory, roleId: string, code: string) returns (j: Judgement)
    ensures j == Judge(dir, code, roleId)
  {
    var verdict := AdminRoleDetail(dir, roleId);
    if verdict.DetailError? {
      return Undecided;
    }
    var status := if verdict.DetailIs? then NormalizeRoleStatus(verdict.detail) else "missing";
    if status != "enabled" {
      return Judged(status, false);
    }
    var check := AdminRoleCheckPermission(dir, roleId, code);
    if check.CheckError? {
      return Undecided;
    }
    if check.roleStatus != "" && check.roleStatus != "enabled" {
      return Judged(check.roleStatus, false);
    }
    return Judged("enabled", check.allowed);
  }

  method EvaluateRolePermission(dir: Directory, roleIds: seq<string>, code: string) returns (e: Evaluation)
    ensures e == Evaluate(dir, code, roleIds)
  {
    var matched: seq<string>, roles: seq<RoleState> := [], [];
    var hasInvalidRole := false;
    for k := 0 to |roleIds|
      invariant !Any(IsUndecided(dir, code), roleIds[..k])
      invariant roles == Map(StateOf(dir, code), roleIds[..k])
      invariant hasInvalidRole == Any(IsInvalid(dir, code), roleIds[..k])
      invariant matched == Filter(Grants(dir, code), roleIds[..k])
    {
      var roleId := roleIds[k];
      assert Front(roleIds[..k + 1]) == roleIds[..k] && Last(roleIds[..k + 1]) == roleId;
      var verdict := JudgeRole(dir, roleId, code);
      if verdict.Undecided? {
        AnyPrefix(IsUndecided(dir, code), roleIds, k + 1);
        return EvaluationError;
      }
      roles := roles + [RoleState(roleId, verdict.status)];
      if verdict.status != "enabled" {
        hasInvalidRole := true;
      } else if verdict.granted {
        matched := matched + [roleId];
      }
    }
    assert roleIds[..|roleIds|] == roleIds;
    return Evaluated(if hasInvalidRole then [] else matched, roles);
  }

  /** The evaluation read position by position: one state per role in input order; with every role enabled
      the matched roles are exactly the granting ones, in input order; with one invalid role there are none. */
  lemma EvaluationMeaning(dir: Directory, code: string, roleIds: seq<string>)
    ensures Evaluate(dir, code, roleIds).EvaluationError?
      <==> exists i | 0 <= i < |roleIds| :: IsUndecided(dir, code)(roleIds[i])
    ensures Evaluate(dir, code, roleIds).Evaluated? ==>
      var e := Evaluate(dir, code, roleIds);
      && |e.states| == |roleIds|
      && (forall i | 0 <= i < |roleIds| :: e.states[i] == StateOf(dir, code)(roleIds[i]))
      && (if exists i | 0 <= i < |roleIds| :: IsInvalid(dir, code)(roleIds[i]) then e.matched == []
          else exists at :: (IsSelection(at, roleIds, e.matched)
                            && forall i: nat | i < |roleIds| :: i in at <==> Grants(dir, code)(roleIds[i])))
  {
    AnyMeaning(IsUndecided(dir, code), roleIds);
    AnyMeaning(IsInvalid(dir, code), roleIds);
    MapMeaning(StateOf(dir, code), roleIds);
    FilterMeaning(Grants(dir, code), roleIds);
  }

  // ---------- roleDetailsAndPermissions ----------

  datatype Details = DetailsError | Details(roles: seq<RoleState>, permissions: seq<string>)

  /** The codes an enabled role carries; none otherwise. */
  function RoleCodes(dir: Directory): string -> seq<string> {
    roleId => if Enabled(dir, roleId) then AdminRoleDetail(dir, roleId).detail.permissions else []
  }

  function IsUnknown(dir: Directory): string -> bool {
    roleId => RoleStanding(dir, roleId).Unknown?
  }

  function StandingStatus(dir: Directory, roleId: string): string {
    match RoleStanding(dir, roleId)
    case Unknown => ""
    case Standing(status) => status
  }

  function StandingState(dir: Directory): string -> RoleState {
    roleId => RoleState(roleId, StandingStatus(dir, roleId))
  }

  /** What a correct answer of roleDetailsAndPermissions is. */
  ghost predicate IsDetails(dir: Directory, roleIds: seq<string>, d: Details) {
    if Any(IsUnknown(dir), roleIds) then d == DetailsError
    else
      && d.Details?
      && d.roles == Map(StandingState(dir), roleIds)
      && StrictlySorted(d.permissions)
      && forall c :: c in d.permissions <==> c in Union(RoleCodes(dir), roleIds)
  }

  lemma DetailsUnique(dir: Directory, roleIds: seq<string>, d: Details, e: Details)
    requires IsDetails(dir, roleIds, d) && IsDetails(dir, roleIds, e)
    ensures d == e
  {
    if d.Details? {
      SortedIsUnique(d.permissions, e.permissions);
    }
  }

  /** sort.Strings over the keys of the permission set. */
  method SortedKeys(keys: set<string>) returns (sorted: seq<string>)
    ensures StrictlySorted(sorted)
    ensures forall c :: c in sorted <==> c in keys
  {
    sorted := [];
    var rest := keys;
    while rest != {}
      invariant rest <= keys
      invariant StrictlySorted(sorted)
      invariant forall c :: c in sorted <==> c in keys && c !in rest
      decreases rest
    {
      var code :| code in rest;
      InsertSorts(sorted, code);
      sorted := Insert(sorted, code);
      rest := rest - {code};
    }
  }

  /** The inner loop of roleDetailsAndPermissions. */
  method AddCodes(permSet: set<string>, permissions: seq<string>) returns (added: set<string>)
    ensures added == permSet + set c | c in permissions
  {
    added := permSet;
    for j := 0 to |permissions|
      invariant added == permSet + set c | c in permissions[..j]
    {
      added := added + {permissions[j]};
    }
    assert permissions[..|permissions|] == permissions;
  }

  method RoleDetailsAndPermissions(dir: Directory, roleIds: seq<string>) returns (d: Details)
    ensures IsDetails(dir, roleIds, d)
  {
    var roles: seq<RoleState> := [];
    var permSet: set<string> := {};
    for k := 0 to |roleIds|
      invariant !Any(IsUnknown(dir), roleIds[..k])
      invariant roles == Map(StandingState(dir), roleIds[..k])
      invariant permSet == Union(RoleCodes(dir), roleIds[..k])
    {
      assert Front(roleIds[..k + 1]) == roleIds[..k] && Last(roleIds[..k + 1]) == roleIds[k];
      var verdict := AdminRoleDetail(dir, roleIds[k]);
      if verdict.DetailError? {
        AnyPrefix(IsUnknown(dir), roleIds, k + 1);
        return DetailsError;
      }
      var status := if verdict.DetailIs? then NormalizeRoleStatus(verdict.detail) else "missing";
      roles := roles + [RoleState(roleIds[k], status)];
      if status == "enabled" {
        permSet := AddCodes(permSet, verdict.detail.permissions);
      }
    }
    assert roleIds[..|roleIds|] == roleIds;
    var permissions := SortedKeys(permSet);
    return Details(roles, permissions);
  }

  /** The answer as a value, for stating laws about it. */
  ghost function DetailsOf(dir: Directory, roleIds: seq<string>): (d: Details)
    ensures IsDetails(dir, roleIds, d)
  {
    DetailsExist(dir, roleIds);
    var d :| IsDetails(dir, roleIds, d);
    d
  }

  lemma DetailsExist(dir: Directory, roleIds: seq<string>)
    ensures exists d :: IsDetails(dir, roleIds, d)
  {
    if Any(IsUnknown(dir), roleIds) {
      assert IsDetails(dir, roleIds, DetailsError);
    } else {
      var permissions := SortedListExists(Union(RoleCodes(dir), roleIds));
      assert IsDetails(dir, roleIds, Details(Map(StandingState(dir), roleIds), permissions));
    }
  }

  lemma {:induction false} SortedListExists(keys: set<string>) returns (sorted: seq<string>)
    ensures StrictlySorted(sorted)
    ensures forall c :: c in sorted <==> c in keys
  {
    if keys == {} {
      sorted := [];
    } else {
      var code :| code in keys;
      var rest := SortedListExists(keys - {code});
      InsertSorts(rest, code);
      sorted := Insert(rest, code);
    }
  }

  // ---------- the role module's answers as they come ----------

  /** The answer to a detail question that lets a role count as enabled. */
  predicate SaysEnabled(reply: Wire<RoleDetail>) {
    && reply.Reply? && reply.status == 0 && reply.data.Some?
    && TrimSpace(reply.data.value.status) == "enabled" && TrimSpace(reply.data.value.deletedAt) == ""
  }

  /** One that says nothing about the role: no data, or a status other than success and "no such role". */
  predicate TellsNothing(reply: Wire<RoleDetail>) {
    reply.Unreachable? || (reply.status == 0 && reply.data.None?)
    || reply.status !in {0, 2122, 2312, 2322, 2332, 2342}
  }

  /** The answer to a permission question that grants the code. */
  predicate SaysAllowed(reply: Wire<RoleCheck>) {
    && reply.Reply? && reply.status == 0 && reply.data.Some? && reply.data.value.allowed
    && TrimSpace(reply.data.value.roleStatus) in {"", "enabled"}
  }

  /** One that leaves it open. */
  predicate LeavesOpen(reply: Wire<RoleCheck>) {
    reply.Unreachable? || (reply.status == 0 && reply.data.None?) || reply.status !in {0, 2173, 2174}
  }

  /** One that treats the role as enabled, whether it grants the code or not. */
  predicate ChecksEnabled(reply: Wire<RoleCheck>) {
    reply.Reply? && (reply.status == 2174 || (reply.status == 0 && reply.data.Some?
                                             && TrimSpace(reply.data.value.roleStatus) in {"", "enabled"}))
  }

  /** What one detail answer makes of a role. */
  lemma StandingOnReply(dir: Directory, roleId: string)
    ensures var reply, standing := dir.detail(roleId), RoleStanding(dir, roleId);
      && (Enabled(dir, roleId) <==> SaysEnabled(reply))
      && (standing.Unknown? <==> TellsNothing(reply))
      && (standing == Standing("missing") <==>
            reply.Reply? && (reply.status in {2122, 2312, 2322, 2332, 2342}
              || (reply.status == 0 && reply.data.Some? && TrimSpace(reply.data.value.deletedAt) == ""
                  && TrimSpace(reply.data.value.status) in {"", "missing"})))
      && (standing == Standing("deleted") <==>
            reply.Reply? && reply.status == 0 && reply.data.Some?
            && (TrimSpace(reply.data.value.status) == "deleted" || TrimSpace(reply.data.value.deletedAt) != ""))
  {
  }

  /** Any other status is reported as it is, without the white space around it. */
  lemma OtherStanding(dir: Directory, roleId: string)
    requires var reply := dir.detail(roleId);
      && reply.Reply? && reply.status == 0 && reply.data.Some? && TrimSpace(reply.data.value.deletedAt) == ""
      && TrimSpace(reply.data.value.status) !in {"", "deleted"}
    ensures RoleStanding(dir, roleId) == Standing(TrimSpace(dir.detail(roleId).data.value.status))
  {
  }

  lemma CheckOnReply(dir: Directory, code: string, roleId: string)
    ensures var reply, verdict := dir.check(roleId, code), AdminRoleCheckPermission(dir, roleId, code);
      && (verdict.CheckError? <==> LeavesOpen(reply))
      && (verdict.Checked? && verdict.roleStatus == "enabled" <==> ChecksEnabled(reply))
      && (verdict.Checked? && verdict.allowed <==> SaysAllowed(reply))
  {
  }

  /** What the two answers make of one role and one code. */
  lemma JudgeOnReplies(dir: Directory, code: string, roleId: string)
    ensures var detail, check, verdict := dir.detail(roleId), dir.check(roleId, code), Judge(dir, code, roleId);
      && (verdict.Undecided? <==> TellsNothing(detail) || (SaysEnabled(detail) && LeavesOpen(check)))
      && (verdict.Judged? && verdict.granted <==> SaysEnabled(detail) && SaysAllowed(check))
      && (verdict.Judged? && verdict.status == "enabled" <==> SaysEnabled(detail) && ChecksEnabled(check))
  {
    StandingOnReply(dir, roleId);
    CheckOnReply(dir, code, roleId);
  }

  /** For every enabled role, the permission check says what the role's detail lists. */
  ghost predicate Consistent(dir: Directory) {
    forall roleId, code | SaysEnabled(dir.detail(roleId)) ::
      && ChecksEnabled(dir.check(roleId, code))
      && (SaysAllowed(dir.check(roleId, code)) <==> HasCode(dir.detail(roleId), code))
  }

  predicate HasCode(reply: Wire<RoleDetail>, code: string) {
    reply.Reply? && reply.data.Some? && code in reply.data.value.permissions
  }

  /** The codes of an enabled role are those its detail lists. */
  lemma CodesOnReply(dir: Directory, roleId: string, code: string)
    ensures code in RoleCodes(dir)(roleId) <==> SaysEnabled(dir.detail(roleId)) && HasCode(dir.detail(roleId), code)
  {
    StandingOnReply(dir, roleId);
  }
}
