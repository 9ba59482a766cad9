/** The three endpoints that judge an account's permissions agree with one another. */
module Verdicts {
  import opened Text
  import L = Lists
  import opened RoleClient
  import opened Store
  import opened Handlers

  /** The permission endpoint succeeds and allows. */
  predicate Allows(answer: Answer) {
    answer.status == 0 && answer.data.Permission? && answer.data.allowed
  }

  /** The profile endpoint succeeds for an account that is no super administrator and lists the code. */
  predicate Lists(answer: Answer, code: string) {
    answer.status == 0 && answer.data.Profile?
    && !answer.data.profile.isSuperAdmin && code in answer.data.permissionCodes
  }

  lemma FoundHasOneRole(store: Store, id: string, dir: Directory, fault: nat)
    ensures var found := GetById(store, id, dir, fault).1;
      found.Found? && !found.account.isSuperAdmin ==> |found.roleIds| == 1
  {
  }

  /** A resolved account that is no super administrator carries exactly one role. */
  ghost predicate HasOneRole(session: Session) {
    session.AccountOk? && !session.account.isSuperAdmin ==> |session.roleIds| == 1
  }

  lemma ByRedisHasOneRole(store: Store, token: string, env: Env)
    ensures HasOneRole(ByRedis(store, token, env).1)
  {
    var answer := env.redis(TrimSpace(token));
    if answer.SessionOf? {
      FoundHasOneRole(store, answer.accountId, env.dir, env.redisFault);
    }
  }

  lemma ByProjectHasOneRole(store: Store, token: string, env: Env)
    ensures HasOneRole(ByProject(store, token, env).1)
  {
    var answer := env.project(TrimSpace(token));
    if answer.FromHook? {
      FoundHasOneRole(store, TrimSpace(answer.hookId), env.dir, env.projectFault);
    } else if answer.FromTable? {
      FoundHasOneRole(store, answer.tableId, env.dir, env.projectFault);
    }
  }

  lemma ResolvedHasOneRole(store: Store, token: string, env: Env)
    ensures HasOneRole(ByAnyToken(store, token, env).1)
  {
    ByRedisHasOneRole(store, token, env);
    ByProjectHasOneRole(ByRedis(store, token, env).0, token, env);
  }

  lemma EvaluateSingle(dir: Directory, code: string, roleId: string)
    ensures match Judge(dir, code, roleId)
      case Undecided => Evaluate(dir, code, [roleId]) == EvaluationError
      case Judged(status, granted) =>
        Evaluate(dir, code, [roleId])
          == Evaluated(if status == "enabled" && granted then [roleId] else [], [RoleState(roleId, status)])
  {
    L.Singletons(IsUndecided(dir, code), StateOf(dir, code), RoleCodes(dir), roleId);
    L.Singletons(IsInvalid(dir, code), StateOf(dir, code), RoleCodes(dir), roleId);
    L.Singletons(Grants(dir, code), StateOf(dir, code), RoleCodes(dir), roleId);
  }

  lemma DetailsSingle(dir: Directory, roleId: string)
    ensures var d := DetailsOf(dir, [roleId]);
      match RoleStanding(dir, roleId)
      case Unknown => d == DetailsError
      case Standing(status) =>
        && d.Details? && d.roles == [RoleState(roleId, status)] && StrictlySorted(d.permissions)
        && forall c :: c in d.permissions <==> c in RoleCodes(dir)(roleId)
  {
    L.Singletons(IsUnknown(dir), StandingState(dir), RoleCodes(dir), roleId);
    var d := DetailsOf(dir, [roleId]);
    assert IsDetails(dir, [roleId], d);
  }

  lemma ManageIsValidCode()
    ensures ValidPermissionCode(MANAGE) && TrimSpace(MANAGE) == MANAGE
  {
    assert |MANAGE| == 20;
    assert forall i | 0 <= i < |MANAGE| :: IsCodeChar(MANAGE[i]);
  }

  lemma GateMatchesAnswer(dir: Directory, session: Session, codes: Codes)
    requires HasOneRole(session)
    ensures Judgment(dir, session, codes).Admitted?
      <==> Allows(PermissionAnswer(dir, session, MANAGE))
  {
    if session.AccountOk? && !session.account.isSuperAdmin {
      assert session.roleIds == [session.roleIds[0]];
      EvaluateSingle(dir, MANAGE, session.roleIds[0]);
    }
  }

  /** For a nonblank token the management gate admits exactly when the permission endpoint, asked for the management
      permission, answers status 0 and allowed; and both leave the same store. */
  lemma GateIffPermitted(store: Store, token: string, env: Env, codes: Codes)
    requires TrimSpace(token) != ""
    ensures var (gateStore, gate) := RequireManage(store, token, env, codes);
            var (checkStore, answer) := CheckPermission(store, token, MANAGE, env);
            && gateStore == checkStore
            && (gate.Admitted? <==> Allows(answer))
  {
    ManageIsValidCode();
    ResolvedHasOneRole(store, token, env);
    var session := ByAnyToken(store, token, env).1;
    GateMatchesAnswer(env.dir, session, codes);
    assert ByAnyToken(store, TrimSpace(token), env) == ByAnyToken(store, token, env);
  }

  /** An enabled account without the super flag, found with the one role. */
  predicate Ordinary(session: Session, roleId: string) {
    session.AccountOk? && session.account.status == "enabled" && !session.account.isSuperAdmin
    && session.roleIds == [roleId]
  }

  /** Such an account passes the gate if and only if the role module says that its role is enabled and that it has the
      management permission; otherwise the code tells a question that failed from a permission that is not there. */
  lemma GateOnReplies(dir: Directory, session: Session, roleId: string, codes: Codes)
    requires Ordinary(session, roleId)
    ensures var detail, check := dir.detail(roleId), dir.check(roleId, "admin_account.manage");
      Judgment(dir, session, codes) ==
        if SaysEnabled(detail) && SaysAllowed(check) then Admitted(session.account)
        else if TellsNothing(detail) || (SaysEnabled(detail) && LeavesOpen(check)) then Refused(codes.failure)
        else Refused(codes.denied)
  {
    EvaluateSingle(dir, MANAGE, roleId);
    JudgeOnReplies(dir, MANAGE, roleId);
  }

  /** A super administrator passes without a question; nobody else passes who is not enabled and found. */
  lemma GateOnSession(dir: Directory, session: Session, codes: Codes)
    ensures session.AccountOk? && session.account.status == "enabled" && session.account.isSuperAdmin ==>
      Judgment(dir, session, codes) == Admitted(session.account)
    ensures !session.AccountOk? || session.account.status != "enabled" ==>
      Judgment(dir, session, codes) == Refused(codes.invalid)
  {
  }

  /** The permission endpoint allows such an account a code under the same condition with that code. */
  lemma PermissionOnReplies(dir: Directory, session: Session, roleId: string, code: string)
    requires Ordinary(session, roleId)
    ensures var detail, check := dir.detail(roleId), dir.check(roleId, code);
      PermissionAnswer(dir, session, code) ==
        if TellsNothing(detail) || (SaysEnabled(detail) && LeavesOpen(check)) then Error(2275)
        else if !SaysEnabled(detail) || !ChecksEnabled(check) then Error(2274)
        else
          var allowed := SaysAllowed(check);
          Answer(0, Permission(allowed, false, if allowed then [roleId] else [], [RoleState(roleId, "enabled")]))
  {
    EvaluateSingle(dir, code, roleId);
    JudgeOnReplies(dir, code, roleId);
  }

  /** The profile endpoint lists for such an account the codes of its role's detail, each once and in order. */
  lemma ProfileOnReplies(dir: Directory, session: Session, roleId: string)
    requires Ordinary(session, roleId)
    ensures var detail, answer := dir.detail(roleId), ProfileAnswer(dir, session);
      if TellsNothing(detail) then answer == Error(2215)
      else if !SaysEnabled(detail) then answer == Error(2214)
      else
        && answer.status == 0 && answer.data.Profile? && answer.data.profile == session.account
        && answer.data.roles == [RoleState(roleId, "enabled")] && StrictlySorted(answer.data.permissionCodes)
        && forall code :: code in answer.data.permissionCodes <==> code in detail.data.value.permissions
  {
    DetailsSingle(dir, roleId);
    StandingOnReply(dir, roleId);
    if SaysEnabled(dir.detail(roleId)) {
      forall code ensures code in ProfileAnswer(dir, session).data.permissionCodes
        <==> code in dir.detail(roleId).data.value.permissions
      {
        CodesOnReply(dir, roleId, code);
      }
    }
  }

  /** What both endpoints answer to anybody else. */
  lemma OtherSessions(dir: Directory, session: Session, code: string)
    ensures session.AccountOk? && session.account.status == "enabled" && session.account.isSuperAdmin ==>
      && PermissionAnswer(dir, session, code) == Answer(0, Permission(true, true, [], []))
      && ProfileAnswer(dir, session) == Answer(0, Profile(session.account, [], []))
    ensures session.AccountOk? && session.account.status != "enabled" ==>
      PermissionAnswer(dir, session, code) == Error(2274) && ProfileAnswer(dir, session) == Error(2214)
    ensures session.AccountInvalidRole? ==>
      PermissionAnswer(dir, session, code) == Error(2274) && ProfileAnswer(dir, session) == Error(2214)
    ensures session.AccountMissing? ==>
      PermissionAnswer(dir, session, code) == Error(2274) && ProfileAnswer(dir, session) == Error(2213)
    ensures session.SessionMissing? ==>
      PermissionAnswer(dir, session, code) == Error(2272) && ProfileAnswer(dir, session) == Error(2212)
  {
  }

  lemma AnswerMatchesProfile(dir: Directory, session: Session, code: string)
    requires Consistent(dir)
    requires HasOneRole(session)
    ensures var answer, profile := PermissionAnswer(dir, session, code), ProfileAnswer(dir, session);
      Allows(answer) && !answer.data.superAdmin <==> Lists(profile, code)
  {
    OtherSessions(dir, session, code);
    if session.AccountOk? && session.account.status == "enabled" && !session.account.isSuperAdmin {
      var roleId := session.roleIds[0];
      assert session.roleIds == [roleId];
      PermissionOnReplies(dir, session, roleId, code);
      ProfileOnReplies(dir, session, roleId);
    }
  }

  /** When the role module's check agrees with its detail, the permission endpoint allows a code to an account that is
      no super administrator exactly when the code is well-formed and the profile endpoint succeeds and lists it. */
  lemma AllowedIffListed(store: Store, token: string, code: string, env: Env)
    requires Consistent(env.dir)
    ensures var answer, profile := CheckPermission(store, token, code, env).1, Me(store, token, env).1;
      Allows(answer) && !answer.data.superAdmin <==>
          ValidPermissionCode(TrimSpace(code)) && Lists(profile, TrimSpace(code))
  {
    ResolvedHasOneRole(store, TrimSpace(token), env);
    AnswerMatchesProfile(env.dir, ByAnyToken(store, TrimSpace(token), env).1, TrimSpace(code));
  }
}
