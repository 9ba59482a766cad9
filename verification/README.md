# Verification of the admin account service

A Dafny 4.11 model of the admin account service and proofs about it. The service keeps operator accounts and their role
bindings in PostgreSQL tables or, without a database, in two maps; it asks a separate role module whether a role is
enabled and what it permits; it keeps sessions in Redis; it hands out one temporary super administrator that a worker
disables; and it carries a small self-test runner with a template engine. `dafny verify dfyconfig.toml` checks the project.

## How the model is laid out

| file | what it holds |
|---|---|
| `text.dfy`, `lists.dfy` | trimming, ID patterns, Go's order of strings; folds over lists |
| `role_client.dfy` | the role module as any function from questions to answers, and the loops that evaluate roles |
| `store.dfy` | both backends as values: rows and bindings, or two maps, and every operation with a failure at any statement |
| `schema.dfy` | the constraints of the tables and what keeps them |
| `backends.dfy` | the two backends simulate each other, starting from empty memory and the freshly created tables |
| `handlers.dfy`, `verdicts.dfy` | session resolution and the handlers; what the role module's answers make of a permission, and that the three endpoints that judge one agree |
| `resolution.dfy`, `answer_codes.dfy` | which account a lookup, a token or the headers lead to, and the code of every answer, told from stored rows and the role module's answers as they come |
| `atomicity.dfy`, `outcomes.dfy` | failures leave nothing half done; what answer 0 of each write request means for the store |
| `credentials.dfy` | exactly when an account, and the temporary one, can log in |
| `machine.dfy`, `steps.dfy` | the service in SQL mode as a machine in which every statement outside a transaction is a step of its own; the steps of one request alone are its handler |
| `reachable.dfy`, `sessions.dfy`, `temporary.dfy` | what every run keeps: constraints, tokens, the temporary administrator |
| `guard.dfy`, `exposure.dfy` | super administrators' records are changed only by super administrators, and exactly when that holds |
| `runs.dfy`, `incidents.dfy`, `survival.dfy`, `lifetime.dfy` | runs that reach the states in which a promise fails, and exactly when there are none |
| `plugin.dfy` | the plugin object with its fields and methods, each proved to do what the functions above say, and its handlers to end as the outcomes say |
| `template.dfy`, `template_run.dfy`, `json_path.dfy` | the template engine and the dotted JSON lookup of the self-test runner |
| `short_id.dfy`, `rfc3339.dfy`, `listing.dfy` | generated IDs, timestamps as texts, the paged account list |

A position of a failing statement is a number; a number past the last statement means that nothing fails. The role module
is an arbitrary function that may answer nothing, an error code, or a status with data. Hashes, tokens, IDs, clock readings
and the order of new bindings are parameters; the machine asks only that tokens and generated IDs are fresh. A step that
is not possible in a state changes nothing, so runs range over all sequences of events.

## What the proofs found

- The guard on super administrators looks at the target's row, and the write comes later. From a store that already holds
  the fixed ID without the super flag it can fail: a request reads that row, a creation of the temporary administrator sets
  the flag, and the write of the ordinary operator hits a super administrator's record. As long as an account can still be
  created, there is such a run exactly when the unflagged row stands beside any account that can pass the gate; a super
  administrator there can first create the ordinary operator. The row and the roles of a lookup are read by two statements,
  so it does not matter whether the unflagged row has a role to begin with. From every other store, and so from the one that
  the service creates, the guard holds in every interleaving (`Exposure.GuardedIffNotExposed`, `Guard.SeededRunsAreGuarded`).
- The seed row has no expiry. Once an update enables it, it stays enabled until a creation, or a write that disables or
  deletes it; no scan ends it (`Temporary.NoExpiryNeverDisabled`). Some run gets there if and only if the store holds a second
  super administrator, enabled or not (`Lifetime.NeverEnabledForGoodIff`): the temporary administrator can enable the second,
  who deletes the temporary record; the next load inserts the seed row again, and the second enables it
  (`Incidents.SecondEnablesSeed`). While the seed row is the only super administrator's, the bound of eleven minutes needs no
  condition on the expiry (`Lifetime.EnabledAtMostElevenMinutesAlways`).
- A token of the temporary record, deleted through the API, works again after the next creation, and then for a super
  administrator (`Sessions.CreationRevivesTokens`); after a load it resolves to the disabled seed row
  (`Sessions.LoadRevivesTokens`). A token outlives the record in some run if and only if the store holds a
  second super administrator, enabled or not (`Survival.TokenOutlivesIff`). Tokens of all other accounts stay dead.
- A compaction that arrives after an update deletes the new role and leaves the account with none
  (`Incidents.RaceLeavesNoRole`, `Reachable.LateCompactionKeepsRoleIff`). Beside another operator, an ordinary account
  other than the fixed one, with a well-formed ID and a nonblank role, is safe from that exactly when it starts with a single
  role (`Survival.RoleIsKeptIff`).
- Compaction compares the trimmed role with the stored text. An account bound to " r1" and "r2" has the role r1 when it is
  first read and none when it is read again (`Backends.PaddedRoleIsLost`). All role answers give the same role on both reads
  exactly when at most one role is stored, or the trimmed text of every nonblank one is stored too
  (`Backends.ReadsAgreeIff`).
- Login never looks at `expires_at` (`Credentials.LoginIgnoresExpiry`): an expired temporary account without a role logs in
  until the next scan (`Credentials.ExpiredCredentialLogsIn`). It does look at roles, which an update gives the fixed record
  and a creation leaves there: a freshly generated credential is refused when that role is not enabled or the role module
  does not answer (`Credentials.CredentialRefused`, `Credentials.RecoveryLogsInIff`).
- A page number for which (page - 1) * page_size overflows int64 makes the slice panic or returns another page
  (`Listing.PageIsIntendedIff`, `Listing.OverflowingPages`).
- The comment on `${rand:N}` says 2 to 32 digits; the code also accepts 1 and treats everything else as 6. The model follows
  the code.

## Model

| member | source | states |
|---|---|---|
| `Text.TrimSpaceIs` | account_handlers.go:24 | trimming gives the text between the white space on either side |
| `Text.SpacesOfUnicode` | account_handlers.go:24 | the white space is that of Unicode, character by character |
| `Text.WidthIsLeast` | account_handlers.go:425-431 | the length of a character is the shortest UTF-8 form that can carry it |
| `Text.ByteLenAdds` | account_handlers.go:425-431 | and lengths add up |
| `Text.ValidIdMeaning` | account_handlers.go:433-440 | an ID is valid exactly if, trimmed, it has 8 to 64 letters, digits, hyphens or underscores, as every UUID has |
| `Text.UuidIsFiveGroups` | account_handlers.go:13 | a UUID is five groups of hexadecimal digits with hyphens between them |
| `Text.ValidCodeMeaning` | account_handlers.go:442-444 | a permission code has 3 to 80 of its characters |
| `Text.LessMeaning` | admin_role_client.go:118 | the first difference decides, and a text comes after those it continues |
| `RoleClient.RolesAvailable` | admin_role_client.go:35-49 | the loop over the roles answers as the rule does, stopping at the first role that is not enabled |
| `RoleClient.AvailabilityMeaning` | admin_role_client.go:35-49 | all roles are enabled, or the first that is not decides between "no" and "cannot tell" |
| `RoleClient.JudgeRole` | admin_role_client.go:60-88 | one iteration asks for the detail, and for the permission only of an enabled role; RoleClient.JudgeOnReplies says what the two answers make of it |
| `RoleClient.EvaluateRolePermission` | admin_role_client.go:56-91 | the loop with its flag and two lists computes the rule over the whole list |
| `RoleClient.EvaluationMeaning` | admin_role_client.go:56-91 | an error exactly when one role is undecided; otherwise one state per role in input order, and the matched roles are the granting ones in input order, or none when one role is not enabled |
| `RoleClient.SortedKeys` | admin_role_client.go:114-118 | the codes of the set, strictly sorted |
| `RoleClient.RoleDetailsAndPermissions` | admin_role_client.go:93-119 | an error exactly when one question fails; otherwise the states in order and the strictly sorted union of the enabled roles' codes |
| `RoleClient.DetailsUnique` | admin_role_client.go:93-119 | there is only one correct answer |
| `RoleClient.StandingOnReply` | admin_role_client.go:121-178 | a role is enabled exactly when its detail is answered 0 with data, trimmed status enabled and no deletion time; unknown, missing and deleted likewise, from the answer as it comes |
| `RoleClient.OtherStanding` | admin_role_client.go:166-178 | any other status is reported trimmed |
| `RoleClient.CheckOnReply` | admin_role_client.go:140-164 | what the permission answer says: allowed needs status 0, allowed, and a role status that is blank or enabled |
| `RoleClient.JudgeOnReplies` | admin_role_client.go:60-88 | a role grants a code exactly when its detail says enabled and its permission answer says allowed; it is undecided exactly when an answer that counts says nothing |
| `RoleClient.CodesOnReply` | admin_role_client.go:106-111 | the codes of an enabled role are those its detail lists |
| `Store.FirstEnabledMeaning` | account_role_storage.go:46-63 | several roles are normalised to the first nonblank enabled one; an oracle error before it stops the search; with neither there is no valid role |
| `Resolution.FindsSingleRole` | account_role_storage.go:40-43 | a single nonblank role is taken as it stands, trimmed, and nothing is asked |
| `Resolution.FindsNoRole` | account_storage.go:137-139 | without a usable role only a super administrator is found, with no role |
| `Resolution.FindsFirstEnabled` | account_role_storage.go:46-63 | of several roles the first that is neither blank nor said not to be enabled is found if it is said to be enabled, and it alone is kept if its trimmed text was stored |
| `Resolution.FailsOnQuestion` | account_role_storage.go:51-54 | a question that says nothing fails the lookup before that |
| `Resolution.FailsOnStatement` | account_storage.go:128-140 | so does a failing statement, the compaction's among them |
| `Resolution.NameLeads` | account_storage.go:156-186 | the lookup of a name is that of the account with the name, and finds nobody without one |
| `Resolution.FindsNobody` | account_storage.go:125-154 | an ID that no account has finds nobody, unless the row query fails |
| `Schema.RolesOfMembers` | account_storage.go:208-222 | the ordered query returns exactly the bound roles |
| `Schema.RolesAreOrdered` | account_storage.go:208-222 | each binding once, by time and identifier |
| `Schema.KeepOnlyMembers` | account_role_storage.go:73-78 | compaction deletes exactly the account's other bindings |
| `Schema.KeepOnlyOwn` | account_role_storage.go:73-78 | with unique pairs, the account is left with the chosen role if it was bound, and with none otherwise |
| `Schema.ReplaceRolesEffect` | account_role_storage.go:27-37 | a replacement that succeeds leaves the account with exactly the new bindings and the others untouched |
| `Schema.NewRolesInOrder` | account_role_storage.go:27-37 | reading them back gives the list in the order given |
| `Schema.CreateKeepsSchema` | account_storage.go:225-254 | a create keeps keys, unique names, foreign keys and unique pairs |
| `Schema.UpdateKeepsSchema` | account_storage.go:334-360 | an update keeps them |
| `Schema.ResetKeepsSchema` | account_storage.go:375-391 | a password reset keeps them |
| `Schema.DeleteKeepsSchema` | account_delete_storage.go:8-33 | a delete keeps them; no binding is orphaned |
| `Schema.GenerateKeepsSchema` | account_temporary_admin.go:65-77 | the upsert of the fixed row keeps them |
| `Schema.TickKeepsSchema` | account_temporary_admin.go:116-123 | a scan keeps them |
| `Schema.AddIndexKeepsSchema` | account_storage.go:71-87 | so does the index of a load: where no account has two bindings the new constraint holds |
| `Schema.AddSeedKeepsSchema` | account_storage.go:100-106 | so does its seed row |
| `Schema.RolesKeepSchema` | account_role_storage.go:39-79 | a read with its compaction keeps them |
| `Backends.InsertionSucceedsIff` | account_role_storage.go:31-35 | the inserts succeed exactly when no role repeats and the one-role index is respected |
| `Backends.CreateSucceedsIff` | account_storage.go:225-254 | a create succeeds exactly when no statement from begin to commit fails, ID and name are free, no role repeats and the index is respected |
| `Backends.UpdateSucceedsIff` | account_storage.go:334-360 | an update of an existing account likewise; one of none finds it absent unless it fails before |
| `Backends.OthersSucceedIff` | account_delete_storage.go:8-33 | a reset and a delete of an existing account succeed exactly when no statement fails |
| `Schema.GenerateMeaning` | account_temporary_admin.go:65-77 | a creation succeeds exactly when its statement does and no other account has the name; then the fixed row is as asked for, with the time of creation it had; otherwise nothing changes |
| `Backends.CreateAgreesIff` | account_storage.go:225-262 | a create answers the same on both backends exactly when ID and name are free, no role repeats and the index is respected |
| `Backends.CreateSimulates` | account_storage.go:225-262 | the same answer and related states, for a create: memory holds what the tables hold but the fixed record |
| `Backends.UpdateSimulates` | account_storage.go:334-373 | for an update |
| `Backends.ResetSimulates` | account_storage.go:375-403 | for a password reset |
| `Backends.DeleteSimulates` | account_delete_storage.go:8-43 | for a delete |
| `Backends.CompactSimulates` | account_role_storage.go:66-79 | for a compaction to a bound role |
| `Backends.ReadSimulates` | account_storage.go:125-186 | for a read: one backend overwrites the role list, the other deletes the rest |
| `Backends.LookUpSimulates` | account_storage.go:125-186 | for lookups by ID and by name |
| `Backends.CompactionSimulates` | account_role_storage.go:66-79 | overwriting the list and deleting the other rows are the same when the chosen role is stored |
| `Backends.CompactionAgreesIff` | account_role_storage.go:66-79 | a compaction leaves the backends alike exactly when the chosen role is bound to the account |
| `Backends.BackendsAgree` | account_storage.go:125-403 | over every admissible sequence of operations, compactions among them, both backends return the same results and end in related states |
| `Backends.BackendsAgreeFromStart` | account_storage.go:100-123 | so from the start: empty memory, and the tables with the seed row alone |
| `Backends.SeedIsSeenIff` | account_storage.go:100-106 | a lookup by ID tells related backends apart exactly when it asks for the fixed record and the table holds it |
| `Backends.ReadsAgreeIff` | account_role_storage.go:39-79 | a read and the next one find the same role under all role answers exactly when at most one role is stored, or the trimmed text of every nonblank stored role is stored too |
| `Backends.PaddedRoleIsLost` | account_role_storage.go:46-78 | the smallest case: an account bound to " r1" and "r2" is read with the role r1, and then with none |
| `Backends.SecondReadAgreesIff` | account_role_storage.go:39-79 | a second read under any role statuses returns the same role and changes nothing exactly when one role was stored or the chosen one is stored as it was read |
| `Backends.SecondMemoryReadAgrees` | account_role_storage.go:39-72 | in memory it always does |
| `Verdicts.FoundHasOneRole` | account_storage.go:125-154 | a found account without the super flag carries exactly one role |
| `Verdicts.ResolvedHasOneRole` | account_handlers.go:344-395 | so does every account that a token resolves to |
| `Verdicts.GateOnReplies` | account_handlers.go:410-422 | an enabled ordinary account with one role is admitted exactly when the role module says that the role is enabled and has admin_account.manage; otherwise the code tells a failed question from a missing permission |
| `Verdicts.GateOnSession` | account_handlers.go:402-411 | a super administrator is admitted without a question, and nobody who is not found or not enabled |
| `Verdicts.PermissionOnReplies` | account_handlers.go:322-341 | the permission endpoint's whole answer to such an account, from the two answers |
| `Verdicts.ProfileOnReplies` | account_handlers.go:467-494 | the profile endpoint's: the codes of the role's detail, each once and sorted |
| `Verdicts.OtherSessions` | account_handlers.go:74-100 | what both answer to super administrators, disabled accounts and sessions without an account |
| `Resolution.RedisLeads` | account_handlers.go:344-362 | a token that Redis knows leads to its account, and to the project's session only if that lookup fails |
| `Resolution.ProjectLeads` | account_handlers.go:356-362 | one that Redis does not know leads where the project says |
| `Resolution.ProjectRules` | account_session_storage.go:70-112 | the hook's account is trimmed and the table's is not; no session, an error, a blank account and a missing one are told apart |
| `Resolution.GateLooksAtToken` | account_handlers.go:397-401 | the gate looks at the headers only if the request has no token |
| `Resolution.GateLooksAtAccountHeader` | account_handlers.go:365-374 | at the account ID first |
| `Resolution.GateLooksAtTokenHeaders` | account_handlers.go:376-387 | and then at the first nonblank of three tokens, the last without its scheme |
| `Resolution.AdmittedIff` | account_handlers.go:397-423 | from store and token to the verdict: an ordinary account with one role is admitted exactly when it is enabled, its role is said to be enabled and to have the management permission |
| `Resolution.AllowedIff` | account_handlers.go:287-342 | and is allowed a well-formed code under the same condition with that code |
| `Verdicts.GateIffPermitted` | account_handlers.go:287-423 | for a nonblank token the management gate admits exactly when the permission endpoint answers 0 and allowed, and both leave the same store |
| `Verdicts.AllowedIffListed` | account_handlers.go:67-100 | when the answers to both questions agree for every enabled role, the permission endpoint allows a code to an ordinary account exactly when the profile endpoint succeeds and lists it |
| `Verdicts.EvaluateSingle` | admin_role_client.go:56-91 | the evaluation of one role is its verdict |
| `Verdicts.DetailsSingle` | admin_role_client.go:93-119 | the details of one role are its status and its codes |
| `Atomicity.CreateAllOrNothing` | account_storage.go:231-254 | with a failure at any statement a create adds one row and its bindings, or changes nothing |
| `Atomicity.UpdateAllOrNothing` | account_storage.go:335-360 | an update changes row and bindings together, or nothing |
| `Atomicity.DeleteAllOrNothing` | account_delete_storage.go:8-33 | a delete removes the row and all its bindings, or nothing |
| `Atomicity.GetByIdCompacts` | account_storage.go:125-154 | a lookup changes no account record, and leaves every role list as it was or, if it had several entries, reduced to the trimmed text of a nonblank one; in the tables to none if that text is not stored |
| `Atomicity.GateCompacts` | account_handlers.go:397-423 | neither does the gate more than that |
| `Atomicity.ReadersOnlyCompact` | account_handlers.go:18-100 | nor do login, profile and permission check |
| `Atomicity.CreateFailureOnlyCompacts` | account_handlers.go:145-183 | a create answered with a code other than 0 does no more than that on either backend |
| `Atomicity.UpdateFailureOnlyCompacts` | account_handlers.go:234-285 | nor does an update |
| `Atomicity.ResetFailureOnlyCompacts` | account_reset_password.go:9-54 | nor does a password reset |
| `Atomicity.DeleteFailureOnlyCompacts` | account_delete.go:9-54 | nor does a delete |
| `Atomicity.CreateKeepsNamesUnique` | account_handlers.go:145-183 | in memory mode a create request handled as one step keeps the names unique |
| `Outcomes.CreateEnds` | account_handlers.go:145-183 | a create answered 0 was admitted, gave one well-formed role that is enabled, a name and a password of the right lengths and a status, and has added exactly the account asked for with its one role under a free name, which is also what it answers; every other account's roles are as before or compacted; any other answer only compacts; the constraints stay |
| `Outcomes.UpdateEnds` | account_handlers.go:234-285 | an update answered 0 came from an operator who may change the record, named one well-formed enabled role and a status, and gave them to the record, as it answers; other records are untouched and their roles as before or compacted; any other answer only compacts |
| `Outcomes.ResetEnds` | account_reset_password.go:9-54 | a password reset answered 0 likewise, with a password of the right length, changed hash and time of that record alone and answers its ID and time; every account's roles are as before or compacted |
| `Outcomes.DeleteEnds` | account_delete.go:9-54 | a delete answered 0 likewise, not of the operator himself, and removed that record and its roles; other records are untouched and their roles as before or compacted |
| `AnswerCodes.LoginCode` | account_handlers.go:18-65 | the code of every login, check by check, and its data |
| `AnswerCodes.EntryCodes` | account_handlers.go:67-72 | what the profile and the permission endpoint check before the account is asked about |
| `AnswerCodes.CreateCode` | account_handlers.go:158-182 | code, data and store of every create of an admitted operator, check by check |
| `AnswerCodes.UpdateCode` | account_handlers.go:250-284 | of every update |
| `AnswerCodes.ResetCode` | account_reset_password.go:23-53 | of every password reset |
| `AnswerCodes.DeleteCode` | account_delete.go:22-53 | of every delete |
| `AnswerCodes.RefusedCodes` | account_handlers.go:397-423 | the gate's codes for the four requests |
| `Outcomes.LoginIsSound` | account_handlers.go:18-65 | on either backend, whatever fails, a login answered 0 is a credential with the drawn token, kept in Redis, for an enabled account with the trimmed name and the hash of the password |
| `Outcomes.UnknownNameIsRefused` | account_handlers.go:29-41 | a well-formed login under a name that no account has is answered 2202 |
| `Outcomes.KeyIsUnique` | account_storage.go:174-184 | with unique names the account that a loop over them stops at is the only one with the name |
| `Credentials.CreatedCanLogIn` | account_handlers.go:18-183 | on either backend, an account created with answer 0 logs in, while its role is said to be enabled, with the password it was given and with none of another hash; a disabled one is told so |
| `Credentials.LoginIff` | account_handlers.go:18-65 | a login under an account's name answers 0 exactly when the password is well-formed and of its hash, its status is enabled and its stored roles let it through; then it hands out a token for that account |
| `Credentials.ResetDecidesLogin` | account_storage.go:375-391 | after a reset any account, super administrators and the temporary one among them, logs in with a well-formed password of the new hash and no other, exactly when it could before but for the password |
| `Credentials.LoginIgnoresExpiry` | account_handlers.go:18-65 | whatever a record's expiry is set to, every login answers the same |
| `Credentials.RecoveryLogsInIff` | account_temporary_admin.go:40-87 | a generated credential logs in exactly when the roles the fixed record has kept allow it: a single one is said to be enabled, the first of several that counts is, or there is none |
| `Credentials.ExpiredCredentialLogsIn` | account_temporary_admin.go:35-77 | a generated credential whose record has no role logs in however long ago it expired, until a scan disables it |
| `Credentials.CredentialRefused` | account_handlers.go:42-55 | a freshly generated credential is refused, with 2204 or 2203, when the one role of the fixed record is not said to be enabled |
| `Steps.LookupInThreeSteps` | account_storage.go:125-186 | the statements of a lookup, one failing at most, one after the other, are the lookup |
| `Steps.GateInSevenSteps` | account_handlers.go:344-423 | so are those of the gate, with its fallback from Redis to the project's sessions |
| `Steps.HandlerIsItsSteps` | account_handlers.go:234-285 | all the statements of a request, with nothing in between, do to the tables what the handler does, for all four write requests, leave nothing of the request behind, and record who changed whom exactly when an update, a reset or a delete is answered 0 |
| `Steps.LoginIsItsSteps` | account_handlers.go:18-65 | the statements of a login, with nothing in between, do what its handler does, and the token it answers with is stored for its holder and the lifetime of sessions |
| `Reachable.ReadersKeepDb` | account_storage.go:125-222 | no step but a write, a creation, a scan, a load or a compaction touches the tables |
| `Atomicity.CompactionShrinks` | account_role_storage.go:73-78 | a compaction keeps the rows and adds no binding |
| `Reachable.ReadersShrink` | account_handlers.go:397-423 | so reading only shrinks bindings |
| `Reachable.PerformEffect` | account_storage.go:225-403 | a performed write keeps the constraints and adds at most the drawn ID; no account ends with more bindings than the larger of one and what it had |
| `Reachable.RunKeepsBasic` | account_role_storage.go:27-79 | in every run every binding belongs to an existing account and no account exceeds the larger of one and its starting number of bindings |
| `Reachable.LateCompactionKeepsRoleIff` | account_role_storage.go:73-78 | a late compaction leaves the chosen role exactly when it is still bound, and no role otherwise |
| `Sessions.TokensNeverCross` | account_session_storage.go:12-68 | in every run an issued token resolves to the account it was issued to or to none |
| `Sessions.TokenLivesForItsTime` | account_session_storage.go:12-31 | in every run a token is good for exactly the lifetime of sessions after its login: until then only a missing account or a failing question stops it, and from then on the session is missing |
| `Sessions.ExpiredTokenIsMissing` | account_session_storage.go:46-56 | a token that Redis has not, or no longer, leads nowhere |
| `Sessions.MissingIffDeleted` | account_session_storage.go:46-68 | a live token resolves to "account missing" exactly when its account does not exist |
| `Sessions.DeletedStaysDeleted` | account_delete_storage.go:8-33 | an ID other than the fixed one never comes back |
| `Sessions.TokensDieWithTheirAccount` | account_session_storage.go:46-68 | after the account is deleted its tokens never resolve to an account again: a live one says "account missing" unless Redis or the row query fails |
| `Sessions.CreationRevivesTokens` | account_temporary_admin.go:65-77 | the exception: a creation brings the fixed record back and its live tokens with it |
| `Sessions.LoadRevivesTokens` | account_storage.go:100-106 | so does a load, with the disabled seed row |
| `Temporary.InitialIsSeeded` | account_storage.go:100-106 | the freshly created tables are a seeded store, from which the runs below start |
| `Temporary.OnlyOneTemporary` | account_temporary_admin.go:60-77 | in every reachable state the fixed record is the only temporary one |
| `Temporary.ScanLeavesNoneExpired` | account_temporary_admin.go:108-126 | in every run a scan disables exactly the temporary records that are enabled with an expiry before now; every other row, those whose expiry is not before now among them, and all bindings stay as they were |
| `Temporary.EnabledForTenMinutes` | account_temporary_admin.go:35-126 | after a creation that succeeds the fixed record stays enabled, with its expiry, for 600 s in every run without another creation and without a write that disables or deletes it, however many scans there are |
| `Temporary.ScanAfterTenMinutes` | account_temporary_admin.go:116-123 | and a scan after that disables it |
| `Temporary.EnablingIsRecorded` | account_temporary_admin.go:65-77 | the time that the bound below speaks of is set exactly when the record becomes enabled, by a creation or an update that asks for it |
| `Temporary.EnabledAtMostElevenMinutes` | account_temporary_admin.go:35-126 | with the last scan at most 60 s ago, an enabled temporary account with an expiry is within 60 s of its expiry or of being enabled, and within 660 s of being enabled |
| `Temporary.NoExpiryNeverDisabled` | account_temporary_admin.go:116-123 | an enabled record without an expiry stays so in every run without a creation and without a write that disables or deletes it: no scan ends it |
| `Temporary.PerformOnRows` | account_storage.go:334-403 | no request changes a row's super flag, temporary flag or expiry, and only an update changes its status |
| `Guard.AdmittedCanOperate` | account_handlers.go:397-423 | whoever passes the gate is an enabled account of the store, a super administrator or with a stored nonblank role |
| `Guard.PassedIsOk` | account_handlers.go:262-275 | a write that passed its lookup goes to a super administrator's record, or one that can become so, only for a super operator |
| `Guard.StepKeepsOpen` | account_handlers.go:234-285 | where the fixed record has the flag or is absent, every step keeps it so, and keeps every request under way on a target it may write |
| `Guard.StepKeepsClosed` | account_handlers.go:397-423 | where nobody can operate, no step but a creation changes that, and no request gets through the gate |
| `Guard.LoadAddsNoOperator` | account_storage.go:71-106 | a load makes nobody an operator |
| `Guard.RunKeepsSafe` | account_handlers.go:271-285 | the invariant behind the guard holds in every run |
| `Guard.SeededRunsAreGuarded` | account_storage.go:103-106 | from the seeded store, in every interleaving, super administrators' records are updated, reset and deleted only by super administrators |
| `Guard.UnexposedRunsAreGuarded` | account_handlers.go:271-275 | so too from any store that is not exposed: the fixed record has the flag or is absent, or nobody can pass the gate |
| `Exposure.OrdinaryBreaksGuard` | account_reset_password.go:44-48 | with the fixed record unflagged and an ordinary operator there is a run that breaks the guard, whether that record has a role or not |
| `Exposure.SuperCreatesOrdinary` | account_handlers.go:145-183 | a super administrator can first create that ordinary operator |
| `Exposure.GuardedIffNotExposed` | account_handlers.go:271-275 | as long as a fresh ID and a free name remain, every run keeps the guard if and only if the store is not exposed |
| `Incidents.SuperEnablesSeed` | account_handlers.go:234-285 | with an enabled super administrator there is a run after which a fixed record without an expiry is enabled |
| `Incidents.SecondEnablesSeed` | account_storage.go:100-106 | from the seeded store with a second super administrator, enabled or not, a creation, a delete, a load and an update get there |
| `Lifetime.NeverEnabledForGoodIff` | account_handlers.go:271-285 | from the seeded store no run gets there if and only if the seed row is the only super administrator's |
| `Lifetime.EnabledAtMostElevenMinutesAlways` | account_temporary_admin.go:35-126 | and then, with the last scan at most 60 s ago, the fixed record was enabled at most 660 s ago whenever it is enabled |
| `Incidents.TokenOutlivesFixedRecord` | account_delete_storage.go:8-33 | from the seeded store with a second super administrator there is a run after which a live token belongs to the deleted fixed record |
| `Survival.TokenOutlivesIff` | account_delete.go:32-43 | from the seeded store no run gets there if and only if the seed row is the only super administrator's: nobody deletes himself |
| `Incidents.RaceLeavesNoRole` | account_role_storage.go:27-79 | an ordinary account with several roles, beside another operator, loses them all in a run of a read, an update and the read's late compaction |
| `Survival.RoleIsKeptIff` | account_role_storage.go:39-79 | such an account with a nonblank role keeps a role for as long as it exists, in every run, if and only if it starts with a single one |
| `Plugin.AdminAccountPlugin.KeepOnlyAccountRole` | account_role_storage.go:66-79 | the account is left with the chosen role alone, in SQL if it was bound and otherwise with none; every record and every other account's roles stay; nothing changes when the statement fails |
| `Plugin.AdminAccountPlugin.NormalizeAccountRoles` | account_role_storage.go:39-64 | the loop with early exit returns and writes what the choice says, and writes nothing without one |
| `Plugin.AdminAccountPlugin.ReplaceAccountRolesTx` | account_role_storage.go:27-37 | the loop of inserts on the working copy is the replacement, or fails as one |
| `Plugin.AdminAccountPlugin.GetAccountByID` | account_storage.go:125-154 | result and new state of the lookup on either backend |
| `Plugin.AdminAccountPlugin.KeyWithName` | account_storage.go:174-184 | finds an account with the name if there is one, names repeated or not |
| `Plugin.AdminAccountPlugin.GetAccountByAccount` | account_storage.go:156-186 | result and new state of the lookup by name; where names repeat, of one account with that name |
| `Plugin.AdminAccountPlugin.CreateAccount` | account_storage.go:225-262 | result and new state; the working copy is committed or dropped |
| `Plugin.AdminAccountPlugin.UpdateAccount` | account_storage.go:334-373 | result and new state |
| `Plugin.AdminAccountPlugin.ResetPassword` | account_storage.go:375-403 | result and new state |
| `Plugin.AdminAccountPlugin.DeleteAccount` | account_delete_storage.go:8-43 | result and new state |
| `Plugin.AdminAccountPlugin.InitStorage` | account_storage.go:18-112 | a load that succeeds leaves the fixed row as it was or inserts the seed row, changes no other row and no binding, and has the index exactly if it was there or no account has two bindings; it fails if the seed's name is taken, and then changes no row |
| `Plugin.AdminAccountPlugin.CreateTemporaryAdmin` | account_temporary_admin.go:40-87 | succeeds exactly with a database, when its statement does and no other account has the name; then the fixed record is an enabled temporary super administrator with the name, the hash and a lifetime of ten minutes, and no other row and no binding has changed |
| `Plugin.AdminAccountPlugin.DisableExpired` | account_temporary_admin.go:112-126 | a scan disables the temporary rows that are enabled with an expiry before now, otherwise unchanged; every other row, whose expiry is none or not before now, and all bindings are as before |
| `Plugin.AdminAccountPlugin.CurrentAccountByToken` | account_handlers.go:344-354 | the session in Redis, and the lookup of its account |
| `Plugin.AdminAccountPlugin.CurrentProjectAdminAccountByToken` | account_session_storage.go:70-112 | the project's hook or session table, and the lookup |
| `Plugin.AdminAccountPlugin.CurrentAccountByAnySessionToken` | account_handlers.go:356-362 | Redis first, then the project's sessions |
| `Plugin.AdminAccountPlugin.CurrentProjectAdminAccount` | account_handlers.go:364-387 | the headers in their order |
| `Plugin.AdminAccountPlugin.RequireAccountManageToken` | account_handlers.go:397-423 | the gate's verdict and code |
| `Plugin.AdminAccountPlugin.HandleCheckPermission` | account_handlers.go:287-342 | answer and new state of the permission endpoint, which only compacts |
| `Plugin.AdminAccountPlugin.HandleMe` | account_handlers.go:67-100 | answer and new state of the profile endpoint, which only compacts |
| `Plugin.AdminAccountPlugin.CleanAndValidateRoles` | account_validation.go:35-52 | exactly one well-formed enabled role, or the kind of error |
| `Plugin.AdminAccountPlugin.HandleLogin` | account_handlers.go:18-65 | answer and new state of the login of one account with the name, names repeated or not; answer 0 is a credential with the drawn token, kept in Redis, for an enabled account of that name and password, and any other answer has no data; it only compacts |
| `Plugin.AdminAccountPlugin.HandleAccountCreate` | account_handlers.go:145-183 | with answer 0 the account asked for is there, under a name that was free, no other record has changed and other role lists are as before or compacted; otherwise only compactions happened |
| `Plugin.AdminAccountPlugin.HandleAccountUpdate` | account_handlers.go:234-285 | with answer 0 an admitted operator that may change the record gave it the status and the one role, no other record changed and other role lists are as before or compacted; otherwise only compactions happened |
| `Plugin.AdminAccountPlugin.HandleResetPassword` | account_reset_password.go:9-54 | with answer 0 such an operator gave the record the new hash and nothing else, no other record changed and role lists are as before or compacted; otherwise only compactions happened |
| `Plugin.AdminAccountPlugin.HandleAccountDelete` | account_delete.go:9-54 | with answer 0 such an operator, not the account itself, removed the record and its roles, no other record changed and other role lists are as before or compacted; otherwise only compactions happened |
| `Template.MatchMeaning` | selftest.go:385 | the scanner finds a placeholder at the start of a text exactly when the text starts with one, and it finds that one |
| `Template.PlaceholderCharacters` | selftest.go:385 | the characters of names and arguments, one by one |
| `Template.PrintIsLiteral` | selftest.go:385 | a placeholder is ${name} or ${name:arg} |
| `Template.SplitThenPrint` | selftest.go:391-403 | printing the literals and leftmost matches of a text gives the text back |
| `Template.PrintThenSplit` | selftest.go:391-403 | the splitting is the only one in which no placeholder starts at a literal |
| `Template.KeyIsInjective` | selftest.go:394-397 | a cache key determines name and argument |
| `TemplateRun.FillGrows` | selftest.go:398-402 | filling in a text only adds to the cache, and every placeholder of the text is in it afterwards |
| `TemplateRun.FillIsSubst` | selftest.go:387-405 | the text produced is the substitution under any later cache |
| `TemplateRun.OneAssignment` | selftest.go:191-269 | every text of a test case, however early, is its substitution under the one final assignment |
| `TemplateRun.AssignedValues` | selftest.go:407-439 | unknown placeholders stand for themselves, ${rand:n} for n random hexadecimal digits if n is from 1 to 32 and for 6 otherwise, the times for the start of the run, and each session token is one of its own literal account |
| `TemplateRun.PlaceholderBecomesValue` | selftest.go:387-439 | a text that is one placeholder becomes such a value |
| `TemplateRun.RandomDigits` | selftest.go:424-432 | ${rand:n} becomes n digits, for every n from 1 to 32 |
| `TemplateRun.SubstSteps` | selftest.go:387-405 | substitution leaves a character at which no placeholder starts and puts the value for a placeholder |
| `TemplateRun.MillisecondsContinueSeconds` | selftest.go:370-379 | the time in milliseconds is the time in seconds with three more digits |
| `TemplateRun.TemplateVars.Value` | selftest.go:391-403 | one match: the remembered value, or a new one that is remembered |
| `TemplateRun.TemplateVars.ApplyTemplateVars` | selftest.go:387-405 | text, cache and draws after replacing from left to right |
| `TemplateRun.TemplateVars.ApplyAll` | selftest.go:191-269 | the calls of one test case agree with the final cache |
| `JsonPath.SplitThenJoin` | selftest.go:340 | the parts have no dots and join to the path |
| `JsonPath.JoinThenSplit` | selftest.go:340 | no other dot-free list joins to the same path |
| `JsonPath.SplitAtDot` | selftest.go:340 | a dot separates the parts before it from those after it |
| `JsonPath.JsonGet` | selftest.go:338-348 | the loop with early exit finds what walking the parts finds |
| `JsonPath.LookupsCompose` | selftest.go:338-348 | the path p.q finds what q finds in what p finds, for all values and texts |
| `JsonPath.FoundIffKeysLead` | selftest.go:338-348 | a value other than nil is found exactly when every part is a key of the object before it |
| `ShortId.AlphabetOfSource` | account_tokens.go:20 | the digits are spelled with the source's alphabet |
| `ShortId.NewShortID` | account_tokens.go:19-37 | always an ID that validRecordID accepts; from random bytes each character is its byte modulo 62 |
| `ShortId.SpellClock` | account_tokens.go:23-31 | the fallback loop spells the clock, reading it again when it is used up |
| `ShortId.MapBytes` | account_tokens.go:33-35 | the loop over the random bytes |
| `ShortId.SpelledInFull` | account_tokens.go:24-30 | a value of n digits is spelled out in full from where it starts |
| `ShortId.ElevenDigits` | account_tokens.go:23 | readings from 62^10 ns on have eleven digits as long as int64 holds them |
| `ShortId.FallbackReadsBack` | account_tokens.go:19-31 | the first eleven characters read back as the clock |
| `ShortId.FallbackIsInjective` | account_tokens.go:19-31 | so two such readings give two IDs |
| `Rfc3339.DateOrder` | account_storage.go:423 | dates are ordered as their day numbers |
| `Rfc3339.Calendar` | account_storage.go:423 | the lengths of the months and the leap years |
| `Rfc3339.EpochIs1970` | account_storage.go:423 | the zero of the clock is the start of the year 1970 |
| `Rfc3339.DigitsOrder` | account_storage.go:423 | numbers of one width are ordered as their texts |
| `Rfc3339.FieldsOrder` | account_storage.go:423 | texts of one layout are ordered as their fields |
| `Rfc3339.TextOrderIsTimeOrder` | account_storage.go:321 | for UTC times of the years 0 to 9999 the texts compare as the times to the second (section 5.1 of RFC 3339) |
| `Rfc3339.FormatSpells` | account_storage.go:423 | the text of an instant spells its date and time of day in the fixed layout |
| `Rfc3339.DigitsReadBack` | account_storage.go:423 | whose digits read back as the numbers |
| `Listing.EveryPageCanBeAsked` | account_validation.go:21-33 | the decimal page and size are accepted exactly when page is at least 1 and size from 1 to 100 |
| `Listing.SignsAndOthers` | account_validation.go:27-28 | a sign may stand before the digits, and nothing else anywhere |
| `Listing.TooLargeIsNone` | account_validation.go:27-28 | a number past int64 is none |
| `Listing.WrapIsCongruent` | account_storage.go:323 | an overflowing product differs by a multiple of 2^64 |
| `Listing.PageIsIntendedIff` | account_storage.go:322-331 | slicing panics exactly when the offset wraps to a negative number, and returns the page meant exactly when it does not overflow or wraps past the list |
| `Listing.OverflowingPages` | account_storage.go:323 | page 2^58 + 1 of size 64 is the first page, page 2^57 + 1 a panic |
| `Listing.PagesAreTheList` | account_storage.go:322-331 | the pages concatenate to the whole list, for every size from 1 to 100 |
| `Listing.LaterPagesAreEmpty` | account_storage.go:322-331 | later pages whose offset does not overflow are empty |
| `Listing.Collect` | account_storage.go:306-320 | the loop over the map lists each matching account once and no other |
| `Listing.SortByCreation` | account_storage.go:321 | a permutation in descending order of the texts |
| `Listing.DescendingIsLatestFirst` | account_storage.go:321 | which is the latest second of creation first |
| `Listing.ListAccounts` | account_storage.go:304-331 | every item returned has the status asked for and the keyword in its lowered name, and the fields of the stored account; the answer is a page of a list that holds each such account under exactly one key and no other, the latest second of creation first, with their number |
| `Listing.MatchesIsAsked` | account_storage.go:309-314 | an account is kept exactly if it has the status asked for, if one is, and its lowered name has the keyword at some position, if there is one |
| `Listing.TotalsAdd` | account_storage.go:322 | the totals for enabled and disabled add up to the unfiltered one, where every status is one of the two |

## Left out

- Temporary.EnabledAtMostElevenMinutes: speaks of a record with an expiry; without one the bound can fail, and Lifetime.NeverEnabledForGoodIff says exactly when.
- Lifetime.NeverEnabledForGoodIff: assumes for one half that a name is free, IDs are well-formed and the seed's name is not another account's, on which the insertion of a second seed row would fail; Lifetime.EnabledAtMostElevenMinutesAlways needs none of this.
- Backends.BackendsAgree: only for operations that leave the fixed record alone and keep names unique, roles trimmed and not repeated, bindings in insertion order, and compactions to a bound role; Backends.SeedIsSeenIff, Backends.CreateAgreesIff, Backends.CompactionAgreesIff and Backends.ReadsAgreeIff show that the conditions are needed.
- Exposure.GuardedIffNotExposed: the run that breaks the guard assumes that an unused ID and a free name are left, for a super administrator to create an operator; the other half, Guard.UnexposedRunsAreGuarded, needs neither.
- ShortId.NewShortID: clock readings lie between 1970 and the end of int64, those after the first far enough from it to be followed by others; a negative reading is an index panic in the source and is not modelled.
- Listing.ListAccounts: the times of the accounts lie in the years 0 to 9999.
- Interleaving inside one transaction, which is one step of the machine. Every statement outside a transaction is a step of its own.
- A commit whose outcome is unknown to the caller; a failing commit changes nothing in the model.
- Interleaving in memory mode, where the mutex is released before a compaction; memory claims are about operations handled as one step.
- The answers of the role module change freely between the statements that ask it, but not within the search for the first enabled role or the list of questions of one handler.
- The statements of a load other than the index and the seed row: they create tables and change columns, and drop and put back the foreign key, on which no modelled transaction relies.
- Clock skew between the application and the database: the machine has one clock.
- Old orphaned bindings, which the foreign key marked NOT VALID tolerates: stores start with their constraints satisfied.
- The identifier of a binding: its place in the order by time and identifier is a number drawn for it.
- A Redis key whose lifetime could not be set after it was written: the session counts as not stored.
- SHA-256, the lowering of letters and the generators of tokens, hexadecimal names and UUID-like IDs: parameters that the proofs do not constrain beyond freshness and shape.
- The endless ticker loop of the worker: one scan is one step, and the bound on its period is a hypothesis.
- SQL listing: its ties, its wildcards in keywords and its normalisation of several roles differ from memory mode.
- The handlers for the list, the detail and the validation of a password: guards and calls already modelled, in another order.
- HTTP and JSON decoding, the route table, the Redis and PostgreSQL drivers and the transport to the role module: requests are decoded records, answers a status with data.
- Applying the template engine twice: its output may contain placeholders again, so it is not idempotent.
- The fallback of the hexadecimal generator of the template engine when the random source fails.
- The self-test runner's counting, route lookup and comparison of formatted values, the WebSocket example, the scheduled trigger, the start of the worker and the shutdown: no hard property.
