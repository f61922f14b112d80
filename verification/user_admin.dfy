/**
 The route handlers of the user-administration router. Every helper the
 router awaits is an opaque step: its response is an input, and a directory
 call is assumed to take effect exactly when its helper reports success.
 */
module UserAdmin {
  import opened AdminTypes
  import opened Permissions
  import opened Pipeline

  // ---------------------------------------------------------------- creation

  /** What each step of user creation does when it is invoked. The helpers may
      return a response or raise; the directory confirmation is a direct
      directory call whose return value is dropped, but which raises on error. */
  datatype CreateOutcomes = CreateOutcomes(
    signUp: StepOutcome,
    verifyEmail: StepOutcome,
    confirm: StepOutcome,
    addRoles: StepOutcome,
    sendPassword: StepOutcome)

  /** Sign up, verify the e-mail, confirm in the directory (unchecked), assign
      the roles, send the password e-mail. */
  const CreateStages: seq<Stage> := [
    Stage(SignUpUser, true),
    Stage(VerifyUserEmail, true),
    Stage(AdminConfirmSignUp, false),
    Stage(AddUserToRoles, true),
    Stage(SendPasswordEmail, true)
  ]

  /** The calls of a creation that runs to the end, in order: the call of
      each stage of `CreateStages` (`CreateCallsPrefix` shows they agree). */
  const CreateCalls: seq<Call> := [SignUpUser, VerifyUserEmail, AdminConfirmSignUp, AddUserToRoles, SendPasswordEmail]

  function CreateOutcomeList(o: CreateOutcomes): (os: seq<StepOutcome>)
    ensures |os| == |CreateStages|
  {
    [o.signUp, o.verifyEmail, o.confirm, o.addRoles, o.sendPassword]
  }

  /** The reply a route gives for the outcome that ended it: a returned
      response goes back verbatim, an exception escapes as a server error. */
  function FailureReply(o: StepOutcome): (r: Reply)
    ensures o.Responded? ==> r.Relayed? && r.response == o.response
    ensures o.Raised? ==> r.ServerError? && r.error == o.error
  {
    match o
    case Responded(response) => Relayed(response)
    case Raised(error) => ServerError(error)
  }

  function CreateNewUser(caller: Caller, o: CreateOutcomes): (r: Served)
    // a refused caller gets the access-denied reply and nothing is invoked
    ensures r.reply.Forbidden? <==> !Authorized(NewUser, caller)
    ensures r.reply.Forbidden? ==> r.calls == []
    // an admitted caller gets exactly what the route's cascade of guard clauses gives
    ensures Authorized(NewUser, caller) ==>
              var t := CreateCascade(o);
              r.calls == t.calls
              && (t.halt.Some? ==> r.reply == FailureReply(t.halt.value))
              && (t.halt.None? ==> r.reply == Message(UserCreated))
    // success is reported exactly when every checked step succeeded and the
    // confirmation did not raise; the confirmation's return value plays no part
    ensures r.reply == Message(UserCreated) <==>
              Authorized(NewUser, caller) && Succeeds(o.signUp) && Succeeds(o.verifyEmail)
              && !o.confirm.Raised? && Succeeds(o.addRoles) && Succeeds(o.sendPassword)
    // the first failed step's outcome comes back and nothing after it runs
    ensures Authorized(NewUser, caller) && !Succeeds(o.signUp) ==>
              r == Served(FailureReply(o.signUp), [SignUpUser])
    ensures Authorized(NewUser, caller) && Succeeds(o.signUp) && !Succeeds(o.verifyEmail) ==>
              r == Served(FailureReply(o.verifyEmail), [SignUpUser, VerifyUserEmail])
    ensures Authorized(NewUser, caller) && Succeeds(o.signUp) && Succeeds(o.verifyEmail)
            && o.confirm.Raised? ==>
              r == Served(ServerError(o.confirm.error), [SignUpUser, VerifyUserEmail, AdminConfirmSignUp])
    ensures Authorized(NewUser, caller) && Succeeds(o.signUp) && Succeeds(o.verifyEmail)
            && !o.confirm.Raised? && !Succeeds(o.addRoles) ==>
              r == Served(FailureReply(o.addRoles), [SignUpUser, VerifyUserEmail, AdminConfirmSignUp, AddUserToRoles])
    ensures Authorized(NewUser, caller) && Succeeds(o.signUp) && Succeeds(o.verifyEmail)
            && !o.confirm.Raised? && Succeeds(o.addRoles) && !Succeeds(o.sendPassword) ==>
              r == Served(FailureReply(o.sendPassword), CreateCalls)
    ensures Authorized(NewUser, caller) && Succeeds(o.signUp) && Succeeds(o.verifyEmail)
            && !o.confirm.Raised? && Succeeds(o.addRoles) ==>
              r.calls == CreateCalls
  {
    if !Authorized(NewUser, caller) then Served(Forbidden, [])
    else
      var outcomes := CreateOutcomeList(o);
      var t := RunStages(CreateStages, outcomes);
      CreateFoldMatchesCascade(o);
      match t.halt
      case Some(stop) => Served(FailureReply(stop), t.calls)
      case None => Served(Message(UserCreated), t.calls)
  }

  /** The creation handler as `create_new_user` spells it out: a cascade of
      "if the step did not succeed, return its response" clauses, with the
      confirmation ending the run only when it raises. */
  function CreateCascade(o: CreateOutcomes): (t: Trace)
    // the calls made are the creation order cut short after the stopping step
    ensures 1 <= |t.calls| <= |CreateCalls| && t.calls == CreateCalls[..|t.calls|]
    // it stops at the first step that raised or failed its check, every
    // earlier step having gone through, and hands back that step's outcome
    ensures t.halt.Some? ==> FirstStop(CreateStages, CreateOutcomeList(o), |t.calls| - 1)
                             && t.halt.value == CreateOutcomeList(o)[|t.calls| - 1]
    // nothing stops it exactly when every step went through
    ensures t.halt.None? <==> Succeeds(o.signUp) && Succeeds(o.verifyEmail) && !o.confirm.Raised?
                              && Succeeds(o.addRoles) && Succeeds(o.sendPassword)
    ensures t.halt.None? ==> t.calls == CreateCalls
  {
    if !Succeeds(o.signUp) then Trace([SignUpUser], Some(o.signUp))
    else if !Succeeds(o.verifyEmail) then Trace([SignUpUser, VerifyUserEmail], Some(o.verifyEmail))
    else if o.confirm.Raised? then Trace([SignUpUser, VerifyUserEmail, AdminConfirmSignUp], Some(o.confirm))
    else if !Succeeds(o.addRoles) then
      Trace([SignUpUser, VerifyUserEmail, AdminConfirmSignUp, AddUserToRoles], Some(o.addRoles))
    else if !Succeeds(o.sendPassword) then Trace(CreateCalls, Some(o.sendPassword))
    else Trace(CreateCalls, None)
  }

  /** The halt-on-first-failure fold over the creation stages agrees with the
      cascade of guard clauses in `create_new_user` on every combination of
      outcomes. */
  lemma CreateFoldMatchesCascade(o: CreateOutcomes)
    ensures RunStages(CreateStages, CreateOutcomeList(o)) == CreateCascade(o)
  {
    if !Succeeds(o.signUp) {
      CreateHaltsAt(o, 0);
    } else if !Succeeds(o.verifyEmail) {
      CreateHaltsAt(o, 1);
    } else if o.confirm.Raised? {
      CreateHaltsAt(o, 2);
    } else if !Succeeds(o.addRoles) {
      CreateHaltsAt(o, 3);
    } else if !Succeeds(o.sendPassword) {
      CreateHaltsAt(o, 4);
    } else {
      CreateCompletes(o);
    }
  }

  /** A creation run in which every step goes through makes all five calls. */
  lemma CreateCompletes(o: CreateOutcomes)
    requires Succeeds(o.signUp) && Succeeds(o.verifyEmail) && !o.confirm.Raised?
    requires Succeeds(o.addRoles) && Succeeds(o.sendPassword)
    ensures RunStages(CreateStages, CreateOutcomeList(o)) == Trace(CreateCalls, None)
  {
    var os := CreateOutcomeList(o);
    forall i | 0 <= i < |CreateStages|
      ensures !Stops(CreateStages, os, i)
    {
      assert os[i].Responded? && (CreateStages[i].checked ==> Succeeds(os[i]));
    }
    var t := RunStages(CreateStages, os);
    assert t.halt.None?;
    assert |t.calls| == 5;
    CreateCallsPrefix(5);
  }

  /** The calls of the first `n` creation stages. */
  lemma CreateCallsPrefix(n: nat)
    requires n <= 5
    ensures CallsOf(CreateStages[..n]) == CreateCalls[..n]
  {
  }

  /** A creation run whose first stopping step is `k` stops there. */
  lemma CreateHaltsAt(o: CreateOutcomes, k: nat)
    requires FirstStop(CreateStages, CreateOutcomeList(o), k)
    ensures RunStages(CreateStages, CreateOutcomeList(o)) == Trace(CreateCalls[..k + 1], Some(CreateOutcomeList(o)[k]))
  {
    RunHaltsAtFirstStop(CreateStages, CreateOutcomeList(o), k);
    CreateCallsPrefix(k + 1);
  }

  // ----------------------------------------------------------- enable / disable

  /** `reportedEnabled` is the status the directory reports for the user;
      the route decides on it alone. */
  function EnableUserRoute(caller: Caller, user: UserRecord, reportedEnabled: bool, enableResponse: StepResponse): (r: Updated)
    ensures r.reply.Forbidden? <==> !Authorized(EnableUser, caller)
    ensures r.reply.Forbidden? ==> r.calls == [] && r.user == user
    // the status is read first, and the directory is asked to enable the user
    // exactly when it reported the user as not enabled
    ensures Authorized(EnableUser, caller) ==>
              (EnableUserInDirectory in r.calls <==> !reportedEnabled)
              && |r.calls| > 0 && r.calls[0] == CheckUserDisabled
    ensures Authorized(EnableUser, caller) && !reportedEnabled ==>
              r.calls == [CheckUserDisabled, EnableUserInDirectory] && r.reply == Relayed(enableResponse)
    ensures Authorized(EnableUser, caller) && reportedEnabled ==>
              r == Updated(Message(AlreadyEnabled), [CheckUserDisabled], user)
    // a successful enable leaves the user enabled
    ensures Authorized(EnableUser, caller) && !reportedEnabled && IsSuccess(enableResponse) ==>
              r.user == user.(enabled := true)
    // only the enabled flag can change, and only towards enabled
    ensures r.user == user || (r.user == user.(enabled := true) && IsSuccess(enableResponse))
  {
    if !Authorized(EnableUser, caller) then Updated(Forbidden, [], user)
    else if !reportedEnabled then
      var after := if IsSuccess(enableResponse) then user.(enabled := true) else user;
      Updated(Relayed(enableResponse), [CheckUserDisabled, EnableUserInDirectory], after)
    else
      Updated(Message(AlreadyEnabled), [CheckUserDisabled], user)
  }

  function DisableUserRoute(caller: Caller, user: UserRecord, disableResponse: StepResponse): (r: Updated)
    ensures r.reply.Forbidden? <==> !Authorized(DisableUser, caller)
    ensures r.reply.Forbidden? ==> r.calls == [] && r.user == user
    // no status check: the directory is asked unconditionally, its response relayed
    ensures Authorized(DisableUser, caller) ==>
              r.calls == [DisableUserInDirectory] && r.reply == Relayed(disableResponse)
    // a successful disable leaves the user disabled
    ensures Authorized(DisableUser, caller) && IsSuccess(disableResponse) ==> r.user == user.(enabled := false)
    ensures r.user == user || (r.user == user.(enabled := false) && IsSuccess(disableResponse))
  {
    if !Authorized(DisableUser, caller) then Updated(Forbidden, [], user)
    else
      var after := if IsSuccess(disableResponse) then user.(enabled := false) else user;
      Updated(Relayed(disableResponse), [DisableUserInDirectory], after)
  }

  // ------------------------------------------------------------------ update

  /** What each step of a user update reports: the attribute update, the
      group list the directory hands back for the user, the removal from
      those groups and the addition to the requested roles. */
  datatype UpdateOutcomes = UpdateOutcomes(
    attributes: StepResponse,
    fetched: seq<string>,
    removal: StepResponse,
    addition: StepResponse)

  function SetOf(roles: seq<string>): (s: set<string>)
    ensures forall x :: x in s <==> x in roles
  {
    set x | x in roles
  }

  function UpdateUserRoute(caller: Caller, form: UpdateUserForm, user: UserRecord, o: UpdateOutcomes): (r: Updated)
    ensures r.reply.Forbidden? <==> !Authorized(UpdateUser, caller)
    ensures r.reply.Forbidden? ==> r.calls == [] && r.user == user
    // removal from every group just fetched comes before adding the roles,
    // and only the addition's response is returned
    ensures Authorized(UpdateUser, caller) ==>
              r.calls == [UpdateUserAttributes, GetUserGroups,
                          RemoveUserFromAllGroups(o.fetched), AddUserToNewGroups(form.roles)]
              && r.reply == Relayed(o.addition)
    // step by step: a successful removal takes away the fetched groups, and
    // a successful addition adds the requested roles; a failed step changes
    // nothing
    ensures Authorized(UpdateUser, caller) ==>
              forall g :: g in r.user.groups <==>
                (g in user.groups && !(IsSuccess(o.removal) && g in o.fetched))
                || (IsSuccess(o.addition) && g in form.roles)
    // so when the fetch saw every group, the groups are exactly the requested roles
    ensures Authorized(UpdateUser, caller) && IsSuccess(o.removal) && IsSuccess(o.addition)
            && user.groups <= SetOf(o.fetched) ==>
              r.user.groups == SetOf(form.roles)
    // a failed removal keeps every old group
    ensures !IsSuccess(o.removal) ==> user.groups <= r.user.groups
    // the enabled flag is never touched
    ensures r.user.enabled == user.enabled
    ensures IsSuccess(o.attributes) && Authorized(UpdateUser, caller) ==>
              r.user.email == form.email && r.user.phoneNumber == form.phoneNumber
    ensures !IsSuccess(o.attributes) || !Authorized(UpdateUser, caller) ==>
              r.user.email == user.email && r.user.phoneNumber == user.phoneNumber
  {
    if !Authorized(UpdateUser, caller) then Updated(Forbidden, [], user)
    else
      var u1 := if IsSuccess(o.attributes) then user.(email := form.email, phoneNumber := form.phoneNumber) else user;
      var u2 := if IsSuccess(o.removal) then u1.(groups := u1.groups - SetOf(o.fetched)) else u1;
      var u3 := if IsSuccess(o.addition) then u2.(groups := u2.groups + SetOf(form.roles)) else u2;
      Updated(Relayed(o.addition),
              [UpdateUserAttributes, GetUserGroups, RemoveUserFromAllGroups(o.fetched), AddUserToNewGroups(form.roles)],
              u3)
  }

  // ------------------------------------------------------------- projections

  /** The group listing: every group the directory returns, in its order,
      with the member count the directory reports for it. */
  method ListUserGroupsRoute(caller: Caller, groups: seq<string>, usersInGroup: string -> nat) returns (r: Served)
    ensures r.reply.Forbidden? <==> !Authorized(ListUserGroups, caller)
    ensures r.reply.Forbidden? ==> r.calls == []
    ensures Authorized(ListUserGroups, caller) ==>
              && r.reply.GroupTable?
              && |r.reply.rows| == |groups|
              && (forall i :: 0 <= i < |groups| ==> r.reply.rows[i] == GroupRow(groups[i], usersInGroup(groups[i])))
    // one count query per group, in the listing's order, after the listing
    ensures Authorized(ListUserGroups, caller) ==>
              && |r.calls| == |groups| + 1
              && r.calls[0] == RetrieveAllGroups
              && (forall i :: 0 <= i < |groups| ==> r.calls[i + 1] == RetrieveUsersInGroup(groups[i]))
  {
    if !Authorized(ListUserGroups, caller) {
      return Served(Forbidden, []);
    }
    var rows: seq<GroupRow> := [];
    var calls: seq<Call> := [RetrieveAllGroups];
    var k := 0;
    while k < |groups|
      invariant 0 <= k <= |groups|
      invariant |rows| == k && |calls| == k + 1
      invariant calls[0] == RetrieveAllGroups
      invariant forall i :: 0 <= i < k ==> rows[i] == GroupRow(groups[i], usersInGroup(groups[i]))
      invariant forall i :: 0 <= i < k ==> calls[i + 1] == RetrieveUsersInGroup(groups[i])
    {
      var count := usersInGroup(groups[k]);
      calls := calls + [RetrieveUsersInGroup(groups[k])];
      rows := rows + [GroupRow(groups[k], count)];
      k := k + 1;
    }
    return Served(GroupTable(rows), calls);
  }

  /** The roles of a user's details: one row per listed group, in order, each
      reporting zero members. */
  function RolesOf(listed: seq<string>): (roles: seq<GroupRow>)
    ensures |roles| == |listed|
    ensures forall i :: 0 <= i < |listed| ==> roles[i].groupName == listed[i] && roles[i].numberOfUsers == 0
  {
    if listed == [] then [] else [GroupRow(listed[0], 0)] + RolesOf(listed[1..])
  }

  function GetUserDetailsRoute(caller: Caller, attributes: string, listed: seq<string>): (r: Served)
    ensures r.reply.Forbidden? <==> !Authorized(GetUserDetails, caller)
    ensures r.reply.Forbidden? ==> r.calls == []
    ensures Authorized(GetUserDetails, caller) ==>
              && r.calls == [AdminGetUser, AdminListGroupsForUser]
              && r.reply.UserDetails? && r.reply.attributes == attributes
              && |r.reply.roles| == |listed|
              && forall i :: 0 <= i < |listed| ==> r.reply.roles[i] == GroupRow(listed[i], 0)
  {
    if !Authorized(GetUserDetails, caller) then Served(Forbidden, [])
    else Served(UserDetails(attributes, RolesOf(listed)), [AdminGetUser, AdminListGroupsForUser])
  }

  /** The one route without a permission check: its entry in the guard
      table admits every caller. */
  function GetUserPermissionsRoute(caller: Caller, permissions: StepResponse): (r: Served)
    ensures !r.reply.Forbidden?
    ensures r.reply == Relayed(permissions)
    ensures r.calls == [GetUserGroups, ProcessGroupDescriptions, ExtractPermissions]
  {
    if !Authorized(GetUserPermissions, caller) then Served(Forbidden, [])
    else Served(Relayed(permissions), [GetUserGroups, ProcessGroupDescriptions, ExtractPermissions])
  }

  // ------------------------------------------------------------ pass-through

  /** The routes whose body is a single hand-off to the directory, modelled
      only up to their guard. */
  predicate IsPassThrough(e: Endpoint)
  {
    e.DeleteUser? || e.AllUsers? || e.CreateUserGroup? || e.AddUserToGroup? || e.DeleteUserGroup?
    || e.GetGroupDetails? || e.GetAllUsersNames? || e.GetAllUsers? || e.GetGroupMembers? || e.UpdateRole?
  }

  function PassThroughRoute(e: Endpoint, caller: Caller, response: StepResponse): (r: Served)
    requires IsPassThrough(e)
    ensures r.reply.Forbidden? <==> !Authorized(e, caller)
    ensures r.reply.Forbidden? ==> r.calls == []
    ensures Authorized(e, caller) ==> r.reply == Relayed(response) && r.calls == [EndpointBody(e)]
  {
    if !Authorized(e, caller) then Served(Forbidden, [])
    else Served(Relayed(response), [EndpointBody(e)])
  }
}
