/**
 Properties that relate several runs of the route handlers: outcomes that do
 not matter, repeated and inverse calls, and what a reply does and does not
 say about the directory afterwards.
 */
module UserAdminProperties {
  import opened AdminTypes
  import opened Permissions
  import opened Pipeline
  import opened UserAdmin

  /** The directory confirmation's return value is never consulted: when it
      returns at all, what it returns changes neither the reply nor the calls
      of user creation. */
  lemma CreateIgnoresConfirmation(caller: Caller, o: CreateOutcomes, confirm: StepResponse)
    requires o.confirm.Responded?
    ensures CreateNewUser(caller, o) == CreateNewUser(caller, o.(confirm := Responded(confirm)))
  {
    var o' := o.(confirm := Responded(confirm));
    UncheckedOutcomesIgnored(CreateStages, CreateOutcomeList(o), CreateOutcomeList(o'));
  }

  /** A confirmation that raises ends creation: the roles are never assigned,
      no password e-mail is sent and the route never reports success. */
  lemma CreateStopsOnRaisedConfirmation(caller: Caller, o: CreateOutcomes)
    requires Authorized(NewUser, caller)
    requires Succeeds(o.signUp) && Succeeds(o.verifyEmail) && o.confirm.Raised?
    ensures var r := CreateNewUser(caller, o);
      && r.reply == ServerError(o.confirm.error)
      && AddUserToRoles !in r.calls && SendPasswordEmail !in r.calls
  {
  }

  /** A failed e-mail verification ends creation: the confirmation and role
      assignment are never invoked and the verification's outcome is the reply. */
  lemma CreateStopsOnFailedVerification(caller: Caller, o: CreateOutcomes)
    requires Authorized(NewUser, caller)
    requires Succeeds(o.signUp) && !Succeeds(o.verifyEmail)
    ensures var r := CreateNewUser(caller, o);
      && r.reply == FailureReply(o.verifyEmail)
      && AdminConfirmSignUp !in r.calls && AddUserToRoles !in r.calls && SendPasswordEmail !in r.calls
  {
  }

  /** Enabling is idempotent: once an enable has gone through, a second one
      that reads the status back only checks it, reports "already enabled"
      and changes nothing. */
  lemma EnableTwiceIsAlreadyEnabled(caller: Caller, user: UserRecord, first: StepResponse, second: StepResponse)
    requires Authorized(EnableUser, caller)
    requires IsSuccess(first)
    ensures var r1 := EnableUserRoute(caller, user, user.enabled, first);
            var r2 := EnableUserRoute(caller, r1.user, r1.user.enabled, second);
      && r1.user.enabled
      && r2 == Updated(Message(AlreadyEnabled), [CheckUserDisabled], r1.user)
  {
  }

  /** Enabling undoes disabling: after a successful disable and a successful
      enable the record is the original one with the user enabled. */
  lemma EnableUndoesDisable(caller: Caller, user: UserRecord, off: StepResponse, on: StepResponse)
    requires Authorized(DisableUser, caller) && Authorized(EnableUser, caller)
    requires IsSuccess(off) && IsSuccess(on)
    ensures var r1 := DisableUserRoute(caller, user, off);
            var r2 := EnableUserRoute(caller, r1.user, r1.user.enabled, on);
      && r2.calls == [CheckUserDisabled, EnableUserInDirectory]
      && r2.user == user.(enabled := true)
      && (user.enabled ==> r2.user == user)
  {
  }

  /** A fully successful update whose fetch saw every group leaves the user
      in exactly the requested groups, whatever groups it was in before: two
      records that differ only in their groups end up identical. */
  lemma UpdateForgetsPriorGroups(caller: Caller, form: UpdateUserForm, user: UserRecord, groups: set<string>, o: UpdateOutcomes)
    requires Authorized(UpdateUser, caller)
    requires IsSuccess(o.removal) && IsSuccess(o.addition)
    requires user.groups <= SetOf(o.fetched) && groups <= SetOf(o.fetched)
    ensures UpdateUserRoute(caller, form, user, o).user == UpdateUserRoute(caller, form, user.(groups := groups), o).user
    ensures UpdateUserRoute(caller, form, user, o).user.groups == SetOf(form.roles)
  {
    var a := UpdateUserRoute(caller, form, user, o).user;
    var b := UpdateUserRoute(caller, form, user.(groups := groups), o).user;
    assert a.groups == SetOf(form.roles);
    assert b.groups == SetOf(form.roles);
  }

  /** The removal is driven by the fetched list, not by the record: a group
      the fetch missed survives even a fully successful update unless it is
      among the requested roles. */
  lemma UpdateKeepsUnfetchedGroups(caller: Caller, form: UpdateUserForm, user: UserRecord, o: UpdateOutcomes, g: string)
    requires Authorized(UpdateUser, caller)
    requires IsSuccess(o.removal) && IsSuccess(o.addition)
    requires g in user.groups && g !in o.fetched
    ensures g in UpdateUserRoute(caller, form, user, o).user.groups
  {
  }

  /** The update reply reflects only the group addition: when the removal
      failed the reply still reports success, yet the user keeps every old
      group alongside the requested ones. */
  lemma UpdateReplyHidesFailedRemoval(caller: Caller, form: UpdateUserForm, user: UserRecord, o: UpdateOutcomes)
    requires Authorized(UpdateUser, caller)
    requires !IsSuccess(o.removal) && IsSuccess(o.addition)
    ensures var r := UpdateUserRoute(caller, form, user, o);
      && r.reply.Relayed? && IsSuccess(r.reply.response)
      && r.user.groups == user.groups + SetOf(form.roles)
  {
  }

  /** The update is a remove-all-then-add, not a difference: even when the
      requested roles are already exactly the user's groups, the user is
      removed from every fetched group and added back. */
  lemma UpdateAlwaysRemovesAndAdds(caller: Caller, form: UpdateUserForm, user: UserRecord, o: UpdateOutcomes)
    requires Authorized(UpdateUser, caller)
    requires SetOf(form.roles) == user.groups
    ensures var r := UpdateUserRoute(caller, form, user, o);
      && RemoveUserFromAllGroups(o.fetched) in r.calls
      && AddUserToNewGroups(form.roles) in r.calls
  {
    var r := UpdateUserRoute(caller, form, user, o);
    assert r.calls[2] == RemoveUserFromAllGroups(o.fetched);
    assert r.calls[3] == AddUserToNewGroups(form.roles);
  }

  /** The group names of a list of rows. */
  function GroupNames(rows: seq<GroupRow>): (names: seq<string>)
    ensures |names| == |rows|
  {
    if rows == [] then [] else [rows[0].groupName] + GroupNames(rows[1..])
  }

  /** The roles of a user's details name exactly the listed groups, in order:
      projecting the names back out recovers the listing. */
  lemma {:induction false} RolesKeepListing(listed: seq<string>)
    ensures GroupNames(RolesOf(listed)) == listed
    decreases |listed|
  {
    if listed != [] {
      RolesKeepListing(listed[1..]);
      assert RolesOf(listed)[1..] == RolesOf(listed[1..]);
    }
  }

  /** Only the permissions route is open to everyone: every other route turns
      away a caller with no permissions at all. */
  lemma OnlyPermissionsRouteIsOpen(e: Endpoint, username: string)
    ensures Authorized(e, Caller(username, [])) <==> e.GetUserPermissions?
  {
  }
}
