# User administration router — a Dafny model

This project models the decision and sequencing logic of the user-administration
router of iCMS-Authentication (`app/routers/userAdmin.py`). The router is a set of
HTTP routes over a managed identity directory (users, groups, enabled/disabled
status) and an e-mail service. The model keeps four things from it:

- **The permission guard.** `check_permissions` allows a caller when the set of
  permission names a route requires and the set of names the caller holds
  intersect ("any-of"). Each route pairs the check with one fixed required name.
  `/getUserPermissions` is the one route without a check.
- **User creation.** `/newUser` runs five steps in order: sign up, verify the
  e-mail, confirm in the directory, assign the roles, send the password e-mail. It
  stops at the first checked step whose response lacks `success` and returns that
  response verbatim. The confirmation is a direct directory call whose return
  value is dropped. It is not checked, but it raises on a directory error, and
  nothing in the route catches that, so a failed confirmation also ends creation.
  The model runs creation as a generic halt-on-first-failure fold
  (`Pipeline.RunStages`). It proves that the fold agrees with the route's own
  cascade of guard clauses (`UserAdmin.CreateCascade`).
- **State changes to one user's directory record** `{email, phone, enabled, groups}`.
  `/enableUser` reads the user's status and asks the directory to enable the user
  only when that status says the user is not enabled. `/disableUser` asks
  unconditionally. `/updateUser` updates the attributes, fetches the user's
  groups, removes the user from every group the fetch returned, then adds the
  requested roles. It returns only the response of that last step.
- **Two read-only projections.** `/UserGroups` lists one row per directory group,
  in the directory's order. `/getUserDetails` lists the user's groups as roles,
  each with a member count of 0.

Every helper the router awaits (from `app.utils.admin_functions`), every direct
directory call and the session lookup of the caller are opaque. What they return
is an input to the handler functions:

- a `StepResponse` (`Succeeded` or `Failed`, standing for "has a `success` key"
  or not) for the helpers whose response a route relays or tests;
- a `StepOutcome` for the creation steps, which either respond or raise;
- the group list `get_user_groups` returns (`UpdateOutcomes.fetched`) and the
  status `check_user_disabled` reports (`reportedEnabled`), neither of which is
  assumed to match the record.

A handler returns its reply, the list of calls it made in order (`Call`), and,
where it changes a user, the record afterwards. A directory call is assumed to
take effect exactly when its helper reports success (the directory is atomic per
call). `Forbidden` stands for the 403 `HTTPException` ("You do not have access
to this resource") that a route returns, rather than raises, to a refused caller. `ServerError` is an exception escaping the route.

Modules: `AdminTypes` (types.dfy), `Permissions` (permissions.dfy), `Pipeline`
(pipeline.dfy), `UserAdmin` (user_admin.dfy, the handlers) and
`UserAdminProperties` (user_admin_properties.dfy, properties relating several runs).

Two behaviours of the code are worth stating plainly:

- The role update is remove-all-then-add, not a set difference. It always makes
  both calls, even when the requested roles equal the current groups
  (`UserAdminProperties.UpdateAlwaysRemovesAndAdds`).
- Creation never looks at what the directory confirmation returns
  (`UserAdminProperties.CreateIgnoresConfirmation`). A confirmation that raises
  still stops creation before the roles are assigned
  (`UserAdminProperties.CreateStopsOnRaisedConfirmation`).

## Model

| member | source | states |
|---|---|---|
| Permissions.CheckPermissions | app/routers/userAdmin.py:62-65 | allows iff some required name equals some name the caller holds (any-of, both directions); a denial carries the "no access" message |
| Permissions.RequiredPermissions | app/routers/userAdmin.py:68-321 | every route but `/getUserPermissions` requires exactly one permission name; `/getUserPermissions` has no guard |
| Permissions.SingleNameCheck | app/routers/userAdmin.py:62-65 | the check against a one-name list allows iff the caller holds that name |
| Permissions.Authorized | app/routers/userAdmin.py:72-74 | the per-route guard: `/getUserPermissions` admits everyone; a guarded route admits a caller iff the caller holds that route's required name |
| Permissions.EmptyRequirementDenies | app/routers/userAdmin.py:63 | with an empty required list the check denies every caller |
| Permissions.AnyOneRequiredSuffices | app/routers/userAdmin.py:63 | holding any one required name is enough to be allowed, whatever else is required or held |
| Permissions.MorePermissionsKeepAccess | app/routers/userAdmin.py:63 | granting a caller more permissions never turns an allow into a deny |
| Permissions.AnyOfNotAllOf | app/routers/userAdmin.py:62-65 | a caller holding only "View Users" is denied ["Delete User"] and allowed ["View Users", "Add User"] |
| Pipeline.RunStages | app/routers/userAdmin.py:76-95 | only a prefix of the steps runs, in order; the run halts iff some step raises or some checked step fails, on the first such step, handing back its outcome verbatim; otherwise every step runs |
| Pipeline.UncheckedOutcomesIgnored | app/routers/userAdmin.py:84-87 | changing what an unchecked step returns never changes the run, as long as it does not raise |
| Pipeline.InvokedIffNoEarlierStop | app/routers/userAdmin.py:76-95 | a step is invoked iff no earlier step raised or failed its check |
| Pipeline.RunHaltsAtFirstStop | app/routers/userAdmin.py:76-95 | a run whose first stopping step is k makes exactly the calls of steps 0..k and hands back step k's outcome |
| Pipeline.RunCompletes | app/routers/userAdmin.py:76-97 | a run in which no step raises and no checked step fails makes every call and halts on nothing |
| UserAdmin.CreateNewUser | app/routers/userAdmin.py:68-97 | a denied caller gets `Forbidden` and no call is made; an admitted caller gets exactly the calls and the stopping outcome of the guard-clause cascade; "User created successfully" iff sign-up, verification, role assignment and password e-mail all succeed and the confirmation does not raise; for each of the five possible first stops, exactly that step's response (or its exception) and exactly the calls up to it |
| UserAdmin.CreateCascade | app/routers/userAdmin.py:76-97 | the route's cascade of "return the response unless it has success" clauses: its calls are the creation order cut short after the first step that raised or failed its check, every earlier step having gone through, and it returns that step's outcome; it runs to the end iff every step went through |
| UserAdmin.CreateFoldMatchesCascade | app/routers/userAdmin.py:76-97 | the generic halt-on-first-failure fold over the five creation steps equals the route's cascade, for every combination of outcomes |
| UserAdmin.CreateHaltsAt | app/routers/userAdmin.py:76-95 | when step k is the first to stop the run, creation makes the first k+1 calls and stops with step k's outcome |
| UserAdmin.CreateCompletes | app/routers/userAdmin.py:76-97 | when every checked step succeeds and the confirmation does not raise, creation makes all five calls and halts on nothing |
| UserAdmin.CreateCallsPrefix | app/routers/userAdmin.py:76-93 | the creation calls, in order: sign-up, verification, confirmation, role assignment, password e-mail |
| UserAdmin.EnableUserRoute | app/routers/userAdmin.py:288-300 | denied: `Forbidden`, no call, record unchanged; otherwise the status is read first and the enable call is made iff the status says not enabled, its response relayed and a success enabling the user; if the status says enabled: "User is already enabled", only the status call, record unchanged; only the enabled flag can change, only to true, only on success |
| UserAdmin.DisableUserRoute | app/routers/userAdmin.py:303-311 | denied: `Forbidden`, no call; otherwise a single disable call with no status check, its response relayed; a success disables the user; only the enabled flag can change, only to false, only on success |
| UserAdmin.UpdateUserRoute | app/routers/userAdmin.py:269-284 | denied: `Forbidden`, no call; otherwise attributes, fetch groups, remove from every fetched group, add requested roles, in that order; only the addition's response is returned; a group remains afterwards iff it was held and not removed by a successful removal of the fetched groups, or it was added by a successful addition, so after two successes the groups are exactly the requested roles when the fetch saw them all, and after a successful removal and a failed addition the user is in none of the fetched groups; a failed removal keeps every old group; the enabled flag never changes; e-mail and phone change iff the attribute update succeeded |
| UserAdmin.ListUserGroupsRoute | app/routers/userAdmin.py:150-160 | denied: `Forbidden`, no call; otherwise one row per listed group in the directory's order, each with that group's reported member count, and one count query per group after the listing |
| UserAdmin.RolesOf | app/routers/userAdmin.py:251 | one role per listed group, in order, each with the listed name and a member count of 0 |
| UserAdmin.GetUserDetailsRoute | app/routers/userAdmin.py:235-252 | denied: `Forbidden`, no call; otherwise the user's attributes plus one role per listed group in order, each reporting 0 members |
| UserAdmin.GetUserPermissionsRoute | app/routers/userAdmin.py:314-321 | passes the guard table's entry for `/getUserPermissions`, so it is never `Forbidden`, for any caller: groups are fetched, descriptions processed, permissions extracted, and the result relayed |
| UserAdmin.PassThroughRoute | app/routers/userAdmin.py:100-266 | for the ten routes whose body is modelled as one hand-off to the directory: denied: `Forbidden` with no call; allowed: the directory's response is relayed |
| UserAdminProperties.CreateIgnoresConfirmation | app/routers/userAdmin.py:84-87 | when the directory confirmation returns, what it returns changes neither creation's reply nor its calls |
| UserAdminProperties.CreateStopsOnRaisedConfirmation | app/routers/userAdmin.py:84-97 | a confirmation that raises ends creation with that error: no role assignment, no password e-mail |
| UserAdminProperties.CreateStopsOnFailedVerification | app/routers/userAdmin.py:80-82 | after a failed e-mail verification the confirmation, role assignment and password e-mail are never invoked and the reply is the verification's outcome |
| UserAdminProperties.EnableTwiceIsAlreadyEnabled | app/routers/userAdmin.py:294-300 | after a successful enable, a second enable that reads the status back only checks it, reports "User is already enabled" and changes nothing |
| UserAdminProperties.EnableUndoesDisable | app/routers/userAdmin.py:288-311 | a successful disable followed by a successful enable restores the record with the user enabled |
| UserAdminProperties.UpdateForgetsPriorGroups | app/routers/userAdmin.py:278-282 | after a successful removal and addition whose fetch saw every group, the groups are exactly the requested roles, whatever the user belonged to before |
| UserAdminProperties.UpdateKeepsUnfetchedGroups | app/routers/userAdmin.py:278-280 | a group the fetch missed survives even a successful removal and addition |
| UserAdminProperties.UpdateReplyHidesFailedRemoval | app/routers/userAdmin.py:280-284 | when the removal fails and the addition succeeds, the reply still reports success while the user keeps every old group alongside the new ones |
| UserAdminProperties.UpdateAlwaysRemovesAndAdds | app/routers/userAdmin.py:278-282 | even when the requested roles equal the current groups, the user is removed from every fetched group and added back |
| UserAdminProperties.RolesKeepListing | app/routers/userAdmin.py:251 | projecting the group names back out of the roles recovers the directory's listing exactly, in order |
| UserAdminProperties.OnlyPermissionsRouteIsOpen | app/routers/userAdmin.py:68-321 | a caller with no permissions is admitted to `/getUserPermissions` and to no other route |

## Left out

- Client construction, `.env` loading and credentials (lines 20-37) are configuration and I/O.
- Route registration, request binding and pydantic models beyond their field shapes are framework glue. `NewUser` (app/models/newUser.py) is not part of this model; creation takes only the step outcomes.
- The routes return the 403 `HTTPException` object instead of raising it. The HTTP status the framework then sends is not modelled; the model keeps `Forbidden` as a distinct reply.
- The bodies of the helpers from `app.utils.admin_functions` and of `get_current_user` are not shown. They appear only through what they return: a success/failure response, the fetched group list or the reported status. This hides the permission decoding and union in `process_group_descriptions` and `extract_permissions`.
- Exceptions are modelled for creation only, where any of the five steps may raise and the exception ends the route. In the other routes, exceptions raised by direct directory calls (`delete_group`, `admin_get_user`, `admin_list_groups_for_user`) or by helpers are not modelled.
- The handlers act on the one user record a request is about, not on the whole directory. A missing user shows up only through failed step responses.
- A failed helper is assumed to leave the directory unchanged. Partial failure inside `remove_user_from_all_groups` or `add_user_to_new_groups` is not modelled.
- The `print` of the caller at line 116 is output only.
- PassThroughRoute: models `/deleteUser`, `/allUsers`, `/createUserGroup`, `/addUserToGroup`, `/UserGroups` (DELETE), `/getGroupDetails`, `/getAllUsersNames`, `/getAllUsers`, `/getGroupMembers` and `/updateRole` only up to their guard and one relayed response. The internal steps are not modelled: `create_user_group` calls three helpers and returns the second one's response, `get_group_details` and `update_role` call two, and the second `get_all_users` builds a list per user. Both functions named `get_all_users` are registered as routes (`/allUsers` and `/getAllUsers`), so both appear here.
- ListUserGroupsRoute: the member count of each group is whatever `retrieve_users_in_group` reports, taken as an input.
- The `await`s run one after another, so there is no concurrency to model.
