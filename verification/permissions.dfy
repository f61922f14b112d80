/**
 The authorization guard: the "any-of" permission check and the table of the
 permission name each route requires.
 */
module Permissions {
  import opened AdminTypes

  datatype Verdict = Allow | Deny(message: string)

  /** Some required name is among the caller's permissions. */
  ghost predicate Overlaps(required: seq<string>, held: seq<string>)
  {
    exists i, j :: 0 <= i < |required| && 0 <= j < |held| && required[i] == held[j]
  }

  /** The permission check: allow when the set of required names and the set
      of the caller's names intersect. */
  function CheckPermissions(caller: Caller, required: seq<string>): (v: Verdict)
    ensures v.Allow? <==> Overlaps(required, caller.permissions)
    ensures v.Deny? ==> v.message == NoAccess
  {
    var want := set p | p in required;
    var have := set p | p in caller.permissions;
    if want * have == {} then
      assert !Overlaps(required, caller.permissions) by {
        forall i, j | 0 <= i < |required| && 0 <= j < |caller.permissions|
          ensures required[i] != caller.permissions[j]
        {
          assert required[i] in want && required[i] !in want * have;
          assert caller.permissions[j] in have;
        }
      }
      Deny(NoAccess)
    else
      var p :| p in want * have;
      assert exists i :: 0 <= i < |required| && required[i] == p;
      assert exists j :: 0 <= j < |caller.permissions| && caller.permissions[j] == p;
      Allow
  }

  /** The permission list each route hands to the check; `None` for the one
      route that performs no check at all. */
  function RequiredPermissions(e: Endpoint): (r: Option<seq<string>>)
    ensures r.None? <==> e.GetUserPermissions?
    ensures r.Some? ==> |r.value| == 1
  {
    match e
    case NewUser => Some(["Add User"])
    case DeleteUser => Some(["Delete User"])
    case AllUsers => Some(["View Users"])
    case CreateUserGroup => Some(["Add Role"])
    case AddUserToGroup => Some(["Add User To Group"])
    case ListUserGroups => Some(["View Roles"])
    case DeleteUserGroup => Some(["Delete Role"])
    case GetGroupDetails => Some(["View Role"])
    case GetAllUsersNames => Some(["View Users"])
    case GetAllUsers => Some(["View Users"])
    case GetGroupMembers => Some(["View Role"])
    case GetUserDetails => Some(["View User"])
    case UpdateRole => Some(["Edit Role"])
    case UpdateUser => Some(["Edit User"])
    case EnableUser => Some(["Enable User"])
    case DisableUser => Some(["Disable User"])
    case GetUserPermissions => None
  }

  /** A single-name requirement is met exactly when the caller holds that name. */
  lemma SingleNameCheck(caller: Caller, p: string)
    ensures CheckPermissions(caller, [p]).Allow? <==> p in caller.permissions
  {
    if p in caller.permissions {
      var j :| 0 <= j < |caller.permissions| && caller.permissions[j] == p;
      assert [p][0] == caller.permissions[j];
      assert Overlaps([p], caller.permissions);
    }
  }

  /** Whether the caller gets past the route's guard: the unguarded route lets
      everyone in, a guarded route exactly the callers holding its one
      required name. */
  function Authorized(e: Endpoint, caller: Caller): (a: bool)
    ensures e.GetUserPermissions? ==> a
    ensures !e.GetUserPermissions? ==> (a <==> RequiredPermissions(e).value[0] in caller.permissions)
  {
    match RequiredPermissions(e)
    case None => true
    case Some(required) =>
      SingleNameCheck(caller, required[0]);
      assert required == [required[0]];
      CheckPermissions(caller, required).Allow?
  }

  /** With nothing required, the check denies whoever asks. */
  lemma EmptyRequirementDenies(caller: Caller)
    ensures CheckPermissions(caller, []).Deny?
  {
  }

  /** Holding one required name is enough, whatever else is required or held. */
  lemma AnyOneRequiredSuffices(caller: Caller, required: seq<string>, p: string)
    requires p in required && p in caller.permissions
    ensures CheckPermissions(caller, required).Allow?
  {
    var i :| 0 <= i < |required| && required[i] == p;
    var j :| 0 <= j < |caller.permissions| && caller.permissions[j] == p;
    assert Overlaps(required, caller.permissions);
  }

  /** Granting the caller more permissions never turns an allow into a deny. */
  lemma MorePermissionsKeepAccess(caller: Caller, extra: seq<string>, required: seq<string>)
    requires CheckPermissions(caller, required).Allow?
    ensures CheckPermissions(Caller(caller.username, caller.permissions + extra), required).Allow?
  {
    var held := caller.permissions;
    var i, j :| 0 <= i < |required| && 0 <= j < |held| && required[i] == held[j];
    assert (held + extra)[j] == held[j];
    assert Overlaps(required, held + extra);
  }

  /** The check is any-of, not all-of: a caller holding only "View Users" is
      refused "Delete User" and admitted to ["View Users", "Add User"]. */
  lemma AnyOfNotAllOf()
    ensures CheckPermissions(Caller("admin", ["View Users"]), ["Delete User"]).Deny?
    ensures CheckPermissions(Caller("admin", ["View Users"]), ["View Users", "Add User"]).Allow?
  {
    AnyOneRequiredSuffices(Caller("admin", ["View Users"]), ["View Users", "Add User"], "View Users");
  }
}
