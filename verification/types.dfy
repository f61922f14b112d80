/**
 The values the user-administration routes exchange: the caller's identity, the
 responses of the directory and e-mail helpers (treated as opaque steps), the
 replies a route hands back, and the abstract directory record of one user.
 */
module AdminTypes {

  datatype Option<+T> = None | Some(value: T)

  /** The administrative routes of the router, one constructor per route. */
  datatype Endpoint =
    | NewUser             // POST   /newUser
    | DeleteUser          // DELETE /deleteUser/{username}
    | AllUsers            // GET    /allUsers
    | CreateUserGroup     // POST   /createUserGroup
    | AddUserToGroup      // POST   /addUserToGroup
    | ListUserGroups      // GET    /UserGroups
    | DeleteUserGroup     // DELETE /UserGroups
    | GetGroupDetails     // GET    /getGroupDetails
    | GetAllUsersNames    // GET    /getAllUsersNames
    | GetAllUsers         // GET    /getAllUsers
    | GetGroupMembers     // GET    /getGroupMembers
    | GetUserDetails      // GET    /getUserDetails
    | UpdateRole          // PUT    /updateRole
    | UpdateUser          // PUT    /updateUser
    | EnableUser          // PUT    /enableUser
    | DisableUser         // PUT    /disableUser
    | GetUserPermissions  // GET    /getUserPermissions/{username}

  /** The acting principal, as the session layer supplies it: a name and the
      list of permission names it was granted. */
  datatype Caller = Caller(username: string, permissions: seq<string>)

  /** What a helper returned. The router only ever asks whether the response
      carries a "success" key; everything else is passed on untouched. */
  datatype StepResponse = Succeeded(body: string) | Failed(detail: string)

  predicate IsSuccess(r: StepResponse) { r.Succeeded? }

  /** What happened when a step was awaited or called: it returned a
      response, or it raised an exception that nothing in the route catches. */
  datatype StepOutcome = Responded(response: StepResponse) | Raised(error: string)

  /** The step returned a response carrying "success". */
  predicate Succeeds(o: StepOutcome) { o.Responded? && IsSuccess(o.response) }

  /** One row of a group listing: a group name and its member count. */
  datatype GroupRow = GroupRow(groupName: string, numberOfUsers: nat)

  /** What a route hands back to the client. `Forbidden` is the access-denied
      reply and is never produced by anything but a failed permission check;
      `ServerError` is an exception escaping the route. */
  datatype Reply =
    | Forbidden
    | ServerError(error: string)
    | Relayed(response: StepResponse)
    | Message(text: string)
    | GroupTable(rows: seq<GroupRow>)
    | UserDetails(attributes: string, roles: seq<GroupRow>)

  /** The directory and e-mail interactions a route performs, in the order it
      performs them. `EndpointBody` stands for the whole body of a route whose
      work is a single pass-through to the directory. */
  datatype Call =
    | SignUpUser
    | VerifyUserEmail
    | AdminConfirmSignUp
    | AddUserToRoles
    | SendPasswordEmail
    | CheckUserDisabled
    | EnableUserInDirectory
    | DisableUserInDirectory
    | UpdateUserAttributes
    | GetUserGroups
    | RemoveUserFromAllGroups(groups: seq<string>)
    | AddUserToNewGroups(roles: seq<string>)
    | RetrieveAllGroups
    | RetrieveUsersInGroup(group: string)
    | AdminGetUser
    | AdminListGroupsForUser
    | ProcessGroupDescriptions
    | ExtractPermissions
    | EndpointBody(endpoint: Endpoint)

  /** The directory's view of one user, as far as these routes touch it. */
  datatype UserRecord = UserRecord(email: string, phoneNumber: string, enabled: bool, groups: set<string>)

  /** The body of a user update request. */
  datatype UpdateUserForm = UpdateUserForm(username: string, email: string, phoneNumber: string, roles: seq<string>)

  /** A route that only talks to the directory: its reply and the calls it made. */
  datatype Served = Served(reply: Reply, calls: seq<Call>)

  /** A route that changes one user's record: reply, calls and the record after. */
  datatype Updated = Updated(reply: Reply, calls: seq<Call>, user: UserRecord)

  const NoAccess: string := "You do not have access to this resource"
  const UserCreated: string := "User created successfully"
  const AlreadyEnabled: string := "User is already enabled"
}
