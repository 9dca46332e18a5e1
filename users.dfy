/**
  The explicit checks of the administration handlers: new-user
  validation in `create_user`, the guard that keeps the `admin` account
  from being deleted in `manage_user`, and the page permission test
  `page in permissions.split(',')`. The user table is a map from row id to
  user; password hashing is not modelled (a user row keeps no password).
*/
module Users {
  import Text

  datatype User = User(username: string, isAdmin: bool, permissions: string)

  type UserTable = map<nat, User>

  const AdminName: string := "admin"
  const MinUsernameLength: nat := 4
  const MinPasswordLength: nat := 6

  datatype ValidationError = UsernameTooShort | PasswordTooShort | NoPermissionSelected

  /** The validation messages of `create_user`, in the order they are flashed.
      A missing field arrives as the empty string. */
  function ValidateNewUser(username: string, password: string, permissions: seq<string>): (errors: seq<ValidationError>)
    ensures (UsernameTooShort in errors) <==> |username| < MinUsernameLength
    ensures (PasswordTooShort in errors) <==> |password| < MinPasswordLength
    ensures (NoPermissionSelected in errors) <==> permissions == []
    ensures errors == [] <==> |username| >= MinUsernameLength && |password| >= MinPasswordLength && permissions != []
    ensures forall i, j :: 0 <= i < j < |errors| ==> errors[i] != errors[j]
  {
    (if |username| < MinUsernameLength then [UsernameTooShort] else [])
    + (if |password| < MinPasswordLength then [PasswordTooShort] else [])
    + (if permissions == [] then [NoPermissionSelected] else [])
  }

  /** `permissions_wtf if permissions_wtf else permissions_direct`. */
  function ChosenPermissions(fromForm: seq<string>, fromRequest: seq<string>): (ps: seq<string>)
    ensures fromForm != [] ==> ps == fromForm
    ensures fromForm == [] ==> ps == fromRequest
    ensures ps == [] <==> fromForm == [] && fromRequest == []
  {
    if fromForm != [] then fromForm else fromRequest
  }

  /** Some row already has this username. */
  predicate UsernameTaken(users: UserTable, username: string) {
    exists id :: id in users && users[id].username == username
  }

  datatype CreateOutcome = Created | CreateDenied | Invalid(errors: seq<ValidationError>) | AlreadyExists

  /** `create_user`: the outcome and the user table afterwards. `newId` is the
      row id the database hands out. */
  function CreateUser(users: UserTable, actorIsAdmin: bool, newId: nat, username: string, password: string,
                      isAdmin: bool, fromForm: seq<string>, fromRequest: seq<string>): (r: (CreateOutcome, UserTable))
    requires newId !in users
    ensures r.0 == CreateDenied <==> !actorIsAdmin
    ensures r.0.Invalid? <==> actorIsAdmin && ValidateNewUser(username, password, ChosenPermissions(fromForm, fromRequest)) != []
    ensures r.0.Invalid? ==> r.0.errors == ValidateNewUser(username, password, ChosenPermissions(fromForm, fromRequest))
    ensures r.0 == Created <==>
      && actorIsAdmin
      && ValidateNewUser(username, password, ChosenPermissions(fromForm, fromRequest)) == []
      && !UsernameTaken(users, username)
    ensures r.0 != Created ==> r.1 == users
    ensures r.0 == Created ==>
      r.1 == users[newId := User(username, isAdmin, Text.Join(ChosenPermissions(fromForm, fromRequest), ','))]
  {
    var permissions := ChosenPermissions(fromForm, fromRequest);
    var errors := ValidateNewUser(username, password, permissions);
    if !actorIsAdmin then (CreateDenied, users)
    else if errors != [] then (Invalid(errors), users)
    else if UsernameTaken(users, username) then (AlreadyExists, users)
    else
      var stored := if permissions != [] then Text.Join(permissions, ',') else "dashboard";
      (Created, users[newId := User(username, isAdmin, stored)])
  }

  datatype DeleteOutcome = Deleted | DeleteDenied | NotFound | CannotDeleteAdmin

  /** The DELETE branch of `manage_user`: the outcome and the table afterwards. */
  function DeleteUser(users: UserTable, actorIsAdmin: bool, id: nat): (r: (DeleteOutcome, UserTable))
    ensures r.0 == DeleteDenied <==> !actorIsAdmin
    ensures r.0 == NotFound <==> actorIsAdmin && id !in users
    ensures r.0 == Deleted <==> actorIsAdmin && id in users && users[id].username != AdminName
    ensures r.0 == CannotDeleteAdmin <==> actorIsAdmin && id in users && users[id].username == AdminName
    ensures r.0 == Deleted ==> r.1 == users - {id}
    ensures r.0 != Deleted ==> r.1 == users
  {
    if !actorIsAdmin then (DeleteDenied, users)
    else if id !in users then (NotFound, users)
    else if users[id].username == AdminName then (CannotDeleteAdmin, users)
    else (Deleted, users - {id})
  }

  /** No delete request removes or alters a row named `admin`. */
  lemma AdminSurvivesDelete(users: UserTable, actorIsAdmin: bool, id: nat, adminId: nat)
    requires adminId in users && users[adminId].username == AdminName
    ensures var after := DeleteUser(users, actorIsAdmin, id).1;
            adminId in after && after[adminId] == users[adminId]
  {
  }

  // ---------------------------------------------------------------------------
  // Page permissions
  // ---------------------------------------------------------------------------

  /** `page in permissions.split(',')`, the test guarding the event log,
      analytics and report pages. */
  predicate Permits(permissions: string, page: string) {
    page in Text.Split(permissions, ',')
  }

  /** The list the dashboard passes on: `permissions.split(',')`, or
      `['dashboard']` when the column is empty. */
  function DashboardPermissions(permissions: string): (ps: seq<string>)
    ensures permissions == "" ==> ps == ["dashboard"]
    ensures permissions != "" ==> forall page :: page in ps <==> Permits(permissions, page)
  {
    if permissions != "" then Text.Split(permissions, ',') else ["dashboard"]
  }

  /** A permission string built by joining selected page names grants exactly
      those pages (page names hold no comma). */
  lemma PermitsJoined(selected: seq<string>, page: string)
    requires selected != []
    requires forall i :: 0 <= i < |selected| ==> ',' !in selected[i]
    ensures Permits(Text.Join(selected, ','), page) <==> page in selected
  {
    Text.SplitJoin(selected, ',');
  }

  /** A user created with a valid form is granted exactly the pages selected. */
  lemma CreatedUserPermissions(users: UserTable, newId: nat, username: string, password: string,
                               isAdmin: bool, fromForm: seq<string>, fromRequest: seq<string>, page: string)
    requires newId !in users
    requires forall i :: 0 <= i < |fromForm| ==> ',' !in fromForm[i]
    requires forall i :: 0 <= i < |fromRequest| ==> ',' !in fromRequest[i]
    requires CreateUser(users, true, newId, username, password, isAdmin, fromForm, fromRequest).0 == Created
    ensures var after := CreateUser(users, true, newId, username, password, isAdmin, fromForm, fromRequest).1;
            Permits(after[newId].permissions, page) <==> page in ChosenPermissions(fromForm, fromRequest)
  {
    PermitsJoined(ChosenPermissions(fromForm, fromRequest), page);
  }

  /** Membership is by whole comma-separated piece: an empty permission
      string grants no named page, although the dashboard shows it as
      `['dashboard']`. */
  lemma EmptyPermissionsGrantNothing(page: string)
    requires page != ""
    ensures !Permits("", page)
    ensures DashboardPermissions("") == ["dashboard"]
  {
  }
}
