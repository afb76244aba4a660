/**
 * Staff and what they may do: the role labels of the header and the staff list,
 * the header's navigation, the permissions table, the staff list with its add,
 * edit and delete flow, and the staff form.
 */
module Staff {
  import opened Wrappers
  import opened Domain
  import opened Seqs
  import Tenancy

  // Role labels

  /** The header's label of a role; an unknown role shows its stored text. */
  function RoleLabel(r: Role): (l: string)
    ensures r.OtherRole? ==> l == r.raw
  {
    match r
    case Admin => "مدير"
    case Owner => "مالك"
    case Cashier => "كاشير"
    case Driver => "سائق"
    case SuperAdmin => "مالك النظام"
    case OtherRole(raw) => raw
  }

  /** The staff list's label of a role: four roles are named, any other shows its stored text. */
  function RoleDisplay(r: Role): (l: string)
    ensures r.OtherRole? || r == SuperAdmin ==> l == RoleText(r)
  {
    match r
    case Owner => "مالك"
    case Admin => "مدير"
    case Cashier => "كاشير"
    case Driver => "سائق"
    case _ => RoleText(r)
  }

  /** The five named roles get five different labels in the header. */
  lemma RoleLabelsDistinct(a: Role, b: Role)
    requires !a.OtherRole? && !b.OtherRole? && a != b
    ensures RoleLabel(a) != RoleLabel(b)
  {
  }

  /** The two labellings agree except on the system owner, whom the staff list shows by its stored name. */
  lemma LabelsAgreeBelowSystemOwner(r: Role)
    ensures r != SuperAdmin ==> RoleDisplay(r) == RoleLabel(r)
    ensures RoleDisplay(SuperAdmin) == "superadmin" != RoleLabel(SuperAdmin)
  {
  }

  /** The role selected in the staff form, read back from its stored text. */
  function RoleFromText(s: string): (r: Role)
    ensures RoleText(r) == s
    ensures CanonicalRole(r)
  {
    if s == "admin" then Admin
    else if s == "cashier" then Cashier
    else if s == "driver" then Driver
    else if s == "superadmin" then SuperAdmin
    else if s == "owner" then Owner
    else OtherRole(s)
  }

  /** Storing a named role and reading it back gives the same role. */
  lemma RoleTextRoundTrip(r: Role)
    requires CanonicalRole(r)
    ensures RoleFromText(RoleText(r)) == r
  {
  }

  // The header

  /** The navigation buttons: point of sale and kitchen always, the admin panel only with its permission. */
  function NavButtons(u: User): (r: seq<Tenancy.View>)
    ensures Tenancy.PosView in r && Tenancy.KdsView in r
    ensures Tenancy.AdminView in r <==> u.permissions.canAccessAdmin
  {
    [Tenancy.PosView, Tenancy.KdsView] + (if u.permissions.canAccessAdmin then [Tenancy.AdminView] else [])
  }

  /**
   * The header offers the admin button exactly when the main screen would show
   * the admin panel for that view: the button and the panel gate agree.
   */
  lemma NavMatchesPanel(rs: seq<Restaurant>, users: seq<User>, s: Tenancy.Session, now: int)
    requires Tenancy.Route(rs, users, s, now).MainScreen?
    requires s.currentView == Tenancy.AdminView
    ensures Tenancy.Route(rs, users, s, now).panel == Tenancy.AdminPanel <==>
      Tenancy.AdminView in NavButtons(s.currentUser.value)
  {
  }

  // The permissions table

  /** Every permission key is a column, once, in the fixed order. */
  lemma ColumnsCoverEveryKey(k: PermissionKey)
    ensures k in PermissionKeys
    ensures forall i, j :: 0 <= i < j < |PermissionKeys| ==> PermissionKeys[i] != PermissionKeys[j]
  {
  }

  /**
   * Ticking a box: the first user with the id supplies the permissions, one key is
   * set to the value and the other five are kept; an unknown id sends nothing.
   */
  function PermissionChange(users: seq<User>, userId: int, key: PermissionKey, value: bool)
    : (r: Option<(int, Permissions)>)
    ensures r.None? <==> forall i :: 0 <= i < |users| ==> users[i].id != userId
    ensures r.Some? ==>
      (r.value.0 == userId &&
       exists i :: 0 <= i < |users| && users[i].id == userId && r.value.1 == Set(users[i].permissions, key, value) &&
         (forall j :: 0 <= j < i ==> users[j].id != userId))
  {
    match Find(users, (u: User) => u.id == userId)
    case None => None
    case Some(u) => Some((userId, Set(u.permissions, key, value)))
  }

  /** A manager's boxes cannot be changed. */
  predicate CheckboxLocked(u: User)
  {
    IsManagerRole(u.role)
  }

  /** The locking note is shown when some listed user is a manager. */
  predicate LockNoteShown(users: seq<User>)
  {
    Any(users, (u: User) => u.role == Admin || u.role == Owner)
  }

  /** The note is shown exactly when some row of the table is locked. */
  lemma NoteExplainsLockedRows(users: seq<User>)
    ensures LockNoteShown(users) <==> exists i :: 0 <= i < |users| && CheckboxLocked(users[i])
  {
  }

  /**
   * Ticking a box and applying it: every user with that id ends up with the
   * ticked key set to the value; every other user is untouched.
   */
  lemma PermissionChangeApplied(users: seq<User>, userId: int, key: PermissionKey, value: bool)
    requires PermissionChange(users, userId, key, value).Some?
    ensures var p := PermissionChange(users, userId, key, value).value;
      var out := Tenancy.UpdateUserPermissions(users, p.0, p.1);
      |out| == |users| &&
      forall i :: 0 <= i < |users| ==>
        if users[i].id == userId then Get(out[i].permissions, key) == value && out[i].(permissions := users[i].permissions) == users[i]
        else out[i] == users[i]
  {
  }

  /** Staff added as a manager start locked, with every permission. */
  lemma ManagersStartLockedWithAll(users: seq<User>, name: string, password: Option<string>, role: Role, id: int, tenant: string)
    requires IsManagerRole(role)
    ensures var out := Tenancy.AddUser(users, name, password, role, id, tenant);
      CheckboxLocked(out[|users|]) && out[|users|].permissions == AllPermissions && LockNoteShown(out)
  {
    var out := Tenancy.AddUser(users, name, password, role, id, tenant);
    assert out[|users|].role == Admin || out[|users|].role == Owner;
  }

  // A pending deletion behind a confirmation dialog

  datatype Deletion = Deletion(open: bool, target: Option<int>)

  const NoPending := Deletion(false, None)

  function RequestDelete(p: Deletion, id: int): (r: Deletion)
    ensures r == Deletion(true, Some(id))
  {
    Deletion(true, Some(id))
  }

  /** Confirming forwards the pending id if there is one (0 included), then closes and clears. */
  function ConfirmDelete(p: Deletion): (r: (Deletion, Option<int>))
    ensures r.0 == NoPending
    ensures r.1 == p.target
  {
    (NoPending, p.target)
  }

  /** Closing the staff dialog only hides it; the pending id stays, and nothing is forwarded. */
  function CancelDelete(p: Deletion): (r: Deletion)
    ensures !r.open && r.target == p.target
  {
    p.(open := false)
  }

  /** The id a cancelled dialog keeps is never deleted: the next request replaces it. */
  lemma CancelledIdIsReplaced(p: Deletion, id: int)
    ensures CancelDelete(p).target == p.target
    ensures ConfirmDelete(RequestDelete(CancelDelete(p), id)).1 == Some(id)
  {
  }

  /** A request confirmed deletes exactly that id, and confirming again deletes nothing. */
  lemma ConfirmDeletesOnce(p: Deletion, id: int)
    ensures ConfirmDelete(RequestDelete(p, id)).1 == Some(id)
    ensures ConfirmDelete(ConfirmDelete(RequestDelete(p, id)).0).1.None?
  {
  }

  // The staff form

  datatype EmployeeForm = EmployeeForm(username: string, password: string, role: Role)

  /** The form starts from the edited user's name and role (an empty one counts as none) with an empty password. */
  function InitialEmployeeForm(editing: Option<User>): (f: EmployeeForm)
    ensures f.password == ""
    ensures editing.None? ==> f == EmployeeForm("", "", Cashier)
    ensures editing.Some? ==> f.username == editing.value.username
    ensures editing.Some? && RoleText(editing.value.role) != "" ==> f.role == editing.value.role
    ensures editing.Some? && RoleText(editing.value.role) == "" ==> f.role == Cashier
  {
    match editing
    case None => EmployeeForm("", "", Cashier)
    case Some(u) => EmployeeForm(u.username, "", if RoleText(u.role) != "" then u.role else Cashier)
  }

  datatype EmployeeField = UsernameField | PasswordField | RoleField

  /** A change sets the named field only; the role select stores its option's text. */
  function ChangeEmployee(f: EmployeeForm, field: EmployeeField, value: string): (r: EmployeeForm)
    ensures field == UsernameField ==> r == f.(username := value)
    ensures field == PasswordField ==> r == f.(password := value)
    ensures field == RoleField ==> r == f.(role := RoleFromText(value))
  {
    match field
    case UsernameField => f.(username := value)
    case PasswordField => f.(password := value)
    case RoleField => f.(role := RoleFromText(value))
  }

  /** What the form saves: a new user's three fields, or the edited user with them merged in. */
  datatype SavedUser = NewUser(username: string, password: string, role: Role) | EditedUser(user: User)

  /**
   * Submitting: a username is required, and a password only when creating. An
   * edit keeps id, tenant and permissions and overwrites name, role and password,
   * an empty password included.
   */
  function SubmitEmployee(f: EmployeeForm, editing: Option<User>): (r: Option<SavedUser>)
    ensures r.Some? <==> f.username != "" && (editing.Some? || f.password != "")
    ensures r.Some? && editing.None? ==> r.value == NewUser(f.username, f.password, f.role)
    ensures r.Some? && editing.Some? ==>
      (r.value.EditedUser? &&
       r.value.user == editing.value.(username := f.username, password := Some(f.password), role := f.role))
  {
    if f.username != "" && (editing.Some? || f.password != "") then
      match editing
      case None => Some(NewUser(f.username, f.password, f.role))
      case Some(u) => Some(EditedUser(u.(username := f.username, password := Some(f.password), role := f.role)))
    else None
  }

  /** A new user without a password is never saved. */
  lemma NewUserNeedsPassword(f: EmployeeForm)
    requires f.password == ""
    ensures SubmitEmployee(f, None).None?
  {
  }

  // The staff list

  datatype StaffCommand = NoStaffChange | AddStaff(username: string, password: string, role: Role) | UpdateStaff(user: User)

  datatype StaffScreen = StaffScreen(modalOpen: bool, editing: Option<User>, deletion: Deletion)

  const InitialStaffScreen := StaffScreen(false, None, NoPending)

  function OpenAdd(s: StaffScreen): (r: StaffScreen)
    ensures r == s.(editing := None, modalOpen := true)
  {
    s.(editing := None, modalOpen := true)
  }

  function OpenEdit(s: StaffScreen, u: User): (r: StaffScreen)
    ensures r == s.(editing := Some(u), modalOpen := true)
  {
    s.(editing := Some(u), modalOpen := true)
  }

  /** Saving dispatches by whether the user has an id, then closes the form. */
  function SaveStaff(s: StaffScreen, saved: SavedUser): (r: (StaffScreen, StaffCommand))
    ensures r.0 == s.(modalOpen := false, editing := None)
    ensures saved.EditedUser? <==> r.1.UpdateStaff?
    ensures saved.EditedUser? ==> r.1.user == saved.user
    ensures saved.NewUser? ==> r.1 == AddStaff(saved.username, saved.password, saved.role)
  {
    var cmd := match saved
      case NewUser(n, p, role) => AddStaff(n, p, role)
      case EditedUser(u) => UpdateStaff(u);
    (s.(modalOpen := false, editing := None), cmd)
  }

  /** A delete button is offered only while more than one user is listed. */
  predicate DeleteOffered(users: seq<User>)
  {
    |users| > 1
  }

  /**
   * Deleting through an offered button never empties the staff list, as long as
   * ids are distinct: exactly the chosen user goes and the rest keep their order.
   */
  lemma OfferedDeleteKeepsSomeone(users: seq<User>, k: nat)
    requires DeleteOffered(users) && k < |users|
    requires forall i, j :: 0 <= i < j < |users| ==> users[i].id != users[j].id
    ensures DeleteUser(users, users[k].id) == users[..k] + users[k + 1..]
    ensures |DeleteUser(users, users[k].id)| >= 1
  {
    var id := users[k].id;
    var keep := (u: User) => u.id != id;
    assert users == users[..k] + ([users[k]] + users[k + 1..]);
    FilterConcat(users[..k], [users[k]] + users[k + 1..], keep);
    FilterConcat([users[k]], users[k + 1..], keep);
    FilterKeepsAll(users[..k], keep);
    FilterKeepsAll(users[k + 1..], keep);
    assert Filter([users[k]], keep) == [];
  }

  /**
   * Without distinct ids the button does not protect the list: two users sharing an
   * id are both offered a delete button, and deleting either removes both.
   */
  lemma SharedIdEmptiesList(u: User, v: User)
    requires u.id == v.id
    ensures DeleteOffered([u, v])
    ensures DeleteUser([u, v], u.id) == []
  {
    var keep := (x: User) => x.id != u.id;
    assert [u, v][1..] == [v];
    assert [v][1..] == [];
    assert Filter([v], keep) == [];
  }

  /** The application's side: add with the role's defaults, replace by id, or remove by id. */
  function ReplaceUser(users: seq<User>, updated: User): (out: seq<User>)
    ensures |out| == |users|
    ensures forall i :: 0 <= i < |users| ==> out[i] == if users[i].id == updated.id then updated else users[i]
  {
    MapWhere(users, (u: User) => u.id == updated.id, (u: User) => updated)
  }

  function DeleteUser(users: seq<User>, id: int): (out: seq<User>)
    ensures forall u :: u in out <==> u in users && u.id != id
    ensures IsSubsequence(out, users)
    ensures forall u :: multiset(out)[u] == if u.id != id then multiset(users)[u] else 0
  {
    var keep := (u: User) => u.id != id;
    FilterMultiset(users, keep);
    Filter(users, keep)
  }

  function ApplyStaff(users: seq<User>, cmd: StaffCommand, newId: int, tenant: string): (out: seq<User>)
    ensures cmd == NoStaffChange ==> out == users
    ensures cmd.AddStaff? ==> out == Tenancy.AddUser(users, cmd.username, Some(cmd.password), cmd.role, newId, tenant)
    ensures cmd.UpdateStaff? ==> out == ReplaceUser(users, cmd.user)
  {
    match cmd
    case NoStaffChange => users
    case AddStaff(n, p, role) => Tenancy.AddUser(users, n, Some(p), role, newId, tenant)
    case UpdateStaff(u) => ReplaceUser(users, u)
  }

  /**
   * Editing a user and saving without typing a password stores an empty
   * password: afterwards the old password no longer signs in and the empty one does.
   */
  lemma EditWithoutPasswordClearsIt(users: seq<User>, k: nat, tenant: string, previous: string)
    requires k < |users| && users[k].restaurantId == tenant && users[k].username != ""
    requires forall j :: 0 <= j < |users| && j != k ==> users[j].id != users[k].id && users[j].username != users[k].username
    requires users[k].password == Some(previous) && previous != ""
    requires !(users[k].username == "superadmin" && (previous == "superadmin" || previous == ""))
    ensures var u := users[k];
      var saved := SubmitEmployee(InitialEmployeeForm(Some(u)), Some(u));
      saved.Some? &&
      var after := ApplyStaff(users, SaveStaff(InitialStaffScreen.(modalOpen := true, editing := Some(u)), saved.value).1, 0, tenant);
      after[k].password == Some("") &&
      Tenancy.Login(after, Some(tenant), u.username, previous) == Tenancy.BadCredentials &&
      Tenancy.Login(after, Some(tenant), u.username, "").SignedIn?
  {
    var u := users[k];
    var f := InitialEmployeeForm(Some(u));
    var saved := SubmitEmployee(f, Some(u));
    var after := ApplyStaff(users, SaveStaff(InitialStaffScreen.(modalOpen := true, editing := Some(u)), saved.value).1, 0, tenant);
    assert after == ReplaceUser(users, saved.value.user);
    assert after[k] == u.(password := Some(""), role := f.role);
    forall v | v in after && Some(tenant) == Some(v.restaurantId)
      ensures !(v.username == u.username && v.password == Some(previous))
    {
      var j :| 0 <= j < |after| && after[j] == v;
      if j != k {
        assert after[j] == users[j];
      }
    }
    assert after[k] in Tenancy.TenantUsers(after, Some(tenant));
  }
}
