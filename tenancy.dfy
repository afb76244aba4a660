/**
 * Tenants and their licences as the application handles them: adding a
 * restaurant, setting its subscription, issuing, redeeming and resetting its
 * activation code; adding staff with their default permissions; signing in; and
 * the cascade that decides which screen the application shows.
 */
module Tenancy {
  import opened Wrappers
  import opened Domain
  import opened Seqs
  import opened Text

  // Restaurants and activation codes

  /** A new restaurant starts unactivated with a perpetual (null) end date; its other fields are kept. */
  function AddRestaurant(rs: seq<Restaurant>, r: Restaurant): (out: seq<Restaurant>)
    ensures |out| == |rs| + 1 && out[..|rs|] == rs
    ensures out[|rs|] == r.(isActivated := false, subscriptionEndDate := None)
  {
    rs + [r.(isActivated := false, subscriptionEndDate := None)]
  }

  /** Every restaurant with the id gets the new end date; nothing else changes. */
  function UpdateSubscription(rs: seq<Restaurant>, id: string, end: Option<int>): (out: seq<Restaurant>)
    ensures |out| == |rs|
    ensures forall i :: 0 <= i < |rs| ==> out[i] == if rs[i].id == id then rs[i].(subscriptionEndDate := end) else rs[i]
  {
    MapWhere(rs, (r: Restaurant) => r.id == id, (r: Restaurant) => r.(subscriptionEndDate := end))
  }

  /** `s.substring(a, b)` for `a <= b`: the indices are clamped to the length. */
  function Substring(s: string, a: nat, b: nat): (r: string)
    requires a <= b
    ensures |r| <= b - a
    ensures a <= |s| ==> r == s[a..if b <= |s| then b else |s|]
  {
    var lo := if a <= |s| then a else |s|;
    var hi := if b <= |s| then b else |s|;
    s[lo..hi]
  }

  predicate IsBase36Lower(c: char)
  {
    '0' <= c <= '9' || 'a' <= c <= 'z'
  }

  predicate IsBase36Upper(c: char)
  {
    '0' <= c <= '9' || 'A' <= c <= 'Z'
  }

  /**
   * The activation code made from the text of a random number in base 36
   * (`0.` followed by its digits): `FC-` and at most six of those digits, upper-cased.
   */
  function CodeFrom(random: string): (code: string)
    ensures 3 <= |code| <= 9 && code[..3] == "FC-"
    ensures (forall i :: 2 <= i < |random| ==> IsBase36Lower(random[i])) ==>
      forall i :: 3 <= i < |code| ==> IsBase36Upper(code[i])
  {
    var digits := Substring(random, 2, 8);
    var code := "FC-" + Upper(digits);
    assert forall i :: 3 <= i < |code| ==> code[i] == UpperChar(digits[i - 3]);
    assert 2 <= |random| ==> forall j :: 0 <= j < |digits| ==> digits[j] == random[j + 2];
    code
  }

  /** Issuing a code overwrites the code of every restaurant with the id, whatever its state. */
  function GenerateCode(rs: seq<Restaurant>, id: string, random: string): (out: seq<Restaurant>)
    ensures |out| == |rs|
    ensures forall i :: 0 <= i < |rs| ==> out[i] == if rs[i].id == id then rs[i].(activationCode := Some(CodeFrom(random))) else rs[i]
  {
    var code := CodeFrom(random);
    MapWhere(rs, (r: Restaurant) => r.id == id, (r: Restaurant) => r.(activationCode := Some(code)))
  }

  /** Resetting deactivates and clears the activation date, keeping the code and the end date. */
  function ResetActivation(rs: seq<Restaurant>, id: string): (out: seq<Restaurant>)
    ensures |out| == |rs|
    ensures forall i :: 0 <= i < |rs| ==> out[i] == if rs[i].id == id then rs[i].(isActivated := false, activationDate := None) else rs[i]
  {
    MapWhere(rs, (r: Restaurant) => r.id == id, (r: Restaurant) => r.(isActivated := false, activationDate := None))
  }

  datatype ActivationResult = Success | InvalidCode | AlreadyUsed

  /** The first restaurant carrying the code, if any. */
  function WithCode(rs: seq<Restaurant>, code: string): (k: Option<nat>)
    ensures k.Some? ==> k.value < |rs| && rs[k.value].activationCode == Some(code)
    ensures k.Some? ==> forall j :: 0 <= j < k.value ==> rs[j].activationCode != Some(code)
    ensures k.None? <==> forall i :: 0 <= i < |rs| ==> rs[i].activationCode != Some(code)
  {
    FindIndex(rs, (r: Restaurant) => r.activationCode == Some(code))
  }

  /**
   * Redeeming a code. The first restaurant carrying it decides: none is an invalid
   * code, an activated one an already-used code, and in both cases nothing changes.
   * Otherwise every restaurant with that one's id is activated at `now`, its id
   * becomes the current tenant, and the result is success.
   */
  function InitialActivate(rs: seq<Restaurant>, code: string, now: int)
    : (r: (seq<Restaurant>, ActivationResult, Option<string>))
    ensures WithCode(rs, code).None? <==> r.1 == InvalidCode
    ensures r.1 == AlreadyUsed <==> WithCode(rs, code).Some? && rs[WithCode(rs, code).value].isActivated
    ensures r.1 != Success ==> r.0 == rs && r.2.None?
    ensures r.1 == Success ==>
      var target := rs[WithCode(rs, code).value];
      !target.isActivated && r.2 == Some(target.id) && |r.0| == |rs| &&
      forall i :: 0 <= i < |rs| ==>
        r.0[i] == if rs[i].id == target.id then rs[i].(isActivated := true, activationDate := Some(now)) else rs[i]
  {
    match WithCode(rs, code)
    case None => (rs, InvalidCode, None)
    case Some(k) =>
      if rs[k].isActivated then (rs, AlreadyUsed, None)
      else
        var id := rs[k].id;
        (MapWhere(rs, (r: Restaurant) => r.id == id, (r: Restaurant) => r.(isActivated := true, activationDate := Some(now))),
         Success, Some(id))
  }

  /** A code is redeemable when the first carrier of it is the restaurant at `k`, not yet activated. */
  predicate Redeemable(rs: seq<Restaurant>, k: nat, code: string)
  {
    k < |rs| && !rs[k].isActivated && rs[k].activationCode == Some(code) &&
    forall j :: 0 <= j < k ==> rs[j].activationCode != Some(code)
  }

  /**
   * A freshly issued code redeems its restaurant, provided no restaurant listed
   * before it carries the same code and it is the first with its id.
   */
  lemma IssuedCodeRedeems(rs: seq<Restaurant>, k: nat, random: string, now: int)
    requires k < |rs| && !rs[k].isActivated
    requires forall j :: 0 <= j < k ==> rs[j].id != rs[k].id && rs[j].activationCode != Some(CodeFrom(random))
    ensures var issued := GenerateCode(rs, rs[k].id, random);
      InitialActivate(issued, CodeFrom(random), now).1 == Success &&
      InitialActivate(issued, CodeFrom(random), now).2 == Some(rs[k].id)
  {
    var issued := GenerateCode(rs, rs[k].id, random);
    assert Redeemable(issued, k, CodeFrom(random));
    RedeemableSucceeds(issued, k, CodeFrom(random), now);
  }

  lemma RedeemableSucceeds(rs: seq<Restaurant>, k: nat, code: string, now: int)
    requires Redeemable(rs, k, code)
    ensures InitialActivate(rs, code, now).1 == Success
    ensures InitialActivate(rs, code, now).2 == Some(rs[k].id)
  {
  }

  /** A code can be redeemed once: redeeming it again reports it as already used. */
  lemma SecondRedemptionRefused(rs: seq<Restaurant>, code: string, now: int, later: int)
    requires InitialActivate(rs, code, now).1 == Success
    ensures InitialActivate(InitialActivate(rs, code, now).0, code, later).1 == AlreadyUsed
  {
    var k := WithCode(rs, code).value;
    var r := InitialActivate(rs, code, now).0;
    SameCodesSameCarrier(rs, r, code);
    assert r[k].isActivated;
  }

  /** Lists that agree on every code have the same first carrier of a code. */
  lemma SameCodesSameCarrier(a: seq<Restaurant>, b: seq<Restaurant>, code: string)
    requires |a| == |b| && forall i :: 0 <= i < |a| ==> a[i].activationCode == b[i].activationCode
    ensures WithCode(a, code) == WithCode(b, code)
  {
  }

  /** After a reset the kept code can be redeemed again. */
  lemma ResetMakesCodeRedeemableAgain(rs: seq<Restaurant>, code: string, now: int, later: int)
    requires InitialActivate(rs, code, now).1 == Success
    ensures var r := InitialActivate(rs, code, now);
      InitialActivate(ResetActivation(r.0, r.2.value), code, later).1 == Success
  {
    var k := WithCode(rs, code).value;
    var r := InitialActivate(rs, code, now);
    ResetKeepsCodes(rs, r.0, code, k);
    RedeemableSucceeds(ResetActivation(r.0, r.2.value), k, code, later);
  }

  /** Resetting the activated tenant leaves its codes in place and its first carrier unactivated. */
  lemma ResetKeepsCodes(rs: seq<Restaurant>, activated: seq<Restaurant>, code: string, k: nat)
    requires |activated| == |rs| && Redeemable(rs, k, code)
    requires forall i :: 0 <= i < |rs| ==>
      activated[i].activationCode == rs[i].activationCode && activated[i].id == rs[i].id
    ensures Redeemable(ResetActivation(activated, rs[k].id), k, code)
  {
    var again := ResetActivation(activated, rs[k].id);
    assert again[k] == activated[k].(isActivated := false, activationDate := None);
    forall j | 0 <= j < k ensures again[j].activationCode == rs[j].activationCode {
      assert again[j].activationCode == activated[j].activationCode;
    }
  }

  // Staff

  /** New staff: managers (admin, owner) get every permission, every other role none. */
  function DefaultPermissions(role: Role): (p: Permissions)
    ensures IsManagerRole(role) ==> p == AllPermissions
    ensures !IsManagerRole(role) ==> p == NoPermissions
  {
    if role == Admin || role == Owner then AllPermissions else NoPermissions
  }

  /** Adding a user appends it in the current tenant with the id supplied and the role's defaults. */
  function AddUser(users: seq<User>, username: string, password: Option<string>, role: Role, id: int, tenant: string)
    : (out: seq<User>)
    ensures |out| == |users| + 1 && out[..|users|] == users
    ensures out[|users|] == User(id, tenant, username, password, role, DefaultPermissions(role))
  {
    users + [User(id, tenant, username, password, role, DefaultPermissions(role))]
  }

  /** The bootstrap administrator: always the admin role with every permission. */
  function CreateAdminUser(users: seq<User>, username: string, password: string, id: int, tenant: string)
    : (out: seq<User>)
    ensures |out| == |users| + 1 && out[..|users|] == users
    ensures out[|users|].role == Admin && out[|users|].permissions == AllPermissions
    ensures out[|users|].restaurantId == tenant && out[|users|].username == username
    ensures out[|users|].password == Some(password) && out[|users|].id == id
  {
    users + [User(id, tenant, username, Some(password), Admin, AllPermissions)]
  }

  /** The bootstrap administrator is what adding an admin user would give. */
  lemma CreateAdminIsAddAdmin(users: seq<User>, username: string, password: string, id: int, tenant: string)
    ensures CreateAdminUser(users, username, password, id, tenant) == AddUser(users, username, Some(password), Admin, id, tenant)
  {
  }

  /** Every user with the id gets the new permissions; nothing else changes. */
  function UpdateUserPermissions(users: seq<User>, id: int, p: Permissions): (out: seq<User>)
    ensures |out| == |users|
    ensures forall i :: 0 <= i < |users| ==> out[i] == if users[i].id == id then users[i].(permissions := p) else users[i]
  {
    MapWhere(users, (u: User) => u.id == id, (u: User) => u.(permissions := p))
  }

  /** A new customer is appended in the current tenant and is also the result. */
  function AddCustomer(customers: seq<Customer>, name: string, phone: string, address: string, id: int, tenant: string)
    : (r: (seq<Customer>, Customer))
    ensures r.0 == customers + [r.1]
    ensures r.1 == Customer(id, tenant, name, phone, address)
  {
    var c := Customer(id, tenant, name, phone, address);
    (customers + [c], c)
  }

  // Signing in

  /** The current tenant's users. With no current tenant there are none. */
  function TenantUsers(users: seq<User>, current: Option<string>): (r: seq<User>)
    ensures forall u :: u in r <==> u in users && current == Some(u.restaurantId)
    ensures IsSubsequence(r, users)
    ensures forall u :: multiset(r)[u] == if current == Some(u.restaurantId) then multiset(users)[u] else 0
  {
    var keep := (u: User) => current == Some(u.restaurantId);
    FilterMultiset(users, keep);
    Filter(users, keep)
  }

  datatype LoginOutcome = OwnerConsole | SignedIn(user: User) | BadCredentials

  /**
   * The fixed `superadmin`/`superadmin` pair opens the owner console; otherwise the
   * first user of the current tenant with that name and password signs in.
   */
  function Login(users: seq<User>, current: Option<string>, username: string, password: string): (r: LoginOutcome)
    ensures username == "superadmin" && password == "superadmin" <==> r == OwnerConsole
    ensures r.SignedIn? ==>
      (r.user in users && current == Some(r.user.restaurantId) &&
       r.user.username == username && r.user.password == Some(password))
    ensures r.SignedIn? ==> var mine := TenantUsers(users, current);
      exists k :: 0 <= k < |mine| && mine[k] == r.user &&
        (forall j :: 0 <= j < k ==> !(mine[j].username == username && mine[j].password == Some(password)))
    ensures r == BadCredentials <==>
      (!(username == "superadmin" && password == "superadmin") &&
       forall u :: u in users && current == Some(u.restaurantId) ==> !(u.username == username && u.password == Some(password)))
  {
    if username == "superadmin" && password == "superadmin" then OwnerConsole
    else
      var mine := TenantUsers(users, current);
      match Find(mine, (u: User) => u.username == username && u.password == Some(password))
      case Some(u) => SignedIn(u)
      case None =>
        assert forall u :: u in mine ==> exists i :: 0 <= i < |mine| && mine[i] == u;
        BadCredentials
  }

  /** A user of another tenant cannot sign in here, whatever the password. */
  lemma OtherTenantsCannotSignIn(u: User, current: string, password: string)
    requires u.restaurantId != current && u.password == Some(password)
    requires !(u.username == "superadmin" && password == "superadmin")
    ensures Login([u], Some(current), u.username, password) == BadCredentials
  {
  }

  // The screen cascade

  /** What the main screen shows below the header. */
  datatype Panel = PosPanel | KdsPanel | AdminPanel | NoPanel

  datatype View = PosView | KdsView | AdminView

  datatype Screen =
    | OwnerScreen
    | CodeRedemption
    | RestaurantPicker(choices: seq<Restaurant>)
    | MissingTenant
    | AdminBootstrap(restaurantName: string)
    | SubscriptionExpired(restaurantName: string)
    | LoginScreen(restaurantName: string)
    | MainScreen(panel: Panel)

  /** The session fields the cascade reads. */
  datatype Session = Session(
    superAdminLogin: bool,
    currentRestaurantId: Option<string>,
    currentUser: Option<User>,
    currentView: View)

  /** `restaurants.find(r => r.id === currentRestaurantId)`. */
  function CurrentRestaurant(rs: seq<Restaurant>, current: Option<string>): (r: Option<Restaurant>)
    ensures r.Some? ==> r.value in rs && current == Some(r.value.id)
    ensures r.None? <==> forall i :: 0 <= i < |rs| ==> current != Some(rs[i].id)
    ensures r.Some? ==>
      exists k :: 0 <= k < |rs| && rs[k] == r.value && (forall j :: 0 <= j < k ==> current != Some(rs[j].id))
  {
    Find(rs, (r: Restaurant) => current == Some(r.id))
  }

  /** A stored end date lies in the past; a perpetual licence never expires. */
  predicate Expired(r: Restaurant, now: int)
  {
    r.subscriptionEndDate.Some? && r.subscriptionEndDate.value < now
  }

  predicate NoneActivated(rs: seq<Restaurant>)
  {
    forall i :: 0 <= i < |rs| ==> !rs[i].isActivated
  }

  function Activated(rs: seq<Restaurant>): (r: seq<Restaurant>)
    ensures forall x :: x in r <==> x in rs && x.isActivated
    ensures IsSubsequence(r, rs)
    ensures forall x :: multiset(r)[x] == if x.isActivated then multiset(rs)[x] else 0
  {
    var keep := (r: Restaurant) => r.isActivated;
    FilterMultiset(rs, keep);
    Filter(rs, keep)
  }

  /** Past code redemption and the picker: some restaurant is activated and a non-empty tenant id is set. */
  predicate TenantChosen(rs: seq<Restaurant>, s: Session)
  {
    !s.superAdminLogin && !NoneActivated(rs) && s.currentRestaurantId.Some? && s.currentRestaurantId != Some("")
  }

  /** The main screen's panel for the chosen view; the admin view is empty without the admin permission. */
  function PanelFor(v: View, u: User): (p: Panel)
    ensures p == AdminPanel <==> v == AdminView && u.permissions.canAccessAdmin
    ensures p == NoPanel <==> v == AdminView && !u.permissions.canAccessAdmin
    ensures v == PosView <==> p == PosPanel
    ensures v == KdsView <==> p == KdsPanel
  {
    match v
    case PosView => PosPanel
    case KdsView => KdsPanel
    case AdminView => if u.permissions.canAccessAdmin then AdminPanel else NoPanel
  }

  /**
   * The screen for a state, in the order the checks are made: the owner console;
   * code redemption while no restaurant is activated; the picker of activated
   * restaurants while no tenant is chosen (an empty id counts as none); an error for
   * a tenant that does not exist; the admin bootstrap for an unactivated tenant;
   * the expiry notice; the admin bootstrap for a tenant without users; the login;
   * the main screen, where the admin panel needs the admin permission.
   */
  function Route(rs: seq<Restaurant>, users: seq<User>, s: Session, now: int): (sc: Screen)
    ensures s.superAdminLogin <==> sc == OwnerScreen
    ensures !s.superAdminLogin ==> (sc == CodeRedemption <==> NoneActivated(rs))
    ensures sc.RestaurantPicker? <==>
      !s.superAdminLogin && !NoneActivated(rs) && (s.currentRestaurantId.None? || s.currentRestaurantId == Some(""))
    ensures sc.RestaurantPicker? ==> sc.choices == Activated(rs)
    ensures sc == MissingTenant ==> CurrentRestaurant(rs, s.currentRestaurantId).None?
    ensures sc.SubscriptionExpired? ==> CurrentRestaurant(rs, s.currentRestaurantId).Some? && Expired(CurrentRestaurant(rs, s.currentRestaurantId).value, now)
    ensures sc.LoginScreen? ==> s.currentUser.None? && TenantUsers(users, s.currentRestaurantId) != []
    ensures sc.MainScreen? ==>
      var r := CurrentRestaurant(rs, s.currentRestaurantId);
      r.Some? && r.value.isActivated && !Expired(r.value, now) &&
      TenantUsers(users, s.currentRestaurantId) != [] && s.currentUser.Some?
    ensures sc == MainScreen(AdminPanel) <==> sc.MainScreen? && s.currentView == AdminView && s.currentUser.value.permissions.canAccessAdmin
    // Below the picker, from each gate's condition to its screen, in the order the checks are made.
    ensures TenantChosen(rs, s) && CurrentRestaurant(rs, s.currentRestaurantId).None? ==> sc == MissingTenant
    ensures TenantChosen(rs, s) && CurrentRestaurant(rs, s.currentRestaurantId).Some? ==>
      var r := CurrentRestaurant(rs, s.currentRestaurantId).value;
      (!r.isActivated ==> sc == AdminBootstrap(r.name)) &&
      (r.isActivated && Expired(r, now) ==> sc == SubscriptionExpired(r.name)) &&
      (r.isActivated && !Expired(r, now) && TenantUsers(users, s.currentRestaurantId) == [] ==> sc == AdminBootstrap(r.name)) &&
      (r.isActivated && !Expired(r, now) && TenantUsers(users, s.currentRestaurantId) != [] && s.currentUser.None? ==>
         sc == LoginScreen(r.name)) &&
      (r.isActivated && !Expired(r, now) && TenantUsers(users, s.currentRestaurantId) != [] && s.currentUser.Some? ==>
         sc == MainScreen(PanelFor(s.currentView, s.currentUser.value)))
  {
    if s.superAdminLogin then OwnerScreen
    else if |rs| == 0 || NoneActivated(rs) then CodeRedemption
    else if s.currentRestaurantId.None? || s.currentRestaurantId == Some("") then RestaurantPicker(Activated(rs))
    else
      match CurrentRestaurant(rs, s.currentRestaurantId)
      case None => MissingTenant
      case Some(r) =>
        if !r.isActivated then AdminBootstrap(r.name)
        else if Expired(r, now) then SubscriptionExpired(r.name)
        else if |TenantUsers(users, s.currentRestaurantId)| == 0 then AdminBootstrap(r.name)
        else
          match s.currentUser
          case None => LoginScreen(r.name)
          case Some(u) => MainScreen(PanelFor(s.currentView, u))
  }

  /** A perpetual licence never shows the expiry notice. */
  lemma PerpetualNeverExpires(rs: seq<Restaurant>, users: seq<User>, s: Session, now: int)
    requires CurrentRestaurant(rs, s.currentRestaurantId).Some?
    requires CurrentRestaurant(rs, s.currentRestaurantId).value.subscriptionEndDate.None?
    ensures !Route(rs, users, s, now).SubscriptionExpired?
  {
  }

  /** The end date itself is still valid; the notice appears from the next instant on. */
  lemma ExpiryIsStrict(r: Restaurant, t: int)
    requires r.subscriptionEndDate == Some(t)
    ensures !Expired(r, t) && Expired(r, t + 1)
  {
  }

  /** Redeeming a code moves the application past code redemption and past the picker. */
  lemma RedemptionOpensTenant(rs: seq<Restaurant>, users: seq<User>, s: Session, code: string, now: int)
    requires !s.superAdminLogin
    requires InitialActivate(rs, code, now).1 == Success
    ensures var r := InitialActivate(rs, code, now);
      var sc := Route(r.0, users, s.(currentRestaurantId := r.2), now);
      sc != CodeRedemption && (r.2 != Some("") ==> !sc.RestaurantPicker?)
  {
    var r := InitialActivate(rs, code, now);
    var k := WithCode(rs, code).value;
    assert r.0[k].isActivated;
  }

  /** Signing out returns to the login screen of the same tenant, or further up the cascade. */
  lemma LogoutLeavesMain(rs: seq<Restaurant>, users: seq<User>, s: Session, now: int)
    ensures !Route(rs, users, s.(currentUser := None, superAdminLogin := false), now).MainScreen?
  {
  }
}
