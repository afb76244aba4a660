/**
 * The application shell: the persistent collections, the session, and the
 * handlers that rewrite them. Every collection holds the records of all tenants;
 * the current tenant's share is picked out when it is shown, while updates and
 * deletions go by id over the whole collection. Clock readings and random text
 * are parameters.
 */
module Application {
  import opened Wrappers
  import opened Domain
  import opened Seqs
  import Orders
  import Inventory
  import Purchasing
  import Backups
  import Tenancy
  import Staff

  /** Every record with the id is replaced by the updated one; nothing else changes. */
  function ReplaceById<T>(s: seq<T>, idOf: T -> int, updated: T): (out: seq<T>)
    ensures |out| == |s|
    ensures forall i :: 0 <= i < |s| ==> out[i] == if idOf(s[i]) == idOf(updated) then updated else s[i]
  {
    MapWhere(s, (x: T) => idOf(x) == idOf(updated), (x: T) => updated)
  }

  /** Every record with the id is dropped, in every tenant; the rest keep their order. */
  function DeleteById<T(!new)>(s: seq<T>, idOf: T -> int, id: int): (out: seq<T>)
    ensures forall x :: x in out <==> x in s && idOf(x) != id
    ensures IsSubsequence(out, s)
    ensures forall x :: multiset(out)[x] == if idOf(x) != id then multiset(s)[x] else 0
  {
    var keep := (x: T) => idOf(x) != id;
    FilterMultiset(s, keep);
    Filter(s, keep)
  }

  /** The current tenant's share of a collection; with no current tenant it is empty. */
  function OfTenant<T(!new)>(s: seq<T>, tenantOf: T -> string, current: Option<string>): (out: seq<T>)
    ensures forall x :: x in out <==> x in s && current == Some(tenantOf(x))
    ensures IsSubsequence(out, s)
    ensures forall x :: multiset(out)[x] == if current == Some(tenantOf(x)) then multiset(s)[x] else 0
    ensures current.None? ==> out == []
  {
    var keep := (x: T) => current == Some(tenantOf(x));
    FilterMultiset(s, keep);
    var out := Filter(s, keep);
    out
  }

  /** A deletion is not confined to the current tenant: another tenant's record with the same id goes too. */
  lemma DeleteIgnoresTenant(mine: Customer, theirs: Customer)
    requires mine.id == theirs.id && mine.restaurantId != theirs.restaurantId
    ensures theirs !in DeleteById([mine, theirs], (c: Customer) => c.id, mine.id)
  {
  }

  /** Without a tenant, and outside the owner console, the screen is code redemption or the picker. */
  lemma TenantForgotten(rs: seq<Restaurant>, users: seq<User>, s: Tenancy.Session)
    requires !s.superAdminLogin && s.currentRestaurantId.None?
    ensures Tenancy.Route(rs, users, s, 0).CodeRedemption? || Tenancy.Route(rs, users, s, 0).RestaurantPicker?
  {
  }

  function MenuId(m: MenuItem): int { m.id }
  function CustomerId(c: Customer): int { c.id }
  function StockId(i: InventoryItem): int { i.id }
  function SupplierId(s: Supplier): int { s.id }

  /** Everything the shell keeps, taken together. */
  datatype AppState = AppState(
    data: Backups.Collections,
    session: Tenancy.Session,
    loginError: bool,
    lastManualBackup: Option<int>)

  class App {
    var restaurants: seq<Restaurant>
    var systemSettings: SystemSettings
    var currentRestaurantId: Option<string>
    var users: seq<User>
    var menuItems: seq<MenuItem>
    var orders: seq<Order>
    var customers: seq<Customer>
    var inventoryItems: seq<InventoryItem>
    var suppliers: seq<Supplier>
    var purchases: seq<Purchase>
    var currentUser: Option<User>
    var loginError: bool
    var currentView: Tenancy.View
    var superAdminLogin: bool
    var lastManualBackupTimestamp: Option<int>

    function Data(): Backups.Collections
      reads this
    {
      Backups.Collections(restaurants, users, menuItems, orders, customers, inventoryItems,
                          suppliers, purchases, systemSettings)
    }

    function Session(): Tenancy.Session
      reads this
    {
      Tenancy.Session(superAdminLogin, currentRestaurantId, currentUser, currentView)
    }

    function State(): AppState
      reads this
    {
      AppState(Data(), Session(), loginError, lastManualBackupTimestamp)
    }

    /** The tenant new records are stamped with; a missing tenant is written as the empty id. */
    function Tenant(): string
      reads this
    {
      currentRestaurantId.GetOr("")
    }

    /** The screen the state shows. */
    function Screen(now: int): Tenancy.Screen
      reads this
    {
      Tenancy.Route(restaurants, users, Session(), now)
    }

    /** Empty collections, the default settings, nobody signed in, the till view. */
    constructor()
      ensures Data() == Backups.Collections([], [], [], [], [], [], [], [], DefaultSettings)
      ensures Session() == Tenancy.Session(false, None, None, Tenancy.PosView)
      ensures !loginError && lastManualBackupTimestamp.None?
      ensures Screen(0) == Tenancy.CodeRedemption
    {
      restaurants, systemSettings, currentRestaurantId := [], DefaultSettings, None;
      users, menuItems, orders, customers := [], [], [], [];
      inventoryItems, suppliers, purchases := [], [], [];
      currentUser, loginError, currentView := None, false, Tenancy.PosView;
      superAdminLogin, lastManualBackupTimestamp := false, None;
    }

    // Session

    /**
     * The owner pair opens the owner console; a user of the current tenant signs in
     * on the till view and clears the error; anything else raises the error.
     */
    method Login(username: string, password: string)
      modifies this
      ensures var outcome := Tenancy.Login(old(users), old(currentRestaurantId), username, password);
        match outcome
        case OwnerConsole => State() == old(State()).(session := old(Session()).(superAdminLogin := true))
        case SignedIn(u) =>
          State() == old(State()).(session := old(Session()).(currentUser := Some(u), currentView := Tenancy.PosView),
                                   loginError := false)
        case BadCredentials => State() == old(State()).(loginError := true)
    {
      var outcome := Tenancy.Login(users, currentRestaurantId, username, password);
      match outcome
      case OwnerConsole => OpenOwnerConsole();
      case SignedIn(u) => SignIn(u);
      case BadCredentials => RaiseLoginError();
    }

    method OpenOwnerConsole()
      modifies this
      ensures State() == old(State()).(session := old(Session()).(superAdminLogin := true))
    {
      superAdminLogin := true;
    }

    method SignIn(u: Domain.User)
      modifies this
      ensures State() == old(State()).(session := old(Session()).(currentUser := Some(u), currentView := Tenancy.PosView),
                                       loginError := false)
    {
      currentUser := Some(u);
      loginError := false;
      currentView := Tenancy.PosView;
    }

    method RaiseLoginError()
      modifies this
      ensures State() == old(State()).(loginError := true)
    {
      loginError := true;
    }

    /** Signs the user out and leaves the owner console. */
    method Logout()
      modifies this
      ensures State() == old(State()).(session := old(Session()).(currentUser := None, superAdminLogin := false))
    {
      currentUser := None;
      superAdminLogin := false;
    }

    /** Signs the user out and forgets the tenant, back to the restaurant picker. */
    method SwitchRestaurant()
      modifies this
      ensures State() == old(State()).(session := old(Session()).(currentUser := None, currentRestaurantId := None))
      ensures !superAdminLogin && !Tenancy.NoneActivated(restaurants) ==> Screen(0).RestaurantPicker?
    {
      currentUser := None;
      currentRestaurantId := None;
    }

    /** A button of the restaurant picker. */
    method PickRestaurant(id: string)
      modifies this
      ensures State() == old(State()).(session := old(Session()).(currentRestaurantId := Some(id)))
    {
      currentRestaurantId := Some(id);
    }

    /** A navigation button of the header. */
    method SetView(v: Tenancy.View)
      modifies this
      ensures State() == old(State()).(session := old(Session()).(currentView := v))
    {
      currentView := v;
    }

    // Orders and the menu

    /** Appends the new pending order in the current tenant and returns it. */
    method PlaceOrder(d: Orders.OrderDraft, now: int) returns (o: Order)
      modifies this
      ensures var r := Orders.PlaceOrder(old(orders), d, now, now, old(Tenant()));
        o == r.1 && State() == old(State()).(data := old(Data()).(orders := r.0))
    {
      var r := Orders.PlaceOrder(orders, d, now, now, Tenant());
      orders := r.0;
      o := r.1;
    }

    method UpdateOrderStatus(id: int, s: OrderStatus)
      modifies this
      ensures State() == old(State()).(data := old(Data()).(orders := Orders.WithStatus(old(orders), id, s)))
    {
      orders := Orders.WithStatus(orders, id, s);
    }

    method AssignDriver(id: int, driver: int)
      modifies this
      ensures State() == old(State()).(data := old(Data()).(orders := Orders.WithDriver(old(orders), id, driver)))
    {
      orders := Orders.WithDriver(orders, id, driver);
    }

    /** The item is appended with the id supplied and the current tenant, whatever it carried. */
    method AddItem(item: MenuItem, newId: int)
      modifies this
      ensures State() == old(State()).(data := old(Data()).(menuItems := old(menuItems) + [item.(id := newId, restaurantId := old(Tenant()))]))
    {
      menuItems := menuItems + [item.(id := newId, restaurantId := Tenant())];
    }

    method UpdateItem(item: MenuItem)
      modifies this
      ensures State() == old(State()).(data := old(Data()).(menuItems := ReplaceById(old(menuItems), MenuId, item)))
    {
      menuItems := ReplaceById(menuItems, MenuId, item);
    }

    method DeleteItem(id: int)
      modifies this
      ensures State() == old(State()).(data := old(Data()).(menuItems := DeleteById(old(menuItems), MenuId, id)))
    {
      menuItems := DeleteById(menuItems, MenuId, id);
    }

    method EditPrice(id: int, price: int)
      modifies this
      ensures State() == old(State()).(data := old(Data()).(menuItems := Orders.WithPrice(old(menuItems), id, price)))
    {
      menuItems := Orders.WithPrice(menuItems, id, price);
    }

    // Staff

    method AddUser(username: string, password: Option<string>, role: Role, newId: int)
      modifies this
      ensures State() == old(State()).(data := old(Data()).(users := Tenancy.AddUser(old(users), username, password, role, newId, old(Tenant()))))
    {
      users := Tenancy.AddUser(users, username, password, role, newId, Tenant());
    }

    method UpdateUser(u: User)
      modifies this
      ensures State() == old(State()).(data := old(Data()).(users := Staff.ReplaceUser(old(users), u)))
    {
      users := Staff.ReplaceUser(users, u);
    }

    method DeleteUser(id: int)
      modifies this
      ensures State() == old(State()).(data := old(Data()).(users := Staff.DeleteUser(old(users), id)))
    {
      users := Staff.DeleteUser(users, id);
    }

    method UpdateUserPermissions(id: int, p: Permissions)
      modifies this
      ensures State() == old(State()).(data := old(Data()).(users := Tenancy.UpdateUserPermissions(old(users), id, p)))
    {
      users := Tenancy.UpdateUserPermissions(users, id, p);
    }

    /** The activation screen's administrator, in the current tenant. */
    method CreateAdminUser(username: string, password: string, newId: int)
      modifies this
      ensures State() == old(State()).(data := old(Data()).(users := Tenancy.CreateAdminUser(old(users), username, password, newId, old(Tenant()))))
    {
      users := Tenancy.CreateAdminUser(users, username, password, newId, Tenant());
    }

    // Customers, stock and suppliers

    /** Appends the customer in the current tenant and returns it. */
    method AddCustomer(name: string, phone: string, address: string, newId: int) returns (c: Customer)
      modifies this
      ensures var r := Tenancy.AddCustomer(old(customers), name, phone, address, newId, old(Tenant()));
        c == r.1 && State() == old(State()).(data := old(Data()).(customers := r.0))
    {
      var r := Tenancy.AddCustomer(customers, name, phone, address, newId, Tenant());
      customers := r.0;
      c := r.1;
    }

    method UpdateCustomer(c: Customer)
      modifies this
      ensures State() == old(State()).(data := old(Data()).(customers := ReplaceById(old(customers), CustomerId, c)))
    {
      customers := ReplaceById(customers, CustomerId, c);
    }

    method DeleteCustomer(id: int)
      modifies this
      ensures State() == old(State()).(data := old(Data()).(customers := DeleteById(old(customers), CustomerId, id)))
    {
      customers := DeleteById(customers, CustomerId, id);
    }

    method AddInventoryItem(item: InventoryItem, newId: int)
      modifies this
      ensures State() == old(State()).(data := old(Data()).(inventoryItems := old(inventoryItems) + [item.(id := newId, restaurantId := old(Tenant()))]))
    {
      inventoryItems := inventoryItems + [item.(id := newId, restaurantId := Tenant())];
    }

    method UpdateInventoryItem(item: InventoryItem)
      modifies this
      ensures State() == old(State()).(data := old(Data()).(inventoryItems := ReplaceById(old(inventoryItems), StockId, item)))
    {
      inventoryItems := ReplaceById(inventoryItems, StockId, item);
    }

    method DeleteInventoryItem(id: int)
      modifies this
      ensures State() == old(State()).(data := old(Data()).(inventoryItems := DeleteById(old(inventoryItems), StockId, id)))
    {
      inventoryItems := DeleteById(inventoryItems, StockId, id);
    }

    method AddSupplier(s: Supplier, newId: int)
      modifies this
      ensures State() == old(State()).(data := old(Data()).(suppliers := old(suppliers) + [s.(id := newId, restaurantId := old(Tenant()))]))
    {
      suppliers := suppliers + [s.(id := newId, restaurantId := Tenant())];
    }

    method UpdateSupplier(s: Supplier)
      modifies this
      ensures State() == old(State()).(data := old(Data()).(suppliers := ReplaceById(old(suppliers), SupplierId, s)))
    {
      suppliers := ReplaceById(suppliers, SupplierId, s);
    }

    method DeleteSupplier(id: int)
      modifies this
      ensures State() == old(State()).(data := old(Data()).(suppliers := DeleteById(old(suppliers), SupplierId, id)))
    {
      suppliers := DeleteById(suppliers, SupplierId, id);
    }

    /**
     * Records the purchase in the current tenant and adds each line's quantity to
     * the first stock item with its id, looked up over every tenant's stock.
     */
    method AddPurchase(d: Purchasing.PurchaseDraft, newId: int)
      modifies this
      ensures State() == old(State()).(data := old(Data()).(
        purchases := old(purchases) + [Purchase(newId, old(Tenant()), d.supplierId, d.date, d.items, d.totalCost)],
        inventoryItems := Inventory.ApplyLines(old(inventoryItems), d.items)))
    {
      purchases := purchases + [Purchase(newId, Tenant(), d.supplierId, d.date, d.items, d.totalCost)];
      var restocked := Inventory.RestockAll(inventoryItems, d.items);
      inventoryItems := restocked;
    }

    method UpdateSettings(s: SystemSettings)
      modifies this
      ensures State() == old(State()).(data := old(Data()).(systemSettings := s))
    {
      systemSettings := s;
    }

    // Backups

    /** The downloaded snapshot holds all nine collections; the reminder's clock is stamped. */
    method ManualBackup(now: int) returns (d: BackupData)
      modifies this
      ensures d == Backups.Snapshot(old(Data()))
      ensures State() == old(State()).(lastManualBackup := Some(now))
      ensures now != 0 ==> !Backups.ShowBackupReminder(lastManualBackupTimestamp, now)
    {
      d := Backups.Snapshot(Data());
      lastManualBackupTimestamp := Some(now);
    }

    /** The two-hourly snapshot into the backup store, keyed by the time. */
    method AutoBackup(db: Backups.BackupDb, now: int)
      modifies db
      ensures db.entries == Backups.Put(old(db.entries), now, Backups.Snapshot(Data()))
    {
      db.AddBackup(Backups.Snapshot(Data()), now);
    }

    /**
     * Replaces each collection the data holds and forgets the tenant and the user,
     * so the next screen is code redemption or the restaurant picker.
     */
    method RestoreData(d: BackupData)
      modifies this
      ensures Data() == Backups.Restored(old(Data()), d)
      ensures Session() == old(Session()).(currentRestaurantId := None, currentUser := None)
      ensures loginError == old(loginError) && lastManualBackupTimestamp == old(lastManualBackupTimestamp)
      ensures !superAdminLogin ==> Screen(0).CodeRedemption? || Screen(0).RestaurantPicker?
    {
      RestoreCollections(d);
      currentRestaurantId := None;
      currentUser := None;
      if !superAdminLogin {
        TenantForgotten(restaurants, users, Session());
      }
    }

    /** The collections part of a restore: each one the data holds is replaced. */
    method RestoreCollections(d: BackupData)
      modifies this
      ensures Data() == Backups.Restored(old(Data()), d)
      ensures Session() == old(Session())
      ensures loginError == old(loginError) && lastManualBackupTimestamp == old(lastManualBackupTimestamp)
    {
      var c := Backups.Restored(Data(), d);
      SetData(c);
    }

    /** Replaces the nine collections at once. */
    method SetData(c: Backups.Collections)
      modifies this
      ensures Data() == c
      ensures Session() == old(Session())
      ensures loginError == old(loginError) && lastManualBackupTimestamp == old(lastManualBackupTimestamp)
    {
      SetTenants(c);
      SetCatalogue(c);
      SetBooks(c);
    }

    method SetTenants(c: Backups.Collections)
      modifies this
      ensures State() == old(State()).(data := old(Data()).(restaurants := c.restaurants, users := c.users,
                                                             systemSettings := c.systemSettings))
    {
      restaurants, users, systemSettings := c.restaurants, c.users, c.systemSettings;
    }

    method SetCatalogue(c: Backups.Collections)
      modifies this
      ensures State() == old(State()).(data := old(Data()).(menuItems := c.menuItems, orders := c.orders,
                                                             customers := c.customers))
    {
      menuItems, orders, customers := c.menuItems, c.orders, c.customers;
    }

    method SetBooks(c: Backups.Collections)
      modifies this
      ensures State() == old(State()).(data := old(Data()).(inventoryItems := c.inventoryItems, suppliers := c.suppliers,
                                                             purchases := c.purchases))
    {
      inventoryItems, suppliers, purchases := c.inventoryItems, c.suppliers, c.purchases;
    }

    // The owner console and activation

    method AddRestaurant(r: Restaurant)
      modifies this
      ensures State() == old(State()).(data := old(Data()).(restaurants := Tenancy.AddRestaurant(old(restaurants), r)))
    {
      restaurants := Tenancy.AddRestaurant(restaurants, r);
    }

    method UpdateSubscription(id: string, end: Option<int>)
      modifies this
      ensures State() == old(State()).(data := old(Data()).(restaurants := Tenancy.UpdateSubscription(old(restaurants), id, end)))
    {
      restaurants := Tenancy.UpdateSubscription(restaurants, id, end);
    }

    /** `random` is the text of a random number in base 36, as `Math.random().toString(36)` gives it. */
    method GenerateCode(id: string, random: string)
      modifies this
      ensures State() == old(State()).(data := old(Data()).(restaurants := Tenancy.GenerateCode(old(restaurants), id, random)))
    {
      restaurants := Tenancy.GenerateCode(restaurants, id, random);
    }

    method ResetActivation(id: string)
      modifies this
      ensures State() == old(State()).(data := old(Data()).(restaurants := Tenancy.ResetActivation(old(restaurants), id)))
    {
      restaurants := Tenancy.ResetActivation(restaurants, id);
    }

    /** Redeems a code; on success the redeemed restaurant becomes the current tenant. */
    method InitialActivate(code: string, now: int) returns (result: Tenancy.ActivationResult)
      modifies this
      ensures var r := Tenancy.InitialActivate(old(restaurants), code, now);
        result == r.1 &&
        State() == old(State()).(data := old(Data()).(restaurants := r.0),
                                 session := if r.2.Some? then old(Session()).(currentRestaurantId := r.2) else old(Session()))
    {
      var r := Tenancy.InitialActivate(restaurants, code, now);
      restaurants := r.0;
      if r.2.Some? {
        currentRestaurantId := r.2;
      }
      result := r.1;
    }
  }
}
