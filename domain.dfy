/**
 * The records the point-of-sale keeps: menu, orders, staff, stock, suppliers,
 * purchases and the restaurants (tenants) themselves. Money is counted in an
 * integral smallest unit, times in milliseconds since the epoch, and a field that
 * may be absent, `null` or an empty number input is an `Option`.
 */
module Domain {
  import opened Wrappers

  /** The five stages an order passes through. */
  datatype OrderStatus = Pending | Preparing | Ready | OutForDelivery | Served

  datatype OrderType = DineIn | Delivery

  /**
   * The roles a user may carry. Records restored from a file may hold any string,
   * so an unknown role keeps its raw text; a role read from text is canonical
   * (`OtherRole` never holds one of the five known names).
   */
  datatype Role = Admin | Cashier | Driver | SuperAdmin | Owner | OtherRole(raw: string)

  predicate CanonicalRole(r: Role)
  {
    r.OtherRole? ==> r.raw != "admin" && r.raw != "cashier" && r.raw != "driver" && r.raw != "superadmin" && r.raw != "owner"
  }

  /** The role as stored (`user.role`). */
  function RoleText(r: Role): string
  {
    match r
    case Admin => "admin"
    case Cashier => "cashier"
    case Driver => "driver"
    case SuperAdmin => "superadmin"
    case Owner => "owner"
    case OtherRole(raw) => raw
  }

  /** The two roles whose permissions are always all granted and cannot be edited. */
  predicate IsManagerRole(r: Role)
  {
    r == Admin || r == Owner
  }

  datatype Permissions = Permissions(
    canAccessAdmin: bool,
    canManageMenu: bool,
    canManageInventory: bool,
    canManageUsers: bool,
    canViewReports: bool,
    canEditPrices: bool)

  /** The six permission keys, in the order the permissions table shows its columns. */
  datatype PermissionKey =
    AccessAdmin | ManageMenu | ManageInventory | ManageUsers | ViewReports | EditPrices

  const PermissionKeys: seq<PermissionKey> :=
    [AccessAdmin, ManageMenu, ManageInventory, ManageUsers, ViewReports, EditPrices]

  function Get(p: Permissions, k: PermissionKey): bool
  {
    match k
    case AccessAdmin => p.canAccessAdmin
    case ManageMenu => p.canManageMenu
    case ManageInventory => p.canManageInventory
    case ManageUsers => p.canManageUsers
    case ViewReports => p.canViewReports
    case EditPrices => p.canEditPrices
  }

  /** `{...p, [k]: v}`: the one key set, the other five as they were. */
  function Set(p: Permissions, k: PermissionKey, v: bool): (q: Permissions)
    ensures Get(q, k) == v
    ensures forall k' :: k' != k ==> Get(q, k') == Get(p, k')
  {
    match k
    case AccessAdmin => p.(canAccessAdmin := v)
    case ManageMenu => p.(canManageMenu := v)
    case ManageInventory => p.(canManageInventory := v)
    case ManageUsers => p.(canManageUsers := v)
    case ViewReports => p.(canViewReports := v)
    case EditPrices => p.(canEditPrices := v)
  }

  /** Every permission granted, as managers get them. */
  const AllPermissions := Permissions(true, true, true, true, true, true)

  /** No permission granted: the defaults for every other role. */
  const NoPermissions := Permissions(false, false, false, false, false, false)

  datatype MenuItem = MenuItem(
    id: int,
    restaurantId: string,
    name: string,
    price: int,
    cost: int,
    category: string,
    iconName: string,
    imageUrl: Option<string>,
    description: Option<string>)

  /** A line of an order: the menu item as it was when added, and how many. */
  datatype OrderLine = OrderLine(item: MenuItem, quantity: int)

  datatype Order = Order(
    id: int,
    restaurantId: string,
    items: seq<OrderLine>,
    status: OrderStatus,
    timestamp: int,
    orderType: OrderType,
    tableNumber: Option<int>,
    customerId: Option<int>,
    driverId: Option<int>,
    salespersonId: Option<int>,
    discount: int,
    totalAmount: int)

  /** A user record together with its password, as the staff list stores it. */
  datatype User = User(
    id: int,
    restaurantId: string,
    username: string,
    password: Option<string>,
    role: Role,
    permissions: Permissions)

  datatype InventoryItem = InventoryItem(
    id: int,
    restaurantId: string,
    name: string,
    unit: string,
    stock: int,
    costPerUnit: int)

  datatype Customer = Customer(
    id: int,
    restaurantId: string,
    name: string,
    phone: string,
    address: string)

  datatype Supplier = Supplier(
    id: int,
    restaurantId: string,
    name: string,
    contactPerson: Option<string>,
    phone: Option<string>)

  /** One invoice line; `cost` is the cost of the whole line, not a unit price. */
  datatype PurchaseItem = PurchaseItem(inventoryItemId: int, quantity: int, cost: int)

  datatype Purchase = Purchase(
    id: int,
    restaurantId: string,
    supplierId: int,
    date: int,
    items: seq<PurchaseItem>,
    totalCost: int)

  /**
   * A tenant. A `None` subscription end date is a perpetual licence; the dates are
   * the instants the stored date strings denote.
   */
  datatype Restaurant = Restaurant(
    id: string,
    name: string,
    subscriptionEndDate: Option<int>,
    activationCode: Option<string>,
    isActivated: bool,
    activationDate: Option<int>)

  datatype ReceiptTemplate = Standard | Compact

  datatype SystemSettings = SystemSettings(
    appName: string,
    appSubtitle: string,
    receiptTemplate: ReceiptTemplate,
    autoPrintReceipt: bool)

  const DefaultSettings := SystemSettings("FoodCore", "RMS", Compact, false)

  /**
   * A snapshot of the nine persistent collections. A key missing from an imported
   * file is `None`; an empty list is `Some([])`, which is present.
   */
  datatype BackupData = BackupData(
    restaurants: Option<seq<Restaurant>>,
    users: Option<seq<User>>,
    menuItems: Option<seq<MenuItem>>,
    orders: Option<seq<Order>>,
    customers: Option<seq<Customer>>,
    inventoryItems: Option<seq<InventoryItem>>,
    suppliers: Option<seq<Supplier>>,
    purchases: Option<seq<Purchase>>,
    systemSettings: Option<SystemSettings>)

  /** A backup as the browser store keeps it, keyed by the instant it was taken. */
  datatype StoredBackup = StoredBackup(id: int, data: BackupData)
}
