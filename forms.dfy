/**
 * The editing forms of the admin panel and the till: the menu-item form with its
 * save and delete flow, the panel's tabs, the stock-item, customer and supplier
 * forms, the price editor, and the customer picker with its search and quick add.
 * A number field holds `None` when its text does not read as a number.
 */
module Forms {
  import opened Wrappers
  import opened Domain
  import opened Seqs
  import opened Text
  import Tenancy
  import Staff

  /** What a form hands on: a new record's fields, or the edited record. */
  datatype Saved<D, T> = Created(draft: D) | Edited(record: T)

  // The menu-item form

  datatype MenuFields = MenuFields(
    name: string,
    price: Option<int>,
    cost: Option<int>,
    category: string,
    iconName: string,
    imageUrl: Option<string>,
    description: Option<string>)

  datatype MenuForm = MenuForm(editing: Option<MenuItem>, fields: MenuFields)

  function FieldsOf(m: MenuItem): MenuFields
  {
    MenuFields(m.name, Some(m.price), Some(m.cost), m.category, m.iconName, m.imageUrl, m.description)
  }

  /** The form starts from the edited item, or from empty text, zero prices and the first icon. */
  function InitialMenuForm(item: Option<MenuItem>, firstIcon: string): (f: MenuForm)
    ensures f.editing == item
    ensures item.Some? ==> f.fields == FieldsOf(item.value)
    ensures item.None? ==> f.fields == MenuFields("", Some(0), Some(0), "", firstIcon, Some(""), Some(""))
  {
    match item
    case Some(m) => MenuForm(item, FieldsOf(m))
    case None => MenuForm(None, MenuFields("", Some(0), Some(0), "", firstIcon, Some(""), Some("")))
  }

  datatype MenuField = NameField | PriceField | CostField | CategoryField | IconField | DescriptionField

  /** A change sets the named field only; price and cost are read as numbers, the rest stored as typed. */
  function ChangeMenu(f: MenuForm, field: MenuField, value: string): (r: MenuForm)
    ensures r.editing == f.editing
    ensures field == PriceField ==> r.fields == f.fields.(price := ParseInt10(value))
    ensures field == CostField ==> r.fields == f.fields.(cost := ParseInt10(value))
    ensures field == NameField ==> r.fields == f.fields.(name := value)
    ensures field == CategoryField ==> r.fields == f.fields.(category := value)
    ensures field == IconField ==> r.fields == f.fields.(iconName := value)
    ensures field == DescriptionField ==> r.fields == f.fields.(description := Some(value))
  {
    var fs := f.fields;
    var changed := match field
      case NameField => fs.(name := value)
      case PriceField => fs.(price := ParseInt10(value))
      case CostField => fs.(cost := ParseInt10(value))
      case CategoryField => fs.(category := value)
      case IconField => fs.(iconName := value)
      case DescriptionField => fs.(description := Some(value));
    f.(fields := changed)
  }

  /** A menu item may be saved with a name, a price above 0, a category and a cost of at least 0. */
  predicate MenuValid(fs: MenuFields)
  {
    fs.name != "" && fs.price.Some? && fs.price.value > 0 && fs.category != "" &&
    fs.cost.Some? && fs.cost.value >= 0
  }

  function WithFields(m: MenuItem, fs: MenuFields): MenuItem
    requires fs.price.Some? && fs.cost.Some?
  {
    m.(name := fs.name, price := fs.price.value, cost := fs.cost.value, category := fs.category,
       iconName := fs.iconName, imageUrl := fs.imageUrl, description := fs.description)
  }

  /** Submitting hands on the fields, with the edited item's id and tenant when editing. */
  function SubmitMenu(f: MenuForm): (r: Option<Saved<MenuFields, MenuItem>>)
    ensures r.Some? <==> MenuValid(f.fields)
    ensures r.Some? && f.editing.None? ==> r.value == Created(f.fields)
    ensures r.Some? && f.editing.Some? ==>
      (r.value.Edited? && r.value.record.id == f.editing.value.id &&
       r.value.record.restaurantId == f.editing.value.restaurantId &&
       FieldsOf(r.value.record) == f.fields)
  {
    if !MenuValid(f.fields) then None
    else
      match f.editing
      case None => Some(Created(f.fields))
      case Some(m) => Some(Edited(WithFields(m, f.fields)))
  }

  /** A free item cannot be put on the menu. */
  lemma MenuRefusesFreeItems(f: MenuForm)
    requires f.fields.price == Some(0)
    ensures SubmitMenu(f).None?
  {
  }

  /** Opening an item and saving it unchanged hands the same item back. */
  lemma UnchangedEditIsIdentity(m: MenuItem, firstIcon: string)
    requires MenuValid(FieldsOf(m))
    ensures SubmitMenu(InitialMenuForm(Some(m), firstIcon)) == Some(Edited(m))
  {
  }

  datatype MenuCommand = NoMenuChange | AddMenuItem(fields: MenuFields) | UpdateMenuItem(item: MenuItem) | DeleteMenuItem(id: int)

  datatype MenuScreen = MenuScreen(modalOpen: bool, editing: Option<MenuItem>, deletion: Staff.Deletion)

  /** Saving dispatches an update for an edited item and an add otherwise, then closes the form. */
  function SaveMenu(s: MenuScreen, saved: Saved<MenuFields, MenuItem>): (r: (MenuScreen, MenuCommand))
    ensures r.0 == s.(modalOpen := false, editing := None)
    ensures saved.Edited? ==> r.1 == UpdateMenuItem(saved.record)
    ensures saved.Created? ==> r.1 == AddMenuItem(saved.draft)
  {
    var cmd := match saved
      case Created(d) => AddMenuItem(d)
      case Edited(m) => UpdateMenuItem(m);
    (s.(modalOpen := false, editing := None), cmd)
  }

  /** Confirming a deletion forwards the pending id, if any, and clears it. */
  function ConfirmMenuDelete(s: MenuScreen): (r: (MenuScreen, MenuCommand))
    ensures r.0 == s.(deletion := Staff.NoPending)
    ensures s.deletion.target.Some? ==> r.1 == DeleteMenuItem(s.deletion.target.value)
    ensures s.deletion.target.None? ==> r.1 == NoMenuChange
  {
    var (d, target) := Staff.ConfirmDelete(s.deletion);
    (s.(deletion := d), match target case Some(id) => DeleteMenuItem(id) case None => NoMenuChange)
  }

  /** Cancelling the menu's delete dialog closes it and forgets the pending id. */
  function CancelMenuDelete(s: MenuScreen): (r: MenuScreen)
    ensures r == s.(deletion := Staff.NoPending)
    ensures !r.deletion.open && r.deletion.target.None?
  {
    s.(deletion := Staff.NoPending)
  }

  // The admin panel's tabs

  datatype AdminTab = Reports | Menu | InventoryTab | Purchases | Employees | PermissionsTab
                    | DriversTab | Customers | Suppliers | Backup | Settings

  /** The tabs in the order the side bar lists them. */
  const AllTabs: seq<AdminTab> :=
    [Reports, Menu, InventoryTab, Purchases, Employees, PermissionsTab, DriversTab, Customers, Suppliers, Backup, Settings]

  /** The permission a tab needs, if any. */
  function TabPermission(t: AdminTab): (k: Option<PermissionKey>)
    ensures k.None? <==> t in {Customers, Backup, Settings}
  {
    match t
    case Reports => Some(ViewReports)
    case Menu => Some(ManageMenu)
    case InventoryTab => Some(ManageInventory)
    case Purchases => Some(ManageInventory)
    case Suppliers => Some(ManageInventory)
    case Employees => Some(ManageUsers)
    case PermissionsTab => Some(ManageUsers)
    case DriversTab => Some(ManageUsers)
    case Customers => None
    case Backup => None
    case Settings => None
  }

  predicate TabAllowed(p: Permissions, t: AdminTab)
  {
    TabPermission(t).None? || Get(p, TabPermission(t).value)
  }

  /** The side bar: the tabs the user's permissions allow, in their fixed order. */
  function VisibleTabs(p: Permissions): (r: seq<AdminTab>)
    ensures forall t :: t in r <==> TabAllowed(p, t)
    ensures IsSubsequence(r, AllTabs)
  {
    EveryTabListed();
    Filter(AllTabs, (t: AdminTab) => TabAllowed(p, t))
  }

  lemma EveryTabListed()
    ensures forall t: AdminTab :: t in AllTabs
  {
    forall t: AdminTab ensures t in AllTabs {
      match t
      case Reports => assert AllTabs[0] == t;
      case Menu => assert AllTabs[1] == t;
      case InventoryTab => assert AllTabs[2] == t;
      case Purchases => assert AllTabs[3] == t;
      case Employees => assert AllTabs[4] == t;
      case PermissionsTab => assert AllTabs[5] == t;
      case DriversTab => assert AllTabs[6] == t;
      case Customers => assert AllTabs[7] == t;
      case Suppliers => assert AllTabs[8] == t;
      case Backup => assert AllTabs[9] == t;
      case Settings => assert AllTabs[10] == t;
    }
  }

  /** Customers, backup and settings are always listed; without permissions they are all that is. */
  lemma TabsWithoutPermissions(p: Permissions)
    ensures Customers in VisibleTabs(p) && Backup in VisibleTabs(p) && Settings in VisibleTabs(p)
    ensures forall t :: t in VisibleTabs(NoPermissions) <==> t in {Customers, Backup, Settings}
  {
  }

  /** With every permission every tab is listed. */
  lemma AllTabsForManagers()
    ensures forall t :: t in VisibleTabs(AllPermissions)
  {
  }

  /** The panel opens on the reports tab, which a user without the reports permission cannot see listed. */
  lemma OpeningTabMayBeHidden(p: Permissions)
    requires !p.canViewReports
    ensures Reports !in VisibleTabs(p)
  {
  }

  // The stock-item form

  datatype StockFields = StockFields(name: string, unit: string, stock: Option<int>, costPerUnit: Option<int>)

  datatype StockForm = StockForm(editing: Option<InventoryItem>, fields: StockFields)

  /** The form starts from the edited item, or from empty text with stock and cost at 0. */
  function InitialStockForm(item: Option<InventoryItem>): (f: StockForm)
    ensures f.editing == item
    ensures item.None? ==> f.fields == StockFields("", "", Some(0), Some(0))
    ensures item.Some? ==> f.fields == StockFields(item.value.name, item.value.unit, Some(item.value.stock), Some(item.value.costPerUnit))
  {
    match item
    case None => StockForm(None, StockFields("", "", Some(0), Some(0)))
    case Some(i) => StockForm(item, StockFields(i.name, i.unit, Some(i.stock), Some(i.costPerUnit)))
  }

  datatype StockField = StockName | StockUnit | StockLevel | StockCost

  /** Only the stock and the unit cost are read as numbers. */
  function ChangeStock(f: StockForm, field: StockField, value: string): (r: StockForm)
    ensures r.editing == f.editing
    ensures field == StockName ==> r.fields == f.fields.(name := value)
    ensures field == StockUnit ==> r.fields == f.fields.(unit := value)
    ensures field == StockLevel ==> r.fields == f.fields.(stock := ParseInt10(value))
    ensures field == StockCost ==> r.fields == f.fields.(costPerUnit := ParseInt10(value))
  {
    var fs := f.fields;
    f.(fields := match field
      case StockName => fs.(name := value)
      case StockUnit => fs.(unit := value)
      case StockLevel => fs.(stock := ParseInt10(value))
      case StockCost => fs.(costPerUnit := ParseInt10(value)))
  }

  predicate StockValid(fs: StockFields)
  {
    fs.name != "" && fs.unit != "" && fs.stock.Some? && fs.stock.value >= 0 &&
    fs.costPerUnit.Some? && fs.costPerUnit.value >= 0
  }

  /** Saving needs a name, a unit, and stock and cost of at least 0; an edit keeps the item's id and tenant. */
  function SubmitStock(f: StockForm): (r: Option<Saved<StockFields, InventoryItem>>)
    ensures r.Some? <==> StockValid(f.fields)
    ensures r.Some? && f.editing.None? ==> r.value == Created(f.fields)
    ensures r.Some? && f.editing.Some? ==>
      (r.value.Edited? && r.value.record.id == f.editing.value.id &&
       r.value.record.restaurantId == f.editing.value.restaurantId &&
       r.value.record.name == f.fields.name && r.value.record.unit == f.fields.unit &&
       Some(r.value.record.stock) == f.fields.stock && Some(r.value.record.costPerUnit) == f.fields.costPerUnit)
  {
    if !StockValid(f.fields) then None
    else
      match f.editing
      case None => Some(Created(f.fields))
      case Some(i) =>
        Some(Edited(i.(name := f.fields.name, unit := f.fields.unit, stock := f.fields.stock.value,
                       costPerUnit := f.fields.costPerUnit.value)))
  }

  /** A fresh stock form is refused until it has a name and a unit. */
  lemma FreshStockFormNeedsNames()
    ensures SubmitStock(InitialStockForm(None)).None?
    ensures SubmitStock(ChangeStock(ChangeStock(InitialStockForm(None), StockName, "rice"), StockUnit, "kg")).Some?
  {
  }

  // The customer form

  datatype CustomerFields = CustomerFields(name: string, phone: string, address: string)

  datatype CustomerForm = CustomerForm(editing: Option<Customer>, fields: CustomerFields)

  function InitialCustomerForm(c: Option<Customer>): (f: CustomerForm)
    ensures f.editing == c
    ensures c.None? ==> f.fields == CustomerFields("", "", "")
    ensures c.Some? ==> f.fields == CustomerFields(c.value.name, c.value.phone, c.value.address)
  {
    match c
    case None => CustomerForm(None, CustomerFields("", "", ""))
    case Some(x) => CustomerForm(c, CustomerFields(x.name, x.phone, x.address))
  }

  datatype CustomerField = CustomerName | CustomerPhone | CustomerAddress

  function ChangeCustomer(f: CustomerForm, field: CustomerField, value: string): (r: CustomerForm)
    ensures r.editing == f.editing
    ensures field == CustomerName ==> r.fields == f.fields.(name := value)
    ensures field == CustomerPhone ==> r.fields == f.fields.(phone := value)
    ensures field == CustomerAddress ==> r.fields == f.fields.(address := value)
  {
    var fs := f.fields;
    f.(fields := match field
      case CustomerName => fs.(name := value)
      case CustomerPhone => fs.(phone := value)
      case CustomerAddress => fs.(address := value))
  }

  predicate CustomerValid(fs: CustomerFields)
  {
    fs.name != "" && fs.phone != "" && fs.address != ""
  }

  /** Saving needs all three fields; an edit keeps the customer's id and tenant. */
  function SubmitCustomer(f: CustomerForm): (r: Option<Saved<CustomerFields, Customer>>)
    ensures r.Some? <==> CustomerValid(f.fields)
    ensures r.Some? && f.editing.None? ==> r.value == Created(f.fields)
    ensures r.Some? && f.editing.Some? ==>
      r.value == Edited(f.editing.value.(name := f.fields.name, phone := f.fields.phone, address := f.fields.address))
  {
    if !CustomerValid(f.fields) then None
    else
      match f.editing
      case None => Some(Created(f.fields))
      case Some(c) => Some(Edited(c.(name := f.fields.name, phone := f.fields.phone, address := f.fields.address)))
  }

  // The supplier form

  datatype SupplierFields = SupplierFields(name: string, contactPerson: Option<string>, phone: Option<string>)

  datatype SupplierForm = SupplierForm(editing: Option<Supplier>, fields: SupplierFields)

  function InitialSupplierForm(s: Option<Supplier>): (f: SupplierForm)
    ensures f.editing == s
    ensures s.None? ==> f.fields == SupplierFields("", Some(""), Some(""))
    ensures s.Some? ==> f.fields == SupplierFields(s.value.name, s.value.contactPerson, s.value.phone)
  {
    match s
    case None => SupplierForm(None, SupplierFields("", Some(""), Some("")))
    case Some(x) => SupplierForm(s, SupplierFields(x.name, x.contactPerson, x.phone))
  }

  datatype SupplierField = SupplierName | SupplierContact | SupplierPhone

  function ChangeSupplier(f: SupplierForm, field: SupplierField, value: string): (r: SupplierForm)
    ensures r.editing == f.editing
    ensures field == SupplierName ==> r.fields == f.fields.(name := value)
    ensures field == SupplierContact ==> r.fields == f.fields.(contactPerson := Some(value))
    ensures field == SupplierPhone ==> r.fields == f.fields.(phone := Some(value))
  {
    var fs := f.fields;
    f.(fields := match field
      case SupplierName => fs.(name := value)
      case SupplierContact => fs.(contactPerson := Some(value))
      case SupplierPhone => fs.(phone := Some(value)))
  }

  /** Saving needs only a name; contact and phone may stay empty. An edit keeps the supplier's id and tenant. */
  function SubmitSupplier(f: SupplierForm): (r: Option<Saved<SupplierFields, Supplier>>)
    ensures r.Some? <==> f.fields.name != ""
    ensures r.Some? && f.editing.None? ==> r.value == Created(f.fields)
    ensures r.Some? && f.editing.Some? ==>
      r.value == Edited(f.editing.value.(name := f.fields.name, contactPerson := f.fields.contactPerson, phone := f.fields.phone))
  {
    if f.fields.name == "" then None
    else
      match f.editing
      case None => Some(Created(f.fields))
      case Some(s) => Some(Edited(s.(name := f.fields.name, contactPerson := f.fields.contactPerson, phone := f.fields.phone)))
  }

  /** A supplier with just a name is saved, with empty contact details. */
  lemma NameIsEnoughForSupplier(name: string)
    requires name != ""
    ensures SubmitSupplier(ChangeSupplier(InitialSupplierForm(None), SupplierName, name)) ==
      Some(Created(SupplierFields(name, Some(""), Some(""))))
  {
  }

  // The price editor

  datatype PriceEditor = PriceEditor(itemId: int, price: Option<int>)

  /** The field starts at the line's price, and is reset to it whenever the line changes. */
  function OpenPriceEditor(line: OrderLine): (e: PriceEditor)
    ensures e.itemId == line.item.id && e.price == Some(line.item.price)
  {
    PriceEditor(line.item.id, Some(line.item.price))
  }

  function TypePrice(e: PriceEditor, value: string): (r: PriceEditor)
    ensures r == e.(price := ParseInt10(value))
  {
    e.(price := ParseInt10(value))
  }

  /** Saving sends the line's id and the new price when it is at least 0; a closed editor sends nothing. */
  function SubmitPrice(isOpen: bool, e: PriceEditor): (r: Option<(int, int)>)
    ensures r.Some? <==> isOpen && e.price.Some? && e.price.value >= 0
    ensures r.Some? ==> r.value == (e.itemId, e.price.value)
  {
    if isOpen && e.price.Some? && e.price.value >= 0 then Some((e.itemId, e.price.value)) else None
  }

  /** A price of 0 is accepted by the price editor, though the menu form refuses it. */
  lemma ZeroPriceOnlyAtTheTill(line: OrderLine, f: MenuForm)
    requires f.fields.price == Some(0)
    ensures SubmitPrice(true, OpenPriceEditor(line).(price := Some(0))) == Some((line.item.id, 0))
    ensures SubmitMenu(f).None?
  {
  }

  // The customer picker

  /** A customer matches when the name contains the term ignoring case, or the phone contains it as typed. */
  predicate Matches(c: Customer, term: string)
  {
    Contains(Lower(c.name), Lower(term)) || Contains(c.phone, term)
  }

  function Search(customers: seq<Customer>, term: string): (r: seq<Customer>)
    ensures forall c :: c in r <==> c in customers && Matches(c, term)
    ensures IsSubsequence(r, customers)
    ensures forall c :: multiset(r)[c] == if Matches(c, term) then multiset(customers)[c] else 0
  {
    var keep := (c: Customer) => Matches(c, term);
    FilterMultiset(customers, keep);
    Filter(customers, keep)
  }

  /** An empty search lists every customer, in order. */
  lemma EmptySearchKeepsAll(customers: seq<Customer>)
    ensures Search(customers, "") == customers
  {
    forall i | 0 <= i < |customers| ensures Matches(customers[i], "") {
      assert "" <= Lower(customers[i].name)[0..];
    }
    FilterKeepsAll(customers, (c: Customer) => Matches(c, ""));
  }

  /** The name is searched ignoring letter case. */
  lemma NameSearchIgnoresCase(c: Customer, term: string)
    requires Contains(Lower(c.name), Lower(term))
    ensures Matches(c, Upper(term)) && Matches(c, Lower(term))
  {
    LowerOfCased(term);
  }

  /** Lower-casing forgets the letter case a text was typed in. */
  lemma LowerOfCased(s: string)
    ensures Lower(Upper(s)) == Lower(s) && Lower(Lower(s)) == Lower(s)
  {
    assert forall i :: 0 <= i < |s| ==> LowerChar(UpperChar(s[i])) == LowerChar(s[i]);
  }

  datatype Picker = Picker(term: string, addingNew: bool, newCustomer: CustomerFields)

  const EmptyCustomer := CustomerFields("", "", "")

  /**
   * Quick add: with all three fields filled the customer is added in the current
   * tenant, its id is selected and the form is reset and closed; otherwise nothing
   * happens.
   */
  function QuickAdd(p: Picker, customers: seq<Customer>, newId: int, tenant: string)
    : (r: (Picker, seq<Customer>, Option<int>))
    ensures CustomerValid(p.newCustomer) ==>
      (r.0 == p.(addingNew := false, newCustomer := EmptyCustomer) &&
       r.1 == customers + [Customer(newId, tenant, p.newCustomer.name, p.newCustomer.phone, p.newCustomer.address)] &&
       r.2 == Some(newId))
    ensures !CustomerValid(p.newCustomer) ==> r == (p, customers, None)
  {
    if CustomerValid(p.newCustomer) then
      var nc := p.newCustomer;
      var (after, added) := Tenancy.AddCustomer(customers, nc.name, nc.phone, nc.address, newId, tenant);
      (p.(addingNew := false, newCustomer := EmptyCustomer), after, Some(added.id))
    else (p, customers, None)
  }

  /** The customer selected after a quick add is the one just added, and a search by its phone finds it. */
  lemma QuickAddSelectsNewCustomer(p: Picker, customers: seq<Customer>, newId: int, tenant: string)
    requires CustomerValid(p.newCustomer)
    ensures var r := QuickAdd(p, customers, newId, tenant);
      r.2.Some? && r.1[|r.1| - 1].id == r.2.value &&
      r.1[|r.1| - 1] in Search(r.1, p.newCustomer.phone)
  {
    var r := QuickAdd(p, customers, newId, tenant);
    var c := r.1[|r.1| - 1];
    assert p.newCustomer.phone <= c.phone[0..];
    assert Matches(c, p.newCustomer.phone);
  }
}
