# FoodCore restaurant POS: a Dafny model

This project models the decision logic of FoodCore, a single-page restaurant
point-of-sale application for several tenants (restaurants). It covers:

- the order life cycle: the till's cart and checkout, the kitchen display's order
  cards, the drivers' board and the order book's handlers;
- tenant licensing: activation codes, the screen cascade that gates the
  application, the owner's console, the licence-key screen and the subscription
  dialog;
- the inventory ledger fed by purchase invoices, and the purchase form;
- the backup store with its two-day retention sweep, restore and import;
- the reports: revenue, cost, profit, the per-item table and the inventory value;
- staff, permissions and the admin panel's forms: menu items, stock items,
  customers, suppliers, the price editor and the customer picker.

Each state handler of the application shell is a method of the class
`Application.App`. Its fields are the nine persistent collections and the session
fields. Each method is proved to produce the new state given by the pure function
that models the handler. Component logic is written as functions over records
and lemmas about them. One exception is imperative because the source is: the
backup store (`Backups.BackupDb`), a keyed map whose sweep is a counting loop.
The stock-increment loop of a purchase (`Inventory.RestockAll`), the financial
totals (`Reports.Financials`) and the per-item tally (`Reports.SalesByItem`) are
loops, each proved equal to a function whose properties are proved as lemmas.

Modules: `Wrappers` (Option), `Seqs` (filter, find, sums, sorting), `Text`
(digits, `parseInt`, `trim`, ASCII case), `Domain` (the records of the data
model), `Orders`, `Pos`, `Kitchen`, `Dispatch` (drivers), `Inventory`,
`Purchasing`, `Reports`, `Backups`, `Dates`, `Tenancy`, `Licensing`, `Staff`,
`Forms` and `Application`.

Conventions:

- Money and quantities are integers. Per-item revenue uses exact reals for the discount ratio.
- A number field holds `Option<int>`, and `None` stands for an empty or unreadable entry.
- Times are millisecond integers.
- The clock, new ids, the random text behind an activation code, the result of
  reading a file, and calendar conversions are all parameters.

In several places the code does less than one might expect, and the model follows
the code:

- An activation code is `"FC-"` followed by at most six base-36 characters taken
  from `Math.random().toString(36).substring(2, 8)` (App.tsx:312). It is not a
  fixed eight-character code.
- Neither generating nor resetting a code checks whether the restaurant is
  activated (App.tsx:311-318). Only the console's buttons are disabled
  accordingly.
- Where the code does not guarantee a ledger-style invariant, the model proves no
  ordering of statuses. Instead, lemmas show that the order book's status handler
  accepts any transition (`Orders.StatusUpdateUnrestricted`). They also show that
  a bare status update can send an order out with no driver
  (`Kitchen.StatusUpdateCanBreakDrivers`).
- The employee form says a blank password on an edit leaves the password
  unchanged (components/EmployeeForm.tsx:26 and :53), but the merge at :29 stores
  the blank one (`Staff.EditWithoutPasswordClearsIt`).
- Deleting a record by id ignores the tenant, so another restaurant's record with
  the same id goes too (`Application.DeleteIgnoresTenant`).
- The staff list's delete button guards against deleting the last user only when
  ids are distinct; two users sharing an id can both go at once
  (`Staff.SharedIdEmptiesList`).
- The owner console's subscription badge calls a restaurant without an end date
  "not subscribed" although the application's gate treats it as perpetual, and
  calls an end date earlier today "active" although the gate already treats it
  as expired (`Licensing.BadgeAndGateDisagree`).
- The per-item revenue in the reports is not clamped like the order total, so an
  oversized discount gives items negative revenue (`Reports.OversizedDiscountDisagrees`).
- A driver's badge counts a dine-in order assigned to them, which their order
  list does not show (`Dispatch.DineInCountedButNotListed`).

## Model

| member | source | states |
|---|---|---|
| Orders.NewOrder | App.tsx:143-153 | the new order carries the given id, time, PENDING status and tenant, and exactly the draft's fields |
| Orders.PlaceOrder | App.tsx:143-153 | placing appends exactly one order, returns that same order, keeps every earlier order; status PENDING, tenant as given |
| Orders.WithStatus | App.tsx:155-157 | orders with the id get the new status and nothing else; other orders are unchanged |
| Orders.WithDriver | App.tsx:159-161 | orders with the id get the driver and OUT_FOR_DELIVERY whatever their status; others unchanged |
| Orders.WithPrice | App.tsx:175-177 | menu items with the id get the new price; all else unchanged |
| Orders.StatusUpdateUnrestricted | App.tsx:155-157 | any status can be set on any order, whatever its current status |
| Orders.WithStatusLastWins | App.tsx:155-157 | two status updates of the same id equal the second one alone |
| Orders.OtherOrdersUntouched | App.tsx:155-161 | an order without the id is untouched by the status and driver handlers |
| Orders.PlaceOrderKeepsHistory | App.tsx:151 | placing an order leaves every earlier order as it was |
| Pos.OrUndefined | components/POSView.tsx:81-90 | JavaScript `x or undefined`: present exactly when the number is truthy (present and not 0), and then equal to it |
| Pos.Subtotal | components/POSView.tsx:43 | defined as the sum of price × quantity over the cart; its non-negativity and its change under each cart operation are stated by Pos.SubtotalNonNegative, Pos.AddToCartSubtotal, Pos.UpdateQuantitySubtotal and Pos.RemoveLineSubtotal |
| Pos.DiscountValue | components/POSView.tsx:45 | defined as the parsed discount, 0 for an empty or unreadable field; its effect on the total is stated by Pos.TotalBounds and Pos.NegativeDiscountRaisesTotal |
| Pos.Total | components/POSView.tsx:44-47 | the total is at least 0 and at least subtotal − discount, and is one of the two |
| Pos.AddToCart | components/POSView.tsx:51-60 | an item in the cart gets quantity + 1 at its line; otherwise it is appended with quantity 1; unique ids and positive quantities are preserved |
| Pos.UpdateQuantity | components/POSView.tsx:62-68 | quantity ≤ 0 removes the line, otherwise only that line's quantity is set; unique ids (in both branches) and positive quantities preserved |
| Pos.FilterKeepsUniqueIds | components/POSView.tsx:64 | removing lines from a cart with unique ids leaves the ids unique |
| Pos.WithLinePrice | components/POSView.tsx:103-107 | only the line with the id gets the new price |
| Pos.TableInput | components/POSView.tsx:70-79 | the table field keeps a parsed number only when it is truthy (0 and unreadable clear it) |
| Pos.CheckoutOf | components/POSView.tsx:70-90 | empty cart, dine-in without table, delivery without customer are refused, in that order; otherwise the draft has the cart, table only for dine-in, customer and driver only for delivery, the raw discount, the displayed total and the user as salesperson |
| Pos.AfterPlaced | components/POSView.tsx:91-100 | after placing, cart, table, customer, driver and discount are reset and the placed order is staged for the receipt |
| Pos.SavePrice | components/POSView.tsx:103-107 | saving a price changes only that cart line, closes the editor and forwards the same id and price |
| Pos.TotalBounds | components/POSView.tsx:44-47 | with a non-negative discount the total lies between 0 and the subtotal |
| Pos.NegativeDiscountRaisesTotal | components/POSView.tsx:44-47 | the discount is not clamped: a negative one makes the total exceed the subtotal |
| Pos.SubtotalNonNegative | components/POSView.tsx:43 | non-negative prices and quantities give a non-negative subtotal |
| Pos.AddToCartSubtotal | components/POSView.tsx:43-60 | adding an item raises the subtotal by one unit: the cart line's price when it is there, the menu price otherwise |
| Pos.UpdateQuantitySubtotal | components/POSView.tsx:43-68 | setting a line's quantity changes the subtotal by that line's change alone |
| Pos.RemoveLineSubtotal | components/POSView.tsx:43-68 | quantity 0 removes exactly that line and its total from the subtotal |
| Pos.PlacedOrderMatchesTill | components/POSView.tsx:81-90 | the order recorded from the till carries the total the till displayed |
| Pos.SavedPriceAgrees | components/POSView.tsx:103-107 | after saving a price, the cart line and the menu item agree on it |
| Kitchen.StatusColor | components/OrderCard.tsx:13-26 | the card header colour; the neutral default colour exactly for a served order (the four other colours are shown distinct by Kitchen.StatusColorsDistinct) |
| Kitchen.StatusColorsDistinct | components/OrderCard.tsx:13-26 | PENDING, PREPARING, READY and OUT_FOR_DELIVERY have distinct colours; everything else gets the default |
| Kitchen.ActionFor | components/OrderCard.tsx:53-117 | PENDING offers only PREPARING, PREPARING only READY, READY dine-in only SERVED, READY delivery only the driver picker (enabled iff a driver is selected and drivers exist), OUT_FOR_DELIVERY only SERVED, SERVED nothing |
| Kitchen.CardOnlyMovesForward | components/OrderCard.tsx:53-117 | every offered step moves one rank forward along the card's path |
| Kitchen.ReadyDeliveryNeedsDriver | components/OrderCard.tsx:73-104 | a ready delivery order is never offered SERVED directly |
| Kitchen.AssignClick | components/OrderCard.tsx:47-51 | assignment fires iff a driver is selected, with the order id and the selection parsed in base 10 |
| Kitchen.AssignListedDriver | components/OrderCard.tsx:47-51 | selecting a listed driver assigns exactly that driver's id |
| Kitchen.JsRem | components/OrderCard.tsx:41-45 | JavaScript `%`: agrees with the mathematical remainder for non-negative dividends, and stays within (−b, b) |
| Kitchen.ElapsedSeconds | components/OrderCard.tsx:34 | ⌊(now − timestamp)/1000⌋: the whole seconds elapsed, rounded down |
| Kitchen.FormatTime | components/OrderCard.tsx:41-45 | defined as the zero-padded minutes, `:`, and the zero-padded truncated remainder; what it prints is stated by Kitchen.FormatTimeRoundTrip and Kitchen.FormatTimeNotCapped |
| Kitchen.FormatTimeRoundTrip | components/OrderCard.tsx:41-45 | under 100 minutes the clock is `mm:ss`, from which minutes and seconds read back |
| Kitchen.FormatTimeNotCapped | components/OrderCard.tsx:41-45 | from 100 minutes on the minutes take three or more digits |
| Kitchen.ActiveOrders | components/KDSView.tsx:15 | exactly the orders not SERVED, every copy kept, in their original order |
| Kitchen.Drivers | components/KDSView.tsx:16 | exactly the users with the driver role, every copy kept, in order |
| Kitchen.CustomerOf | components/KDSView.tsx:28-36 | the first customer whose id matches (no earlier customer has it), present iff one matches |
| Kitchen.KdsView | components/KDSView.tsx:22-36 | the empty message iff no order is active; otherwise one card per active order, with its customer |
| Kitchen.ServedLeavesDisplay | components/KDSView.tsx:15 | marking an order SERVED takes it off the display |
| Kitchen.CardActionsKeepDrivers | components/OrderCard.tsx:53-117 | the card's actions keep "every order out for delivery has a driver" |
| Kitchen.StatusUpdateCanBreakDrivers | App.tsx:155-157 | a direct status update can send a delivery out with no driver |
| Dispatch.DriverOrders | components/DriversView.tsx:44-47 | the selected driver's delivery orders, all of them and only them, sorted newest first |
| Dispatch.ActiveDeliveriesCount | components/DriversView.tsx:51-53 | the number of that driver's orders out for delivery, whatever the order type; 0 iff none |
| Dispatch.CustomerName | components/DriversView.tsx:49 | the first matching customer's name, or "N/A" when there is none |
| Dispatch.DriverStatusStyle | components/DriversView.tsx:14-18 | the badge style; the default style exactly for statuses other than OUT_FOR_DELIVERY and SERVED (distinctness in Dispatch.DriverStatusStylesDistinct) |
| Dispatch.DriverStatusStylesDistinct | components/DriversView.tsx:14-18 | OUT_FOR_DELIVERY and SERVED get distinct styles, every other status the default |
| Dispatch.AssignedOrderCounts | components/DriversView.tsx:51-53 | an order just assigned to a driver is on that driver's count |
| Dispatch.DineInCountedButNotListed | components/DriversView.tsx:44-53 | a dine-in order with a driver is counted on the badge but not listed |
| Inventory.FirstWithId | App.tsx:243 | `findIndex`: the first index with the id, or none iff no item has it |
| Inventory.Restock | App.tsx:242-247 | one line adds its quantity to the stock of the first item with its id; no other field or item changes |
| Inventory.ApplyLines | App.tsx:241-248 | a whole invoice changes stock only |
| Inventory.RestockAll | App.tsx:237-249 | the loop over the lines equals applying the lines one after another |
| Inventory.ApplyLinesStock | App.tsx:241-248 | an item's new stock is its old stock plus the invoice's quantity for its id when it is the first with that id, unchanged otherwise |
| Inventory.RepeatedLinesAccumulate | App.tsx:241-248 | two lines for the same item add up |
| Inventory.QuantityForPair | App.tsx:241-248 | the quantity for an id sums its lines |
| Inventory.LinesOrderIrrelevant | App.tsx:241-248 | reordering the invoice lines gives the same inventory |
| Inventory.UnmatchedLinesChangeNothing | App.tsx:243-246 | lines naming no inventory item change nothing |
| Inventory.QuantityForNone | App.tsx:243-246 | an id no line names receives nothing |
| Purchasing.AddItem | components/PurchaseForm.tsx:23-36 | a line is appended only with item, quantity and cost filled and the item existing, then the entry is reset; otherwise nothing changes |
| Purchasing.RemoveAt | components/PurchaseForm.tsx:38-40 | exactly the line at the index goes, the rest keep their order |
| Purchasing.Submit | components/PurchaseForm.tsx:42-51 | submitted iff a supplier is chosen and there is a line; the payload total is the sum of line costs |
| Purchasing.TotalCost | components/PurchaseForm.tsx:21 | defined as the sum of the line costs; how it moves is stated by Purchasing.AddItemTotal and Purchasing.RemoveAtTotal |
| Purchasing.AddItemTotal | components/PurchaseForm.tsx:21-36 | adding a line raises the total by exactly its cost |
| Purchasing.RemoveAtTotal | components/PurchaseForm.tsx:21-40 | removing a line lowers the total by exactly its cost |
| Purchasing.ListedItemIsAdded | components/PurchaseForm.tsx:23-36 | a listed item with both numbers filled is always added |
| Purchasing.DuplicatesNotMerged | components/PurchaseForm.tsx:28-32 | the same item added twice gives two lines |
| Reports.CompletedOrders | components/ReportsView.tsx:54-57 | exactly the SERVED orders in the period, sorted newest first |
| Reports.AllAdmitsEveryServed | components/ReportsView.tsx:27 | with the 'all' filter every SERVED order is completed |
| Reports.Financials | components/ReportsView.tsx:71-81 | the nested loops give revenue = Σ totalAmount, cost = Σ cost × quantity, profit = revenue − cost |
| Reports.RevenueOfCompleted | components/ReportsView.tsx:54-81 | the totals do not depend on the sort of the completed list |
| Reports.OrderContributions | components/ReportsView.tsx:86-98 | one contribution per line, with revenue = line subtotal × the order's discount ratio and profit = revenue − quantity × cost |
| Reports.RowFor | components/ReportsView.tsx:88-99 | the row for a name, if any, is the first carrying it |
| Reports.TallyGroupsByName | components/ReportsView.tsx:84-100 | the tally has one row per name, holding the sums of quantity, revenue, cost and profit over that name's lines |
| Reports.ProfitIsRevenueLessCost | components/ReportsView.tsx:92-98 | each row's profit equals its revenue less its cost |
| Reports.SalesByItem | components/ReportsView.tsx:84-104 | the loop builds the tally of all lines, grouped by name, then sorts by quantity, largest first, as a permutation |
| Reports.CreditLines | components/ReportsView.tsx:89-99 | the loop over one order's lines extends the tally of everything before by exactly those lines |
| Reports.OrderLinesRevenue | components/ReportsView.tsx:86-98 | an order's per-item revenues add up to subtotal − discount when the discount is truthy and the subtotal positive, and to the subtotal otherwise |
| Reports.OversizedDiscountDisagrees | components/ReportsView.tsx:86-98 | an order whose discount exceeds its subtotal makes the per-item revenue negative while its amount is clamped at 0 |
| Reports.TopProfit | components/ReportsView.tsx:128 | five rows, or all of them when there are fewer; no row repeated (a sub-multiset of the table); ordered by profit, largest first; no row left out earns more than a row shown |
| Reports.RestockRaisesValue | components/ReportsView.tsx:181-183 | a restock line raises the inventory value by quantity × unit cost of the item credited |
| Reports.InventoryValue | components/ReportsView.tsx:181-183 | stock × unit cost summed over the items, never negative when stock and unit costs are not |
| Reports.LowStock | components/ReportsView.tsx:203 | defined as fewer than ten units in stock; stated by Reports.InventoryReport |
| Reports.InventoryReport | components/ReportsView.tsx:202-207 | one row per item, in order, with its stock × unit cost, flagged iff fewer than ten units are left |
| Reports.ReportValuesAddUp | components/ReportsView.tsx:181-207 | the value column of the inventory table adds up to the inventory value shown above it |
| Reports.TotalAssets | components/ReportsView.tsx:219-227 | inventory value plus the revenue of the served orders in the period, whatever their display order; at least that revenue when stock and unit costs are not negative |
| Backups.Put | indexedDB.ts:32-38 | `put` stores the snapshot under its id, replacing any entry with that id |
| Backups.SameInstantReplaces | indexedDB.ts:26-38 | two backups in the same millisecond leave only the second |
| Backups.Retained | indexedDB.ts:62-72 | exactly the entries with id ≥ now − 172 800 000 |
| Backups.Expired | indexedDB.ts:62-72 | exactly the ids below now − 172 800 000 |
| Backups.SweepPartitions | indexedDB.ts:62-72 | every entry is kept or deleted, never both |
| Backups.LaterSweepSubsumes | indexedDB.ts:62-72 | sweeping at t1 then t2 ≥ t1 equals sweeping once at t2 |
| Backups.BackupDb.AddBackup | indexedDB.ts:32-38 | the store becomes the old store with the snapshot put under now |
| Backups.BackupDb.DeleteBackup | indexedDB.ts:51-56 | only the key is removed |
| Backups.BackupDb.GetAllBackups | indexedDB.ts:40-48 | every stored backup once, nothing else, ids strictly descending |
| Backups.BackupDb.ClearOldBackups | indexedDB.ts:58-79 | deletes exactly the expired entries, returns their number, logs only when positive; a failure is logged and deletes nothing |
| Backups.BackupDb.DeleteBelow | indexedDB.ts:67-72 | the loop deletes and counts exactly the listed ids below the threshold |
| Backups.Snapshot | App.tsx:252-284 | manual and automatic snapshots carry all nine keys |
| Backups.Restored | App.tsx:265-274 | defined as each collection replaced when its key is present; stated by Backups.RestoreSnapshotRoundTrip, Backups.PartialRestore and Backups.RestoreIdempotent |
| Backups.RestoreSnapshotRoundTrip | App.tsx:265-278 | restoring a snapshot reproduces every collection it was taken from |
| Backups.PartialRestore | App.tsx:265-278 | only the keys present are replaced; the others are kept |
| Backups.RestoreIdempotent | App.tsx:265-278 | restoring twice equals restoring once |
| Backups.FileChosen | components/BackupRestoreView.tsx:40-55 | a valid parsed file is staged and the confirmation opened; a file failing the check or failing to parse raises an alert and stages nothing; the file input is always cleared |
| Backups.AutoRestoreRequest | components/BackupRestoreView.tsx:66-69 | choosing an automatic backup stages exactly its data |
| Backups.ConfirmRestore | components/BackupRestoreView.tsx:58-64 | confirming forwards the staged data, then clears it and closes |
| Backups.ConfirmForwardsOnce | components/BackupRestoreView.tsx:58-64 | a second confirmation forwards nothing |
| Backups.IsValidImport | components/BackupRestoreView.tsx:40 | defined as users, menu items and orders all present; stated by Backups.FileChosen and Backups.SnapshotsAreValidImports |
| Backups.SnapshotsAreValidImports | components/BackupRestoreView.tsx:40 | every snapshot the application takes passes the import check |
| Backups.ShowBackupReminder | components/Header.tsx:19-27 | no timestamp shows the reminder; otherwise it is shown iff now − timestamp > 6 h |
| Backups.ReminderBoundary | components/Header.tsx:24-26 | exactly six hours is not stale; one millisecond more is |
| Dates.IsoString | App.tsx:42 | the printed instant has 24 characters |
| Dates.IsIsoInstant | App.tsx:42 | defined as the reviver's fixed-shape test (digits where the pattern has `\d`, the literal separators and `Z` elsewhere); stated by Dates.IsoStringRecognised and Dates.ShortTextsStayText |
| Dates.IsoStringRecognised | App.tsx:42 | every instant printed with a four-digit year passes the date test, and its fields read back |
| Dates.ShortTextsStayText | App.tsx:42 | a string of any other length is not revived as a date |
| Dates.ParseDateInput | components/SubscriptionModal.tsx:13-20 | a date iff the text is four digits, '-', two digits forming a month ≥ 1, '-', two digits; the year, 0-based month and day are those digit fields |
| Dates.FormatDateForInput | components/SubscriptionModal.tsx:13-20 | defined as '' for no date, else the year, the padded 1-based month and the padded day joined by `-`; stated by Dates.DateInputRoundTrip and Dates.NoDateIsEmpty |
| Dates.DateInputRoundTrip | components/SubscriptionModal.tsx:13-20 | a date with a four-digit year shows as 10 characters (1-based month, zero-padded) that read back as the same date |
| Dates.NoDateIsEmpty | components/SubscriptionModal.tsx:13-20 | no date shows an empty field, which reads as no date |
| Tenancy.AddRestaurant | App.tsx:303-305 | appends the restaurant, unactivated and with a perpetual end date; others kept |
| Tenancy.UpdateSubscription | App.tsx:307-309 | only the restaurants with the id get the new end date |
| Tenancy.CodeFrom | App.tsx:311-314 | the code is "FC-" plus at most six characters, upper-case base 36 when the random text is base 36 |
| Tenancy.GenerateCode | App.tsx:311-314 | only restaurants with the id get the new code, whatever their state |
| Tenancy.ResetActivation | App.tsx:316-318 | only the target loses its activation and activation date; code and end date kept |
| Tenancy.WithCode | App.tsx:321 | the first restaurant carrying the code, none iff no restaurant carries it |
| Tenancy.InitialActivate | App.tsx:320-328 | no carrier: INVALID_CODE, nothing changes; first carrier activated: ALREADY_USED, nothing changes; else that restaurant is activated at now, becomes current, SUCCESS |
| Tenancy.IssuedCodeRedeems | App.tsx:311-328 | a code just issued to an unactivated restaurant that no earlier restaurant shares redeems, and its id becomes current |
| Tenancy.SecondRedemptionRefused | App.tsx:320-328 | redeeming the same code again is ALREADY_USED |
| Tenancy.ResetMakesCodeRedeemableAgain | App.tsx:316-328 | after a reset the kept code redeems again |
| Tenancy.DefaultPermissions | App.tsx:179-183 | admin and owner get all six permissions, every other role none |
| Tenancy.AddUser | App.tsx:179-185 | appends the user in the current tenant with the id and the role's defaults |
| Tenancy.CreateAdminUser | App.tsx:330-338 | always appends an admin with all six permissions in the current tenant |
| Tenancy.CreateAdminIsAddAdmin | App.tsx:330-338 | the bootstrap administrator is what adding an admin would give |
| Tenancy.UpdateUserPermissions | App.tsx:195-197 | only the users with the id get the new permissions |
| Tenancy.AddCustomer | App.tsx:199-203 | appends the customer in the current tenant and returns it |
| Tenancy.TenantUsers | App.tsx:109 | exactly the users of the current tenant, every copy kept, in order; none without a tenant |
| Tenancy.Login | App.tsx:118-131 | superadmin/superadmin opens the owner console; otherwise the first tenant user with that name and password signs in; otherwise bad credentials, iff no such user |
| Tenancy.OtherTenantsCannotSignIn | App.tsx:109-123 | a user of another tenant cannot sign in |
| Tenancy.CurrentRestaurant | App.tsx:106 | the first restaurant with the current id (no earlier one has it), none iff none has it |
| Tenancy.Activated | App.tsx:358 | exactly the activated restaurants, every copy kept, in order |
| Tenancy.Route | App.tsx:341-403 | the gate cascade, each gate stated from its condition to its screen: owner console iff the owner logged in; code redemption iff none activated; picker of activated restaurants iff no tenant; then missing tenant; bootstrap when not activated; expired when the end date is before now; bootstrap without users; login without a user; otherwise the main screen with the panel of the chosen view |
| Tenancy.Expired | App.tsx:387 | defined as a stored end date strictly before now; stated by Tenancy.PerpetualNeverExpires, Tenancy.ExpiryIsStrict and the expiry gate of Tenancy.Route |
| Tenancy.PerpetualNeverExpires | App.tsx:387-388 | a restaurant without an end date never shows the expiry notice |
| Tenancy.ExpiryIsStrict | App.tsx:387-388 | an end date exactly now has not expired |
| Tenancy.RedemptionOpensTenant | App.tsx:320-395 | after a successful redemption the screen is no longer code redemption, nor the picker for a non-empty id |
| Tenancy.LogoutLeavesMain | App.tsx:133-136 | after logout the main screen is not shown |
| Licensing.TrimUpperIgnoresPadding | components/LicenseActivationView.tsx:22 | white space around a typed value does not change it after trim and upper-casing |
| Licensing.ErrorFor | components/InitialActivationView.tsx:25-31 | SUCCESS leaves no error; INVALID_CODE and ALREADY_USED give two distinct errors |
| Licensing.TypeCode | components/InitialActivationView.tsx:59 | the field holds the typed text upper-cased |
| Licensing.SubmitCode | components/InitialActivationView.tsx:21-32 | the trimmed code is redeemed; the error is cleared and then set from the result |
| Licensing.IssuedCodeIsCanonical | App.tsx:312 | an issued code is unchanged by upper-casing and by trim |
| Licensing.TypedCodeSubmitsIssuedCode | components/InitialActivationView.tsx:24-59 | an issued code typed in any case with surrounding spaces submits exactly that code |
| Licensing.CollapseSpaces | components/SystemOwnerView.tsx:41 | every run of white space becomes one `_`; no white space survives |
| Licensing.CollapseJoinsWords | components/SystemOwnerView.tsx:41 | two words with white space between become the words joined by one `_` |
| Licensing.NormaliseId | components/SystemOwnerView.tsx:41 | the id is lower-cased with each run of white space one `_` |
| Licensing.NormaliseIdIdempotent | components/SystemOwnerView.tsx:41 | normalising a normalised id changes nothing |
| Licensing.OwnerIdChange | components/SystemOwnerView.tsx:41 | the owner's form normalises the id on every change |
| Licensing.SuperAdminIdChange | components/SuperAdminView.tsx:38 | the super-admin form keeps the id as typed |
| Licensing.SubmitRestaurant | components/SystemOwnerView.tsx:23-28 | saved iff name and id are both non-empty |
| Licensing.OnlyOwnerIdsAreSpaceless | components/SuperAdminView.tsx:20-38 | ids saved from the owner's console hold no white space; the super-admin form can save one that does |
| Licensing.RowFor | components/SystemOwnerView.tsx:131-143 | a missing code reads "not issued", a missing end date "perpetual"; generate enabled iff not activated, reset iff activated |
| Licensing.OneCodeButtonEnabled | components/SystemOwnerView.tsx:142-143 | exactly one code button is enabled |
| Licensing.OpenSubscription | components/SystemOwnerView.tsx:60-63 | opening selects the restaurant and opens the dialog |
| Licensing.SaveSubscription | components/SystemOwnerView.tsx:65-71 | forwards the selected id and date, then closes and clears the selection |
| Licensing.SaveRestaurant | components/SystemOwnerView.tsx:73-76 | forwards the new restaurant and closes the form |
| Licensing.RequestReset | components/SystemOwnerView.tsx:78-81 | records the id and opens the confirmation |
| Licensing.ConfirmReset | components/SystemOwnerView.tsx:83-89 | forwards the pending id only if one is set, then clears it |
| Licensing.ResetThroughConsole | components/SystemOwnerView.tsx:78-89 | a requested and confirmed reset resets exactly that restaurant, once |
| Licensing.ApplyCommand | App.tsx:303-318 | the console's commands act as the application's handlers: add appends an unactivated perpetual restaurant; a subscription update sets only the target's end date (none for an empty field); reset as `Tenancy.ResetActivation` |
| Licensing.StatusOf | components/SuperAdminView.tsx:68-76 | no end date: not subscribed; before today's midnight: expired; otherwise (today included) active |
| Licensing.BadgeAndGateDisagree | components/SuperAdminView.tsx:68-76 | the badge calls a perpetual restaurant "not subscribed" and an end date earlier today "active" while the gate has it expired |
| Licensing.LicenceFor | components/LicenseActivationView.tsx:25-30 | TRIAL30, PRO365 and LIFETIME are the only keys |
| Licensing.DurationDays | components/LicenseActivationView.tsx:25-46 | TRIAL30 gives 30 days, PRO365 gives 365 days, and only LIFETIME gives no end date |
| Licensing.SubmitLicence | components/LicenseActivationView.tsx:18-49 | the trimmed upper-cased key is checked before the name; an unknown key is refused, then a blank name; otherwise the trimmed name is activated with the key's duration |
| Licensing.LicenceKeyPaddingIgnored | components/LicenseActivationView.tsx:22 | keys match whatever their case and surrounding white space |
| Licensing.InitialEndField | components/SubscriptionModal.tsx:22 | the field starts at the end date's `YYYY-MM-DD`, empty for a perpetual one |
| Licensing.SaveEndField | components/SubscriptionModal.tsx:28-32 | an empty field is perpetual, anything else is the date handed on |
| Licensing.SetLifetime | components/SubscriptionModal.tsx:34-36 | the field is emptied, so saving yields perpetual |
| Licensing.SaveUnchangedKeepsEnd | components/SubscriptionModal.tsx:13-32 | opening and saving unchanged hands on a field that reads back as the same calendar date; a perpetual licence stays perpetual |
| Staff.RoleLabel | components/Header.tsx:34-43 | the five roles get fixed labels; any other value shows unchanged |
| Staff.RoleDisplay | components/EmployeesView.tsx:56-64 | four roles get labels; any other value shows unchanged |
| Staff.RoleLabelsDistinct | components/Header.tsx:34-43 | the five labels are distinct |
| Staff.LabelsAgreeBelowSystemOwner | components/EmployeesView.tsx:56-64 | the two labellings agree on every role except the system owner |
| Staff.RoleFromText | components/EmployeeForm.tsx:19-22 | the role read from its stored text gives that text back, and a known name is never read as an unknown role |
| Staff.RoleTextRoundTrip | components/EmployeeForm.tsx:19-22 | a role stored and read back is the same role |
| Staff.NavButtons | components/Header.tsx:76-83 | the admin button is listed iff the user may access the admin panel |
| Staff.NavMatchesPanel | App.tsx:441 | the header's admin button agrees with the main screen's admin-panel gate |
| Staff.ColumnsCoverEveryKey | components/PermissionsView.tsx:9-56 | every permission key is a column, once, in the fixed order |
| Staff.PermissionChange | components/PermissionsView.tsx:20-33 | the first user with the id (no earlier user has it) supplies the permissions, exactly one key set; an unknown id sends nothing |
| Staff.CheckboxLocked | components/PermissionsView.tsx:64 | defined as the row's user being an admin or an owner; stated by Staff.NoteExplainsLockedRows and Staff.ManagersStartLockedWithAll |
| Staff.LockNoteShown | components/PermissionsView.tsx:73-77 | defined as some listed user being an admin or an owner; stated by Staff.NoteExplainsLockedRows |
| Staff.NoteExplainsLockedRows | components/PermissionsView.tsx:64-77 | the lock note is shown iff some row is locked (an admin or owner) |
| Staff.PermissionChangeApplied | components/PermissionsView.tsx:20-33 | the ticked key ends up set on the user; others untouched |
| Staff.ManagersStartLockedWithAll | App.tsx:179-185 | a manager added starts with every permission and a locked row |
| Staff.RequestDelete | components/EmployeesView.tsx:43-46 | the dialog opens with that id pending, whatever was pending before |
| Staff.ConfirmDelete | components/EmployeesView.tsx:48-54 | forwards the pending id only if one is set (0 included), then closes and clears |
| Staff.CancelDelete | components/EmployeesView.tsx:101 | closing the dialog hides it and keeps the pending id, forwarding nothing |
| Staff.CancelledIdIsReplaced | components/EmployeesView.tsx:43-54 | the id a closed dialog keeps is never deleted: the next request replaces it before any confirm |
| Staff.ConfirmDeletesOnce | components/EmployeesView.tsx:43-54 | a request confirmed deletes exactly that id; confirming again deletes nothing |
| Staff.InitialEmployeeForm | components/EmployeeForm.tsx:11-15 | the edited user's name and role with an empty password, or empty fields and the cashier role |
| Staff.ChangeEmployee | components/EmployeeForm.tsx:19-22 | only the named field changes |
| Staff.SubmitEmployee | components/EmployeeForm.tsx:24-34 | a username is required, a password only when creating; an edit keeps id, tenant and permissions and overwrites name, role and password |
| Staff.NewUserNeedsPassword | components/EmployeeForm.tsx:27 | a new user without a password is never saved |
| Staff.OpenAdd | components/EmployeesView.tsx:19-22 | opens the form with nobody edited |
| Staff.OpenEdit | components/EmployeesView.tsx:24-27 | opens the form on the user |
| Staff.SaveStaff | components/EmployeesView.tsx:34-41 | an update when the user has an id, an add otherwise, then the form closes |
| Staff.ReplaceUser | App.tsx:187-189 | only users with the id are replaced |
| Staff.DeleteUser | App.tsx:191-193 | exactly the users without the id remain, every copy kept, in order |
| Staff.DeleteOffered | components/EmployeesView.tsx:89 | defined as more than one user listed; stated by Staff.OfferedDeleteKeepsSomeone and Staff.SharedIdEmptiesList |
| Staff.OfferedDeleteKeepsSomeone | components/EmployeesView.tsx:89 | with the delete button offered only above one user, and distinct ids, a deletion removes exactly that user and never empties the list |
| Staff.SharedIdEmptiesList | components/EmployeesView.tsx:89 | with two users sharing an id the button is still offered, and deleting either empties the list |
| Staff.ApplyStaff | App.tsx:179-189 | the application's side of the staff commands |
| Staff.EditWithoutPasswordClearsIt | components/EmployeeForm.tsx:13-29 | saving an edit without retyping the password stores an empty one: the old password no longer signs in, the empty one does |
| Forms.InitialMenuForm | components/AdminView.tsx:74-82 | the edited item's fields, or empty text, zero prices and the first icon |
| Forms.ChangeMenu | components/AdminView.tsx:86-89 | only the named field changes; price and cost are read as numbers, the rest stored raw |
| Forms.MenuValid | components/AdminView.tsx:143 | defined as a name, a price above 0, a category and a cost of at least 0; stated by Forms.SubmitMenu and Forms.MenuRefusesFreeItems |
| Forms.SubmitMenu | components/AdminView.tsx:141-146 | saved iff name, price > 0, category and cost ≥ 0; an edit keeps id and tenant |
| Forms.MenuRefusesFreeItems | components/AdminView.tsx:143 | a price of 0 is refused |
| Forms.UnchangedEditIsIdentity | components/AdminView.tsx:74-146 | opening a valid item and saving it unchanged gives the same item |
| Forms.SaveMenu | components/AdminView.tsx:265-272 | an update for an edited item, an add otherwise, then the form closes |
| Forms.ConfirmMenuDelete | components/AdminView.tsx:279-285 | forwards the pending id only if one is set, then clears it |
| Forms.CancelMenuDelete | components/AdminView.tsx:287-290 | cancelling the menu's delete dialog closes it and forgets the pending id |
| Forms.TabPermission | components/AdminView.tsx:292-304 | customers, backup and settings need no permission; every other tab needs one |
| Forms.VisibleTabs | components/AdminView.tsx:292-304 | exactly the tabs the permissions allow, in the fixed order |
| Forms.TabsWithoutPermissions | components/AdminView.tsx:292-304 | customers, backup and settings are always shown, and alone without permissions |
| Forms.AllTabsForManagers | components/AdminView.tsx:292-304 | every permission shows every tab |
| Forms.OpeningTabMayBeHidden | components/AdminView.tsx:244-304 | the panel opens on reports, which is hidden without the reports permission |
| Forms.InitialStockForm | components/InventoryItemForm.tsx:11-16 | the edited item's fields, or empty text with stock and cost 0 |
| Forms.ChangeStock | components/InventoryItemForm.tsx:20-23 | only the named field changes; only stock and unit cost are read as numbers |
| Forms.StockValid | components/InventoryItemForm.tsx:27 | defined as a name, a unit, and stock and unit cost of at least 0; stated by Forms.SubmitStock and Forms.FreshStockFormNeedsNames |
| Forms.SubmitStock | components/InventoryItemForm.tsx:25-30 | saved iff name, unit, stock ≥ 0 and cost ≥ 0; an edit keeps id and tenant |
| Forms.FreshStockFormNeedsNames | components/InventoryItemForm.tsx:11-30 | a fresh form is refused until a name and a unit are typed |
| Forms.InitialCustomerForm | components/CustomerForm.tsx:11-15 | the edited customer's fields, or three empty ones |
| Forms.ChangeCustomer | components/CustomerForm.tsx:19-22 | only the named field changes |
| Forms.CustomerValid | components/CustomerForm.tsx:26 | defined as name, phone and address all non-empty; stated by Forms.SubmitCustomer |
| Forms.SubmitCustomer | components/CustomerForm.tsx:24-29 | saved iff all three fields are non-empty; an edit keeps id and tenant |
| Forms.InitialSupplierForm | components/SupplierForm.tsx:11-15 | the edited supplier's fields, or three empty ones |
| Forms.ChangeSupplier | components/SupplierForm.tsx:19-22 | only the named field changes |
| Forms.SubmitSupplier | components/SupplierForm.tsx:24-29 | saved iff the name is non-empty; contact and phone may be empty; an edit keeps id and tenant |
| Forms.NameIsEnoughForSupplier | components/SupplierForm.tsx:26 | a name alone saves a supplier with empty contact details |
| Forms.OpenPriceEditor | components/PriceEditModal.tsx:12-16 | the field starts at the item's price |
| Forms.TypePrice | components/PriceEditModal.tsx:41 | the field holds the typed number |
| Forms.SubmitPrice | components/PriceEditModal.tsx:18-27 | saved iff open and the price is ≥ 0, with the item's id |
| Forms.ZeroPriceOnlyAtTheTill | components/PriceEditModal.tsx:24 | a price of 0 is saved here although the menu form refuses it |
| Forms.Matches | components/CustomerSelectModal.tsx:24-26 | defined as the lower-cased name containing the lower-cased term, or the phone containing the term as typed; stated by Forms.Search, Forms.EmptySearchKeepsAll and Forms.NameSearchIgnoresCase |
| Forms.Search | components/CustomerSelectModal.tsx:23-27 | exactly the customers whose lower-cased name contains the lower-cased term or whose phone contains the term, every copy kept, in order |
| Forms.EmptySearchKeepsAll | components/CustomerSelectModal.tsx:23-27 | an empty term keeps every customer |
| Forms.NameSearchIgnoresCase | components/CustomerSelectModal.tsx:25 | the name is matched whatever the case of the term |
| Forms.QuickAdd | components/CustomerSelectModal.tsx:29-37 | with all three fields filled the customer is added, selected, the form reset and closed; otherwise nothing happens |
| Forms.QuickAddSelectsNewCustomer | components/CustomerSelectModal.tsx:29-37 | the selected id is the added customer's, and a search by its phone finds it |
| Application.ReplaceById | App.tsx:167-169 | only records with the id are replaced |
| Application.DeleteById | App.tsx:171-173 | exactly the records without the id remain, every copy kept, in order |
| Application.OfTenant | App.tsx:109-115 | exactly the current tenant's records, every copy kept, in order; none without a tenant |
| Application.DeleteIgnoresTenant | App.tsx:171-173 | a delete by id is not confined to the current tenant |
| Application.App.constructor | App.tsx:86-104 | empty collections, default settings, no tenant, nobody signed in, the till view; the code-redemption screen |
| Application.App.Login | App.tsx:118-131 | the owner pair opens the console; a signed-in user gets the till view and a cleared error; otherwise the error is set |
| Application.App.Logout | App.tsx:133-136 | the user and the owner console are cleared |
| Application.App.SwitchRestaurant | App.tsx:138-141 | user and tenant are cleared, leading to the picker |
| Application.App.PickRestaurant | App.tsx:365 | a picker button sets the current tenant and changes nothing else |
| Application.App.SetView | App.tsx:409 | a navigation button sets the current view and changes nothing else |
| Application.App.PlaceOrder | App.tsx:143-153 | the order book gains the new order, which is returned; nothing else changes |
| Application.App.UpdateOrderStatus | App.tsx:155-157 | the orders become `Orders.WithStatus`; nothing else changes |
| Application.App.AssignDriver | App.tsx:159-161 | the orders become `Orders.WithDriver`; nothing else changes |
| Application.App.AddItem | App.tsx:163-165 | the item is appended with the fresh id and the tenant |
| Application.App.UpdateItem | App.tsx:167-169 | the menu item with the id is replaced |
| Application.App.DeleteItem | App.tsx:171-173 | the menu items with the id are removed |
| Application.App.EditPrice | App.tsx:175-177 | the menu becomes `Orders.WithPrice` |
| Application.App.AddUser | App.tsx:179-185 | the users become `Tenancy.AddUser` in the current tenant |
| Application.App.UpdateUser | App.tsx:187-189 | the user with the id is replaced |
| Application.App.DeleteUser | App.tsx:191-193 | the users with the id are removed |
| Application.App.UpdateUserPermissions | App.tsx:195-197 | the users become `Tenancy.UpdateUserPermissions` |
| Application.App.AddCustomer | App.tsx:199-203 | the customer is appended in the tenant and returned |
| Application.App.UpdateCustomer | App.tsx:205-207 | the customer with the id is replaced |
| Application.App.DeleteCustomer | App.tsx:209-211 | the customers with the id are removed |
| Application.App.AddInventoryItem | App.tsx:213-215 | the item is appended with the fresh id and the tenant |
| Application.App.UpdateInventoryItem | App.tsx:217-219 | the item with the id is replaced |
| Application.App.DeleteInventoryItem | App.tsx:221-223 | the items with the id are removed |
| Application.App.AddSupplier | App.tsx:225-227 | the supplier is appended with the fresh id and the tenant |
| Application.App.UpdateSupplier | App.tsx:229-231 | the supplier with the id is replaced |
| Application.App.DeleteSupplier | App.tsx:233-235 | the suppliers with the id are removed |
| Application.App.AddPurchase | App.tsx:237-249 | the purchase is appended in the tenant and the stock of every tenant's inventory becomes `Inventory.ApplyLines` |
| Application.App.UpdateSettings | App.tsx:453 | the settings screen replaces the system settings and changes nothing else |
| Application.App.ManualBackup | App.tsx:251-263 | the download is a snapshot of the nine collections; the timestamp is stamped, so the reminder is off |
| Application.App.AutoBackup | App.tsx:283-287 | the store gains the snapshot under now |
| Application.App.RestoreData | App.tsx:265-281 | the collections become `Backups.Restored`; tenant and user are cleared, so code redemption or the picker follows |
| Application.App.AddRestaurant | App.tsx:303-305 | the restaurants become `Tenancy.AddRestaurant` |
| Application.App.UpdateSubscription | App.tsx:307-309 | the restaurants become `Tenancy.UpdateSubscription` |
| Application.App.GenerateCode | App.tsx:311-314 | the restaurants become `Tenancy.GenerateCode` |
| Application.App.ResetActivation | App.tsx:316-318 | the restaurants become `Tenancy.ResetActivation` |
| Application.App.InitialActivate | App.tsx:320-328 | the result and restaurants of `Tenancy.InitialActivate`; on success the tenant becomes current |
| Application.App.CreateAdminUser | App.tsx:330-338 | the users become `Tenancy.CreateAdminUser` in the current tenant |

## Left out

- JSX rendering, CSS and the presentational screens are not modelled. These include the receipt, the settings screen, the login, activation and expiry screens, and the pass-through CRUD lists.
- Persistence in `localStorage` and JSON encoding are left out. Only the reviver's date test is modelled (`Dates.IsIsoInstant`).
- IndexedDB opening, transactions and promises are left out. The store is a map with synchronous operations. A store that cannot be reached is the `reachable` parameter of `ClearOldBackups`.
- Timers are not modelled. These are the two-hourly backup, the daily sweep, the hourly reminder check and the one-second order clock. Each job is an operation called with an explicit `now`.
- The AI description generator of the menu form is left out because it is a network call.
- File reading, downloads, `alert` and page reloads are left out because they are browser I/O. A file's parse result is a parameter (`Backups.FileRead`).
- Calendar and time-zone arithmetic are parameters: the week and month windows of the reports, midnight today, the licence end date, and local date fields.
- Floating point is not modelled; money is integer. `parseFloat` is modelled by the integer reader `Text.ParseInt10`, so a decimal fraction in a field is not modelled.
- `Date.now()` ids and `Math.random()` text are parameters, so id uniqueness is not assumed.
- Races between browser tabs writing the same storage are left out.
- Upper- and lower-casing cover ASCII letters only.
- The sorts of the completed orders (Reports.CompletedOrders), of the per-item table (Reports.SalesByItem) and of a driver's orders, newest first (Dispatch.DriverOrders), are proved sorted and permutations of their input. The profit list (Reports.TopProfit) is proved sorted, a sub-multiset of the table and made of the most profitable rows; it has no repeated row because the table's names are unique (Reports.TallyGroupsByName). The order among equal keys is left open.
- Application.App.AddPurchase: the source increments `stock` on objects shared with the previous inventory array. The model builds a new sequence, so the aliasing is not modelled.
- Application.App.Tenant: a missing current tenant (`null`) is stamped on new records as the empty id.
- Kitchen.AssignClick: an unreadable driver selection (`NaN`) is `None`.
- Licensing.ApplyCommand: the date text saved by the subscription dialog is converted by the `parse` parameter, because calendar conversion is left out.
- Licensing.SaveUnchangedKeepsEnd: proves only that the field reads back as the same calendar date. The dialog fills the field from local-time date getters and saves `new Date(field).toISOString()`, which is midnight UTC, so an end date not at midnight UTC, or a user west of UTC, sees the stored instant move; the conversion between instants and calendar dates is left out.
- Licensing.SubmitLicence: the licence screen is not wired into the application. Its hand-off is modelled only as the `Activate` outcome.
