/**
 * The purchase invoice form: an entry row whose fields are added as a line once
 * complete, a list of lines that can be removed one by one, the running total,
 * and the guard before the invoice is handed on.
 */
module Purchasing {
  import opened Wrappers
  import opened Domain
  import opened Seqs
  import opened Text

  /**
   * The entry row. The item is the text of the chosen option; quantity and cost are
   * number inputs, `None` while empty (a non-empty number input always holds a number).
   */
  datatype Entry = Entry(itemId: string, quantity: Option<int>, cost: Option<int>)

  const EmptyEntry := Entry("", None, None)

  datatype FormState = FormState(supplierId: Option<int>, items: seq<PurchaseItem>, entry: Entry)

  const InitialForm := FormState(None, [], EmptyEntry)

  function LineCost(l: PurchaseItem): int
  {
    l.cost
  }

  /** The invoice total: the sum of the line costs, each of which is a line total. */
  function TotalCost(items: seq<PurchaseItem>): int
  {
    SumOf(items, LineCost)
  }

  /**
   * Adding the entry: only with all three fields filled in and an inventory item
   * matching the parsed id; the line is appended (never merged) and the entry cleared.
   * Otherwise nothing changes.
   */
  function AddItem(st: FormState, inv: seq<InventoryItem>): (r: FormState)
    ensures r.supplierId == st.supplierId
    ensures var e := st.entry;
      var ok := e.itemId != "" && e.quantity.Some? && e.cost.Some? &&
                ParseInt10(e.itemId).Some? &&
                exists i :: 0 <= i < |inv| && Some(inv[i].id) == ParseInt10(e.itemId);
      (ok ==> r.items == st.items + [PurchaseItem(ParseInt10(e.itemId).value, e.quantity.value, e.cost.value)]
              && r.entry == EmptyEntry) &&
      (!ok ==> r == st)
  {
    var e := st.entry;
    if e.itemId != "" && e.quantity.Some? && e.cost.Some? then
      var id := ParseInt10(e.itemId);
      match Find(inv, (i: InventoryItem) => Some(i.id) == id)
      case Some(found) =>
        st.(items := st.items + [PurchaseItem(id.value, e.quantity.value, e.cost.value)], entry := EmptyEntry)
      case None => st
    else st
  }

  /** `items.filter((_, i) => i !== index)`: the line at that index goes, the rest keep their order. */
  function RemoveAt(items: seq<PurchaseItem>, index: int): (r: seq<PurchaseItem>)
    ensures 0 <= index < |items| ==>
      |r| == |items| - 1 &&
      (forall i :: 0 <= i < index ==> r[i] == items[i]) &&
      (forall i :: index <= i < |r| ==> r[i] == items[i + 1])
    ensures !(0 <= index < |items|) ==> r == items
  {
    if items == [] then []
    else if index == 0 then items[1..]
    else [items[0]] + RemoveAt(items[1..], index - 1)
  }

  /** What the form hands on: supplier, date, lines and total (the tenant is added by the caller). */
  datatype PurchaseDraft = PurchaseDraft(supplierId: int, date: int, items: seq<PurchaseItem>, totalCost: int)

  /** Submitting: only with a supplier chosen (0 and an unreadable value count as none) and a line. */
  function Submit(st: FormState, now: int): (r: Option<PurchaseDraft>)
    ensures r.Some? <==> st.supplierId.Some? && st.supplierId.value != 0 && |st.items| > 0
    ensures r.Some? ==>
      r.value.supplierId == st.supplierId.value && r.value.items == st.items &&
      r.value.totalCost == TotalCost(st.items) && r.value.date == now
  {
    if st.supplierId.Some? && st.supplierId.value != 0 && |st.items| > 0 then
      Some(PurchaseDraft(st.supplierId.value, now, st.items, TotalCost(st.items)))
    else None
  }

  /** Adding a line raises the total by that line's cost. */
  lemma AddItemTotal(st: FormState, inv: seq<InventoryItem>)
    ensures |AddItem(st, inv).items| == |st.items| ==> TotalCost(AddItem(st, inv).items) == TotalCost(st.items)
    ensures |AddItem(st, inv).items| == |st.items| + 1 ==>
      TotalCost(AddItem(st, inv).items) == TotalCost(st.items) + st.entry.cost.value
  {
    var r := AddItem(st, inv);
    if |r.items| == |st.items| + 1 {
      var l := r.items[|st.items|];
      assert r.items == st.items + [l];
      SumOfConcat(st.items, [l], LineCost);
      assert [l][..0] == [];
    }
  }

  /** Removing a line lowers the total by exactly that line's cost. */
  lemma RemoveAtTotal(items: seq<PurchaseItem>, index: nat)
    requires index < |items|
    ensures TotalCost(RemoveAt(items, index)) == TotalCost(items) - items[index].cost
  {
    RemoveAtSplices(items, index);
    SumOfRemove(items, index, LineCost);
  }

  lemma RemoveAtSplices(items: seq<PurchaseItem>, index: nat)
    requires index < |items|
    ensures RemoveAt(items, index) == items[..index] + items[index + 1..]
  {
    var r, t := RemoveAt(items, index), items[..index] + items[index + 1..];
    forall i | 0 <= i < |r| ensures r[i] == t[i] {
      if i < index {
        assert t[i] == items[i];
      } else {
        assert t[i] == items[i + 1];
      }
    }
  }

  /** Choosing an inventory item from the list and filling in the numbers always adds the line. */
  lemma ListedItemIsAdded(st: FormState, inv: seq<InventoryItem>, k: nat, q: int, c: int)
    requires k < |inv| && inv[k].id >= 0
    requires st.entry == Entry(NatToString(inv[k].id), Some(q), Some(c))
    ensures AddItem(st, inv).items == st.items + [PurchaseItem(inv[k].id, q, c)]
  {
    ParseIntOfToString(inv[k].id);
  }

  /** The same item added twice gives two lines, not one merged line. */
  lemma DuplicatesNotMerged(st: FormState, inv: seq<InventoryItem>, k: nat, q: int, c: int)
    requires k < |inv| && inv[k].id >= 0
    requires st.entry == Entry(NatToString(inv[k].id), Some(q), Some(c))
    ensures var once := AddItem(st, inv);
      var twice := AddItem(once.(entry := st.entry), inv);
      |twice.items| == |st.items| + 2
  {
    ParseIntOfToString(inv[k].id);
  }
}
