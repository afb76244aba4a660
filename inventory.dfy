/**
 * The stock ledger: recording a purchase invoice adds each line's quantity to the
 * stock of the first inventory item carrying the line's item id.
 */
module Inventory {
  import opened Wrappers
  import opened Domain
  import opened Seqs

  function FirstWithId(inv: seq<InventoryItem>, id: int): (r: Option<nat>)
    ensures r.Some? ==> r.value < |inv| && inv[r.value].id == id
    ensures r.Some? ==> forall j :: 0 <= j < r.value ==> inv[j].id != id
    ensures r.None? <==> forall i :: 0 <= i < |inv| ==> inv[i].id != id
  {
    FindIndex(inv, (it: InventoryItem) => it.id == id)
  }

  /** One invoice line: the first item with the line's id gains its quantity; no match changes nothing. */
  function Restock(inv: seq<InventoryItem>, line: PurchaseItem): (r: seq<InventoryItem>)
    ensures |r| == |inv|
    ensures forall i :: 0 <= i < |inv| ==> r[i] == inv[i].(stock := r[i].stock)
  {
    match FirstWithId(inv, line.inventoryItemId)
    case None => inv
    case Some(k) => inv[k := inv[k].(stock := inv[k].stock + line.quantity)]
  }

  /** The effect of a whole invoice, line after line. */
  function ApplyLines(inv: seq<InventoryItem>, lines: seq<PurchaseItem>): (r: seq<InventoryItem>)
    ensures |r| == |inv|
    ensures forall i :: 0 <= i < |inv| ==> r[i] == inv[i].(stock := r[i].stock)
  {
    if lines == [] then inv
    else Restock(ApplyLines(inv, lines[..|lines| - 1]), lines[|lines| - 1])
  }

  /** The updating loop: one pass over the invoice lines on a copy of the inventory. */
  method RestockAll(inv: seq<InventoryItem>, lines: seq<PurchaseItem>) returns (r: seq<InventoryItem>)
    ensures r == ApplyLines(inv, lines)
  {
    r := inv;
    var i := 0;
    while i < |lines|
      invariant 0 <= i <= |lines|
      invariant r == ApplyLines(inv, lines[..i])
    {
      var line := lines[i];
      ghost var before := r;
      var k := FirstWithId(r, line.inventoryItemId);
      if k.Some? {
        r := r[k.value := r[k.value].(stock := r[k.value].stock + line.quantity)];
      }
      LedgerStep(inv, lines, i, before, k, r);
      i := i + 1;
    }
    assert lines[..i] == lines;
  }

  lemma LedgerStep(inv: seq<InventoryItem>, lines: seq<PurchaseItem>, i: nat, before: seq<InventoryItem>, k: Option<nat>, r: seq<InventoryItem>)
    requires i < |lines| && before == ApplyLines(inv, lines[..i])
    requires k == FirstWithId(before, lines[i].inventoryItemId)
    requires k.None? ==> r == before
    requires k.Some? ==> r == before[k.value := before[k.value].(stock := before[k.value].stock + lines[i].quantity)]
    ensures r == ApplyLines(inv, lines[..i + 1])
  {
    RestockIs(before, lines[i], k, r);
    ApplyLinesStep(inv, lines, i);
  }

  lemma RestockIs(inv: seq<InventoryItem>, line: PurchaseItem, k: Option<nat>, r: seq<InventoryItem>)
    requires k == FirstWithId(inv, line.inventoryItemId)
    requires k.None? ==> r == inv
    requires k.Some? ==> r == inv[k.value := inv[k.value].(stock := inv[k.value].stock + line.quantity)]
    ensures r == Restock(inv, line)
  {
  }

  lemma ApplyLinesStep(inv: seq<InventoryItem>, lines: seq<PurchaseItem>, i: nat)
    requires i < |lines|
    ensures ApplyLines(inv, lines[..i + 1]) == Restock(ApplyLines(inv, lines[..i]), lines[i])
  {
    assert lines[..i + 1][..i] == lines[..i];
  }

  /** The quantity an invoice brings for one item id: the sum over its lines with that id. */
  function QuantityFor(lines: seq<PurchaseItem>, id: int): int
  {
    SumOf(lines, (l: PurchaseItem) => if l.inventoryItemId == id then l.quantity else 0)
  }

  /** The item at index `i` is the one the ledger credits for its id. */
  predicate IsFirstWithId(inv: seq<InventoryItem>, i: nat)
    requires i < |inv|
  {
    forall j :: 0 <= j < i ==> inv[j].id != inv[i].id
  }

  /**
   * After an invoice, the first item with each id has gained the quantities of all
   * lines with that id; a later item with a repeated id, and every other field of
   * every item, is as before; lines matching no item change nothing.
   */
  lemma {:induction false} ApplyLinesStock(inv: seq<InventoryItem>, lines: seq<PurchaseItem>, i: nat)
    requires i < |inv|
    ensures ApplyLines(inv, lines)[i].stock ==
      inv[i].stock + (if IsFirstWithId(inv, i) then QuantityFor(lines, inv[i].id) else 0)
    decreases |lines|
  {
    if lines != [] {
      var prefix, last := lines[..|lines| - 1], lines[|lines| - 1];
      var mid := ApplyLines(inv, prefix);
      ApplyLinesStock(inv, prefix, i);
      assert forall j :: 0 <= j < |inv| ==> mid[j].id == inv[j].id;
      var k := FirstWithId(mid, last.inventoryItemId);
      if k.Some? && k.value == i {
        assert IsFirstWithId(inv, i);
      }
    }
  }

  /** Two lines for the same item add up. */
  lemma RepeatedLinesAccumulate(inv: seq<InventoryItem>, a: PurchaseItem, b: PurchaseItem, i: nat)
    requires i < |inv| && IsFirstWithId(inv, i)
    requires a.inventoryItemId == inv[i].id && b.inventoryItemId == inv[i].id
    ensures ApplyLines(inv, [a, b])[i].stock == inv[i].stock + a.quantity + b.quantity
  {
    ApplyLinesStock(inv, [a, b], i);
    QuantityForPair(a, b);
  }

  lemma QuantityForPair(a: PurchaseItem, b: PurchaseItem)
    requires a.inventoryItemId == b.inventoryItemId
    ensures QuantityFor([a, b], a.inventoryItemId) == a.quantity + b.quantity
  {
    var f := (l: PurchaseItem) => if l.inventoryItemId == a.inventoryItemId then l.quantity else 0;
    assert [a, b][..1] == [a];
    assert [a][..0] == [];
    assert SumOf([a], f) == a.quantity;
  }

  /** The order of an invoice's lines does not matter. */
  lemma LinesOrderIrrelevant(inv: seq<InventoryItem>, l1: seq<PurchaseItem>, l2: seq<PurchaseItem>)
    requires multiset(l1) == multiset(l2)
    ensures ApplyLines(inv, l1) == ApplyLines(inv, l2)
  {
    var x, y := ApplyLines(inv, l1), ApplyLines(inv, l2);
    forall j | 0 <= j < |inv| ensures x[j] == y[j] {
      ApplyLinesStock(inv, l1, j);
      ApplyLinesStock(inv, l2, j);
      SumOfPermutation(l1, l2, (l: PurchaseItem) => if l.inventoryItemId == inv[j].id then l.quantity else 0);
    }
  }

  /** An invoice whose lines name no inventory item leaves the stock as it was. */
  lemma UnmatchedLinesChangeNothing(inv: seq<InventoryItem>, lines: seq<PurchaseItem>)
    requires forall l, i :: l in lines && 0 <= i < |inv| ==> l.inventoryItemId != inv[i].id
    ensures ApplyLines(inv, lines) == inv
  {
    var r := ApplyLines(inv, lines);
    forall i | 0 <= i < |inv| ensures r[i] == inv[i] {
      ApplyLinesStock(inv, lines, i);
      QuantityForNone(lines, inv[i].id);
    }
  }

  lemma {:induction false} QuantityForNone(lines: seq<PurchaseItem>, id: int)
    requires forall l :: l in lines ==> l.inventoryItemId != id
    ensures QuantityFor(lines, id) == 0
  {
    if lines != [] {
      QuantityForNone(lines[..|lines| - 1], id);
    }
  }
}
