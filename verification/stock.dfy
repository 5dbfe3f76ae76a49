/** The inventory ledger of App.tsx: looking a product up by id, the clamped
    quantity adjustment setInventory applies for a sale, and the seed catalogue. */
module Stock {
  import opened Types
  import opened Seqs

  /** Math.max(0, x). */
  function Floor0(x: int): (r: int)
    ensures r >= 0 && r >= x
    ensures x >= 0 ==> r == x
    ensures x < 0 ==> r == 0
  {
    if x < 0 then 0 else x
  }

  function HasItemId(id: string): InventoryItem -> bool
  {
    (i: InventoryItem) => i.id == id
  }

  /** inventory.find(i => i.id === id). */
  function FindItem(inv: seq<InventoryItem>, id: string): (r: Option<InventoryItem>)
    ensures r.Some? ==> r.value in inv && r.value.id == id
    ensures r.None? <==> forall i :: 0 <= i < |inv| ==> inv[i].id != id
    ensures r.Some? ==> exists i :: 0 <= i < |inv| && inv[i] == r.value && forall j :: 0 <= j < i ==> inv[j].id != id
  {
    Find(inv, HasItemId(id))
  }

  /** The ids of an inventory, in order. */
  function ItemIds(inv: seq<InventoryItem>): (r: seq<string>)
    ensures |r| == |inv| && forall i :: 0 <= i < |inv| ==> r[i] == inv[i].id
  {
    if inv == [] then [] else [inv[0].id] + ItemIds(inv[1..])
  }

  function AdjustItem(item: InventoryItem, id: string, delta: int): InventoryItem
  {
    if item.id == id then item.(quantity := Floor0(item.quantity + delta)) else item
  }

  /** prev.map(item => item.id === id ? { ...item, quantity: Math.max(0, item.quantity + delta) } : item). */
  function Adjust(inv: seq<InventoryItem>, id: string, delta: int): (r: seq<InventoryItem>)
    ensures |r| == |inv|
  {
    seq(|inv|, i requires 0 <= i < |inv| => AdjustItem(inv[i], id, delta))
  }

  /** Every item with the id gets its stock moved by delta and clamped at zero; every
      other item, the length and the order stay as they were. */
  lemma AdjustSpec(inv: seq<InventoryItem>, id: string, delta: int)
    ensures forall i :: 0 <= i < |inv| && inv[i].id != id ==> Adjust(inv, id, delta)[i] == inv[i]
    ensures forall i :: 0 <= i < |inv| && inv[i].id == id ==>
      Adjust(inv, id, delta)[i] == inv[i].(quantity := Floor0(inv[i].quantity + delta))
    ensures ItemIds(Adjust(inv, id, delta)) == ItemIds(inv)
    ensures StockNonNegative(inv) ==> StockNonNegative(Adjust(inv, id, delta))
  {
  }

  /** Items are found in an adjusted inventory exactly when they were found before. */
  lemma AdjustKeepsLookup(inv: seq<InventoryItem>, id: string, delta: int, key: string)
    ensures FindItem(Adjust(inv, id, delta), key).Some? <==> FindItem(inv, key).Some?
  {
    var r := Adjust(inv, id, delta);
    AdjustSpec(inv, id, delta);
    assert forall i :: 0 <= i < |inv| ==> r[i].id == inv[i].id;
  }

  /** Consuming n and then restocking n is the identity when no consumed item was clamped. */
  lemma ConsumeThenRestock(inv: seq<InventoryItem>, id: string, n: int)
    requires StockNonNegative(inv)
    requires forall i :: 0 <= i < |inv| && inv[i].id == id ==> n <= inv[i].quantity
    ensures Adjust(Adjust(inv, id, -n), id, n) == inv
  {
    var r := Adjust(Adjust(inv, id, -n), id, n);
    AdjustSpec(inv, id, -n);
    AdjustSpec(Adjust(inv, id, -n), id, n);
    assert forall i :: 0 <= i < |inv| ==> r[i] == inv[i];
  }

  /** A restock by a > 0 followed by a consumption by b equals one clamped net adjustment by
      a - b: on non-negative stock the restock never clamps. */
  lemma RestockThenConsume(inv: seq<InventoryItem>, id: string, a: int, b: int)
    requires StockNonNegative(inv) && a >= 0
    ensures Adjust(Adjust(inv, id, a), id, -b) == Adjust(inv, id, a - b)
  {
    var r := Adjust(Adjust(inv, id, a), id, -b);
    var t := Adjust(inv, id, a - b);
    AdjustSpec(inv, id, a);
    AdjustSpec(Adjust(inv, id, a), id, -b);
    AdjustSpec(inv, id, a - b);
    assert forall i :: 0 <= i < |inv| ==> r[i] == t[i];
  }

  /** An adjustment by zero changes nothing on non-negative stock. */
  lemma AdjustZero(inv: seq<InventoryItem>, id: string)
    requires StockNonNegative(inv)
    ensures Adjust(inv, id, 0) == inv
  {
    var r := Adjust(inv, id, 0);
    AdjustSpec(inv, id, 0);
    assert forall i :: 0 <= i < |r| ==> r[i] == inv[i];
  }

  /** Restocking a non-negative stock never clamps. */
  lemma RestockNeverClamps(inv: seq<InventoryItem>, id: string, n: int)
    requires StockNonNegative(inv) && n >= 0
    ensures forall i :: 0 <= i < |inv| && inv[i].id == id ==>
      Adjust(inv, id, n)[i].quantity == inv[i].quantity + n
  {
    AdjustSpec(inv, id, n);
  }

  /** The two products of the initial catalogue (prices in cents). */
  function SeedInventory(): (r: seq<InventoryItem>)
    ensures |r| == 2 && r[0].id != r[1].id
    ensures StockNonNegative(r)
    ensures forall i :: 0 <= i < |r| ==> r[i].unitPrice > 0 && r[i].unitCost > 0
  {
    [ InventoryItem("p1", "Camarão Rosa G", "CAM-RG", 50, 10, 8500, 4500, "Frutos do Mar"),
      InventoryItem("p2", "Carne de Sol Especial", "CS-ESP", 30, 5, 6500, 3500, "Carnes") ]
  }

  /** Consuming 1000 units of a 50-unit item leaves 0, silently. */
  lemma ClampScenario()
    ensures Adjust(SeedInventory(), "p1", -1000)[0].quantity == 0
  {
    AdjustSpec(SeedInventory(), "p1", -1000);
  }
}
