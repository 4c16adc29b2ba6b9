/** The database access layer (database/inventoryDb.cpp) over the two tables.
  *
  * `fault` on a statement stands for any exception of the driver; such a statement changes nothing.
  */
module InventoryDb {
  import opened Orders
  import opened StockTables

  /** What `realTimeUpdate` does to the tables and the value it returns: a debit, then a credit that nothing links to it. */
  function Transfer(s: Stock, o: Order, debitFault: bool, creditFault: bool): (Stock, int) {
    var (debited, result) := UpdateAt(s, SourceKey(o), -o.Prod().quantity, debitFault);
    if result <= 0 || CreditKey(o).None? then (debited, result)
    else UpdateAt(debited, CreditKey(o), o.Prod().quantity, creditFault)
  }

  /** The header promises 1 on success and 0 on failure. 1 is success, but a failed update returns -1 and never 0;
    * `realTimeUpdate` returns 0 exactly when the source names no row.
    */
  lemma FailureIsMinusOne(s: Stock, k: Key, delta: int, o: Order, debitFault: bool, creditFault: bool)
    ensures Update(s, k, delta, debitFault).1 == if Update(s, k, delta, debitFault).0 != s then 1 else -1
    ensures Transfer(s, o, debitFault, creditFault).1 in {1, 0, -1}
    ensures Transfer(s, o, debitFault, creditFault).1 == 0 <==> SourceKey(o).None?
  {
    if Update(s, k, delta, debitFault).1 == 1 {
      assert s[k := s[k] + delta][k] != s[k];
    }
  }

  /** Each row of the product at the place moves by the amount, unless that took it below 0; all others stay. */
  predicate Scanned(before: seq<Row>, after: seq<Row>, id: int, product: string, delta: int) {
    && |after| == |before|
    && forall i :: 0 <= i < |before| ==>
         after[i] == if before[i].id == id && before[i].product == product && before[i].quantity + delta >= 0
                     then before[i].(quantity := before[i].quantity + delta) else before[i]
  }

  class Database {
    var hubs: seq<Row>
    var warehouses: seq<Row>

    ghost predicate Valid()
      reads this
    {
      UniqueKeys(hubs) && UniqueKeys(warehouses)
    }

    ghost function Stock(): Stock
      reads this
    {
      View(Hubs, hubs) + View(Warehouses, warehouses)
    }

    constructor (hubs: seq<Row>, warehouses: seq<Row>)
      requires UniqueKeys(hubs) && UniqueKeys(warehouses)
      ensures Valid() && this.hubs == hubs && this.warehouses == warehouses
    {
      this.hubs := hubs;
      this.warehouses := warehouses;
    }

    method GetHubInventory(id: int, product: string, fault: bool) returns (quantity: int)
      requires Valid()
      ensures quantity == Read(Stock(), Key(Hubs, id, product), fault)
      ensures forall r <- hubs :: !fault && r.id == id && r.product == product ==> quantity == r.quantity
    {
      StockAt(hubs, warehouses, Key(Hubs, id, product));
      ViewAt(Hubs, hubs, Key(Hubs, id, product));
      if fault {
        return -1;
      }
      var row := SelectQuantity(hubs, id, product);
      return if row.Some? then row.value else -1;
    }

    method GetWarehouseInventory(id: int, product: string, fault: bool) returns (quantity: int)
      requires Valid()
      ensures quantity == Read(Stock(), Key(Warehouses, id, product), fault)
      ensures forall r <- warehouses :: !fault && r.id == id && r.product == product ==> quantity == r.quantity
    {
      StockAt(hubs, warehouses, Key(Warehouses, id, product));
      ViewAt(Warehouses, warehouses, Key(Warehouses, id, product));
      if fault {
        return -1;
      }
      var row := SelectQuantity(warehouses, id, product);
      return if row.Some? then row.value else -1;
    }

    method UpdateHubInventory(id: int, product: string, delta: int, fault: bool) returns (result: int)
      requires Valid()
      modifies this`hubs
      ensures Valid()
      ensures (Stock(), result) == Update(old(Stock()), Key(Hubs, id, product), delta, fault)
      ensures hubs == old(hubs) || Scanned(old(hubs), hubs, id, product, delta)
    {
      if fault {
        return -1;
      }
      var next, affected, failed := UpdateRows(hubs, id, product, delta);
      StockUpdate(hubs, warehouses, Key(Hubs, id, product), delta);
      if failed {
        RangeFailureIsKeyUpdate(Hubs, hubs, id, product, delta);
        return -1;
      }
      ScanIsKeyUpdate(Hubs, hubs, next, id, product, delta);
      hubs := next;
      return if affected > 0 then 1 else -1;
    }

    method UpdateWarehouseInventory(id: int, product: string, delta: int, fault: bool) returns (result: int)
      requires Valid()
      modifies this`warehouses
      ensures Valid()
      ensures (Stock(), result) == Update(old(Stock()), Key(Warehouses, id, product), delta, fault)
      ensures warehouses == old(warehouses) || Scanned(old(warehouses), warehouses, id, product, delta)
    {
      if fault {
        return -1;
      }
      var next, affected, failed := UpdateRows(warehouses, id, product, delta);
      StockUpdate(hubs, warehouses, Key(Warehouses, id, product), delta);
      if failed {
        RangeFailureIsKeyUpdate(Warehouses, warehouses, id, product, delta);
        return -1;
      }
      ScanIsKeyUpdate(Warehouses, warehouses, next, id, product, delta);
      warehouses := next;
      return if affected > 0 then 1 else -1;
    }

    method RealTimeUpdate(o: Order, debitFault: bool, creditFault: bool) returns (result: int)
      requires Valid()
      modifies this
      ensures Valid()
      ensures (Stock(), result) == Transfer(old(Stock()), o, debitFault, creditFault)
    {
      var source := if o.Src().location.Some? then o.Src().location.value else 0;
      var product, quantity := o.Prod().name, o.Prod().quantity;
      result := 0;
      if o.Src().place.Hub? {
        result := UpdateHubInventory(source, product, -quantity, debitFault);
      } else if o.Src().place.Warehouse? {
        result := UpdateWarehouseInventory(source, product, -quantity, debitFault);
      }
      if result > 0 {
        if o.Dst().place.Hub? {
          result := UpdateHubInventory(o.Dst().location, product, quantity, creditFault);
        } else if o.Dst().place.Warehouse? {
          result := UpdateWarehouseInventory(o.Dst().location, product, quantity, creditFault);
        }
      }
    }
  }

  /** Keys of one table never meet keys of the other. */
  lemma {:induction false} ViewTable(table: Table, rows: seq<Row>)
    ensures forall k <- View(table, rows) :: k.table == table
  {
    if rows != [] {
      ViewTable(table, rows[..|rows| - 1]);
    }
  }

  lemma StockAt(hubs: seq<Row>, warehouses: seq<Row>, k: Key)
    ensures var s := View(Hubs, hubs) + View(Warehouses, warehouses);
            var own := if k.table.Hubs? then View(Hubs, hubs) else View(Warehouses, warehouses);
            (k in s <==> k in own) && (k in own ==> s[k] == own[k])
  {
    ViewTable(Hubs, hubs);
    ViewTable(Warehouses, warehouses);
  }

  /** Updating a key of the whole stock is updating it in its own table. */
  lemma StockUpdate(hubs: seq<Row>, warehouses: seq<Row>, k: Key, delta: int)
    ensures var (h, w) := (View(Hubs, hubs), View(Warehouses, warehouses));
            Update(h + w, k, delta, false)
            == if k.table.Hubs? then (Update(h, k, delta, false).0 + w, Update(h, k, delta, false).1)
               else (h + Update(w, k, delta, false).0, Update(w, k, delta, false).1)
  {
    ViewTable(Hubs, hubs);
    ViewTable(Warehouses, warehouses);
    if k.table.Hubs? {
      UpdateOnLeft(View(Hubs, hubs), View(Warehouses, warehouses), k, delta);
    } else {
      UpdateOnRight(View(Hubs, hubs), View(Warehouses, warehouses), k, delta);
    }
  }

  lemma UpdateOnLeft(a: Stock, b: Stock, k: Key, delta: int)
    requires k !in b
    ensures Update(a + b, k, delta, false) == (Update(a, k, delta, false).0 + b, Update(a, k, delta, false).1)
  {
    if k in a {
      assert (a + b)[k := a[k] + delta] == a[k := a[k] + delta] + b;
    }
  }

  lemma UpdateOnRight(a: Stock, b: Stock, k: Key, delta: int)
    requires k !in a
    ensures Update(a + b, k, delta, false) == (a + Update(b, k, delta, false).0, Update(b, k, delta, false).1)
  {
    if k in b {
      assert (a + b)[k := b[k] + delta] == a + b[k := b[k] + delta];
    }
  }

  // ---------- the seed data ----------

  const PRODUCTS := ["Meat", "Water", "Medicines", "Weapons", "Clothes"]

  /** Both tables are seeded with ids 1 to 3 and the five products, all with the same quantity: 0 or, deployed, 1000. */
  function SeedRows(quantity: int): seq<Row> {
    seq(15, i requires 0 <= i < 15 => Row(1 + i / 5, PRODUCTS[i % 5], quantity))
  }

  /** The seeds meet what the theorems ask of a start: unique keys, and rows between 0 and 1000. */
  lemma SeedsAreSound(table: Table, quantity: int)
    ensures UniqueKeys(SeedRows(quantity))
    ensures forall k <- View(table, SeedRows(quantity)) :: View(table, SeedRows(quantity))[k] == quantity
  {
    var rows := SeedRows(quantity);
    forall i, j | 0 <= i < j < |rows| ensures !SameKey(rows[i], rows[j]) {
      if i % 5 != j % 5 {
        ProductsDiffer(i % 5, j % 5);
      } else {
        assert i == 5 * (i / 5) + i % 5 && j == 5 * (j / 5) + j % 5;
      }
    }
    forall k <- View(table, rows) ensures View(table, rows)[k] == quantity {
      ViewAt(table, rows, k);
    }
  }

  lemma ProductsDiffer(i: nat, j: nat)
    requires i < 5 && j < 5 && i != j
    ensures PRODUCTS[i] != PRODUCTS[j]
  {
    assert |PRODUCTS[0]| == 4 && |PRODUCTS[1]| == 5 && |PRODUCTS[2]| == 9 && |PRODUCTS[3]| == 7 && |PRODUCTS[4]| == 7;
    assert PRODUCTS[3][0] == 'W' && PRODUCTS[4][0] == 'C';
  }
}
