/** The checks around the debit, as they call the database
  * (src/common/anomalieHandler.cpp, src/common/lowStockChecker.cpp).
  */
module StockChecks {
  import opened Orders
  import opened StockTables
  import opened InventoryDb
  import opened OrderEngine
  import opened OrderPass

  /** The text last written to `alertOut`, reduced to what it announces. */
  datatype Alert = NoAlert | LowStock(productId: int, name: string) | Replenished(productId: int, name: string)

  method ProductInStock(db: Database, o: Order, fault: bool) returns (ok: bool)
    requires db.Valid()
    ensures ok == CheckProductStock(o, db.Stock(), fault)
  {
    if o.info.None? {
      return false;
    }
    if o.Src().place.NoPlace? || o.Src().location.None? {
      return false;
    }
    var sourceId := o.Src().location.value;
    if o.Act().product.None? {
      return false;
    }
    if o.Prod().name == "" || o.Prod().quantity <= 0 {
      return false;
    }
    var available := -1;
    if o.Src().place.Hub? {
      available := db.GetHubInventory(sourceId, o.Prod().name, fault);
    } else if o.Src().place.Warehouse? {
      available := db.GetWarehouseInventory(sourceId, o.Prod().name, fault);
    } else {
      return false;
    }
    if available < 0 {
      return false;
    }
    return available >= o.Prod().quantity;
  }

  method CheckLowStockAlert(db: Database, o: Order, alertIn: Alert, fault: bool) returns (low: bool, alertOut: Alert, crashed: bool)
    requires db.Valid()
    ensures crashed == Unconvertible(o)
    ensures low == (!crashed && IsLow(db.Stock(), o, fault))
    ensures alertOut == if low then LowStock(o.Prod().id.value, o.Prod().name) else alertIn
  {
    low, alertOut, crashed := false, alertIn, false;
    if !o.Src().place.Warehouse? {
      return;
    }
    if o.Src().location.None? || o.Prod().id.None? {
      crashed := true;
      return;
    }
    var current := db.GetWarehouseInventory(o.Src().location.value, o.Prod().name, fault);
    if current == -1 {
      return;
    }
    if current <= STOCK_THRESHOLD {
      alertOut := LowStock(o.Prod().id.value, o.Prod().name);
      low := true;
    }
  }

  /** An unchanged `alertOut` is what the server then sends as its re-stock alert. */
  method ReStock(db: Database, o: Order, alertIn: Alert, readFault: bool, writeFault: bool) returns (reStocked: bool, alertOut: Alert, crashed: bool)
    requires db.Valid()
    modifies db
    ensures db.Valid()
    ensures crashed == Unconvertible(o)
    ensures crashed ==> !reStocked && alertOut == alertIn && db.Stock() == old(db.Stock())
    ensures !crashed ==> (db.Stock(), reStocked) == Replenish(old(db.Stock()), o, readFault, writeFault)
    ensures alertOut == if db.Stock() != old(db.Stock()) then Replenished(o.Prod().id.value, o.Prod().name) else alertIn
  {
    reStocked, alertOut, crashed := false, alertIn, false;
    if !o.Src().place.Warehouse? {
      return;
    }
    if o.Src().location.None? || o.Prod().id.None? {
      crashed := true;
      return;
    }
    var current := db.GetWarehouseInventory(o.Src().location.value, o.Prod().name, readFault);
    if current == -1 {
      return;
    }
    var amountToRestock := MAX_CAPACITY - current;
    if current <= RESTOCK_THRESHOLD {
      var updateResult := db.UpdateWarehouseInventory(o.Src().location.value, o.Prod().name, amountToRestock, writeFault);
      if updateResult == 1 {
        alertOut := Replenished(o.Prod().id.value, o.Prod().name);
        reStocked := true;
      }
      return;
    }
    reStocked := true;
  }

  /** `reStock` is documented to return true when the product was restocked and false otherwise. It does so
    * exactly when the row it reads is not above the threshold; above it, it returns true and changes nothing.
    */
  lemma ReStockReportsTruthIff(s: Stock, o: Order, readFault: bool, writeFault: bool)
    requires !Unconvertible(o)
    ensures var (t, returned) := Replenish(s, o, readFault, writeFault);
            (returned <==> t != s) <==> !(o.Src().place.Warehouse? && Read(s, SourceKey(o).value, readFault) > RESTOCK_THRESHOLD)
  {
    if o.Src().place.Warehouse? && SourceKey(o).value in s && Replenish(s, o, readFault, writeFault).0 == s {
      assert s[SourceKey(o).value := MAX_CAPACITY][SourceKey(o).value] == MAX_CAPACITY;
    }
  }

  /** The documented percentages: with rows in range, the alert is raised exactly at a fifth of the capacity or less,
    * and the row is filled up exactly at a tenth or less, so a restock is always announced by an alert.
    */
  lemma LevelsArePercentages(s: Stock, o: Order)
    requires InRange(s) && o.Src().place.Warehouse?
    ensures var k := SourceKey(o).value;
            && (IsLow(s, o, false) <==> k in s && 100 * s[k] <= 20 * MAX_CAPACITY)
            && (Replenish(s, o, false, false).0 != s <==> k in s && 100 * s[k] <= 10 * MAX_CAPACITY)
            && (Replenish(s, o, false, false).0 != s ==> Replenish(s, o, false, false).0 == s[k := MAX_CAPACITY] && IsLow(s, o, false))
  {
    var k := SourceKey(o).value;
    if k in s && s[k] <= RESTOCK_THRESHOLD {
      assert s[k := MAX_CAPACITY][k] != s[k];
    }
  }
}
