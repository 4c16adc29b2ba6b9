/** What the operations do to an order, spelled out field by field: which rows, in which table, at which location. */
module OrderFields {
  import opened Orders
  import opened StockTables
  import opened InventoryDb
  import opened OrderStorage
  import opened OrderEngine
  import opened OrderPass

  /** The row of a place. */
  function RowAt(place: Place, location: int, name: string): Key {
    Key(if place == Hub then Hubs else Warehouses, location, name)
  }

  predicate HasRows(place: Place) {
    place == Hub || place == Warehouse
  }

  /** `realTimeUpdate` takes the quantity from the row of the source, if that row holds it, and then gives it to the row of
    * the destination, if that row exists and has room; every other row stays as it is. When both are the same row, the two
    * cancel out.
    */
  lemma TransferByField(s: Stock, source: Place, a: int, destination: Place, b: int, verb: Verb, id: Option<int>, name: string, q: int,
                        debitFault: bool, creditFault: bool)
    requires InRange(s) && q > 0
    ensures var t := Transfer(s, FullOrder(source, a, destination, b, verb, id, name, q), debitFault, creditFault).0;
            var (from, to) := (RowAt(source, a, name), RowAt(destination, b, name));
            var debited := HasRows(source) && !debitFault && from in s && s[from] >= q;
            var credited := debited && HasRows(destination) && !creditFault && to in s && (to == from || s[to] + q <= MAX_INT);
            && t.Keys == s.Keys
            && forall k <- s :: t[k] == s[k] - (if debited && k == from then q else 0) + (if credited && k == to then q else 0)
  {
    var o := FullOrder(source, a, destination, b, verb, id, name, q);
    assert o.Src() == Source(source, Some(a)) && o.Dst() == Destination(destination, b) && o.Prod() == Product(id, name, q);
    assert SourceKey(o) == if HasRows(source) then Some(RowAt(source, a, name)) else None;
    assert CreditKey(o) == if HasRows(destination) then Some(RowAt(destination, b, name)) else None;
  }

  /** The stock check reads the row of the source. */
  lemma CheckByField(s: Stock, source: Place, a: int, destination: Place, b: int, verb: Verb, id: Option<int>, name: string, q: int, fault: bool)
    ensures CheckProductStock(FullOrder(source, a, destination, b, verb, id, name, q), s, fault) <==>
              HasRows(source) && name != "" && q > 0 && !fault && RowAt(source, a, name) in s && s[RowAt(source, a, name)] >= q
  {
    var o := FullOrder(source, a, destination, b, verb, id, name, q);
    assert o.Src() == Source(source, Some(a)) && o.Prod() == Product(id, name, q);
    assert SourceKey(o) == if HasRows(source) then Some(RowAt(source, a, name)) else None;
  }

  /** An order without a source location or without a product is never found in stock. */
  lemma CheckOfIncomplete(s: Stock, o: Order, fault: bool)
    requires o.info.None? || o.info.value.source.location.None? || o.info.value.action.None? || o.info.value.action.value.product.None?
    ensures !CheckProductStock(o, s, fault)
  {
  }

  /** The stock-level checks look at the row of a warehouse source and no other: the alert at 200 or less, the restock to
    * 1000 at 100 or less, unless the row cannot be read or written.
    */
  lemma LevelsByField(s: Stock, source: Place, a: int, destination: Place, b: int, verb: Verb, id: Option<int>, name: string, q: int,
                      readFault: bool, writeFault: bool)
    requires InRange(s)
    ensures var o := FullOrder(source, a, destination, b, verb, id, name, q);
            var k := Key(Warehouses, a, name);
            var (t, returned) := Replenish(s, o, readFault, writeFault);
            && (IsLow(s, o, readFault) <==> source == Warehouse && !readFault && k in s && s[k] <= 200)
            && t == (if source == Warehouse && !readFault && !writeFault && k in s && s[k] <= 100 then s[k := 1000] else s)
            && (returned <==> source == Warehouse && !readFault && k in s && (s[k] > 100 || !writeFault))
            && (Unconvertible(o) <==> source == Warehouse && id == None)
  {
    var o := FullOrder(source, a, destination, b, verb, id, name, q);
    assert o.Src() == Source(source, Some(a)) && o.Prod() == Product(id, name, q);
    assert source == Warehouse ==> SourceKey(o) == Some(Key(Warehouses, a, name));
  }

  /** A warehouse order without a location cannot be converted either, and no other order fails to be. */
  lemma ConversionFailsIff(o: Order)
    ensures Unconvertible(o) <==>
              o.info.Some? && o.info.value.source.place == Warehouse
              && (o.info.value.source.location == None || o.Act().product == None || o.Act().product.value.id == None)
  {
  }

  /** Storing an order raises the total of its product by its quantity, when it has a name and a positive quantity, and no other. */
  lemma RecordByField(l: Ledger, source: Place, a: int, destination: Place, b: int, verb: Verb, id: Option<int>, name: string, q: int)
    ensures var m := Doc(FullOrder(source, a, destination, b, verb, id, name, q));
            var r := Record(l, m);
            && r.orders == l.orders + [m]
            && (if name != "" && q > 0 then
                  r.quantities.Keys == l.quantities.Keys + {name}
                  && r.quantities[name] == (if name in l.quantities then l.quantities[name] else 0) + q
                  && forall p <- l.quantities :: p != name ==> r.quantities[p] == l.quantities[p]
                else r.quantities == l.quantities)
  {
    assert FullOrder(source, a, destination, b, verb, id, name, q).Prod() == Product(id, name, q);
  }

  /** Text that does not parse is stored and counts for nothing. */
  lemma RecordOfUnparseable(l: Ledger)
    ensures Record(l, Unparseable) == Ledger(l.orders + [Unparseable], l.quantities)
  {
  }
}
