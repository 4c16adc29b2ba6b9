/** The two inventory tables: as one map from keys to quantities, which is how the rest of
  * the model sees them, and as the rows that the stored procedures scan.
  */
module StockTables {
  import opened Orders

  datatype Table = Hubs | Warehouses

  datatype Key = Key(table: Table, id: int, product: string)

  type Stock = map<Key, int>

  /** The row an order takes from; a source that is neither a hub nor a warehouse has none. */
  function SourceKey(o: Order): Option<Key> {
    var id := if o.Src().location.Some? then o.Src().location.value else 0;
    match o.Src().place
    case Hub => Some(Key(Hubs, id, o.Prod().name))
    case Warehouse => Some(Key(Warehouses, id, o.Prod().name))
    case _ => None
  }

  /** The row an order delivers to; goods for any other destination leave the system. */
  function CreditKey(o: Order): Option<Key> {
    match o.Dst().place
    case Hub => Some(Key(Hubs, o.Dst().location, o.Prod().name))
    case Warehouse => Some(Key(Warehouses, o.Dst().location, o.Prod().name))
    case _ => None
  }

  /** The getters: -1 for a missing row and for a failed statement. */
  function Read(s: Stock, k: Key, fault: bool): int {
    if !fault && k in s then s[k] else -1
  }

  /** An UPDATE through its wrapper: the tables after it and the 1 or -1 the wrapper returns. */
  function Update(s: Stock, k: Key, delta: int, fault: bool): (Stock, int) {
    if !fault && delta != 0 && k in s && 0 <= s[k] + delta <= MAX_INT then (s[k := s[k] + delta], 1) else (s, -1)
  }

  /** An UPDATE of the row an order names, if it names one. */
  function UpdateAt(s: Stock, k: Option<Key>, delta: int, fault: bool): (Stock, int) {
    if k.Some? then Update(s, k.value, delta, fault) else (s, 0)
  }

  predicate InRange(s: Stock) {
    forall k <- s :: 0 <= s[k] <= MAX_INT
  }

  // ---------- rows ----------

  datatype Row = Row(id: int, product: string, quantity: int)

  predicate SameKey(a: Row, b: Row) {
    a.id == b.id && a.product == b.product
  }

  predicate UniqueKeys(rows: seq<Row>) {
    forall i, j :: 0 <= i < j < |rows| ==> !SameKey(rows[i], rows[j])
  }

  /** The WHERE clause of both UPDATE procedures. */
  predicate Hit(r: Row, id: int, product: string, delta: int) {
    r.id == id && r.product == product && r.quantity + delta >= 0
  }

  function KeyOf(table: Table, r: Row): Key {
    Key(table, r.id, r.product)
  }

  /** The map a table stands for. */
  function View(table: Table, rows: seq<Row>): Stock {
    if rows == [] then map[] else View(table, rows[..|rows| - 1])[KeyOf(table, rows[|rows| - 1]) := rows[|rows| - 1].quantity]
  }

  lemma {:induction false} ViewAt(table: Table, rows: seq<Row>, k: Key)
    requires UniqueKeys(rows)
    ensures k in View(table, rows) <==> exists i :: 0 <= i < |rows| && KeyOf(table, rows[i]) == k
    ensures forall i :: 0 <= i < |rows| && KeyOf(table, rows[i]) == k ==> View(table, rows)[k] == rows[i].quantity
  {
    if rows != [] {
      var front := rows[..|rows| - 1];
      ViewAt(table, front, k);
      assert forall i :: 0 <= i < |front| ==> rows[i] == front[i] && !SameKey(rows[i], rows[|rows| - 1]);
      if k in View(table, rows) && k != KeyOf(table, rows[|rows| - 1]) {
        var i :| 0 <= i < |front| && KeyOf(table, front[i]) == k;
        assert KeyOf(table, rows[i]) == k;
      }
    }
  }

  /** What one UPDATE leaves of a row. */
  function Touched(r: Row, id: int, product: string, delta: int): Row {
    if Hit(r, id, product, delta) then r.(quantity := r.quantity + delta) else r
  }

  /** Rows an UPDATE changes; a row set to the value it had is not counted. */
  function Changed(rows: seq<Row>, id: int, product: string, delta: int): nat {
    if rows == [] || delta == 0 then 0
    else Changed(rows[..|rows| - 1], id, product, delta) + if Hit(rows[|rows| - 1], id, product, delta) then 1 else 0
  }

  /** The UPDATE of both procedures. A value beyond the column's range fails the statement, and a failed
    * statement is rolled back.
    */
  method UpdateRows(rows: seq<Row>, id: int, product: string, delta: int) returns (next: seq<Row>, affected: nat, failed: bool)
    ensures failed <==> exists i :: 0 <= i < |rows| && Hit(rows[i], id, product, delta) && rows[i].quantity + delta > MAX_INT
    ensures failed ==> next == rows && affected == 0
    ensures !failed ==> |next| == |rows| && affected == Changed(rows, id, product, delta)
    ensures !failed ==> forall i :: 0 <= i < |rows| ==> next[i] == Touched(rows[i], id, product, delta)
  {
    next, affected, failed := [], 0, false;
    for n := 0 to |rows|
      invariant |next| == n
      invariant forall i :: 0 <= i < n ==> next[i] == Touched(rows[i], id, product, delta)
      invariant forall i :: 0 <= i < n ==> !(Hit(rows[i], id, product, delta) && rows[i].quantity + delta > MAX_INT)
      invariant affected == Changed(rows[..n], id, product, delta)
    {
      var r := rows[n];
      assert rows[..n + 1][..n] == rows[..n];
      if Hit(r, id, product, delta) {
        if r.quantity + delta > MAX_INT {
          return rows, 0, true;
        }
        r := r.(quantity := r.quantity + delta);
        if delta != 0 {
          affected := affected + 1;
        }
      }
      next := next + [r];
    }
    assert rows[..|rows|] == rows;
  }

  lemma {:induction false} NoneChanged(rows: seq<Row>, id: int, product: string, delta: int)
    requires forall i :: 0 <= i < |rows| ==> !Hit(rows[i], id, product, delta)
    ensures Changed(rows, id, product, delta) == 0
  {
    if rows != [] {
      NoneChanged(rows[..|rows| - 1], id, product, delta);
    }
  }

  /** With unique keys, an UPDATE changes at most one row. */
  lemma {:induction false} ChangedIsHit(rows: seq<Row>, id: int, product: string, delta: int)
    requires UniqueKeys(rows) && delta != 0
    ensures Changed(rows, id, product, delta) == if exists i :: 0 <= i < |rows| && Hit(rows[i], id, product, delta) then 1 else 0
  {
    if rows != [] {
      var n := |rows| - 1;
      if Hit(rows[n], id, product, delta) {
        forall i | 0 <= i < n ensures !Hit(rows[i], id, product, delta) {
          assert !SameKey(rows[i], rows[n]);
        }
        NoneChanged(rows[..n], id, product, delta);
      } else {
        ChangedIsHit(rows[..n], id, product, delta);
        if exists i :: 0 <= i < |rows| && Hit(rows[i], id, product, delta) {
          var i :| 0 <= i < |rows| && Hit(rows[i], id, product, delta);
          assert Hit(rows[..n][i], id, product, delta);
        }
      }
    }
  }

  /** A scan adds and removes no keys, and changes only the row it hits. */
  lemma ScanAt(table: Table, rows: seq<Row>, next: seq<Row>, id: int, product: string, delta: int, k: Key)
    requires UniqueKeys(rows) && UniqueKeys(next) && |next| == |rows|
    requires forall i :: 0 <= i < |rows| ==> next[i] == Touched(rows[i], id, product, delta)
    ensures k in View(table, next) <==> k in View(table, rows)
    ensures k in View(table, rows) ==>
              View(table, next)[k] == View(table, rows)[k]
              + if k == Key(table, id, product) && View(table, rows)[k] + delta >= 0 then delta else 0
  {
    ViewAt(table, rows, k);
    ViewAt(table, next, k);
    assert forall i :: 0 <= i < |rows| ==> KeyOf(table, rows[i]) == KeyOf(table, next[i]);
  }

  lemma ScanView(table: Table, rows: seq<Row>, next: seq<Row>, id: int, product: string, delta: int)
    requires UniqueKeys(rows) && UniqueKeys(next) && |next| == |rows|
    requires forall i :: 0 <= i < |rows| ==> next[i] == Touched(rows[i], id, product, delta)
    ensures var (before, k) := (View(table, rows), Key(table, id, product));
            View(table, next) == if k in before && before[k] + delta >= 0 then before[k := before[k] + delta] else before
  {
    var before, k := View(table, rows), Key(table, id, product);
    var after := if k in before && before[k] + delta >= 0 then before[k := before[k] + delta] else before;
    forall j ensures (j in View(table, next) <==> j in after) && (j in after ==> View(table, next)[j] == after[j]) {
      ScanAt(table, rows, next, id, product, delta, j);
    }
    assert View(table, next) == after;
  }

  /** Some row is hit exactly when the map holds the key with enough. */
  lemma HitIsKey(table: Table, rows: seq<Row>, id: int, product: string, delta: int)
    requires UniqueKeys(rows)
    ensures var (before, k) := (View(table, rows), Key(table, id, product));
            && ((exists i :: 0 <= i < |rows| && Hit(rows[i], id, product, delta)) <==> k in before && before[k] + delta >= 0)
            && (forall i :: 0 <= i < |rows| && Hit(rows[i], id, product, delta) ==> before[k] == rows[i].quantity)
  {
    ViewAt(table, rows, Key(table, id, product));
    if Key(table, id, product) in View(table, rows) {
      var i :| 0 <= i < |rows| && KeyOf(table, rows[i]) == Key(table, id, product);
      assert Hit(rows[i], id, product, delta) <==> View(table, rows)[Key(table, id, product)] + delta >= 0;
    }
  }

  lemma ScanKeepsKeys(rows: seq<Row>, next: seq<Row>, id: int, product: string, delta: int)
    requires UniqueKeys(rows) && |next| == |rows|
    requires forall i :: 0 <= i < |rows| ==> next[i] == Touched(rows[i], id, product, delta)
    ensures UniqueKeys(next)
  {
    assert forall i :: 0 <= i < |rows| ==> SameKey(rows[i], next[i]);
  }

  /** Rows were changed exactly when the map holds the key with enough, and the amount is not 0. */
  lemma ChangedIsKey(table: Table, rows: seq<Row>, id: int, product: string, delta: int)
    requires UniqueKeys(rows)
    requires forall i :: 0 <= i < |rows| && Hit(rows[i], id, product, delta) ==> rows[i].quantity + delta <= MAX_INT
    ensures var (before, k) := (View(table, rows), Key(table, id, product));
            && (Changed(rows, id, product, delta) > 0 <==> delta != 0 && k in before && before[k] + delta >= 0)
            && (k in before && before[k] + delta >= 0 ==> before[k] + delta <= MAX_INT)
  {
    HitIsKey(table, rows, id, product, delta);
    if delta != 0 {
      ChangedIsHit(rows, id, product, delta);
    }
  }

  /** The scan refines the update of a single key: uniqueness is kept, and rows were
    * changed exactly when the map changed at that key, by exactly that amount.
    */
  lemma ScanIsKeyUpdate(table: Table, rows: seq<Row>, next: seq<Row>, id: int, product: string, delta: int)
    requires UniqueKeys(rows) && |next| == |rows|
    requires forall i :: 0 <= i < |rows| ==> next[i] == Touched(rows[i], id, product, delta)
    requires forall i :: 0 <= i < |rows| && Hit(rows[i], id, product, delta) ==> rows[i].quantity + delta <= MAX_INT
    ensures UniqueKeys(next)
    ensures (View(table, next), if Changed(rows, id, product, delta) > 0 then 1 else -1)
            == Update(View(table, rows), Key(table, id, product), delta, false)
  {
    ScanKeepsKeys(rows, next, id, product, delta);
    ScanView(table, rows, next, id, product, delta);
    ChangedIsKey(table, rows, id, product, delta);
    WriteIsUpdate(View(table, rows), Key(table, id, product), delta);
  }

  lemma WriteIsUpdate(s: Stock, k: Key, delta: int)
    requires k in s && s[k] + delta >= 0 ==> s[k] + delta <= MAX_INT
    ensures Update(s, k, delta, false).0 == if k in s && s[k] + delta >= 0 then s[k := s[k] + delta] else s
  {
    if k in s && delta == 0 {
      assert s[k := s[k]] == s;
    }
  }

  /** The statement that fails on range leaves the tables as `Update` does. */
  lemma RangeFailureIsKeyUpdate(table: Table, rows: seq<Row>, id: int, product: string, delta: int)
    requires UniqueKeys(rows)
    requires exists i :: 0 <= i < |rows| && Hit(rows[i], id, product, delta) && rows[i].quantity + delta > MAX_INT
    ensures Update(View(table, rows), Key(table, id, product), delta, false) == (View(table, rows), -1)
  {
    ViewAt(table, rows, Key(table, id, product));
  }

  /** The SELECT of both getters finds what the map holds. */
  method SelectQuantity(rows: seq<Row>, id: int, product: string) returns (r: Option<int>)
    ensures r.Some? ==> exists i :: 0 <= i < |rows| && rows[i].id == id && rows[i].product == product && rows[i].quantity == r.value
    ensures r.None? ==> forall i :: 0 <= i < |rows| ==> !(rows[i].id == id && rows[i].product == product)
  {
    for n := 0 to |rows|
      invariant forall i :: 0 <= i < n ==> !(rows[i].id == id && rows[i].product == product)
    {
      if rows[n].id == id && rows[n].product == product {
        return Some(rows[n].quantity);
      }
    }
    return None;
  }
}
