/** The log of received orders and the running totals of the product report (src/common/orderStorage.cpp).
  *
  * Each operation runs under one mutex and is one atomic step here. Totals are unbounded integers;
  * `OverflowShowsInTotal` says when the C++ `int` would have overflowed.
  */
module OrderStorage {
  import opened Orders

  datatype Ledger = Ledger(orders: seq<Message>, quantities: map<string, int>)

  const EMPTY_LEDGER := Ledger([], map[])

  function Record(l: Ledger, m: Message): Ledger {
    if m.Doc? && m.order.Prod().name != "" && m.order.Prod().quantity > 0 then
      var (name, qty) := (m.order.Prod().name, m.order.Prod().quantity);
      Ledger(l.orders + [m], l.quantities[name := (if name in l.quantities then l.quantities[name] else 0) + qty])
    else
      l.(orders := l.orders + [m])
  }

  /** Reference: what the stored orders ask of a product, summed over the log. */
  function Asked(orders: seq<Message>, product: string): nat {
    if orders == [] then 0 else
    Asked(orders[..|orders| - 1], product)
    + if orders[|orders| - 1].Doc? then orders[|orders| - 1].order.Wanted(product) else 0
  }

  /** The report lists exactly the products that were asked for, each with its sum. */
  ghost predicate Agrees(l: Ledger) {
    forall p :: (p in l.quantities <==> Asked(l.orders, p) > 0) && (p in l.quantities ==> l.quantities[p] == Asked(l.orders, p))
  }

  lemma RecordKeepsAgreement(l: Ledger, m: Message)
    requires Agrees(l)
    ensures Agrees(Record(l, m))
    ensures forall p :: Asked(Record(l, m).orders, p) == Asked(l.orders, p) + if m.Doc? then m.order.Wanted(p) else 0
  {
    assert (l.orders + [m])[..|l.orders|] == l.orders;
  }

  datatype LedgerOp = Store(message: Message) | Clear

  function History(ops: seq<LedgerOp>): Ledger {
    if ops == [] then EMPTY_LEDGER
    else match ops[|ops| - 1]
      case Store(m) => Record(History(ops[..|ops| - 1]), m)
      case Clear => EMPTY_LEDGER
  }

  /** Whatever is stored and cleared, the report agrees with the log. */
  lemma {:induction false} ReportAgreesAlways(ops: seq<LedgerOp>)
    ensures Agrees(History(ops))
  {
    if ops != [] {
      ReportAgreesAlways(ops[..|ops| - 1]);
      if ops[|ops| - 1].Store? {
        RecordKeepsAgreement(History(ops[..|ops| - 1]), ops[|ops| - 1].message);
      }
    }
  }

  /** The log is what was stored since the last clear, in order. */
  lemma {:induction false} LogSinceClear(ops: seq<LedgerOp>, messages: seq<Message>)
    ensures History(ops + [Clear] + seq(|messages|, i requires 0 <= i < |messages| => Store(messages[i]))).orders == messages
  {
    var stores := seq(|messages|, i requires 0 <= i < |messages| => Store(messages[i]));
    if messages == [] {
      assert ops + [Clear] + stores == ops + [Clear];
    } else {
      var front := messages[..|messages| - 1];
      LogSinceClear(ops, front);
      assert (ops + [Clear] + stores)[..|ops| + |messages|] == ops + [Clear] + seq(|front|, i requires 0 <= i < |front| => Store(front[i]));
      assert front + [messages[|messages| - 1]] == messages;
    }
  }

  /** Every total on the way stays within `int` exactly when the last one does. */
  lemma {:induction false} OverflowShowsInTotal(orders: seq<Message>, product: string)
    ensures Asked(orders, product) <= MAX_INT <==> forall n :: 0 <= n <= |orders| ==> Asked(orders[..n], product) <= MAX_INT
  {
    assert orders[..|orders|] == orders;
    forall n | 0 <= n <= |orders| ensures Asked(orders[..n], product) <= Asked(orders, product) {
      AskedGrows(orders, n, product);
    }
  }

  lemma {:induction false} AskedGrows(orders: seq<Message>, n: nat, product: string)
    requires n <= |orders|
    ensures Asked(orders[..n], product) <= Asked(orders, product)
  {
    if n == |orders| {
      assert orders[..n] == orders;
    } else {
      AskedGrows(orders[..|orders| - 1], n, product);
      assert orders[..|orders| - 1][..n] == orders[..n];
    }
  }

  class Storage {
    var storedOrders: seq<Message>
    var productQuantities: map<string, int>

    ghost function Contents(): Ledger
      reads this
    {
      Ledger(storedOrders, productQuantities)
    }

    ghost predicate Valid()
      reads this
    {
      Agrees(Contents())
    }

    constructor ()
      ensures Valid() && Contents() == EMPTY_LEDGER
    {
      storedOrders := [];
      productQuantities := map[];
    }

    method StoreOrder(m: Message)
      requires Valid()
      modifies this
      ensures Valid() && Contents() == Record(old(Contents()), m)
    {
      ghost var after := Record(Contents(), m);
      RecordKeepsAgreement(Contents(), m);
      storedOrders := storedOrders + [m];
      if m.Doc? {
        var name, qty := m.order.Prod().name, m.order.Prod().quantity;
        if name != "" && qty > 0 {
          var sum := if name in productQuantities then productQuantities[name] else 0;
          productQuantities := productQuantities[name := sum + qty];
        }
      }
      assert Contents() == after;
    }

    method ClearStoredOrders()
      modifies this
      ensures Valid() && Contents() == EMPTY_LEDGER
    {
      storedOrders := [];
      productQuantities := map[];
    }
  }
}
