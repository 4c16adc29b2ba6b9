/** Why a server at rest is a stocked server: `reStock` keeps every warehouse row that orders draw on above its
  * threshold, however many handlers are at work (src/common/lowStockChecker.cpp).
  */
module StockFloor {
  import opened Orders
  import opened StockTables
  import opened OrderStorage
  import opened OrderEngine
  import opened EngineTotals
  import opened EngineAccounts
  import opened RestockRace

  /** Nothing fails: no statement and no reply. */
  predicate Smooth(a: Input) {
    a.Advance? ==> !a.fault && !a.lost
  }

  predicate WorksOn(h: Handler, k: Key) {
    !h.phase.Idle? && SourceKey(h.order) == Some(k)
  }

  /** The row is above the threshold, or somebody who took from it has yet to look at it. */
  ghost predicate Covered(s: State, k: Key) {
    k in s.stock && (s.stock[k] > RESTOCK_THRESHOLD || exists h <- s.handlers :: WorksOn(h, k))
  }

  /** An order that names the row as its source has been stored. */
  ghost predicate Named(l: Ledger, k: Key) {
    exists m <- l.orders :: m.Doc? && SourceKey(m.order) == Some(k)
  }

  /** A handler that works on a row does not let go of it at or below the threshold; the others do not lower it. */
  lemma MoveCovers(s: Stock, me: Handler, k: Key)
    requires HandlerOk(me) && InRange(s) && k in s && k.table.Warehouses?
    requires me.phase.Restocking? && SourceKey(me.order) == Some(k) ==> s[k] + me.phase.amount <= MAX_INT
    ensures var move := Decide(s, me, false, false);
            && k in move.stock
            && (WorksOn(me, k) && !move.crash ==> WorksOn(me.(phase := move.next), k) || move.stock[k] > RESTOCK_THRESHOLD)
            && (!WorksOn(me, k) ==> move.stock[k] == s[k])
  {
  }

  lemma {:induction false} RowsAreCovered(init: State, inputs: seq<Input>, k: Key)
    requires Initial(init) && |init.handlers| >= 1 && MAX_CAPACITY * |init.handlers| <= MAX_INT
    requires k in init.stock && k.table.Warehouses? && init.stock[k] <= MAX_CAPACITY
    requires forall a <- inputs :: Smooth(a)
    requires !Run(init, inputs).crashed
    ensures init.stock[k] > RESTOCK_THRESHOLD || Named(Run(init, inputs).ledger, k) ==> Covered(Run(init, inputs), k)
  {
    if inputs != [] {
      var front, a := inputs[..|inputs| - 1], inputs[|inputs| - 1];
      var s, t := Run(init, front), Run(init, inputs);
      RowsAreCovered(init, front, k);
      RowsStayInRange(init, front);
      assert Smooth(a);
      if a.handler < |s.handlers| {
        if a.Advance? {
          if Covered(s, k) {
            AdvanceCovers(init, front, a, k);
          }
        } else {
          ReceiveCovers(s, a, k);
        }
      }
    }
  }

  lemma AdvanceCovers(init: State, front: seq<Input>, a: Input, k: Key)
    requires Initial(init) && |init.handlers| >= 1 && MAX_CAPACITY * |init.handlers| <= MAX_INT
    requires k in init.stock && k.table.Warehouses? && init.stock[k] <= MAX_CAPACITY
    requires a.Advance? && Smooth(a) && a.handler < |Run(init, front).handlers|
    requires Covered(Run(init, front), k) && !Step(Run(init, front), a).crashed
    ensures Covered(Step(Run(init, front), a), k)
  {
    var s := Run(init, front);
    var me, t := s.handlers[a.handler], Step(s, a);
    RowsStayInRange(init, front);
    CapacityBound(init, front, k);
    PendingFits(s.handlers, a.handler, k);
    MoveCovers(s.stock, me, k);
    if exists h <- s.handlers :: WorksOn(h, k) {
      var i :| 0 <= i < |s.handlers| && WorksOn(s.handlers[i], k);
      assert i != a.handler ==> t.handlers[i] in t.handlers;
      assert t.handlers[a.handler] in t.handlers;
    }
  }

  lemma PendingFits(hs: seq<Handler>, i: nat, k: Key)
    requires i < |hs| && forall h <- hs :: HandlerOk(h)
    ensures DutyOf(RestockDue(k), hs[i]) <= Load(RestockDue(k), hs)
  {
    LoadUpdate(RestockDue(k), hs, i, hs[i].(phase := Idle));
    PendingPositive(hs[i := hs[i].(phase := Idle)], k);
  }

  lemma ReceiveCovers(s: State, a: Input, k: Key)
    requires a.Receive? && !s.crashed && a.handler < |s.handlers| && k in s.stock
    ensures Covered(s, k) ==> Covered(Step(s, a), k)
    ensures !Named(s.ledger, k) && Named(Step(s, a).ledger, k) ==> Covered(Step(s, a), k)
  {
    var t := Step(s, a);
    if exists h <- s.handlers :: WorksOn(h, k) {
      var i :| 0 <= i < |s.handlers| && WorksOn(s.handlers[i], k);
      assert t.handlers[i] == s.handlers[i] && t.handlers[i] in t.handlers;
    }
    if !Named(s.ledger, k) && Named(t.ledger, k) {
      var m :| m in t.ledger.orders && m.Doc? && SourceKey(m.order) == Some(k);
      assert m == a.message && WorksOn(t.handlers[a.handler], k);
    }
  }

  /** In any interleaving of n handlers in which nothing fails and nothing crashes, and as long as 1000 * n fits the column:
    * whenever all handlers are idle, every warehouse row that started above 100, or that any stored order has named as its
    * source, lies between 101 and 1000 * n.
    */
  lemma WarehousesAreStockedAtRest(init: State, inputs: seq<Input>, k: Key)
    requires Initial(init) && |init.handlers| >= 1 && 1000 * |init.handlers| <= MAX_INT
    requires k in init.stock && k.table.Warehouses? && init.stock[k] <= 1000
    requires forall a <- inputs :: Smooth(a)
    requires !Run(init, inputs).crashed && forall h <- Run(init, inputs).handlers :: h.phase.Idle?
    requires init.stock[k] > 100 || Named(Run(init, inputs).ledger, k)
    ensures k in Run(init, inputs).stock && 101 <= Run(init, inputs).stock[k] <= 1000 * |init.handlers|
  {
    RowsAreCovered(init, inputs, k);
    CapacityBound(init, inputs, k);
  }
}
