/** What every interleaved run keeps, faults and crashes included: rows within bounds, the ledger of each
  * row, and the conservation of every product.
  */
module EngineAccounts {
  import opened Orders
  import opened OrderValidation
  import opened StockTables
  import opened OrderStorage
  import opened OrderEngine
  import opened EngineTotals

  // ---------- one step of one handler ----------

  /** What validation leaves to rely on. */
  predicate Vetted(o: Order) {
    o.Prod().quantity >= MIN_EXTERNAL_QUANTITY && o.Prod().name != "" && !o.Dst().place.Warehouse?
  }

  /** What a handler knows about its order by the time it is in a phase. */
  predicate HandlerOk(h: Handler) {
    match h.phase
    case Parsed(verdict) => verdict.Accepted? ==> Vetted(h.order)
    case Validated(valid) => valid ==> Vetted(h.order)
    case Checked => Vetted(h.order) && SourceKey(h.order).Some?
    case Debited => Vetted(h.order) && CreditKey(h.order).Some?
    case Restocking(amount) => h.order.Src().place.Warehouse? && MAX_CAPACITY - RESTOCK_THRESHOLD <= amount <= MAX_CAPACITY
    case _ => true
  }

  /** The one row a step may write, and by how much. */
  function Target(me: Handler): Option<Key> {
    match me.phase
    case Checked => SourceKey(me.order)
    case Debited => CreditKey(me.order)
    case Restocking(_) => SourceKey(me.order)
    case _ => None
  }

  function Amount(me: Handler): int {
    match me.phase
    case Checked => -me.order.Prod().quantity
    case Debited => me.order.Prod().quantity
    case Restocking(amount) => amount
    case _ => 0
  }

  /** A step writes at most its target. */
  lemma MoveWritesTarget(s: Stock, me: Handler, fault: bool, lost: bool)
    ensures Decide(s, me, fault, lost).stock == UpdateAt(s, Target(me), Amount(me), fault).0
  {
  }

  lemma UpdateKeepsRange(s: Stock, k: Option<Key>, delta: int, fault: bool)
    requires InRange(s)
    ensures InRange(UpdateAt(s, k, delta, fault).0) && UpdateAt(s, k, delta, fault).0.Keys == s.Keys
  {
  }

  lemma MoveKeepsKnowledge(s: Stock, me: Handler, fault: bool, lost: bool)
    requires InRange(s) && HandlerOk(me)
    ensures HandlerOk(me.(phase := Decide(s, me, fault, lost).next)) && |Decide(s, me, fault, lost).events| <= 2
  {
  }

  lemma MoveIsSafe(s: Stock, me: Handler, fault: bool, lost: bool)
    requires InRange(s) && HandlerOk(me)
    ensures var move := Decide(s, me, fault, lost);
            InRange(move.stock) && move.stock.Keys == s.Keys && HandlerOk(me.(phase := move.next)) && |move.events| <= 2
  {
    MoveWritesTarget(s, me, fault, lost);
    UpdateKeepsRange(s, Target(me), Amount(me), fault);
    MoveKeepsKnowledge(s, me, fault, lost);
  }

  /** It books exactly what it wrote, under that row and under its product. */
  lemma MoveBooksRow(s: Stock, me: Handler, fault: bool, lost: bool, k: Key)
    ensures var (events, result) := (Decide(s, me, fault, lost).events, UpdateAt(s, Target(me), Amount(me), fault).1);
            Booked(RestockedInto(k), events) + Booked(CreditedTo(k), events) - Booked(TakenFrom(k), events)
            == if result == 1 && Target(me).value == k then Amount(me) else 0
  {
    if me.phase.Checked? {
    } else if me.phase.Debited? {
    } else if me.phase.Restocking? {
    } else {
      assert forall e <- Decide(s, me, fault, lost).events :: e.Dropped?;
    }
  }

  lemma MoveBooksProduct(s: Stock, me: Handler, fault: bool, lost: bool, p: string)
    ensures var (events, result) := (Decide(s, me, fault, lost).events, UpdateAt(s, Target(me), Amount(me), fault).1);
            Booked(RestockedOf(p), events) + Booked(CreditedOf(p), events) - Booked(TakenOf(p), events)
            == if result == 1 && Target(me).value.product == p then Amount(me) else 0
  {
    if me.phase.Checked? {
    } else if me.phase.Debited? {
    } else if me.phase.Restocking? {
    } else {
      assert forall e <- Decide(s, me, fault, lost).events :: e.Dropped?;
    }
  }

  lemma MoveKeepsRow(s: Stock, me: Handler, fault: bool, lost: bool, k: Key)
    requires k in s
    ensures var move := Decide(s, me, fault, lost);
            k in move.stock
            && move.stock[k] == s[k] + Booked(RestockedInto(k), move.events) + Booked(CreditedTo(k), move.events) - Booked(TakenFrom(k), move.events)
  {
    MoveWritesTarget(s, me, fault, lost);
    MoveBooksRow(s, me, fault, lost, k);
  }

  lemma MoveKeepsStock(s: Stock, me: Handler, fault: bool, lost: bool, p: string)
    ensures var move := Decide(s, me, fault, lost);
            StockOf(move.stock, p)
            == StockOf(s, p) + Booked(RestockedOf(p), move.events) + Booked(CreditedOf(p), move.events) - Booked(TakenOf(p), move.events)
  {
    MoveWritesTarget(s, me, fault, lost);
    MoveBooksProduct(s, me, fault, lost, p);
    StockOfUpdate(s, Target(me), Amount(me), fault, p);
  }

  lemma MoveAccountsOrder(s: Stock, me: Handler, fault: bool, lost: bool, p: string)
    requires HandlerOk(me) && p != ""
    ensures var move := Decide(s, me, fault, lost);
            DutyOf(OrderDue(p), me)
            == DutyOf(OrderDue(p), me.(phase := move.next)) + Booked(TakenOf(p), move.events) + Booked(DroppedOf(p), move.events)
  {
  }

  lemma MoveAccountsDebit(s: Stock, me: Handler, fault: bool, lost: bool, p: string)
    requires HandlerOk(me)
    ensures var move := Decide(s, me, fault, lost);
            Booked(TakenOf(p), move.events) + DutyOf(CreditDue(p), me)
            == Booked(CreditedOf(p), move.events) + Booked(ShippedOf(p), move.events) + Booked(LostOf(p), move.events)
               + DutyOf(CreditDue(p), me.(phase := move.next))
  {
  }

  lemma MoveConfirms(s: Stock, me: Handler, fault: bool, lost: bool, p: string)
    ensures var events := Decide(s, me, fault, lost).events;
            Booked(ConfirmedOf(p), events) == Booked(CreditedOf(p), events) + Booked(ShippedOf(p), events)
  {
    if me.phase.Checked? || me.phase.Debited? {
    } else {
      assert forall e <- Decide(s, me, fault, lost).events :: e.Dropped? || e.Restocked?;
    }
  }

  /** No credit reaches a warehouse, and every restock has its least size. */
  lemma MoveRestocks(s: Stock, me: Handler, fault: bool, lost: bool, k: Key)
    requires HandlerOk(me)
    ensures var events := Decide(s, me, fault, lost).events;
            && (k.table.Warehouses? ==> Booked(CreditedTo(k), events) == 0)
            && (MAX_CAPACITY - RESTOCK_THRESHOLD) * Booked(RestocksOf(k), events) <= Booked(RestockedInto(k), events)
  {
  }

  lemma MoveShips(s: Stock, me: Handler, fault: bool, lost: bool, p: string)
    requires HandlerOk(me)
    ensures var events := Decide(s, me, fault, lost).events;
            && MIN_EXTERNAL_QUANTITY * Booked(ShipmentsOf(p), events) <= Booked(ShippedOf(p), events)
            && Booked(ShippedOf(p), events) >= 0 && Booked(LostOf(p), events) >= 0 && Booked(DroppedOf(p), events) >= 0
  {
  }

  // ---------- every run ----------

  ghost predicate Sound(s: State) {
    InRange(s.stock) && forall h <- s.handlers :: HandlerOk(h)
  }

  lemma StepIsSound(s: State, a: Input)
    requires Sound(s)
    ensures Sound(Step(s, a)) && Step(s, a).stock.Keys == s.stock.Keys && |Step(s, a).handlers| == |s.handlers|
  {
    if !s.crashed && a.handler < |s.handlers| {
      if a.Advance? {
        MoveIsSafe(s.stock, s.handlers[a.handler], a.fault, a.lost);
      } else if a.message.Doc? {
        ValidationMeetsLimits(a.message.order);
      }
    }
  }

  /** No row of either table is ever negative or out of its column, whatever the handlers read and when. */
  lemma {:induction false} RowsStayInRange(init: State, inputs: seq<Input>)
    requires Initial(init)
    ensures var s := Run(init, inputs);
            Sound(s) && InRange(s.stock) && s.stock.Keys == init.stock.Keys && |s.handlers| == |init.handlers|
  {
    if inputs != [] {
      var front := inputs[..|inputs| - 1];
      RowsStayInRange(init, front);
      StepIsSound(Run(init, front), inputs[|inputs| - 1]);
    }
  }

  /** A handler moves only by its own inputs. */
  lemma {:induction false} OthersKeepHandler(s: State, inputs: seq<Input>, h: nat)
    requires h < |s.handlers| && forall a <- inputs :: a.handler != h
    ensures var t := Run(s, inputs);
            |t.handlers| == |s.handlers| && t.handlers[h] == s.handlers[h]
  {
    if inputs != [] {
      OthersKeepHandler(s, inputs[..|inputs| - 1], h);
    }
  }

  /** What the row gained, in balance, between two states of a run. */
  function Drift(before: State, after: State, k: Key): int {
    Total(RestockedInto(k), after.log) + Total(CreditedTo(k), after.log) - Total(TakenFrom(k), after.log)
    - (Total(RestockedInto(k), before.log) + Total(CreditedTo(k), before.log) - Total(TakenFrom(k), before.log))
  }

  /** How the totals of a measure and of a duty move in one step. */
  lemma StepTotals(s: State, a: Input, m: Measure, d: Duty)
    requires Sound(s)
    requires !s.crashed && a.handler < |s.handlers| && a.Advance?
    ensures var (t, me) := (Step(s, a), s.handlers[a.handler]);
            var move := Decide(s.stock, me, a.fault, a.lost);
            && Total(m, t.log) == Total(m, s.log) + Booked(m, move.events)
            && Load(d, t.handlers) == Load(d, s.handlers) - DutyOf(d, me) + DutyOf(d, me.(phase := move.next))
  {
    var move := Decide(s.stock, s.handlers[a.handler], a.fault, a.lost);
    MoveIsSafe(s.stock, s.handlers[a.handler], a.fault, a.lost);
    TotalBooked(m, s.log, move.events);
    LoadUpdate(d, s.handlers, a.handler, s.handlers[a.handler].(phase := move.next));
  }

  /** Receiving an order books nothing and, but for the order itself, gives no duty. */
  lemma ReceiveTotals(s: State, a: Input, p: string, k: Key)
    requires a.Receive? || s.crashed || a.handler >= |s.handlers|
    ensures var t := Step(s, a);
            && t.stock == s.stock && t.log == s.log
            && Load(CreditDue(p), t.handlers) == Load(CreditDue(p), s.handlers)
            && Load(RestockDue(k), t.handlers) == Load(RestockDue(k), s.handlers)
            && (p != "" ==> Asked(t.ledger.orders, p) - Load(OrderDue(p), t.handlers) == Asked(s.ledger.orders, p) - Load(OrderDue(p), s.handlers))
  {
    if !s.crashed && a.handler < |s.handlers| && s.handlers[a.handler].phase.Idle? && !a.message.Command? {
      assert (s.ledger.orders + [a.message])[..|s.ledger.orders|] == s.ledger.orders;
      if a.message.Doc? {
        var h := Step(s, a).handlers[a.handler];
        LoadUpdate(CreditDue(p), s.handlers, a.handler, h);
        LoadUpdate(RestockDue(k), s.handlers, a.handler, h);
        LoadUpdate(OrderDue(p), s.handlers, a.handler, h);
      }
    }
  }

  /** Every row is what it was at the start, plus its restocks and credits, minus its debits. */
  lemma {:induction false} RowLedger(init: State, inputs: seq<Input>, k: Key)
    requires Initial(init) && k in init.stock
    ensures var s := Run(init, inputs);
            k in s.stock
            && s.stock[k] == init.stock[k] + Total(RestockedInto(k), s.log) + Total(CreditedTo(k), s.log) - Total(TakenFrom(k), s.log)
  {
    if inputs != [] {
      var front, a := inputs[..|inputs| - 1], inputs[|inputs| - 1];
      var s := Run(init, front);
      RowLedger(init, front, k);
      RowsStayInRange(init, front);
      if !s.crashed && a.handler < |s.handlers| && a.Advance? {
        MoveKeepsRow(s.stock, s.handlers[a.handler], a.fault, a.lost, k);
        StepTotals(s, a, RestockedInto(k), RestockDue(k));
        StepTotals(s, a, CreditedTo(k), RestockDue(k));
        StepTotals(s, a, TakenFrom(k), RestockDue(k));
      } else {
        ReceiveTotals(s, a, k.product, k);
      }
    }
  }

  /** No credit ever reaches a warehouse; restocks are at least 900 and shipments at least 5 each. */
  lemma {:induction false} Sizes(init: State, inputs: seq<Input>, k: Key)
    requires Initial(init)
    ensures var s := Run(init, inputs);
            && (k.table.Warehouses? ==> Total(CreditedTo(k), s.log) == 0)
            && 900 * Total(RestocksOf(k), s.log) <= Total(RestockedInto(k), s.log)
            && 5 * Total(ShipmentsOf(k.product), s.log) <= Total(ShippedOf(k.product), s.log)
            && Total(ShippedOf(k.product), s.log) >= 0 && Total(LostOf(k.product), s.log) >= 0 && Total(DroppedOf(k.product), s.log) >= 0
  {
    if inputs != [] {
      var front, a := inputs[..|inputs| - 1], inputs[|inputs| - 1];
      var s := Run(init, front);
      Sizes(init, front, k);
      RowsStayInRange(init, front);
      if !s.crashed && a.handler < |s.handlers| && a.Advance? {
        MoveRestocks(s.stock, s.handlers[a.handler], a.fault, a.lost, k);
        MoveShips(s.stock, s.handlers[a.handler], a.fault, a.lost, k.product);
        StepTotals(s, a, CreditedTo(k), RestockDue(k));
        StepTotals(s, a, RestocksOf(k), RestockDue(k));
        StepTotals(s, a, RestockedInto(k), RestockDue(k));
        StepTotals(s, a, ShipmentsOf(k.product), RestockDue(k));
        StepTotals(s, a, ShippedOf(k.product), RestockDue(k));
        StepTotals(s, a, LostOf(k.product), RestockDue(k));
        StepTotals(s, a, DroppedOf(k.product), RestockDue(k));
      } else {
        ReceiveTotals(s, a, k.product, k);
      }
    }
  }

  /** The race between the stock check and the debit: whatever the others do in between, the debit of a checked order
    * takes exactly its quantity if what the check saw, less what the others took from the row on balance, still covers
    * it; if not, or if the statement fails, it changes no row and the order is dropped.
    */
  lemma CheckedOrderLosesRaceIff(init: State, before: seq<Input>, h: nat, others: seq<Input>, check: Input, fault: bool, lost: bool)
    requires Initial(init) && check.Advance? && check.handler == h && forall a <- others :: a.handler != h
    requires var s := Run(init, before); !s.crashed && h < |s.handlers| && s.handlers[h].phase.Validated?
    requires Step(Run(init, before), check).handlers[h].phase.Checked?
    requires !Run(init, before + [check] + others).crashed
    ensures var (s, u) := (Run(init, before), Run(init, before + [check] + others));
            h < |u.handlers| && SourceKey(s.handlers[h].order).Some? && SourceKey(s.handlers[h].order).value in s.stock
            && var (o, v) := (s.handlers[h].order, Step(u, Advance(h, fault, lost)));
            var k := SourceKey(o).value;
            k in u.stock
            && if !fault && s.stock[k] + Drift(s, u, k) >= o.Prod().quantity then
                 v.stock == u.stock[k := u.stock[k] - o.Prod().quantity] && u.log + [Taken(o)] <= v.log
               else
                 v.stock == u.stock && v.log == u.log + [Dropped(o)]
  {
    var s, t, u := Run(init, before), Step(Run(init, before), check), Run(init, before + [check] + others);
    var k := SourceKey(s.handlers[h].order).value;
    RowsStayInRange(init, before);
    RowsStayInRange(init, before + [check] + others);
    RunConcat(init, before + [check], others);
    assert (before + [check])[..|before|] == before;
    assert Run(init, before + [check]) == t;
    OthersKeepHandler(t, others, h);
    RowLedger(init, before, k);
    RowLedger(init, before + [check] + others, k);
    assert HandlerOk(u.handlers[h]);
    DebitFires(u, h, fault, lost);
  }

  lemma DebitFires(s: State, h: nat, fault: bool, lost: bool)
    requires Sound(s) && !s.crashed && h < |s.handlers| && s.handlers[h].phase.Checked?
    ensures var (o, t) := (s.handlers[h].order, Step(s, Advance(h, fault, lost)));
            SourceKey(o).Some?
            && var k := SourceKey(o).value;
            if !fault && k in s.stock && s.stock[k] >= o.Prod().quantity then
              t.stock == s.stock[k := s.stock[k] - o.Prod().quantity] && s.log + [Taken(o)] <= t.log
            else
              t.stock == s.stock && t.log == s.log + [Dropped(o)]
  {
    assert HandlerOk(s.handlers[h]);
  }

  /** Only `reStock` raises a warehouse row. */
  lemma WarehouseLedger(init: State, inputs: seq<Input>, k: Key)
    requires Initial(init) && k in init.stock && k.table.Warehouses?
    ensures var s := Run(init, inputs);
            k in s.stock && s.stock[k] == init.stock[k] + Total(RestockedInto(k), s.log) - Total(TakenFrom(k), s.log)
  {
    RowLedger(init, inputs, k);
    Sizes(init, inputs, k);
  }

  /** The holdings of a product are what they were, plus restocks and credits, minus debits. */
  lemma {:induction false} StockLedger(init: State, inputs: seq<Input>, p: string)
    requires Initial(init)
    ensures var s := Run(init, inputs);
            StockOf(s.stock, p) == StockOf(init.stock, p) + Total(RestockedOf(p), s.log) + Total(CreditedOf(p), s.log) - Total(TakenOf(p), s.log)
  {
    if inputs != [] {
      var front, a := inputs[..|inputs| - 1], inputs[|inputs| - 1];
      var s := Run(init, front);
      StockLedger(init, front, p);
      RowsStayInRange(init, front);
      if !s.crashed && a.handler < |s.handlers| && a.Advance? {
        MoveKeepsStock(s.stock, s.handlers[a.handler], a.fault, a.lost, p);
        StepTotals(s, a, RestockedOf(p), CreditDue(p));
        StepTotals(s, a, CreditedOf(p), CreditDue(p));
        StepTotals(s, a, TakenOf(p), CreditDue(p));
      } else {
        ReceiveTotals(s, a, p, Key(Hubs, 0, p));
      }
    }
  }

  /** Each debited unit is credited, shipped, lost or still owed; each order reported as successful was
    * credited or shipped, and none other was.
    */
  lemma {:induction false} DebitLedger(init: State, inputs: seq<Input>, p: string)
    requires Initial(init)
    ensures var s := Run(init, inputs);
            && Total(TakenOf(p), s.log)
               == Total(CreditedOf(p), s.log) + Total(ShippedOf(p), s.log) + Total(LostOf(p), s.log) + Load(CreditDue(p), s.handlers)
            && Total(ConfirmedOf(p), s.log) == Total(CreditedOf(p), s.log) + Total(ShippedOf(p), s.log)
  {
    if inputs == [] {
      LoadOfIdle(CreditDue(p), init.handlers);
    } else {
      var front, a := inputs[..|inputs| - 1], inputs[|inputs| - 1];
      var s := Run(init, front);
      DebitLedger(init, front, p);
      RowsStayInRange(init, front);
      if !s.crashed && a.handler < |s.handlers| && a.Advance? {
        MoveAccountsDebit(s.stock, s.handlers[a.handler], a.fault, a.lost, p);
        MoveConfirms(s.stock, s.handlers[a.handler], a.fault, a.lost, p);
        StepTotals(s, a, TakenOf(p), CreditDue(p));
        StepTotals(s, a, CreditedOf(p), CreditDue(p));
        StepTotals(s, a, ShippedOf(p), CreditDue(p));
        StepTotals(s, a, LostOf(p), CreditDue(p));
        StepTotals(s, a, ConfirmedOf(p), CreditDue(p));
      } else {
        ReceiveTotals(s, a, p, Key(Hubs, 0, p));
      }
    }
  }

  /** Conservation: what the rows hold, what is on its way, what was shipped and what was lost add up to
    * what was there at the start and what restocking created.
    */
  lemma Conservation(init: State, inputs: seq<Input>, p: string)
    requires Initial(init)
    ensures var s := Run(init, inputs);
            StockOf(s.stock, p) + Load(CreditDue(p), s.handlers) + Total(ShippedOf(p), s.log) + Total(LostOf(p), s.log)
            == StockOf(init.stock, p) + Total(RestockedOf(p), s.log)
  {
    StockLedger(init, inputs, p);
    DebitLedger(init, inputs, p);
  }

  /** The report counts an order when it is stored: its total for a product is what was debited, what was
    * dropped and what is still on its way to the debit.
    */
  lemma {:induction false} OrdersAreAccounted(init: State, inputs: seq<Input>, p: string)
    requires Initial(init) && p != ""
    ensures var s := Run(init, inputs);
            && Agrees(s.ledger)
            && Asked(s.ledger.orders, p) == Total(TakenOf(p), s.log) + Total(DroppedOf(p), s.log) + Load(OrderDue(p), s.handlers)
  {
    if inputs == [] {
      LoadOfIdle(OrderDue(p), init.handlers);
    } else {
      var front, a := inputs[..|inputs| - 1], inputs[|inputs| - 1];
      var s := Run(init, front);
      OrdersAreAccounted(init, front, p);
      RowsStayInRange(init, front);
      if !s.crashed && a.handler < |s.handlers| && a.Advance? {
        MoveAccountsOrder(s.stock, s.handlers[a.handler], a.fault, a.lost, p);
        StepTotals(s, a, TakenOf(p), OrderDue(p));
        StepTotals(s, a, DroppedOf(p), OrderDue(p));
      } else {
        ReceiveTotals(s, a, p, Key(Hubs, 0, p));
        if a.Receive? {
          RecordKeepsAgreement(s.ledger, a.message);
        }
      }
    }
  }

  lemma DutiesPositive(s: State, p: string)
    requires Sound(s)
    ensures Load(CreditDue(p), s.handlers) >= 0 && Load(OrderDue(p), s.handlers) >= 0
  {
    LoadPositive(CreditDue(p), s.handlers);
    LoadPositive(OrderDue(p), s.handlers);
  }

  /** The report is never below what left the sources, and exceeds it by exactly the orders that were dropped
    * or have not reached their debit.
    */
  lemma ReportCoversDebits(init: State, inputs: seq<Input>, p: string)
    requires Initial(init) && p != ""
    ensures var s := Run(init, inputs);
            var reported := if p in s.ledger.quantities then s.ledger.quantities[p] else 0;
            && reported - Total(TakenOf(p), s.log) == Total(DroppedOf(p), s.log) + Load(OrderDue(p), s.handlers)
            && reported >= Total(TakenOf(p), s.log)
            && (p in s.ledger.quantities <==> reported > 0)
  {
    OrdersAreAccounted(init, inputs, p);
    RowsStayInRange(init, inputs);
    DutiesPositive(Run(init, inputs), p);
    Sizes(init, inputs, Key(Hubs, 0, p));
  }

  /** Shipments are bounded by what there was and what restocking made. */
  lemma ShipmentsAreBounded(init: State, inputs: seq<Input>, p: string)
    requires Initial(init)
    ensures var s := Run(init, inputs);
            5 * Total(ShipmentsOf(p), s.log) <= StockOf(init.stock, p) + Total(RestockedOf(p), s.log)
  {
    var s := Run(init, inputs);
    Conservation(init, inputs, p);
    RowsStayInRange(init, inputs);
    DutiesPositive(s, p);
    Sizes(init, inputs, Key(Hubs, 0, p));
    SumPositive(s.stock, set k <- s.stock | k.product == p);
  }

  // ---------- only admissible orders move goods ----------

  /** A handler past validation holds an order that validation accepted. */
  predicate Honest(h: Handler) {
    match h.phase
    case Parsed(verdict) => verdict == ValidateOrderLimits(h.order)
    case Validated(valid) => valid ==> ValidateOrderLimits(h.order).Accepted?
    case Checked => ValidateOrderLimits(h.order).Accepted?
    case Debited => ValidateOrderLimits(h.order).Accepted?
    case _ => true
  }

  predicate Earned(e: Event) {
    e.Taken? || e.Credited? || e.Lost? || e.Confirmed? ==> ValidateOrderLimits(e.order).Accepted?
  }

  lemma MoveIsHonest(s: Stock, me: Handler, fault: bool, lost: bool)
    requires Honest(me)
    ensures var move := Decide(s, me, fault, lost);
            Honest(me.(phase := move.next)) && forall e <- move.events :: Earned(e)
  {
  }

  /** In every run each debit, credit, loss and success is for an order the limits allow. */
  lemma OnlyAdmissibleOrdersMoveGoods(init: State, inputs: seq<Input>)
    requires Initial(init)
    ensures var s := Run(init, inputs);
            && (forall h <- s.handlers :: Honest(h))
            && (forall e <- s.log :: e.Taken? || e.Credited? || e.Lost? || e.Confirmed? ==> Admissible(e.order))
  {
    var s := Run(init, inputs);
    EarnedOverRuns(init, inputs);
    forall e <- s.log | e.Taken? || e.Credited? || e.Lost? || e.Confirmed? ensures Admissible(e.order) {
      assert Earned(e);
      ValidationMeetsLimits(e.order);
    }
  }

  lemma {:induction false} EarnedOverRuns(init: State, inputs: seq<Input>)
    requires Initial(init)
    ensures (forall h <- Run(init, inputs).handlers :: Honest(h)) && (forall e <- Run(init, inputs).log :: Earned(e))
  {
    if inputs != [] {
      var front, a := inputs[..|inputs| - 1], inputs[|inputs| - 1];
      var s := Run(init, front);
      EarnedOverRuns(init, front);
      if !s.crashed && a.handler < |s.handlers| && a.Advance? {
        MoveIsHonest(s.stock, s.handlers[a.handler], a.fault, a.lost);
      }
    }
  }
}
