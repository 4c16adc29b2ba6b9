/** The order pipeline of src/server/server.cpp as a machine of interleaved handlers.
  *
  * One handler is the UDP loop, the others are TCP client threads. A step is one handler running
  * one database statement, one mutex-protected `storeOrder`, or one purely local decision, together
  * with the local code and the reply that follow it. Nothing spans two steps: there is no lock and no
  * transaction, so whatever a handler read may be stale when it acts on it.
  */
module OrderEngine {
  import opened Orders
  import opened OrderValidation
  import opened StockTables
  import opened OrderStorage

  const MAX_CAPACITY := 1000
  const STOCK_THRESHOLD := 200
  const RESTOCK_THRESHOLD := 100

  /** Where a handler stands with the order it is working on.
    *
    * `Parsed`: stored and parsed, with the verdict validation, a pure decision over the order, is to return.
    * `Checked`: valid and in stock by the time of the read, debit next. `Debited`: credit next.
    * `Settled`: low-stock check next. `LowChecked`: restock read next. `Restocking`: restock write next.
    */
  datatype Phase =
    | Idle
    | Parsed(verdict: Verdict)
    | Validated(valid: bool)
    | Checked
    | Debited
    | Settled
    | LowChecked
    | Restocking(amount: int)

  /** Only a TCP handler gives up the rest of a pass when a reply cannot be written. */
  datatype Handler = Handler(tcp: bool, phase: Phase, order: Order)

  /** What happened, for the books. `Dropped`: the order left the pipeline before any debit.
    * `Confirmed`: `realTimeUpdate` returned a positive result for it.
    */
  datatype Event =
    | Dropped(order: Order)
    | Taken(order: Order)
    | Credited(order: Order)
    | Lost(order: Order)
    | Confirmed(order: Order)
    | Restocked(key: Key, amount: int)

  /** One step of one handler: the tables after it, where it goes, what it adds to the books. */
  datatype Move = Move(stock: Stock, next: Phase, events: seq<Event>, crash: bool)

  /** The decision before the debit (src/common/anomalieHandler.cpp), given one read of the source row. */
  predicate CheckProductStock(o: Order, s: Stock, fault: bool) {
    && o.info.Some?
    && !o.Src().place.NoPlace?
    && o.Src().location.Some?
    && o.Act().product.Some?
    && o.Prod().name != ""
    && o.Prod().quantity > 0
    && SourceKey(o).Some?
    && var available := Read(s, SourceKey(o).value, fault);
    && available >= 0
    && available >= o.Prod().quantity
  }

  /** Number conversions that both stock-level checks make throw on a missing location or product id. */
  predicate Unconvertible(o: Order) {
    o.Src().place.Warehouse? && (o.Src().location.None? || o.Prod().id.None?)
  }

  /** `fault`: the statement of this step fails. `lost`: the reply of this step cannot be written. */
  function Decide(s: Stock, me: Handler, fault: bool, lost: bool): Move {
    var o := me.order;
    var quit := me.tcp && lost;
    match me.phase
    case Idle => Move(s, Idle, [], false)
    case Parsed(verdict) =>
      (match verdict
       case Crashed => Move(s, me.phase, [], true)
       case Accepted => Move(s, Validated(true), [], false)
       case Rejected(_) => if quit then Move(s, Idle, [Dropped(o)], false) else Move(s, Validated(false), [], false))
    case Validated(valid) =>
      var inStock := CheckProductStock(o, s, fault);
      if valid && inStock then Move(s, Checked, [], false)
      else if !inStock && quit then Move(s, Idle, [Dropped(o)], false)
      else Move(s, Settled, [Dropped(o)], false)
    case Checked =>
      var (debited, result) := UpdateAt(s, SourceKey(o), -o.Prod().quantity, fault);
      if result <= 0 then Move(debited, Settled, [Dropped(o)], false)
      else if CreditKey(o).Some? then Move(debited, Debited, [Taken(o)], false)
      else Move(debited, if quit then Idle else Settled, [Taken(o), Confirmed(o)], false)
    case Debited =>
      var (credited, result) := UpdateAt(s, CreditKey(o), o.Prod().quantity, fault);
      if result > 0 then Move(credited, if quit then Idle else Settled, [Credited(o), Confirmed(o)], false)
      else Move(credited, Settled, [Lost(o)], false)
    case Settled =>
      if !o.Src().place.Warehouse? then Move(s, LowChecked, [], false)
      else if Unconvertible(o) then Move(s, Settled, [], true)
      else
        var current := Read(s, SourceKey(o).value, fault);
        Move(s, if current != -1 && current <= STOCK_THRESHOLD && quit then Idle else LowChecked, [], false)
    case LowChecked =>
      if !o.Src().place.Warehouse? then Move(s, Idle, [], false)
      else if Unconvertible(o) then Move(s, LowChecked, [], true)
      else
        var current := Read(s, SourceKey(o).value, fault);
        Move(s, if current != -1 && current <= RESTOCK_THRESHOLD then Restocking(MAX_CAPACITY - current) else Idle, [], false)
    case Restocking(amount) =>
      var (filled, result) := UpdateAt(s, SourceKey(o), amount, fault);
      Move(filled, Idle, if result == 1 then [Restocked(SourceKey(o).value, amount)] else [], false)
  }

  // ---------- the whole server ----------

  datatype State = State(stock: Stock, handlers: seq<Handler>, ledger: Ledger, log: seq<Event>, crashed: bool)

  datatype Input =
    | Receive(handler: nat, message: Message)
    | Advance(handler: nat, fault: bool, lost: bool)

  /** A step that is not enabled changes nothing. */
  function Step(s: State, a: Input): State {
    if s.crashed || a.handler >= |s.handlers| then s else
    var me := s.handlers[a.handler];
    match a
    case Receive(h, m) =>
      if !me.phase.Idle? || m.Command? then s
      else if m.Unparseable? then s.(ledger := Record(s.ledger, m))
      else s.(ledger := Record(s.ledger, m), handlers := s.handlers[h := Handler(me.tcp, Parsed(ValidateOrderLimits(m.order)), m.order)])
    case Advance(h, fault, lost) =>
      var move := Decide(s.stock, me, fault, lost);
      State(move.stock, s.handlers[h := me.(phase := move.next)], s.ledger, s.log + move.events, move.crash)
  }

  /** Any interleaving, with any faults, is some sequence of inputs. */
  function Run(s: State, inputs: seq<Input>): State {
    if inputs == [] then s else Step(Run(s, inputs[..|inputs| - 1]), inputs[|inputs| - 1])
  }

  /** The server as it starts: nobody is working, nothing is stored, every row is within its column. */
  ghost predicate Initial(s: State) {
    && InRange(s.stock)
    && (forall h <- s.handlers :: h.phase.Idle?)
    && s.ledger == EMPTY_LEDGER
    && s.log == []
    && !s.crashed
  }

  lemma {:induction false} RunConcat(s: State, a: seq<Input>, b: seq<Input>)
    ensures Run(s, a + b) == Run(Run(s, a), b)
  {
    if b == [] {
      assert a + b == a;
    } else {
      assert (a + b)[..|a + b| - 1] == a + b[..|b| - 1];
      RunConcat(s, a, b[..|b| - 1]);
    }
  }

  lemma RunFirst(s: State, a: Input, rest: seq<Input>)
    ensures Run(s, [a] + rest) == Run(Step(s, a), rest)
  {
    RunConcat(s, [a], rest);
    assert [a][..0] == [];
  }
}
