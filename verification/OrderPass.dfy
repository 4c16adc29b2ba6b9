/** One handler taking one order through the whole pipeline with nobody else running, and what such a pass amounts to. */
module OrderPass {
  import opened Orders
  import opened OrderValidation
  import opened StockTables
  import opened InventoryDb
  import opened OrderStorage
  import opened OrderEngine
  import opened EngineTotals

  /** Which statements of a pass fail and which of its replies cannot be written. */
  datatype Env = Env(
    checkFault: bool, debitFault: bool, creditFault: bool, lowFault: bool, readFault: bool, writeFault: bool,
    ackLost: bool, invalidLost: bool, stockLost: bool, successLost: bool, lowLost: bool, restockLost: bool)

  /** No statement fails; replies may be lost. */
  predicate NoFault(e: Env) {
    !e.checkFault && !e.debitFault && !e.creditFault && !e.lowFault && !e.readFault && !e.writeFault
  }

  /** Nothing fails. */
  const CALM := Env(false, false, false, false, false, false, false, false, false, false, false, false)

  function FaultAt(e: Env, phase: Phase): bool {
    match phase
    case Validated(_) => e.checkFault
    case Checked => e.debitFault
    case Debited => e.creditFault
    case Settled => e.lowFault
    case LowChecked => e.readFault
    case Restocking(_) => e.writeFault
    case _ => false
  }

  function LostAt(e: Env, phase: Phase): bool {
    match phase
    case Parsed(_) => e.invalidLost
    case Validated(_) => e.stockLost
    case Checked => e.successLost
    case Debited => e.successLost
    case Settled => e.lowLost
    case _ => false
  }

  function Rank(phase: Phase): nat {
    match phase
    case Idle => 0
    case Restocking(_) => 1
    case LowChecked => 2
    case Settled => 3
    case Debited => 4
    case Checked => 5
    case Validated(_) => 6
    case Parsed(_) => 7
  }

  datatype Solo = Solo(stock: Stock, me: Handler, events: seq<Event>, crash: bool)

  /** The machine with one handler moving until it is idle again or the process is gone. */
  function Drive(s: Stock, me: Handler, e: Env): Solo
    decreases Rank(me.phase)
  {
    if me.phase.Idle? then Solo(s, me, [], false) else
    var move := Decide(s, me, FaultAt(e, me.phase), LostAt(e, me.phase));
    var next := me.(phase := move.next);
    if move.crash then Solo(move.stock, next, move.events, true) else
    var rest := Drive(move.stock, next, e);
    rest.(events := move.events + rest.events)
  }

  function Start(tcp: bool, o: Order): Handler {
    Handler(tcp, Parsed(ValidateOrderLimits(o)), o)
  }

  // ---------- a pass is a run of the machine ----------

  function DriveInputs(s: Stock, me: Handler, h: nat, e: Env): seq<Input>
    decreases Rank(me.phase)
  {
    if me.phase.Idle? then [] else
    var move := Decide(s, me, FaultAt(e, me.phase), LostAt(e, me.phase));
    [Advance(h, FaultAt(e, me.phase), LostAt(e, me.phase))]
    + if move.crash then [] else DriveInputs(move.stock, me.(phase := move.next), h, e)
  }

  /** A step of the machine, as the move of one handler. */
  lemma StepIsMove(s: State, h: nat, fault: bool, lost: bool, move: Move)
    requires !s.crashed && h < |s.handlers| && move == Decide(s.stock, s.handlers[h], fault, lost)
    ensures Step(s, Advance(h, fault, lost))
            == State(move.stock, s.handlers[h := s.handlers[h].(phase := move.next)], s.ledger, s.log + move.events, move.crash)
  {
  }

  lemma RankFalls(s: Stock, me: Handler, fault: bool, lost: bool)
    requires !me.phase.Idle? && !Decide(s, me, fault, lost).crash
    ensures Rank(Decide(s, me, fault, lost).next) < Rank(me.phase)
  {
  }

  /** One step of a pass. */
  lemma DriveOnce(s: Stock, me: Handler, h: nat, e: Env, a: Input, move: Move, d: Solo, rest: seq<Input>)
    requires !me.phase.Idle? && a == Advance(h, FaultAt(e, me.phase), LostAt(e, me.phase)) && move == Decide(s, me, a.fault, a.lost)
    requires var next := me.(phase := move.next);
             if move.crash then d == Solo(move.stock, next, [], true) && rest == []
             else d == Drive(move.stock, next, e) && rest == DriveInputs(move.stock, next, h, e)
    ensures Drive(s, me, e) == d.(events := move.events + d.events)
    ensures DriveInputs(s, me, h, e) == [a] + rest
  {
    assert move.crash ==> move.events + [] == move.events;
  }

  /** So whatever holds of every run holds of every pass, from any state the other handlers left. */
  lemma {:induction false} DriveIsRun(s: State, h: nat, e: Env)
    requires !s.crashed && h < |s.handlers|
    ensures Run(s, DriveInputs(s.stock, s.handlers[h], h, e)) == Landed(s, h, Drive(s.stock, s.handlers[h], e))
    decreases Rank(s.handlers[h].phase)
  {
    var me := s.handlers[h];
    if me.phase.Idle? {
      assert Landed(s, h, Drive(s.stock, me, e)) == s;
    } else {
      var a := Advance(h, FaultAt(e, me.phase), LostAt(e, me.phase));
      var move := Decide(s.stock, me, a.fault, a.lost);
      DriveOnward(s, h, e, a, move);
    }
  }

  /** The state a pass leaves behind. */
  function Landed(s: State, h: nat, d: Solo): State
    requires h < |s.handlers|
  {
    State(d.stock, s.handlers[h := d.me], s.ledger, s.log + d.events, d.crash)
  }

  lemma {:induction false} DriveOnward(s: State, h: nat, e: Env, a: Input, move: Move)
    requires !s.crashed && h < |s.handlers| && !s.handlers[h].phase.Idle?
    requires a == Advance(h, FaultAt(e, s.handlers[h].phase), LostAt(e, s.handlers[h].phase))
    requires move == Decide(s.stock, s.handlers[h], a.fault, a.lost)
    ensures Run(s, DriveInputs(s.stock, s.handlers[h], h, e)) == Landed(s, h, Drive(s.stock, s.handlers[h], e))
    decreases Rank(s.handlers[h].phase), 0
  {
    var me, next := s.handlers[h], s.handlers[h].(phase := move.next);
    var t := Landed(s, h, Solo(move.stock, next, move.events, move.crash));
    StepIsMove(s, h, a.fault, a.lost, move);
    if move.crash {
      DriveOnce(s.stock, me, h, e, a, move, Solo(move.stock, next, [], true), []);
      RunFirst(s, a, []);
      assert Run(t, []) == t;
      assert s.log + (move.events + []) == s.log + move.events;
    } else {
      RankFalls(s.stock, me, a.fault, a.lost);
      var d, rest := Drive(move.stock, next, e), DriveInputs(move.stock, next, h, e);
      DriveOnce(s.stock, me, h, e, a, move, d, rest);
      RunFirst(s, a, rest);
      DriveIsRun(t, h, e);
      LandedTwice(s, h, next, move, d);
    }
  }

  lemma LandedTwice(s: State, h: nat, next: Handler, move: Move, d: Solo)
    requires h < |s.handlers| && !move.crash
    ensures Landed(Landed(s, h, Solo(move.stock, next, move.events, move.crash)), h, d) == Landed(s, h, d.(events := move.events + d.events))
  {
    assert s.log + (move.events + d.events) == s.log + move.events + d.events;
    assert s.handlers[h := next][h := d.me] == s.handlers[h := d.me];
  }

  // ---------- the pass as the code is written ----------

  /** What `reStock` does to the tables and what it returns, once its numbers are converted. */
  function Replenish(s: Stock, o: Order, readFault: bool, writeFault: bool): (Stock, bool) {
    if !o.Src().place.Warehouse? then (s, false) else
    var current := Read(s, SourceKey(o).value, readFault);
    if current == -1 then (s, false)
    else if current <= RESTOCK_THRESHOLD then
      var (filled, result) := Update(s, SourceKey(o).value, MAX_CAPACITY - current, writeFault);
      (filled, result == 1)
    else (s, true)
  }

  /** Whether `checkLowStockAlert` raises its alert. */
  predicate IsLow(s: Stock, o: Order, fault: bool) {
    && o.Src().place.Warehouse?
    && var current := Read(s, SourceKey(o).value, fault);
    && current != -1
    && current <= STOCK_THRESHOLD
  }

  /** The two stock-level checks: the tables after them, and whether a conversion ended the process. */
  function Tail(s: Stock, tcp: bool, o: Order, e: Env): (Stock, bool) {
    if Unconvertible(o) then (s, true)
    else if IsLow(s, o, e.lowFault) && tcp && e.lowLost then (s, false)
    else (Replenish(s, o, e.readFault, e.writeFault).0, false)
  }

  /** `result` is what `realTimeUpdate` returned, 0 when it was not called. */
  datatype Outcome = Outcome(stock: Stock, crashed: bool, result: int)

  function Pass(s: Stock, tcp: bool, o: Order, e: Env): Outcome {
    var verdict := ValidateOrderLimits(o);
    if verdict.Crashed? then Outcome(s, true, 0)
    else if verdict.Rejected? && tcp && e.invalidLost then Outcome(s, false, 0)
    else PassChecked(s, tcp, o, e, verdict.Accepted?)
  }

  function PassChecked(s: Stock, tcp: bool, o: Order, e: Env, valid: bool): Outcome {
    var inStock := CheckProductStock(o, s, e.checkFault);
    if !inStock && tcp && e.stockLost then Outcome(s, false, 0)
    else PassSettled(s, tcp, o, e, valid && inStock)
  }

  function PassSettled(s: Stock, tcp: bool, o: Order, e: Env, approved: bool): Outcome {
    var (moved, result) := if approved then Transfer(s, o, e.debitFault, e.creditFault) else (s, 0);
    if result > 0 && tcp && e.successLost then Outcome(moved, false, result) else
    var (after, crashed) := Tail(moved, tcp, o, e);
    Outcome(after, crashed, result)
  }

  /** Whether the pass gets to the end of the loop body, where the message is handed on. */
  predicate PassCompletes(s: Stock, tcp: bool, o: Order, e: Env) {
    var verdict, inStock := ValidateOrderLimits(o), CheckProductStock(o, s, e.checkFault);
    && !verdict.Crashed?
    && !(verdict.Rejected? && tcp && e.invalidLost)
    && !(!inStock && tcp && e.stockLost)
    && SettledCompletes(s, tcp, o, e, verdict.Accepted? && inStock)
  }

  predicate SettledCompletes(s: Stock, tcp: bool, o: Order, e: Env, approved: bool) {
    var (moved, result) := if approved then Transfer(s, o, e.debitFault, e.creditFault) else (s, 0);
    !(result > 0 && tcp && e.successLost) && TailCompletes(moved, tcp, o, e)
  }

  predicate TailCompletes(s: Stock, tcp: bool, o: Order, e: Env) {
    && !Unconvertible(o)
    && !(IsLow(s, o, e.lowFault) && tcp && e.lowLost)
    && !(Replenish(s, o, e.readFault, e.writeFault).1 && tcp && e.restockLost)
  }

  /** A lost reply means nothing to the UDP loop: only a crash keeps a pass from its end, and without
    * statement failures the pass is that of a calm day.
    */
  lemma UdpIgnoresLostReplies(s: Stock, o: Order, e: Env)
    ensures PassCompletes(s, false, o, e) <==> !Pass(s, false, o, e).crashed
    ensures NoFault(e) ==> Pass(s, false, o, e) == Pass(s, false, o, CALM)
  {
  }

  // ---------- the machine does the pass ----------

  /** The machine, driven alone, ends with these tables, with or without the process, and with or without success. */
  ghost predicate Yields(d: Solo, stock: Stock, crashed: bool, confirmed: bool) {
    && d.stock == stock
    && d.crash == crashed
    && (!crashed ==> d.me.phase.Idle?)
    && (confirmed <==> Confirms(d.events))
  }

  ghost predicate Confirms(events: seq<Event>) {
    exists ev <- events :: ev.Confirmed?
  }

  lemma ConfirmsConcat(a: seq<Event>, b: seq<Event>)
    ensures Confirms(a + b) <==> Confirms(a) || Confirms(b)
  {
    if Confirms(a) {
      var ev :| ev in a && ev.Confirmed?;
      assert ev in a + b;
    }
    if Confirms(b) {
      var ev :| ev in b && ev.Confirmed?;
      assert ev in a + b;
    }
  }

  /** One step of a pass, for what a pass yields. */
  lemma StepYields(s: Stock, me: Handler, e: Env, move: Move, stock: Stock, crashed: bool, confirmed: bool)
    requires !me.phase.Idle? && move == Decide(s, me, FaultAt(e, me.phase), LostAt(e, me.phase)) && !move.crash
    requires Yields(Drive(move.stock, me.(phase := move.next), e), stock, crashed, confirmed)
    ensures Yields(Drive(s, me, e), stock, crashed, confirmed || Confirms(move.events))
  {
    ConfirmsConcat(move.events, Drive(move.stock, me.(phase := move.next), e).events);
  }

  /** A pass that stops here. */
  lemma StopYields(s: Stock, me: Handler, e: Env)
    requires me.phase.Idle?
    ensures Yields(Drive(s, me, e), s, false, false)
  {
  }

  lemma RestockingYields(s: Stock, tcp: bool, o: Order, e: Env, amount: int)
    ensures Yields(Drive(s, Handler(tcp, Restocking(amount), o), e), UpdateAt(s, SourceKey(o), amount, e.writeFault).0, false, false)
  {
  }

  lemma LowCheckedYields(s: Stock, tcp: bool, o: Order, e: Env)
    requires !Unconvertible(o)
    ensures Yields(Drive(s, Handler(tcp, LowChecked, o), e), Replenish(s, o, e.readFault, e.writeFault).0, false, false)
  {
    if o.Src().place.Warehouse? {
      RestockingYields(s, tcp, o, e, MAX_CAPACITY - Read(s, SourceKey(o).value, e.readFault));
    }
  }

  lemma SettledYields(s: Stock, tcp: bool, o: Order, e: Env)
    ensures Yields(Drive(s, Handler(tcp, Settled, o), e), Tail(s, tcp, o, e).0, Tail(s, tcp, o, e).1, false)
  {
    if !Unconvertible(o) {
      LowCheckedYields(s, tcp, o, e);
    }
  }

  /** How a pass ends once the tables are t and `realTimeUpdate` has returned. */
  ghost predicate Ends(d: Solo, t: Stock, result: int, tcp: bool, o: Order, e: Env) {
    if result > 0 && tcp && e.successLost then Yields(d, t, false, true)
    else Yields(d, Tail(t, tcp, o, e).0, Tail(t, tcp, o, e).1, result > 0)
  }

  lemma DebitedEnds(s: Stock, tcp: bool, o: Order, e: Env)
    ensures var (t, result) := UpdateAt(s, CreditKey(o), o.Prod().quantity, e.creditFault);
            Ends(Drive(s, Handler(tcp, Debited, o), e), t, result, tcp, o, e)
  {
    var me := Handler(tcp, Debited, o);
    var (t, result) := UpdateAt(s, CreditKey(o), o.Prod().quantity, e.creditFault);
    LastStatement(s, me, e, t, result, if result > 0 then [Credited(o), Confirmed(o)] else [Lost(o)]);
  }

  /** The statement after which `realTimeUpdate` returns. */
  lemma LastStatement(s: Stock, me: Handler, e: Env, t: Stock, result: int, events: seq<Event>)
    requires me.phase.Checked? || me.phase.Debited?
    requires events in {[Credited(me.order), Confirmed(me.order)], [Taken(me.order), Confirmed(me.order)], [Lost(me.order)], [Dropped(me.order)]}
    requires result > 0 <==> |events| == 2
    requires Decide(s, me, FaultAt(e, me.phase), e.successLost) == Move(t, if result > 0 && me.tcp && e.successLost then Idle else Settled, events, false)
    ensures Ends(Drive(s, me, e), t, result, me.tcp, me.order, e)
  {
    var move := Decide(s, me, FaultAt(e, me.phase), e.successLost);
    assert Confirms(events) <==> result > 0 by {
      assert result > 0 ==> events[1] == Confirmed(me.order);
    }
    if move.next.Idle? {
      StopYields(t, me.(phase := Idle), e);
      StepYields(s, me, e, move, t, false, false);
    } else {
      SettledYields(t, me.tcp, me.order, e);
      StepYields(s, me, e, move, Tail(t, me.tcp, me.order, e).0, Tail(t, me.tcp, me.order, e).1, false);
    }
  }

  /** A statement that confirms nothing does not change how the pass ends. */
  lemma StepEnds(s: Stock, me: Handler, e: Env, move: Move, t: Stock, result: int)
    requires !me.phase.Idle? && move == Decide(s, me, FaultAt(e, me.phase), LostAt(e, me.phase)) && !move.crash
    requires Ends(Drive(move.stock, me.(phase := move.next), e), t, result, me.tcp, me.order, e) && !Confirms(move.events)
    ensures Ends(Drive(s, me, e), t, result, me.tcp, me.order, e)
  {
    if result > 0 && me.tcp && e.successLost {
      StepYields(s, me, e, move, t, false, true);
    } else {
      StepYields(s, me, e, move, Tail(t, me.tcp, me.order, e).0, Tail(t, me.tcp, me.order, e).1, result > 0);
    }
  }

  lemma CheckedEnds(s: Stock, tcp: bool, o: Order, e: Env)
    ensures var (t, result) := Transfer(s, o, e.debitFault, e.creditFault);
            Ends(Drive(s, Handler(tcp, Checked, o), e), t, result, tcp, o, e)
  {
    var me := Handler(tcp, Checked, o);
    var (t, result) := UpdateAt(s, SourceKey(o), -o.Prod().quantity, e.debitFault);
    if result <= 0 || CreditKey(o).None? {
      LastStatement(s, me, e, t, result, if result > 0 then [Taken(o), Confirmed(o)] else [Dropped(o)]);
    } else {
      DebitedEnds(t, tcp, o, e);
      var (t', result') := UpdateAt(t, CreditKey(o), o.Prod().quantity, e.creditFault);
      StepEnds(s, me, e, Move(t, Debited, [Taken(o)], false), t', result');
    }
  }

  lemma ValidatedYields(s: Stock, tcp: bool, o: Order, e: Env, valid: bool)
    ensures var p := PassChecked(s, tcp, o, e, valid);
            Yields(Drive(s, Handler(tcp, Validated(valid), o), e), p.stock, p.crashed, p.result > 0)
  {
    CheckedEnds(s, tcp, o, e);
    SettledYields(s, tcp, o, e);
  }

  /** The machine, when one handler runs alone, does what the code of a pass does, whatever fails on the way. */
  lemma MachineDoesPass(s: Stock, tcp: bool, o: Order, e: Env)
    ensures var p := Pass(s, tcp, o, e);
            Yields(Drive(s, Start(tcp, o), e), p.stock, p.crashed, p.result > 0)
  {
    ValidatedYields(s, tcp, o, e, ValidateOrderLimits(o).Accepted?);
  }

  // ---------- what a pass without faults amounts to ----------

  /** The source row can give the quantity. */
  predicate Holds(s: Stock, o: Order) {
    SourceKey(o).Some? && SourceKey(o).value in s && s[SourceKey(o).value] >= o.Prod().quantity
  }

  /** The order names a source row, and the row holds enough. */
  predicate Available(s: Stock, o: Order) {
    o.Src().location.Some? && Holds(s, o)
  }

  /** The destination needs no row, or has one with room in its column. */
  predicate Deliverable(s: Stock, o: Order) {
    CreditKey(o).Some? ==>
      && CreditKey(o).value in s
      && (CreditKey(o) == SourceKey(o) || s[CreditKey(o).value] + o.Prod().quantity <= MAX_INT)
  }

  /** One atomic transfer, but for goods whose destination cannot take them: these have left the source all the same. */
  function Moved(s: Stock, o: Order): Stock {
    if !(Admissible(o) && Available(s, o)) then s else
    var q := o.Prod().quantity;
    var taken := s[SourceKey(o).value := s[SourceKey(o).value] - q];
    if CreditKey(o).None? || !Deliverable(s, o) then taken
    else taken[CreditKey(o).value := taken[CreditKey(o).value] + q]
  }

  /** A warehouse row at 100 or less is filled to 1000. */
  function ToppedUp(s: Stock, o: Order): Stock {
    if o.Src().place.Warehouse? && SourceKey(o).value in s && s[SourceKey(o).value] <= RESTOCK_THRESHOLD
    then s[SourceKey(o).value := MAX_CAPACITY] else s
  }

  lemma MovedInRange(s: Stock, o: Order)
    requires InRange(s)
    ensures InRange(Moved(s, o)) && Moved(s, o).Keys == s.Keys
  {
    ValidationMeetsLimits(o);
  }

  lemma TransferMoves(s: Stock, o: Order)
    requires InRange(s) && Admissible(o) && Available(s, o)
    ensures Transfer(s, o, false, false) == (Moved(s, o), if Deliverable(s, o) then 1 else -1)
  {
    ValidationMeetsLimits(o);
  }

  lemma ReplenishTopsUp(s: Stock, o: Order)
    requires InRange(s)
    ensures Replenish(s, o, false, false).0 == ToppedUp(s, o)
  {
  }

  /** A whole pass alone and without faults: it ends the process exactly when the product is unknown or a warehouse
    * order lacks a number; otherwise it is one transfer followed by one top-up. It succeeds exactly when the order is
    * admissible, the source row holds enough and the destination can take it.
    */
  lemma PassIsTransfer(s: Stock, tcp: bool, o: Order)
    requires InRange(s)
    ensures var p := Pass(s, tcp, o, CALM);
            && (p.crashed <==> NamesUnknownProduct(o) || Unconvertible(o))
            && p.stock == (if p.crashed then Moved(s, o) else ToppedUp(Moved(s, o), o))
            && (p.result > 0 <==> Admissible(o) && Available(s, o) && Deliverable(s, o))
  {
    ValidationMeetsLimits(o);
    MovedInRange(s, o);
    ReplenishTopsUp(Moved(s, o), o);
    if Admissible(o) {
      assert CheckProductStock(o, s, false) <==> Available(s, o);
      if Available(s, o) {
        TransferMoves(s, o);
      }
    }
  }

  /** The same of the machine: from any state in which the other handlers stand still, receiving an order and
    * carrying it through is one transfer and one top-up, and nothing else in the state moves.
    */
  lemma SoloRunIsTransfer(s: State, h: nat, o: Order)
    requires !s.crashed && h < |s.handlers| && s.handlers[h].phase.Idle? && InRange(s.stock)
    ensures var t := Run(s, [Receive(h, Doc(o))] + DriveInputs(s.stock, Start(s.handlers[h].tcp, o), h, CALM));
            && (t.crashed <==> NamesUnknownProduct(o) || Unconvertible(o))
            && t.stock == (if t.crashed then Moved(s.stock, o) else ToppedUp(Moved(s.stock, o), o))
            && t.ledger == Record(s.ledger, Doc(o))
            && |t.handlers| == |s.handlers| && (!t.crashed ==> t.handlers[h].phase.Idle?)
            && (forall i :: 0 <= i < |s.handlers| && i != h ==> t.handlers[i] == s.handlers[i])
  {
    var start := Start(s.handlers[h].tcp, o);
    var r := s.(ledger := Record(s.ledger, Doc(o)), handlers := s.handlers[h := start]);
    assert Step(s, Receive(h, Doc(o))) == r;
    RunFirst(s, Receive(h, Doc(o)), DriveInputs(s.stock, start, h, CALM));
    DriveIsRun(r, h, CALM);
    MachineDoesPass(s.stock, start.tcp, o, CALM);
    PassIsTransfer(s.stock, start.tcp, o);
  }

  /** When validation or the stock check turns the order down, the machine does nothing but a top-up of the order's own warehouse row. */
  lemma RejectedOrderOnlyTopsUp(s: Stock, tcp: bool, o: Order)
    requires InRange(s) && !(Admissible(o) && Available(s, o))
    ensures var d := Drive(s, Start(tcp, o), CALM);
            d.stock == (if NamesUnknownProduct(o) || Unconvertible(o) then s else ToppedUp(s, o)) && !Confirms(d.events)
  {
    PassIsTransfer(s, tcp, o);
    MachineDoesPass(s, tcp, o, CALM);
  }

  // ---------- what lost replies do to a pass ----------

  /** Every reply can be written. */
  predicate NoLoss(e: Env) {
    !e.ackLost && !e.invalidLost && !e.stockLost && !e.successLost && !e.lowLost && !e.restockLost
  }

  /** The tables once `realTimeUpdate` is behind the pass. */
  function AfterUpdate(s: Stock, o: Order, e: Env): Stock {
    if Admissible(o) && CheckProductStock(o, s, e.checkFault) then Transfer(s, o, e.debitFault, e.creditFault).0 else s
  }

  /** The low-stock alert is written: the warehouse row is read and is at 200 or less. */
  predicate AlertWritten(s: Stock, o: Order, e: Env) {
    && o.Src().place == Warehouse && !e.lowFault
    && SourceKey(o).value in s && s[SourceKey(o).value] <= 200
  }

  /** The re-stock reply is written: the warehouse row is read and is above 100, or is filled just now. */
  predicate RestockWritten(s: Stock, o: Order, e: Env) {
    && o.Src().place == Warehouse && !e.readFault
    && SourceKey(o).value in s && (s[SourceKey(o).value] > 100 || !e.writeFault)
  }

  lemma AfterUpdateInRange(s: Stock, o: Order, e: Env)
    requires InRange(s)
    ensures InRange(AfterUpdate(s, o, e))
  {
  }

  /** A TCP pass reaches `processMessage` exactly when it does not crash and each reply it writes gets through: that of
    * a failed validation, of a failed stock check, of success, of low stock and of the re-stock.
    */
  lemma TcpPassCompletesIff(s: Stock, o: Order, e: Env)
    requires InRange(s)
    ensures var t := AfterUpdate(s, o, e);
            PassCompletes(s, true, o, e) <==>
              && !Pass(s, true, o, e).crashed
              && (!Admissible(o) ==> !e.invalidLost)
              && (!CheckProductStock(o, s, e.checkFault) ==> !e.stockLost)
              && (Pass(s, true, o, e).result > 0 ==> !e.successLost)
              && (AlertWritten(t, o, e) ==> !e.lowLost)
              && (RestockWritten(t, o, e) ==> !e.restockLost)
  {
    ValidationMeetsLimits(o);
    AfterUpdateInRange(s, o, e);
    RepliesOfTail(AfterUpdate(s, o, e), o, e);
  }

  lemma RepliesOfTail(t: Stock, o: Order, e: Env)
    requires InRange(t)
    ensures IsLow(t, o, e.lowFault) <==> AlertWritten(t, o, e)
    ensures Replenish(t, o, e.readFault, e.writeFault).1 <==> RestockWritten(t, o, e)
  {
  }

  /** On both protocols, while no reply is lost, a pass reaches its end exactly when it does not crash. */
  lemma PassCompletesUnlessLost(s: Stock, tcp: bool, o: Order, e: Env)
    requires NoLoss(e)
    ensures PassCompletes(s, tcp, o, e) <==> !Pass(s, tcp, o, e).crashed
  {
  }

  /** A TCP pass stops at the first reply that is lost and keeps what was done by then: nothing after a failed validation
    * or stock check, the transfer without any top-up after the reply of success or the low-stock alert.
    */
  lemma TcpPassStopsAtLostReply(s: Stock, o: Order, e: Env)
    requires InRange(s) && NoFault(e) && !NamesUnknownProduct(o)
    ensures var (p, t) := (Pass(s, true, o, e), Moved(s, o));
            var turned := (!Admissible(o) && e.invalidLost) || (!CheckProductStock(o, s, false) && e.stockLost);
            var stopped := Admissible(o) && Available(s, o) && Deliverable(s, o) && e.successLost;
            && (p.crashed <==> !turned && !stopped && Unconvertible(o))
            && p.stock == (if turned then s else if stopped || p.crashed || (AlertWritten(t, o, e) && e.lowLost) then t else ToppedUp(t, o))
            && (p.result > 0 <==> Admissible(o) && Available(s, o) && Deliverable(s, o))
  {
    ValidationMeetsLimits(o);
    MovedInRange(s, o);
    ReplenishTopsUp(Moved(s, o), o);
    RepliesOfTail(Moved(s, o), o, e);
    if Admissible(o) {
      assert CheckProductStock(o, s, false) <==> Available(s, o);
      if Available(s, o) {
        TransferMoves(s, o);
      }
    }
  }

  // ---------- when realTimeUpdate is atomic ----------

  /** `realTimeUpdate` between two rows, whatever statement fails: it keeps the product's total exactly when the debit
    * does not take place, or the credit statement succeeds and the destination can take the goods. It reports success
    * exactly when both take place.
    */
  lemma TransferIsAtomicIff(s: Stock, o: Order, debitFault: bool, creditFault: bool)
    requires InRange(s) && o.Prod().quantity > 0 && CreditKey(o).Some?
    ensures var (t, result) := Transfer(s, o, debitFault, creditFault);
            var debited := !debitFault && Holds(s, o);
            && (StockOf(t, o.Prod().name) == StockOf(s, o.Prod().name) <==> !debited || (!creditFault && Deliverable(s, o)))
            && (result > 0 <==> debited && !creditFault && Deliverable(s, o))
  {
    var debited := UpdateAt(s, SourceKey(o), -o.Prod().quantity, debitFault).0;
    StockOfUpdate(s, SourceKey(o), -o.Prod().quantity, debitFault, o.Prod().name);
    StockOfUpdate(debited, CreditKey(o), o.Prod().quantity, creditFault, o.Prod().name);
  }

  /** Goods that leave and never arrive: sent to hub 9, which has no row, and sent to hub 1 when the credit statement fails. */
  lemma TransferLosesGoods()
    ensures var (w, h) := (Key(Warehouses, 1, "Water"), Key(Hubs, 1, "Water"));
            var s := map[w := 500, h := 0];
            && Admissible(WaterFor(9)) && Available(s, WaterFor(9)) && Admissible(WaterFor(1)) && Available(s, WaterFor(1))
            && Transfer(s, WaterFor(9), false, false) == (map[w := 480, h := 0], -1)
            && Transfer(s, WaterFor(1), false, true) == (map[w := 480, h := 0], -1)
            && Transfer(s, WaterFor(1), false, false) == (map[w := 480, h := 20], 1)
  {
    assert "Water" in CRITICAL_PRODUCTS && CRITICAL_PRODUCTS["Water"];
    var w, h := Key(Warehouses, 1, "Water"), Key(Hubs, 1, "Water");
    var s := map[w := 500, h := 0];
    assert s[w := 480] == map[w := 480, h := 0];
    assert map[w := 480, h := 0][h := 20] == map[w := 480, h := 20];
  }
}
