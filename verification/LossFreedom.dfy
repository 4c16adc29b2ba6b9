/** When goods can be lost between a debit and its credit, with any number of handlers at work. */
module LossFreedom {
  import opened Orders
  import opened StockTables
  import opened OrderEngine
  import opened EngineTotals
  import opened EngineAccounts

  lemma RowWithinStock(s: Stock, k: Key)
    requires InRange(s) && k in s
    ensures s[k] <= StockOf(s, k.product)
  {
    var keys := set j <- s | j.product == k.product;
    SumRemove(s, keys, k);
    SumPositive(s, keys - {k});
  }

  lemma DutyWithinLoad(d: Duty, hs: seq<Handler>, i: nat)
    requires i < |hs| && forall h <- hs :: 0 <= DutyOf(d, h)
    ensures DutyOf(d, hs[i]) <= Load(d, hs)
  {
    var idle := hs[i].(phase := Idle);
    LoadUpdate(d, hs, i, idle);
    LoadPositive(d, hs[i := idle]);
  }

  /** While the holdings at the start and all restocks of a product together fit a column, every credit on its way fits its row. */
  lemma CreditsFit(init: State, inputs: seq<Input>, h: nat)
    requires Initial(init) && h < |Run(init, inputs).handlers| && Run(init, inputs).handlers[h].phase.Debited?
    requires var s := Run(init, inputs);
             var p := s.handlers[h].order.Prod().name;
             StockOf(init.stock, p) + Total(RestockedOf(p), s.log) <= MAX_INT
    ensures var s := Run(init, inputs);
            var o := s.handlers[h].order;
            forall k <- s.stock :: k.product == o.Prod().name ==> 0 <= s.stock[k] + o.Prod().quantity <= MAX_INT
  {
    var s := Run(init, inputs);
    var o := s.handlers[h].order;
    var p := o.Prod().name;
    RowsStayInRange(init, inputs);
    Conservation(init, inputs, p);
    Sizes(init, inputs, Key(Hubs, 0, p));
    DutyWithinLoad(CreditDue(p), s.handlers, h);
    assert HandlerOk(s.handlers[h]);
    forall k <- s.stock | k.product == p ensures 0 <= s.stock[k] + o.Prod().quantity <= MAX_INT {
      RowWithinStock(s.stock, k);
    }
  }

  /** An input that no statement failure comes with, and whose order, if it is for this product, has a known destination row. */
  predicate Benign(init: State, a: Input, p: string) {
    match a
    case Advance(_, fault, _) => !fault
    case Receive(_, m) => m.Doc? ==> Routed(init.stock, m.order, p)
  }

  predicate Routed(s: Stock, o: Order, p: string) {
    o.Prod().name == p && CreditKey(o).Some? ==> CreditKey(o).value in s
  }

  /** What is being worked on was received. */
  lemma {:induction false} WorkIsRouted(init: State, inputs: seq<Input>, p: string)
    requires Initial(init) && forall a <- inputs :: Benign(init, a, p)
    ensures forall h <- Run(init, inputs).handlers :: h.phase.Idle? || Routed(init.stock, h.order, p)
  {
    if inputs != [] {
      var front, a := inputs[..|inputs| - 1], inputs[|inputs| - 1];
      WorkIsRouted(init, front, p);
      var s := Run(init, front);
      assert Benign(init, a, p);
      if !s.crashed && a.handler < |s.handlers| && a.Advance? {
        assert s.handlers[a.handler].phase.Idle? ==> Decide(s.stock, s.handlers[a.handler], a.fault, a.lost).next.Idle?;
      }
    }
  }

  lemma MoveRestockPositive(s: Stock, me: Handler, fault: bool, lost: bool, p: string)
    requires HandlerOk(me)
    ensures Booked(RestockedOf(p), Decide(s, me, fault, lost).events) >= 0
  {
  }

  lemma MoveLosesNothing(s: Stock, me: Handler, lost: bool, p: string)
    requires HandlerOk(me)
    requires me.phase.Debited? && me.order.Prod().name == p ==>
               CreditKey(me.order).value in s && 0 <= s[CreditKey(me.order).value] + me.order.Prod().quantity <= MAX_INT
    ensures Booked(LostOf(p), Decide(s, me, false, lost).events) == 0
  {
  }

  /** Goods are lost for three reasons only: a failed statement, a destination without a row, or a full column. In any
    * interleaving without the first two, and while all there ever was of the product fits a column, nothing is lost,
    * and so everything debited is credited, shipped or still on its way.
    */
  lemma {:induction false} NothingIsLost(init: State, inputs: seq<Input>, p: string)
    requires Initial(init) && forall a <- inputs :: Benign(init, a, p)
    requires StockOf(init.stock, p) + Total(RestockedOf(p), Run(init, inputs).log) <= MAX_INT
    ensures Total(LostOf(p), Run(init, inputs).log) == 0
  {
    if inputs != [] {
      var front, a := inputs[..|inputs| - 1], inputs[|inputs| - 1];
      var s := Run(init, front);
      RowsStayInRange(init, front);
      if !s.crashed && a.handler < |s.handlers| && a.Advance? {
        var me := s.handlers[a.handler];
        assert Benign(init, a, p);
        MoveRestockPositive(s.stock, me, a.fault, a.lost, p);
        StepTotals(s, a, RestockedOf(p), CreditDue(p));
        StepTotals(s, a, LostOf(p), CreditDue(p));
        NothingIsLost(init, front, p);
        WorkIsRouted(init, front, p);
        if me.phase.Debited? && me.order.Prod().name == p {
          assert HandlerOk(me);
          CreditsFit(init, front, a.handler);
        }
        MoveLosesNothing(s.stock, me, a.lost, p);
      } else {
        ReceiveTotals(s, a, p, Key(Hubs, 0, p));
        NothingIsLost(init, front, p);
      }
    }
  }
}
