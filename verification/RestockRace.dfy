/** How far handlers that race in `reStock` can overfill a warehouse row (src/common/lowStockChecker.cpp). */
module RestockRace {
  import opened Orders
  import opened OrderValidation
  import opened StockTables
  import opened OrderStorage
  import opened OrderEngine
  import opened EngineTotals
  import opened EngineAccounts

  /** A step either does not raise (row + own pending restock), or makes it 1000 out of no pending restock. */
  lemma MoveFills(s: Stock, me: Handler, fault: bool, lost: bool, k: Key)
    requires HandlerOk(me) && k in s && k.table.Warehouses?
    ensures var (move, due, due') := (Decide(s, me, fault, lost), DutyOf(RestockDue(k), me),
                                      DutyOf(RestockDue(k), me.(phase := Decide(s, me, fault, lost).next)));
            && k in move.stock
            && (move.stock[k] + due' <= s[k] + due || (due == 0 && move.stock[k] + due' == MAX_CAPACITY))
  {
  }

  /** Capacity: with n handlers and warehouse rows that start at 1000 or less, a row together with every restock
    * decided but not yet written never exceeds 1000 * n.
    */
  lemma {:induction false} CapacityBound(init: State, inputs: seq<Input>, k: Key)
    requires Initial(init) && |init.handlers| >= 1
    requires k in init.stock && k.table.Warehouses? && init.stock[k] <= MAX_CAPACITY
    ensures var s := Run(init, inputs);
            && k in s.stock
            && s.stock[k] + Load(RestockDue(k), s.handlers) <= MAX_CAPACITY * |init.handlers|
            && s.stock[k] <= MAX_CAPACITY * |init.handlers|
  {
    RowsStayInRange(init, inputs);
    PendingPositive(Run(init, inputs).handlers, k);
    if inputs == [] {
      LoadOfIdle(RestockDue(k), init.handlers);
    } else {
      var front, a := inputs[..|inputs| - 1], inputs[|inputs| - 1];
      var s := Run(init, front);
      CapacityBound(init, front, k);
      RowsStayInRange(init, front);
      if !s.crashed && a.handler < |s.handlers| && a.Advance? {
        MoveFills(s.stock, s.handlers[a.handler], a.fault, a.lost, k);
        StepTotals(s, a, RestockedInto(k), RestockDue(k));
        OthersPending(s.handlers, a.handler, k);
      } else {
        ReceiveTotals(s, a, k.product, k);
      }
    }
  }

  lemma PendingPositive(hs: seq<Handler>, k: Key)
    requires forall h <- hs :: HandlerOk(h)
    ensures 0 <= Load(RestockDue(k), hs) <= MAX_CAPACITY * |hs|
  {
    LoadBounds(RestockDue(k), hs, MAX_CAPACITY);
  }

  lemma {:induction false} OthersPending(hs: seq<Handler>, i: nat, k: Key)
    requires i < |hs| && forall h <- hs :: HandlerOk(h)
    ensures Load(RestockDue(k), hs) - DutyOf(RestockDue(k), hs[i]) <= MAX_CAPACITY * (|hs| - 1)
  {
    var n := |hs| - 1;
    if i == n {
      PendingPositive(hs[..n], k);
    } else {
      OthersPending(hs[..n], i, k);
      assert HandlerOk(hs[n]);
    }
  }

  /** Amortised: each restock of a row is paid for by 900 units debited from it, but for the first fill and the races. */
  lemma RestocksArePaidFor(init: State, inputs: seq<Input>, k: Key)
    requires Initial(init) && |init.handlers| >= 1
    requires k in init.stock && k.table.Warehouses? && init.stock[k] <= MAX_CAPACITY
    ensures var s := Run(init, inputs);
            900 * Total(RestocksOf(k), s.log) <= Total(TakenFrom(k), s.log) + MAX_CAPACITY * |init.handlers| - init.stock[k]
  {
    WarehouseLedger(init, inputs, k);
    Sizes(init, inputs, k);
    CapacityBound(init, inputs, k);
  }

  // ---------- the bound is reached ----------

  const WATER := Key(Warehouses, 1, "Water")

  /** A valid request for 20 units of an empty warehouse row. */
  const THIRST := WaterFor(1)

  /** The server as the seed data leaves it, cut down to one row, with n idle handlers. */
  function EmptyShop(n: nat): State {
    State(map[WATER := 0], seq(n, i => Handler(i > 0, Idle, THIRST)), EMPTY_LEDGER, [], false)
  }

  /** The first m handlers each bring one order up to the decision to restock. */
  function Crowd(m: nat): seq<Input> {
    if m == 0 then [] else
    Crowd(m - 1) + [Receive(m - 1, Doc(THIRST))] + Go(m - 1) + Go(m - 1) + Go(m - 1) + Go(m - 1)
  }

  function Go(h: nat): seq<Input> {
    [Advance(h, false, false)]
  }

  /** Then the first m handlers write. */
  function Fill(m: nat): seq<Input> {
    if m == 0 then [] else Fill(m - 1) + Go(m - 1)
  }

  lemma RunOne(s: State, inputs: seq<Input>, a: Input)
    ensures Run(s, inputs + [a]) == Step(Run(s, inputs), a)
  {
    assert (inputs + [a])[..|inputs|] == inputs;
  }

  function Thirsty(i: nat, phase: Phase): Handler {
    Handler(i > 0, phase, THIRST)
  }

  /** Against the empty row, the order is valid, is not in stock, and goes on to a restock of 1000. */
  lemma ThirstDecides(i: nat)
    ensures ValidateOrderLimits(THIRST) == Accepted
    ensures Decide(map[WATER := 0], Thirsty(i, Parsed(Accepted)), false, false) == Move(map[WATER := 0], Validated(true), [], false)
    ensures Decide(map[WATER := 0], Thirsty(i, Validated(true)), false, false) == Move(map[WATER := 0], Settled, [Dropped(THIRST)], false)
    ensures Decide(map[WATER := 0], Thirsty(i, Settled), false, false) == Move(map[WATER := 0], LowChecked, [], false)
    ensures Decide(map[WATER := 0], Thirsty(i, LowChecked), false, false) == Move(map[WATER := 0], Restocking(1000), [], false)
  {
    assert "Water" in CRITICAL_PRODUCTS && CRITICAL_PRODUCTS["Water"];
    assert THIRST.Prod() == Product(Some(2), "Water", 20) && THIRST.Src() == Source(Warehouse, Some(1));
    assert SourceKey(THIRST) == Some(WATER);
  }

  /** The first m handlers are about to write, handler m is in a phase, the others are idle. */
  ghost predicate Queue(s: State, n: nat, m: nat, phase: Phase) {
    && !s.crashed && s.stock == map[WATER := 0] && |s.handlers| == n && m <= n
    && (forall i :: 0 <= i < m ==> s.handlers[i] == Thirsty(i, Restocking(1000)))
    && (m < n ==> s.handlers[m] == Thirsty(m, phase))
    && (forall i :: m < i < n ==> s.handlers[i] == Thirsty(i, Idle))
  }

  lemma GoOn(init: State, t: seq<Input>, n: nat, m: nat, phase: Phase)
    requires m < n && Queue(Run(init, t), n, m, phase)
    requires var move := Decide(map[WATER := 0], Thirsty(m, phase), false, false); move.stock == map[WATER := 0] && !move.crash
    ensures Queue(Run(init, t + Go(m)), n, m, Decide(map[WATER := 0], Thirsty(m, phase), false, false).next)
  {
    RunOne(init, t, Advance(m, false, false));
  }

  lemma Arrive(init: State, t: seq<Input>, n: nat, m: nat)
    requires m < n && Queue(Run(init, t), n, m, Idle)
    ensures Queue(Run(init, t + [Receive(m, Doc(THIRST))]), n, m, Parsed(Accepted))
  {
    ThirstDecides(m);
    RunOne(init, t, Receive(m, Doc(THIRST)));
  }

  lemma OneMore(init: State, t: seq<Input>, n: nat, m: nat)
    requires m < n && Queue(Run(init, t), n, m, Idle)
    ensures Queue(Run(init, t + [Receive(m, Doc(THIRST))] + Go(m) + Go(m) + Go(m) + Go(m)), n, m + 1, Idle)
  {
    var t' := t + [Receive(m, Doc(THIRST))];
    ThirstDecides(m);
    Arrive(init, t, n, m);
    GoOn(init, t', n, m, Parsed(Accepted));
    GoOn(init, t' + Go(m), n, m, Validated(true));
    GoOn(init, t' + Go(m) + Go(m), n, m, Settled);
    GoOn(init, t' + Go(m) + Go(m) + Go(m), n, m, LowChecked);
  }

  lemma {:induction false} CrowdGathers(n: nat, m: nat)
    requires m <= n
    ensures Queue(Run(EmptyShop(n), Crowd(m)), n, m, Idle)
  {
    if m > 0 {
      CrowdGathers(n, m - 1);
      OneMore(EmptyShop(n), Crowd(m - 1), n, m - 1);
    }
  }

  /** The write lands whenever the column can hold it, whatever the row has become since the read. */
  lemma FillOne(i: nat, held: nat)
    requires held + 1000 <= MAX_INT
    ensures Decide(map[WATER := held], Thirsty(i, Restocking(1000)), false, false)
            == Move(map[WATER := held + 1000], Idle, [Restocked(WATER, 1000)], false)
  {
    assert SourceKey(THIRST) == Some(WATER);
    assert map[WATER := held][WATER := held + 1000] == map[WATER := held + 1000];
  }

  /** Of the first c handlers, m have written and the others are about to. */
  ghost predicate Filled(s: State, c: nat, m: nat) {
    && !s.crashed && s.stock == map[WATER := 1000 * m] && m <= c <= |s.handlers|
    && (forall i :: m <= i < c ==> s.handlers[i] == Thirsty(i, Restocking(1000)))
  }

  lemma OneWrites(s: State, t: seq<Input>, c: nat, m: nat)
    requires m < c && 1000 * (m + 1) <= MAX_INT && Filled(Run(s, t), c, m)
    ensures Filled(Run(s, t + Go(m)), c, m + 1)
  {
    FillOne(m, 1000 * m);
    RunOne(s, t, Advance(m, false, false));
    var u, next := Run(s, t), Thirsty(m, Idle);
    assert u.handlers[m] == Thirsty(m, Restocking(1000));
    assert Step(u, Advance(m, false, false)).handlers == u.handlers[m := next];
  }

  lemma {:induction false} CrowdFills(s: State, c: nat, m: nat)
    requires m <= c && 1000 * m <= MAX_INT && Filled(s, c, 0)
    ensures Filled(Run(s, Fill(m)), c, m)
  {
    if m > 0 {
      CrowdFills(s, c, m - 1);
      OneWrites(s, Fill(m - 1), c, m - 1);
    }
  }

  /** The bound is reached for every number c of handlers that race, as long as the column can hold it. */
  lemma CapacityBoundIsReached(n: nat, c: nat)
    requires c <= n && 1000 * c <= MAX_INT
    ensures Initial(EmptyShop(n)) && |EmptyShop(n).handlers| == n
    ensures Run(EmptyShop(n), Crowd(c) + Fill(c)).stock == map[WATER := 1000 * c]
  {
    CrowdGathers(n, c);
    CrowdFills(Run(EmptyShop(n), Crowd(c)), c, c);
    RunConcat(EmptyShop(n), Crowd(c), Fill(c));
  }

  /** In this run a row that starts within its capacity is found above it. */
  ghost predicate Overfills(init: State, inputs: seq<Input>, k: Key) {
    && Initial(init)
    && k in init.stock && k.table.Warehouses? && init.stock[k] <= MAX_CAPACITY
    && k in Run(init, inputs).stock && Run(init, inputs).stock[k] > MAX_CAPACITY
  }

  /** The documented capacity of 1000 units is respected in every run exactly when there is a single handler. */
  lemma CapacityHoldsForOneHandlerOnly(n: nat)
    requires n >= 1
    ensures (forall init: State, inputs, k | |init.handlers| == n :: !Overfills(init, inputs, k)) <==> n == 1
  {
    if n == 1 {
      forall init: State, inputs, k | |init.handlers| == n ensures !Overfills(init, inputs, k) {
        if Overfills(init, inputs, k) {
          CapacityBound(init, inputs, k);
        }
      }
    } else {
      CapacityBoundIsReached(n, 2);
      assert Overfills(EmptyShop(n), Crowd(2) + Fill(2), WATER);
    }
  }
}
