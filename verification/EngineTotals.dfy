/** The books of the machine: totals over the log of events, over the handlers, and over the rows. */
module EngineTotals {
  import opened Orders
  import opened StockTables
  import opened OrderEngine

  // ---------- totals over the log ----------

  datatype Measure =
    | TakenFrom(key: Key)        // quantity debited from a row
    | CreditedTo(key: Key)       // quantity credited to a row
    | RestockedInto(key: Key)    // quantity restocked into a row
    | RestocksOf(key: Key)       // number of restocks of a row
    | TakenOf(product: string)
    | CreditedOf(product: string)
    | ShippedOf(product: string) // quantity debited for a destination without a row
    | ShipmentsOf(product: string)
    | LostOf(product: string)    // quantity debited whose credit failed
    | ConfirmedOf(product: string)
    | DroppedOf(product: string)
    | RestockedOf(product: string)

  function Weight(m: Measure, e: Event): int {
    match m
    case TakenFrom(k) => if e.Taken? && SourceKey(e.order) == Some(k) then e.order.Prod().quantity else 0
    case CreditedTo(k) => if e.Credited? && CreditKey(e.order) == Some(k) then e.order.Prod().quantity else 0
    case RestockedInto(k) => if e.Restocked? && e.key == k then e.amount else 0
    case RestocksOf(k) => if e.Restocked? && e.key == k then 1 else 0
    case TakenOf(p) => if e.Taken? && e.order.Prod().name == p then e.order.Prod().quantity else 0
    case CreditedOf(p) => if e.Credited? && e.order.Prod().name == p then e.order.Prod().quantity else 0
    case ShippedOf(p) => if e.Taken? && CreditKey(e.order).None? && e.order.Prod().name == p then e.order.Prod().quantity else 0
    case ShipmentsOf(p) => if e.Taken? && CreditKey(e.order).None? && e.order.Prod().name == p then 1 else 0
    case LostOf(p) => if e.Lost? && e.order.Prod().name == p then e.order.Prod().quantity else 0
    case ConfirmedOf(p) => if e.Confirmed? && e.order.Prod().name == p then e.order.Prod().quantity else 0
    case DroppedOf(p) => if e.Dropped? then e.order.Wanted(p) else 0
    case RestockedOf(p) => if e.Restocked? && e.key.product == p then e.amount else 0
  }

  function Total(m: Measure, log: seq<Event>): int {
    if log == [] then 0 else Total(m, log[..|log| - 1]) + Weight(m, log[|log| - 1])
  }

  lemma {:induction false} TotalConcat(m: Measure, a: seq<Event>, b: seq<Event>)
    ensures Total(m, a + b) == Total(m, a) + Total(m, b)
  {
    if b == [] {
      assert a + b == a;
    } else {
      assert (a + b)[..|a + b| - 1] == a + b[..|b| - 1];
      TotalConcat(m, a, b[..|b| - 1]);
    }
  }

  /** What one step books: at most two events. */
  function Booked(m: Measure, events: seq<Event>): int {
    (if |events| > 0 then Weight(m, events[0]) else 0) + (if |events| > 1 then Weight(m, events[1]) else 0)
  }

  lemma TotalBooked(m: Measure, log: seq<Event>, events: seq<Event>)
    requires |events| <= 2
    ensures Total(m, log + events) == Total(m, log) + Booked(m, events)
  {
    TotalConcat(m, log, events);
    if |events| == 2 {
      assert events[..1] == [events[0]];
      TotalConcat(m, [], [events[0]]);
    }
  }

  // ---------- totals over the handlers ----------

  datatype Duty =
    | CreditDue(product: string) // debited, not yet credited
    | RestockDue(key: Key)       // read as low, not yet written
    | OrderDue(product: string)  // stored, not yet debited or dropped

  function DutyOf(d: Duty, h: Handler): int {
    match d
    case CreditDue(p) => if h.phase.Debited? && h.order.Prod().name == p then h.order.Prod().quantity else 0
    case RestockDue(k) => if h.phase.Restocking? && SourceKey(h.order) == Some(k) then h.phase.amount else 0
    case OrderDue(p) => if h.phase.Parsed? || h.phase.Validated? || h.phase.Checked? then h.order.Wanted(p) else 0
  }

  function Load(d: Duty, hs: seq<Handler>): int {
    if hs == [] then 0 else Load(d, hs[..|hs| - 1]) + DutyOf(d, hs[|hs| - 1])
  }

  lemma {:induction false} LoadUpdate(d: Duty, hs: seq<Handler>, i: nat, h: Handler)
    requires i < |hs|
    ensures Load(d, hs[i := h]) == Load(d, hs) - DutyOf(d, hs[i]) + DutyOf(d, h)
  {
    var n := |hs| - 1;
    if i == n {
      assert hs[i := h][..n] == hs[..n];
    } else {
      assert hs[i := h][..n] == hs[..n][i := h];
      LoadUpdate(d, hs[..n], i, h);
    }
  }

  /** Handlers whose duty is between 0 and `most` each, and 0 for the idle ones. */
  lemma {:induction false} LoadBounds(d: Duty, hs: seq<Handler>, most: int)
    requires forall h <- hs :: 0 <= DutyOf(d, h) <= most
    ensures 0 <= Load(d, hs) <= most * |hs|
  {
    if hs != [] {
      LoadBounds(d, hs[..|hs| - 1], most);
      assert DutyOf(d, hs[|hs| - 1]) <= most;
    }
  }

  lemma {:induction false} LoadOfIdle(d: Duty, hs: seq<Handler>)
    requires forall h <- hs :: h.phase.Idle?
    ensures Load(d, hs) == 0
  {
    if hs != [] {
      LoadOfIdle(d, hs[..|hs| - 1]);
    }
  }

  lemma {:induction false} LoadPositive(d: Duty, hs: seq<Handler>)
    requires forall h <- hs :: 0 <= DutyOf(d, h)
    ensures 0 <= Load(d, hs)
  {
    if hs != [] {
      LoadPositive(d, hs[..|hs| - 1]);
    }
  }

  // ---------- totals over the rows ----------

  ghost function SumOver(s: Stock, keys: set<Key>): int
    requires keys <= s.Keys
  {
    if keys == {} then 0 else var k :| k in keys; s[k] + SumOver(s, keys - {k})
  }

  lemma {:induction false} SumRemove(s: Stock, keys: set<Key>, k: Key)
    requires keys <= s.Keys && k in keys
    ensures SumOver(s, keys) == s[k] + SumOver(s, keys - {k})
    decreases |keys|
  {
    var j :| j in keys && SumOver(s, keys) == s[j] + SumOver(s, keys - {j});
    if j != k {
      SumRemove(s, keys - {j}, k);
      SumRemove(s, keys - {k}, j);
      assert keys - {j} - {k} == keys - {k} - {j};
    }
  }

  lemma {:induction false} SumAgree(s: Stock, t: Stock, keys: set<Key>)
    requires keys <= s.Keys && keys <= t.Keys
    requires forall k <- keys :: s[k] == t[k]
    ensures SumOver(s, keys) == SumOver(t, keys)
    decreases |keys|
  {
    if keys != {} {
      var k :| k in keys;
      SumRemove(s, keys, k);
      SumRemove(t, keys, k);
      SumAgree(s, t, keys - {k});
    }
  }

  lemma {:induction false} SumPositive(s: Stock, keys: set<Key>)
    requires keys <= s.Keys && forall k <- keys :: s[k] >= 0
    ensures SumOver(s, keys) >= 0
    decreases |keys|
  {
    if keys != {} {
      var k :| k in keys;
      SumRemove(s, keys, k);
      SumPositive(s, keys - {k});
    }
  }

  /** Everything the hubs and warehouses hold of a product. */
  ghost function StockOf(s: Stock, product: string): int {
    SumOver(s, set k <- s | k.product == product)
  }

  lemma StockOfWrite(s: Stock, k: Key, v: int, product: string)
    requires k in s
    ensures StockOf(s[k := v], product) == StockOf(s, product) + if k.product == product then v - s[k] else 0
  {
    var keys := set j <- s | j.product == product;
    assert keys == set j <- s[k := v] | j.product == product;
    if k in keys {
      SumRemove(s, keys, k);
      SumRemove(s[k := v], keys, k);
      SumAgree(s, s[k := v], keys - {k});
    } else {
      SumAgree(s, s[k := v], keys);
    }
  }

  /** An UPDATE moves the total of its key's product by its amount, or not at all. */
  lemma StockOfUpdate(s: Stock, k: Option<Key>, delta: int, fault: bool, product: string)
    ensures var (t, result) := UpdateAt(s, k, delta, fault);
            StockOf(t, product) == StockOf(s, product) + if result == 1 && k.value.product == product then delta else 0
  {
    if UpdateAt(s, k, delta, fault).1 == 1 {
      StockOfWrite(s, k.value, s[k.value] + delta, product);
    }
  }
}
