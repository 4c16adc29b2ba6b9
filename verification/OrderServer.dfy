/** The message loops of src/server/server.cpp: what one connection does with each message, and with all of them. */
module OrderServer {
  import opened Orders
  import opened OrderValidation
  import opened StockTables
  import opened InventoryDb
  import opened OrderStorage
  import opened OrderEngine
  import opened OrderPass
  import opened StockChecks
  import opened ClientRegistry

  /** A message, from which address and when, and what fails while it is handled. */
  datatype Arrival = Arrival(message: Message, address: string, now: int, env: Env)

  /** What a connection works on. The two flags are locals declared outside the loop and keep their values across messages. */
  datatype Session = Session(
    stock: Stock, ledger: Ledger, clients: Registry, isValid: bool, productStock: bool, crashed: bool)

  /** On UDP, a number that is not a registered process id announces a client, and nothing else is done with the message. */
  predicate Announces(clients: Registry, tcp: bool, m: Message) {
    !tcp && m.Command? && m.number != 0 && !HasPid(clients.udp, m.number)
  }

  function After(x: Session, tcp: bool, a: Arrival): Session {
    if x.crashed || (tcp && a.env.ackLost) then x
    else if Announces(x.clients, tcp, a.message) then
      x.(clients := Registered(x.clients, UDP, a.message.number, a.address, 0, a.now).0)
    else match a.message
    case Command(_) => x
    case Unparseable => x.(ledger := Record(x.ledger, Unparseable))
    case Doc(o) =>
      var p := Pass(x.stock, tcp, o, a.env);
      var flags := FlagsAfter(x.isValid, x.productStock, x.stock, tcp, o, a.env);
      Session(p.stock, Record(x.ledger, Doc(o)), x.clients, flags.0, flags.1, p.crashed)
  }

  /** The verdict, and the stock check unless the pass ended before it. */
  function FlagsAfter(isValid: bool, productStock: bool, s: Stock, tcp: bool, o: Order, e: Env): (bool, bool) {
    match ValidateOrderLimits(o)
    case Crashed => (isValid, productStock)
    case Accepted => (true, CheckProductStock(o, s, e.checkFault))
    case Rejected(_) => (false, if tcp && e.invalidLost then productStock else CheckProductStock(o, s, e.checkFault))
  }

  function AfterAll(x: Session, tcp: bool, arrivals: seq<Arrival>): Session {
    if arrivals == [] then x else After(AfterAll(x, tcp, arrivals[..|arrivals| - 1]), tcp, arrivals[|arrivals| - 1])
  }

  class Connection {
    const tcp: bool
    const db: Database
    const storage: Storage
    const clients: ClientMaps
    var isValid: bool
    var productStock: bool
    var alertOut: Alert
    var crashed: bool

    ghost predicate Valid()
      reads this, db, storage, clients
    {
      db.Valid() && storage.Valid() && clients.Valid()
    }

    ghost function State(): Session
      reads this, db, storage, clients
    {
      Session(db.Stock(), storage.Contents(), clients.Contents(), isValid, productStock, crashed)
    }

    constructor (tcp: bool, db: Database, storage: Storage, clients: ClientMaps)
      requires db.Valid() && storage.Valid() && clients.Valid()
      ensures Valid() && this.tcp == tcp && this.db == db && this.storage == storage && this.clients == clients
      ensures isValid && productStock && !crashed
    {
      this.tcp, this.db, this.storage, this.clients := tcp, db, storage, clients;
      isValid, productStock, alertOut, crashed := true, true, NoAlert, false;
    }

    /** The body of the receive loop; `processed` tells whether the message reached `processMessage`. */
    method HandleMessage(a: Arrival) returns (processed: bool)
      requires Valid() && !crashed
      modifies this, db, storage, clients
      ensures Valid() && State() == After(old(State()), tcp, a)
      ensures processed == (!(tcp && a.env.ackLost) && isValid && productStock
                            && match a.message
                               case Command(p) => tcp || p == 0 || HasPid(old(clients.Contents()).udp, p)
                               case Unparseable => false
                               case Doc(o) => PassCompletes(old(db.Stock()), tcp, o, a.env))
    {
      var m, e := a.message, a.env;
      processed := false;
      if !tcp && m.Command? && m.number != 0 {
        var known := clients.HasUdpClient(m.number);
        if !known {
          var _ := clients.RegisterClient(UDP, m.number, a.address, 0, a.now);
          return;
        }
      }
      if tcp && e.ackLost {
        return;
      }
      if !m.Command? {
        storage.StoreOrder(m);
        if m.Unparseable? {
          return;
        }
        var done := HandleOrder(m.order, e);
        if done {
          return;
        }
      }
      processed := isValid && productStock;
    }

    /** The order pipeline; `done` tells that the loop goes on to the next message, or that the process is gone. */
    method HandleOrder(o: Order, e: Env) returns (done: bool)
      requires db.Valid() && !crashed
      modifies this, db
      ensures db.Valid()
      ensures db.Stock() == Pass(old(db.Stock()), tcp, o, e).stock && crashed == Pass(old(db.Stock()), tcp, o, e).crashed
      ensures isValid == FlagsAfter(old(isValid), old(productStock), old(db.Stock()), tcp, o, e).0
      ensures productStock == FlagsAfter(old(isValid), old(productStock), old(db.Stock()), tcp, o, e).1
      ensures done == !PassCompletes(old(db.Stock()), tcp, o, e)
    {
      var verdict := ValidateOrderLimits(o);
      if verdict.Crashed? {
        crashed := true;
        return true;
      }
      isValid := verdict.Accepted?;
      if !isValid && tcp && e.invalidLost {
        return true;
      }
      productStock := ProductInStock(db, o, e.checkFault);
      if !productStock && tcp && e.stockLost {
        return true;
      }
      done := SettleOrder(o, e);
    }

    /** The update, when both flags allow it, and the stock-level checks, which run in any case. */
    method SettleOrder(o: Order, e: Env) returns (done: bool)
      requires db.Valid() && !crashed
      modifies this`alertOut, this`crashed, db
      ensures db.Valid()
      ensures db.Stock() == PassSettled(old(db.Stock()), tcp, o, e, isValid && productStock).stock
      ensures crashed == PassSettled(old(db.Stock()), tcp, o, e, isValid && productStock).crashed
      ensures done == !SettledCompletes(old(db.Stock()), tcp, o, e, isValid && productStock)
    {
      if productStock && isValid {
        var result := db.RealTimeUpdate(o, e.debitFault, e.creditFault);
        if result > 0 && tcp && e.successLost {
          return true;
        }
      }
      done := CheckLevels(o, e);
    }

    method CheckLevels(o: Order, e: Env) returns (done: bool)
      requires db.Valid() && !crashed
      modifies this`alertOut, this`crashed, db
      ensures db.Valid()
      ensures (db.Stock(), crashed) == Tail(old(db.Stock()), tcp, o, e)
      ensures done == !TailCompletes(old(db.Stock()), tcp, o, e)
    {
      var lowStock;
      lowStock, alertOut, crashed := CheckLowStockAlert(db, o, alertOut, e.lowFault);
      if crashed || (lowStock && tcp && e.lowLost) {
        return true;
      }
      var reStocked;
      reStocked, alertOut, crashed := ReStock(db, o, alertOut, e.readFault, e.writeFault);
      done := crashed || (reStocked && tcp && e.restockLost);
    }

    /** The loop. */
    method Serve(arrivals: seq<Arrival>)
      requires Valid() && !crashed
      modifies this, db, storage, clients
      ensures Valid() && State() == AfterAll(old(State()), tcp, arrivals)
    {
      var n := 0;
      while n < |arrivals| && !crashed
        invariant 0 <= n <= |arrivals|
        invariant Valid() && State() == AfterAll(old(State()), tcp, arrivals[..n])
      {
        var _ := HandleMessage(arrivals[n]);
        assert arrivals[..n + 1][..n] == arrivals[..n];
        n := n + 1;
      }
      assert arrivals[..n] + arrivals[n..] == arrivals;
      CrashIsFinal(old(State()), tcp, arrivals[..n], arrivals[n..]);
    }
  }

  // ---------- a TCP client from its first message to its last ----------

  /** The first message announces the process id, the loop takes the others, and the end of the connection erases the entry. */
  function TcpSession(x: Session, pid: int, address: string, socket: int, now: int, arrivals: seq<Arrival>): Session {
    var joined := if pid == 0 then x else x.(clients := Registered(x.clients, TCP, pid, address, socket, now).0);
    var served := AfterAll(joined, true, arrivals);
    if pid == 0 || served.crashed then served else served.(clients := Apply(served.clients, Disconnect(socket, pid)))
  }

  method HandleTcpClient(c: Connection, pid: int, address: string, socket: int, now: int, arrivals: seq<Arrival>)
    requires c.Valid() && c.tcp && !c.crashed
    modifies c, c.db, c.storage, c.clients
    ensures c.Valid() && c.State() == TcpSession(old(c.State()), pid, address, socket, now, arrivals)
  {
    if pid != 0 {
      var _ := c.clients.RegisterClient(TCP, pid, address, socket, now);
    }
    c.Serve(arrivals);
    if !c.crashed {
      c.clients.EraseTcpClient(socket, pid);
    }
  }

  /** The TCP loop has nothing to do with the registered clients. */
  lemma {:induction false} TcpLoopKeepsClients(x: Session, arrivals: seq<Arrival>)
    ensures AfterAll(x, true, arrivals).clients == x.clients
  {
    if arrivals != [] {
      TcpLoopKeepsClients(x, arrivals[..|arrivals| - 1]);
    }
  }

  /** A TCP client that comes and goes leaves the registered clients as they were exactly when its process id was not
    * registered; otherwise the entry it found under that process id is gone.
    */
  lemma SessionKeepsClientsIff(x: Session, pid: int, address: string, socket: int, now: int, arrivals: seq<Arrival>)
    requires pid != 0 && !TcpSession(x, pid, address, socket, now, arrivals).crashed
    ensures var y := TcpSession(x, pid, address, socket, now, arrivals);
            && y.clients.udp == x.clients.udp
            && (y.clients.tcp == x.clients.tcp <==> !HasPid(x.clients.tcp, pid))
            && !HasPid(y.clients.tcp, pid)
  {
    var (joined, id) := Registered(x.clients, TCP, pid, address, socket, now);
    TcpLoopKeepsClients(x.(clients := joined), arrivals);
    if !HasPid(x.clients.tcp, pid) {
      WithoutAbsent(x.clients.tcp, pid);
      WithoutInserted(x.clients.tcp, Entry(pid, ClientInfo(x.clients.nextTcp, socket, address, TCP, now)));
    }
  }

  /** After a crash nothing happens any more. */
  lemma {:induction false} CrashIsFinal(x: Session, tcp: bool, before: seq<Arrival>, after: seq<Arrival>)
    requires AfterAll(x, tcp, before).crashed || after == []
    ensures AfterAll(x, tcp, before + after) == AfterAll(x, tcp, before)
  {
    if after == [] {
      assert before + after == before;
    } else {
      assert (before + after)[..|before + after| - 1] == before + after[..|after| - 1];
      CrashIsFinal(x, tcp, before, after[..|after| - 1]);
    }
  }

  // ---------- the UDP loop alone ----------

  ghost predicate Stocked(s: Stock) {
    InRange(s) && forall k <- s :: k.table.Warehouses? ==> s[k] <= MAX_CAPACITY
  }

  /** The message is a parsed order that names row k as its source. */
  predicate Names(a: Arrival, k: Key) {
    a.message.Doc? && SourceKey(a.message.order) == Some(k)
  }

  lemma TransferKeepsBand(s: Stock, o: Order, k: Key)
    requires Stocked(s) && k in s && k.table.Warehouses?
    ensures var t := ToppedUp(Moved(s, o), o);
            && Stocked(t) && t.Keys == s.Keys
            && (if SourceKey(o) == Some(k) then RESTOCK_THRESHOLD < t[k] <= MAX_CAPACITY else t[k] == s[k])
  {
    ValidationMeetsLimits(o);
    MovedInRange(s, o);
    assert forall j <- s :: j.table.Warehouses? ==> Moved(s, o)[j] <= s[j];
  }

  lemma OnePassKeepsBand(x: Session, a: Arrival, k: Key)
    requires Stocked(x.stock) && NoFault(a.env) && !After(x, false, a).crashed
    requires k in x.stock && k.table.Warehouses?
    ensures var y := After(x, false, a);
            && Stocked(y.stock) && y.stock.Keys == x.stock.Keys
            && (if Names(a, k) then RESTOCK_THRESHOLD < y.stock[k] <= MAX_CAPACITY else y.stock[k] == x.stock[k])
  {
    if a.message.Doc? {
      UdpIgnoresLostReplies(x.stock, a.message.order, a.env);
      PassIsTransfer(x.stock, false, a.message.order);
      TransferKeepsBand(x.stock, a.message.order, k);
    }
  }

  /** In a run without statement failures that only the UDP loop takes part in, every warehouse row that some parsed order has
    * named as its source lies between 101 and 1000 whenever the loop waits for the next message.
    */
  lemma {:induction false} WarehousesStayStocked(x: Session, arrivals: seq<Arrival>, k: Key)
    requires Stocked(x.stock) && k in x.stock && k.table.Warehouses?
    requires forall a <- arrivals :: NoFault(a.env)
    requires !AfterAll(x, false, arrivals).crashed
    ensures var y := AfterAll(x, false, arrivals);
            && Stocked(y.stock) && y.stock.Keys == x.stock.Keys
            && (if exists a <- arrivals :: Names(a, k) then 101 <= y.stock[k] <= 1000 else y.stock[k] == x.stock[k])
  {
    if arrivals != [] {
      var front, a := arrivals[..|arrivals| - 1], arrivals[|arrivals| - 1];
      assert arrivals == front + [a];
      WarehousesStayStocked(x, front, k);
      OnePassKeepsBand(AfterAll(x, false, front), a, k);
      if exists b <- arrivals :: Names(b, k) {
        var b :| b in arrivals && Names(b, k);
        assert b in front || b == a;
      }
      if exists b <- front :: Names(b, k) {
        var b :| b in front && Names(b, k);
        assert b in arrivals;
      }
    }
  }

  // ---------- who gets an answer ----------

  /** Messages that are not parsed orders leave the flags alone. */
  lemma {:induction false} OthersKeepFlags(x: Session, tcp: bool, arrivals: seq<Arrival>)
    requires forall a <- arrivals :: !a.message.Doc?
    ensures var y := AfterAll(x, tcp, arrivals);
            y.isValid == x.isValid && y.productStock == x.productStock && y.stock == x.stock && y.crashed == x.crashed
  {
    if arrivals != [] {
      OthersKeepFlags(x, tcp, arrivals[..|arrivals| - 1]);
    }
  }

  lemma {:induction false} AfterAllConcat(x: Session, tcp: bool, a: seq<Arrival>, b: seq<Arrival>)
    ensures AfterAll(x, tcp, a + b) == AfterAll(AfterAll(x, tcp, a), tcp, b)
  {
    if b == [] {
      assert a + b == a;
    } else {
      assert (a + b)[..|a + b| - 1] == a + b[..|b| - 1];
      AfterAllConcat(x, tcp, a, b[..|b| - 1]);
    }
  }

  /** On the UDP loop a command, from whichever client, is processed exactly when the last parsed order, from
    * whichever client, was accepted and found in stock; one bad order silences all commands after it.
    */
  lemma LastOrderDecidesCommands(x: Session, before: seq<Arrival>, order: Arrival, after: seq<Arrival>)
    requires order.message.Doc? && forall a <- after :: !a.message.Doc?
    requires !AfterAll(x, false, before + [order] + after).crashed
    ensures var (y, z) := (AfterAll(x, false, before), AfterAll(x, false, before + [order] + after));
            z.isValid && z.productStock
            <==> Admissible(order.message.order) && CheckProductStock(order.message.order, y.stock, order.env.checkFault)
  {
    var y := AfterAll(x, false, before);
    AfterAllConcat(x, false, before + [order], after);
    assert (before + [order])[..|before|] == before;
    OthersKeepFlags(After(y, false, order), false, after);
    ValidationMeetsLimits(order.message.order);
  }
}
