/** The message loops are runs of the machine: what one connection does with its messages, while the others stand still,
  * is one of the interleavings, order by order and step by step.
  */
module ServerRefinement {
  import opened Orders
  import opened OrderValidation
  import opened OrderStorage
  import opened OrderEngine
  import opened OrderPass
  import opened OrderServer
  import opened ClientRegistry

  // ---------- the log ----------

  /** The messages that are stored: text starting with '{', on TCP only when its acknowledgement was written. */
  function Stored(tcp: bool, arrivals: seq<Arrival>): seq<Message> {
    if arrivals == [] then [] else
    var a := arrivals[|arrivals| - 1];
    Stored(tcp, arrivals[..|arrivals| - 1]) + if a.message.Command? || (tcp && a.env.ackLost) then [] else [a.message]
  }

  /** One message does: an order text joins the log, whatever becomes of the order, and nothing else does. */
  lemma MessageIsStored(x: Session, tcp: bool, a: Arrival)
    requires !x.crashed
    ensures After(x, tcp, a).ledger == if a.message.Command? || (tcp && a.env.ackLost) then x.ledger else Record(x.ledger, a.message)
  {
  }

  /** The loop stores every order text, valid or not, in the order of arrival, and the report keeps agreeing with the log. */
  lemma {:induction false} LoopStoresOrders(x: Session, tcp: bool, arrivals: seq<Arrival>)
    requires !AfterAll(x, tcp, arrivals).crashed
    ensures AfterAll(x, tcp, arrivals).ledger.orders == x.ledger.orders + Stored(tcp, arrivals)
    ensures Agrees(x.ledger) ==> Agrees(AfterAll(x, tcp, arrivals).ledger)
  {
    if arrivals != [] {
      var front, a := arrivals[..|arrivals| - 1], arrivals[|arrivals| - 1];
      LoopStoresOrders(x, tcp, front);
      var y := AfterAll(x, tcp, front);
      MessageIsStored(y, tcp, a);
      RecordAppends(y.ledger, a.message);
    }
  }

  lemma RecordAppends(l: Ledger, m: Message)
    ensures Record(l, m).orders == l.orders + [m]
    ensures Agrees(l) ==> Agrees(Record(l, m))
  {
    if Agrees(l) {
      RecordKeepsAgreement(l, m);
    }
  }

  // ---------- the machine ----------

  /** What one arrival is to the machine: nothing, the storing of a text, or an order received and carried through. */
  function ArrivalInputs(m: State, h: nat, a: Arrival): seq<Input>
    requires h < |m.handlers|
  {
    if m.handlers[h].tcp && a.env.ackLost then [] else
    match a.message
    case Command(_) => []
    case Unparseable => [Receive(h, Unparseable)]
    case Doc(o) => [Receive(h, Doc(o))] + DriveInputs(m.stock, Start(m.handlers[h].tcp, o), h, a.env)
  }

  function LoopInputs(m: State, h: nat, arrivals: seq<Arrival>): seq<Input> {
    if arrivals == [] then [] else
    var before := LoopInputs(m, h, arrivals[..|arrivals| - 1]);
    var now := Run(m, before);
    before + if h < |now.handlers| then ArrivalInputs(now, h, arrivals[|arrivals| - 1]) else []
  }

  /** The session and the machine agree, and handler h is ready for the next message. */
  ghost predicate Matches(m: State, h: nat, tcp: bool, x: Session) {
    && h < |m.handlers| && m.handlers[h].tcp == tcp
    && m.stock == x.stock && m.ledger == x.ledger && m.crashed == x.crashed
    && (!m.crashed ==> m.handlers[h].phase.Idle?)
  }

  predicate OthersSame(m: State, t: State, h: nat) {
    |t.handlers| == |m.handlers| && forall i :: 0 <= i < |m.handlers| && i != h ==> t.handlers[i] == m.handlers[i]
  }

  lemma {:induction false} CrashedRunStays(m: State, inputs: seq<Input>)
    requires m.crashed
    ensures Run(m, inputs) == m
  {
    if inputs != [] {
      CrashedRunStays(m, inputs[..|inputs| - 1]);
    }
  }

  lemma StepKeepsProtocol(m: State, a: Input)
    ensures var t := Step(m, a);
            |t.handlers| == |m.handlers| && forall i :: 0 <= i < |m.handlers| ==> t.handlers[i].tcp == m.handlers[i].tcp
  {
  }

  lemma {:induction false} RunKeepsProtocol(m: State, inputs: seq<Input>)
    ensures var t := Run(m, inputs);
            |t.handlers| == |m.handlers| && forall i :: 0 <= i < |m.handlers| ==> t.handlers[i].tcp == m.handlers[i].tcp
  {
    if inputs != [] {
      RunKeepsProtocol(m, inputs[..|inputs| - 1]);
      StepKeepsProtocol(Run(m, inputs[..|inputs| - 1]), inputs[|inputs| - 1]);
    }
  }

  lemma OrderIsRun(m: State, h: nat, tcp: bool, x: Session, a: Arrival)
    requires Matches(m, h, tcp, x) && !x.crashed && a.message.Doc? && !(tcp && a.env.ackLost)
    ensures Matches(Run(m, ArrivalInputs(m, h, a)), h, tcp, After(x, tcp, a)) && OthersSame(m, Run(m, ArrivalInputs(m, h, a)), h)
  {
    var o := a.message.order;
    var start := Start(tcp, o);
    var r := m.(ledger := Record(m.ledger, Doc(o)), handlers := m.handlers[h := start]);
    assert Step(m, Receive(h, Doc(o))) == r;
    RunFirst(m, Receive(h, Doc(o)), DriveInputs(m.stock, start, h, a.env));
    DriveIsRun(r, h, a.env);
    RunKeepsProtocol(r, DriveInputs(m.stock, start, h, a.env));
    MachineDoesPass(m.stock, tcp, o, a.env);
  }

  lemma ArrivalIsRun(m: State, h: nat, tcp: bool, x: Session, a: Arrival)
    requires Matches(m, h, tcp, x)
    ensures Matches(Run(m, ArrivalInputs(m, h, a)), h, tcp, After(x, tcp, a)) && OthersSame(m, Run(m, ArrivalInputs(m, h, a)), h)
  {
    if x.crashed {
      CrashedRunStays(m, ArrivalInputs(m, h, a));
    } else if a.message.Doc? && !(tcp && a.env.ackLost) {
      OrderIsRun(m, h, tcp, x, a);
    } else if a.message.Unparseable? && !(tcp && a.env.ackLost) {
      RunFirst(m, Receive(h, Unparseable), []);
    }
  }

  /** From any state of the machine, whatever statement fails, whatever reply is lost and wherever it crashes: the loop of one
    * connection ends with the tables, the log and the report of the machine's run on the same messages, and moves no
    * other handler.
    */
  lemma {:induction false} LoopIsRun(m: State, h: nat, tcp: bool, x: Session, arrivals: seq<Arrival>)
    requires Matches(m, h, tcp, x)
    ensures var t := Run(m, LoopInputs(m, h, arrivals));
            Matches(t, h, tcp, AfterAll(x, tcp, arrivals)) && OthersSame(m, t, h)
  {
    if arrivals != [] {
      var front, a := arrivals[..|arrivals| - 1], arrivals[|arrivals| - 1];
      LoopIsRun(m, h, tcp, x, front);
      var now := Run(m, LoopInputs(m, h, front));
      ArrivalIsRun(now, h, tcp, AfterAll(x, tcp, front), a);
      RunConcat(m, LoopInputs(m, h, front), ArrivalInputs(now, h, a));
    }
  }

  /** A TCP client from first message to last is such a run too, and it stores every order text it sent, in order. */
  lemma SessionIsRun(m: State, h: nat, x: Session, pid: int, address: string, socket: int, now: int, arrivals: seq<Arrival>)
    requires h < |m.handlers| && m.handlers[h].tcp && m.handlers[h].phase.Idle? && !m.crashed
    requires m.stock == x.stock && m.ledger == x.ledger && !x.crashed
    ensures var (t, y) := (Run(m, LoopInputs(m, h, arrivals)), TcpSession(x, pid, address, socket, now, arrivals));
            && y.stock == t.stock && y.ledger == t.ledger && y.crashed == t.crashed
            && OthersSame(m, t, h)
            && (!y.crashed ==> y.ledger.orders == x.ledger.orders + Stored(true, arrivals))
  {
    var joined := if pid == 0 then x else x.(clients := Registered(x.clients, TCP, pid, address, socket, now).0);
    LoopIsRun(m, h, true, joined, arrivals);
    if !AfterAll(joined, true, arrivals).crashed {
      LoopStoresOrders(joined, true, arrivals);
    }
  }

  // ---------- the flags ----------

  /** What a parsed order leaves in the two flags, on both protocols: the verdict of validation, and that of the stock check
    * unless a lost rejection kept a TCP handler from making it.
    */
  lemma OrderSetsFlags(x: Session, tcp: bool, a: Arrival)
    requires !x.crashed && a.message.Doc? && !(tcp && a.env.ackLost) && !NamesUnknownProduct(a.message.order)
    ensures var (y, o) := (After(x, tcp, a), a.message.order);
            && (y.isValid <==> Admissible(o))
            && y.productStock == (if tcp && !Admissible(o) && a.env.invalidLost then x.productStock
                                  else CheckProductStock(o, x.stock, a.env.checkFault))
  {
    ValidationMeetsLimits(a.message.order);
  }

  // ---------- the clients of the UDP loop ----------

  /** Each number but 0 that arrives is an attempt to register under it. */
  function Announcements(arrivals: seq<Arrival>): seq<Op> {
    if arrivals == [] then [] else
    var a := arrivals[|arrivals| - 1];
    Announcements(arrivals[..|arrivals| - 1])
    + if a.message.Command? && a.message.number != 0 then [Register(UDP, a.message.number, a.address, 0, a.now)] else []
  }

  lemma {:induction false} ApplyAllConcat(r: Registry, a: seq<Op>, b: seq<Op>)
    ensures ApplyAll(r, a + b) == ApplyAll(ApplyAll(r, a), b)
  {
    if b == [] {
      assert a + b == a;
    } else {
      assert (a + b)[..|a + b| - 1] == a + b[..|b| - 1];
      ApplyAllConcat(r, a, b[..|b| - 1]);
    }
  }

  /** So the clients of the UDP loop are those of a history of the registry, and all that holds of histories holds of them. */
  lemma {:induction false} UdpLoopRegisters(x: Session, arrivals: seq<Arrival>)
    requires !AfterAll(x, false, arrivals).crashed
    ensures AfterAll(x, false, arrivals).clients == ApplyAll(x.clients, Announcements(arrivals))
  {
    if arrivals != [] {
      var front, a := arrivals[..|arrivals| - 1], arrivals[|arrivals| - 1];
      UdpLoopRegisters(x, front);
      if a.message.Command? && a.message.number != 0 {
        var op := Register(UDP, a.message.number, a.address, 0, a.now);
        ApplyAllConcat(x.clients, Announcements(front), [op]);
        assert [op][..0] == [];
      } else {
        assert Announcements(front) + [] == Announcements(front);
      }
    }
  }

  /** A client that announces itself on UDP with a new process id, while ids last, is found under the next id, with its process
    * id, address and time, then and after any further messages.
    */
  lemma AnnouncedClientIsFound(x: Session, a: Arrival, later: seq<Arrival>)
    requires Healthy(x.clients) && !x.crashed && !AfterAll(x, false, [a] + later).crashed
    requires a.message.Command? && a.message.number != 0 && !HasPid(x.clients.udp, a.message.number)
    requires x.clients.nextUdp <= MAX_CLIENTS_ID
    ensures var id := x.clients.nextUdp;
            Find(AfterAll(x, false, [a] + later).clients.udp, id)
            == Some(Entry(a.message.number, ClientInfo(id, 0, a.address, UDP, a.now)))
  {
    var (p, id) := (a.message.number, x.clients.nextUdp);
    var op := Register(UDP, p, a.address, 0, a.now);
    var e := Entry(p, ClientInfo(id, 0, a.address, UDP, a.now));
    var y := After(x, false, a);
    assert AfterAll(x, false, [a]) == y by {
      assert [a][..0] == [];
    }
    AfterAllConcat(x, false, [a], later);
    UdpLoopRegisters(y, later);
    RegistrationIsFound(x.clients, UDP, p, a.address, 0, a.now);
    ApplyKeepsHealth(x.clients, op);
    assert e in y.clients.udp;
    LookupFollowsRegistration(y.clients, UDP, e, Announcements(later));
    NoneErases(later, e);
  }

  lemma {:induction false} NoneErases(arrivals: seq<Arrival>, e: Entry)
    ensures forall op <- Announcements(arrivals) :: op.Register? && !Erases(op, UDP, e)
  {
    if arrivals != [] {
      NoneErases(arrivals[..|arrivals| - 1], e);
    }
  }

  // ---------- the clients of a TCP session ----------

  /** To the registry a TCP client is a registration when it announces a process id and, unless the process ends first, a
    * disconnection; without a process id it is nothing.
    */
  lemma SessionIsHistory(x: Session, pid: int, address: string, socket: int, now: int, arrivals: seq<Arrival>)
    ensures var y := TcpSession(x, pid, address, socket, now, arrivals);
            var join := [Register(TCP, pid, address, socket, now)];
            y.clients == if pid == 0 then x.clients
                         else if y.crashed then ApplyAll(x.clients, join)
                         else ApplyAll(x.clients, join + [Disconnect(socket, pid)])
  {
    var op := Register(TCP, pid, address, socket, now);
    TcpLoopKeepsClients(if pid == 0 then x else x.(clients := Apply(x.clients, op)), arrivals);
    assert [op][..0] == [] && [op, Disconnect(socket, pid)][..1] == [op];
    assert ApplyAll(x.clients, [op]) == Apply(x.clients, op);
  }
}
