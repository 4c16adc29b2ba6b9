/** The registry of connected clients (src/server/server.cpp): two maps from process id to client, each with a
  * counter for the ids it hands out.
  *
  * Each operation is one atomic step. The code takes no lock here; data races on the maps are not modelled.
  * A map is kept as its entries in ascending order of process id, which is the order the loops of the code visit.
  */
module ClientRegistry {
  import opened Orders

  const MAX_CLIENTS_ID := 10000

  datatype Protocol = UDP | TCP | OtherProtocol

  datatype ClientInfo = ClientInfo(id: int, socket: int, address: string, protocol: Protocol, lastSeen: int)

  datatype Entry = Entry(pid: int, info: ClientInfo)

  type Entries = seq<Entry>

  predicate Sorted(es: Entries) {
    forall i, j :: 0 <= i < j < |es| ==> es[i].pid < es[j].pid
  }

  predicate HasPid(es: Entries, pid: int) {
    exists e <- es :: e.pid == pid
  }

  function Insert(es: Entries, e: Entry): (r: Entries)
    ensures forall x :: x in r <==> x in es || x == e
  {
    if es == [] || e.pid < es[0].pid then [e] + es else [es[0]] + Insert(es[1..], e)
  }

  function Without(es: Entries, pid: int): (r: Entries)
    ensures forall x :: x in r <==> x in es && x.pid != pid
  {
    if es == [] then [] else
    var rest := Without(es[1..], pid);
    if es[0].pid == pid then rest else [es[0]] + rest
  }

  predicate Expired(e: Entry, now: int, timeout: int) {
    now - e.info.lastSeen > timeout
  }

  function Survivors(es: Entries, now: int, timeout: int): (r: Entries)
    ensures forall x :: x in r <==> x in es && !Expired(x, now, timeout)
  {
    if es == [] then [] else
    var rest := Survivors(es[1..], now, timeout);
    if Expired(es[0], now, timeout) then rest else [es[0]] + rest
  }

  /** The first entry with an id, as the linear scan finds it. */
  function Find(es: Entries, id: int): (r: Option<Entry>)
    ensures r.Some? ==> r.value in es && r.value.info.id == id
    ensures r.None? ==> forall e <- es :: e.info.id != id
  {
    if es == [] then None else if es[0].info.id == id then Some(es[0]) else Find(es[1..], id)
  }

  lemma {:induction false} InsertSorted(es: Entries, e: Entry)
    requires Sorted(es) && !HasPid(es, e.pid)
    ensures Sorted(Insert(es, e))
  {
    if es != [] && es[0].pid < e.pid {
      InsertSorted(es[1..], e);
      assert forall x <- Insert(es[1..], e) :: es[0].pid < x.pid;
    } else if es != [] {
      assert es[0] in es;
    }
  }

  lemma {:induction false} WithoutSorted(es: Entries, pid: int)
    requires Sorted(es)
    ensures Sorted(Without(es, pid))
  {
    if es != [] {
      WithoutSorted(es[1..], pid);
      assert forall x <- Without(es[1..], pid) :: es[0].pid < x.pid;
    }
  }

  lemma {:induction false} WithoutAbsent(es: Entries, pid: int)
    requires !HasPid(es, pid)
    ensures Without(es, pid) == es
  {
    if es != [] {
      assert es[0] in es;
      WithoutAbsent(es[1..], pid);
    }
  }

  lemma {:induction false} WithoutInserted(es: Entries, e: Entry)
    requires !HasPid(es, e.pid)
    ensures Without(Insert(es, e), e.pid) == es
  {
    if es == [] || e.pid < es[0].pid {
      WithoutAbsent(es, e.pid);
      assert ([e] + es)[1..] == es;
    } else {
      assert es[0] in es;
      WithoutInserted(es[1..], e);
      assert ([es[0]] + Insert(es[1..], e))[1..] == Insert(es[1..], e);
    }
  }

  lemma {:induction false} SurvivorsSorted(es: Entries, now: int, timeout: int)
    requires Sorted(es)
    ensures Sorted(Survivors(es, now, timeout))
  {
    if es != [] {
      SurvivorsSorted(es[1..], now, timeout);
      assert forall x <- Survivors(es[1..], now, timeout) :: es[0].pid < x.pid;
    }
  }

  // ---------- the registry as a value ----------

  datatype Registry = Registry(udp: Entries, tcp: Entries, nextUdp: int, nextTcp: int)
  {
    function Clients(p: Protocol): Entries {
      if p.UDP? then udp else if p.TCP? then tcp else []
    }

    function Next(p: Protocol): int {
      if p.UDP? then nextUdp else nextTcp
    }
  }

  const EMPTY_REGISTRY := Registry([], [], 1, 1)

  /** `Heard`: a UDP client that is registered sends something. `Disconnect`: the TCP connection on a socket closes;
    * the process id is the one it announced.
    */
  datatype Op =
    | Register(protocol: Protocol, pid: int, address: string, socket: int, now: int)
    | Heard(pid: int, now: int)
    | Cleanup(now: int, timeout: int)
    | Disconnect(socket: int, pid: int)

  /** `registerClient`: the registry after it and the id it returns. An id beyond the maximum is used up all the same. */
  function Registered(r: Registry, p: Protocol, pid: int, address: string, socket: int, now: int): (Registry, int) {
    if p.OtherProtocol? || HasPid(r.Clients(p), pid) then (r, -1) else
    var id := r.Next(p);
    var counted := if p.UDP? then r.(nextUdp := id + 1) else r.(nextTcp := id + 1);
    if id > MAX_CLIENTS_ID then (counted, -1) else
    var e := Entry(pid, ClientInfo(id, socket, address, p, now));
    (if p.UDP? then counted.(udp := Insert(r.udp, e)) else counted.(tcp := Insert(r.tcp, e)), id)
  }

  function Apply(r: Registry, op: Op): Registry {
    match op
    case Register(p, pid, address, socket, now) => Registered(r, p, pid, address, socket, now).0
    case Heard(_, _) => r
    case Cleanup(now, timeout) => r.(udp := Survivors(r.udp, now, timeout))
    case Disconnect(_, pid) => r.(tcp := Without(r.tcp, pid))
  }

  function ApplyAll(r: Registry, ops: seq<Op>): Registry {
    if ops == [] then r else Apply(ApplyAll(r, ops[..|ops| - 1]), ops[|ops| - 1])
  }

  /** The ids a protocol handed out, in order. */
  function Issued(r: Registry, ops: seq<Op>, p: Protocol): seq<int> {
    if ops == [] then [] else
    var (front, op) := (ops[..|ops| - 1], ops[|ops| - 1]);
    var before := Issued(r, front, p);
    if !op.Register? || op.protocol != p then before else
    var id := Registered(ApplyAll(r, front), p, op.pid, op.address, op.socket, op.now).1;
    if id > 0 then before + [id] else before
  }

  // ---------- the registry in place ----------

  class ClientMaps {
    var clientMapUdp: Entries
    var clientMapTcp: Entries
    var nextClientIdUdp: int
    var nextClientIdTcp: int

    ghost predicate Valid()
      reads this
    {
      Sorted(clientMapUdp) && Sorted(clientMapTcp)
    }

    ghost function Contents(): Registry
      reads this
    {
      Registry(clientMapUdp, clientMapTcp, nextClientIdUdp, nextClientIdTcp)
    }

    constructor ()
      ensures Valid() && Contents() == EMPTY_REGISTRY
    {
      clientMapUdp, clientMapTcp, nextClientIdUdp, nextClientIdTcp := [], [], 1, 1;
    }

    method RegisterClient(p: Protocol, pid: int, address: string, socket: int, now: int) returns (id: int)
      requires Valid()
      modifies this
      ensures Valid()
      ensures (Contents(), id) == Registered(old(Contents()), p, pid, address, socket, now)
    {
      if p.OtherProtocol? {
        return -1;
      }
      if (p.UDP? && HasPid(clientMapUdp, pid)) || (p.TCP? && HasPid(clientMapTcp, pid)) {
        return -1;
      }
      if p.UDP? {
        id := nextClientIdUdp;
        nextClientIdUdp := nextClientIdUdp + 1;
      } else {
        id := nextClientIdTcp;
        nextClientIdTcp := nextClientIdTcp + 1;
      }
      if id > MAX_CLIENTS_ID {
        return -1;
      }
      var e := Entry(pid, ClientInfo(id, socket, address, p, now));
      if p.UDP? {
        InsertSorted(clientMapUdp, e);
        clientMapUdp := Insert(clientMapUdp, e);
      } else {
        InsertSorted(clientMapTcp, e);
        clientMapTcp := Insert(clientMapTcp, e);
      }
    }

    method HasUdpClient(pid: int) returns (known: bool)
      ensures known == HasPid(Contents().udp, pid)
    {
      return HasPid(clientMapUdp, pid);
    }

    method FindClientById(id: int, p: Protocol) returns (r: Option<ClientInfo>)
      ensures var found := Find(Contents().Clients(p), id);
              r == if found.Some? then Some(found.value.info) else None
    {
      var es := if p.UDP? then clientMapUdp else if p.TCP? then clientMapTcp else [];
      for n := 0 to |es|
        invariant Find(es, id) == Find(es[n..], id)
      {
        if es[n].info.id == id {
          return Some(es[n].info);
        }
        assert es[n..][1..] == es[n + 1..];
      }
      return None;
    }

    /** The loop that erases while it iterates: after an erasure the position is that of the next entry. */
    method CleanupInactiveUdpClients(now: int, timeout: int)
      requires Valid()
      modifies this`clientMapUdp
      ensures Valid() && Contents() == Apply(old(Contents()), Cleanup(now, timeout))
    {
      ghost var all := clientMapUdp;
      SurvivorsSorted(all, now, timeout);
      var it := 0;
      while it < |clientMapUdp|
        invariant it <= |clientMapUdp|
        invariant SweptTo(clientMapUdp, it, all, now, timeout)
        decreases |clientMapUdp| - it
      {
        SweepOne(clientMapUdp, it, all, now, timeout);
        if Expired(clientMapUdp[it], now, timeout) {
          clientMapUdp := clientMapUdp[..it] + clientMapUdp[it + 1..];
        } else {
          it := it + 1;
        }
      }
      assert clientMapUdp[..it] + [] == clientMapUdp;
    }

    /** What the thread of a TCP client does with the map when its connection ends. */
    method EraseTcpClient(socket: int, pid: int)
      requires Valid()
      modifies this`clientMapTcp
      ensures Valid()
      ensures Contents() == if pid == 0 then old(Contents()) else Apply(old(Contents()), Disconnect(socket, pid))
    {
      if pid != 0 {
        WithoutSorted(clientMapTcp, pid);
        clientMapTcp := Without(clientMapTcp, pid);
      }
    }
  }

  /** Up to position `it` only survivors are left, and nothing after it was touched. */
  ghost predicate SweptTo(es: Entries, it: nat, all: Entries, now: int, timeout: int)
    requires it <= |es|
  {
    es[..it] + Survivors(es[it..], now, timeout) == Survivors(all, now, timeout)
  }

  lemma SweepOne(es: Entries, it: nat, all: Entries, now: int, timeout: int)
    requires it < |es| && SweptTo(es, it, all, now, timeout)
    ensures if Expired(es[it], now, timeout) then SweptTo(es[..it] + es[it + 1..], it, all, now, timeout)
            else SweptTo(es, it + 1, all, now, timeout)
  {
    assert es[it..][1..] == es[it + 1..];
    var rest := Survivors(es[it + 1..], now, timeout);
    if Expired(es[it], now, timeout) {
      var next := es[..it] + es[it + 1..];
      assert next[..it] == es[..it] && next[it..] == es[it + 1..];
    } else {
      assert es[..it] + ([es[it]] + rest) == es[..it + 1] + rest;
    }
  }

  // ---------- every run of the registry ----------

  ghost predicate Coherent(es: Entries, next: int) {
    && Sorted(es)
    && (forall e <- es :: 1 <= e.info.id <= MAX_CLIENTS_ID && e.info.id < next)
    && (forall d <- es, e <- es :: d.info.id == e.info.id ==> d == e)
  }

  /** Process ids and client ids are both unique, client ids are in 1..10000 and below the counter. */
  ghost predicate Healthy(r: Registry) {
    Coherent(r.udp, r.nextUdp) && Coherent(r.tcp, r.nextTcp) && r.nextUdp >= 1 && r.nextTcp >= 1
  }

  lemma ApplyKeepsHealth(r: Registry, op: Op)
    requires Healthy(r)
    ensures Healthy(Apply(r, op))
  {
    match op
    case Register(p, pid, address, socket, now) =>
      if !p.OtherProtocol? && !HasPid(r.Clients(p), pid) {
        InsertSorted(r.Clients(p), Entry(pid, ClientInfo(r.Next(p), socket, address, p, now)));
      }
    case Heard(_, _) =>
    case Cleanup(now, timeout) => SurvivorsSorted(r.udp, now, timeout);
    case Disconnect(_, pid) => WithoutSorted(r.tcp, pid);
  }

  lemma {:induction false} RunsStayHealthy(r: Registry, ops: seq<Op>)
    requires Healthy(r)
    ensures Healthy(ApplyAll(r, ops))
  {
    if ops != [] {
      RunsStayHealthy(r, ops[..|ops| - 1]);
      ApplyKeepsHealth(ApplyAll(r, ops[..|ops| - 1]), ops[|ops| - 1]);
    }
  }

  predicate Increasing(ids: seq<int>) {
    forall i, j :: 0 <= i < j < |ids| ==> ids[i] < ids[j]
  }

  /** Ids are handed out in strictly increasing order, so none is handed out twice. */
  lemma {:induction false} IdsIncrease(ops: seq<Op>, p: Protocol)
    requires !p.OtherProtocol?
    ensures var ids := Issued(EMPTY_REGISTRY, ops, p);
            && Increasing(ids)
            && (forall id <- ids :: 1 <= id <= MAX_CLIENTS_ID && id < ApplyAll(EMPTY_REGISTRY, ops).Next(p))
  {
    if ops != [] {
      var front, op := ops[..|ops| - 1], ops[|ops| - 1];
      IdsIncrease(front, p);
      RunsStayHealthy(EMPTY_REGISTRY, front);
      var s, before := ApplyAll(EMPTY_REGISTRY, front), Issued(EMPTY_REGISTRY, front, p);
      assert Apply(s, op).Next(p) >= s.Next(p);
      forall i | 0 <= i < |before| ensures before[i] < s.Next(p) {
        assert before[i] in before;
      }
    }
  }

  lemma {:induction false} IncreasingIsShort(ids: seq<int>, bound: nat)
    requires Increasing(ids) && forall i :: 0 <= i < |ids| ==> 1 <= ids[i] <= bound
    ensures |ids| <= bound
  {
    if ids != [] {
      var n := |ids| - 1;
      IncreasingIsShort(ids[..n], ids[n] - 1);
    }
  }

  /** At most 10000 registrations per protocol ever succeed, however many clients have left since. */
  lemma RegistrationsAreBounded(ops: seq<Op>, p: Protocol)
    requires !p.OtherProtocol?
    ensures |Issued(EMPTY_REGISTRY, ops, p)| <= 10000
  {
    IdsIncrease(ops, p);
    assert forall i :: 0 <= i < |Issued(EMPTY_REGISTRY, ops, p)| ==> Issued(EMPTY_REGISTRY, ops, p)[i] in Issued(EMPTY_REGISTRY, ops, p);
    IncreasingIsShort(Issued(EMPTY_REGISTRY, ops, p), MAX_CLIENTS_ID);
  }

  /** This operation erases this entry of this protocol. The disconnection need not be that of the client's own connection. */
  predicate Erases(op: Op, p: Protocol, e: Entry) {
    match op
    case Register(_, _, _, _, _) => false
    case Heard(_, _) => false
    case Cleanup(now, timeout) => p.UDP? && Expired(e, now, timeout)
    case Disconnect(_, pid) => p.TCP? && pid == e.pid
  }

  /** The scan for an id agrees with the registration: from a registration on, it finds that very entry until some
    * operation erases it, and nothing ever after.
    */
  lemma {:induction false} LookupFollowsRegistration(r: Registry, p: Protocol, e: Entry, ops: seq<Op>)
    requires Healthy(r) && !p.OtherProtocol? && e in r.Clients(p)
    ensures Find(ApplyAll(r, ops).Clients(p), e.info.id) == if exists op <- ops :: Erases(op, p, e) then None else Some(e)
    ensures ApplyAll(r, ops).Next(p) > e.info.id
  {
    if ops != [] {
      var front, op := ops[..|ops| - 1], ops[|ops| - 1];
      var s := ApplyAll(r, front);
      assert ops == front + [op];
      LookupFollowsRegistration(r, p, e, front);
      RunsStayHealthy(r, front);
      ApplyKeepsHealth(s, op);
      LookupStep(s, p, e, op);
      if exists x <- ops :: Erases(x, p, e) {
        var x :| x in ops && Erases(x, p, e);
        assert x in front || x == op;
      }
    }
  }

  lemma LookupStep(s: Registry, p: Protocol, e: Entry, op: Op)
    requires Healthy(s) && Healthy(Apply(s, op)) && !p.OtherProtocol? && s.Next(p) > e.info.id
    ensures Find(s.Clients(p), e.info.id) == Some(e) ==>
              Find(Apply(s, op).Clients(p), e.info.id) == if Erases(op, p, e) then None else Some(e)
    ensures Find(s.Clients(p), e.info.id).None? ==> Find(Apply(s, op).Clients(p), e.info.id).None?
    ensures Apply(s, op).Next(p) > e.info.id
  {
    var found := Find(Apply(s, op).Clients(p), e.info.id);
    if Find(s.Clients(p), e.info.id) == Some(e) && !Erases(op, p, e) {
      assert e in Apply(s, op).Clients(p);
      assert found.Some?;
    }
  }

  /** A registration succeeds exactly for a new process id while ids last. It then adds that one client and is found
    * under the id it returned; otherwise nobody is added. The other protocol is not involved either way.
    */
  lemma RegistrationIsFound(r: Registry, p: Protocol, pid: int, address: string, socket: int, now: int)
    requires Healthy(r) && !p.OtherProtocol?
    ensures var (s, id) := Registered(r, p, pid, address, socket, now);
            var e := Entry(pid, ClientInfo(id, socket, address, p, now));
            && (id > 0 <==> !HasPid(r.Clients(p), pid) && r.Next(p) <= MAX_CLIENTS_ID)
            && (if id > 0 then Find(s.Clients(p), id) == Some(e) && (forall x :: x in s.Clients(p) <==> x in r.Clients(p) || x == e)
                else s.Clients(p) == r.Clients(p))
            && s.Next(p) == r.Next(p) + (if HasPid(r.Clients(p), pid) then 0 else 1)
            && (forall q: Protocol :: q != p && !q.OtherProtocol? ==> s.Clients(q) == r.Clients(q) && s.Next(q) == r.Next(q))
  {
    var (s, id) := Registered(r, p, pid, address, socket, now);
    if id > 0 {
      ApplyKeepsHealth(r, Register(p, pid, address, socket, now));
      assert Entry(pid, ClientInfo(id, socket, address, p, now)) in s.Clients(p);
    }
  }

  // ---------- how long a TCP client stays registered ----------

  /** The connection on a socket closes. */
  predicate Closes(op: Op, socket: int) {
    op.Disconnect? && op.socket == socket
  }

  /** Another connection that announced the same process id closes. */
  predicate Evicts(op: Op, e: Entry) {
    op.Disconnect? && op.pid == e.pid && op.socket != e.info.socket
  }

  /** While its own connection is open, a TCP client is found exactly as long as no other connection that announced
    * its process id has closed.
    */
  lemma EntryLivesUntilCloseIff(r: Registry, e: Entry, ops: seq<Op>)
    requires Healthy(r) && e in r.tcp
    requires forall op <- ops :: !Closes(op, e.info.socket)
    ensures Find(ApplyAll(r, ops).tcp, e.info.id) == Some(e) <==> forall op <- ops :: !Evicts(op, e)
  {
    LookupFollowsRegistration(r, TCP, e, ops);
    assert forall op <- ops :: !Closes(op, e.info.socket) ==> (Erases(op, TCP, e) <==> Evicts(op, e));
  }

  /** A second TCP connection with a process id that is in use is turned down, yet when it closes it takes the
    * first connection's entry with it.
    */
  lemma RejectedConnectionEvictsOwner(r: Registry, e: Entry, address: string, socket: int, now: int)
    requires Healthy(r) && e in r.tcp && socket != e.info.socket
    ensures Registered(r, TCP, e.pid, address, socket, now) == (r, -1)
    ensures Find(ApplyAll(r, [Register(TCP, e.pid, address, socket, now), Disconnect(socket, e.pid)]).tcp, e.info.id).None?
  {
    var ops := [Register(TCP, e.pid, address, socket, now), Disconnect(socket, e.pid)];
    assert ops[1] in ops && Erases(ops[1], TCP, e);
    LookupFollowsRegistration(r, TCP, e, ops);
  }

  // ---------- what cleanup takes for inactivity ----------

  function TimeOf(op: Op): Option<int> {
    match op
    case Register(_, _, _, _, now) => Some(now)
    case Heard(_, now) => Some(now)
    case Cleanup(now, _) => Some(now)
    case Disconnect(_, _) => None
  }

  /** Times do not decrease along the history. */
  predicate Chronological(ops: seq<Op>) {
    forall i, j :: 0 <= i < j < |ops| && TimeOf(ops[i]).Some? && TimeOf(ops[j]).Some? ==> TimeOf(ops[i]).value <= TimeOf(ops[j]).value
  }

  /** When a process id was last registered with success. */
  function RegisteredAt(ops: seq<Op>, p: Protocol, pid: int): Option<int> {
    if ops == [] then None else
    var (front, op) := (ops[..|ops| - 1], ops[|ops| - 1]);
    if op.Register? && op.protocol == p && op.pid == pid
       && Registered(ApplyAll(EMPTY_REGISTRY, front), p, pid, op.address, op.socket, op.now).1 > 0
    then Some(op.now) else RegisteredAt(front, p, pid)
  }

  /** When a UDP client last sent anything, its registration included: the documented meaning of `last_seen`. */
  function LastHeard(ops: seq<Op>, pid: int): Option<int> {
    if ops == [] then None else
    var (front, op) := (ops[..|ops| - 1], ops[|ops| - 1]);
    if (op.Register? && op.protocol.UDP? && op.pid == pid) || (op.Heard? && op.pid == pid)
    then Some(op.now) else LastHeard(front, pid)
  }

  predicate OlderThan(time: Option<int>, now: int, timeout: int) {
    time.Some? ==> now - time.value > timeout
  }

  /** In every history the stored `last_seen` is the time of registration. */
  lemma {:induction false} LastSeenIsRegistration(ops: seq<Op>, p: Protocol, e: Entry)
    requires e in ApplyAll(EMPTY_REGISTRY, ops).Clients(p)
    ensures RegisteredAt(ops, p, e.pid) == Some(e.info.lastSeen)
  {
    var front, op := ops[..|ops| - 1], ops[|ops| - 1];
    var s := ApplyAll(EMPTY_REGISTRY, front);
    if e in s.Clients(p) {
      LastSeenIsRegistration(front, p, e);
      assert HasPid(s.Clients(p), e.pid);
    } else {
      assert op.Register? && op.protocol == p;
      assert e == Entry(op.pid, ClientInfo(s.Next(p), op.socket, op.address, p, op.now));
      assert Registered(s, p, op.pid, op.address, op.socket, op.now).1 == s.Next(p);
      RunsStayHealthy(EMPTY_REGISTRY, front);
    }
  }

  lemma {:induction false} RegisteredAtIsInHistory(ops: seq<Op>, p: Protocol, pid: int)
    requires RegisteredAt(ops, p, pid).Some?
    ensures exists i :: 0 <= i < |ops| && TimeOf(ops[i]) == RegisteredAt(ops, p, pid)
  {
    var n := |ops| - 1;
    if RegisteredAt(ops, p, pid) == RegisteredAt(ops[..n], p, pid) {
      RegisteredAtIsInHistory(ops[..n], p, pid);
      var i :| 0 <= i < n && TimeOf(ops[..n][i]) == RegisteredAt(ops[..n], p, pid);
      assert TimeOf(ops[i]) == RegisteredAt(ops, p, pid);
    } else {
      assert TimeOf(ops[n]) == RegisteredAt(ops, p, pid);
    }
  }

  /** Nobody is heard for the last time before registering. */
  lemma {:induction false} HeardSinceRegistration(ops: seq<Op>, pid: int)
    requires Chronological(ops) && RegisteredAt(ops, UDP, pid).Some?
    ensures LastHeard(ops, pid).Some? && LastHeard(ops, pid).value >= RegisteredAt(ops, UDP, pid).value
  {
    var n := |ops| - 1;
    var op := ops[n];
    if (op.Register? && op.protocol.UDP? && op.pid == pid) || (op.Heard? && op.pid == pid) {
      RegisteredAtIsInHistory(ops, UDP, pid);
    } else {
      HeardSinceRegistration(ops[..n], pid);
    }
  }

  /** Cleanup is documented to remove the UDP clients that have not sent anything within the timeout. It removes exactly
    * these if and only if no client that registered longer ago than the timeout was heard from within it.
    */
  lemma CleanupRemovesSilentIff(ops: seq<Op>, now: int, timeout: int)
    requires Chronological(ops)
    ensures var (r, s) := (ApplyAll(EMPTY_REGISTRY, ops), Apply(ApplyAll(EMPTY_REGISTRY, ops), Cleanup(now, timeout)));
            (forall e <- r.udp :: e !in s.udp <==> OlderThan(LastHeard(ops, e.pid), now, timeout))
            <==> (forall e <- r.udp :: OlderThan(RegisteredAt(ops, UDP, e.pid), now, timeout) ==> OlderThan(LastHeard(ops, e.pid), now, timeout))
  {
    var r := ApplyAll(EMPTY_REGISTRY, ops);
    forall e <- r.udp
      ensures Expired(e, now, timeout) <==> OlderThan(RegisteredAt(ops, UDP, e.pid), now, timeout)
      ensures OlderThan(LastHeard(ops, e.pid), now, timeout) ==> Expired(e, now, timeout)
    {
      LastSeenIsRegistration(ops, UDP, e);
      HeardSinceRegistration(ops, e.pid);
    }
  }

  /** A client that registers at 0 and sends something at 59 is gone after a cleanup at 61 with the timeout of 60. */
  lemma ActiveClientIsRemoved(pid: int, address: string)
    ensures var ops := [Register(UDP, pid, address, 0, 0), Heard(pid, 59)];
            && Chronological(ops)
            && HasPid(ApplyAll(EMPTY_REGISTRY, ops).udp, pid)
            && LastHeard(ops, pid) == Some(59) && !OlderThan(LastHeard(ops, pid), 61, 60)
            && Apply(ApplyAll(EMPTY_REGISTRY, ops), Cleanup(61, 60)).udp == []
  {
    var first, second := Register(UDP, pid, address, 0, 0), Heard(pid, 59);
    assert [first, second][..1] == [first] && [first][..0] == [];
    var e := Entry(pid, ClientInfo(1, 0, address, UDP, 0));
    assert ApplyAll(EMPTY_REGISTRY, [first]).udp == [e] && e in [e];
    assert Survivors([e], 61, 60) == [];
  }
}
