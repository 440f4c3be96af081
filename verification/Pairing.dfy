/**
  The life of connection pairs as a state machine (mproxy/src/client.cpp, `start_listen` and
  `on_flow_read` of mproxy/src/proxy.cpp): descriptors are opened, closed and reused, clients enter
  and leave the global client map, and bytes arrive in any order on any of them.

  A step is one iteration of the accept loop, one read callback, one client destructor or the
  closing of the listener.
 */
module Pairing {
  import opened Bytes
  import opened Flows
  import opened Relay
  import opened Tables
  import opened Wrappers

  /** A client object: the pair it was created for, and its side. */
  datatype Id = Id(pair: nat, inflow: bool)

  function Mate(id: Id): Id {
    id.(inflow := !id.inflow)
  }

  /** A `Client` object together with the bytes that have come from its socket (`received`) and gone
      to it (`outlet`). */
  datatype Cell = Cell(fd: int, fw: int, conn: Conn, outlet: Outlet, received: seq<Byte>, broken: bool)

  /** What does not change while the proxy runs: the action tables, and the answers the environment
      will give to each client. */
  datatype Setting = Setting(tables: Tables, env: Id -> Env)

  /** `fault` records that a descriptor was closed that was not open, opened while it was open, or
      that a pointer to a destroyed client was followed. */
  datatype World = World(
    listener: int,
    open: set<int>,
    table: map<int, Option<Id>>,
    live: map<Id, Cell>,
    past: map<Id, Cell>,
    accepted: nat,
    fault: bool)

  // ----- The operations of which the steps consist -----

  function OpenFd(w: World, fd: int): World {
    w.(open := w.open + {fd}, fault := w.fault || fd in w.open)
  }

  function CloseFd(w: World, fd: int): World {
    w.(open := w.open - {fd}, fault := w.fault || fd !in w.open)
  }

  /** Reading `client_map[fd]` enters a null pointer where there was no entry. */
  function Touch(w: World, fd: int): World {
    if fd in w.table then w else w.(table := w.table[fd := None])
  }

  /** The pointer `client_map[fd]`. */
  function At(w: World, fd: int): Option<Id> {
    if fd in w.table then w.table[fd] else None
  }

  function Create(w: World, id: Id, fd: int, fw: int): World {
    w.(live := w.live[id := Cell(fd, fw, START.conn, START.outlet, [], false)])
  }

  /** The successful end of `Client::init`. */
  function Register(w: World, id: Id): World
    requires id in w.live
  {
    w.(table := w.table[w.live[id].fd := Some(id)])
  }

  /** The destructor tells the partner that it is alone. */
  function Widow(w: World, partner: Option<Id>): World {
    match partner
    case None => w
    case Some(p) =>
      if p in w.live then w.(live := w.live[p := w.live[p].(fw := -1, broken := true)])
      else w.(fault := true)
  }

  /** `Client::~Client` */
  function Destroy(w: World, id: Id): World
    requires id in w.live
  {
    var cell := w.live[id];
    var partner := At(w, cell.fw);
    var looked := Touch(w, cell.fw);
    var closed := if cell.fd != -1 then CloseFd(looked, cell.fd) else looked;
    var widowed := Widow(closed.(table := closed.table - {cell.fd}), partner);
    if id in widowed.live then
      widowed.(live := widowed.live - {id}, past := widowed.past[id := widowed.live[id]])
    else
      widowed
  }

  // ----- Steps -----

  /** How an iteration of the accept loop goes after `accept` has returned a descriptor. */
  datatype Outcome =
    | NonblockFails
    | SocketFails
    | ConnectFails
    | OutNonblockFails
    | InAllocFails
    | InInitFails
    | OutAllocFails
    | OutInitFails
    | Paired

  datatype Action =
    | Accept(inFd: int, outFd: int, outcome: Outcome)
    | Read(id: Id, chunk: seq<Byte>)
    | Delete(id: Id)
    | Stop

  /** The process has not ended in the callback of a client. */
  predicate Alive(w: World) {
    forall id :: id in w.live ==> w.live[id].conn.fate != Crashed
  }

  /** What the system can do while the process is alive: a descriptor it hands out is not in use, callbacks
      run for clients that exist and whose loop has not exited, and every client is destroyed at most once,
      by its own thread. */
  predicate Legal(w: World, a: Action) {
    Alive(w) &&
    match a
    case Accept(inFd, outFd, _) =>
      w.listener >= 0 && inFd >= 0 && outFd >= 0 && inFd != outFd && inFd !in w.open && outFd !in w.open
    case Read(id, _) => id in w.live && w.live[id].conn.fate == Running
    case Delete(id) => id in w.live
    case Stop => w.listener >= 0
  }

  /** Both descriptors of the next pair are open. */
  function Connected(w: World, a: Action): World
    requires a.Accept?
  {
    OpenFd(OpenFd(w.(accepted := w.accepted + 1), a.inFd), a.outFd)
  }

  /** Both clients of the next pair exist, and the inflow side has been initialized. */
  function HalfRegistered(w: World, a: Action): World
    requires a.Accept?
  {
    var inId, outId := Id(w.accepted, true), Id(w.accepted, false);
    var registered := Register(Create(Connected(w, a), inId, a.inFd, a.outFd), inId);
    Create(registered, outId, a.outFd, a.inFd)
  }

  function AcceptStep(w: World, a: Action): World
    requires a.Accept?
  {
    var inId, outId := Id(w.accepted, true), Id(w.accepted, false);
    match a.outcome
    case NonblockFails => CloseFd(OpenFd(w.(accepted := w.accepted + 1), a.inFd), a.inFd)
    case SocketFails => CloseFd(OpenFd(w.(accepted := w.accepted + 1), a.inFd), a.inFd)
    case ConnectFails => CloseFd(CloseFd(Connected(w, a), a.outFd), a.inFd)
    case OutNonblockFails => CloseFd(CloseFd(Connected(w, a), a.inFd), a.outFd)
    case InAllocFails => CloseFd(CloseFd(Connected(w, a), a.inFd), a.outFd)
    case InInitFails => Destroy(CloseFd(Create(Connected(w, a), inId, a.inFd, a.outFd), a.outFd), inId)
    case OutAllocFails =>
      var created := Create(Connected(w, a), inId, a.inFd, a.outFd);
      Destroy(CloseFd(Register(created, inId), a.outFd), inId)
    case OutInitFails =>
      var alone := Destroy(HalfRegistered(w, a), inId);
      if outId in alone.live then Destroy(alone, outId) else alone
    case Paired => Register(HalfRegistered(w, a), outId)
  }

  function ReadStep(s: Setting, w: World, id: Id, chunk: seq<Byte>): World
    requires id in w.live
  {
    var cell := w.live[id].(received := w.live[id].received + chunk);
    var looked := Touch(w, cell.fw);
    match At(w, cell.fw)
    case None => looked.(live := w.live[id := cell.(conn := Orphan(cell.conn, chunk))])
    case Some(p) =>
      if p in w.live && p != id then
        var flow := Feed(s.tables, s.env(id), Flow(cell.conn, w.live[p].outlet), chunk);
        looked.(live := w.live[id := cell.(conn := flow.conn)][p := w.live[p].(outlet := flow.outlet)])
      else
        looked.(fault := true)
  }

  function Step(s: Setting, w: World, a: Action): World
    requires Legal(w, a)
  {
    match a
    case Accept(_, _, _) => AcceptStep(w, a)
    case Read(id, chunk) => ReadStep(s, w, id, chunk)
    case Delete(id) => Destroy(w, id)
    case Stop => CloseFd(w, w.listener).(listener := -1)
  }

  /** The proxy after its constructor: only the listener is open. */
  function Initial(listener: nat): World {
    World(listener, {listener}, map[], map[], map[], 0, false)
  }

  predicate LegalRun(s: Setting, w: World, run: seq<Action>)
    decreases |run|
  {
    run != [] ==> Legal(w, run[0]) && LegalRun(s, Step(s, w, run[0]), run[1..])
  }

  function Run(s: Setting, w: World, run: seq<Action>): World
    requires LegalRun(s, w, run)
    decreases |run|
  {
    if run == [] then w else Run(s, Step(s, w, run[0]), run[1..])
  }

  // ----- Invariant -----

  function Fds(live: map<Id, Cell>): set<int> {
    set id | id in live :: live[id].fd
  }

  ghost predicate Distinct(live: map<Id, Cell>) {
    forall i, j :: i in live && j in live && live[i].fd == live[j].fd ==> i == j
  }

  /** The open descriptors are the listener and those of the live clients, no two of which share
      one. */
  ghost predicate FdsAccounted(w: World) {
    && !w.fault
    && w.listener >= -1
    && w.open == Fds(w.live) + (if w.listener >= 0 then {w.listener} else {})
    && (forall id :: id in w.live ==> w.live[id].fd >= 0 && w.live[id].fd != w.listener)
    && Distinct(w.live)
  }

  /** The client map tells the truth: a pointer at `fd` leads to the live client of that
      descriptor. */
  ghost predicate MapTruthful(w: World) {
    forall fd :: fd in w.table && w.table[fd].Some? ==>
      w.table[fd].value in w.live && w.live[w.table[fd].value].fd == fd
  }

  ghost predicate MapComplete(w: World) {
    forall id :: id in w.live ==> At(w, w.live[id].fd) == Some(id)
  }

  /** A client knows its partner's descriptor exactly as long as the partner lives, and the partner
      is the client it was created with. */
  ghost predicate PairIntact(w: World, id: Id)
    requires id in w.live
  {
    w.live[id].fw == if Mate(id) in w.live then w.live[Mate(id)].fd else -1
  }

  ghost predicate PairsIntact(w: World) {
    forall id {:trigger PairIntact(w, id)} :: id in w.live ==> PairIntact(w, id)
  }

  ghost predicate IdsFresh(w: World) {
    && (forall id :: id in w.live ==> id.pair < w.accepted && id !in w.past)
    && (forall id :: id in w.past ==> id.pair < w.accepted)
  }

  /** A client ever created, alive or not. */
  predicate Known(w: World, id: Id) {
    id in w.live || id in w.past
  }

  function CellOf(w: World, id: Id): Cell
    requires Known(w, id)
  {
    if id in w.live then w.live[id] else w.past[id]
  }

  /** What client `id` should have handed on, given what it received. */
  function Owed(s: Setting, id: Id, received: seq<Byte>): Flow {
    Feed(s.tables, s.env(id), START, received)
  }

  /** While both clients of a pair live, each has done exactly what its input demands. */
  ghost predicate Exact(s: Setting, w: World, id: Id) {
    id in w.live && Mate(id) in w.live ==>
      Same(Flow(w.live[id].conn, w.live[Mate(id)].outlet), Owed(s, id, w.live[id].received))
  }

  ghost predicate TrafficExact(s: Setting, w: World) {
    forall id {:trigger Exact(s, w, id)} :: Exact(s, w, id)
  }

  /** At all times, what a client's socket has got is a prefix of what its mate's input demands. */
  ghost predicate Pure(s: Setting, w: World, id: Id) {
    Known(w, id) && Known(w, Mate(id)) ==>
      CellOf(w, id).outlet.sent <= Owed(s, Mate(id), CellOf(w, Mate(id)).received).outlet.sent
  }

  ghost predicate TrafficPure(s: Setting, w: World) {
    forall id {:trigger Pure(s, w, id)} :: Pure(s, w, id)
  }

  ghost predicate Inv(s: Setting, w: World) {
    && FdsAccounted(w) && MapTruthful(w) && MapComplete(w) && PairsIntact(w) && IdsFresh(w)
    && TrafficExact(s, w) && TrafficPure(s, w)
  }
}
