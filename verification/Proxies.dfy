/**
  The proxy with its client map, on the heap: an iteration of the accept loop, with all its error
  branches, the read callback and the destructor of a client carry out the steps of the pairing machine
  (mproxy/src/proxy.cpp, mproxy/src/client.cpp).
 */
module Proxies {
  import opened ActionTables
  import opened Bytes
  import opened Clients
  import opened Flows
  import opened Pairing
  import opened PairingProofs
  import opened Relay
  import opened Wrappers

  ghost function Pointer(c: Client?): Option<Id> {
    if c == null then None else Some(c.id)
  }

  ghost predicate Apart(c: Client, d: Client)
    reads c.buf, d.buf
  {
    c != d && c.buf != d.buf && c.buf.data != d.buf.data && c.oracle != d.oracle
  }

  /** The client object is what the state of the pairing machine says. */
  ghost predicate Holds(c: Client, id: Id, cell: Cell)
    reads c, c.buf, c.buf.data, c.oracle
  {
    c.id == id && c.Valid() && c.Cell() == cell
  }

  /** The clients share nothing, and their parts are all among `parts`. */
  ghost predicate Placed(clients: map<Id, Client>, parts: set<object>)
    reads parts
  {
    && (forall id :: id in clients ==> clients[id] in parts && clients[id].buf in parts && clients[id].oracle in parts)
    && (forall id :: id in clients ==> clients[id].buf.data in parts)
    && (forall i, j {:trigger Apart(clients[i], clients[j])} ::
          i in clients && j in clients && i != j ==> Apart(clients[i], clients[j]))
  }

  /** The client objects are what the state says. */
  ghost predicate ClientsHold(clients: map<Id, Client>, cells: map<Id, Cell>, parts: set<object>)
    reads parts
  {
    && Placed(clients, parts) && clients.Keys == cells.Keys
    && (forall id {:trigger Holds(clients[id], id, cells[id])} :: id in clients ==> Holds(clients[id], id, cells[id]))
  }

  /** The client map is what the state says, and its pointers to clients are genuine. */
  ghost predicate MapHolds(pointers: map<int, Client?>, table: map<int, Option<Id>>, clients: map<Id, Client>) {
    && pointers.Keys == table.Keys
    && (forall fd :: fd in pointers ==> table[fd] == Pointer(pointers[fd]))
    && (forall fd :: fd in pointers && pointers[fd] != null && pointers[fd].id in clients ==>
          pointers[fd] == clients[pointers[fd].id])
  }

  /** The client objects that exist, by their names, and all objects they consist of. */
  datatype Roster = Roster(clients: map<Id, Client>, parts: set<object>)

  lemma ClientsHoldWith(clients: map<Id, Client>, cells: map<Id, Cell>, parts: set<object>, c: Client)
    requires ClientsHold(clients, cells, parts) && c.id !in clients && c.Valid()
    requires c !in parts && c.buf !in parts && c.buf.data !in parts && c.oracle !in parts
    ensures ClientsHold(clients[c.id := c], cells[c.id := c.Cell()], parts + {c, c.buf, c.buf.data, c.oracle})
  {
    var more := clients[c.id := c];
    forall i, j | i in more && j in more && i != j
      ensures Apart(more[i], more[j])
    {
      assert i != c.id && j != c.id ==> Apart(clients[i], clients[j]);
    }
    forall i | i in more
      ensures Holds(more[i], i, cells[c.id := c.Cell()][i])
    {
      assert i != c.id ==> Holds(clients[i], i, cells[i]);
    }
  }

  lemma ClientsHoldWithout(clients: map<Id, Client>, cells: map<Id, Cell>, parts: set<object>, id: Id)
    requires ClientsHold(clients, cells, parts)
    ensures ClientsHold(clients - {id}, cells - {id}, parts)
  {
    var less := clients - {id};
    forall i, j | i in less && j in less && i != j
      ensures Apart(less[i], less[j])
    {
      assert Apart(clients[i], clients[j]);
    }
    forall i | i in less
      ensures Holds(less[i], i, (cells - {id})[i])
    {
      assert Holds(clients[i], i, cells[i]);
    }
  }

  /** The live clients after the partner has been told. */
  ghost function Told(w: World, id: Id): map<Id, Cell>
    requires id in w.live
  {
    match At(w, w.live[id].fw)
    case None => w.live
    case Some(p) => if p in w.live then w.live[p := w.live[p].(fw := -1, broken := true)] else w.live
  }

  lemma DestroyFields(w: World, id: Id)
    requires id in w.live
    requires var p := At(w, w.live[id].fw); p.Some? ==> p.value in w.live && p.value != id
    ensures var v, fd := Pairing.Destroy(w, id), w.live[id].fd;
            && v.listener == w.listener && v.live == Told(w, id) - {id}
            && v.table == Touch(w, w.live[id].fw).table - {fd}
            && v.open == (if fd != -1 then w.open - {fd} else w.open)
            && v.fault == (w.fault || (fd != -1 && fd !in w.open))
  {
    var looked := Touch(w, w.live[id].fw);
    var closed := if w.live[id].fd != -1 then CloseFd(looked, w.live[id].fd) else looked;
    var erased := closed.(table := closed.table - {w.live[id].fd});
    assert erased.live == w.live && erased.listener == w.listener;
    assert Widow(erased, At(w, w.live[id].fw)).live == Told(w, id);
  }

  lemma WithWithout<K, V>(m: map<K, V>, k: K, v: V)
    requires k !in m
    ensures m[k := v] - {k} == m
  {
  }

  lemma WithWithoutTwo<K, V>(m: map<K, V>, k: K, v: V, l: K, u: V)
    requires k !in m && l !in m && k != l
    ensures m[k := v][l := u] - {k} - {l} == m
  {
  }

  /** `new Client` */
  method NewClient(fd: int, fw: int, env: Env, ghost id: Id, ghost cells: map<Id, Cell>, ghost r: Roster)
    returns (c: Client, ghost q: Roster)
    requires ClientsHold(r.clients, cells, r.parts) && id !in r.clients
    ensures ClientsHold(q.clients, cells[id := Cell(fd, fw, START.conn, START.outlet, [], false)], q.parts)
    ensures c.fd == fd && c.id == id && c.oracle.env == env && q.clients == r.clients[id := c]
    ensures q.parts == r.parts + {c, c.buf, c.buf.data, c.oracle}
    ensures fresh({c, c.buf, c.buf.data, c.oracle})
  {
    c := new Client(fd, fw, env, id);
    q := Roster(r.clients[id := c], r.parts + {c, c.buf, c.buf.data, c.oracle});
    ClientsHoldWith(r.clients, cells, r.parts, c);
  }

  /** The destructor's message to the partner. */
  method TellPartner(p: Client, ghost cells: map<Id, Cell>, ghost r: Roster)
    requires ClientsHold(r.clients, cells, r.parts) && p.id in r.clients && r.clients[p.id] == p
    modifies p`fwFd, p`broken
    ensures ClientsHold(r.clients, cells[p.id := cells[p.id].(fw := -1, broken := true)], r.parts)
  {
    assert Holds(p, p.id, cells[p.id]);
    p.LosePartner();
    ghost var after := cells[p.id := cells[p.id].(fw := -1, broken := true)];
    forall id | id in r.clients
      ensures Holds(r.clients[id], id, after[id])
    {
      if id != p.id {
        assert Apart(r.clients[id], r.clients[p.id]);
        assert old(Holds(r.clients[id], id, cells[id]));
      }
    }
    forall i, j | i in r.clients && j in r.clients && i != j
      ensures Apart(r.clients[i], r.clients[j])
    {
      assert old(Apart(r.clients[i], r.clients[j]));
    }
  }

  /** The state of `c` and of its partner before and after the bytes have flowed. */
  datatype Exchange = Exchange(cell: Cell, mate: Cell, more: Cell, told: Cell)

  ghost predicate Exchanged(x: Exchange, store: Store, env: Env, chunk: seq<Byte>)
    requires store.Valid()
    reads store.drop, store.dup
  {
    var flow := Feed(store.View(), env, Flow(x.cell.conn, x.mate.outlet), chunk);
    && x.cell.conn.fate == Running
    && x.more == x.cell.(received := x.cell.received + chunk, conn := flow.conn)
    && x.told == x.mate.(outlet := flow.outlet)
  }

  /** The read callback of `c` with its partner `p`. */
  method ReadPair(c: Client, p: Client, store: Store, chunk: seq<Byte>, ghost x: Exchange)
    requires Holds(c, c.id, x.cell) && Holds(p, p.id, x.mate) && Apart(c, p)
    requires store.Valid() && Exchanged(x, store, c.oracle.env, chunk)
    modifies c`fate, c`received, c`conn, c.buf, c.buf.data, c.oracle`draws, c.oracle`sends, p`evBuf, p`output
    ensures Holds(c, c.id, x.more) && Holds(p, p.id, x.told)
    ensures c.buf.data == old(c.buf.data) || fresh(c.buf.data)
  {
    c.OnFlowRead(store, chunk, p);
  }

  /** The clients other than `c` and `p` are what the state says, and share nothing with these two. */
  ghost predicate OthersHold(r: Roster, cells: map<Id, Cell>, c: Client, p: Client)
    reads r.parts, c.buf, p.buf
  {
    && Placed(r.clients, r.parts) && r.clients.Keys == cells.Keys
    && (forall id {:trigger Holds(r.clients[id], id, cells[id])} ::
          id in r.clients && id != c.id && id != p.id ==>
            Holds(r.clients[id], id, cells[id]) && Apart(r.clients[id], c) && Apart(r.clients[id], p))
  }

  /** The other clients stay what they were. */
  method ReadBeside(c: Client, p: Client, store: Store, chunk: seq<Byte>, ghost x: Exchange, ghost r: Roster,
                    ghost cells: map<Id, Cell>)
    requires Holds(c, c.id, x.cell) && Holds(p, p.id, x.mate) && Apart(c, p) && OthersHold(r, cells, c, p)
    requires store.Valid() && Exchanged(x, store, c.oracle.env, chunk)
    modifies c`fate, c`received, c`conn, c.buf, c.buf.data, c.oracle`draws, c.oracle`sends, p`evBuf, p`output
    ensures Holds(c, c.id, x.more) && Holds(p, p.id, x.told)
    ensures c.buf.data == old(c.buf.data) || fresh(c.buf.data)
    ensures forall id {:trigger Holds(r.clients[id], id, cells[id])} ::
              id in r.clients && id != c.id && id != p.id ==> Holds(r.clients[id], id, cells[id])
  {
    ReadPair(c, p, store, chunk, x);
    forall id | id in r.clients && id != c.id && id != p.id
      ensures Holds(r.clients[id], id, cells[id])
    {
      assert old(Holds(r.clients[id], id, cells[id]));
    }
  }

  /** After this, the clients still share nothing, although a buffer may have moved to a new block. */
  method ReadPlaced(c: Client, p: Client, store: Store, chunk: seq<Byte>, ghost x: Exchange, ghost r: Roster,
                    ghost cells: map<Id, Cell>)
    returns (ghost q: Roster)
    requires Holds(c, c.id, x.cell) && Holds(p, p.id, x.mate) && Apart(c, p) && OthersHold(r, cells, c, p)
    requires store.Valid() && Exchanged(x, store, c.oracle.env, chunk)
    requires c.id in r.clients && r.clients[c.id] == c
    modifies c`fate, c`received, c`conn, c.buf, c.buf.data, c.oracle`draws, c.oracle`sends, p`evBuf, p`output
    ensures Holds(c, c.id, x.more) && Holds(p, p.id, x.told)
    ensures q == Roster(r.clients, r.parts + {c.buf.data}) && fresh(q.parts - r.parts) && Placed(q.clients, q.parts)
    ensures forall id {:trigger Holds(r.clients[id], id, cells[id])} ::
              id in r.clients && id != c.id && id != p.id ==> Holds(r.clients[id], id, cells[id])
  {
    ReadBeside(c, p, store, chunk, x, r, cells);
    q := Roster(r.clients, r.parts + {c.buf.data});
    forall i, j | i in r.clients && j in r.clients && i != j
      ensures Apart(r.clients[i], r.clients[j])
    {
      assert old(Apart(r.clients[i], r.clients[j]));
    }
  }

  /** The same, from what the state says. */
  method ReadOthers(c: Client, p: Client, store: Store, chunk: seq<Byte>, ghost cells: map<Id, Cell>,
                    ghost x: Exchange, ghost r: Roster)
    returns (ghost q: Roster)
    requires ClientsHold(r.clients, cells, r.parts) && c.id != p.id
    requires c.id in r.clients && r.clients[c.id] == c && p.id in r.clients && r.clients[p.id] == p
    requires x.cell == cells[c.id] && x.mate == cells[p.id]
    requires store.Valid() && Exchanged(x, store, c.oracle.env, chunk)
    modifies c`fate, c`received, c`conn, c.buf, c.buf.data, c.oracle`draws, c.oracle`sends, p`evBuf, p`output
    ensures Holds(c, c.id, x.more) && Holds(p, p.id, x.told)
    ensures q == Roster(r.clients, r.parts + {c.buf.data}) && fresh(q.parts - r.parts) && Placed(q.clients, q.parts)
    ensures forall id {:trigger Holds(r.clients[id], id, cells[id])} ::
              id in r.clients && id != c.id && id != p.id ==> Holds(r.clients[id], id, cells[id])
  {
    assert Holds(c, c.id, cells[c.id]) && Holds(p, p.id, cells[p.id]) && Apart(c, p);
    assert OthersHold(r, cells, c, p);
    q := ReadPlaced(c, p, store, chunk, x, r, cells);
  }

  lemma ClientsHoldFlowed(clients: map<Id, Client>, cells: map<Id, Cell>, parts: set<object>, c: Client, p: Client,
                          x: Exchange)
    requires Placed(clients, parts) && clients.Keys == cells.Keys && c.id != p.id
    requires c.id in clients && clients[c.id] == c && p.id in clients && clients[p.id] == p
    requires Holds(c, c.id, x.more) && Holds(p, p.id, x.told)
    requires forall id {:trigger Holds(clients[id], id, cells[id])} ::
               id in clients && id != c.id && id != p.id ==> Holds(clients[id], id, cells[id])
    ensures ClientsHold(clients, cells[c.id := x.more][p.id := x.told], parts)
  {
    var after := cells[c.id := x.more][p.id := x.told];
    forall id | id in clients
      ensures Holds(clients[id], id, after[id])
    {
      if id != c.id && id != p.id {
        assert Holds(clients[id], id, cells[id]);
      }
    }
  }

  /** The same among all clients: the two of them change, and nobody else. */
  method ReadTo(c: Client, p: Client, store: Store, chunk: seq<Byte>, ghost cells: map<Id, Cell>, ghost x: Exchange,
                ghost r: Roster)
    returns (ghost q: Roster)
    requires ClientsHold(r.clients, cells, r.parts) && c.id != p.id
    requires c.id in r.clients && r.clients[c.id] == c && p.id in r.clients && r.clients[p.id] == p
    requires x.cell == cells[c.id] && x.mate == cells[p.id]
    requires store.Valid() && Exchanged(x, store, c.oracle.env, chunk)
    modifies c`fate, c`received, c`conn, c.buf, c.buf.data, c.oracle`draws, c.oracle`sends, p`evBuf, p`output
    ensures q == Roster(r.clients, r.parts + {c.buf.data}) && fresh(q.parts - r.parts)
    ensures ClientsHold(q.clients, cells[c.id := x.more][p.id := x.told], q.parts)
  {
    q := ReadOthers(c, p, store, chunk, cells, x, r);
    ClientsHoldFlowed(r.clients, cells, q.parts, c, p, x);
  }

  lemma ClientsHoldUpdated(clients: map<Id, Client>, cells: map<Id, Cell>, parts: set<object>, c: Client, more: Cell)
    requires Placed(clients, parts) && clients.Keys == cells.Keys && c.id in clients && clients[c.id] == c
    requires Holds(c, c.id, more)
    requires forall id {:trigger Holds(clients[id], id, cells[id])} ::
               id in clients && id != c.id ==> Holds(clients[id], id, cells[id])
    ensures ClientsHold(clients, cells[c.id := more], parts)
  {
    forall id | id in clients
      ensures Holds(clients[id], id, cells[c.id := more][id])
    {
      if id != c.id {
        assert Holds(clients[id], id, cells[id]);
      }
    }
  }

  /** The read callback of a client without a partner; the clients still share nothing. */
  method ReadLone(c: Client, store: Store, chunk: seq<Byte>, ghost cell: Cell, ghost more: Cell, ghost r: Roster)
    returns (ghost q: Roster)
    requires Placed(r.clients, r.parts) && store.Valid() && c.id in r.clients && r.clients[c.id] == c
    requires Holds(c, c.id, cell) && cell.conn.fate == Running
    requires more == cell.(received := cell.received + chunk, conn := Orphan(cell.conn, chunk))
    modifies c`fate, c`received, c`conn, c.buf, c.buf.data, c.oracle`draws, c.oracle`sends
    ensures Holds(c, c.id, more)
    ensures q == Roster(r.clients, r.parts + {c.buf.data}) && fresh(q.parts - r.parts) && Placed(q.clients, q.parts)
  {
    c.OnFlowRead(store, chunk, null);
    q := Roster(r.clients, r.parts + {c.buf.data});
    forall i, j | i in r.clients && j in r.clients && i != j
      ensures Apart(r.clients[i], r.clients[j])
    {
      assert old(Apart(r.clients[i], r.clients[j]));
    }
  }

  /** And nobody else changes. */
  method ReadAlone(c: Client, store: Store, chunk: seq<Byte>, ghost cells: map<Id, Cell>, ghost more: Cell,
                   ghost r: Roster)
    returns (ghost q: Roster)
    requires ClientsHold(r.clients, cells, r.parts) && store.Valid() && c.id in r.clients && r.clients[c.id] == c
    requires cells[c.id].conn.fate == Running
    requires var cell := cells[c.id];
             more == cell.(received := cell.received + chunk, conn := Orphan(cell.conn, chunk))
    modifies c`fate, c`received, c`conn, c.buf, c.buf.data, c.oracle`draws, c.oracle`sends
    ensures q == Roster(r.clients, r.parts + {c.buf.data}) && fresh(q.parts - r.parts)
    ensures ClientsHold(q.clients, cells[c.id := more], q.parts)
  {
    assert Holds(c, c.id, cells[c.id]);
    q := ReadLone(c, store, chunk, cells[c.id], more, r);
    assert forall id {:trigger Holds(r.clients[id], id, cells[id])} ::
        id in r.clients && id != c.id ==> Holds(r.clients[id], id, cells[id]) by {
      forall id | id in r.clients && id != c.id
        ensures Holds(r.clients[id], id, cells[id])
      {
        assert old(Apart(r.clients[id], c));
        assert old(Holds(r.clients[id], id, cells[id]));
      }
    }
    ClientsHoldUpdated(r.clients, cells, q.parts, c, more);
  }

  class Proxy {
    const store: Store
    /** `in_sock_fd` */
    var listener: int
    /** `client_map` */
    var clientMap: map<int, Client?>
    /** The descriptors that the kernel holds open for the process, and whether one was closed that was not
        open, or opened that was. */
    var open: set<int>
    var fault: bool

    /** The proxy is in the state `w` of the pairing machine. */
    ghost predicate Shows(w: World, r: Roster)
      reads this, r.parts
    {
      && this !in r.parts && store.Valid() && store.drop !in r.parts && store.dup !in r.parts
      && w.listener == listener && w.open == open && w.fault == fault
      && ClientsHold(r.clients, w.live, r.parts) && MapHolds(clientMap, w.table, r.clients)
    }

    constructor (store: Store, listener: nat)
      requires store.Valid()
      ensures this.store == store && Shows(Initial(listener), Roster(map[], {}))
    {
      this.store, this.listener := store, listener;
      clientMap, open, fault := map[], {listener}, false;
    }

    // ----- The operations of which the steps consist -----

    /** The kernel hands out a descriptor. */
    method Open(fd: int, ghost w: World, ghost r: Roster)
      requires Shows(w, r)
      modifies `open, `fault
      ensures Shows(OpenFd(w, fd), r)
    {
      fault := fault || fd in open;
      open := open + {fd};
    }

    /** `close` */
    method Close(fd: int, ghost w: World, ghost r: Roster)
      requires Shows(w, r)
      modifies `open, `fault
      ensures Shows(CloseFd(w, fd), r)
    {
      fault := fault || fd !in open;
      open := open - {fd};
    }

    /** `client_map[fd]` */
    method Lookup(fd: int, ghost w: World, ghost r: Roster) returns (c: Client?)
      requires Shows(w, r)
      modifies `clientMap
      ensures Shows(Touch(w, fd), r)
      ensures Pointer(c) == At(w, fd) && (c != null && c.id in r.clients ==> c == r.clients[c.id])
    {
      if fd !in clientMap {
        clientMap := clientMap[fd := null];
      }
      c := clientMap[fd];
    }

    /** The successful end of `Client::init`. */
    method RegisterClient(c: Client, ghost w: World, ghost r: Roster)
      requires Shows(w, r) && c.id in r.clients && r.clients[c.id] == c
      modifies `clientMap
      ensures Shows(Register(w, c.id), r)
    {
      assert Holds(c, c.id, w.live[c.id]);
      clientMap := clientMap[c.fd := c];
    }

    /** What the destructor does to descriptors and client map: the partner is looked up, the descriptor
        closed, and the entry of the dying client erased. */
    method Unlink(c: Client, ghost w: World, ghost r: Roster) returns (partner: Client?)
      requires Shows(w, r) && c.id in r.clients && r.clients[c.id] == c
      modifies `clientMap, `open, `fault
      ensures MapHolds(clientMap, Touch(w, c.fwFd).table - {c.fd}, r.clients - {c.id})
      ensures open == if c.fd != -1 then old(open) - {c.fd} else old(open)
      ensures fault == (old(fault) || (c.fd != -1 && c.fd !in old(open)))
      ensures Pointer(partner) == At(w, c.fwFd)
      ensures partner != null && partner.id in r.clients ==> partner == r.clients[partner.id]
    {
      partner := Lookup(c.fwFd, w, r);
      ghost var looked := Touch(w, c.fwFd);
      if c.fd != -1 {
        Close(c.fd, looked, r);
      }
      clientMap := clientMap - {c.fd};
    }

    /** What the destructor does to the objects around the dying client. */
    method Bereave(c: Client, ghost w: World, ghost r: Roster)
      requires Shows(w, r) && c.id in r.clients && r.clients[c.id] == c
      requires var p := At(w, c.fwFd); p.Some? ==> p.value in w.live && p.value != c.id
      modifies `clientMap, `open, `fault, r.parts
      ensures ClientsHold(r.clients, Told(w, c.id), r.parts)
      ensures MapHolds(clientMap, Touch(w, w.live[c.id].fw).table - {c.fd}, r.clients - {c.id})
      ensures open == if c.fd != -1 then old(open) - {c.fd} else old(open)
      ensures fault == (old(fault) || (c.fd != -1 && c.fd !in old(open)))
    {
      assert Holds(c, c.id, w.live[c.id]);
      var partner := Unlink(c, w, r);
      if partner != null {
        TellPartner(partner, w.live, r);
      }
    }

    /** `Client::~Client` */
    method Destroy(c: Client, ghost w: World, ghost r: Roster) returns (ghost q: Roster)
      requires Shows(w, r) && c.id in r.clients && r.clients[c.id] == c
      requires var p := At(w, c.fwFd); p.Some? ==> p.value in w.live && p.value != c.id
      modifies `clientMap, `open, `fault, r.parts
      ensures Shows(Pairing.Destroy(w, c.id), q)
      ensures q == Roster(r.clients - {c.id}, r.parts)
    {
      assert Holds(c, c.id, w.live[c.id]);
      DestroyFields(w, c.id);
      Bereave(c, w, r);
      ClientsHoldWithout(r.clients, Told(w, c.id), r.parts, c.id);
      q := Roster(r.clients - {c.id}, r.parts);
    }

    /** The destructor of a client without a partner. */
    method DestroyAlone(c: Client, ghost w: World, ghost v: World, ghost r: Roster) returns (ghost q: Roster)
      requires Shows(w, r) && c.id in r.clients && r.clients[c.id] == c
      requires At(w, c.fwFd) == None && v == Pairing.Destroy(w, c.id)
      modifies `clientMap, `open, `fault, r.parts
      ensures Shows(v, q) && q == Roster(r.clients - {c.id}, r.parts)
    {
      q := Destroy(c, w, r);
    }

    /** The destructors of two clients that do not find each other. */
    method DestroyTwo(c: Client, d: Client, ghost u: World, ghost v: World, ghost x: World, ghost r: Roster)
      returns (ghost q: Roster)
      requires Shows(u, r) && c.id in r.clients && r.clients[c.id] == c && d.id in r.clients && r.clients[d.id] == d
      requires c.id != d.id && At(u, c.fwFd) == None && v == Pairing.Destroy(u, c.id)
      requires d.id in v.live && At(v, v.live[d.id].fw) == None && x == Pairing.Destroy(v, d.id)
      modifies `clientMap, `open, `fault, r.parts
      ensures Shows(x, q) && q == Roster(r.clients - {c.id} - {d.id}, r.parts)
    {
      q := DestroyAlone(c, u, v, r);
      assert Holds(d, d.id, v.live[d.id]);
      q := DestroyAlone(d, v, x, q);
    }

    // ----- An iteration of the accept loop -----

    /** `new Client` in the accept loop */
    method Create(fd: int, fw: int, env: Env, ghost id: Id, ghost w: World, ghost r: Roster)
      returns (c: Client, ghost q: Roster)
      requires Shows(w, r) && id !in r.clients && forall at :: At(w, at) != Some(id)
      ensures Shows(Pairing.Create(w, id, fd, fw), q)
      ensures c.fd == fd && c.fwFd == fw && c.id == id && c.oracle.env == env && q.clients == r.clients[id := c]
      ensures q.parts == r.parts + {c, c.buf, c.buf.data, c.oracle} && fresh(q.parts - r.parts)
    {
      c, q := NewClient(fd, fw, env, id, w.live, r);
      assert Holds(c, id, Pairing.Create(w, id, fd, fw).live[id]);
      forall at | at in clientMap && clientMap[at] != null && clientMap[at].id in q.clients
        ensures clientMap[at] == q.clients[clientMap[at].id]
      {
        assert At(w, at) == Pointer(clientMap[at]);
      }
    }

    /** The inflow client of the next pair; its partner does not exist yet. */
    method CreateIn(inFd: int, outFd: int, inEnv: Env, ghost w: World, ghost a: Pairing.Action, ghost r: Roster)
      returns (c: Client, ghost v: World, ghost q: Roster)
      requires FdsAccounted(w) && MapTruthful(w) && IdsFresh(w)
      requires a.Accept? && a.inFd == inFd && a.outFd == outFd && Legal(w, a) && Shows(Connected(w, a), r)
      ensures v == Pairing.Create(Connected(w, a), Id(w.accepted, true), inFd, outFd) && Shows(v, q)
      ensures c.fd == inFd && c.fwFd == outFd && c.id == Id(w.accepted, true) && c.oracle.env == inEnv
      ensures q.clients == r.clients[c.id := c] && c.id !in r.clients
      ensures q.parts == r.parts + {c, c.buf, c.buf.data, c.oracle} && fresh(q.parts - r.parts)
      ensures At(w, inFd) == None && At(w, outFd) == None
    {
      ghost var id := Id(w.accepted, true);
      UnusedFd(w, inFd);
      UnusedFd(w, outFd);
      c, q := Create(inFd, outFd, inEnv, id, Connected(w, a), r);
      v := Pairing.Create(Connected(w, a), id, inFd, outFd);
    }

    lemma CreatedAlone(w: World, a: Pairing.Action, created: World, id: Id)
      requires FdsAccounted(w) && MapTruthful(w) && a.Accept? && a.outcome == InInitFails && Legal(w, a)
      requires id == Id(w.accepted, true) && created == Pairing.Create(Connected(w, a), id, a.inFd, a.outFd)
      ensures At(CloseFd(created, a.outFd), a.outFd) == None
      ensures AcceptStep(w, a) == Pairing.Destroy(CloseFd(created, a.outFd), id)
    {
      UnusedFd(w, a.outFd);
    }

    /** The outflow descriptor is closed, and the inflow client, which has just been made, destroyed. */
    method AbandonOne(c: Client, outFd: int, ghost v: World, ghost x: World, ghost r: Roster, ghost mid: Roster)
      returns (ghost q: Roster)
      requires Shows(v, mid) && mid.clients == r.clients[c.id := c] && c.id !in r.clients
      requires At(CloseFd(v, outFd), c.fwFd) == None && x == Pairing.Destroy(CloseFd(v, outFd), c.id)
      modifies `clientMap, `open, `fault, mid.parts
      ensures Shows(x, q) && q == Roster(r.clients, mid.parts)
    {
      Close(outFd, v, mid);
      q := DestroyAlone(c, CloseFd(v, outFd), x, mid);
      WithWithout(r.clients, c.id, c);
    }

    /** The branch in which the inflow client cannot be initialized. */
    method AbandonIn(inFd: int, outFd: int, inEnv: Env, ghost w: World, ghost a: Pairing.Action, ghost r: Roster)
      returns (ghost q: Roster)
      requires FdsAccounted(w) && MapTruthful(w) && IdsFresh(w)
      requires a == Action.Accept(inFd, outFd, InInitFails) && Legal(w, a) && Shows(Connected(w, a), r)
      modifies `clientMap, `open, `fault, r.parts
      ensures Shows(AcceptStep(w, a), q)
      ensures q.clients == r.clients && r.parts <= q.parts && fresh(q.parts - r.parts)
    {
      var c;
      ghost var v, mid;
      c, v, mid := CreateIn(inFd, outFd, inEnv, w, a, r);
      CreatedAlone(w, a, v, c.id);
      q := AbandonOne(c, outFd, v, AcceptStep(w, a), r, mid);
    }

    lemma OutIsNew(w: World, a: Pairing.Action, created: World, id: Id)
      requires MapTruthful(w) && IdsFresh(w) && a.Accept?
      requires id == Id(w.accepted, true) && created == Pairing.Create(Connected(w, a), id, a.inFd, a.outFd)
      ensures Id(w.accepted, false) !in created.live
      ensures forall at :: At(Register(created, id), at) != Some(Id(w.accepted, false))
    {
    }

    /** The inflow client of the next pair, ready for events. */
    method CreateReady(inFd: int, outFd: int, inEnv: Env, ghost w: World, ghost a: Pairing.Action, ghost r: Roster)
      returns (c: Client, ghost u: World, ghost q: Roster)
      requires FdsAccounted(w) && MapTruthful(w) && IdsFresh(w)
      requires a.Accept? && a.inFd == inFd && a.outFd == outFd && Legal(w, a) && Shows(Connected(w, a), r)
      modifies `clientMap
      ensures c.fd == inFd && c.fwFd == outFd && c.id == Id(w.accepted, true) && c.oracle.env == inEnv
      ensures q.clients == r.clients[c.id := c] && c.id !in r.clients
      ensures u == Register(Pairing.Create(Connected(w, a), c.id, inFd, outFd), c.id) && Shows(u, q)
      ensures Id(w.accepted, false) !in q.clients && forall at :: At(u, at) != Some(Id(w.accepted, false))
      ensures r.parts <= q.parts && fresh(q.parts - r.parts)
    {
      ghost var v;
      c, v, q := CreateIn(inFd, outFd, inEnv, w, a, r);
      OutIsNew(w, a, v, c.id);
      RegisterClient(c, v, q);
      u := Register(v, c.id);
    }

    lemma RegisteredAlone(w: World, a: Pairing.Action, u: World, id: Id)
      requires FdsAccounted(w) && MapTruthful(w) && a.Accept? && a.outcome == OutAllocFails && Legal(w, a)
      requires id == Id(w.accepted, true)
      requires u == Register(Pairing.Create(Connected(w, a), id, a.inFd, a.outFd), id)
      ensures At(CloseFd(u, a.outFd), a.outFd) == None
      ensures AcceptStep(w, a) == Pairing.Destroy(CloseFd(u, a.outFd), id)
    {
      UnusedFd(w, a.outFd);
    }

    /** The branch in which the inflow client is ready, but there is no outflow client. */
    method AbandonRegistered(inFd: int, outFd: int, inEnv: Env, ghost w: World, ghost a: Pairing.Action,
                             ghost r: Roster)
      returns (ghost q: Roster)
      requires FdsAccounted(w) && MapTruthful(w) && IdsFresh(w)
      requires a == Action.Accept(inFd, outFd, OutAllocFails) && Legal(w, a) && Shows(Connected(w, a), r)
      modifies `clientMap, `open, `fault, r.parts
      ensures Shows(AcceptStep(w, a), q)
      ensures q.clients == r.clients && r.parts <= q.parts && fresh(q.parts - r.parts)
    {
      var c;
      ghost var u, mid;
      c, u, mid := CreateReady(inFd, outFd, inEnv, w, a, r);
      RegisteredAlone(w, a, u, c.id);
      q := AbandonOne(c, outFd, u, AcceptStep(w, a), r, mid);
    }

    /** Both clients, of which the inflow one is ready. */
    method CreateBoth(inFd: int, outFd: int, inEnv: Env, outEnv: Env, ghost w: World, ghost a: Pairing.Action,
                      ghost r: Roster)
      returns (inClient: Client, outClient: Client, ghost q: Roster)
      requires FdsAccounted(w) && MapTruthful(w) && IdsFresh(w)
      requires a.Accept? && a.inFd == inFd && a.outFd == outFd && Legal(w, a) && Shows(Connected(w, a), r)
      modifies `clientMap
      ensures Shows(HalfRegistered(w, a), q)
      ensures inClient.fd == inFd && inClient.fwFd == outFd && inClient.id == Id(w.accepted, true)
      ensures outClient.fd == outFd && outClient.fwFd == inFd && outClient.id == Id(w.accepted, false)
      ensures inClient.oracle.env == inEnv && outClient.oracle.env == outEnv
      ensures inClient.id !in r.clients && outClient.id !in r.clients
      ensures q.clients == r.clients[inClient.id := inClient][outClient.id := outClient] && fresh(q.parts - r.parts)
      ensures r.parts <= q.parts
    {
      ghost var u, mid;
      inClient, u, mid := CreateReady(inFd, outFd, inEnv, w, a, r);
      outClient, q := Create(outFd, inFd, outEnv, Id(w.accepted, false), u, mid);
    }

    /** The states in which the two destructors run: neither client finds a partner. */
    lemma HalfDestroyed(w: World, a: Pairing.Action, inId: Id) returns (u: World, v: World)
      requires FdsAccounted(w) && MapTruthful(w) && IdsFresh(w)
      requires a.Accept? && a.outcome == OutInitFails && Legal(w, a) && inId == Id(w.accepted, true)
      ensures u == HalfRegistered(w, a) && inId in u.live && v == Pairing.Destroy(u, inId)
      ensures At(u, a.outFd) == None && Mate(inId) in v.live && At(v, v.live[Mate(inId)].fw) == None
      ensures AcceptStep(w, a) == Pairing.Destroy(v, Mate(inId))
    {
      UnusedFd(w, a.outFd);
      HalfRegisteredShape(w, a);
      HalfRegisteredDestroyed(w, a);
      u := HalfRegistered(w, a);
      v := Pairing.Destroy(u, inId);
    }

    /** The branch in which the outflow client cannot be initialized: both are destroyed. */
    method AbandonBoth(inFd: int, outFd: int, inEnv: Env, outEnv: Env, ghost w: World, ghost a: Pairing.Action,
                       ghost r: Roster)
      returns (ghost q: Roster)
      requires FdsAccounted(w) && MapTruthful(w) && IdsFresh(w)
      requires a == Action.Accept(inFd, outFd, OutInitFails) && Legal(w, a) && Shows(Connected(w, a), r)
      modifies `clientMap, `open, `fault, r.parts
      ensures Shows(AcceptStep(w, a), q)
      ensures q.clients == r.clients && r.parts <= q.parts && fresh(q.parts - r.parts)
    {
      var inClient, outClient;
      ghost var mid;
      inClient, outClient, mid := CreateBoth(inFd, outFd, inEnv, outEnv, w, a, r);
      ghost var u, v := HalfDestroyed(w, a, inClient.id);
      q := DestroyTwo(inClient, outClient, u, v, AcceptStep(w, a), mid);
      WithWithoutTwo(r.clients, inClient.id, inClient, outClient.id, outClient);
    }

    /** The clients known before are the same, and if there is a new pair, it gets the given answers. */
    static ghost predicate Joined(n: nat, paired: bool, inEnv: Env, outEnv: Env, r: Roster, q: Roster) {
      var inId, outId := Id(n, true), Id(n, false);
      if !paired then q.clients == r.clients
      else
        && inId in q.clients && outId in q.clients
        && q.clients == r.clients[inId := q.clients[inId]][outId := q.clients[outId]]
        && q.clients[inId].oracle.env == inEnv && q.clients[outId].oracle.env == outEnv
    }

    /** What the accept loop does once both descriptors are open. */
    method PairUp(inFd: int, outFd: int, outcome: Outcome, inEnv: Env, outEnv: Env, ghost w: World,
                  ghost a: Pairing.Action, ghost r: Roster)
      returns (ghost q: Roster)
      requires FdsAccounted(w) && MapTruthful(w) && IdsFresh(w)
      requires a == Action.Accept(inFd, outFd, outcome) && Legal(w, a) && Shows(Connected(w, a), r)
      requires !outcome.NonblockFails? && !outcome.SocketFails?
      modifies `clientMap, `open, `fault, r.parts
      ensures Shows(AcceptStep(w, a), q) && Joined(w.accepted, outcome == Paired, inEnv, outEnv, r, q)
      ensures r.parts <= q.parts && fresh(q.parts - r.parts)
    {
      q := r;
      match outcome {
        case ConnectFails =>
          Close(outFd, Connected(w, a), r);
          Close(inFd, CloseFd(Connected(w, a), outFd), r);
        case InInitFails => q := AbandonIn(inFd, outFd, inEnv, w, a, r);
        case OutAllocFails => q := AbandonRegistered(inFd, outFd, inEnv, w, a, r);
        case OutInitFails => q := AbandonBoth(inFd, outFd, inEnv, outEnv, w, a, r);
        case Paired =>
          var inClient, outClient;
          inClient, outClient, q := CreateBoth(inFd, outFd, inEnv, outEnv, w, a, r);
          RegisterClient(outClient, HalfRegistered(w, a), q);
        case OutNonblockFails =>
          Close(inFd, Connected(w, a), r);
          Close(outFd, CloseFd(Connected(w, a), inFd), r);
        case InAllocFails =>
          Close(inFd, Connected(w, a), r);
          Close(outFd, CloseFd(Connected(w, a), inFd), r);
      }
    }

    /** What an iteration of the accept loop does once `accept` has returned a descriptor, in each of its
        branches. */
    method Accept(inFd: int, outFd: int, outcome: Outcome, inEnv: Env, outEnv: Env, ghost w: World,
                  ghost a: Pairing.Action, ghost r: Roster)
      returns (ghost q: Roster)
      requires Shows(w, r) && FdsAccounted(w) && MapTruthful(w) && IdsFresh(w)
      requires a == Action.Accept(inFd, outFd, outcome) && Legal(w, a)
      modifies `clientMap, `open, `fault, r.parts
      ensures Shows(AcceptStep(w, a), q) && Joined(w.accepted, outcome == Paired, inEnv, outEnv, r, q)
      ensures r.parts <= q.parts && fresh(q.parts - r.parts)
    {
      ghost var v := w.(accepted := w.accepted + 1);
      Open(inFd, v, r);
      v := OpenFd(v, inFd);
      if outcome == NonblockFails || outcome == SocketFails {
        Close(inFd, v, r);
        q := r;
        return;
      }
      Open(outFd, v, r);
      q := PairUp(inFd, outFd, outcome, inEnv, outEnv, w, a, r);
    }

    // ----- A read event -----

    /** The read step of the machine, in its two cases; `v` is the state after the look-up. */
    lemma ReadStepAlone(s: Setting, w: World, id: Id, chunk: seq<Byte>, v: World, more: Cell)
      requires id in w.live && At(w, w.live[id].fw) == None && v == Touch(w, w.live[id].fw)
      requires var cell := w.live[id];
               more == cell.(received := cell.received + chunk, conn := Orphan(cell.conn, chunk))
      ensures ReadStep(s, w, id, chunk) == v.(live := v.live[id := more])
    {
    }

    lemma ReadStepPaired(s: Setting, w: World, id: Id, chunk: seq<Byte>, v: World, p: Id, x: Exchange)
      requires id in w.live && p in w.live && p != id
      requires At(w, w.live[id].fw) == Some(p) && v == Touch(w, w.live[id].fw)
      requires store.Valid() && s.tables == store.View() && Exchanged(x, store, s.env(id), chunk)
      requires x.cell == w.live[id] && x.mate == w.live[p]
      ensures ReadStep(s, w, id, chunk) == v.(live := v.live[id := x.more][p := x.told])
    {
    }

    /** A read without a partner, once this is known. */
    method ReadUnpaired(c: Client, chunk: seq<Byte>, ghost s: Setting, ghost w: World, ghost v: World, ghost r: Roster)
      returns (ghost q: Roster)
      requires c.id in r.clients && r.clients[c.id] == c && c.id in w.live && w.live[c.id].conn.fate == Running
      requires At(w, w.live[c.id].fw) == None && v == Touch(w, w.live[c.id].fw) && Shows(v, r)
      modifies r.parts
      ensures Shows(ReadStep(s, w, c.id, chunk), q) && q.clients == r.clients
      ensures r.parts <= q.parts && fresh(q.parts - r.parts)
    {
      ghost var cell := w.live[c.id];
      ghost var more := cell.(received := cell.received + chunk, conn := Orphan(cell.conn, chunk));
      ReadStepAlone(s, w, c.id, chunk, v, more);
      q := ReadAlone(c, store, chunk, v.live, more, r);
    }

    /** A read with a partner, once this is known. */
    method ReadPaired(c: Client, p: Client, chunk: seq<Byte>, ghost s: Setting, ghost w: World, ghost v: World,
                      ghost r: Roster)
      returns (ghost q: Roster)
      requires c.id in r.clients && r.clients[c.id] == c && c.id in w.live && w.live[c.id].conn.fate == Running
      requires p.id in r.clients && r.clients[p.id] == p && p.id in w.live && p.id != c.id
      requires At(w, w.live[c.id].fw) == Some(p.id) && v == Touch(w, w.live[c.id].fw) && Shows(v, r)
      requires s.tables == store.View() && s.env(c.id) == c.oracle.env
      modifies r.parts
      ensures Shows(ReadStep(s, w, c.id, chunk), q) && q.clients == r.clients
      ensures r.parts <= q.parts && fresh(q.parts - r.parts)
    {
      ghost var cell, mate := w.live[c.id], w.live[p.id];
      ghost var flow := Feed(s.tables, s.env(c.id), Flow(cell.conn, mate.outlet), chunk);
      ghost var more := cell.(received := cell.received + chunk, conn := flow.conn);
      ghost var x := Exchange(cell, mate, more, mate.(outlet := flow.outlet));
      ReadStepPaired(s, w, c.id, chunk, v, p.id, x);
      q := ReadTo(c, p, store, chunk, v.live, x, r);
    }

    /** What is known about the partner that has been looked up. */
    ghost predicate Found(c: Client, partner: Client?, w: World, r: Roster)
      requires c.id in w.live
    {
      if partner == null then At(w, w.live[c.id].fw) == None
      else
        && partner.id in r.clients && r.clients[partner.id] == partner && partner.id != c.id
        && partner.id in w.live && At(w, w.live[c.id].fw) == Some(partner.id)
    }

    /** The read callback behind the look-up. */
    method ReadKnowing(c: Client, partner: Client?, chunk: seq<Byte>, ghost s: Setting, ghost w: World,
                       ghost v: World, ghost r: Roster)
      returns (ghost q: Roster)
      requires c.id in r.clients && r.clients[c.id] == c && c.id in w.live && w.live[c.id].conn.fate == Running
      requires Found(c, partner, w, r) && v == Touch(w, w.live[c.id].fw) && Shows(v, r)
      requires s.tables == store.View() && s.env(c.id) == c.oracle.env
      modifies r.parts
      ensures Shows(ReadStep(s, w, c.id, chunk), q) && q.clients == r.clients
      ensures r.parts <= q.parts && fresh(q.parts - r.parts)
    {
      if partner == null {
        q := ReadUnpaired(c, chunk, s, w, v, r);
      } else {
        q := ReadPaired(c, partner, chunk, s, w, v, r);
      }
    }

    /** The look-up of the partner */
    method PartnerOf(c: Client, ghost w: World, ghost v: World, ghost r: Roster) returns (partner: Client?)
      requires Shows(w, r) && c.id in r.clients && r.clients[c.id] == c && v == Touch(w, w.live[c.id].fw)
      requires var p := At(w, w.live[c.id].fw); p.Some? ==> p.value in w.live && p.value != c.id
      modifies `clientMap
      ensures Shows(v, r) && Found(c, partner, w, r)
    {
      assert Holds(c, c.id, w.live[c.id]);
      partner := Lookup(c.fwFd, w, r);
    }

    /** The read callback of a client, from the look-up of its partner on. */
    method Read(c: Client, chunk: seq<Byte>, ghost s: Setting, ghost w: World, ghost r: Roster)
      returns (ghost q: Roster)
      requires Shows(w, r) && c.id in r.clients && r.clients[c.id] == c && w.live[c.id].conn.fate == Running
      requires var p := At(w, w.live[c.id].fw); p.Some? ==> p.value in w.live && p.value != c.id
      requires s.tables == store.View() && s.env(c.id) == c.oracle.env
      modifies `clientMap, r.parts
      ensures Shows(ReadStep(s, w, c.id, chunk), q) && q.clients == r.clients
      ensures r.parts <= q.parts && fresh(q.parts - r.parts)
    {
      ghost var v := Touch(w, w.live[c.id].fw);
      var partner := PartnerOf(c, w, v, r);
      q := ReadKnowing(c, partner, chunk, s, w, v, r);
    }

    // ----- Runs -----

    /** The listener is closed. */
    method StopListening(ghost w: World, ghost r: Roster)
      requires Shows(w, r) && w.listener >= 0
      modifies `open, `fault, `listener
      ensures Shows(CloseFd(w, w.listener).(listener := -1), r)
    {
      Close(listener, w, r);
      listener := -1;
    }

    /** The tables and the answers that the clients get are those of the setting. */
    ghost predicate Serves(s: Setting, r: Roster)
      reads store.drop, store.dup
    {
      && store.Valid() && store.View() == s.tables
      && forall id :: id in r.clients ==> r.clients[id].oracle.env == s.env(id)
    }

    lemma JoinedServes(s: Setting, n: nat, paired: bool, r: Roster, q: Roster)
      requires Serves(s, r) && Joined(n, paired, s.env(Id(n, true)), s.env(Id(n, false)), r, q)
      ensures Serves(s, q)
    {
    }

    /** The clients that exist after a step. */
    static ghost predicate Members(n: nat, a: Pairing.Action, r: Roster, q: Roster) {
      match a
      case Accept(_, _, outcome) =>
        if outcome != Paired then q.clients == r.clients
        else
          && Id(n, true) in q.clients && Id(n, false) in q.clients
          && q.clients == r.clients[Id(n, true) := q.clients[Id(n, true)]][Id(n, false) := q.clients[Id(n, false)]]
      case Delete(id) => q.clients == r.clients - {id}
      case Read(_, _) => q.clients == r.clients
      case Stop => q.clients == r.clients
    }

    method PerformAccept(inFd: int, outFd: int, outcome: Outcome, inEnv: Env, outEnv: Env, ghost s: Setting,
                         ghost w: World, ghost a: Pairing.Action, ghost r: Roster)
      returns (ghost q: Roster)
      requires Shows(w, r) && Serves(s, r) && FdsAccounted(w) && MapTruthful(w) && IdsFresh(w)
      requires a == Action.Accept(inFd, outFd, outcome) && Legal(w, a)
      requires inEnv == s.env(Id(w.accepted, true)) && outEnv == s.env(Id(w.accepted, false))
      modifies `clientMap, `open, `fault, r.parts
      ensures Shows(AcceptStep(w, a), q) && Serves(s, q) && Members(w.accepted, a, r, q)
      ensures r.parts <= q.parts && fresh(q.parts - r.parts)
    {
      q := Accept(inFd, outFd, outcome, inEnv, outEnv, w, a, r);
      assert Serves(s, r);
      JoinedServes(s, w.accepted, outcome == Paired, r, q);
    }

    method PerformRead(c: Client, chunk: seq<Byte>, ghost s: Setting, ghost w: World, ghost r: Roster)
      returns (ghost q: Roster)
      requires Shows(w, r) && FdsAccounted(w) && MapTruthful(w) && MapComplete(w) && PairsIntact(w)
      requires c.id in r.clients && r.clients[c.id] == c && w.live[c.id].conn.fate == Running && Serves(s, r)
      modifies `clientMap, r.parts
      ensures Shows(ReadStep(s, w, c.id, chunk), q) && Serves(s, q) && q.clients == r.clients
      ensures r.parts <= q.parts && fresh(q.parts - r.parts)
    {
      PartnerIsMate(w, c.id);
      q := Read(c, chunk, s, w, r);
      assert Serves(s, r);
    }

    method PerformDelete(c: Client, ghost s: Setting, ghost w: World, ghost r: Roster) returns (ghost q: Roster)
      requires Shows(w, r) && FdsAccounted(w) && MapTruthful(w) && MapComplete(w) && PairsIntact(w)
      requires c.id in r.clients && r.clients[c.id] == c && Serves(s, r)
      modifies `clientMap, `open, `fault, r.parts
      ensures Shows(Pairing.Destroy(w, c.id), q) && Serves(s, q) && q == Roster(r.clients - {c.id}, r.parts)
    {
      assert Holds(c, c.id, w.live[c.id]);
      PartnerIsMate(w, c.id);
      q := Destroy(c, w, r);
      assert Serves(s, r);
    }

    /** One step: an accept, the callback or the destructor of a client, or the closing of the listener. */
    method Perform(a: Pairing.Action, c: Client?, inEnv: Env, outEnv: Env, ghost s: Setting, ghost w: World,
                   ghost r: Roster)
      returns (ghost q: Roster)
      requires Shows(w, r) && Serves(s, r) && Inv(s, w) && Legal(w, a)
      requires inEnv == s.env(Id(w.accepted, true)) && outEnv == s.env(Id(w.accepted, false))
      requires a.Read? || a.Delete? ==> c != null && c.id == a.id && c.id in r.clients && r.clients[c.id] == c
      modifies `clientMap, `open, `fault, `listener, r.parts
      ensures Shows(Step(s, w, a), q) && Serves(s, q) && Members(w.accepted, a, r, q)
      ensures r.parts <= q.parts && fresh(q.parts - r.parts)
    {
      match a {
        case Accept(inFd, outFd, outcome) => q := PerformAccept(inFd, outFd, outcome, inEnv, outEnv, s, w, a, r);
        case Read(_, chunk) => q := PerformRead(c, chunk, s, w, r);
        case Delete(_) => q := PerformDelete(c, s, w, r);
        case Stop =>
          StopListening(w, r);
          q := r;
      }
    }

    lemma PairEntered(w: World, a: Pairing.Action)
      requires FdsAccounted(w) && a.Accept? && a.outcome == Paired && Legal(w, a)
      ensures At(AcceptStep(w, a), a.inFd) == Some(Id(w.accepted, true))
      ensures At(AcceptStep(w, a), a.outFd) == Some(Id(w.accepted, false))
    {
      HalfRegisteredShape(w, a);
    }

    /** The pointer in the client map at the descriptor of a client. */
    method Entered(fd: int, ghost id: Id, ghost w: World, ghost r: Roster) returns (c: Client)
      requires Shows(w, r) && At(w, fd) == Some(id) && id in r.clients
      ensures c == r.clients[id]
    {
      c := clientMap[fd];
    }

    /** The client objects after a step; `n` pairs had been accepted before. */
    method NextClients(a: Pairing.Action, n: nat, clients: map<Id, Client>, ghost w: World, ghost v: World,
                       ghost r: Roster, ghost q: Roster)
      returns (after: map<Id, Client>)
      requires FdsAccounted(w) && Legal(w, a) && n == w.accepted && clients == r.clients
      requires Shows(v, q) && Members(n, a, r, q) && (a.Accept? ==> v == AcceptStep(w, a))
      ensures after == q.clients
    {
      after := clients;
      match a {
        case Accept(inFd, outFd, outcome) =>
          if outcome == Paired {
            PairEntered(w, a);
            var inClient := Entered(inFd, Id(n, true), v, q);
            var outClient := Entered(outFd, Id(n, false), v, q);
            after := clients[Id(n, true) := inClient][Id(n, false) := outClient];
          }
        case Delete(id) => after := clients - {id};
        case Read(_, _) =>
        case Stop =>
      }
    }

    lemma AcceptedAfter(s: Setting, w: World, a: Pairing.Action)
      requires Inv(s, w) && Legal(w, a)
      ensures Step(s, w, a).accepted == w.accepted + if a.Accept? then 1 else 0
    {
      match a
      case Accept(_, _, outcome) =>
        if outcome == Paired {
          HalfRegisteredShape(w, a);
        } else {
          AcceptUnpaired(s, w, a);
        }
      case Read(id, chunk) => ReadShape(s, w, id, chunk);
      case Delete(id) => DestroyShape(w, id);
      case Stop =>
    }

    /** A run from `w` leads to `goal`; `n` pairs have been accepted. */
    static ghost predicate Leads(s: Setting, w: World, run: seq<Pairing.Action>, goal: World, n: nat) {
      Inv(s, w) && LegalRun(s, w, run) && Run(s, w, run) == goal && n == w.accepted
    }

    lemma LeadsOn(s: Setting, w: World, run: seq<Pairing.Action>, goal: World, n: nat) returns (v: World)
      requires Leads(s, w, run, goal, n) && run != []
      ensures Inv(s, w) && Legal(w, run[0]) && n == w.accepted && v == Step(s, w, run[0])
      ensures Leads(s, v, run[1..], goal, if run[0].Accept? then n + 1 else n)
    {
      StepKeepsInv(s, w, run[0]);
      AcceptedAfter(s, w, run[0]);
      v := Step(s, w, run[0]);
    }

    /** A step and the client objects after it. */
    method CarryOne(a: Pairing.Action, env: Id -> Env, n: nat, clients: map<Id, Client>, ghost s: Setting,
                    ghost w: World, ghost v: World, ghost r: Roster)
      returns (after: map<Id, Client>, ghost q: Roster)
      requires Shows(w, r) && Serves(s, r) && Inv(s, w) && Legal(w, a) && v == Step(s, w, a)
      requires clients == r.clients && n == w.accepted && s.env == env
      modifies `clientMap, `open, `fault, `listener, r.parts
      ensures Shows(v, q) && Serves(s, q) && after == q.clients
      ensures r.parts <= q.parts && fresh(q.parts - r.parts)
    {
      var c: Client? := null;
      if a.Read? || a.Delete? {
        c := clients[a.id];
        assert Holds(c, a.id, w.live[a.id]);
      }
      q := Perform(a, c, env(Id(n, true)), env(Id(n, false)), s, w, r);
      after := NextClients(a, n, clients, w, v, r, q);
    }

    /** A whole run, step by step: accepts, callbacks, destructors and the closing of the listener in any legal
        order leave the objects as the machine says. */
    method Carry(run: seq<Pairing.Action>, env: Id -> Env, ghost s: Setting, ghost fd: nat, ghost goal: World)
      returns (ghost q: Roster)
      requires Shows(Initial(fd), Roster(map[], {})) && s.tables == store.View() && s.env == env
      requires LegalRun(s, Initial(fd), run) && goal == Run(s, Initial(fd), run)
      modifies `clientMap, `open, `fault, `listener
      ensures Shows(goal, q)
    {
      InitialInv(s, fd);
      var rest, n, clients := run, 0, map[];
      ghost var w := Initial(fd);
      q := Roster(map[], {});
      while rest != []
        invariant Leads(s, w, rest, goal, n) && clients == q.clients
        invariant Shows(w, q) && Serves(s, q) && fresh(q.parts)
        decreases |rest|
      {
        ghost var v := LeadsOn(s, w, rest, goal, n);
        clients, q := CarryOne(rest[0], env, n, clients, s, w, v, q);
        n := if rest[0].Accept? then n + 1 else n;
        w, rest := v, rest[1..];
      }
    }
  }
}
