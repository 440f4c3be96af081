/**
  What holds after every step of the pairing machine, and what follows for whole runs.
 */
module PairingProofs {
  import opened Bytes
  import opened Flows
  import opened Pairing
  import opened Wrappers

  lemma InitialInv(s: Setting, listener: nat)
    ensures Inv(s, Initial(listener))
  {
  }

  // ----- Failed accepts -----

  /** The effect of every accept that does not end with a pair: what was opened has been closed, and
      no client, pointer or descriptor has changed. */
  ghost predicate Unpaired(w: World, v: World) {
    && v.listener == w.listener && v.open == w.open && v.live == w.live && v.fault == w.fault
    && (forall fd :: At(v, fd) == At(w, fd))
    && v.accepted == w.accepted + 1
    && (forall id :: id in w.past ==> id in v.past && v.past[id] == w.past[id])
    && (forall id :: id in v.past && id !in w.past ==> id.pair == w.accepted && v.past[id].outlet == START.outlet)
  }

  lemma UnpairedKeepsMap(w: World, v: World)
    requires FdsAccounted(w) && MapTruthful(w) && MapComplete(w) && PairsIntact(w) && IdsFresh(w) && Unpaired(w, v)
    ensures FdsAccounted(v) && MapTruthful(v) && MapComplete(v) && PairsIntact(v) && IdsFresh(v)
  {
    forall fd | fd in v.table && v.table[fd].Some?
      ensures v.table[fd].value in v.live && v.live[v.table[fd].value].fd == fd
    {
      assert At(v, fd) == At(w, fd);
    }
    forall id | id in v.live
      ensures At(v, v.live[id].fd) == Some(id) && PairIntact(v, id)
    {
      assert At(v, v.live[id].fd) == At(w, v.live[id].fd);
      assert PairIntact(w, id);
    }
  }

  lemma UnpairedKeepsTraffic(s: Setting, w: World, v: World, id: Id)
    requires IdsFresh(w) && Unpaired(w, v) && Exact(s, w, id) && Pure(s, w, id)
    ensures Exact(s, v, id) && Pure(s, v, id)
  {
    if Known(w, id) && Known(w, Mate(id)) {
      assert CellOf(v, id) == CellOf(w, id) && CellOf(v, Mate(id)) == CellOf(w, Mate(id));
    } else if Known(v, id) && Known(v, Mate(id)) {
      assert id.pair == w.accepted;
      assert id !in w.live && id in v.past;
    }
  }

  lemma UnpairedKeepsInv(s: Setting, w: World, v: World)
    requires Inv(s, w) && Unpaired(w, v)
    ensures Inv(s, v)
  {
    UnpairedKeepsMap(w, v);
    forall id: Id
      ensures Exact(s, v, id) && Pure(s, v, id)
    {
      assert Exact(s, w, id) && Pure(s, w, id);
      UnpairedKeepsTraffic(s, w, v, id);
    }
  }

  /** A descriptor that is not open has no pointer in the client map. */
  lemma UnusedFd(w: World, fd: int)
    requires FdsAccounted(w) && MapTruthful(w) && fd !in w.open
    ensures At(w, fd) == None && forall id :: id in w.live ==> w.live[id].fd != fd
  {
  }

  /** The destructor of a client that finds no partner. */
  lemma DestroyLone(w: World, id: Id)
    requires id in w.live && 0 <= w.live[id].fd && w.live[id].fd in w.open && At(w, w.live[id].fw) == None
    ensures var v := Destroy(w, id);
            && v == CloseFd(w, w.live[id].fd).(table := v.table, live := w.live - {id},
                past := w.past[id := w.live[id]])
            && forall fd :: At(v, fd) == if fd == w.live[id].fd then None else At(w, fd)
  {
  }

  /** The state in which the destructor of a client that never got a partner runs. */
  ghost predicate Abandoned(w: World, v: World, id: Id) {
    && id in v.live && id !in w.live && id.pair == w.accepted
    && v.live[id].outlet == START.outlet
    && v.live == w.live[id := v.live[id]]
    && v.live[id].fd >= 0 && v.live[id].fd !in w.open && v.open == w.open + {v.live[id].fd}
    && At(w, v.live[id].fd) == None && At(v, v.live[id].fw) == None
    && (forall fd :: fd != v.live[id].fd ==> At(v, fd) == At(w, fd))
    && v.listener == w.listener && v.fault == w.fault && v.accepted == w.accepted + 1
    && (forall i :: i in w.past ==> i in v.past && v.past[i] == w.past[i])
    && (forall i :: i in v.past && i !in w.past ==> i.pair == w.accepted && v.past[i].outlet == START.outlet)
  }

  /** Such a client leaves no trace. */
  lemma AbandonedDestroyed(w: World, v: World, id: Id)
    requires Abandoned(w, v, id) && IdsFresh(w)
    ensures Unpaired(w, Destroy(v, id))
  {
    DestroyLone(v, id);
    assert Destroy(v, id).live == w.live;
    assert Destroy(v, id).open == w.open;
  }

  /** The inflow client exists alone; it may have been entered in the map. */
  lemma InAlone(w: World, a: Action, registered: bool)
    requires FdsAccounted(w) && MapTruthful(w) && IdsFresh(w) && a.Accept? && Legal(w, a)
    ensures var id := Id(w.accepted, true);
            var created := Create(Connected(w, a), id, a.inFd, a.outFd);
            Abandoned(w, CloseFd(if registered then Register(created, id) else created, a.outFd), id)
  {
    UnusedFd(w, a.inFd);
    UnusedFd(w, a.outFd);
    assert w.open + {a.inFd} + {a.outFd} - {a.outFd} == w.open + {a.inFd};
  }

  lemma AcceptInFails(s: Setting, w: World, a: Action)
    requires FdsAccounted(w) && MapTruthful(w) && IdsFresh(w) && a.Accept? && Legal(w, a)
    requires a.outcome == InInitFails || a.outcome == OutAllocFails
    ensures Unpaired(w, Step(s, w, a))
  {
    var id := Id(w.accepted, true);
    var created := Create(Connected(w, a), id, a.inFd, a.outFd);
    var registered := a.outcome == OutAllocFails;
    var v := CloseFd(if registered then Register(created, id) else created, a.outFd);
    InAlone(w, a, registered);
    AbandonedDestroyed(w, v, id);
    assert Step(s, w, a) == Destroy(v, id);
  }

  lemma HalfRegisteredShape(w: World, a: Action)
    requires FdsAccounted(w) && a.Accept? && Legal(w, a)
    ensures var inId, outId := Id(w.accepted, true), Id(w.accepted, false);
            HalfRegistered(w, a) ==
            w.(accepted := w.accepted + 1,
               open := w.open + {a.inFd} + {a.outFd},
               table := w.table[a.inFd := Some(inId)],
               live := w.live[inId := Cell(a.inFd, a.outFd, START.conn, START.outlet, [], false)]
                             [outId := Cell(a.outFd, a.inFd, START.conn, START.outlet, [], false)])
  {
  }

  lemma HalfRegisteredDestroyed(w: World, a: Action)
    requires FdsAccounted(w) && MapTruthful(w) && IdsFresh(w) && a.Accept? && Legal(w, a)
    ensures var v := HalfRegistered(w, a);
            var inId, outId := Id(w.accepted, true), Id(w.accepted, false);
            inId in v.live && Abandoned(w, Destroy(v, inId), outId)
  {
    UnusedFd(w, a.inFd);
    UnusedFd(w, a.outFd);
    HalfRegisteredShape(w, a);
    var v := HalfRegistered(w, a);
    var inId, outId := Id(w.accepted, true), Id(w.accepted, false);
    DestroyLone(v, inId);
    var u := Destroy(v, inId);
    assert u.open == w.open + {a.outFd};
    assert u.live == w.live[outId := v.live[outId]];
  }

  lemma AcceptOutFails(s: Setting, w: World, a: Action)
    requires FdsAccounted(w) && MapTruthful(w) && IdsFresh(w) && a.Accept? && Legal(w, a) && a.outcome == OutInitFails
    ensures Unpaired(w, Step(s, w, a))
  {
    HalfRegisteredDestroyed(w, a);
    var inId, outId := Id(w.accepted, true), Id(w.accepted, false);
    var v := Destroy(HalfRegistered(w, a), inId);
    AbandonedDestroyed(w, v, outId);
  }

  lemma AcceptUnpaired(s: Setting, w: World, a: Action)
    requires FdsAccounted(w) && MapTruthful(w) && IdsFresh(w) && a.Accept? && Legal(w, a) && a.outcome != Paired
    ensures Unpaired(w, Step(s, w, a))
  {
    if a.outcome == InInitFails || a.outcome == OutAllocFails {
      AcceptInFails(s, w, a);
    } else if a.outcome == OutInitFails {
      AcceptOutFails(s, w, a);
    } else {
      assert Step(s, w, a).open == w.open;
    }
  }

  // ----- A new pair -----

  lemma OwedNothing(s: Setting, id: Id)
    ensures Same(START, Owed(s, id, []))
  {
    assert START.conn.live + [] == [];
  }

  lemma FdsWith(live: map<Id, Cell>, id: Id, cell: Cell)
    requires id !in live && Distinct(live) && cell.fd !in Fds(live)
    ensures Fds(live[id := cell]) == Fds(live) + {cell.fd} && Distinct(live[id := cell])
  {
    var more := live[id := cell];
    assert forall i :: i in live ==> more[i] == live[i] && live[i].fd in Fds(live);
    assert more[id].fd == cell.fd;
  }

  lemma AcceptPairedFds(s: Setting, w: World, a: Action)
    requires FdsAccounted(w) && IdsFresh(w) && a.Accept? && Legal(w, a) && a.outcome == Paired
    ensures FdsAccounted(Step(s, w, a))
  {
    HalfRegisteredShape(w, a);
    var inId, outId := Id(w.accepted, true), Id(w.accepted, false);
    var v := Step(s, w, a);
    FdsWith(w.live, inId, v.live[inId]);
    FdsWith(w.live[inId := v.live[inId]], outId, v.live[outId]);
    assert v.live == w.live[inId := v.live[inId]][outId := v.live[outId]];
  }

  lemma AcceptPairedMap(s: Setting, w: World, a: Action)
    requires FdsAccounted(w) && MapTruthful(w) && MapComplete(w) && IdsFresh(w)
    requires a.Accept? && Legal(w, a) && a.outcome == Paired
    ensures MapTruthful(Step(s, w, a)) && MapComplete(Step(s, w, a))
  {
    HalfRegisteredShape(w, a);
    UnusedFd(w, a.inFd);
    UnusedFd(w, a.outFd);
    var v := Step(s, w, a);
    forall id | id in v.live
      ensures At(v, v.live[id].fd) == Some(id)
    {
      if id.pair != w.accepted {
        assert At(w, w.live[id].fd) == Some(id);
      }
    }
  }

  lemma AcceptPairedIds(s: Setting, w: World, a: Action)
    requires FdsAccounted(w) && PairsIntact(w) && IdsFresh(w)
    requires a.Accept? && Legal(w, a) && a.outcome == Paired
    ensures PairsIntact(Step(s, w, a)) && IdsFresh(Step(s, w, a))
  {
    HalfRegisteredShape(w, a);
    var v := Step(s, w, a);
    forall id | id in v.live
      ensures PairIntact(v, id)
    {
      if id.pair != w.accepted {
        assert PairIntact(w, id);
      }
    }
  }

  lemma AcceptPairedAt(s: Setting, w: World, a: Action, id: Id)
    requires FdsAccounted(w) && IdsFresh(w) && Exact(s, w, id) && Pure(s, w, id)
    requires a.Accept? && Legal(w, a) && a.outcome == Paired
    ensures Exact(s, Step(s, w, a), id) && Pure(s, Step(s, w, a), id)
  {
    HalfRegisteredShape(w, a);
    var v := Step(s, w, a);
    if id.pair == w.accepted {
      if id in v.live {
        OwedNothing(s, id);
      }
    } else {
      assert id in v.live ==> v.live[id] == w.live[id];
      assert Mate(id) in v.live ==> v.live[Mate(id)] == w.live[Mate(id)];
    }
  }

  lemma AcceptPairedTraffic(s: Setting, w: World, a: Action)
    requires Inv(s, w) && a.Accept? && Legal(w, a) && a.outcome == Paired
    ensures TrafficExact(s, Step(s, w, a)) && TrafficPure(s, Step(s, w, a))
  {
    forall id: Id
      ensures Exact(s, Step(s, w, a), id) && Pure(s, Step(s, w, a), id)
    {
      assert Exact(s, w, id) && Pure(s, w, id);
      AcceptPairedAt(s, w, a, id);
    }
  }

  // ----- Destruction -----

  /** The partner a client finds is its living mate, or none. */
  lemma PartnerIsMate(w: World, id: Id)
    requires FdsAccounted(w) && MapTruthful(w) && MapComplete(w) && PairsIntact(w) && id in w.live
    ensures At(w, w.live[id].fw) == if Mate(id) in w.live then Some(Mate(id)) else None
  {
    assert PairIntact(w, id);
  }

  /** The destructor of a client that finds its partner. */
  lemma DestroyPaired(w: World, id: Id, p: Id)
    requires id in w.live && 0 <= w.live[id].fd && w.live[id].fd in w.open
    requires p in w.live && p != id && At(w, w.live[id].fw) == Some(p)
    ensures var v := Destroy(w, id);
            && v == CloseFd(w, w.live[id].fd).(
                      table := v.table,
                      live := w.live[p := w.live[p].(fw := -1, broken := true)] - {id},
                      past := w.past[id := w.live[id]])
            && forall fd :: At(v, fd) == if fd == w.live[id].fd then None else At(w, fd)
  {
  }

  lemma DestroyShape(w: World, id: Id)
    requires FdsAccounted(w) && MapTruthful(w) && MapComplete(w) && PairsIntact(w) && id in w.live
    ensures var v, cell, mate := Destroy(w, id), w.live[id], Mate(id);
            && v == w.(table := v.table, live := v.live, open := w.open - {cell.fd}, past := w.past[id := cell])
            && v.live.Keys == w.live.Keys - {id}
            && (forall i :: i in v.live ==>
                  v.live[i] == if i == mate then w.live[i].(fw := -1, broken := true) else w.live[i])
            && (forall fd :: At(v, fd) == if fd == cell.fd then None else At(w, fd))
  {
    PartnerIsMate(w, id);
    assert w.live[id].fd in w.open;
    if Mate(id) in w.live {
      DestroyPaired(w, id, Mate(id));
    } else {
      DestroyLone(w, id);
    }
  }

  lemma DestroyFds(w: World, id: Id)
    requires FdsAccounted(w) && MapTruthful(w) && MapComplete(w) && PairsIntact(w) && id in w.live
    ensures FdsAccounted(Destroy(w, id))
  {
    DestroyShape(w, id);
    FdsWithout(w.live, Destroy(w, id).live, id);
  }

  lemma FdsWithout(live: map<Id, Cell>, left: map<Id, Cell>, id: Id)
    requires id in live && left.Keys == live.Keys - {id} && Distinct(live)
    requires forall i :: i in left ==> left[i].fd == live[i].fd
    ensures Fds(left) == Fds(live) - {live[id].fd} && Distinct(left)
  {
    forall fd | fd in Fds(live) - {live[id].fd}
      ensures fd in Fds(left)
    {
      var i :| i in live && live[i].fd == fd;
      assert i in left;
    }
  }

  lemma DestroyMap(w: World, id: Id)
    requires FdsAccounted(w) && MapTruthful(w) && MapComplete(w) && PairsIntact(w) && id in w.live
    ensures MapTruthful(Destroy(w, id)) && MapComplete(Destroy(w, id))
  {
    DestroyShape(w, id);
    var v := Destroy(w, id);
    forall fd | fd in v.table && v.table[fd].Some?
      ensures v.table[fd].value in v.live && v.live[v.table[fd].value].fd == fd
    {
      assert At(v, fd) == At(w, fd);
    }
    forall i | i in v.live
      ensures At(v, v.live[i].fd) == Some(i)
    {
      assert At(w, w.live[i].fd) == Some(i);
    }
  }

  /** A client that is left still points to its mate, if that is left, too. */
  lemma PairAfter(w: World, v: World, id: Id, i: Id)
    requires PairsIntact(w) && id in w.live && v.live.Keys == w.live.Keys - {id} && i in v.live
    requires forall j :: j in v.live ==>
               v.live[j] == if j == Mate(id) then w.live[j].(fw := -1, broken := true) else w.live[j]
    ensures PairIntact(v, i)
  {
    assert Mate(Mate(i)) == i;
    assert PairIntact(w, i);
  }

  lemma DestroyPairs(w: World, id: Id)
    requires FdsAccounted(w) && MapTruthful(w) && MapComplete(w) && PairsIntact(w) && IdsFresh(w) && id in w.live
    ensures PairsIntact(Destroy(w, id)) && IdsFresh(Destroy(w, id))
  {
    var v := Destroy(w, id);
    DestroyShape(w, id);
    forall i | i in v.live
      ensures PairIntact(v, i)
    {
      PairAfter(w, v, id, i);
    }
  }

  lemma DestroyTraffic(s: Setting, w: World, id: Id)
    requires Inv(s, w) && id in w.live
    ensures TrafficExact(s, Destroy(w, id)) && TrafficPure(s, Destroy(w, id))
  {
    forall i: Id
      ensures Exact(s, Destroy(w, id), i) && Pure(s, Destroy(w, id), i)
    {
      assert Exact(s, w, i) && Pure(s, w, i);
      DestroyTrafficAt(s, w, id, i);
    }
  }

  lemma DestroyTrafficAt(s: Setting, w: World, id: Id, i: Id)
    requires FdsAccounted(w) && MapTruthful(w) && MapComplete(w) && PairsIntact(w) && IdsFresh(w) && id in w.live
    requires Exact(s, w, i) && Pure(s, w, i)
    ensures Exact(s, Destroy(w, id), i) && Pure(s, Destroy(w, id), i)
  {
    DestroyShape(w, id);
    var v := Destroy(w, id);
    assert Mate(Mate(i)) == i;
    if i in v.live && Mate(i) in v.live {
      assert v.live[i] == w.live[i] && v.live[Mate(i)] == w.live[Mate(i)];
    }
    if Known(v, i) && Known(v, Mate(i)) {
      SameTraffic(w, v, id, i);
      SameTraffic(w, v, id, Mate(i));
    }
  }

  lemma SameTraffic(w: World, v: World, id: Id, i: Id)
    requires FdsAccounted(w) && MapTruthful(w) && MapComplete(w) && PairsIntact(w) && IdsFresh(w)
    requires id in w.live && v == Destroy(w, id) && Known(v, i)
    ensures Known(w, i)
    ensures CellOf(v, i).outlet == CellOf(w, i).outlet && CellOf(v, i).received == CellOf(w, i).received
  {
    DestroyShape(w, id);
  }

  // ----- Reading -----

  /** What has changed from `w` to `v` is what a read of client `id` changes. */
  ghost predicate HasRead(s: Setting, w: World, v: World, id: Id, chunk: seq<Byte>)
    requires id in w.live
  {
    var cell, mate := w.live[id], Mate(id);
    var flow := if mate in w.live then Feed(s.tables, s.env(id), Flow(cell.conn, w.live[mate].outlet), chunk)
                else Flow(Orphan(cell.conn, chunk), START.outlet);
    && v == w.(table := v.table, live := v.live)
    && v.live.Keys == w.live.Keys
    && v.live[id] == cell.(received := cell.received + chunk, conn := flow.conn)
    && (mate in w.live ==> v.live[mate] == w.live[mate].(outlet := flow.outlet))
    && (forall i :: i in v.live && i != id && i != mate ==> v.live[i] == w.live[i])
    && (forall fd :: At(v, fd) == At(w, fd))
  }

  lemma ReadShape(s: Setting, w: World, id: Id, chunk: seq<Byte>)
    requires FdsAccounted(w) && MapTruthful(w) && MapComplete(w) && PairsIntact(w) && id in w.live
    ensures HasRead(s, w, ReadStep(s, w, id, chunk), id, chunk)
  {
    PartnerIsMate(w, id);
    assert Mate(id) != id;
  }

  lemma ReadFds(s: Setting, w: World, v: World, id: Id, chunk: seq<Byte>)
    requires FdsAccounted(w) && id in w.live && HasRead(s, w, v, id, chunk)
    ensures FdsAccounted(v)
  {
    SameFds(w.live, v.live);
  }

  lemma SameFds(live: map<Id, Cell>, after: map<Id, Cell>)
    requires after.Keys == live.Keys && Distinct(live)
    requires forall i :: i in after ==> after[i].fd == live[i].fd
    ensures Fds(after) == Fds(live) && Distinct(after)
  {
    forall fd | fd in Fds(live)
      ensures fd in Fds(after)
    {
      var i :| i in live && live[i].fd == fd;
      assert i in after;
    }
  }

  lemma ReadMap(s: Setting, w: World, v: World, id: Id, chunk: seq<Byte>)
    requires MapTruthful(w) && MapComplete(w) && id in w.live && HasRead(s, w, v, id, chunk)
    ensures MapTruthful(v) && MapComplete(v)
  {
    forall fd | fd in v.table && v.table[fd].Some?
      ensures v.table[fd].value in v.live && v.live[v.table[fd].value].fd == fd
    {
      assert At(v, fd) == At(w, fd);
    }
    forall i | i in v.live
      ensures At(v, v.live[i].fd) == Some(i)
    {
      assert At(v, w.live[i].fd) == At(w, w.live[i].fd);
    }
  }

  lemma ReadPairs(s: Setting, w: World, v: World, id: Id, chunk: seq<Byte>)
    requires PairsIntact(w) && IdsFresh(w) && id in w.live && HasRead(s, w, v, id, chunk)
    ensures PairsIntact(v) && IdsFresh(v)
  {
    forall i | i in v.live
      ensures PairIntact(v, i)
    {
      assert PairIntact(w, i);
    }
  }

  /** One more chunk keeps a flow in step with what it owes. */
  lemma FeedOwed(s: Setting, id: Id, f: Flow, received: seq<Byte>, chunk: seq<Byte>)
    requires Same(f, Owed(s, id, received))
    ensures Same(Feed(s.tables, s.env(id), f, chunk), Owed(s, id, received + chunk))
  {
    FeedSame(s.tables, s.env(id), f, Owed(s, id, received), chunk);
    FeedTwice(s.tables, s.env(id), START, received, chunk);
  }

  lemma ReadExact(s: Setting, w: World, v: World, id: Id, chunk: seq<Byte>, i: Id)
    requires id in w.live && HasRead(s, w, v, id, chunk) && Exact(s, w, i)
    ensures Exact(s, v, i)
  {
    assert Mate(Mate(i)) == i && Mate(i) != i;
    if i in v.live && Mate(i) in v.live {
      if i == id {
        FeedOwed(s, id, Flow(w.live[id].conn, w.live[Mate(id)].outlet), w.live[id].received, chunk);
      } else {
        assert v.live[i].conn == w.live[i].conn && v.live[Mate(i)].outlet == w.live[Mate(i)].outlet;
        assert v.live[i].received == w.live[i].received;
      }
    }
  }

  lemma ReadPure(s: Setting, w: World, v: World, id: Id, chunk: seq<Byte>, i: Id)
    requires id in w.live && HasRead(s, w, v, id, chunk) && Pure(s, w, i) && Exact(s, w, id)
    ensures Pure(s, v, i)
  {
    var mate := Mate(id);
    assert Mate(mate) == id && mate != id && Mate(Mate(i)) == i;
    if Known(v, i) && Known(v, Mate(i)) {
      if i != mate {
        assert CellOf(v, i).outlet == CellOf(w, i).outlet;
        assert CellOf(v, Mate(i)).received == CellOf(w, Mate(i)).received;
      } else if mate !in v.live {
        assert CellOf(v, i) == CellOf(w, i);
        FeedGrows(s.tables, s.env(id), START, w.live[id].received, chunk);
      } else {
        assert Exact(s, v, id) by {
          ReadExact(s, w, v, id, chunk, id);
        }
      }
    }
  }

  lemma ReadTraffic(s: Setting, w: World, v: World, id: Id, chunk: seq<Byte>)
    requires TrafficExact(s, w) && TrafficPure(s, w) && id in w.live && HasRead(s, w, v, id, chunk)
    ensures TrafficExact(s, v) && TrafficPure(s, v)
  {
    assert Exact(s, w, id);
    forall i: Id
      ensures Exact(s, v, i) && Pure(s, v, i)
    {
      assert Exact(s, w, i) && Pure(s, w, i);
      ReadExact(s, w, v, id, chunk, i);
      ReadPure(s, w, v, id, chunk, i);
    }
  }

  lemma ReadKeepsInv(s: Setting, w: World, v: World, id: Id, chunk: seq<Byte>)
    requires Inv(s, w) && id in w.live && v == ReadStep(s, w, id, chunk)
    ensures Inv(s, v)
  {
    ReadShape(s, w, id, chunk);
    ReadFds(s, w, v, id, chunk);
    ReadMap(s, w, v, id, chunk);
    ReadPairs(s, w, v, id, chunk);
    ReadTraffic(s, w, v, id, chunk);
  }

  // ----- Every step and every run -----

  lemma StepKeepsInv(s: Setting, w: World, a: Action)
    requires Inv(s, w) && Legal(w, a)
    ensures Inv(s, Step(s, w, a))
  {
    match a
    case Accept(_, _, outcome) =>
      if outcome == Paired {
        AcceptPairedFds(s, w, a);
        AcceptPairedMap(s, w, a);
        AcceptPairedIds(s, w, a);
        AcceptPairedTraffic(s, w, a);
      } else {
        AcceptUnpaired(s, w, a);
        UnpairedKeepsInv(s, w, Step(s, w, a));
      }
    case Read(id, chunk) =>
      ReadKeepsInv(s, w, Step(s, w, a), id, chunk);
    case Delete(id) =>
      DestroyFds(w, id);
      DestroyMap(w, id);
      DestroyPairs(w, id);
      DestroyTraffic(s, w, id);
    case Stop =>
      StopKeepsInv(s, w);
  }

  lemma StopKeepsInv(s: Setting, w: World)
    requires Inv(s, w) && Legal(w, Stop)
    ensures Inv(s, Step(s, w, Stop))
  {
    var v := Step(s, w, Stop);
    assert v.open == Fds(v.live);
    forall id | id in v.live
      ensures PairIntact(v, id)
    {
      assert PairIntact(w, id);
    }
    forall id: Id
      ensures Exact(s, v, id) && Pure(s, v, id)
    {
      assert Exact(s, w, id) && Pure(s, w, id);
      StopKeepsTraffic(s, w, id);
    }
  }

  lemma StopKeepsTraffic(s: Setting, w: World, id: Id)
    requires Legal(w, Stop) && Exact(s, w, id) && Pure(s, w, id)
    ensures Exact(s, Step(s, w, Stop), id) && Pure(s, Step(s, w, Stop), id)
  {
  }

  lemma {:induction false} RunKeepsInv(s: Setting, w: World, run: seq<Action>)
    requires Inv(s, w) && LegalRun(s, w, run)
    ensures Inv(s, Run(s, w, run))
    decreases |run|
  {
    if run != [] {
      StepKeepsInv(s, w, run[0]);
      RunKeepsInv(s, Step(s, w, run[0]), run[1..]);
    }
  }
}
