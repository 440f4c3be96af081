/**
  What every run of the proxy guarantees, however accepts, reads and destructors are interleaved and
  however descriptor numbers are reused.
 */
module PairingRuns {
  import opened Bytes
  import opened Flows
  import opened Frames
  import opened Pairing
  import opened PairingProofs
  import opened Relay
  import opened Wrappers

  /** No cross-talk. A live client either is alone and knows no partner, or its `fw_fd` leads through
      the client map to the live client it was created with, which points back to it. */
  lemma NoCrossTalk(s: Setting, listener: nat, run: seq<Action>, id: Id)
    requires LegalRun(s, Initial(listener), run) && id in Run(s, Initial(listener), run).live
    ensures var w := Run(s, Initial(listener), run);
            && At(w, w.live[id].fd) == Some(id)
            && (w.live[id].fw == -1 <==> Mate(id) !in w.live)
            && (w.live[id].fw != -1 ==>
                  && At(w, w.live[id].fw) == Some(Mate(id))
                  && w.live[Mate(id)].fd == w.live[id].fw && w.live[Mate(id)].fw == w.live[id].fd)
  {
    InitialInv(s, listener);
    RunKeepsInv(s, Initial(listener), run);
    var w := Run(s, Initial(listener), run);
    assert PairIntact(w, id);
    if Mate(id) in w.live {
      assert PairIntact(w, Mate(id));
    }
  }

  /** Descriptor accounting. No descriptor is closed twice or leaked: the open ones are the listener
      and one for each live client, and pointers in the client map lead to the client of that
      descriptor. */
  lemma DescriptorsAccounted(s: Setting, listener: nat, run: seq<Action>)
    requires LegalRun(s, Initial(listener), run)
    ensures var w := Run(s, Initial(listener), run);
            && !w.fault
            && w.open == Fds(w.live) + (if w.listener >= 0 then {w.listener} else {})
            && w.listener !in Fds(w.live) && |Fds(w.live)| == |w.live|
            && forall fd :: At(w, fd).Some? ==> At(w, fd).value in w.live && w.live[At(w, fd).value].fd == fd
  {
    InitialInv(s, listener);
    RunKeepsInv(s, Initial(listener), run);
    CountFds(Run(s, Initial(listener), run).live);
  }

  lemma {:induction false} CountFds(live: map<Id, Cell>)
    requires Distinct(live)
    ensures |Fds(live)| == |live|
    decreases |live|
  {
    if live == map[] {
      assert Fds(live) == {};
    } else {
      var id :| id in live;
      var rest := live - {id};
      CountFds(rest);
      assert live == rest[id := live[id]];
      assert Fds(live) == Fds(rest) + {live[id].fd};
      assert live.Keys == rest.Keys + {id};
    }
  }

  /** Traffic stays in its pair. Whatever happens around them and however sockets answer, the bytes a
      client's socket has been given are a prefix of what relaying the messages received by its mate, and
      nothing else, gives rise to; while both live, they are all of it, and so is what waits in the
      client's `ev_buf`. */
  lemma TrafficStaysInPair(s: Setting, listener: nat, run: seq<Action>, id: Id)
    requires LegalRun(s, Initial(listener), run)
    requires var w := Run(s, Initial(listener), run); Known(w, id) && Known(w, Mate(id))
    ensures var w := Run(s, Initial(listener), run);
            var frames := Split(CellOf(w, Mate(id)).received).frames;
            var due := RelayAll(s.tables, s.env(Mate(id)), frames, NOTHING).outlet;
            && CellOf(w, id).outlet.sent <= due.sent
            && (id in w.live && Mate(id) in w.live ==> w.live[id].outlet == due)
  {
    InitialInv(s, listener);
    RunKeepsInv(s, Initial(listener), run);
    var w := Run(s, Initial(listener), run);
    var received := CellOf(w, Mate(id)).received;
    assert Pure(s, w, id) && Exact(s, w, Mate(id));
    assert [] + received == received;
  }

  /** So these bytes are the emission of its mate's messages, up to the one that stops the mate. */
  lemma EmissionStaysInPair(s: Setting, listener: nat, run: seq<Action>, id: Id)
    requires LegalRun(s, Initial(listener), run)
    requires var w := Run(s, Initial(listener), run); Known(w, id) && Known(w, Mate(id))
    ensures var w, e := Run(s, Initial(listener), run), s.env(Mate(id));
            var frames := Split(CellOf(w, Mate(id)).received).frames;
            var n := Treated(s.tables, e, frames);
            && n <= |frames|
            && CellOf(w, id).outlet.sent <= Flatten(Emission(s.tables, e, frames[..n]))
            && (id in w.live && Mate(id) in w.live ==>
                  w.live[id].outlet.sent == Flatten(Emission(s.tables, e, frames[..n])))
  {
    TrafficStaysInPair(s, listener, run, id);
    RelayEmits(s.tables, s.env(Mate(id)), Split(CellOf(Run(s, Initial(listener), run), Mate(id)).received).frames);
  }

  // ----- Who lives, and with what input -----

  /** An accept of a run, counting from 0. */
  function NthAccept(run: seq<Action>, n: nat): (a: Option<Action>)
    ensures a.Some? ==> a.value.Accept?
    decreases |run|
  {
    if run == [] then None
    else if !run[0].Accept? then NthAccept(run[1..], n)
    else if n == 0 then Some(run[0])
    else NthAccept(run[1..], n - 1)
  }

  /** What a run brings to a client. */
  function Input(run: seq<Action>, id: Id): seq<Byte>
    decreases |run|
  {
    if run == [] then [] else InputOf(run[0], id) + Input(run[1..], id)
  }

  function InputOf(a: Action, id: Id): seq<Byte> {
    if a.Read? && a.id == id then a.chunk else []
  }

  /** The step from `w` to `v` lets a client live, with its descriptor, and gives it its input. */
  ghost predicate Stays(w: World, v: World, a: Action, id: Id) {
    && (id in v.live <==> id in w.live && a != Delete(id))
    && (id in v.live ==>
          v.live[id].fd == w.live[id].fd && v.live[id].received == w.live[id].received + InputOf(a, id))
  }

  lemma AcceptStays(s: Setting, w: World, a: Action, id: Id)
    requires Inv(s, w) && Legal(w, a) && a.Accept? && !(a.outcome == Paired && id.pair == w.accepted)
    ensures Stays(w, Step(s, w, a), a, id)
  {
    if a.outcome == Paired {
      HalfRegisteredShape(w, a);
    } else {
      AcceptUnpaired(s, w, a);
    }
  }

  lemma ReadStays(s: Setting, w: World, v: World, i: Id, chunk: seq<Byte>, id: Id)
    requires i in w.live && HasRead(s, w, v, i, chunk)
    ensures Stays(w, v, Read(i, chunk), id)
  {
  }

  lemma DeleteStays(s: Setting, w: World, i: Id, id: Id)
    requires Inv(s, w) && i in w.live
    ensures Stays(w, Destroy(w, i), Delete(i), id)
  {
    DestroyShape(w, i);
  }

  lemma StepStays(s: Setting, w: World, a: Action, id: Id)
    requires Inv(s, w) && Legal(w, a) && !(a.Accept? && a.outcome == Paired && id.pair == w.accepted)
    ensures Stays(w, Step(s, w, a), a, id)
  {
    match a
    case Accept(_, _, _) => AcceptStays(s, w, a, id);
    case Read(i, chunk) =>
      ReadShape(s, w, i, chunk);
      ReadStays(s, w, ReadStep(s, w, i, chunk), i, chunk, id);
    case Delete(i) => DeleteStays(s, w, i, id);
    case Stop =>
  }

  /** A new client lives, with its descriptor, and has received nothing. */
  lemma StepCreates(s: Setting, w: World, a: Action, id: Id)
    requires Inv(s, w) && Legal(w, a) && a.Accept? && a.outcome == Paired && id.pair == w.accepted
    ensures var v := Step(s, w, a);
            && id !in w.live && id in v.live && v.live[id].received == []
            && v.live[id].fd == if id.inflow then a.inFd else a.outFd
  {
    HalfRegisteredShape(w, a);
  }

  lemma StepCounts(s: Setting, w: World, a: Action)
    requires Inv(s, w) && Legal(w, a)
    ensures Step(s, w, a).accepted == w.accepted + if a.Accept? then 1 else 0
  {
    match a
    case Accept(_, _, _) =>
      if a.outcome == Paired {
        HalfRegisteredShape(w, a);
      } else {
        AcceptUnpaired(s, w, a);
      }
    case Read(i, chunk) => ReadShape(s, w, i, chunk);
    case Delete(i) => DestroyShape(w, i);
    case Stop =>
  }

  /** A client is in `v` what it was in `w`, but for what a run has done to it. */
  ghost predicate StaysOver(w: World, v: World, run: seq<Action>, id: Id) {
    && (id in v.live <==> id in w.live && Delete(id) !in run)
    && (id in v.live ==>
          v.live[id].fd == w.live[id].fd && v.live[id].received == w.live[id].received + Input(run, id))
  }

  lemma StaysThen(w: World, v: World, u: World, run: seq<Action>, id: Id)
    requires run != [] && Stays(w, v, run[0], id) && StaysOver(v, u, run[1..], id)
    ensures StaysOver(w, u, run, id)
  {
    assert run == [run[0]] + run[1..];
    if id in u.live {
      var was, more, rest := w.live[id].received, InputOf(run[0], id), Input(run[1..], id);
      assert (was + more) + rest == was + (more + rest);
    }
  }

  /** A client that has been created lives until it is destroyed. */
  lemma {:induction false} LivesOn(s: Setting, w: World, run: seq<Action>, id: Id)
    requires Inv(s, w) && LegalRun(s, w, run) && id.pair < w.accepted
    ensures StaysOver(w, Run(s, w, run), run, id)
    decreases |run|
  {
    if run != [] {
      var v := Step(s, w, run[0]);
      assert Stays(w, v, run[0], id) by {
        StepStays(s, w, run[0], id);
      }
      assert StaysOver(v, Run(s, v, run[1..]), run[1..], id) by {
        StepKeepsInv(s, w, run[0]);
        StepCounts(s, w, run[0]);
        LivesOn(s, v, run[1..], id);
      }
      StaysThen(w, v, Run(s, v, run[1..]), run, id);
    }
  }

  /** What became of a client when an accept, the n-th from the world `w` on, was to create it. */
  lemma {:induction false} LivesFrom(s: Setting, w: World, run: seq<Action>, id: Id, n: nat)
    requires Inv(s, w) && LegalRun(s, w, run) && id.pair == w.accepted + n
    ensures var v, a := Run(s, w, run), NthAccept(run, n);
            && (id in v.live <==> a.Some? && a.value.outcome == Paired && Delete(id) !in run)
            && (id in v.live ==>
                  && v.live[id].fd == (if id.inflow then a.value.inFd else a.value.outFd)
                  && v.live[id].received == Input(run, id))
    decreases |run|
  {
    assert id !in w.live;
    if run != [] {
      var a, rest := run[0], run[1..];
      var v := Step(s, w, a);
      assert Inv(s, v) && v.accepted == w.accepted + (if a.Accept? then 1 else 0) by {
        StepKeepsInv(s, w, a);
        StepCounts(s, w, a);
      }
      assert run == [a] + rest && a != Delete(id) && InputOf(a, id) == [];
      assert Input(run, id) == Input(rest, id);
      if a.Accept? && n == 0 {
        if a.outcome == Paired {
          StepCreates(s, w, a, id);
        } else {
          StepStays(s, w, a, id);
        }
        LivesOn(s, v, rest, id);
      } else {
        LivesFrom(s, v, rest, id, if a.Accept? then n - 1 else n);
      }
    }
  }

  /** In every run: a client lives exactly if the accept of its pair was successful and nobody has destroyed it;
      its descriptor is the one this accept got for its side, and it has received the bytes of its read events,
      in order. */
  lemma LiveExactly(s: Setting, listener: nat, run: seq<Action>, id: Id)
    requires LegalRun(s, Initial(listener), run)
    ensures var w, a := Run(s, Initial(listener), run), NthAccept(run, id.pair);
            && (id in w.live <==> a.Some? && a.value.outcome == Paired && Delete(id) !in run)
            && (id in w.live ==>
                  && w.live[id].fd == (if id.inflow then a.value.inFd else a.value.outFd)
                  && w.live[id].received == Input(run, id))
  {
    InitialInv(s, listener);
    LivesFrom(s, Initial(listener), run, id, id.pair);
  }

  // ----- The destructor's message -----

  /** A client's loop has been told to break exactly if its partner is gone. */
  ghost predicate ToldWhenAlone(w: World) {
    forall id :: id in w.live ==> (w.live[id].broken <==> Mate(id) !in w.live)
  }

  lemma AcceptTold(s: Setting, w: World, a: Action)
    requires Inv(s, w) && Legal(w, a) && a.Accept? && ToldWhenAlone(w)
    ensures ToldWhenAlone(Step(s, w, a))
  {
    if a.outcome == Paired {
      HalfRegisteredShape(w, a);
      var v := Step(s, w, a);
      forall id | id in v.live
        ensures v.live[id].broken <==> Mate(id) !in v.live
      {
        assert Mate(Mate(id)) == id;
      }
    } else {
      AcceptUnpaired(s, w, a);
    }
  }

  lemma ToldBy(w: World, v: World, id: Id, i: Id)
    requires ToldWhenAlone(w) && id in w.live && v.live.Keys == w.live.Keys - {id} && i in v.live
    requires forall j :: j in v.live ==>
               v.live[j] == if j == Mate(id) then w.live[j].(fw := -1, broken := true) else w.live[j]
    ensures v.live[i].broken <==> Mate(i) !in v.live
  {
    assert Mate(Mate(i)) == i;
    assert w.live[i].broken <==> Mate(i) !in w.live;
  }

  lemma DestroyTold(s: Setting, w: World, id: Id)
    requires Inv(s, w) && id in w.live && ToldWhenAlone(w)
    ensures ToldWhenAlone(Destroy(w, id))
  {
    var v := Destroy(w, id);
    DestroyShape(w, id);
    forall i | i in v.live
      ensures v.live[i].broken <==> Mate(i) !in v.live
    {
      ToldBy(w, v, id, i);
    }
  }

  lemma ReadTold(s: Setting, w: World, v: World, id: Id, chunk: seq<Byte>)
    requires id in w.live && HasRead(s, w, v, id, chunk) && ToldWhenAlone(w)
    ensures ToldWhenAlone(v)
  {
    forall i | i in v.live
      ensures v.live[i].broken == w.live[i].broken
    {
    }
  }

  lemma StepTold(s: Setting, w: World, a: Action)
    requires Inv(s, w) && Legal(w, a) && ToldWhenAlone(w)
    ensures ToldWhenAlone(Step(s, w, a))
  {
    match a
    case Accept(_, _, _) => AcceptTold(s, w, a);
    case Read(id, chunk) =>
      ReadShape(s, w, id, chunk);
      ReadTold(s, w, ReadStep(s, w, id, chunk), id, chunk);
    case Delete(id) => DestroyTold(s, w, id);
    case Stop =>
  }

  lemma {:induction false} RunTold(s: Setting, w: World, run: seq<Action>)
    requires Inv(s, w) && LegalRun(s, w, run) && ToldWhenAlone(w)
    ensures ToldWhenAlone(Run(s, w, run))
    decreases |run|
  {
    if run != [] {
      StepTold(s, w, run[0]);
      StepKeepsInv(s, w, run[0]);
      RunTold(s, Step(s, w, run[0]), run[1..]);
    }
  }

  /** In every run, a client that lives has been told to break its loop exactly if its partner is gone. */
  lemma LonersAreTold(s: Setting, listener: nat, run: seq<Action>, id: Id)
    requires LegalRun(s, Initial(listener), run) && id in Run(s, Initial(listener), run).live
    ensures var w := Run(s, Initial(listener), run);
            w.live[id].broken <==> Mate(id) !in w.live
  {
    InitialInv(s, listener);
    RunTold(s, Initial(listener), run);
  }

  // ----- The end of the process -----

  /** Where the process has ended, the client in whose callback it did has a partner. */
  ghost predicate CrashedMated(w: World) {
    forall id :: id in w.live && w.live[id].conn.fate == Crashed ==> Mate(id) in w.live
  }

  /** Accepts and destructors do not end the process. */
  lemma AcceptAlive(s: Setting, w: World, a: Action)
    requires Inv(s, w) && Legal(w, a) && a.Accept?
    ensures Alive(Step(s, w, a))
  {
    if a.outcome == Paired {
      HalfRegisteredShape(w, a);
    } else {
      AcceptUnpaired(s, w, a);
    }
  }

  lemma DestroyAlive(s: Setting, w: World, id: Id)
    requires Inv(s, w) && Alive(w) && id in w.live
    ensures Alive(Destroy(w, id))
  {
    DestroyShape(w, id);
  }

  lemma ReadMated(s: Setting, w: World, v: World, id: Id, chunk: seq<Byte>)
    requires Alive(w) && id in w.live && HasRead(s, w, v, id, chunk)
    ensures CrashedMated(v)
  {
    forall i | i in v.live && v.live[i].conn.fate == Crashed
      ensures Mate(i) in v.live
    {
      assert w.live[i].conn.fate != Crashed;
    }
  }

  lemma StepMated(s: Setting, w: World, a: Action)
    requires Inv(s, w) && Legal(w, a)
    ensures CrashedMated(Step(s, w, a))
  {
    match a
    case Accept(_, _, _) => AcceptAlive(s, w, a);
    case Read(id, chunk) =>
      ReadShape(s, w, id, chunk);
      ReadMated(s, w, ReadStep(s, w, id, chunk), id, chunk);
    case Delete(id) => DestroyAlive(s, w, id);
    case Stop =>
  }

  lemma {:induction false} RunMated(s: Setting, w: World, run: seq<Action>)
    requires Inv(s, w) && LegalRun(s, w, run) && CrashedMated(w)
    ensures CrashedMated(Run(s, w, run))
    decreases |run|
  {
    if run != [] {
      StepMated(s, w, run[0]);
      StepKeepsInv(s, w, run[0]);
      RunMated(s, Step(s, w, run[0]), run[1..]);
    }
  }

  /** Among the messages of a client whose partner lives is a fatal one that nothing in front of it keeps from
      being treated. */
  ghost predicate Struck(s: Setting, w: World, id: Id)
    requires id in w.live
  {
    var frames := Split(w.live[id].received).frames;
    Mate(id) in w.live && exists i :: 0 <= i < |frames| && Reaches(s.tables, s.env(id), frames, i)
  }

  lemma StruckCrashes(s: Setting, w: World, id: Id)
    requires Inv(s, w) && id in w.live && Mate(id) in w.live
    ensures w.live[id].conn.fate == Crashed <==> Struck(s, w, id)
  {
    var received := w.live[id].received;
    assert Exact(s, w, id);
    FlattenOne(received);
    Survival(s.tables, s.env(id), [received], Split(received).frames);
    FeedOne(s.tables, s.env(id), START, received);
  }

  /** A run leaves the process alive exactly if no client with a living partner has received a fatal message
      that was treated. */
  lemma AliveExactly(s: Setting, listener: nat, run: seq<Action>)
    requires LegalRun(s, Initial(listener), run)
    ensures var w := Run(s, Initial(listener), run);
            Alive(w) <==> forall id :: id in w.live ==> !Struck(s, w, id)
  {
    InitialInv(s, listener);
    RunKeepsInv(s, Initial(listener), run);
    RunMated(s, Initial(listener), run);
    var w := Run(s, Initial(listener), run);
    forall id | id in w.live
      ensures w.live[id].conn.fate == Crashed <==> Struck(s, w, id)
    {
      if Mate(id) in w.live {
        StruckCrashes(s, w, id);
      }
    }
  }

  // ----- Buffers -----

  ghost predicate BuffersBounded(w: World, b: nat) {
    forall id :: id in w.live ==> Bounded(w.live[id].conn, b)
  }

  predicate SmallReads(run: seq<Action>, b: nat) {
    forall i :: 0 <= i < |run| && run[i].Read? ==> |run[i].chunk| <= b
  }

  lemma OrphanBounded(c: Conn, chunk: seq<Byte>, b: nat)
    requires Bounded(c, b) && |chunk| <= b
    ensures Bounded(Orphan(c, chunk), b)
  {
  }

  lemma ReadBounded(s: Setting, w: World, id: Id, chunk: seq<Byte>, b: nat)
    requires Inv(s, w) && BuffersBounded(w, b) && id in w.live && |chunk| <= b
    ensures BuffersBounded(ReadStep(s, w, id, chunk), b)
  {
    ReadShape(s, w, id, chunk);
    OrphanBounded(w.live[id].conn, chunk, b);
    if Mate(id) in w.live {
      FeedBounded(s.tables, s.env(id), Flow(w.live[id].conn, w.live[Mate(id)].outlet), chunk, b);
    }
  }

  lemma StepBounded(s: Setting, w: World, a: Action, b: nat)
    requires Inv(s, w) && Legal(w, a) && BuffersBounded(w, b) && (a.Read? ==> |a.chunk| <= b)
    ensures BuffersBounded(Step(s, w, a), b)
  {
    match a
    case Accept(_, _, outcome) =>
      if outcome == Paired {
        HalfRegisteredShape(w, a);
      } else {
        AcceptUnpaired(s, w, a);
      }
    case Read(id, chunk) => ReadBounded(s, w, id, chunk, b);
    case Delete(id) => DestroyShape(w, id);
    case Stop =>
  }

  /** The capacity bound over whole runs: when no event brings more than `b` bytes, no receive buffer
      of any client overflows its block or grows beyond the larger of 512 and 65533 + 2b bytes, with
      or without a partner. */
  lemma {:induction false} RunBounded(s: Setting, w: World, run: seq<Action>, b: nat)
    requires Inv(s, w) && LegalRun(s, w, run) && BuffersBounded(w, b) && SmallReads(run, b)
    ensures BuffersBounded(Run(s, w, run), b)
    decreases |run|
  {
    if run != [] {
      StepBounded(s, w, run[0], b);
      StepKeepsInv(s, w, run[0]);
      assert forall i :: 0 <= i < |run[1..]| ==> run[1..][i] == run[i + 1];
      RunBounded(s, Step(s, w, run[0]), run[1..], b);
    }
  }
}
