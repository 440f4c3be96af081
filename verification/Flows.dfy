/**
  One direction of a proxied connection, fed by read events: the effect of `on_flow_read`
  (mproxy/src/proxy.cpp) on the receive buffer and on the partner's output, and what it adds up to
  over all events of a connection.
 */
module Flows {
  import opened Bytes
  import opened Frames
  import opened Tables
  import opened Relay
  import opened Streams

  /** The receiving side: unconsumed bytes, capacity of the buffer that holds them, answers used up,
      and whether the connection goes on. */
  datatype Conn = Conn(live: seq<Byte>, cap: nat, draws: nat, sends: nat, fate: Fate)

  datatype Flow = Flow(conn: Conn, outlet: Outlet)

  const START := Flow(Conn([], DEFAULT_STREAM_LEN, 0, 0, Running), Outlet([], []))

  /** Capacity after room has been made for `size` more bytes. */
  function Grown(cap: nat, len: nat, size: nat): nat {
    if cap - len < size then cap + size else cap
  }

  function Receive(c: Conn, chunk: seq<Byte>): Conn {
    c.(live := c.live + chunk, cap := Grown(c.cap, |c.live|, |chunk|))
  }

  function ProgressOf(f: Flow): Progress {
    Progress(f.conn.draws, f.conn.sends, f.outlet, f.conn.fate)
  }

  function Advance(f: Flow, p: Progress): Flow {
    Flow(f.conn.(draws := p.draws, sends := p.sends, fate := p.fate), p.outlet)
  }

  /** A read event while the partner is there: the messages now complete are relayed, and the
      left-over bytes stay in the buffer. When the connection ends, the buffer is not shifted. */
  function Feed(t: Tables, e: Env, f: Flow, chunk: seq<Byte>): Flow {
    if f.conn.fate != Running then f
    else
      var g := f.(conn := Receive(f.conn, chunk));
      var parse := Split(g.conn.live);
      var h := Advance(g, RelayAll(t, e, parse.frames, ProgressOf(g)));
      if h.conn.fate != Running then h
      else if parse.malformed then h.(conn := h.conn.(fate := Halted))
      else h.(conn := h.conn.(live := parse.rest))
  }

  /** A read event after the partner has gone: the connection halts as soon as there is a header. */
  function Orphan(c: Conn, chunk: seq<Byte>): Conn {
    if c.fate != Running then c
    else
      var d := Receive(c, chunk);
      if |d.live| >= OFP_HEADER_BYTES then d.(fate := Halted) else d
  }

  function FeedAll(t: Tables, e: Env, f: Flow, chunks: seq<seq<Byte>>): Flow
    decreases |chunks|
  {
    if chunks == [] then f else FeedAll(t, e, Feed(t, e, f, chunks[0]), chunks[1..])
  }

  lemma FeedOne(t: Tables, e: Env, f: Flow, chunk: seq<Byte>)
    ensures FeedAll(t, e, f, [chunk]) == Feed(t, e, f, chunk)
  {
  }

  /** Nothing in the buffer can be consumed without further input. */
  predicate Settled(f: Flow) {
    f.conn.fate != Running || Split(f.conn.live) == Parse([], f.conn.live, false)
  }

  /** Two flows nobody outside can tell apart. (A connection that has ended is not read from any more, so
      its buffer does not matter, and neither does the size of the allocated block.) */
  predicate Same(f: Flow, g: Flow) {
    && f.outlet == g.outlet
    && f.conn.draws == g.conn.draws && f.conn.sends == g.conn.sends
    && f.conn.fate == g.conn.fate
    && (f.conn.fate == Running ==> f.conn.live == g.conn.live)
  }

  lemma FeedSettles(t: Tables, e: Env, f: Flow, chunk: seq<Byte>)
    ensures Settled(Feed(t, e, f, chunk))
  {
    SplitExhausts(f.conn.live + chunk);
  }

  lemma FeedSame(t: Tables, e: Env, f: Flow, g: Flow, chunk: seq<Byte>)
    requires Same(f, g)
    ensures Same(Feed(t, e, f, chunk), Feed(t, e, g, chunk))
  {
  }

  /** Two read events are as good as one that brings the bytes of both. */
  lemma FeedTwice(t: Tables, e: Env, f: Flow, a: seq<Byte>, b: seq<Byte>)
    ensures Same(Feed(t, e, Feed(t, e, f, a), b), Feed(t, e, f, a + b))
  {
    if f.conn.fate == Running {
      var s := f.conn.live + a;
      assert f.conn.live + (a + b) == s + b;
      SplitAppend(s, b);
      var p := ProgressOf(f);
      var first := Split(s).frames;
      if !Split(s).malformed {
        RelayAppend(t, e, first, Split(Split(s).rest + b).frames, p);
        RelayStopped(t, e, Split(Split(s).rest + b).frames, RelayAll(t, e, first, p));
      } else {
        assert first + [] == first;
      }
    }
  }

  /** The way a byte stream is cut into read events does not matter: any chunking of it does what
      its delivery in one piece does. */
  lemma {:induction false} ChunkingInvariance(t: Tables, e: Env, f: Flow, chunks: seq<seq<Byte>>)
    requires Settled(f)
    ensures Same(FeedAll(t, e, f, chunks), Feed(t, e, f, Flatten(chunks)))
    decreases |chunks|
  {
    if chunks == [] {
      assert f.conn.live + [] == f.conn.live;
    } else {
      var g := Feed(t, e, f, chunks[0]);
      FeedSettles(t, e, f, chunks[0]);
      ChunkingInvariance(t, e, g, chunks[1..]);
      FeedTwice(t, e, f, chunks[0], Flatten(chunks[1..]));
    }
  }

  /** A flow has got so far, and then met the end `parse` of its stream. */
  predicate Ended(f: Flow, p: Progress, parse: Parse) {
    && f.outlet == p.outlet && f.conn.draws == p.draws && f.conn.sends == p.sends
    && f.conn.fate == (if p.fate == Running && parse.malformed then Halted else p.fate)
    && (f.conn.fate == Running ==> f.conn.live == parse.rest)
  }

  /** The buffer machine computes the one-shot function: after any events a connection has relayed the
      messages in the stream, up to the first that cannot be sent or ends the process. It has halted if
      one could not be sent or the next header declares length zero, and while it runs, its buffer holds
      what follows the last message. */
  lemma OneShot(t: Tables, e: Env, chunks: seq<seq<Byte>>)
    ensures var parse := Split(Flatten(chunks));
            Ended(FeedAll(t, e, START, chunks), RelayAll(t, e, parse.frames, NOTHING), parse)
  {
    ChunkingInvariance(t, e, START, chunks);
    var s := Flatten(chunks);
    assert [] + s == s;
  }

  /** So its output and its fate are those of the account of these messages, whatever the environment
      answers. */
  lemma Refinement(t: Tables, e: Env, chunks: seq<seq<Byte>>)
    ensures var parse := Split(Flatten(chunks));
            Ended(FeedAll(t, e, START, chunks), Account(t, e, parse.frames), parse)
  {
    OneShot(t, e, chunks);
    RelayEmits(t, e, Split(Flatten(chunks)).frames);
  }

  /** Well-formed messages, concatenated and cut anywhere, are accounted for one by one and in order. Unless
      one of them stops the connection, the buffer is empty afterwards. */
  lemma FramingRoundTrip(t: Tables, e: Env, messages: seq<seq<Byte>>, chunks: seq<seq<Byte>>)
    requires forall i :: 0 <= i < |messages| ==> WellFormed(messages[i])
    requires Flatten(chunks) == Flatten(messages)
    ensures Ended(FeedAll(t, e, START, chunks), Account(t, e, FramesOf(messages)), Parse([], [], false))
  {
    SplitFlatten(messages);
    Refinement(t, e, chunks);
  }

  /** Every byte received is accounted for: it belongs to a message that was relayed or to the
      buffer. */
  lemma Conservation(t: Tables, e: Env, chunks: seq<seq<Byte>>)
    ensures var f := FeedAll(t, e, START, chunks);
            f.conn.fate == Running ==> Bodies(Split(Flatten(chunks)).frames) + f.conn.live == Flatten(chunks)
  {
    OneShot(t, e, chunks);
    SplitConserves(Flatten(chunks));
  }

  /** Without rules, the output is the part of the stream that consists of whole messages, and the process
      goes on, exactly if all these messages have a proper header and are accepted by LOCI. */
  lemma Transparency(t: Tables, e: Env, chunks: seq<seq<Byte>>, frames: seq<Frame>)
    requires AlwaysUp(e) && Empty(t) && frames == Split(Flatten(chunks)).frames
    ensures var f := FeedAll(t, e, START, chunks);
            && (AllClean(e, frames) <==> f.conn.fate != Crashed && f.outlet.sent == Bodies(frames))
            && Bodies(frames) <= Flatten(chunks)
  {
    OneShot(t, e, chunks);
    SplitConserves(Flatten(chunks));
    SplitBodies(Flatten(chunks));
    RelayTransparent(t, e, frames, NOTHING);
    RelayNeverHalts(t, e, frames, NOTHING);
    assert [] + Bodies(frames) == Bodies(frames);
  }

  // ----- A proxy without rules, in plain numbers -----

  /** The tables hold no rule. */
  ghost predicate NoRules(t: Tables) {
    forall v, k :: 1 <= v <= 5 && 0 <= k <= 34 ==> t.drop[v][k] == 0 && t.dup[v][k] == 0
  }

  /** A message of at least eight bytes whose bytes 2 and 3 hold its length. */
  predicate Measured(m: seq<Byte>) {
    |m| >= 8 && 0x100 * (m[2] as int) + m[3] as int == |m|
  }

  /** What such a proxy makes of some messages: those of an unknown version or type are swallowed; one of
      version 0, or one that LOCI's validator of its class refuses, ends the process; all others pass. */
  datatype Passage = Passage(bytes: seq<Byte>, dead: bool)

  function PassageOf(e: Env, messages: seq<seq<Byte>>): Passage
    requires forall i :: 0 <= i < |messages| ==> Measured(messages[i])
  {
    if messages == [] then Passage([], false)
    else
      var m := messages[0];
      assert Measured(m);
      if m[0] > 5 || m[1] > 34 then PassageOf(e, messages[1..])
      else if m[0] == 0 || !e.valid(m) then Passage([], true)
      else
        var rest := PassageOf(e, messages[1..]);
        rest.(bytes := m + rest.bytes)
  }

  lemma MeasuredClean(e: Env, m: seq<Byte>)
    requires Measured(m)
    ensures WellFormed(m)
    ensures ValidHeader(m[0], m[1]) <==> m[0] <= 5 && m[1] <= 34
    ensures Clean(e, FrameOf(m)) <==> 1 <= m[0] <= 5 && m[1] <= 34 && e.valid(m)
  {
  }

  lemma {:induction false} RelayPasses(t: Tables, e: Env, messages: seq<seq<Byte>>, p: Progress)
    requires NoRules(t) && AlwaysUp(e) && p.fate == Running && p.outlet.staged == []
    requires forall i :: 0 <= i < |messages| ==> Measured(messages[i]) && WellFormed(messages[i])
    ensures var q, x := RelayAll(t, e, FramesOf(messages), p), PassageOf(e, messages);
            && q.outlet == Outlet([], p.outlet.sent + x.bytes) && q.draws == p.draws
            && q.fate == if x.dead then Crashed else Running
    decreases |messages|
  {
    if messages != [] {
      var m, frames := messages[0], FramesOf(messages);
      var q := RelayOne(t, e, frames[0], p);
      assert frames[1..] == FramesOf(messages[1..]);
      MeasuredClean(e, m);
      RelayOneUnruled(t, e, frames[0], p);
      if q.fate == Running {
        RelayPasses(t, e, messages[1..], q);
        var sent, rest := p.outlet.sent, PassageOf(e, messages[1..]).bytes;
        assert (sent + m) + rest == sent + (m + rest);
      } else {
        RelayStopped(t, e, frames[1..], q);
      }
    }
  }

  /** A proxy without rules does exactly this, however the messages are cut into read events. */
  lemma UnruledProxy(t: Tables, e: Env, messages: seq<seq<Byte>>, chunks: seq<seq<Byte>>)
    requires NoRules(t) && AlwaysUp(e) && Flatten(chunks) == Flatten(messages)
    requires forall i :: 0 <= i < |messages| ==> Measured(messages[i])
    ensures var f, x := FeedAll(t, e, START, chunks), PassageOf(e, messages);
            && f.outlet == Outlet([], x.bytes) && f.conn.draws == 0
            && f.conn.fate == (if x.dead then Crashed else Running) && (!x.dead ==> f.conn.live == [])
  {
    forall i | 0 <= i < |messages|
      ensures WellFormed(messages[i])
    {
      MeasuredClean(e, messages[i]);
    }
    SplitFlatten(messages);
    OneShot(t, e, chunks);
    RelayPasses(t, e, messages, NOTHING);
    assert [] + PassageOf(e, messages).bytes == PassageOf(e, messages).bytes;
  }

  /** In particular, messages of the versions 1.0 to 1.4 and of known types that pass the validators are
      forwarded unchanged, and the connection goes on. */
  lemma {:induction false} ValidPass(e: Env, messages: seq<seq<Byte>>)
    requires forall i :: 0 <= i < |messages| ==>
               Measured(messages[i]) && 1 <= messages[i][0] <= 5 && messages[i][1] <= 34 && e.valid(messages[i])
    ensures PassageOf(e, messages) == Passage(Flatten(messages), false)
    decreases |messages|
  {
    if messages != [] {
      ValidPass(e, messages[1..]);
    }
  }

  lemma ValidMessagesPass(t: Tables, e: Env, messages: seq<seq<Byte>>, chunks: seq<seq<Byte>>)
    requires NoRules(t) && AlwaysUp(e) && Flatten(chunks) == Flatten(messages)
    requires forall i :: 0 <= i < |messages| ==>
               Measured(messages[i]) && 1 <= messages[i][0] <= 5 && messages[i][1] <= 34 && e.valid(messages[i])
    ensures var f := FeedAll(t, e, START, chunks);
            f.outlet == Outlet([], Flatten(messages)) && f.conn.fate == Running && f.conn.live == []
  {
    ValidPass(e, messages);
    UnruledProxy(t, e, messages, chunks);
  }

  lemma {:induction false} PassageUpTo(e: Env, good: seq<seq<Byte>>, bad: seq<Byte>, more: seq<seq<Byte>>)
    requires forall i :: 0 <= i < |good| ==>
               Measured(good[i]) && 1 <= good[i][0] <= 5 && good[i][1] <= 34 && e.valid(good[i])
    requires Measured(bad) && 1 <= bad[0] <= 5 && bad[1] <= 34 && !e.valid(bad)
    requires forall i :: 0 <= i < |more| ==> Measured(more[i])
    ensures PassageOf(e, good + [bad] + more) == Passage(Flatten(good), true)
    decreases |good|
  {
    var all := good + [bad] + more;
    if good == [] {
      assert all[0] == bad;
    } else {
      assert all[1..] == good[1..] + [bad] + more;
      PassageUpTo(e, good[1..], bad, more);
    }
  }

  /** And one that the validator of its class refuses ends the process, whatever follows. */
  lemma RefusedMessageCrashes(t: Tables, e: Env, good: seq<seq<Byte>>, bad: seq<Byte>, more: seq<seq<Byte>>,
                              chunks: seq<seq<Byte>>)
    requires NoRules(t) && AlwaysUp(e) && Flatten(chunks) == Flatten(good + [bad] + more)
    requires forall i :: 0 <= i < |good| ==>
               Measured(good[i]) && 1 <= good[i][0] <= 5 && good[i][1] <= 34 && e.valid(good[i])
    requires Measured(bad) && 1 <= bad[0] <= 5 && bad[1] <= 34 && !e.valid(bad)
    requires forall i :: 0 <= i < |more| ==> Measured(more[i])
    ensures var f := FeedAll(t, e, START, chunks);
            f.outlet == Outlet([], Flatten(good)) && f.conn.fate == Crashed
  {
    PassageUpTo(e, good, bad, more);
    UnruledProxy(t, e, good + [bad] + more, chunks);
  }

  /** A stream without a whole message waits in the buffer; one that starts with a header of length zero halts
      the connection. */
  lemma NothingToTreat(t: Tables, e: Env, s: seq<Byte>)
    requires |s| < 8 || 0x100 * (s[2] as int) + s[3] as int > |s| || (s[2] == 0 && s[3] == 0)
    ensures var c := FeedAll(t, e, START, [s]).conn;
            && c.fate == (if |s| >= 8 && s[2] == 0 && s[3] == 0 then Halted else Running)
            && (c.fate == Running ==> c.live == s) && c.draws == 0 && c.sends == 0
    ensures FeedAll(t, e, START, [s]).outlet == Outlet([], [])
  {
    FeedOne(t, e, START, s);
    assert [] + s == s;
  }

  lemma AppliedStuck(link: Link, m: seq<Byte>)
    requires link != Up
    ensures var p := Applied(NOTHING, 0, Sent(0), link, m);
            p.fate == Halted && p.outlet == Outlet(if link == Broken then m else [], [])
  {
    RepeatOnce(m);
    assert [] + m == m;
  }

  lemma RelayStuck(t: Tables, e: Env, f: Frame)
    requires NoRules(t) && Clean(e, f) && e.link(0) != Up
    ensures RelayAll(t, e, [f], NOTHING) == Applied(NOTHING, 0, Sent(0), e.link(0), f.body)
  {
    assert Judge(t, e, f, e.rnd(0)) == Sent(0) && !Draws(t, f) by {
      JudgeUnruled(t, e, f, e.rnd(0));
    }
    assert RelayAll(t, e, [f], NOTHING) == RelayOne(t, e, f, NOTHING) by {
      RelaySingle(t, e, f, NOTHING);
    }
  }

  /** A message that is to be sent to a closed descriptor is lost; if the write fails, it stays in `ev_buf`. Both
      halt the connection. */
  lemma SocketFails(t: Tables, e: Env, m: seq<Byte>)
    requires NoRules(t) && Measured(m) && 1 <= m[0] <= 5 && m[1] <= 34 && e.valid(m) && e.link(0) != Up
    ensures var f := FeedAll(t, e, START, [m]);
            f.conn.fate == Halted && f.outlet == Outlet(if e.link(0) == Broken then m else [], [])
  {
    MeasuredClean(e, m);
    RelayStuck(t, e, FrameOf(m));
    AppliedStuck(e.link(0), m);
    assert Split(Flatten([m])) == Parse([FrameOf(m)], [], false) by {
      SplitFlatten([m]);
    }
    OneShot(t, e, [m]);
  }

  // ----- The end of the process -----

  /** A stream ends the process exactly if it has a fatal message that nothing in front of it keeps from
      being treated. */
  lemma Survival(t: Tables, e: Env, chunks: seq<seq<Byte>>, frames: seq<Frame>)
    requires frames == Split(Flatten(chunks)).frames
    ensures FeedAll(t, e, START, chunks).conn.fate == Crashed <==>
            exists i :: 0 <= i < |frames| && Reaches(t, e, frames, i)
  {
    OneShot(t, e, chunks);
    Crashes(t, e, frames);
  }

  /** A stream is survived with any random numbers exactly if each of its messages is harmless: discarded
      for its header, always dropped, copied by a DUP rule, or accepted by LOCI. */
  lemma SafeStreams(t: Tables, e: Env, chunks: seq<seq<Byte>>, frames: seq<Frame>)
    requires AlwaysUp(e) && frames == Split(Flatten(chunks)).frames
    ensures (forall i :: 0 <= i < |frames| ==> Harmless(t, e, frames[i])) <==>
            forall rnd: nat -> nat :: FeedAll(t, e.(rnd := rnd), START, chunks).conn.fate != Crashed
  {
    SurvivedAlways(t, e, frames);
    forall rnd: nat -> nat
      ensures FeedAll(t, e.(rnd := rnd), START, chunks).conn.fate == Crashed <==>
              RelayAll(t, e.(rnd := rnd), frames, NOTHING).fate == Crashed
    {
      OneShot(t, e.(rnd := rnd), chunks);
    }
  }

  lemma FirstFatal(t: Tables, e: Env, s: seq<Byte>)
    requires Framed(s) && Judge(t, e, FirstFrame(s), e.rnd(0)) == Fatal
    ensures FeedAll(t, e, START, [s]).conn.fate == Crashed
  {
    FlattenOne(s);
    var frames := Split(s).frames;
    assert frames[0] == FirstFrame(s) && frames[..0] == [];
    assert Reaches(t, e, frames, 0);
    Survival(t, e, [s], frames);
  }

  /** A header of a known version and type that declares less than eight bytes ends the process of a proxy
      without rules, whatever the validators say. */
  lemma ShortMessageCrashes(t: Tables, e: Env, s: seq<Byte>)
    requires NoRules(t) && |s| >= 8 && 1 <= s[0] <= 5 && s[1] <= 34 && s[2] == 0 && 1 <= s[3] <= 7
    ensures FeedAll(t, e, START, [s]).conn.fate == Crashed
  {
    JudgeUnruled(t, e, FirstFrame(s), e.rnd(0));
    FirstFatal(t, e, s);
  }

  /** For example, a Hello of 1.0 that declares four bytes. */
  lemma FourBytesCrash(e: Env)
    ensures FeedAll(BLANK, e, START, [[1, 0, 0, 4, 0, 0, 0, 0]]).conn.fate == Crashed
  {
    ShortMessageCrashes(BLANK, e, [1, 0, 0, 4, 0, 0, 0, 0]);
  }

  /** A message of version 0 and a known type ends the process whatever the rules. */
  lemma VersionZeroCrashes(t: Tables, e: Env, s: seq<Byte>)
    requires |s| >= 8 && s[0] == 0 && s[1] <= 34 && 0 < 0x100 * (s[2] as int) + s[3] as int <= |s|
    ensures FeedAll(t, e, START, [s]).conn.fate == Crashed
  {
    FirstFatal(t, e, s);
  }

  /** For example, a Hello. */
  lemma ZeroHelloCrashes(t: Tables, e: Env)
    ensures FeedAll(t, e, START, [[0, 0, 0, 8, 0, 0, 0, 0]]).conn.fate == Crashed
  {
    VersionZeroCrashes(t, e, [0, 0, 0, 8, 0, 0, 0, 0]);
  }

  /** A message of a version above 1.4 or a type above 34 is swallowed, whatever the rules. */
  lemma UnknownHeaderSwallowed(t: Tables, e: Env, f: Flow, m: seq<Byte>)
    requires Measured(m) && (m[0] > 5 || m[1] > 34) && f.conn.fate == Running && f.conn.live == []
    ensures Same(Feed(t, e, f, m), f)
  {
    assert [] + m == m;
    RelaySingle(t, e, FrameOf(m), ProgressOf(f));
    assert Split(m) == Parse([FrameOf(m)], [], false) by {
      FlattenOne(m);
      SplitFlatten([m]);
    }
  }

  /** A PacketIn of 1.0 without a body, which LOCI's validator of that class refuses, ends the process when there
      are no rules. */
  lemma EmptyPacketInCrashes(e: Env)
    requires !e.valid([1, 10, 0, 8, 0, 0, 0, 0])
    ensures FeedAll(BLANK, e, START, [[1, 10, 0, 8, 0, 0, 0, 0]]).conn.fate == Crashed
  {
    var s: seq<Byte> := [1, 10, 0, 8, 0, 0, 0, 0];
    assert FirstFrame(s).body == s;
    FirstFatal(BLANK, e, s);
  }

  /** More input never changes what has already been sent. */
  lemma FeedGrows(t: Tables, e: Env, f: Flow, a: seq<Byte>, b: seq<Byte>)
    ensures f.outlet.sent <= Feed(t, e, f, a).outlet.sent <= Feed(t, e, f, a + b).outlet.sent
  {
    RelayGrows(t, e, Split(f.conn.live + a).frames, ProgressOf(f));
    FeedTwice(t, e, f, a, b);
    var g := Feed(t, e, f, a);
    RelayGrows(t, e, Split(g.conn.live + b).frames, ProgressOf(g));
  }

  // ----- A client without a partner -----

  function OrphanAll(c: Conn, chunks: seq<seq<Byte>>): Conn
    decreases |chunks|
  {
    if chunks == [] then c else OrphanAll(Orphan(c, chunks[0]), chunks[1..])
  }

  lemma OrphanStays(c: Conn, chunks: seq<seq<Byte>>)
    requires c.fate != Running
    ensures OrphanAll(c, chunks) == c
    decreases |chunks|
  {
    if chunks != [] {
      OrphanStays(c, chunks[1..]);
    }
  }

  /** A client without a partner collects what it receives, and halts exactly when eight bytes have come
      together. It never ends the process, and asks for nothing. */
  lemma {:induction false} OrphanHalts(c: Conn, chunks: seq<seq<Byte>>)
    requires c.fate == Running && |c.live| < 8
    ensures var d := OrphanAll(c, chunks);
            && (d.fate == Halted <==> |c.live| + |Flatten(chunks)| >= 8) && d.fate != Crashed
            && (d.fate == Running ==> d.live == c.live + Flatten(chunks))
            && d.draws == c.draws && d.sends == c.sends
    decreases |chunks|
  {
    if chunks == [] {
      assert c.live + [] == c.live;
    } else {
      var d := Orphan(c, chunks[0]);
      assert c.live + (chunks[0] + Flatten(chunks[1..])) == (c.live + chunks[0]) + Flatten(chunks[1..]);
      if d.fate == Running {
        OrphanHalts(d, chunks[1..]);
      } else {
        OrphanStays(d, chunks[1..]);
      }
    }
  }

  // ----- Capacity of the receive buffer -----

  function Max(a: int, b: int): int {
    if a >= b then a else b
  }

  /** The buffer is within its block, and the block within the bound for events of `b` bytes. */
  predicate Bounded(c: Conn, b: nat) {
    && |c.live| <= c.cap <= Max(512, 0xFFFD + 2 * b)
    && (c.fate == Running ==> |c.live| <= 0xFFFE)
  }

  lemma FeedBounded(t: Tables, e: Env, f: Flow, chunk: seq<Byte>, b: nat)
    requires Bounded(f.conn, b) && |chunk| <= b
    ensures Bounded(Feed(t, e, f, chunk).conn, b)
  {
    var s := f.conn.live + chunk;
    SplitExhausts(s);
    SplitConserves(s);
  }

  /** When no event brings more than `b` bytes, the receive buffer never overflows its block, and
      the block never grows beyond the larger of 512 and 65533 + 2b bytes. */
  lemma {:induction false} CapacityBound(t: Tables, e: Env, f: Flow, chunks: seq<seq<Byte>>, b: nat)
    requires Bounded(f.conn, b)
    requires forall i :: 0 <= i < |chunks| ==> |chunks[i]| <= b
    ensures Bounded(FeedAll(t, e, f, chunks).conn, b)
    decreases |chunks|
  {
    if chunks != [] {
      FeedBounded(t, e, f, chunks[0], b);
      CapacityBound(t, e, Feed(t, e, f, chunks[0]), chunks[1..], b);
    }
  }
}
