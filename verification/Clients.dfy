/**
  The connections of the proxy: the `Client` structure (mproxy/src/client.cpp), the decision on one
  message (mproxy/src/action.c) and the read callback (mproxy/src/proxy.cpp).
 */
module Clients {
  import opened ActionTables
  import opened Bytes
  import opened Flows
  import opened Frames
  import opened Pairing
  import opened Relay
  import opened Streams
  import opened Tables

  /** The source of everything a connection cannot know beforehand: what `rand` returns, how `is_valid_fd`
      and `bufferevent_write_buffer` answer, and what LOCI's validators of message classes say. */
  class Oracle {
    const env: Env
    var draws: nat
    var sends: nat

    constructor (env: Env)
      ensures this.env == env && draws == 0 && sends == 0
    {
      this.env := env;
      draws, sends := 0, 0;
    }

    method Rand() returns (rnd: nat)
      modifies this`draws
      ensures rnd == env.rnd(old(draws)) && draws == old(draws) + 1
    {
      rnd := env.rnd(draws);
      draws := draws + 1;
    }

    method AskLink() returns (link: Link)
      modifies this`sends
      ensures link == env.link(old(sends)) && sends == old(sends) + 1
    {
      link := env.link(sends);
      sends := sends + 1;
    }
  }

  /** The message at `offset` of the receive buffer. */
  function FrameAt(data: seq<Byte>, offset: nat, len: nat): Frame
    requires offset + OFP_HEADER_BYTES <= |data| && offset + len <= |data|
  {
    Frame(data[offset], data[offset + 1], data[offset..offset + len])
  }

  /** A LOCI object, as far as it is used here: it is bound to the buffer of the message. */
  class WireBuffer {
    const buf: array<Byte>
    const offset: nat
    const currentBytes: nat

    constructor (buf: array<Byte>, offset: nat, currentBytes: nat)
      ensures this.buf == buf && this.offset == offset && this.currentBytes == currentBytes
    {
      this.buf, this.offset, this.currentBytes := buf, offset, currentBytes;
    }
  }

  /** `of_object_new_from_message`, with the checks in front of the validators of the classes. The
      initialization of the object leaves the bytes of the message alone. */
  method NewFromMessage(oracle: Oracle, data: array<Byte>, offset: nat, len: nat) returns (obj: WireBuffer?)
    requires 0 < len && offset + OFP_HEADER_BYTES <= data.Length && offset + len <= data.Length
    ensures obj != null <==> Accepts(oracle.env, data[offset..offset + len])
    ensures obj != null ==> fresh(obj) && obj.buf == data && obj.offset == offset && obj.currentBytes == len
  {
    obj := null;
    var version := data[offset];
    if version < 1 || version > OFP_VER_MAX {
      return;
    }
    if len < OF_MESSAGE_MIN_LENGTH || len != 0x100 * (data[offset + 2] as int) + data[offset + 3] as int {
      return;
    }
    if oracle.env.valid(data[offset..offset + len]) {
      obj := new WireBuffer(data, offset, len);
    }
  }

  /** The response to a message that is not dropped: its bytes if it is to be copied, and else those of the
      LOCI object made of it. */
  method Respond(oracle: Oracle, data: array<Byte>, offset: nat, len: nat, dupCount: Byte)
    returns (response: Stream?<Byte>)
    requires 0 < len && offset + OFP_HEADER_BYTES <= data.Length && offset + len <= data.Length
    ensures response != null <==> dupCount != 0 || Accepts(oracle.env, data[offset..offset + len])
    ensures response != null ==>
              && fresh(response) && fresh(response.data)
              && response.Valid() && response.Live() == data[offset..offset + len]
  {
    if dupCount != 0 {
      response := new Stream(len);
      response.Append(data[offset..offset + len]);
      return;
    }
    response := null;
    var obj := NewFromMessage(oracle, data, offset, len);
    if obj != null {
      response := new Stream(obj.currentBytes);
      response.Append(obj.buf[obj.offset..obj.offset + obj.currentBytes]);
    }
  }

  /** `action_inject`: a null response means that the message is not sent. `crashed` tells that the process
      ends here: a table has been read far behind its end, or there was no LOCI object. */
  method ActionInject(store: Store, oracle: Oracle, data: array<Byte>, offset: nat, len: nat)
    returns (response: Stream?<Byte>, dupCount: Byte, crashed: bool)
    requires store.Valid()
    requires 0 < len && offset + OFP_HEADER_BYTES <= data.Length && offset + len <= data.Length
    modifies oracle`draws
    ensures var f := FrameAt(data[..], offset, len);
            && Judge(store.View(), oracle.env, f, oracle.env.rnd(old(oracle.draws))) ==
               (if crashed then Fatal else if response == null then Discarded else Verdict.Sent(dupCount))
            && oracle.draws == old(oracle.draws) + (if Draws(store.View(), f) then 1 else 0)
    ensures response != null ==>
              && fresh(response) && fresh(response.data)
              && response.Valid() && response.Live() == data[offset..offset + len]
  {
    response, dupCount, crashed := null, 0, false;
    var version, kind := data[offset], data[offset + 1];
    if !ValidHeader(version, kind) {
      return;
    }
    if version == 0 {
      crashed := true;
      return;
    }
    var chance := SignedCharToWord(store.drop[version, kind]);
    if chance != 0 {
      var rnd := oracle.Rand();
      if rnd % 100 < chance {
        return;
      }
    }
    assert data[..][offset..offset + len] == data[offset..offset + len];
    dupCount := store.dup[version, kind];
    response := Respond(oracle, data, offset, len, dupCount);
    crashed := response == null;
  }

  class Client {
    const fd: int
    var fwFd: int
    /** `buf`, which `init` allocates with the default size. */
    const buf: Stream<Byte>
    /** `ev_buf`: bytes collected for this client's socket. */
    var evBuf: seq<Byte>
    /** All bytes so far moved from `ev_buf` to this client's socket. */
    var output: seq<Byte>
    /** Whether its own callback has told the event loop to exit, or has ended the process. */
    var fate: Fate
    /** The event loop has been told to break by the partner's destructor. */
    var broken: bool
    const oracle: Oracle

    /** The pair it was created for. */
    ghost const id: Id
    /** Everything the socket has delivered. */
    ghost var received: seq<Byte>
    /** The receiving side as a value. */
    ghost var conn: Conn

    ghost predicate Valid()
      reads this, buf, buf.data, oracle
    {
      buf.Valid() && conn == Current()
    }

    ghost function Current(): Conn
      requires buf.Valid()
      reads this, buf, buf.data, oracle
    {
      Conn(buf.Live(), buf.data.Length, oracle.draws, oracle.sends, fate)
    }

    constructor (fd: int, forwardFd: int, env: Env, ghost id: Id)
      ensures Valid() && fresh(buf) && fresh(buf.data) && fresh(oracle)
      ensures this.fd == fd && this.id == id && oracle.env == env
      ensures Cell() == Pairing.Cell(fd, forwardFd, START.conn, START.outlet, [], false) && buf.data.Length == 512
    {
      this.fd, fwFd := fd, forwardFd;
      this.id := id;
      evBuf, output, received := [], [], [];
      fate, broken := Running, false;
      buf := new Stream(DEFAULT_STREAM_LEN);
      oracle := new Oracle(env);
      conn := START.conn;
    }

    ghost function Outlet(): Outlet
      reads this
    {
      Relay.Outlet(evBuf, output)
    }

    /** The client as the pairing machine sees it. */
    ghost function Cell(): Cell
      reads this
    {
      Pairing.Cell(fd, fwFd, conn, Outlet(), received, broken)
    }

    /** What the destructor of the partner does to this client. */
    method LosePartner()
      requires Valid()
      modifies `fwFd, `broken
      ensures Valid() && Cell() == old(Cell()).(fw := -1, broken := true)
    {
      fwFd := -1;
      broken := true;
    }

    /** The direction from this client to `partner`. */
    ghost function FlowTo(partner: Client): Flow
      reads this, partner
    {
      Flow(conn, partner.Outlet())
    }

    /** The evaluation of the length field at `offset`: a 16-bit load and a swap of its bytes. */
    method MessageLength(offset: nat) returns (len: Half)
      requires buf.Valid() && offset + OFP_HEADER_BYTES <= buf.len
      ensures len == DeclaredLen(buf.Live()[offset..])
    {
      len := SwapHalf(LoadHalf(buf.data[offset + 2], buf.data[offset + 3]));
      SwapLoad(buf.data[offset + 2], buf.data[offset + 3]);
    }

    /** Hands a response and its extra copies to the partner's socket. */
    method Send(partner: Client, response: seq<Byte>, dupCount: Byte)
      requires partner != this
      modifies partner`evBuf, partner`output, oracle`sends, this`fate
      ensures var staged := old(partner.evBuf) + Repeat(response, 1 + dupCount as nat);
              match oracle.env.link(old(oracle.sends))
              case Up => partner.Outlet() == Relay.Outlet([], old(partner.output) + staged) && fate == old(fate)
              case Closed => partner.Outlet() == old(partner.Outlet()) && fate == Halted
              case Broken => partner.Outlet() == Relay.Outlet(staged, old(partner.output)) && fate == Halted
      ensures oracle.sends == old(oracle.sends) + 1
    {
      var link := oracle.AskLink();
      if link == Closed {
        fate := Halted;
        return;
      }
      ghost var staged, done: nat := partner.evBuf, 1;
      RepeatOnce(response);
      partner.evBuf := partner.evBuf + response;
      var left := dupCount;
      while left > 0
        invariant done + left as nat == 1 + dupCount as nat && done >= 1
        invariant partner.evBuf == staged + Repeat(response, done)
        invariant partner.output == old(partner.output) && fate == old(fate)
        invariant oracle.sends == old(oracle.sends) + 1
      {
        partner.evBuf := partner.evBuf + response;
        RepeatMore(staged, response, done);
        left, done := left - 1, done + 1;
      }
      if link == Broken {
        fate := Halted;
        return;
      }
      partner.output := partner.output + partner.evBuf;
      partner.evBuf := [];
    }

    ghost function Progress(partner: Client): Progress
      reads this, oracle, partner
    {
      Relay.Progress(oracle.draws, oracle.sends, partner.Outlet(), fate)
    }

    /** Where the bytes of `s` from `offset` on lead from progress `now`: the progress made, what is
        left over, and whether it starts with a zero-length header. */
    static ghost function Reached(t: Tables, e: Env, s: seq<Byte>, offset: nat, now: Progress):
      (Progress, seq<Byte>, bool)
      requires offset <= |s|
    {
      var left := Split(s[offset..]);
      (RelayAll(t, e, left.frames, now), left.rest, left.malformed)
    }

    /** One more message has been treated. */
    static lemma Peel(t: Tables, e: Env, s: seq<Byte>, offset: nat, now: Progress)
      requires offset <= |s| && Framed(s[offset..]) && now.fate == Running
      ensures var len := DeclaredLen(s[offset..]);
              Reached(t, e, s, offset, now) ==
              Reached(t, e, s, offset + len, RelayOne(t, e, FrameAt(s, offset, len), now))
    {
      var len := DeclaredLen(s[offset..]);
      assert s[offset..][len..] == s[offset + len..];
      assert s[offset..][..len] == s[offset..offset + len];
      assert Split(s[offset..]).frames[1..] == Split(s[offset + len..]).frames;
    }

    /** No message is left, or the last one has stopped the connection. */
    static lemma PeelEnds(t: Tables, e: Env, s: seq<Byte>, offset: nat, now: Progress)
      requires offset <= |s| && (!Framed(s[offset..]) || now.fate != Running)
      ensures Reached(t, e, s, offset, now).0 == now
      ensures !Framed(s[offset..]) ==> Reached(t, e, s, offset, now) == (now, s[offset..], ZeroLength(s[offset..]))
    {
    }

    /** The treatment of the message at `offset`: it is judged and, unless discarded, sent. */
    method Treat(store: Store, partner: Client, offset: nat, len: nat)
      requires buf.Valid() && store.Valid() && partner != this && fate == Running
      requires 0 < len && offset + OFP_HEADER_BYTES <= buf.len && offset + len <= buf.len
      modifies this`fate, oracle`draws, oracle`sends, partner`evBuf, partner`output
      ensures Progress(partner) ==
              RelayOne(store.View(), oracle.env, FrameAt(buf.Live(), offset, len), old(Progress(partner)))
    {
      assert FrameAt(buf.Live(), offset, len) == FrameAt(buf.data[..], offset, len);
      var response, dupCount, crashed := ActionInject(store, oracle, buf.data, offset, len);
      if crashed {
        fate := Crashed;
      } else if response != null {
        Send(partner, response.data[..response.len], dupCount);
      }
    }

    /** The message at `offset` is treated on the way to `goal`, where all messages of `s` lead. */
    method TreatNext(store: Store, partner: Client, ghost s: seq<Byte>, offset: nat, len: nat,
                     ghost goal: (Progress, seq<Byte>, bool))
      requires buf.Valid() && store.Valid() && partner != this && fate == Running && s == buf.Live()
      requires offset <= |s| && Framed(s[offset..]) && len == DeclaredLen(s[offset..])
      requires Reached(store.View(), oracle.env, s, offset, Progress(partner)) == goal
      modifies this`fate, oracle`draws, oracle`sends, partner`evBuf, partner`output
      ensures Reached(store.View(), oracle.env, s, offset + len, Progress(partner)) == goal
    {
      ghost var t, e, now := store.View(), oracle.env, Progress(partner);
      ghost var next := RelayOne(t, e, FrameAt(s, offset, len), now);
      assert Reached(t, e, s, offset + len, next) == goal by {
        Peel(t, e, s, offset, now);
      }
      Treat(store, partner, offset, len);
      assert Progress(partner) == next;
    }

    /** The loop of `on_flow_read`: messages are treated one by one. */
    method TreatAll(store: Store, partner: Client) returns (processed: nat)
      requires buf.Valid() && store.Valid() && partner != this && fate == Running
      modifies this`fate, oracle`draws, oracle`sends, partner`evBuf, partner`output
      ensures var s := buf.Live();
              var (reached, rest, malformed) := Reached(store.View(), oracle.env, s, 0, old(Progress(partner)));
              && Progress(partner) ==
                 (if reached.fate == Running && malformed then reached.(fate := Halted) else reached)
              && (fate == Running ==> processed <= |s| && rest == s[processed..])
    {
      ghost var s, t, e := buf.Live(), store.View(), oracle.env;
      ghost var goal := Reached(t, e, s, 0, Progress(partner));
      processed := 0;
      while processed + OFP_HEADER_BYTES <= buf.len
        invariant processed <= |s| && fate == Running
        invariant Reached(t, e, s, processed, Progress(partner)) == goal
      {
        var len := MessageLength(processed);
        if len == 0 {
          PeelEnds(t, e, s, processed, Progress(partner));
          fate := Halted;
          return;
        }
        if len > buf.len - processed {
          break;
        }
        TreatNext(store, partner, s, processed, len, goal);
        processed := processed + len;
        if fate != Running {
          PeelEnds(t, e, s, processed, Progress(partner));
          return;
        }
      }
      PeelEnds(t, e, s, processed, Progress(partner));
    }

    /** The bytes that have arrived are moved into the receive buffer, which grows if need be. */
    method TakeIn(chunk: seq<Byte>)
      requires buf.Valid()
      modifies this`received, buf, buf.data
      ensures buf.Valid() && Current() == Receive(old(Current()), chunk)
      ensures received == old(received) + chunk && (buf.data == old(buf.data) || fresh(buf.data))
    {
      received := received + chunk;
      if buf.data.Length - buf.len < |chunk| {
        buf.Expand(|chunk|);
      }
      buf.Fill(chunk);
    }

    /** `on_flow_read`, given the bytes that have arrived and the partner found in the client map. */
    method OnFlowRead(store: Store, chunk: seq<Byte>, partner: Client?)
      requires Valid() && store.Valid() && fate == Running
      requires partner != null ==> partner != this
      modifies this`fate, this`received, this`conn, buf, buf.data, oracle`draws, oracle`sends
      modifies (if partner == null then {} else {partner})`evBuf, (if partner == null then {} else {partner})`output
      ensures Valid() && received == old(received) + chunk
      ensures buf.data == old(buf.data) || fresh(buf.data)
      ensures partner == null ==> conn == Orphan(old(conn), chunk)
      ensures partner != null ==> FlowTo(partner) == Feed(store.View(), oracle.env, old(FlowTo(partner)), chunk)
    {
      TakeIn(chunk);
      if buf.len < OFP_HEADER_BYTES {
        conn := Current();
        return;
      }
      if partner == null {
        fate := Halted;
        conn := Current();
        return;
      }
      assert buf.Live()[0..] == buf.Live();
      var processed := TreatAll(store, partner);
      if fate == Running && processed > 0 {
        buf.LeftShift(processed);
      }
      conn := Current();
    }
  }
}
