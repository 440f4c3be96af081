/**
  What forwarding a stream of messages does, told without buffers: which copies of which messages
  leave the proxy (mproxy/src/action.c, mproxy/src/proxy.cpp).
 */
module Relay {
  import opened Bytes
  import opened Frames
  import opened Tables

  /** How the socket of the partner answers when a message is to be sent to it: it takes the bytes,
      its descriptor is no longer valid, or `bufferevent_write_buffer` fails. */
  datatype Link = Up | Closed | Broken

  /** The answers of the environment to one connection, in the order in which it asks, and the messages
      that pass LOCI's validators of message classes. */
  datatype Env = Env(rnd: nat -> nat, link: nat -> Link, valid: seq<Byte> -> bool)

  const OF_MESSAGE_MIN_LENGTH := 8

  /** `of_object_new_from_message` makes an object of the message, which is bound to the very bytes of the
      message. Otherwise it returns a null pointer. */
  predicate Accepts(e: Env, body: seq<Byte>) {
    && |body| >= OF_MESSAGE_MIN_LENGTH && 1 <= body[0] <= OFP_VER_MAX
    && DeclaredLen(body) == |body| && e.valid(body)
  }

  /** What is decided about a message. `Fatal` is the end of the process: a table is read far outside, or
      the null pointer followed that stands for a message LOCI does not accept. */
  datatype Verdict = Discarded | Sent(extra: Byte) | Fatal

  /** `is_valid_ofp_header` */
  predicate ValidHeader(version: Byte, kind: Byte) {
    version <= OFP_VER_MAX && kind <= OFP_MSG_TYPE_MAX
  }

  /** The tables have a cell for the message. */
  predicate ProperHeader(f: Frame) {
    1 <= f.version <= OFP_VER_MAX && f.kind <= OFP_MSG_TYPE_MAX
  }

  /** The message takes a random number: its drop chance is not zero. */
  predicate Draws(t: Tables, f: Frame) {
    ProperHeader(f) && t.drop[f.version][f.kind] != 0
  }

  /** The random number is below the drop chance. */
  predicate Dropped(t: Tables, f: Frame, rnd: nat)
    requires ProperHeader(f)
  {
    rnd % 100 < SignedCharToWord(t.drop[f.version][f.kind])
  }

  function Judge(t: Tables, e: Env, f: Frame, rnd: nat): Verdict {
    if !ValidHeader(f.version, f.kind) then Discarded
    else if f.version == 0 then Fatal
    else if Dropped(t, f, rnd) then Discarded
    else if t.dup[f.version][f.kind] == 0 && !Accepts(e, f.body) then Fatal
    else Sent(t.dup[f.version][f.kind])
  }

  function CopiesOf(verdict: Verdict): nat {
    match verdict
    case Sent(extra) => 1 + extra as nat
    case Discarded => 0
    case Fatal => 0
  }

  function Copies(t: Tables, e: Env, f: Frame, rnd: nat): nat {
    CopiesOf(Judge(t, e, f, rnd))
  }

  function Repeat(body: seq<Byte>, n: nat): seq<Byte> {
    if n == 0 then [] else Repeat(body, n - 1) + body
  }

  lemma RepeatOnce(body: seq<Byte>)
    ensures Repeat(body, 1) == body
  {
    assert Repeat(body, 0) + body == body;
  }

  lemma RepeatMore(front: seq<Byte>, body: seq<Byte>, n: nat)
    ensures (front + Repeat(body, n)) + body == front + Repeat(body, n + 1)
  {
  }

  /** The output side of the partner: the bytes collected in its `ev_buf`, and the bytes handed to
      its socket. */
  datatype Outlet = Outlet(staged: seq<Byte>, sent: seq<Byte>)

  /** Whether a connection goes on: its event loop may have been told to exit, or the process may have
      ended in its callback. */
  datatype Fate = Running | Halted | Crashed

  /** How far a connection has come; `draws` and `sends` count the random numbers and link answers used. */
  datatype Progress = Progress(draws: nat, sends: nat, outlet: Outlet, fate: Fate)

  const NOTHING := Progress(0, 0, Outlet([], []), Running)

  /** The effect of a decision: a random number may have been used, and the socket answers if it is asked. */
  function Applied(p: Progress, draws: nat, verdict: Verdict, link: Link, body: seq<Byte>): Progress {
    match verdict
    case Discarded => p.(draws := draws)
    case Fatal => p.(draws := draws, fate := Crashed)
    case Sent(extra) =>
      var staged := p.outlet.staged + Repeat(body, 1 + extra as nat);
      match link
      case Up => p.(draws := draws, sends := p.sends + 1, outlet := Outlet([], p.outlet.sent + staged))
      case Closed => p.(draws := draws, sends := p.sends + 1, fate := Halted)
      case Broken => Progress(draws, p.sends + 1, p.outlet.(staged := staged), Halted)
  }

  function RelayOne(t: Tables, e: Env, f: Frame, p: Progress): Progress {
    var draws := p.draws + if Draws(t, f) then 1 else 0;
    Applied(p, draws, Judge(t, e, f, e.rnd(p.draws)), e.link(p.sends), f.body)
  }

  /** Messages are treated one after the other until one of them cannot be sent or ends the process. */
  function RelayAll(t: Tables, e: Env, frames: seq<Frame>, p: Progress): Progress {
    if frames == [] || p.fate != Running then p else RelayAll(t, e, frames[1..], RelayOne(t, e, frames[0], p))
  }

  lemma {:induction false} RelayAppend(t: Tables, e: Env, a: seq<Frame>, b: seq<Frame>, p: Progress)
    ensures RelayAll(t, e, a + b, p) == RelayAll(t, e, b, RelayAll(t, e, a, p))
  {
    if a == [] {
      assert a + b == b;
    } else if p.fate == Running {
      assert (a + b)[1..] == a[1..] + b;
      RelayAppend(t, e, a[1..], b, RelayOne(t, e, a[0], p));
    }
  }

  /** What has been handed to the partner's socket is never taken back. */
  lemma {:induction false} RelayGrows(t: Tables, e: Env, frames: seq<Frame>, p: Progress)
    ensures p.outlet.sent <= RelayAll(t, e, frames, p).outlet.sent
  {
    if frames != [] && p.fate == Running {
      RelayGrows(t, e, frames[1..], RelayOne(t, e, frames[0], p));
    }
  }

  lemma RelayStopped(t: Tables, e: Env, frames: seq<Frame>, p: Progress)
    ensures p.fate != Running ==> RelayAll(t, e, frames, p) == p
  {
  }

  lemma RelaySingle(t: Tables, e: Env, f: Frame, p: Progress)
    requires p.fate == Running
    ensures RelayAll(t, e, [f], p) == RelayOne(t, e, f, p)
  {
    assert [f][1..] == [];
  }

  // ----- The same, message by message -----

  /** Random numbers used by the messages. */
  function CountDraws(t: Tables, frames: seq<Frame>): nat {
    if frames == [] then 0
    else CountDraws(t, frames[..|frames| - 1]) + if Draws(t, frames[|frames| - 1]) then 1 else 0
  }

  /** What is decided about message `i` of a connection, with the random number it finds next. */
  function VerdictOn(t: Tables, e: Env, frames: seq<Frame>, i: nat): Verdict
    requires i < |frames|
  {
    Judge(t, e, frames[i], e.rnd(CountDraws(t, frames[..i])))
  }

  /** The messages that are to be sent. */
  function CountSends(t: Tables, e: Env, frames: seq<Frame>): nat {
    if frames == [] then 0
    else
      var n := |frames| - 1;
      CountSends(t, e, frames[..n]) + if VerdictOn(t, e, frames, n).Sent? then 1 else 0
  }

  /** The copies of message `i`. */
  function CopiesAt(t: Tables, e: Env, frames: seq<Frame>, i: nat): seq<Byte>
    requires i < |frames|
  {
    Repeat(frames[i].body, CopiesOf(VerdictOn(t, e, frames, i)))
  }

  /** The copies of every message, in the order of the messages. */
  function Emission(t: Tables, e: Env, frames: seq<Frame>): seq<seq<Byte>> {
    seq(|frames|, (i: nat) requires i < |frames| => CopiesAt(t, e, frames, i))
  }

  /** Message `i` is the last one if those in front of it are not: it ends the process, or the partner does
      not take it. */
  predicate Stops(t: Tables, e: Env, frames: seq<Frame>, i: nat)
    requires i < |frames|
  {
    match VerdictOn(t, e, frames, i)
    case Discarded => false
    case Fatal => true
    case Sent(_) => e.link(CountSends(t, e, frames[..i])) != Up
  }

  /** The place of the first `true`, or the length. */
  function First(flags: seq<bool>): (n: nat)
    ensures n <= |flags| && (n < |flags| ==> flags[n])
    ensures forall i :: 0 <= i < n ==> !flags[i]
  {
    if flags == [] || flags[0] then 0 else 1 + First(flags[1..])
  }

  /** The messages in front of the first one that stops the connection. */
  function Treated(t: Tables, e: Env, frames: seq<Frame>): nat {
    First(seq(|frames|, (i: nat) requires i < |frames| => Stops(t, e, frames, i)))
  }

  /** The first `n` messages have been emitted. */
  function Emitted(t: Tables, e: Env, frames: seq<Frame>, n: nat): Progress
    requires n <= |frames|
  {
    Progress(CountDraws(t, frames[..n]), CountSends(t, e, frames[..n]),
             Outlet([], Flatten(Emission(t, e, frames[..n]))), Running)
  }

  /** Message `n` has stopped the connection. It has used up its answers, and its copies are stuck in `ev_buf`
      if the partner's socket failed. */
  function StoppedAt(t: Tables, e: Env, frames: seq<Frame>, n: nat): Progress
    requires n < |frames|
  {
    var used, verdict := frames[..n + 1], VerdictOn(t, e, frames, n);
    var stuck := verdict.Sent? && e.link(CountSends(t, e, frames[..n])) == Broken;
    Progress(CountDraws(t, used), CountSends(t, e, used),
             Outlet(if stuck then CopiesAt(t, e, frames, n) else [], Flatten(Emission(t, e, frames[..n]))),
             if verdict == Fatal then Crashed else Halted)
  }

  /** What becomes of a fresh connection that gets some messages, told without going through them. */
  function Account(t: Tables, e: Env, frames: seq<Frame>): Progress {
    var n := Treated(t, e, frames);
    if n == |frames| then Emitted(t, e, frames, n) else StoppedAt(t, e, frames, n)
  }

  ghost predicate AlwaysUp(e: Env) {
    forall n :: e.link(n) == Up
  }

  lemma VerdictOnPrefix(t: Tables, e: Env, frames: seq<Frame>, n: nat, i: nat)
    requires i < n <= |frames|
    ensures VerdictOn(t, e, frames[..n], i) == VerdictOn(t, e, frames, i)
    ensures Stops(t, e, frames[..n], i) == Stops(t, e, frames, i)
  {
    assert frames[..n][..i] == frames[..i];
  }

  lemma EmissionLast(t: Tables, e: Env, frames: seq<Frame>, n: nat)
    requires n + 1 == |frames|
    ensures Emission(t, e, frames) == Emission(t, e, frames[..n]) + [CopiesAt(t, e, frames, n)]
  {
    forall i | 0 <= i < n
      ensures CopiesAt(t, e, frames[..n], i) == CopiesAt(t, e, frames, i)
    {
      VerdictOnPrefix(t, e, frames, n, i);
    }
  }

  lemma FlattenOne<T>(part: seq<T>)
    ensures Flatten([part]) == part
  {
    assert [part][1..] == [];
  }

  lemma CountLast(t: Tables, e: Env, frames: seq<Frame>, n: nat)
    requires n < |frames|
    ensures CountDraws(t, frames[..n + 1]) == CountDraws(t, frames[..n]) + if Draws(t, frames[n]) then 1 else 0
    ensures CountSends(t, e, frames[..n + 1]) ==
            CountSends(t, e, frames[..n]) + if VerdictOn(t, e, frames, n).Sent? then 1 else 0
  {
    VerdictOnPrefix(t, e, frames, n + 1, n);
    assert frames[..n + 1][..n] == frames[..n];
  }

  /** The step from the messages in front of message `n` to this message. */
  lemma RelayNext(t: Tables, e: Env, frames: seq<Frame>, n: nat)
    requires n < |frames| && RelayAll(t, e, frames[..n], NOTHING) == Emitted(t, e, frames, n)
    ensures RelayAll(t, e, frames[..n + 1], NOTHING) ==
            Applied(Emitted(t, e, frames, n), CountDraws(t, frames[..n + 1]), VerdictOn(t, e, frames, n),
                  e.link(CountSends(t, e, frames[..n])), frames[n].body)
  {
    assert frames[..n + 1] == frames[..n] + [frames[n]];
    RelayAppend(t, e, frames[..n], [frames[n]], NOTHING);
    RelaySingle(t, e, frames[n], Emitted(t, e, frames, n));
    CountLast(t, e, frames, n);
  }

  lemma EmissionNext(t: Tables, e: Env, frames: seq<Frame>, n: nat)
    requires n < |frames|
    ensures Flatten(Emission(t, e, frames[..n + 1])) ==
            Flatten(Emission(t, e, frames[..n])) + CopiesAt(t, e, frames, n)
  {
    VerdictOnPrefix(t, e, frames, n + 1, n);
    assert frames[..n + 1][..n] == frames[..n];
    EmissionLast(t, e, frames[..n + 1], n);
    FlattenAppend(Emission(t, e, frames[..n]), [CopiesAt(t, e, frames, n)]);
    FlattenOne(CopiesAt(t, e, frames, n));
  }

  /** A message that does not stop the connection is emitted. */
  lemma EmittedNext(t: Tables, e: Env, frames: seq<Frame>, n: nat)
    requires n < |frames| && !Stops(t, e, frames, n)
    ensures Emitted(t, e, frames, n + 1) ==
            Applied(Emitted(t, e, frames, n), CountDraws(t, frames[..n + 1]), VerdictOn(t, e, frames, n),
                  e.link(CountSends(t, e, frames[..n])), frames[n].body)
  {
    var verdict, sent := VerdictOn(t, e, frames, n), Flatten(Emission(t, e, frames[..n]));
    EmissionNext(t, e, frames, n);
    CountLast(t, e, frames, n);
    var copies := CopiesAt(t, e, frames, n);
    assert sent + ([] + copies) == sent + copies;
    if !verdict.Sent? {
      assert sent + copies == sent;
    }
  }

  /** Messages none of which stops the connection are all emitted. */
  lemma {:induction false} RelayEmitsAll(t: Tables, e: Env, frames: seq<Frame>, n: nat)
    requires n <= |frames| && forall i :: 0 <= i < n ==> !Stops(t, e, frames, i)
    ensures RelayAll(t, e, frames[..n], NOTHING) == Emitted(t, e, frames, n)
  {
    if n == 0 {
      assert Emission(t, e, frames[..0]) == [];
    } else {
      RelayEmitsAll(t, e, frames, n - 1);
      RelayNext(t, e, frames, n - 1);
      EmittedNext(t, e, frames, n - 1);
    }
  }

  lemma TreatedIs(t: Tables, e: Env, frames: seq<Frame>, n: nat)
    requires n == Treated(t, e, frames)
    ensures n <= |frames| && (n < |frames| ==> Stops(t, e, frames, n))
    ensures forall i :: 0 <= i < n ==> !Stops(t, e, frames, i)
  {
    var flags := seq(|frames|, (i: nat) requires i < |frames| => Stops(t, e, frames, i));
    assert forall i :: 0 <= i < |frames| ==> flags[i] == Stops(t, e, frames, i);
  }

  /** A message that stops the connection. */
  lemma StoppedNext(t: Tables, e: Env, frames: seq<Frame>, n: nat)
    requires n < |frames| && Stops(t, e, frames, n)
    ensures StoppedAt(t, e, frames, n) ==
            Applied(Emitted(t, e, frames, n), CountDraws(t, frames[..n + 1]), VerdictOn(t, e, frames, n),
                  e.link(CountSends(t, e, frames[..n])), frames[n].body)
  {
    CountLast(t, e, frames, n);
    var copies := CopiesAt(t, e, frames, n);
    assert [] + copies == copies;
  }

  /** A connection that has stopped ignores further messages. */
  lemma RelayPast(t: Tables, e: Env, frames: seq<Frame>, n: nat, p: Progress)
    requires n <= |frames| && RelayAll(t, e, frames[..n], NOTHING) == p && p.fate != Running
    ensures RelayAll(t, e, frames, NOTHING) == p
  {
    assert frames[..n] + frames[n..] == frames;
    RelayAppend(t, e, frames[..n], frames[n..], NOTHING);
    RelayStopped(t, e, frames[n..], p);
  }

  /** Treating messages one by one comes to this account, whatever the environment answers: every message up
      to the one that stops the connection leaves the proxy, in order, as many times as its table cells and
      its random number say. */
  lemma RelayEmits(t: Tables, e: Env, frames: seq<Frame>)
    ensures RelayAll(t, e, frames, NOTHING) == Account(t, e, frames)
  {
    var n := Treated(t, e, frames);
    TreatedIs(t, e, frames, n);
    RelayEmitsAll(t, e, frames, n);
    if n == |frames| {
      assert frames[..n] == frames;
    } else {
      RelayNext(t, e, frames, n);
      StoppedNext(t, e, frames, n);
      RelayPast(t, e, frames, n + 1, StoppedAt(t, e, frames, n));
    }
  }

  // ----- The end of the process -----

  /** While the partner takes everything, only fatal messages stop the connection. */
  lemma AccountUp(t: Tables, e: Env, frames: seq<Frame>, n: nat)
    requires AlwaysUp(e) && n == Treated(t, e, frames)
    ensures n <= |frames| && Account(t, e, frames).outlet.sent == Flatten(Emission(t, e, frames[..n]))
    ensures Account(t, e, frames).fate == if n < |frames| then Crashed else Running
  {
    TreatedIs(t, e, frames, n);
  }

  lemma CrashesAt(t: Tables, e: Env, frames: seq<Frame>, n: nat)
    requires n == Treated(t, e, frames)
    ensures n <= |frames|
    ensures RelayAll(t, e, frames, NOTHING).fate == Crashed <==>
            n < |frames| && VerdictOn(t, e, frames, n) == Fatal
  {
    RelayEmits(t, e, frames);
    TreatedIs(t, e, frames, n);
  }

  /** Message `i` is fatal, and nothing in front of it keeps it from being treated. */
  ghost predicate Reaches(t: Tables, e: Env, frames: seq<Frame>, i: nat)
    requires i < |frames|
  {
    VerdictOn(t, e, frames, i) == Fatal && forall j :: 0 <= j < i ==> !Stops(t, e, frames, j)
  }

  /** The process ends exactly if a message is fatal that nothing in front of it keeps from being treated. */
  lemma Crashes(t: Tables, e: Env, frames: seq<Frame>)
    ensures RelayAll(t, e, frames, NOTHING).fate == Crashed <==>
            exists i :: 0 <= i < |frames| && Reaches(t, e, frames, i)
  {
    var n := Treated(t, e, frames);
    CrashesAt(t, e, frames, n);
    TreatedIs(t, e, frames, n);
    if n < |frames| && VerdictOn(t, e, frames, n) == Fatal {
      assert Reaches(t, e, frames, n);
    }
    forall i | 0 <= i < |frames| && Reaches(t, e, frames, i)
      ensures i == n
    {
      assert Stops(t, e, frames, i);
    }
  }

  /** While the partner takes everything, the process ends exactly if any message is fatal. */
  lemma CrashesUp(t: Tables, e: Env, frames: seq<Frame>)
    requires AlwaysUp(e)
    ensures RelayAll(t, e, frames, NOTHING).fate == Crashed <==>
            exists i :: 0 <= i < |frames| && VerdictOn(t, e, frames, i) == Fatal
  {
    var n := Treated(t, e, frames);
    CrashesAt(t, e, frames, n);
    TreatedIs(t, e, frames, n);
    forall i | 0 <= i < |frames| && VerdictOn(t, e, frames, i) == Fatal
      ensures n <= i
    {
      assert Stops(t, e, frames, i);
    }
  }

  /** The message does no harm, whatever random number it finds: it is discarded for its header, always
      dropped, copied by a DUP rule, or accepted by LOCI. */
  predicate Harmless(t: Tables, e: Env, f: Frame) {
    || !ValidHeader(f.version, f.kind)
    || (f.version >= 1 && (SignedCharToWord(t.drop[f.version][f.kind]) >= 100
                           || t.dup[f.version][f.kind] != 0 || Accepts(e, f.body)))
  }

  lemma HarmlessNeverFatal(t: Tables, e: Env, f: Frame, rnd: nat)
    ensures Harmless(t, e, f) ==> Judge(t, e, f, rnd) != Fatal
    ensures !Harmless(t, e, f) && rnd % 100 == 99 ==> Judge(t, e, f, rnd) == Fatal
  {
  }

  /** A message ends the process, if it is the first one that can, and the random number is 99. */
  lemma HarmCrashes(t: Tables, e: Env, frames: seq<Frame>, i: nat)
    requires AlwaysUp(e) && (forall n :: e.rnd(n) % 100 == 99) && i < |frames| && !Harmless(t, e, frames[i])
    ensures RelayAll(t, e, frames, NOTHING).fate == Crashed
  {
    HarmlessNeverFatal(t, e, frames[i], e.rnd(CountDraws(t, frames[..i])));
    assert VerdictOn(t, e, frames, i) == Fatal;
    CrashesUp(t, e, frames);
  }

  /** Some messages are survived whatever the random numbers exactly if each of them is harmless. */
  lemma SurvivedAlways(t: Tables, e: Env, frames: seq<Frame>)
    requires AlwaysUp(e)
    ensures (forall i :: 0 <= i < |frames| ==> Harmless(t, e, frames[i])) <==>
            forall rnd: nat -> nat :: RelayAll(t, e.(rnd := rnd), frames, NOTHING).fate != Crashed
  {
    if forall i :: 0 <= i < |frames| ==> Harmless(t, e, frames[i]) {
      forall rnd: nat -> nat
        ensures RelayAll(t, e.(rnd := rnd), frames, NOTHING).fate != Crashed
      {
        HarmlessSurvived(t, e.(rnd := rnd), frames);
      }
    } else {
      var i :| 0 <= i < |frames| && !Harmless(t, e, frames[i]);
      var worst := e.(rnd := (n: nat) => 99);
      assert !Harmless(t, worst, frames[i]);
      HarmCrashes(t, worst, frames, i);
    }
  }

  lemma HarmlessSurvived(t: Tables, e: Env, frames: seq<Frame>)
    requires forall i :: 0 <= i < |frames| ==> Harmless(t, e, frames[i])
    ensures RelayAll(t, e, frames, NOTHING).fate != Crashed
  {
    Crashes(t, e, frames);
    forall i | 0 <= i < |frames|
      ensures VerdictOn(t, e, frames, i) != Fatal
    {
      HarmlessNeverFatal(t, e, frames[i], e.rnd(CountDraws(t, frames[..i])));
    }
  }

  // ----- Transparency -----

  ghost predicate Empty(t: Tables) {
    forall v, k :: 1 <= v < ROWS && 0 <= k < COLUMNS ==> t.drop[v][k] == 0 && t.dup[v][k] == 0
  }

  /** LOCI accepts the message, and the tables have a cell for it. */
  predicate Clean(e: Env, f: Frame) {
    ProperHeader(f) && Accepts(e, f.body)
  }

  predicate AllClean(e: Env, frames: seq<Frame>) {
    forall i :: 0 <= i < |frames| ==> Clean(e, frames[i])
  }

  lemma JudgeUnruled(t: Tables, e: Env, f: Frame, rnd: nat)
    requires Empty(t)
    ensures !Draws(t, f)
    ensures Judge(t, e, f, rnd) ==
            if Clean(e, f) then Sent(0) else if ValidHeader(f.version, f.kind) then Fatal else Discarded
  {
    assert ProperHeader(f) ==> t.drop[f.version][f.kind] == 0 && t.dup[f.version][f.kind] == 0;
  }

  lemma RelayOneUnruled(t: Tables, e: Env, f: Frame, p: Progress)
    requires Empty(t) && AlwaysUp(e) && p.fate == Running && p.outlet.staged == []
    ensures RelayOne(t, e, f, p) ==
            if Clean(e, f) then p.(sends := p.sends + 1, outlet := Outlet([], p.outlet.sent + f.body))
            else if ValidHeader(f.version, f.kind) then p.(fate := Crashed) else p
  {
    JudgeUnruled(t, e, f, e.rnd(p.draws));
    RepeatOnce(f.body);
    assert [] + f.body == f.body;
  }

  lemma {:induction false} RelayNoMore(t: Tables, e: Env, frames: seq<Frame>, p: Progress)
    requires Empty(t) && AlwaysUp(e) && p.outlet.staged == []
    ensures |RelayAll(t, e, frames, p).outlet.sent| <= |p.outlet.sent| + |Bodies(frames)|
  {
    if frames != [] && p.fate == Running {
      RelayOneUnruled(t, e, frames[0], p);
      RelayNoMore(t, e, frames[1..], RelayOne(t, e, frames[0], p));
    }
  }

  lemma {:induction false} RelayNeverHalts(t: Tables, e: Env, frames: seq<Frame>, p: Progress)
    requires AlwaysUp(e) && p.fate != Halted
    ensures RelayAll(t, e, frames, p).fate != Halted
  {
    if frames != [] && p.fate == Running {
      RelayNeverHalts(t, e, frames[1..], RelayOne(t, e, frames[0], p));
    }
  }

  /** Without rules, messages are forwarded unchanged, and the connection goes on, exactly if each of them
      has a proper header and is accepted by LOCI. No random number is used then. */
  lemma {:induction false} RelayTransparent(t: Tables, e: Env, frames: seq<Frame>, p: Progress)
    requires Empty(t) && AlwaysUp(e) && p.fate == Running && p.outlet.staged == []
    requires forall i :: 0 <= i < |frames| ==> frames[i].body != []
    ensures var q := RelayAll(t, e, frames, p);
            && (AllClean(e, frames) <==> q.fate == Running && q.outlet.sent == p.outlet.sent + Bodies(frames))
            && (AllClean(e, frames) ==> q.outlet.staged == [] && q.draws == p.draws)
  {
    if frames != [] {
      var f, rest, sent := frames[0], frames[1..], p.outlet.sent;
      RelayOneUnruled(t, e, f, p);
      var q := RelayOne(t, e, f, p);
      assert AllClean(e, frames) <==> Clean(e, f) && AllClean(e, rest) by {
        assert forall i :: 0 < i < |frames| ==> frames[i] == rest[i - 1];
      }
      if Clean(e, f) {
        RelayTransparent(t, e, rest, q);
        assert (sent + f.body) + Bodies(rest) == sent + Bodies(frames);
      } else if q.fate == Running {
        RelayNoMore(t, e, rest, q);
      }
    }
  }

  // ----- Rules and messages -----

  ghost predicate SaneRules(rules: seq<Rule>) {
    forall i :: 0 <= i < |rules| ==> rules[i].Drop? ==> 0 <= rules[i].chance <= 100
  }

  lemma {:induction false} LastDropSane(rules: seq<Rule>, v: nat, k: nat)
    requires SaneRules(rules)
    ensures 0 <= LastDrop(rules, v, k, 0) <= 100
    decreases |rules|
  {
    if rules != [] {
      LastDropSane(rules[..|rules| - 1], v, k);
    }
  }

  /** What some rules decide about a message: it is lost when the last covering DROP rule's chance exceeds
      the random number, and else sent once plus the extra times of the last covering DUP rule. A message
      without extra copies must be one that LOCI accepts, and its version must be at least 1.0. */
  function RuledVerdict(rules: seq<Rule>, e: Env, f: Frame, rnd: nat): Verdict {
    var extra := LastDup(rules, f.version, f.kind, 0);
    if !ValidHeader(f.version, f.kind) then Discarded
    else if f.version == 0 then Fatal
    else if rnd % 100 < LastDrop(rules, f.version, f.kind, 0) then Discarded
    else if extra == 0 && !Accepts(e, f.body) then Fatal
    else Sent(extra)
  }

  /** The tables that the rules fill decide the same. */
  lemma VerdictOfRules(rules: seq<Rule>, e: Env, f: Frame, rnd: nat)
    requires SaneRules(rules)
    ensures Judge(ApplyRules(BLANK, rules), e, f, rnd) == RuledVerdict(rules, e, f, rnd)
  {
    if ProperHeader(f) {
      TablesAgree(BLANK, rules, f.version, f.kind);
      LastDropSane(rules, f.version, f.kind);
    }
  }

  /** A DROP rule of p percent for everything, alone in the tables, loses a message of a known version and type
      for exactly p of the 100 remainders of its random number. */
  lemma DropShare(e: Env, f: Frame, p: nat, rnd: nat)
    requires p <= 100 && 1 <= f.version <= 5 && f.kind <= 34
    ensures Judge(ApplyRule(BLANK, Drop(0, -1, p)), e, f, rnd) == Discarded <==> rnd % 100 < p
  {
    DropAll(BLANK, p, f.version, f.kind);
  }

  /** A DUP rule of x further copies for everything, alone in the tables, has every message of a known version
      and type sent x + 1 times, whatever LOCI says. */
  lemma DupEverything(e: Env, f: Frame, x: Byte, rnd: nat)
    requires x >= 1 && 1 <= f.version <= 5 && f.kind <= 34
    ensures Copies(ApplyRule(BLANK, Dup(0, -1, x)), e, f, rnd) == x as nat + 1
  {
    DupAll(BLANK, x, f.version, f.kind);
  }

  /** Whether a message can end the process, told by the rules. */
  lemma HarmlessByRules(rules: seq<Rule>, e: Env, f: Frame)
    requires SaneRules(rules)
    ensures Harmless(ApplyRules(BLANK, rules), e, f) <==>
            || !ValidHeader(f.version, f.kind)
            || (f.version >= 1 && (LastDrop(rules, f.version, f.kind, 0) == 100
                                   || LastDup(rules, f.version, f.kind, 0) != 0 || Accepts(e, f.body)))
  {
    if ProperHeader(f) {
      TablesAgree(BLANK, rules, f.version, f.kind);
      LastDropSane(rules, f.version, f.kind);
    }
  }
}
