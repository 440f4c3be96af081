/**
  What a byte stream means as a sequence of OpenFlow messages. A message starts with an eight-byte
  header; its bytes 2 and 3 hold the length of the whole message, high byte first
  (section 5.1 of the OpenFlow Switch Specification 1.0.0).
 */
module Frames {
  import opened Bytes

  const OFP_HEADER_BYTES := 8

  /** A message cut out of the stream, with the two header bytes on which its treatment depends.
      They are kept apart from the body because a declared length of 1 leaves the second of them
      outside of the body. */
  datatype Frame = Frame(version: Byte, kind: Byte, body: seq<Byte>)

  /** What a stream holds: its messages, the bytes after the last of them, and whether these start
      with a header that declares length zero. */
  datatype Parse = Parse(frames: seq<Frame>, rest: seq<Byte>, malformed: bool)

  function DeclaredLen(s: seq<Byte>): Half
    requires |s| >= OFP_HEADER_BYTES
  {
    0x100 * (s[2] as int) + s[3] as int
  }

  /** The stream starts with all the bytes of a message. */
  predicate Framed(s: seq<Byte>) {
    |s| >= OFP_HEADER_BYTES && 0 < DeclaredLen(s) <= |s|
  }

  predicate ZeroLength(s: seq<Byte>) {
    |s| >= OFP_HEADER_BYTES && DeclaredLen(s) == 0
  }

  function FirstFrame(s: seq<Byte>): Frame
    requires Framed(s)
  {
    Frame(s[0], s[1], s[..DeclaredLen(s)])
  }

  function Split(s: seq<Byte>): Parse
    decreases |s|
  {
    if Framed(s) then
      var tail := Split(s[DeclaredLen(s)..]);
      tail.(frames := [FirstFrame(s)] + tail.frames)
    else
      Parse([], s, ZeroLength(s))
  }

  function Bodies(frames: seq<Frame>): seq<Byte> {
    if frames == [] then [] else frames[0].body + Bodies(frames[1..])
  }

  function Flatten<T>(parts: seq<seq<T>>): seq<T> {
    if parts == [] then [] else parts[0] + Flatten(parts[1..])
  }

  /** The first message of a stream, and what follows. */
  lemma SplitFirst(s: seq<Byte>, n: nat)
    requires Framed(s) && n == DeclaredLen(s)
    ensures Split(s) == Split(s[n..]).(frames := [FirstFrame(s)] + Split(s[n..]).frames)
  {
  }

  lemma BodiesMore(f: Frame, frames: seq<Frame>)
    ensures Bodies([f] + frames) == f.body + Bodies(frames)
  {
    assert ([f] + frames)[1..] == frames;
  }

  /** No byte is lost, invented or moved by cutting the stream. */
  lemma {:induction false} SplitConserves(s: seq<Byte>)
    ensures Bodies(Split(s).frames) + Split(s).rest == s
    decreases |s|
  {
    if Framed(s) {
      var n := DeclaredLen(s);
      var tail := Split(s[n..]);
      var front, bodies := s[..n], Bodies(tail.frames);
      assert bodies + tail.rest == s[n..] by {
        SplitConserves(s[n..]);
      }
      assert Bodies(Split(s).frames) == front + bodies && Split(s).rest == tail.rest by {
        SplitFirst(s, n);
        BodiesMore(FirstFrame(s), tail.frames);
      }
      Reassociate(front, bodies, tail.rest);
    }
  }

  lemma Reassociate<T>(a: seq<T>, b: seq<T>, c: seq<T>)
    ensures (a + b) + c == a + (b + c)
  {
  }

  /** What is left over does not start with a whole message. */
  lemma {:induction false} SplitExhausts(s: seq<Byte>)
    ensures !Framed(Split(s).rest)
    ensures Split(s).malformed == ZeroLength(Split(s).rest)
    ensures !Split(s).malformed ==> |Split(s).rest| <= 0xFFFE
    decreases |s|
  {
    if Framed(s) {
      SplitExhausts(s[DeclaredLen(s)..]);
    }
  }

  lemma {:induction false} SplitBodies(s: seq<Byte>)
    ensures forall i :: 0 <= i < |Split(s).frames| ==> Split(s).frames[i].body != []
    decreases |s|
  {
    if Framed(s) {
      SplitBodies(s[DeclaredLen(s)..]);
    }
  }

  /** A message at the start of a stream stays there when bytes are added behind the stream. */
  lemma FramedAppend(s: seq<Byte>, more: seq<Byte>, n: nat)
    requires Framed(s) && n == DeclaredLen(s)
    ensures Framed(s + more) && DeclaredLen(s + more) == n && FirstFrame(s + more) == FirstFrame(s)
    ensures (s + more)[n..] == s[n..] + more
  {
    assert (s + more)[..n] == s[..n];
  }

  /** More bytes behind a stream do not change how its messages are cut: they go on where the
      left-over bytes stop. After a zero-length header nothing is cut any more. */
  lemma {:induction false} SplitAppend(s: seq<Byte>, more: seq<Byte>)
    ensures Split(s + more).frames ==
            Split(s).frames + if Split(s).malformed then [] else Split(Split(s).rest + more).frames
    ensures Split(s).malformed ==> Split(s + more).malformed
    ensures !Split(s).malformed ==> Split(s + more).malformed == Split(Split(s).rest + more).malformed
    ensures !Split(s).malformed ==> Split(s + more).rest == Split(Split(s).rest + more).rest
    decreases |s|
  {
    if Framed(s) {
      var n := DeclaredLen(s);
      FramedAppend(s, more, n);
      SplitFirst(s, n);
      SplitFirst(s + more, n);
      SplitAppend(s[n..], more);
    } else if ZeroLength(s) {
      assert !Framed(s + more);
    }
  }

  /** A message whose length field tells its size. */
  predicate WellFormed(m: seq<Byte>) {
    |m| >= OFP_HEADER_BYTES && DeclaredLen(m) == |m|
  }

  function FrameOf(m: seq<Byte>): Frame
    requires WellFormed(m)
  {
    Frame(m[0], m[1], m)
  }

  function FramesOf(messages: seq<seq<Byte>>): (frames: seq<Frame>)
    requires forall i :: 0 <= i < |messages| ==> WellFormed(messages[i])
    ensures |frames| == |messages|
    ensures forall i :: 0 <= i < |messages| ==> frames[i] == FrameOf(messages[i])
  {
    if messages == [] then [] else [FrameOf(messages[0])] + FramesOf(messages[1..])
  }

  /** Cutting undoes the concatenation of well-formed messages. */
  lemma {:induction false} SplitFlatten(messages: seq<seq<Byte>>)
    requires forall i :: 0 <= i < |messages| ==> WellFormed(messages[i])
    ensures Split(Flatten(messages)) == Parse(FramesOf(messages), [], false)
  {
    if messages != [] {
      var m, tail := messages[0], Flatten(messages[1..]);
      SplitFlatten(messages[1..]);
      assert (m + tail)[..|m|] == m && (m + tail)[|m|..] == tail;
      assert DeclaredLen(m + tail) == |m|;
    }
  }

  lemma {:induction false} FlattenAppend<T>(a: seq<seq<T>>, b: seq<seq<T>>)
    ensures Flatten(a + b) == Flatten(a) + Flatten(b)
  {
    if a == [] {
      assert a + b == b;
    } else {
      assert (a + b)[1..] == a[1..] + b;
      FlattenAppend(a[1..], b);
    }
  }
}
