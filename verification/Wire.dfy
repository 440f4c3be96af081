/**
  Type fields of OpenFlow objects in wire buffers, as the generated LOCI classes write them
  (mproxy/inc/loci/src/class00.c and its neighbours): big-endian numbers at fixed places.
 */
module Wire {
  import opened Bytes

  type Version = v: int | 1 <= v <= 5 witness 1

  const VENDOR := 0xffff
  const NICIRA: Word := 0x2320
  const BSN: Word := 0x5c16c7

  /** What `push_wire_types` of a class writes: the type at 0, and for vendor objects also the
      experimenter at 4 and the subtype at 8. */
  datatype Mark = Unsupported | Plain(kind: Half) | Vendor16(vendor: Word, sub: Half)
      | Vendor32(vendor: Word, subtype: Word)

  /** The bytes that the type fields of a mark take up, with what lies between them. */
  function Extent(mark: Mark): nat {
    match mark
    case Unsupported => 0
    case Plain(_) => 2
    case Vendor16(_, _) => 10
    case Vendor32(_, _) => 12
  }

  function U16(buf: seq<Byte>, at: nat): Half
    requires at + 2 <= |buf|
  {
    0x100 * (buf[at] as int) + buf[at + 1] as int
  }

  function U32(buf: seq<Byte>, at: nat): Word
    requires at + 4 <= |buf|
  {
    0x1_0000 * (U16(buf, at) as int) + U16(buf, at + 2) as int
  }

  function Put16(buf: seq<Byte>, at: nat, x: Half): (more: seq<Byte>)
    requires at + 2 <= |buf|
    ensures |more| == |buf| && U16(more, at) == x
    ensures forall i :: 0 <= i < |buf| && i != at && i != at + 1 ==> more[i] == buf[i]
  {
    buf[at := x / 0x100][at + 1 := x % 0x100]
  }

  function Put32(buf: seq<Byte>, at: nat, x: Word): (more: seq<Byte>)
    requires at + 4 <= |buf|
    ensures |more| == |buf| && U32(more, at) == x
    ensures forall i :: 0 <= i < |buf| && !(at <= i < at + 4) ==> more[i] == buf[i]
  {
    Put16(Put16(buf, at, x / 0x1_0000), at + 2, x % 0x1_0000)
  }

  function Stamped(buf: seq<Byte>, mark: Mark): (more: seq<Byte>)
    requires |buf| >= Extent(mark)
    ensures |more| == |buf|
  {
    match mark
    case Unsupported => buf
    case Plain(kind) => Put16(buf, 0, kind)
    case Vendor16(vendor, sub) => Put16(Put32(Put16(buf, 0, VENDOR), 4, vendor), 8, sub)
    case Vendor32(vendor, subtype) => Put32(Put32(Put16(buf, 0, VENDOR), 4, vendor), 8, subtype)
  }

  /** The type fields hold the mark. */
  predicate Bears(buf: seq<Byte>, mark: Mark)
    requires |buf| >= Extent(mark)
  {
    match mark
    case Unsupported => true
    case Plain(kind) => U16(buf, 0) == kind
    case Vendor16(vendor, sub) => U16(buf, 0) == VENDOR && U32(buf, 4) == vendor && U16(buf, 8) == sub
    case Vendor32(vendor, subtype) => U16(buf, 0) == VENDOR && U32(buf, 4) == vendor && U32(buf, 8) == subtype
  }

  /** Byte `i` belongs to the type fields that the mark writes. */
  predicate TypeByte(mark: Mark, i: nat) {
    match mark
    case Unsupported => false
    case Plain(_) => i < 2
    case Vendor16(_, _) => i < 2 || 4 <= i < 10
    case Vendor32(_, _) => i < 2 || 4 <= i < 12
  }

  /** Whatever the buffer held before, it bears the mark afterwards; every byte that does not belong to
      the type fields stays as it was. */
  lemma StampBears(buf: seq<Byte>, mark: Mark)
    requires |buf| >= Extent(mark)
    ensures Bears(Stamped(buf, mark), mark)
    ensures forall i :: 0 <= i < |buf| && !TypeByte(mark, i) ==> Stamped(buf, mark)[i] == buf[i]
  {
  }

  lemma SameHalf(buf: seq<Byte>, at: nat, x: Half)
    requires at + 2 <= |buf| && U16(buf, at) == x
    ensures Put16(buf, at, x) == buf
  {
  }

  lemma SameWord(buf: seq<Byte>, at: nat, x: Word)
    requires at + 4 <= |buf| && U32(buf, at) == x
    ensures Put32(buf, at, x) == buf
  {
    SameHalf(buf, at, x / 0x1_0000);
    SameHalf(buf, at + 2, x % 0x1_0000);
  }

  /** Stamping a buffer that bears the mark changes nothing. */
  lemma StampAgain(buf: seq<Byte>, mark: Mark)
    requires |buf| >= Extent(mark) && Bears(buf, mark)
    ensures Stamped(buf, mark) == buf
  {
    match mark
    case Unsupported =>
    case Plain(kind) => SameHalf(buf, 0, kind);
    case Vendor16(vendor, sub) =>
      SameHalf(buf, 0, VENDOR);
      SameWord(buf, 4, vendor);
      SameHalf(buf, 8, sub);
    case Vendor32(vendor, subtype) =>
      SameHalf(buf, 0, VENDOR);
      SameWord(buf, 4, vendor);
      SameWord(buf, 8, subtype);
  }

  // ----- The writes, in place -----

  method Store16(buf: array<Byte>, at: nat, x: Half)
    requires at + 2 <= buf.Length
    modifies buf
    ensures buf[..] == Put16(old(buf[..]), at, x)
  {
    buf[at] := x / 0x100;
    buf[at + 1] := x % 0x100;
  }

  method Store32(buf: array<Byte>, at: nat, x: Word)
    requires at + 4 <= buf.Length
    modifies buf
    ensures buf[..] == Put32(old(buf[..]), at, x)
  {
    Store16(buf, at, x / 0x1_0000);
    Store16(buf, at + 2, x % 0x1_0000);
  }

  /** The writes of a `push_wire_types` function. */
  method Push(buf: array<Byte>, mark: Mark)
    requires buf.Length >= Extent(mark) && mark != Unsupported
    modifies buf
    ensures buf[..] == Stamped(old(buf[..]), mark)
  {
    match mark {
      case Plain(kind) =>
        Store16(buf, 0, kind);
      case Vendor16(vendor, sub) =>
        Store16(buf, 0, VENDOR);
        Store32(buf, 4, vendor);
        Store16(buf, 8, sub);
      case Vendor32(vendor, subtype) =>
        Store16(buf, 0, VENDOR);
        Store32(buf, 4, vendor);
        Store32(buf, 8, subtype);
    }
  }
}
