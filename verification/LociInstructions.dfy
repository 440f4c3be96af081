/**
  The instruction classes of LOCI, in the same way (mproxy/inc/loci/src/class04.c,
  mproxy/inc/loci/src/class15.c).
 */
module LociInstructions {
  import opened Bytes
  import opened Wire

  datatype InstructionClass =
    | Instruction | InstructionExperimenter | InstructionBsn | InstructionApplyActions
    | InstructionBsnArpOffload | InstructionBsnAutoNegotiation | InstructionBsnDeny | InstructionBsnDhcpOffload
    | InstructionBsnDisableL3 | InstructionBsnDisableSplitHorizonCheck | InstructionBsnDisableSrcMacCheck
    | InstructionBsnDisableVlanCounters | InstructionBsnInternalPriority | InstructionBsnPacketOfDeath
    | InstructionBsnPermit | InstructionBsnPrioritizePdus | InstructionBsnRequireVlanXlate
    | InstructionBsnSpanDestination | InstructionClearActions | InstructionGotoTable | InstructionMeter
    | InstructionWriteActions | InstructionWriteMetadata

  /** There are instructions from version 1.1 (2) on. */
  type InstructionVersion = v: Version | v >= 2 witness 2

  /** What `push_wire_types` of a class writes for a version; `Unsupported` is its `UNREACHABLE`. */
  function MarkOf(cls: InstructionClass, v: InstructionVersion): Mark {
    match cls
    case InstructionApplyActions => Plain(0x4)
    case InstructionBsnArpOffload => if v >= 4 then Vendor32(BSN, 0x1) else Unsupported
    case InstructionBsnAutoNegotiation => if v >= 4 then Vendor32(BSN, 0xb) else Unsupported
    case InstructionBsnDeny => if v >= 4 then Vendor32(BSN, 0x5) else Unsupported
    case InstructionBsnDhcpOffload => if v >= 4 then Vendor32(BSN, 0x2) else Unsupported
    case InstructionBsnDisableL3 => if v >= 4 then Vendor32(BSN, 0xd) else Unsupported
    case InstructionBsnDisableSplitHorizonCheck => if v == 4 then Vendor32(BSN, 0x3) else Unsupported
    case InstructionBsnDisableSrcMacCheck => if v >= 4 then Vendor32(BSN, 0x0) else Unsupported
    case InstructionBsnDisableVlanCounters => if v >= 4 then Vendor32(BSN, 0x9) else Unsupported
    case InstructionBsnInternalPriority => if v >= 4 then Vendor32(BSN, 0xc) else Unsupported
    case InstructionBsnPacketOfDeath => if v >= 4 then Vendor32(BSN, 0x6) else Unsupported
    case InstructionBsnPermit => if v >= 4 then Vendor32(BSN, 0x4) else Unsupported
    case InstructionBsnPrioritizePdus => if v >= 4 then Vendor32(BSN, 0x7) else Unsupported
    case InstructionBsnRequireVlanXlate => if v >= 4 then Vendor32(BSN, 0x8) else Unsupported
    case InstructionBsnSpanDestination => if v >= 4 then Vendor32(BSN, 0xa) else Unsupported
    case InstructionClearActions => Plain(0x5)
    case InstructionGotoTable => Plain(0x1)
    case InstructionMeter => if v >= 4 then Plain(0x6) else Unsupported
    case InstructionWriteActions => Plain(0x3)
    case InstructionWriteMetadata => Plain(0x2)
    case _ => Unsupported
  }

  // ----- Dispatch -----

  /** The cases of `of_instruction_wire_object_id_get` but the last. */
  function ClassOfKind(v: InstructionVersion, kind: Half): InstructionClass {
    if v <= 3 then
      match kind
      case 0x1 => InstructionGotoTable
      case 0x2 => InstructionWriteMetadata
      case 0x3 => InstructionWriteActions
      case 0x4 => InstructionApplyActions
      case 0x5 => InstructionClearActions
      case _ => Instruction
    else
      match kind
      case 0x1 => InstructionGotoTable
      case 0x2 => InstructionWriteMetadata
      case 0x3 => InstructionWriteActions
      case 0x4 => InstructionApplyActions
      case 0x5 => InstructionClearActions
      case 0x6 => InstructionMeter
      case _ => Instruction
  }

  /** `of_instruction_bsn_wire_object_id_get`; in version 1.4 (5) one subtype is gone. */
  function BsnClass(v: InstructionVersion, buf: seq<Byte>): InstructionClass
    requires |buf| >= 12
  {
    match U32(buf, 8)
    case 0x0 => InstructionBsnDisableSrcMacCheck
    case 0x1 => InstructionBsnArpOffload
    case 0x2 => InstructionBsnDhcpOffload
    case 0x3 => if v == 4 then InstructionBsnDisableSplitHorizonCheck else InstructionBsn
    case 0x4 => InstructionBsnPermit
    case 0x5 => InstructionBsnDeny
    case 0x6 => InstructionBsnPacketOfDeath
    case 0x7 => InstructionBsnPrioritizePdus
    case 0x8 => InstructionBsnRequireVlanXlate
    case 0x9 => InstructionBsnDisableVlanCounters
    case 0xa => InstructionBsnSpanDestination
    case 0xb => InstructionBsnAutoNegotiation
    case 0xc => InstructionBsnInternalPriority
    case 0xd => InstructionBsnDisableL3
    case _ => InstructionBsn
  }

  /** The dispatchers of vendor instructions only read bytes of the buffer. */
  predicate VendorWithin(v: InstructionVersion, buf: seq<Byte>) {
    |buf| >= 8 && (v >= 4 && U32(buf, 4) == BSN ==> |buf| >= 12)
  }

  /** `of_instruction_experimenter_wire_object_id_get` */
  function ExperimenterClass(v: InstructionVersion, buf: seq<Byte>): InstructionClass
    requires VendorWithin(v, buf)
  {
    if v >= 4 && U32(buf, 4) == BSN then BsnClass(v, buf) else InstructionExperimenter
  }

  /** The dispatchers only read bytes of the buffer. */
  predicate Within(v: InstructionVersion, buf: seq<Byte>) {
    |buf| >= 2 && (U16(buf, 0) == VENDOR ==> VendorWithin(v, buf))
  }

  /** `of_instruction_wire_object_id_get` */
  function Classify(v: InstructionVersion, buf: seq<Byte>): InstructionClass
    requires Within(v, buf)
  {
    if U16(buf, 0) == VENDOR then ExperimenterClass(v, buf) else ClassOfKind(v, U16(buf, 0))
  }

  // ----- Round trip -----

  /** The buffer of a class bears its mark exactly if the dispatchers answer with that class. */
  lemma BearsIffClassified(cls: InstructionClass, v: InstructionVersion, buf: seq<Byte>)
    requires MarkOf(cls, v) != Unsupported && |buf| >= Extent(MarkOf(cls, v))
    ensures Bears(buf, MarkOf(cls, v)) <==> Within(v, buf) && Classify(v, buf) == cls
  {
  }

  /** What the dispatchers answer for bytes that no class stamps: the class of the level they get to. There are
      vendor instructions from version 1.3 (4) on. */
  function BaseOf(v: InstructionVersion, buf: seq<Byte>): InstructionClass
    requires Within(v, buf)
  {
    if U16(buf, 0) != 0xffff then Instruction
    else if v >= 4 && U32(buf, 4) == 0x5c16c7 then InstructionBsn
    else InstructionExperimenter
  }

  lemma AnswerReach(v: InstructionVersion, buf: seq<Byte>)
    requires Within(v, buf)
    ensures var c := Classify(v, buf);
            if MarkOf(c, v) == Unsupported then c == BaseOf(v, buf) else |buf| >= Extent(MarkOf(c, v))
  {
  }

  /** Every answer of the root dispatcher: the class whose types the buffer bears, and without one the class of
      the level that was reached. */
  lemma Dispatch(v: InstructionVersion, buf: seq<Byte>, cls: InstructionClass)
    requires Within(v, buf)
    ensures MarkOf(cls, v) != Unsupported && |buf| >= Extent(MarkOf(cls, v)) && Bears(buf, MarkOf(cls, v)) ==>
              Classify(v, buf) == cls
    ensures var c := Classify(v, buf);
            if MarkOf(c, v) == Unsupported then c == BaseOf(v, buf)
            else |buf| >= Extent(MarkOf(c, v)) && Bears(buf, MarkOf(c, v))
  {
    if MarkOf(cls, v) != Unsupported && |buf| >= Extent(MarkOf(cls, v)) {
      BearsIffClassified(cls, v, buf);
    }
    var c := Classify(v, buf);
    AnswerReach(v, buf);
    if MarkOf(c, v) != Unsupported {
      BearsIffClassified(c, v, buf);
    }
  }

  /** So bytes that bear the types of no class get the class of the level that was reached. */
  lemma UnknownDispatch(v: InstructionVersion, buf: seq<Byte>)
    requires Within(v, buf)
    requires forall cls :: MarkOf(cls, v) != Unsupported && |buf| >= Extent(MarkOf(cls, v)) ==>
               !Bears(buf, MarkOf(cls, v))
    ensures Classify(v, buf) == BaseOf(v, buf)
  {
    Dispatch(v, buf, Classify(v, buf));
  }

  /** Stamp and classify: whatever the buffer held, once the types of a class have been stamped the
      root dispatcher answers with that class, through all levels; every byte but those of the type
      fields is untouched. Conversely, when it answers with the class, the stamp is already there. */
  lemma StampClassify(cls: InstructionClass, v: InstructionVersion, buf: seq<Byte>)
    requires MarkOf(cls, v) != Unsupported && |buf| >= Extent(MarkOf(cls, v))
    ensures var stamped := Stamped(buf, MarkOf(cls, v));
            && Within(v, stamped) && Classify(v, stamped) == cls
            && (forall i :: 0 <= i < |buf| && !TypeByte(MarkOf(cls, v), i) ==> stamped[i] == buf[i])
            && (Within(v, buf) && Classify(v, buf) == cls <==> stamped == buf)
  {
    var mark := MarkOf(cls, v);
    StampBears(buf, mark);
    BearsIffClassified(cls, v, buf);
    BearsIffClassified(cls, v, Stamped(buf, mark));
    if Bears(buf, mark) {
      StampAgain(buf, mark);
    }
  }

  /** No two classes stamp the same types. */
  lemma MarksDiffer(a: InstructionClass, b: InstructionClass, v: InstructionVersion, buf: seq<Byte>)
    requires a != b && MarkOf(a, v) != Unsupported && MarkOf(b, v) != Unsupported
    requires |buf| >= Extent(MarkOf(a, v)) && |buf| >= Extent(MarkOf(b, v))
    ensures Stamped(buf, MarkOf(a, v)) != Stamped(buf, MarkOf(b, v))
  {
    StampClassify(a, v, buf);
    StampClassify(b, v, buf);
  }

  /** `push_wire_types` of a class, on an object's buffer. */
  method PushWireTypes(buf: array<Byte>, cls: InstructionClass, v: InstructionVersion)
    requires MarkOf(cls, v) != Unsupported && buf.Length >= Extent(MarkOf(cls, v))
    modifies buf
    ensures buf[..] == Stamped(old(buf[..]), MarkOf(cls, v)) && Within(v, buf[..]) && Classify(v, buf[..]) == cls
  {
    StampClassify(cls, v, buf[..]);
    Push(buf, MarkOf(cls, v));
  }
}
