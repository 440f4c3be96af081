/**
  The action classes of LOCI: the types each class stamps into its buffer, and the three levels of
  dispatch that read them back (mproxy/inc/loci/src/class00.c).
 */
module LociActions {
  import opened Bytes
  import opened Wire

  /** The first four are what the dispatchers answer for types they do not know. */
  datatype ActionClass =
    | Action | ActionExperimenter | ActionNicira | ActionBsn | ActionBsnChecksum | ActionBsnGentable
    | ActionBsnMirror | ActionBsnSetTunnelDst | ActionCopyTtlIn | ActionCopyTtlOut | ActionDecMplsTtl
    | ActionDecNwTtl | ActionEnqueue | ActionGroup | ActionNiciraDecTtl | ActionOutput | ActionPopMpls
    | ActionPopPbb | ActionPopVlan | ActionPushMpls | ActionPushPbb | ActionPushVlan | ActionSetDlDst
    | ActionSetDlSrc | ActionSetField | ActionSetMplsLabel | ActionSetMplsTc | ActionSetMplsTtl
    | ActionSetNwDst | ActionSetNwEcn | ActionSetNwSrc | ActionSetNwTos | ActionSetNwTtl | ActionSetQueue
    | ActionSetTpDst | ActionSetTpSrc | ActionSetVlanPcp | ActionSetVlanVid | ActionStripVlan

  /** What `push_wire_types` of a class writes for a version; `Unsupported` is its `UNREACHABLE`. */
  function MarkOf(cls: ActionClass, v: Version): Mark {
    match cls
    case ActionBsnChecksum => Vendor32(BSN, 0x4)
    case ActionBsnGentable => if v >= 4 then Vendor32(BSN, 0x5) else Unsupported
    case ActionBsnMirror => Vendor32(BSN, 0x1)
    case ActionBsnSetTunnelDst => Vendor32(BSN, 0x2)
    case ActionCopyTtlIn => if v >= 2 then Plain(0xc) else Unsupported
    case ActionCopyTtlOut => if v >= 2 then Plain(0xb) else Unsupported
    case ActionDecMplsTtl => if v >= 2 then Plain(0x10) else Unsupported
    case ActionDecNwTtl => if v >= 2 then Plain(0x18) else Unsupported
    case ActionEnqueue => if v == 1 then Plain(0xb) else Unsupported
    case ActionGroup => if v >= 2 then Plain(0x16) else Unsupported
    case ActionNiciraDecTtl => Vendor16(NICIRA, 0x12)
    case ActionOutput => Plain(0x0)
    case ActionPopMpls => if v >= 2 then Plain(0x14) else Unsupported
    case ActionPopPbb => if v >= 4 then Plain(0x1b) else Unsupported
    case ActionPopVlan => if v >= 2 then Plain(0x12) else Unsupported
    case ActionPushMpls => if v >= 2 then Plain(0x13) else Unsupported
    case ActionPushPbb => if v >= 4 then Plain(0x1a) else Unsupported
    case ActionPushVlan => if v >= 2 then Plain(0x11) else Unsupported
    case ActionSetDlDst => if v == 1 then Plain(0x5) else if v == 2 then Plain(0x4) else Unsupported
    case ActionSetDlSrc => if v == 1 then Plain(0x4) else if v == 2 then Plain(0x3) else Unsupported
    case ActionSetField => if v >= 3 then Plain(0x19) else Unsupported
    case ActionSetMplsLabel => if v == 2 then Plain(0xd) else Unsupported
    case ActionSetMplsTc => if v == 2 then Plain(0xe) else Unsupported
    case ActionSetMplsTtl => if v >= 2 then Plain(0xf) else Unsupported
    case ActionSetNwDst => if v == 1 then Plain(0x7) else if v == 2 then Plain(0x6) else Unsupported
    case ActionSetNwEcn => if v == 2 then Plain(0x8) else Unsupported
    case ActionSetNwSrc => if v == 1 then Plain(0x6) else if v == 2 then Plain(0x5) else Unsupported
    case ActionSetNwTos => if v == 1 then Plain(0x8) else if v == 2 then Plain(0x7) else Unsupported
    case ActionSetNwTtl => if v >= 2 then Plain(0x17) else Unsupported
    case ActionSetQueue => if v >= 2 then Plain(0x15) else Unsupported
    case ActionSetTpDst => if v <= 2 then Plain(0xa) else Unsupported
    case ActionSetTpSrc => if v <= 2 then Plain(0x9) else Unsupported
    case ActionSetVlanPcp => if v <= 2 then Plain(0x2) else Unsupported
    case ActionSetVlanVid => if v <= 2 then Plain(0x1) else Unsupported
    case ActionStripVlan => if v == 1 then Plain(0x3) else Unsupported
    case _ => Unsupported
  }

  // ----- Dispatch -----

  /** The cases of `of_action_wire_object_id_get` but the last, which are different for every version. */
  function ClassOfKind(v: Version, kind: Half): ActionClass {
    if v == 1 then
      match kind
      case 0x0 => ActionOutput
      case 0x1 => ActionSetVlanVid
      case 0x2 => ActionSetVlanPcp
      case 0x3 => ActionStripVlan
      case 0x4 => ActionSetDlSrc
      case 0x5 => ActionSetDlDst
      case 0x6 => ActionSetNwSrc
      case 0x7 => ActionSetNwDst
      case 0x8 => ActionSetNwTos
      case 0x9 => ActionSetTpSrc
      case 0xa => ActionSetTpDst
      case 0xb => ActionEnqueue
      case _ => Action
    else if v == 2 then
      match kind
      case 0x0 => ActionOutput
      case 0x1 => ActionSetVlanVid
      case 0x2 => ActionSetVlanPcp
      case 0x3 => ActionSetDlSrc
      case 0x4 => ActionSetDlDst
      case 0x5 => ActionSetNwSrc
      case 0x6 => ActionSetNwDst
      case 0x7 => ActionSetNwTos
      case 0x8 => ActionSetNwEcn
      case 0x9 => ActionSetTpSrc
      case 0xa => ActionSetTpDst
      case 0xb => ActionCopyTtlOut
      case 0xc => ActionCopyTtlIn
      case 0xd => ActionSetMplsLabel
      case 0xe => ActionSetMplsTc
      case 0xf => ActionSetMplsTtl
      case 0x10 => ActionDecMplsTtl
      case 0x11 => ActionPushVlan
      case 0x12 => ActionPopVlan
      case 0x13 => ActionPushMpls
      case 0x14 => ActionPopMpls
      case 0x15 => ActionSetQueue
      case 0x16 => ActionGroup
      case 0x17 => ActionSetNwTtl
      case 0x18 => ActionDecNwTtl
      case _ => Action
    else if v == 3 then
      match kind
      case 0x0 => ActionOutput
      case 0xb => ActionCopyTtlOut
      case 0xc => ActionCopyTtlIn
      case 0xf => ActionSetMplsTtl
      case 0x10 => ActionDecMplsTtl
      case 0x11 => ActionPushVlan
      case 0x12 => ActionPopVlan
      case 0x13 => ActionPushMpls
      case 0x14 => ActionPopMpls
      case 0x15 => ActionSetQueue
      case 0x16 => ActionGroup
      case 0x17 => ActionSetNwTtl
      case 0x18 => ActionDecNwTtl
      case 0x19 => ActionSetField
      case _ => Action
    else
      match kind
      case 0x0 => ActionOutput
      case 0xb => ActionCopyTtlOut
      case 0xc => ActionCopyTtlIn
      case 0xf => ActionSetMplsTtl
      case 0x10 => ActionDecMplsTtl
      case 0x11 => ActionPushVlan
      case 0x12 => ActionPopVlan
      case 0x13 => ActionPushMpls
      case 0x14 => ActionPopMpls
      case 0x15 => ActionSetQueue
      case 0x16 => ActionGroup
      case 0x17 => ActionSetNwTtl
      case 0x18 => ActionDecNwTtl
      case 0x19 => ActionSetField
      case 0x1a => ActionPushPbb
      case 0x1b => ActionPopPbb
      case _ => Action
  }

  /** `of_action_nicira_wire_object_id_get` */
  function NiciraClass(v: Version, buf: seq<Byte>): ActionClass
    requires |buf| >= 10
  {
    if U16(buf, 8) == 0x12 then ActionNiciraDecTtl else ActionNicira
  }

  /** `of_action_bsn_wire_object_id_get` */
  function BsnClass(v: Version, buf: seq<Byte>): ActionClass
    requires |buf| >= 12
  {
    if v <= 3 then
      match U32(buf, 8)
      case 0x1 => ActionBsnMirror
      case 0x2 => ActionBsnSetTunnelDst
      case 0x4 => ActionBsnChecksum
      case _ => ActionBsn
    else
      match U32(buf, 8)
      case 0x1 => ActionBsnMirror
      case 0x2 => ActionBsnSetTunnelDst
      case 0x4 => ActionBsnChecksum
      case 0x5 => ActionBsnGentable
      case _ => ActionBsn
  }

  /** The dispatchers of vendor actions only read bytes of the buffer. */
  predicate VendorWithin(buf: seq<Byte>) {
    && |buf| >= 8
    && (U32(buf, 4) == NICIRA ==> |buf| >= 10)
    && (U32(buf, 4) == BSN ==> |buf| >= 12)
  }

  /** `of_action_experimenter_wire_object_id_get` */
  function ExperimenterClass(v: Version, buf: seq<Byte>): ActionClass
    requires VendorWithin(buf)
  {
    if U32(buf, 4) == NICIRA then NiciraClass(v, buf)
    else if U32(buf, 4) == BSN then BsnClass(v, buf)
    else ActionExperimenter
  }

  /** The dispatchers only read bytes of the buffer. */
  predicate Within(buf: seq<Byte>) {
    |buf| >= 2 && (U16(buf, 0) == VENDOR ==> VendorWithin(buf))
  }

  /** `of_action_wire_object_id_get` */
  function Classify(v: Version, buf: seq<Byte>): ActionClass
    requires Within(buf)
  {
    if U16(buf, 0) == VENDOR then ExperimenterClass(v, buf) else ClassOfKind(v, U16(buf, 0))
  }

  // ----- Round trip -----

  lemma PlainForward(cls: ActionClass, v: Version)
    requires MarkOf(cls, v).Plain?
    ensures MarkOf(cls, v).kind != VENDOR && ClassOfKind(v, MarkOf(cls, v).kind) == cls
  {
  }

  lemma PlainBackward(v: Version, kind: Half)
    requires kind != VENDOR && MarkOf(ClassOfKind(v, kind), v) != Unsupported
    ensures MarkOf(ClassOfKind(v, kind), v) == Plain(kind)
  {
  }

  lemma VendorAgrees(cls: ActionClass, v: Version, buf: seq<Byte>)
    requires MarkOf(cls, v) != Unsupported && |buf| >= Extent(MarkOf(cls, v)) && U16(buf, 0) == VENDOR
    ensures Bears(buf, MarkOf(cls, v)) <==> VendorWithin(buf) && ExperimenterClass(v, buf) == cls
  {
  }

  /** The buffer of a class bears its mark exactly if the dispatchers answer with that class. */
  lemma BearsIffClassified(cls: ActionClass, v: Version, buf: seq<Byte>)
    requires MarkOf(cls, v) != Unsupported && |buf| >= Extent(MarkOf(cls, v))
    ensures Bears(buf, MarkOf(cls, v)) <==> Within(buf) && Classify(v, buf) == cls
  {
    if U16(buf, 0) == VENDOR {
      VendorAgrees(cls, v, buf);
    } else {
      if MarkOf(cls, v).Plain? {
        PlainForward(cls, v);
      }
      if Classify(v, buf) == cls {
        PlainBackward(v, U16(buf, 0));
      }
    }
  }

  /** What the dispatchers answer for bytes that no class stamps: the class of the level they get to. */
  function BaseOf(buf: seq<Byte>): ActionClass
    requires Within(buf)
  {
    if U16(buf, 0) != 0xffff then Action
    else if U32(buf, 4) == 0x2320 then ActionNicira
    else if U32(buf, 4) == 0x5c16c7 then ActionBsn
    else ActionExperimenter
  }

  lemma KindBase(v: Version, kind: Half)
    requires MarkOf(ClassOfKind(v, kind), v) == Unsupported
    ensures ClassOfKind(v, kind) == Action
  {
  }

  /** Every answer of the root dispatcher: the class whose types the buffer bears, and without one the class of
      the level that was reached. */
  lemma Dispatch(v: Version, buf: seq<Byte>, cls: ActionClass)
    requires Within(buf)
    ensures MarkOf(cls, v) != Unsupported && |buf| >= Extent(MarkOf(cls, v)) && Bears(buf, MarkOf(cls, v)) ==>
              Classify(v, buf) == cls
    ensures var c := Classify(v, buf);
            if MarkOf(c, v) == Unsupported then c == BaseOf(buf)
            else |buf| >= Extent(MarkOf(c, v)) && Bears(buf, MarkOf(c, v))
  {
    if MarkOf(cls, v) != Unsupported && |buf| >= Extent(MarkOf(cls, v)) {
      BearsIffClassified(cls, v, buf);
    }
    var c := Classify(v, buf);
    if U16(buf, 0) != VENDOR {
      if MarkOf(c, v) == Unsupported {
        KindBase(v, U16(buf, 0));
      } else {
        PlainBackward(v, U16(buf, 0));
      }
    } else if MarkOf(c, v) != Unsupported {
      VendorReach(v, buf);
      BearsIffClassified(c, v, buf);
    }
  }

  lemma VendorReach(v: Version, buf: seq<Byte>)
    requires VendorWithin(buf) && MarkOf(ExperimenterClass(v, buf), v) != Unsupported
    ensures |buf| >= Extent(MarkOf(ExperimenterClass(v, buf), v))
  {
  }

  /** So bytes that bear the types of no class get the class of the level that was reached. */
  lemma UnknownDispatch(v: Version, buf: seq<Byte>)
    requires Within(buf)
    requires forall cls :: MarkOf(cls, v) != Unsupported && |buf| >= Extent(MarkOf(cls, v)) ==>
               !Bears(buf, MarkOf(cls, v))
    ensures Classify(v, buf) == BaseOf(buf)
  {
    Dispatch(v, buf, Classify(v, buf));
  }

  /** Stamp and classify: whatever the buffer held, once the types of a class have been stamped the
      root dispatcher answers with that class, through all levels; every byte but those of the type
      fields is untouched. Conversely, when it answers with the class, the stamp is already there. */
  lemma StampClassify(cls: ActionClass, v: Version, buf: seq<Byte>)
    requires MarkOf(cls, v) != Unsupported && |buf| >= Extent(MarkOf(cls, v))
    ensures var stamped := Stamped(buf, MarkOf(cls, v));
            && Within(stamped) && Classify(v, stamped) == cls
            && (forall i :: 0 <= i < |buf| && !TypeByte(MarkOf(cls, v), i) ==> stamped[i] == buf[i])
            && (Within(buf) && Classify(v, buf) == cls <==> stamped == buf)
  {
    var mark := MarkOf(cls, v);
    StampBears(buf, mark);
    BearsIffClassified(cls, v, buf);
    BearsIffClassified(cls, v, Stamped(buf, mark));
    if Bears(buf, mark) {
      StampAgain(buf, mark);
    }
  }

  /** No two classes stamp the same types. */
  lemma MarksDiffer(a: ActionClass, b: ActionClass, v: Version, buf: seq<Byte>)
    requires a != b && MarkOf(a, v) != Unsupported && MarkOf(b, v) != Unsupported
    requires |buf| >= Extent(MarkOf(a, v)) && |buf| >= Extent(MarkOf(b, v))
    ensures Stamped(buf, MarkOf(a, v)) != Stamped(buf, MarkOf(b, v))
  {
    StampClassify(a, v, buf);
    StampClassify(b, v, buf);
  }

  /** `push_wire_types` of a class, on an object's buffer. */
  method PushWireTypes(buf: array<Byte>, cls: ActionClass, v: Version)
    requires MarkOf(cls, v) != Unsupported && buf.Length >= Extent(MarkOf(cls, v))
    modifies buf
    ensures buf[..] == Stamped(old(buf[..]), MarkOf(cls, v)) && Within(buf[..]) && Classify(v, buf[..]) == cls
  {
    StampClassify(cls, v, buf[..]);
    Push(buf, MarkOf(cls, v));
  }
}
