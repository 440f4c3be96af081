/**
  The message classes of LOCI: the types each class stamps into its buffer, and the up to four levels of
  dispatch that read them back (mproxy/inc/loci/src/class00.c to class04.c).
 */
module LociHeaders {
  import opened Bytes
  import opened Wire

  // ----- Classes -----

  // Family by family; the first class of each is what its dispatcher answers for types it does not know.

  datatype ErrorClass =
    | ErrorMsg | AsyncConfigFailedErrorMsg | BadActionErrorMsg | BadInstructionErrorMsg | BadMatchErrorMsg
    | BadPropertyErrorMsg | BadRequestErrorMsg | BundleFailedErrorMsg | ExperimenterErrorMsg
    | FlowModFailedErrorMsg | FlowMonitorFailedErrorMsg | GroupModFailedErrorMsg | HelloFailedErrorMsg
    | MeterModFailedErrorMsg | PortModFailedErrorMsg | QueueOpFailedErrorMsg | RoleRequestFailedErrorMsg
    | SwitchConfigFailedErrorMsg | TableFeaturesFailedErrorMsg | TableModFailedErrorMsg

  datatype NiciraClass =
    | NiciraHeader | NiciraControllerRoleReply | NiciraControllerRoleRequest

  datatype BsnClass =
    | BsnHeader | BsnArpIdle | BsnBwClearDataReply | BsnBwClearDataRequest | BsnBwEnableGetReply
    | BsnBwEnableGetRequest | BsnBwEnableSetReply | BsnBwEnableSetRequest | BsnControllerConnectionsReply
    | BsnControllerConnectionsRequest | BsnFlowIdle | BsnFlowIdleEnableGetReply | BsnFlowIdleEnableGetRequest
    | BsnFlowIdleEnableSetReply | BsnFlowIdleEnableSetRequest | BsnGentableClearReply | BsnGentableClearRequest
    | BsnGentableEntryAdd | BsnGentableEntryDelete | BsnGentableSetBucketsSize | BsnGetInterfacesReply
    | BsnGetInterfacesRequest | BsnGetIpMaskReply | BsnGetIpMaskRequest | BsnGetL2TableReply
    | BsnGetL2TableRequest | BsnGetMirroringReply | BsnGetMirroringRequest | BsnGetSwitchPipelineReply
    | BsnGetSwitchPipelineRequest | BsnHybridGetReply | BsnHybridGetRequest | BsnLacpConvergenceNotif | BsnLog
    | BsnLuaCommandReply | BsnLuaCommandRequest | BsnLuaNotification | BsnLuaUpload | BsnPduRxReply
    | BsnPduRxRequest | BsnPduRxTimeout | BsnPduTxReply | BsnPduTxRequest | BsnRoleStatus | BsnSetAuxCxnsReply
    | BsnSetAuxCxnsRequest | BsnSetIpMask | BsnSetL2TableReply | BsnSetL2TableRequest | BsnSetLacpReply
    | BsnSetLacpRequest | BsnSetMirroring | BsnSetPktinSuppressionReply | BsnSetPktinSuppressionRequest
    | BsnSetSwitchPipelineReply | BsnSetSwitchPipelineRequest | BsnShellCommand | BsnShellOutput
    | BsnShellStatus | BsnTableSetBucketsSize | BsnTimeReply | BsnTimeRequest | BsnVirtualPortCreateReply
    | BsnVirtualPortCreateRequest | BsnVirtualPortRemoveReply | BsnVirtualPortRemoveRequest

  datatype FlowClass =
    | FlowMod | FlowAdd | FlowDelete | FlowDeleteStrict | FlowModify | FlowModifyStrict

  datatype GroupClass =
    | GroupMod | GroupAdd | GroupDelete | GroupModify

  datatype RequestClass =
    | StatsRequest | AggregateStatsRequest | DescStatsRequest | FlowStatsRequest | GroupDescStatsRequest
    | GroupFeaturesStatsRequest | GroupStatsRequest | MeterConfigStatsRequest | MeterFeaturesStatsRequest
    | MeterStatsRequest | PortDescStatsRequest | PortStatsRequest | QueueDescStatsRequest | QueueStatsRequest
    | TableDescStatsRequest | TableFeaturesStatsRequest | TableStatsRequest

  datatype BsnRequestClass =
    | BsnStatsRequest | BsnDebugCounterDescStatsRequest | BsnDebugCounterStatsRequest
    | BsnFlowChecksumBucketStatsRequest | BsnGenericStatsRequest | BsnGentableBucketStatsRequest
    | BsnGentableDescStatsRequest | BsnGentableEntryDescStatsRequest | BsnGentableEntryStatsRequest
    | BsnGentableStatsRequest | BsnImageDescStatsRequest | BsnLacpStatsRequest | BsnPortCounterStatsRequest
    | BsnSwitchPipelineStatsRequest | BsnTableChecksumStatsRequest | BsnVlanCounterStatsRequest
    | BsnVrfCounterStatsRequest

  datatype ReplyClass =
    | StatsReply | AggregateStatsReply | DescStatsReply | FlowStatsReply | GroupDescStatsReply
    | GroupFeaturesStatsReply | GroupStatsReply | MeterConfigStatsReply | MeterFeaturesStatsReply
    | MeterStatsReply | PortDescStatsReply | PortStatsReply | QueueDescStatsReply | QueueStatsReply
    | TableDescStatsReply | TableFeaturesStatsReply | TableStatsReply

  datatype BsnReplyClass =
    | BsnStatsReply | BsnDebugCounterDescStatsReply | BsnDebugCounterStatsReply
    | BsnFlowChecksumBucketStatsReply | BsnGenericStatsReply | BsnGentableBucketStatsReply
    | BsnGentableDescStatsReply | BsnGentableEntryDescStatsReply | BsnGentableEntryStatsReply
    | BsnGentableStatsReply | BsnImageDescStatsReply | BsnLacpStatsReply | BsnPortCounterStatsReply
    | BsnSwitchPipelineStatsReply | BsnTableChecksumStatsReply | BsnVlanCounterStatsReply
    | BsnVrfCounterStatsReply

  datatype CoreClass =
    | Header | AsyncGetReply | AsyncGetRequest | AsyncSet | BarrierReply | BarrierRequest | BundleAddMsg
    | BundleCtrlMsg | EchoReply | EchoRequest | FeaturesReply | FeaturesRequest | FlowRemoved | GetConfigReply
    | GetConfigRequest | Hello | MeterMod | PacketIn | PacketOut | PortMod | PortStatus | QueueGetConfigReply
    | QueueGetConfigRequest | Requestforward | RoleReply | RoleRequest | RoleStatus | SetConfig | TableMod
    | TableStatus

  datatype HeaderClass =
    | Core(core: CoreClass) | Error(error: ErrorClass) | Flow(flow: FlowClass) | Group(group: GroupClass)
    | Experimenter | Nicira(nicira: NiciraClass) | Bsn(bsn: BsnClass)
    | Request(request: RequestClass) | ExperimenterRequest | BsnRequest(bsnRequest: BsnRequestClass)
    | Reply(reply: ReplyClass) | ExperimenterReply | BsnReply(bsnReply: BsnReplyClass)

  // ----- Stamps -----

  /** What `push_wire_types` of a message writes behind the version at 0: the type at 1, and a subtype
      at 8; for vendor messages an experimenter at 8 and a subtype at 12; for vendor statistics the type
      of all vendors at 8, an experimenter at 16 and a subtype at 20; for flow modifications a command
      at 25, or at 56 in version 1.0. `Absent` is the `UNREACHABLE` of versions without the class. */
  datatype HeaderMark =
    | Absent
    | Simple(kind: Byte)
    | Sub(kind: Byte, sub: Half)
    | Vendor(kind: Byte, vendor: Word, subtype: Word)
    | VendorStats(kind: Byte, vendor: Word, subtype: Word)
    | Command(kind: Byte, command: Byte)
    | LateCommand(kind: Byte, sub: Half)

  function ErrorMark(cls: ErrorClass, v: Version): HeaderMark {
    match cls
    case AsyncConfigFailedErrorMsg => if v == 5 then Sub(0x1, 0xf) else Absent
    case BadActionErrorMsg => Sub(0x1, 0x2)
    case BadInstructionErrorMsg => if v >= 2 then Sub(0x1, 0x3) else Absent
    case BadMatchErrorMsg => if v >= 2 then Sub(0x1, 0x4) else Absent
    case BadPropertyErrorMsg => if v == 5 then Sub(0x1, 0xe) else Absent
    case BadRequestErrorMsg => Sub(0x1, 0x1)
    case BundleFailedErrorMsg => if v == 5 then Sub(0x1, 0x11) else Absent
    case ExperimenterErrorMsg => if v >= 3 then Sub(0x1, 0xffff) else Absent
    case FlowModFailedErrorMsg => if v == 1 then Sub(0x1, 0x3) else Sub(0x1, 0x5)
    case FlowMonitorFailedErrorMsg => if v == 5 then Sub(0x1, 0x10) else Absent
    case GroupModFailedErrorMsg => if v >= 2 then Sub(0x1, 0x6) else Absent
    case HelloFailedErrorMsg => Sub(0x1, 0x0)
    case MeterModFailedErrorMsg => if v >= 4 then Sub(0x1, 0xc) else Absent
    case PortModFailedErrorMsg => if v == 1 then Sub(0x1, 0x4) else Sub(0x1, 0x7)
    case QueueOpFailedErrorMsg => if v == 1 then Sub(0x1, 0x5) else Sub(0x1, 0x9)
    case RoleRequestFailedErrorMsg => if v >= 3 then Sub(0x1, 0xb) else Absent
    case SwitchConfigFailedErrorMsg => if v >= 2 then Sub(0x1, 0xa) else Absent
    case TableFeaturesFailedErrorMsg => if v >= 4 then Sub(0x1, 0xd) else Absent
    case TableModFailedErrorMsg => if v >= 2 then Sub(0x1, 0x8) else Absent
    case ErrorMsg => Absent
  }

  function NiciraMark(cls: NiciraClass, v: Version): HeaderMark {
    match cls
    case NiciraControllerRoleReply => if v == 1 then Vendor(0x4, NICIRA, 0xb) else Absent
    case NiciraControllerRoleRequest => if v == 1 then Vendor(0x4, NICIRA, 0xa) else Absent
    case NiciraHeader => Absent
  }

  /** The subtype of a vendor message; -1 in versions without the class. */
  function BsnSubtype(cls: BsnClass, v: Version): int {
    match cls
    case BsnArpIdle => if v >= 4 then 0x3c else -1
    case BsnBwClearDataReply => 0x16
    case BsnBwClearDataRequest => 0x15
    case BsnBwEnableGetReply => 0x14
    case BsnBwEnableGetRequest => 0x13
    case BsnBwEnableSetReply => 0x17
    case BsnBwEnableSetRequest => 0x12
    case BsnControllerConnectionsReply => if v >= 4 then 0x39 else -1
    case BsnControllerConnectionsRequest => if v >= 4 then 0x38 else -1
    case BsnFlowIdle => if v >= 4 then 0x28 else -1
    case BsnFlowIdleEnableGetReply => if v >= 4 then 0x27 else -1
    case BsnFlowIdleEnableGetRequest => if v >= 4 then 0x26 else -1
    case BsnFlowIdleEnableSetReply => if v >= 4 then 0x25 else -1
    case BsnFlowIdleEnableSetRequest => if v >= 4 then 0x24 else -1
    case BsnGentableClearReply => if v >= 4 then 0x31 else -1
    case BsnGentableClearRequest => if v >= 4 then 0x30 else -1
    case BsnGentableEntryAdd => if v >= 4 then 0x2e else -1
    case BsnGentableEntryDelete => if v >= 4 then 0x2f else -1
    case BsnGentableSetBucketsSize => if v >= 4 then 0x32 else -1
    case BsnGetInterfacesReply => 0xa
    case BsnGetInterfacesRequest => 0x9
    case BsnGetIpMaskReply => if v == 1 then 0x2 else -1
    case BsnGetIpMaskRequest => if v == 1 then 0x1 else -1
    case BsnGetL2TableReply => if v == 1 then 0xe else -1
    case BsnGetL2TableRequest => if v == 1 then 0xd else -1
    case BsnGetMirroringReply => 0x5
    case BsnGetMirroringRequest => 0x4
    case BsnGetSwitchPipelineReply => if v >= 4 then 0x34 else -1
    case BsnGetSwitchPipelineRequest => if v >= 4 then 0x33 else -1
    case BsnHybridGetReply => if v == 1 then 0x1c else -1
    case BsnHybridGetRequest => if v == 1 then 0x1b else -1
    case BsnLacpConvergenceNotif => if v >= 4 then 0x2b else -1
    case BsnLog => if v >= 4 then 0x3f else -1
    case BsnLuaCommandReply => if v >= 4 then 0x42 else -1
    case BsnLuaCommandRequest => if v >= 4 then 0x41 else -1
    case BsnLuaNotification => if v >= 4 then 0x43 else -1
    case BsnLuaUpload => if v >= 4 then 0x40 else -1
    case BsnPduRxReply => 0x22
    case BsnPduRxRequest => 0x21
    case BsnPduRxTimeout => 0x23
    case BsnPduTxReply => 0x20
    case BsnPduTxRequest => 0x1f
    case BsnRoleStatus => if v == 4 then 0x37 else -1
    case BsnSetAuxCxnsReply => if v >= 4 then 0x3b else -1
    case BsnSetAuxCxnsRequest => if v >= 4 then 0x3a else -1
    case BsnSetIpMask => if v == 1 then 0x0 else -1
    case BsnSetL2TableReply => if v == 1 then 0x18 else -1
    case BsnSetL2TableRequest => if v == 1 then 0xc else -1
    case BsnSetLacpReply => if v >= 4 then 0x2a else -1
    case BsnSetLacpRequest => if v >= 4 then 0x29 else -1
    case BsnSetMirroring => 0x3
    case BsnSetPktinSuppressionReply => 0x19
    case BsnSetPktinSuppressionRequest => 0xb
    case BsnSetSwitchPipelineReply => if v >= 4 then 0x36 else -1
    case BsnSetSwitchPipelineRequest => if v >= 4 then 0x35 else -1
    case BsnShellCommand => if v == 1 then 0x6 else -1
    case BsnShellOutput => if v == 1 then 0x7 else -1
    case BsnShellStatus => if v == 1 then 0x8 else -1
    case BsnTableSetBucketsSize => if v >= 4 then 0x3d else -1
    case BsnTimeReply => if v >= 4 then 0x2d else -1
    case BsnTimeRequest => if v >= 4 then 0x2c else -1
    case BsnVirtualPortCreateReply => 0x10
    case BsnVirtualPortCreateRequest => 0xf
    case BsnVirtualPortRemoveReply => 0x1a
    case BsnVirtualPortRemoveRequest => 0x11
    case BsnHeader => -1
  }

  function BsnMark(cls: BsnClass, v: Version): HeaderMark {
    var subtype := BsnSubtype(cls, v);
    if 0 <= subtype < 0x1_0000_0000 then Vendor(4, BSN, subtype) else Absent
  }

  function FlowMark(cls: FlowClass, v: Version): HeaderMark {
    match cls
    case FlowAdd => if v == 1 then LateCommand(0xe, 0x0) else Command(0xe, 0x0)
    case FlowDelete => if v == 1 then LateCommand(0xe, 0x3) else Command(0xe, 0x3)
    case FlowDeleteStrict => if v == 1 then LateCommand(0xe, 0x4) else Command(0xe, 0x4)
    case FlowModify => if v == 1 then LateCommand(0xe, 0x1) else Command(0xe, 0x1)
    case FlowModifyStrict => if v == 1 then LateCommand(0xe, 0x2) else Command(0xe, 0x2)
    case FlowMod => Absent
  }

  function GroupMark(cls: GroupClass, v: Version): HeaderMark {
    match cls
    case GroupAdd => if v >= 2 then Sub(0xf, 0x0) else Absent
    case GroupDelete => if v >= 2 then Sub(0xf, 0x2) else Absent
    case GroupModify => if v >= 2 then Sub(0xf, 0x1) else Absent
    case GroupMod => Absent
  }

  function RequestMark(cls: RequestClass, v: Version): HeaderMark {
    match cls
    case AggregateStatsRequest => if v == 1 then Sub(0x10, 0x2) else Sub(0x12, 0x2)
    case DescStatsRequest => if v == 1 then Sub(0x10, 0x0) else Sub(0x12, 0x0)
    case FlowStatsRequest => if v == 1 then Sub(0x10, 0x1) else Sub(0x12, 0x1)
    case GroupDescStatsRequest => if v >= 2 then Sub(0x12, 0x7) else Absent
    case GroupFeaturesStatsRequest => if v >= 3 then Sub(0x12, 0x8) else Absent
    case GroupStatsRequest => if v >= 2 then Sub(0x12, 0x6) else Absent
    case MeterConfigStatsRequest => if v >= 4 then Sub(0x12, 0xa) else Absent
    case MeterFeaturesStatsRequest => if v >= 4 then Sub(0x12, 0xb) else Absent
    case MeterStatsRequest => if v >= 4 then Sub(0x12, 0x9) else Absent
    case PortDescStatsRequest => if v >= 4 then Sub(0x12, 0xd) else Absent
    case PortStatsRequest => if v == 1 then Sub(0x10, 0x4) else Sub(0x12, 0x4)
    case QueueDescStatsRequest => if v == 5 then Sub(0x12, 0xf) else Absent
    case QueueStatsRequest => if v == 1 then Sub(0x10, 0x5) else Sub(0x12, 0x5)
    case TableDescStatsRequest => if v == 5 then Sub(0x12, 0xe) else Absent
    case TableFeaturesStatsRequest => if v >= 4 then Sub(0x12, 0xc) else Absent
    case TableStatsRequest => if v == 1 then Sub(0x10, 0x3) else Sub(0x12, 0x3)
    case StatsRequest => Absent
  }

  function BsnRequestMark(cls: BsnRequestClass, v: Version): HeaderMark {
    match cls
    case BsnDebugCounterDescStatsRequest => if v >= 4 then VendorStats(0x12, BSN, 0xd) else Absent
    case BsnDebugCounterStatsRequest => if v >= 4 then VendorStats(0x12, BSN, 0xc) else Absent
    case BsnFlowChecksumBucketStatsRequest => if v >= 4 then VendorStats(0x12, BSN, 0xa) else Absent
    case BsnGenericStatsRequest => if v >= 4 then VendorStats(0x12, BSN, 0x10) else Absent
    case BsnGentableBucketStatsRequest => if v >= 4 then VendorStats(0x12, BSN, 0x5) else Absent
    case BsnGentableDescStatsRequest => if v >= 4 then VendorStats(0x12, BSN, 0x4) else Absent
    case BsnGentableEntryDescStatsRequest => if v >= 4 then VendorStats(0x12, BSN, 0x2) else Absent
    case BsnGentableEntryStatsRequest => if v >= 4 then VendorStats(0x12, BSN, 0x3) else Absent
    case BsnGentableStatsRequest => if v >= 4 then VendorStats(0x12, BSN, 0x7) else Absent
    case BsnImageDescStatsRequest => if v >= 4 then VendorStats(0x12, BSN, 0xe) else Absent
    case BsnLacpStatsRequest => if v >= 4 then VendorStats(0x12, BSN, 0x1) else Absent
    case BsnPortCounterStatsRequest => if v >= 4 then VendorStats(0x12, BSN, 0x8) else Absent
    case BsnSwitchPipelineStatsRequest => if v >= 4 then VendorStats(0x12, BSN, 0x6) else Absent
    case BsnTableChecksumStatsRequest => if v >= 4 then VendorStats(0x12, BSN, 0xb) else Absent
    case BsnVlanCounterStatsRequest => if v >= 4 then VendorStats(0x12, BSN, 0x9) else Absent
    case BsnVrfCounterStatsRequest => if v >= 4 then VendorStats(0x12, BSN, 0xf) else Absent
    case BsnStatsRequest => Absent
  }

  function ReplyMark(cls: ReplyClass, v: Version): HeaderMark {
    match cls
    case AggregateStatsReply => if v == 1 then Sub(0x11, 0x2) else Sub(0x13, 0x2)
    case DescStatsReply => if v == 1 then Sub(0x11, 0x0) else Sub(0x13, 0x0)
    case FlowStatsReply => if v == 1 then Sub(0x11, 0x1) else Sub(0x13, 0x1)
    case GroupDescStatsReply => if v >= 2 then Sub(0x13, 0x7) else Absent
    case GroupFeaturesStatsReply => if v >= 3 then Sub(0x13, 0x8) else Absent
    case GroupStatsReply => if v >= 2 then Sub(0x13, 0x6) else Absent
    case MeterConfigStatsReply => if v >= 4 then Sub(0x13, 0xa) else Absent
    case MeterFeaturesStatsReply => if v >= 4 then Sub(0x13, 0xb) else Absent
    case MeterStatsReply => if v >= 4 then Sub(0x13, 0x9) else Absent
    case PortDescStatsReply => if v >= 4 then Sub(0x13, 0xd) else Absent
    case PortStatsReply => if v == 1 then Sub(0x11, 0x4) else Sub(0x13, 0x4)
    case QueueDescStatsReply => if v == 5 then Sub(0x13, 0xf) else Absent
    case QueueStatsReply => if v == 1 then Sub(0x11, 0x5) else Sub(0x13, 0x5)
    case TableDescStatsReply => if v == 5 then Sub(0x13, 0xe) else Absent
    case TableFeaturesStatsReply => if v >= 4 then Sub(0x13, 0xc) else Absent
    case TableStatsReply => if v == 1 then Sub(0x11, 0x3) else Sub(0x13, 0x3)
    case StatsReply => Absent
  }

  function BsnReplyMark(cls: BsnReplyClass, v: Version): HeaderMark {
    match cls
    case BsnDebugCounterDescStatsReply => if v >= 4 then VendorStats(0x13, BSN, 0xd) else Absent
    case BsnDebugCounterStatsReply => if v >= 4 then VendorStats(0x13, BSN, 0xc) else Absent
    case BsnFlowChecksumBucketStatsReply => if v >= 4 then VendorStats(0x13, BSN, 0xa) else Absent
    case BsnGenericStatsReply => if v >= 4 then VendorStats(0x13, BSN, 0x10) else Absent
    case BsnGentableBucketStatsReply => if v >= 4 then VendorStats(0x13, BSN, 0x5) else Absent
    case BsnGentableDescStatsReply => if v >= 4 then VendorStats(0x13, BSN, 0x4) else Absent
    case BsnGentableEntryDescStatsReply => if v >= 4 then VendorStats(0x13, BSN, 0x2) else Absent
    case BsnGentableEntryStatsReply => if v >= 4 then VendorStats(0x13, BSN, 0x3) else Absent
    case BsnGentableStatsReply => if v >= 4 then VendorStats(0x13, BSN, 0x7) else Absent
    case BsnImageDescStatsReply => if v >= 4 then VendorStats(0x13, BSN, 0xe) else Absent
    case BsnLacpStatsReply => if v >= 4 then VendorStats(0x13, BSN, 0x1) else Absent
    case BsnPortCounterStatsReply => if v >= 4 then VendorStats(0x13, BSN, 0x8) else Absent
    case BsnSwitchPipelineStatsReply => if v >= 4 then VendorStats(0x13, BSN, 0x6) else Absent
    case BsnTableChecksumStatsReply => if v >= 4 then VendorStats(0x13, BSN, 0xb) else Absent
    case BsnVlanCounterStatsReply => if v >= 4 then VendorStats(0x13, BSN, 0x9) else Absent
    case BsnVrfCounterStatsReply => if v >= 4 then VendorStats(0x13, BSN, 0xf) else Absent
    case BsnStatsReply => Absent
  }

  function CoreMark(cls: CoreClass, v: Version): HeaderMark {
    match cls
    case AsyncGetReply => if v >= 4 then Simple(0x1b) else Absent
    case AsyncGetRequest => if v >= 4 then Simple(0x1a) else Absent
    case AsyncSet => if v >= 4 then Simple(0x1c) else Absent
    case BarrierReply => if v == 1 then Simple(0x13) else Simple(0x15)
    case BarrierRequest => if v == 1 then Simple(0x12) else Simple(0x14)
    case BundleAddMsg => if v == 5 then Simple(0x22) else Absent
    case BundleCtrlMsg => if v == 5 then Simple(0x21) else Absent
    case EchoReply => Simple(0x3)
    case EchoRequest => Simple(0x2)
    case FeaturesReply => Simple(0x6)
    case FeaturesRequest => Simple(0x5)
    case FlowRemoved => Simple(0xb)
    case GetConfigReply => Simple(0x8)
    case GetConfigRequest => Simple(0x7)
    case Hello => Simple(0x0)
    case MeterMod => if v >= 4 then Simple(0x1d) else Absent
    case PacketIn => Simple(0xa)
    case PacketOut => Simple(0xd)
    case PortMod => if v == 1 then Simple(0xf) else Simple(0x10)
    case PortStatus => Simple(0xc)
    case QueueGetConfigReply => if v == 1 then Simple(0x15) else if 2 <= v <= 4 then Simple(0x17) else Absent
    case QueueGetConfigRequest => if v == 1 then Simple(0x14) else if 2 <= v <= 4 then Simple(0x16) else Absent
    case Requestforward => if v == 5 then Simple(0x20) else Absent
    case RoleReply => if v >= 3 then Simple(0x19) else Absent
    case RoleRequest => if v >= 3 then Simple(0x18) else Absent
    case RoleStatus => if v == 5 then Simple(0x1e) else Absent
    case SetConfig => Simple(0x9)
    case TableMod => if v == 1 then Simple(0x16) else Simple(0x11)
    case TableStatus => if v == 5 then Simple(0x1f) else Absent
    case Header => Absent
  }

  function MarkOf(cls: HeaderClass, v: Version): HeaderMark {
    match cls
    case Error(c) => ErrorMark(c, v)
    case Nicira(c) => NiciraMark(c, v)
    case Bsn(c) => BsnMark(c, v)
    case Flow(c) => FlowMark(c, v)
    case Group(c) => GroupMark(c, v)
    case Request(c) => RequestMark(c, v)
    case BsnRequest(c) => BsnRequestMark(c, v)
    case Reply(c) => ReplyMark(c, v)
    case BsnReply(c) => BsnReplyMark(c, v)
    case Core(c) => CoreMark(c, v)
    case _ => Absent
  }

  // ----- Dispatch -----

  /** `of_error_msg_wire_object_id_get` */
  function ErrorOf(v: Version, buf: seq<Byte>): ErrorClass
    requires |buf| >= 10
  {
    match U16(buf, 8)
    case 0x0 => HelloFailedErrorMsg
    case 0x1 => BadRequestErrorMsg
    case 0x2 => BadActionErrorMsg
    case 0x3 => if v == 1 then FlowModFailedErrorMsg else BadInstructionErrorMsg
    case 0x4 => if v == 1 then PortModFailedErrorMsg else BadMatchErrorMsg
    case 0x5 => if v == 1 then QueueOpFailedErrorMsg else FlowModFailedErrorMsg
    case 0x6 => if v >= 2 then GroupModFailedErrorMsg else ErrorMsg
    case 0x7 => if v >= 2 then PortModFailedErrorMsg else ErrorMsg
    case 0x8 => if v >= 2 then TableModFailedErrorMsg else ErrorMsg
    case 0x9 => if v >= 2 then QueueOpFailedErrorMsg else ErrorMsg
    case 0xa => if v >= 2 then SwitchConfigFailedErrorMsg else ErrorMsg
    case 0xb => if v >= 3 then RoleRequestFailedErrorMsg else ErrorMsg
    case 0xc => if v >= 4 then MeterModFailedErrorMsg else ErrorMsg
    case 0xd => if v >= 4 then TableFeaturesFailedErrorMsg else ErrorMsg
    case 0xe => if v == 5 then BadPropertyErrorMsg else ErrorMsg
    case 0xf => if v == 5 then AsyncConfigFailedErrorMsg else ErrorMsg
    case 0x10 => if v == 5 then FlowMonitorFailedErrorMsg else ErrorMsg
    case 0x11 => if v == 5 then BundleFailedErrorMsg else ErrorMsg
    case 0xffff => if v >= 3 then ExperimenterErrorMsg else ErrorMsg
    case _ => ErrorMsg
  }

  /** `of_nicira_header_wire_object_id_get` */
  function NiciraOf(v: Version, buf: seq<Byte>): NiciraClass
    requires |buf| >= 16
  {
    match U32(buf, 12)
    case 0xa => if v == 1 then NiciraControllerRoleRequest else NiciraHeader
    case 0xb => if v == 1 then NiciraControllerRoleReply else NiciraHeader
    case _ => NiciraHeader
  }

  /** `of_bsn_header_wire_object_id_get` */
  function BsnOf(v: Version, buf: seq<Byte>): BsnClass
    requires |buf| >= 16
  {
    BsnOfSubtype(v, U32(buf, 12))
  }

  /** The cases of `of_bsn_header_wire_object_id_get`: the older subtypes, and those that came with 1.3. */
  function BsnOfSubtype(v: Version, subtype: Word): BsnClass {
    if subtype < 0x24 then BsnOfOld(v, subtype) else BsnOfNew(v, subtype)
  }

  function BsnOfOld(v: Version, subtype: Word): BsnClass {
    match subtype
    case 0x0 => if v == 1 then BsnSetIpMask else BsnHeader
    case 0x1 => if v == 1 then BsnGetIpMaskRequest else BsnHeader
    case 0x2 => if v == 1 then BsnGetIpMaskReply else BsnHeader
    case 0x3 => BsnSetMirroring
    case 0x4 => BsnGetMirroringRequest
    case 0x5 => BsnGetMirroringReply
    case 0x6 => if v == 1 then BsnShellCommand else BsnHeader
    case 0x7 => if v == 1 then BsnShellOutput else BsnHeader
    case 0x8 => if v == 1 then BsnShellStatus else BsnHeader
    case 0x9 => BsnGetInterfacesRequest
    case 0xa => BsnGetInterfacesReply
    case 0xb => BsnSetPktinSuppressionRequest
    case 0xc => if v == 1 then BsnSetL2TableRequest else BsnHeader
    case 0xd => if v == 1 then BsnGetL2TableRequest else BsnHeader
    case 0xe => if v == 1 then BsnGetL2TableReply else BsnHeader
    case 0xf => BsnVirtualPortCreateRequest
    case 0x10 => BsnVirtualPortCreateReply
    case 0x11 => BsnVirtualPortRemoveRequest
    case 0x12 => BsnBwEnableSetRequest
    case 0x13 => BsnBwEnableGetRequest
    case 0x14 => BsnBwEnableGetReply
    case 0x15 => BsnBwClearDataRequest
    case 0x16 => BsnBwClearDataReply
    case 0x17 => BsnBwEnableSetReply
    case 0x18 => if v == 1 then BsnSetL2TableReply else BsnHeader
    case 0x19 => BsnSetPktinSuppressionReply
    case 0x1a => BsnVirtualPortRemoveReply
    case 0x1b => if v == 1 then BsnHybridGetRequest else BsnHeader
    case 0x1c => if v == 1 then BsnHybridGetReply else BsnHeader
    case 0x1f => BsnPduTxRequest
    case 0x20 => BsnPduTxReply
    case 0x21 => BsnPduRxRequest
    case 0x22 => BsnPduRxReply
    case 0x23 => BsnPduRxTimeout
    case _ => BsnHeader
  }

  function BsnOfNew(v: Version, subtype: Word): BsnClass {
    match subtype
    case 0x24 => if v >= 4 then BsnFlowIdleEnableSetRequest else BsnHeader
    case 0x25 => if v >= 4 then BsnFlowIdleEnableSetReply else BsnHeader
    case 0x26 => if v >= 4 then BsnFlowIdleEnableGetRequest else BsnHeader
    case 0x27 => if v >= 4 then BsnFlowIdleEnableGetReply else BsnHeader
    case 0x28 => if v >= 4 then BsnFlowIdle else BsnHeader
    case 0x29 => if v >= 4 then BsnSetLacpRequest else BsnHeader
    case 0x2a => if v >= 4 then BsnSetLacpReply else BsnHeader
    case 0x2b => if v >= 4 then BsnLacpConvergenceNotif else BsnHeader
    case 0x2c => if v >= 4 then BsnTimeRequest else BsnHeader
    case 0x2d => if v >= 4 then BsnTimeReply else BsnHeader
    case 0x2e => if v >= 4 then BsnGentableEntryAdd else BsnHeader
    case 0x2f => if v >= 4 then BsnGentableEntryDelete else BsnHeader
    case 0x30 => if v >= 4 then BsnGentableClearRequest else BsnHeader
    case 0x31 => if v >= 4 then BsnGentableClearReply else BsnHeader
    case 0x32 => if v >= 4 then BsnGentableSetBucketsSize else BsnHeader
    case 0x33 => if v >= 4 then BsnGetSwitchPipelineRequest else BsnHeader
    case 0x34 => if v >= 4 then BsnGetSwitchPipelineReply else BsnHeader
    case 0x35 => if v >= 4 then BsnSetSwitchPipelineRequest else BsnHeader
    case 0x36 => if v >= 4 then BsnSetSwitchPipelineReply else BsnHeader
    case 0x37 => if v == 4 then BsnRoleStatus else BsnHeader
    case 0x38 => if v >= 4 then BsnControllerConnectionsRequest else BsnHeader
    case 0x39 => if v >= 4 then BsnControllerConnectionsReply else BsnHeader
    case 0x3a => if v >= 4 then BsnSetAuxCxnsRequest else BsnHeader
    case 0x3b => if v >= 4 then BsnSetAuxCxnsReply else BsnHeader
    case 0x3c => if v >= 4 then BsnArpIdle else BsnHeader
    case 0x3d => if v >= 4 then BsnTableSetBucketsSize else BsnHeader
    case 0x3f => if v >= 4 then BsnLog else BsnHeader
    case 0x40 => if v >= 4 then BsnLuaUpload else BsnHeader
    case 0x41 => if v >= 4 then BsnLuaCommandRequest else BsnHeader
    case 0x42 => if v >= 4 then BsnLuaCommandReply else BsnHeader
    case 0x43 => if v >= 4 then BsnLuaNotification else BsnHeader
    case _ => BsnHeader
  }

  /** `of_flow_mod_wire_object_id_get` */
  function FlowOf(v: Version, buf: seq<Byte>): FlowClass
    requires |buf| >= if v == 1 then 58 else 26
  {
    match if v == 1 then U16(buf, 56) as int else buf[25] as int
    case 0x0 => FlowAdd
    case 0x1 => FlowModify
    case 0x2 => FlowModifyStrict
    case 0x3 => FlowDelete
    case 0x4 => FlowDeleteStrict
    case _ => FlowMod
  }

  /** `of_group_mod_wire_object_id_get` */
  function GroupOf(v: Version, buf: seq<Byte>): GroupClass
    requires |buf| >= 10
  {
    match U16(buf, 8)
    case 0x0 => GroupAdd
    case 0x1 => GroupModify
    case 0x2 => GroupDelete
    case _ => GroupMod
  }

  /** `of_stats_request_wire_object_id_get` but the delegation to the experimenter */
  function RequestOf(v: Version, buf: seq<Byte>): RequestClass
    requires |buf| >= 10
  {
    match U16(buf, 8)
    case 0x0 => DescStatsRequest
    case 0x1 => FlowStatsRequest
    case 0x2 => AggregateStatsRequest
    case 0x3 => TableStatsRequest
    case 0x4 => PortStatsRequest
    case 0x5 => QueueStatsRequest
    case 0x6 => if v >= 2 then GroupStatsRequest else StatsRequest
    case 0x7 => if v >= 2 then GroupDescStatsRequest else StatsRequest
    case 0x8 => if v >= 3 then GroupFeaturesStatsRequest else StatsRequest
    case 0x9 => if v >= 4 then MeterStatsRequest else StatsRequest
    case 0xa => if v >= 4 then MeterConfigStatsRequest else StatsRequest
    case 0xb => if v >= 4 then MeterFeaturesStatsRequest else StatsRequest
    case 0xc => if v >= 4 then TableFeaturesStatsRequest else StatsRequest
    case 0xd => if v >= 4 then PortDescStatsRequest else StatsRequest
    case 0xe => if v == 5 then TableDescStatsRequest else StatsRequest
    case 0xf => if v == 5 then QueueDescStatsRequest else StatsRequest
    case _ => StatsRequest
  }

  /** `of_bsn_stats_request_wire_object_id_get` */
  function BsnRequestOf(v: Version, buf: seq<Byte>): BsnRequestClass
    requires |buf| >= 24
  {
    match U32(buf, 20)
    case 0x1 => if v >= 4 then BsnLacpStatsRequest else BsnStatsRequest
    case 0x2 => if v >= 4 then BsnGentableEntryDescStatsRequest else BsnStatsRequest
    case 0x3 => if v >= 4 then BsnGentableEntryStatsRequest else BsnStatsRequest
    case 0x4 => if v >= 4 then BsnGentableDescStatsRequest else BsnStatsRequest
    case 0x5 => if v >= 4 then BsnGentableBucketStatsRequest else BsnStatsRequest
    case 0x6 => if v >= 4 then BsnSwitchPipelineStatsRequest else BsnStatsRequest
    case 0x7 => if v >= 4 then BsnGentableStatsRequest else BsnStatsRequest
    case 0x8 => if v >= 4 then BsnPortCounterStatsRequest else BsnStatsRequest
    case 0x9 => if v >= 4 then BsnVlanCounterStatsRequest else BsnStatsRequest
    case 0xa => if v >= 4 then BsnFlowChecksumBucketStatsRequest else BsnStatsRequest
    case 0xb => if v >= 4 then BsnTableChecksumStatsRequest else BsnStatsRequest
    case 0xc => if v >= 4 then BsnDebugCounterStatsRequest else BsnStatsRequest
    case 0xd => if v >= 4 then BsnDebugCounterDescStatsRequest else BsnStatsRequest
    case 0xe => if v >= 4 then BsnImageDescStatsRequest else BsnStatsRequest
    case 0xf => if v >= 4 then BsnVrfCounterStatsRequest else BsnStatsRequest
    case 0x10 => if v >= 4 then BsnGenericStatsRequest else BsnStatsRequest
    case _ => BsnStatsRequest
  }

  /** `of_stats_reply_wire_object_id_get` but the delegation to the experimenter */
  function ReplyOf(v: Version, buf: seq<Byte>): ReplyClass
    requires |buf| >= 10
  {
    match U16(buf, 8)
    case 0x0 => DescStatsReply
    case 0x1 => FlowStatsReply
    case 0x2 => AggregateStatsReply
    case 0x3 => TableStatsReply
    case 0x4 => PortStatsReply
    case 0x5 => QueueStatsReply
    case 0x6 => if v >= 2 then GroupStatsReply else StatsReply
    case 0x7 => if v >= 2 then GroupDescStatsReply else StatsReply
    case 0x8 => if v >= 3 then GroupFeaturesStatsReply else StatsReply
    case 0x9 => if v >= 4 then MeterStatsReply else StatsReply
    case 0xa => if v >= 4 then MeterConfigStatsReply else StatsReply
    case 0xb => if v >= 4 then MeterFeaturesStatsReply else StatsReply
    case 0xc => if v >= 4 then TableFeaturesStatsReply else StatsReply
    case 0xd => if v >= 4 then PortDescStatsReply else StatsReply
    case 0xe => if v == 5 then TableDescStatsReply else StatsReply
    case 0xf => if v == 5 then QueueDescStatsReply else StatsReply
    case _ => StatsReply
  }

  /** `of_bsn_stats_reply_wire_object_id_get` */
  function BsnReplyOf(v: Version, buf: seq<Byte>): BsnReplyClass
    requires |buf| >= 24
  {
    match U32(buf, 20)
    case 0x1 => if v >= 4 then BsnLacpStatsReply else BsnStatsReply
    case 0x2 => if v >= 4 then BsnGentableEntryDescStatsReply else BsnStatsReply
    case 0x3 => if v >= 4 then BsnGentableEntryStatsReply else BsnStatsReply
    case 0x4 => if v >= 4 then BsnGentableDescStatsReply else BsnStatsReply
    case 0x5 => if v >= 4 then BsnGentableBucketStatsReply else BsnStatsReply
    case 0x6 => if v >= 4 then BsnSwitchPipelineStatsReply else BsnStatsReply
    case 0x7 => if v >= 4 then BsnGentableStatsReply else BsnStatsReply
    case 0x8 => if v >= 4 then BsnPortCounterStatsReply else BsnStatsReply
    case 0x9 => if v >= 4 then BsnVlanCounterStatsReply else BsnStatsReply
    case 0xa => if v >= 4 then BsnFlowChecksumBucketStatsReply else BsnStatsReply
    case 0xb => if v >= 4 then BsnTableChecksumStatsReply else BsnStatsReply
    case 0xc => if v >= 4 then BsnDebugCounterStatsReply else BsnStatsReply
    case 0xd => if v >= 4 then BsnDebugCounterDescStatsReply else BsnStatsReply
    case 0xe => if v >= 4 then BsnImageDescStatsReply else BsnStatsReply
    case 0xf => if v >= 4 then BsnVrfCounterStatsReply else BsnStatsReply
    case 0x10 => if v >= 4 then BsnGenericStatsReply else BsnStatsReply
    case _ => BsnStatsReply
  }

  /** The dispatchers of vendor messages only read bytes of the buffer. */
  predicate ExperimenterWithin(buf: seq<Byte>) {
    |buf| >= 12 && (U32(buf, 8) == NICIRA || U32(buf, 8) == BSN ==> |buf| >= 16)
  }

  /** `of_experimenter_wire_object_id_get` */
  function ExperimenterOf(v: Version, buf: seq<Byte>): HeaderClass
    requires ExperimenterWithin(buf)
  {
    if U32(buf, 8) == NICIRA then Nicira(NiciraOf(v, buf))
    else if U32(buf, 8) == BSN then Bsn(BsnOf(v, buf))
    else Experimenter
  }

  /** Where `of_experimenter_stats_request_wire_object_id_get` and its twin for replies find the
      experimenter. */
  function StatsVendor(v: Version, buf: seq<Byte>): Word
    requires |buf| >= if v == 1 then 16 else 20
  {
    if v == 1 then U32(buf, 12) else U32(buf, 16)
  }

  /** The dispatchers of statistics only read bytes of the buffer. */
  predicate StatsWithin(v: Version, buf: seq<Byte>) {
    && |buf| >= 10
    && (U16(buf, 8) == VENDOR ==>
          && |buf| >= (if v == 1 then 16 else 20)
          && (StatsVendor(v, buf) == BSN ==> |buf| >= 24))
  }

  /** `of_stats_request_wire_object_id_get` and, for vendor statistics, the next two levels */
  function StatsRequestOf(v: Version, buf: seq<Byte>): HeaderClass
    requires StatsWithin(v, buf)
  {
    if U16(buf, 8) != VENDOR then Request(RequestOf(v, buf))
    else if StatsVendor(v, buf) == BSN then BsnRequest(BsnRequestOf(v, buf))
    else ExperimenterRequest
  }

  /** `of_stats_reply_wire_object_id_get` and, for vendor statistics, the next two levels */
  function StatsReplyOf(v: Version, buf: seq<Byte>): HeaderClass
    requires StatsWithin(v, buf)
  {
    if U16(buf, 8) != VENDOR then Reply(ReplyOf(v, buf))
    else if StatsVendor(v, buf) == BSN then BsnReply(BsnReplyOf(v, buf))
    else ExperimenterReply
  }

  /** The dispatchers only read bytes of the buffer. */
  predicate Within(v: Version, buf: seq<Byte>) {
    |buf| >= 2 &&
    match buf[1]
    case 0x1 => |buf| >= 10
    case 0x4 => ExperimenterWithin(buf)
    case 0xe => |buf| >= if v == 1 then 58 else 26
    case 0xf => v >= 2 ==> |buf| >= 10
    case 0x10 => v == 1 ==> StatsWithin(v, buf)
    case 0x11 => v == 1 ==> StatsWithin(v, buf)
    case 0x12 => v >= 2 ==> StatsWithin(v, buf)
    case 0x13 => v >= 2 ==> StatsWithin(v, buf)
    case _ => true
  }

  /** `of_header_wire_object_id_get` */
  function Classify(v: Version, buf: seq<Byte>): HeaderClass
    requires Within(v, buf)
  {
    match buf[1]
    case 0x0 => Core(Hello)
    case 0x1 => Error(ErrorOf(v, buf))
    case 0x2 => Core(EchoRequest)
    case 0x3 => Core(EchoReply)
    case 0x4 => ExperimenterOf(v, buf)
    case 0x5 => Core(FeaturesRequest)
    case 0x6 => Core(FeaturesReply)
    case 0x7 => Core(GetConfigRequest)
    case 0x8 => Core(GetConfigReply)
    case 0x9 => Core(SetConfig)
    case 0xa => Core(PacketIn)
    case 0xb => Core(FlowRemoved)
    case 0xc => Core(PortStatus)
    case 0xd => Core(PacketOut)
    case 0xe => Flow(FlowOf(v, buf))
    case 0xf => if v == 1 then Core(PortMod) else Group(GroupOf(v, buf))
    case 0x10 => if v == 1 then StatsRequestOf(v, buf) else Core(PortMod)
    case 0x11 => if v == 1 then StatsReplyOf(v, buf) else Core(TableMod)
    case 0x12 => if v == 1 then Core(BarrierRequest) else StatsRequestOf(v, buf)
    case 0x13 => if v == 1 then Core(BarrierReply) else StatsReplyOf(v, buf)
    case 0x14 => if v == 1 then Core(QueueGetConfigRequest) else Core(BarrierRequest)
    case 0x15 => if v == 1 then Core(QueueGetConfigReply) else Core(BarrierReply)
    case 0x16 => if v == 1 then Core(TableMod) else if 2 <= v <= 4 then Core(QueueGetConfigRequest) else Core(Header)
    case 0x17 => if 2 <= v <= 4 then Core(QueueGetConfigReply) else Core(Header)
    case 0x18 => if v >= 3 then Core(RoleRequest) else Core(Header)
    case 0x19 => if v >= 3 then Core(RoleReply) else Core(Header)
    case 0x1a => if v >= 4 then Core(AsyncGetRequest) else Core(Header)
    case 0x1b => if v >= 4 then Core(AsyncGetReply) else Core(Header)
    case 0x1c => if v >= 4 then Core(AsyncSet) else Core(Header)
    case 0x1d => if v >= 4 then Core(MeterMod) else Core(Header)
    case 0x1e => if v == 5 then Core(RoleStatus) else Core(Header)
    case 0x1f => if v == 5 then Core(TableStatus) else Core(Header)
    case 0x20 => if v == 5 then Core(Requestforward) else Core(Header)
    case 0x21 => if v == 5 then Core(BundleCtrlMsg) else Core(Header)
    case 0x22 => if v == 5 then Core(BundleAddMsg) else Core(Header)
    case _ => Core(Header)
  }

  // ----- Round trip -----

  /** The bytes up to the end of the last type field of a mark. */
  function Extent(mark: HeaderMark): nat {
    match mark
    case Absent => 0
    case Simple(_) => 2
    case Sub(_, _) => 10
    case Vendor(_, _, _) => 16
    case VendorStats(_, _, _) => 24
    case Command(_, _) => 26
    case LateCommand(_, _) => 58
  }

  function Stamped(buf: seq<Byte>, v: Version, mark: HeaderMark): (more: seq<Byte>)
    requires mark != Absent && |buf| >= Extent(mark)
    ensures |more| == |buf|
  {
    var front := buf[0 := v][1 := mark.kind];
    match mark
    case Simple(_) => front
    case Sub(_, sub) => Put16(front, 8, sub)
    case Vendor(_, vendor, subtype) => Put32(Put32(front, 8, vendor), 12, subtype)
    case VendorStats(_, vendor, subtype) => Put32(Put32(Put16(front, 8, VENDOR), 16, vendor), 20, subtype)
    case Command(_, command) => front[25 := command]
    case LateCommand(_, sub) => Put16(front, 56, sub)
  }

  /** The type fields hold the mark. */
  predicate Bears(buf: seq<Byte>, mark: HeaderMark)
    requires mark != Absent && |buf| >= Extent(mark)
  {
    buf[1] == mark.kind &&
    match mark
    case Simple(_) => true
    case Sub(_, sub) => U16(buf, 8) == sub
    case Vendor(_, vendor, subtype) => U32(buf, 8) == vendor && U32(buf, 12) == subtype
    case VendorStats(_, vendor, subtype) => U16(buf, 8) == VENDOR && U32(buf, 16) == vendor && U32(buf, 20) == subtype
    case Command(_, command) => buf[25] == command
    case LateCommand(_, sub) => U16(buf, 56) == sub
  }

  /** Byte `i` is the version or belongs to the type fields that the mark writes. */
  predicate TypeByte(mark: HeaderMark, i: nat)
    requires mark != Absent
  {
    i < 2 ||
    match mark
    case Simple(_) => false
    case Sub(_, _) => 8 <= i < 10
    case Vendor(_, _, _) => 8 <= i < 16
    case VendorStats(_, _, _) => 8 <= i < 10 || 16 <= i < 24
    case Command(_, _) => i == 25
    case LateCommand(_, _) => 56 <= i < 58
  }

  lemma StampBears(buf: seq<Byte>, v: Version, mark: HeaderMark)
    requires mark != Absent && |buf| >= Extent(mark)
    ensures var stamped := Stamped(buf, v, mark);
            && Bears(stamped, mark) && stamped[0] == v
            && forall i :: 0 <= i < |buf| && !TypeByte(mark, i) ==> stamped[i] == buf[i]
  {
  }

  lemma StampAgain(buf: seq<Byte>, v: Version, mark: HeaderMark)
    requires mark != Absent && |buf| >= Extent(mark) && buf[0] == v && Bears(buf, mark)
    ensures Stamped(buf, v, mark) == buf
  {
    assert buf[0 := v][1 := mark.kind] == buf;
    match mark
    case Simple(_) =>
    case Sub(_, sub) => SameHalf(buf, 8, sub);
    case Vendor(_, vendor, subtype) =>
      SameWord(buf, 8, vendor);
      SameWord(buf, 12, subtype);
    case VendorStats(_, vendor, subtype) =>
      SameHalf(buf, 8, VENDOR);
      SameWord(buf, 16, vendor);
      SameWord(buf, 20, subtype);
    case Command(_, command) =>
    case LateCommand(_, sub) => SameHalf(buf, 56, sub);
  }

  // The families: the subtype a class stamps is the one its dispatcher takes for this class.

  lemma ErrorAgrees(cls: ErrorClass, v: Version, buf: seq<Byte>)
    requires |buf| >= 10 && ErrorMark(cls, v) != Absent
    ensures var mark := ErrorMark(cls, v);
            && mark.Sub? && mark.kind == 1
            && (U16(buf, 8) == mark.sub <==> ErrorOf(v, buf) == cls)
  {
  }

  lemma GroupAgrees(cls: GroupClass, v: Version, buf: seq<Byte>)
    requires |buf| >= 10 && GroupMark(cls, v) != Absent
    ensures var mark := GroupMark(cls, v);
            && mark.Sub? && v >= 2 && mark.kind == 0xf
            && (U16(buf, 8) == mark.sub <==> GroupOf(v, buf) == cls)
  {
  }

  lemma RequestAgrees(cls: RequestClass, v: Version, buf: seq<Byte>)
    requires |buf| >= 10 && RequestMark(cls, v) != Absent
    ensures var mark := RequestMark(cls, v);
            && mark.Sub? && mark.kind == (if v == 1 then 0x10 else 0x12) && mark.sub != VENDOR
            && (U16(buf, 8) == mark.sub <==> RequestOf(v, buf) == cls)
  {
  }

  lemma ReplyAgrees(cls: ReplyClass, v: Version, buf: seq<Byte>)
    requires |buf| >= 10 && ReplyMark(cls, v) != Absent
    ensures var mark := ReplyMark(cls, v);
            && mark.Sub? && mark.kind == (if v == 1 then 0x11 else 0x13) && mark.sub != VENDOR
            && (U16(buf, 8) == mark.sub <==> ReplyOf(v, buf) == cls)
  {
  }

  lemma NiciraAgrees(cls: NiciraClass, v: Version, buf: seq<Byte>)
    requires |buf| >= 16 && NiciraMark(cls, v) != Absent
    ensures var mark := NiciraMark(cls, v);
            && mark.Vendor? && mark.kind == 4 && mark.vendor == NICIRA
            && (U32(buf, 12) == mark.subtype <==> NiciraOf(v, buf) == cls)
  {
  }

  lemma BsnForwardOldest(cls: BsnClass, v: Version)
    requires 0 <= BsnSubtype(cls, v) < 0x12
    ensures BsnOfOld(v, BsnSubtype(cls, v)) == cls
  {
  }

  lemma BsnForwardOld(cls: BsnClass, v: Version)
    requires 0x12 <= BsnSubtype(cls, v) < 0x24
    ensures BsnOfOld(v, BsnSubtype(cls, v)) == cls
  {
  }

  lemma BsnForwardNew(cls: BsnClass, v: Version)
    requires 0x24 <= BsnSubtype(cls, v) < 0x34
    ensures BsnOfNew(v, BsnSubtype(cls, v)) == cls
  {
  }

  lemma BsnForwardNewest(cls: BsnClass, v: Version)
    requires 0x34 <= BsnSubtype(cls, v)
    ensures BsnSubtype(cls, v) < 0x80 && BsnOfNew(v, BsnSubtype(cls, v)) == cls
  {
  }

  lemma BsnBackwardOldest(v: Version, subtype: Word)
    requires subtype < 0x12 && BsnSubtype(BsnOfOld(v, subtype), v) >= 0
    ensures BsnSubtype(BsnOfOld(v, subtype), v) == subtype
  {
  }

  lemma BsnBackwardOld(v: Version, subtype: Word)
    requires 0x12 <= subtype < 0x24 && BsnSubtype(BsnOfOld(v, subtype), v) >= 0
    ensures BsnSubtype(BsnOfOld(v, subtype), v) == subtype
  {
  }

  lemma BsnBackwardNew(v: Version, subtype: Word)
    requires subtype >= 0x24 && BsnSubtype(BsnOfNew(v, subtype), v) >= 0
    ensures BsnSubtype(BsnOfNew(v, subtype), v) == subtype
  {
  }

  lemma BsnAgrees(cls: BsnClass, v: Version, buf: seq<Byte>)
    requires |buf| >= 16 && BsnMark(cls, v) != Absent
    ensures BsnMark(cls, v).Vendor? && BsnMark(cls, v).kind == 4 && BsnMark(cls, v).vendor == BSN
    ensures U32(buf, 12) == BsnMark(cls, v).subtype <==> BsnOf(v, buf) == cls
  {
    if BsnSubtype(cls, v) < 0x12 {
      BsnForwardOldest(cls, v);
    } else if BsnSubtype(cls, v) < 0x24 {
      BsnForwardOld(cls, v);
    } else if BsnSubtype(cls, v) < 0x34 {
      BsnForwardNew(cls, v);
    } else {
      BsnForwardNewest(cls, v);
    }
    if BsnOf(v, buf) == cls {
      var subtype := U32(buf, 12);
      if subtype < 0x12 {
        BsnBackwardOldest(v, subtype);
      } else if subtype < 0x24 {
        BsnBackwardOld(v, subtype);
      } else {
        BsnBackwardNew(v, subtype);
      }
    }
  }

  lemma BsnRequestAgrees(cls: BsnRequestClass, v: Version, buf: seq<Byte>)
    requires |buf| >= 24 && BsnRequestMark(cls, v) != Absent
    ensures var mark := BsnRequestMark(cls, v);
            && mark.VendorStats? && v >= 4 && mark.kind == 0x12 && mark.vendor == BSN
            && (U32(buf, 20) == mark.subtype <==> BsnRequestOf(v, buf) == cls)
  {
  }

  lemma BsnReplyAgrees(cls: BsnReplyClass, v: Version, buf: seq<Byte>)
    requires |buf| >= 24 && BsnReplyMark(cls, v) != Absent
    ensures var mark := BsnReplyMark(cls, v);
            && mark.VendorStats? && v >= 4 && mark.kind == 0x13 && mark.vendor == BSN
            && (U32(buf, 20) == mark.subtype <==> BsnReplyOf(v, buf) == cls)
  {
  }

  lemma FlowAgrees(cls: FlowClass, v: Version, buf: seq<Byte>)
    requires |buf| >= (if v == 1 then 58 else 26) && FlowMark(cls, v) != Absent
    ensures var mark := FlowMark(cls, v);
            && mark.kind == 0xe && (if v == 1 then mark.LateCommand? else mark.Command?)
            && ((if v == 1 then U16(buf, 56) == mark.sub else buf[25] == mark.command) <==> FlowOf(v, buf) == cls)
  {
  }

  lemma CoreForward(cls: CoreClass, v: Version, buf: seq<Byte>)
    requires |buf| >= 2 && CoreMark(cls, v) == Simple(buf[1])
    ensures Within(v, buf) && Classify(v, buf) == Core(cls)
  {
  }

  lemma CoreBackward(v: Version, buf: seq<Byte>)
    requires Within(v, buf) && Classify(v, buf).Core? && CoreMark(Classify(v, buf).core, v) != Absent
    ensures CoreMark(Classify(v, buf).core, v) == Simple(buf[1])
  {
  }

  lemma CoreAgrees(cls: CoreClass, v: Version, buf: seq<Byte>)
    requires |buf| >= 2 && CoreMark(cls, v) != Absent
    ensures CoreMark(cls, v).Simple?
    ensures buf[1] == CoreMark(cls, v).kind <==> Within(v, buf) && Classify(v, buf) == Core(cls)
  {
    if CoreMark(cls, v) == Simple(buf[1]) {
      CoreForward(cls, v, buf);
    }
    if Within(v, buf) && Classify(v, buf) == Core(cls) {
      CoreBackward(v, buf);
    }
  }

  predicate Statistics(cls: HeaderClass) {
    cls.Request? || cls.BsnRequest? || cls.Reply? || cls.BsnReply?
  }

  lemma StatisticsAgree(cls: HeaderClass, v: Version, buf: seq<Byte>)
    requires MarkOf(cls, v) != Absent && |buf| >= Extent(MarkOf(cls, v)) && Statistics(cls)
    ensures Bears(buf, MarkOf(cls, v)) <==> Within(v, buf) && Classify(v, buf) == cls
  {
    match cls
    case Request(c) => RequestAgrees(c, v, buf);
    case BsnRequest(c) => BsnRequestAgrees(c, v, buf);
    case Reply(c) => ReplyAgrees(c, v, buf);
    case BsnReply(c) => BsnReplyAgrees(c, v, buf);
  }

  lemma VendorsAgree(cls: HeaderClass, v: Version, buf: seq<Byte>)
    requires MarkOf(cls, v) != Absent && |buf| >= Extent(MarkOf(cls, v)) && (cls.Nicira? || cls.Bsn?)
    ensures Bears(buf, MarkOf(cls, v)) <==> Within(v, buf) && Classify(v, buf) == cls
  {
    match cls
    case Nicira(c) => NiciraAgrees(c, v, buf);
    case Bsn(c) => BsnAgrees(c, v, buf);
  }

  /** The buffer of a class bears its mark exactly if the dispatchers answer with that class. */
  lemma BearsIffClassified(cls: HeaderClass, v: Version, buf: seq<Byte>)
    requires MarkOf(cls, v) != Absent && |buf| >= Extent(MarkOf(cls, v))
    ensures Bears(buf, MarkOf(cls, v)) <==> Within(v, buf) && Classify(v, buf) == cls
  {
    match cls
    case Error(c) => ErrorAgrees(c, v, buf);
    case Flow(c) => FlowAgrees(c, v, buf);
    case Group(c) => GroupAgrees(c, v, buf);
    case Core(c) => CoreAgrees(c, v, buf);
    case Nicira(_) | Bsn(_) => VendorsAgree(cls, v, buf);
    case _ => StatisticsAgree(cls, v, buf);
  }

  // ----- Every answer of the dispatchers -----

  // Family by family: the class found in a buffer bears its types, or is the base class of the family.

  lemma ErrorAnswer(v: Version, buf: seq<Byte>)
    requires |buf| >= 10 && ErrorMark(ErrorOf(v, buf), v) == Absent
    ensures ErrorOf(v, buf) == ErrorMsg
  {
  }

  lemma GroupAnswer(v: Version, buf: seq<Byte>)
    requires v >= 2 && |buf| >= 10 && GroupMark(GroupOf(v, buf), v) == Absent
    ensures GroupOf(v, buf) == GroupMod
  {
  }

  lemma FlowAnswer(v: Version, buf: seq<Byte>)
    requires |buf| >= (if v == 1 then 58 else 26) && FlowMark(FlowOf(v, buf), v) == Absent
    ensures FlowOf(v, buf) == FlowMod
  {
  }

  lemma RequestAnswer(v: Version, buf: seq<Byte>)
    requires |buf| >= 10 && RequestMark(RequestOf(v, buf), v) == Absent
    ensures RequestOf(v, buf) == StatsRequest
  {
  }

  lemma ReplyAnswer(v: Version, buf: seq<Byte>)
    requires |buf| >= 10 && ReplyMark(ReplyOf(v, buf), v) == Absent
    ensures ReplyOf(v, buf) == StatsReply
  {
  }

  lemma BsnRequestAnswer(v: Version, buf: seq<Byte>)
    requires |buf| >= 24 && BsnRequestMark(BsnRequestOf(v, buf), v) == Absent
    ensures BsnRequestOf(v, buf) == BsnStatsRequest
  {
  }

  lemma BsnReplyAnswer(v: Version, buf: seq<Byte>)
    requires |buf| >= 24 && BsnReplyMark(BsnReplyOf(v, buf), v) == Absent
    ensures BsnReplyOf(v, buf) == BsnStatsReply
  {
  }

  lemma NiciraAnswer(v: Version, buf: seq<Byte>)
    requires |buf| >= 16 && NiciraMark(NiciraOf(v, buf), v) == Absent
    ensures NiciraOf(v, buf) == NiciraHeader
  {
  }

  lemma BsnOldAnswer(v: Version, subtype: Word)
    requires BsnSubtype(BsnOfOld(v, subtype), v) < 0
    ensures BsnOfOld(v, subtype) == BsnHeader
  {
  }

  lemma BsnNewAnswer(v: Version, subtype: Word)
    requires BsnSubtype(BsnOfNew(v, subtype), v) < 0
    ensures BsnOfNew(v, subtype) == BsnHeader
  {
  }

  lemma BsnSmall(cls: BsnClass, v: Version)
    ensures BsnSubtype(cls, v) < 0x80
  {
  }

  lemma BsnAnswer(v: Version, buf: seq<Byte>)
    requires |buf| >= 16 && BsnMark(BsnOf(v, buf), v) == Absent
    ensures BsnOf(v, buf) == BsnHeader
  {
    BsnSmall(BsnOf(v, buf), v);
    if U32(buf, 12) < 0x24 {
      BsnOldAnswer(v, U32(buf, 12));
    } else {
      BsnNewAnswer(v, U32(buf, 12));
    }
  }

  /** The version has messages of this type; 0x16 of version 1.0 is an extension. */
  predicate HasType(v: Version, kind: Byte) {
    kind <= (if v == 1 then 0x16 else if v == 2 then 0x17 else if v == 3 then 0x19 else if v == 4 then 0x1d else 0x22)
    && !(v == 5 && (kind == 0x16 || kind == 0x17))
  }

  /** What the dispatchers answer for bytes that no class stamps: the class of the level they get to. */
  function BaseOf(v: Version, buf: seq<Byte>): HeaderClass
    requires Within(v, buf)
  {
    match buf[1]
    case 0x1 => Error(ErrorMsg)
    case 0x4 =>
      if U32(buf, 8) == 0x2320 then Nicira(NiciraHeader)
      else if U32(buf, 8) == 0x5c16c7 then Bsn(BsnHeader) else Experimenter
    case 0xe => Flow(FlowMod)
    case 0xf => if v >= 2 then Group(GroupMod) else Core(Header)
    case 0x10 => if v == 1 then RequestBase(v, buf) else Core(Header)
    case 0x11 => if v == 1 then ReplyBase(v, buf) else Core(Header)
    case 0x12 => if v >= 2 then RequestBase(v, buf) else Core(Header)
    case 0x13 => if v >= 2 then ReplyBase(v, buf) else Core(Header)
    case _ => Core(Header)
  }

  /** The experimenter of vendor statistics stands at 12 in version 1.0, and else at 16. */
  function RequestBase(v: Version, buf: seq<Byte>): HeaderClass
    requires StatsWithin(v, buf)
  {
    if U16(buf, 8) != 0xffff then Request(StatsRequest)
    else if U32(buf, if v == 1 then 12 else 16) == 0x5c16c7 then BsnRequest(BsnStatsRequest) else ExperimenterRequest
  }

  function ReplyBase(v: Version, buf: seq<Byte>): HeaderClass
    requires StatsWithin(v, buf)
  {
    if U16(buf, 8) != 0xffff then Reply(StatsReply)
    else if U32(buf, if v == 1 then 12 else 16) == 0x5c16c7 then BsnReply(BsnStatsReply) else ExperimenterReply
  }

  lemma StatsAnswer(v: Version, buf: seq<Byte>)
    requires StatsWithin(v, buf)
    ensures var c := StatsRequestOf(v, buf);
            if MarkOf(c, v) == Absent then c == RequestBase(v, buf) else |buf| >= Extent(MarkOf(c, v))
    ensures var c := StatsReplyOf(v, buf);
            if MarkOf(c, v) == Absent then c == ReplyBase(v, buf) else |buf| >= Extent(MarkOf(c, v))
  {
    if U16(buf, 8) != VENDOR {
      StatsKnownAnswer(v, buf);
    } else if StatsVendor(v, buf) == BSN {
      StatsBsnAnswer(v, buf);
    }
  }

  lemma StatsKnownAnswer(v: Version, buf: seq<Byte>)
    requires |buf| >= 10
    ensures RequestMark(RequestOf(v, buf), v) == Absent ==> RequestOf(v, buf) == StatsRequest
    ensures ReplyMark(ReplyOf(v, buf), v) == Absent ==> ReplyOf(v, buf) == StatsReply
    ensures Extent(RequestMark(RequestOf(v, buf), v)) <= 10 && Extent(ReplyMark(ReplyOf(v, buf), v)) <= 10
  {
    if RequestMark(RequestOf(v, buf), v) == Absent {
      RequestAnswer(v, buf);
    } else {
      RequestAgrees(RequestOf(v, buf), v, buf);
    }
    if ReplyMark(ReplyOf(v, buf), v) == Absent {
      ReplyAnswer(v, buf);
    } else {
      ReplyAgrees(ReplyOf(v, buf), v, buf);
    }
  }

  lemma StatsBsnAnswer(v: Version, buf: seq<Byte>)
    requires |buf| >= 24
    ensures BsnRequestMark(BsnRequestOf(v, buf), v) == Absent ==> BsnRequestOf(v, buf) == BsnStatsRequest
    ensures BsnReplyMark(BsnReplyOf(v, buf), v) == Absent ==> BsnReplyOf(v, buf) == BsnStatsReply
    ensures Extent(BsnRequestMark(BsnRequestOf(v, buf), v)) <= 24 && Extent(BsnReplyMark(BsnReplyOf(v, buf), v)) <= 24
  {
    if BsnRequestMark(BsnRequestOf(v, buf), v) == Absent {
      BsnRequestAnswer(v, buf);
    } else {
      BsnRequestAgrees(BsnRequestOf(v, buf), v, buf);
    }
    if BsnReplyMark(BsnReplyOf(v, buf), v) == Absent {
      BsnReplyAnswer(v, buf);
    } else {
      BsnReplyAgrees(BsnReplyOf(v, buf), v, buf);
    }
  }

  lemma ExperimenterAnswer(v: Version, buf: seq<Byte>)
    requires Within(v, buf) && buf[1] == 4
    ensures var c := Classify(v, buf);
            if MarkOf(c, v) == Absent then c == BaseOf(v, buf) else |buf| >= Extent(MarkOf(c, v))
  {
    if U32(buf, 8) == NICIRA {
      if NiciraMark(NiciraOf(v, buf), v) == Absent {
        NiciraAnswer(v, buf);
      } else {
        NiciraAgrees(NiciraOf(v, buf), v, buf);
      }
    } else if U32(buf, 8) == BSN {
      if BsnMark(BsnOf(v, buf), v) == Absent {
        BsnAnswer(v, buf);
      }
    }
  }

  lemma FamilyAnswer(v: Version, buf: seq<Byte>)
    requires Within(v, buf) && (buf[1] == 0x1 || buf[1] == 0xe || (buf[1] == 0xf && v >= 2))
    ensures var c := Classify(v, buf);
            if MarkOf(c, v) == Absent then c == BaseOf(v, buf) else |buf| >= Extent(MarkOf(c, v))
  {
    if buf[1] == 0x1 {
      if ErrorMark(ErrorOf(v, buf), v) == Absent {
        ErrorAnswer(v, buf);
      } else {
        ErrorAgrees(ErrorOf(v, buf), v, buf);
      }
    } else if buf[1] == 0xe {
      if FlowMark(FlowOf(v, buf), v) == Absent {
        FlowAnswer(v, buf);
      } else {
        FlowAgrees(FlowOf(v, buf), v, buf);
      }
    } else {
      if GroupMark(GroupOf(v, buf), v) == Absent {
        GroupAnswer(v, buf);
      } else {
        GroupAgrees(GroupOf(v, buf), v, buf);
      }
    }
  }

  /** The type leads to a family of classes. */
  predicate OfFamily(v: Version, kind: Byte) {
    || kind == 0x1 || kind == 0x4 || kind == 0xe
    || (v == 1 && (kind == 0x10 || kind == 0x11))
    || (v >= 2 && (kind == 0xf || kind == 0x12 || kind == 0x13))
  }

  lemma CoreAnswer(v: Version, buf: seq<Byte>)
    requires Within(v, buf) && !OfFamily(v, buf[1])
    ensures BaseOf(v, buf) == Core(Header) && Classify(v, buf).Core?
    ensures Classify(v, buf) == Core(Header) <==> !HasType(v, buf[1])
  {
  }

  lemma CoreUnstamped(v: Version, buf: seq<Byte>)
    requires Within(v, buf) && !OfFamily(v, buf[1]) && Classify(v, buf).Core?
    ensures CoreMark(Classify(v, buf).core, v) == Absent ==> Classify(v, buf) == Core(Header)
  {
  }

  lemma AnswerReach(v: Version, buf: seq<Byte>)
    requires Within(v, buf)
    ensures var c := Classify(v, buf);
            if MarkOf(c, v) == Absent then c == BaseOf(v, buf) else |buf| >= Extent(MarkOf(c, v))
  {
    if !OfFamily(v, buf[1]) {
      CoreAnswer(v, buf);
      CoreUnstamped(v, buf);
      var core := Classify(v, buf).core;
      if CoreMark(core, v) != Absent {
        CoreAgrees(core, v, buf);
      }
    } else if buf[1] == 0x4 {
      ExperimenterAnswer(v, buf);
    } else if buf[1] == 0x1 || buf[1] == 0xe || buf[1] == 0xf {
      FamilyAnswer(v, buf);
    } else {
      StatsAnswer(v, buf);
    }
  }

  /** Every answer of the root dispatcher: the class whose types the buffer bears, and without one the class of
      the level that was reached. */
  lemma Dispatch(v: Version, buf: seq<Byte>, cls: HeaderClass)
    requires Within(v, buf)
    ensures MarkOf(cls, v) != Absent && |buf| >= Extent(MarkOf(cls, v)) && Bears(buf, MarkOf(cls, v)) ==>
              Classify(v, buf) == cls
    ensures var c := Classify(v, buf);
            if MarkOf(c, v) == Absent then c == BaseOf(v, buf)
            else |buf| >= Extent(MarkOf(c, v)) && Bears(buf, MarkOf(c, v))
  {
    if MarkOf(cls, v) != Absent && |buf| >= Extent(MarkOf(cls, v)) {
      BearsIffClassified(cls, v, buf);
    }
    var c := Classify(v, buf);
    AnswerReach(v, buf);
    if MarkOf(c, v) != Absent {
      BearsIffClassified(c, v, buf);
    }
  }

  /** So bytes that bear the types of no class get the class of the level that was reached. */
  lemma UnknownDispatch(v: Version, buf: seq<Byte>)
    requires Within(v, buf)
    requires forall cls :: MarkOf(cls, v) != Absent && |buf| >= Extent(MarkOf(cls, v)) ==> !Bears(buf, MarkOf(cls, v))
    ensures Classify(v, buf) == BaseOf(v, buf)
  {
    Dispatch(v, buf, Classify(v, buf));
  }

  /** The bare header is the answer exactly for types that the version does not have, and a nameless
      experimenter exactly for type 4 with a vendor that is neither of the two known. */
  lemma BareAnswers(v: Version, buf: seq<Byte>)
    requires Within(v, buf)
    ensures Classify(v, buf) == Core(Header) <==> !HasType(v, buf[1])
    ensures Classify(v, buf) == Experimenter <==>
            buf[1] == 4 && U32(buf, 8) != 0x2320 && U32(buf, 8) != 0x5c16c7
  {
    if !OfFamily(v, buf[1]) {
      CoreAnswer(v, buf);
    }
  }

  // The subtypes that are known, in plain numbers.

  lemma ErrorsKnown(v: Version, buf: seq<Byte>)
    requires |buf| >= 10
    ensures ErrorOf(v, buf) != ErrorMsg <==>
            || U16(buf, 8) <= (if v == 1 then 5 else if v == 2 then 10 else if v == 3 then 11 else if v == 4 then 13
                               else 17)
            || (v >= 3 && U16(buf, 8) == 0xffff)
  {
  }

  lemma ModificationsKnown(v: Version, buf: seq<Byte>)
    requires |buf| >= if v == 1 then 58 else 26
    ensures FlowOf(v, buf) != FlowMod <==> (if v == 1 then U16(buf, 56) as int else buf[25] as int) <= 4
    ensures GroupOf(v, buf) != GroupMod <==> U16(buf, 8) <= 2
  {
  }

  lemma StatisticsKnown(v: Version, buf: seq<Byte>)
    requires |buf| >= 10
    ensures RequestOf(v, buf) != StatsRequest <==> ReplyOf(v, buf) != StatsReply
    ensures RequestOf(v, buf) != StatsRequest <==>
            U16(buf, 8) <= if v == 1 then 5 else if v == 2 then 7 else if v == 3 then 8 else if v == 4 then 13 else 15
  {
  }

  lemma VendorStatisticsKnown(v: Version, buf: seq<Byte>)
    requires |buf| >= 24
    ensures BsnRequestOf(v, buf) != BsnStatsRequest <==> v >= 4 && 1 <= U32(buf, 20) <= 16
    ensures BsnReplyOf(v, buf) != BsnStatsReply <==> v >= 4 && 1 <= U32(buf, 20) <= 16
  {
  }

  lemma NiciraKnown(v: Version, buf: seq<Byte>)
    requires |buf| >= 16
    ensures NiciraOf(v, buf) != NiciraHeader <==> v == 1 && (U32(buf, 12) == 10 || U32(buf, 12) == 11)
  {
  }

  lemma BsnOldKnown(v: Version, subtype: Word)
    ensures BsnOfOld(v, subtype) != BsnHeader <==>
            || (v == 1 && subtype <= 0x1c) || 0x1f <= subtype <= 0x23
            || 0x3 <= subtype <= 0x5 || 0x9 <= subtype <= 0xb || 0xf <= subtype <= 0x17
            || subtype == 0x19 || subtype == 0x1a
  {
  }

  lemma BsnNewKnown(v: Version, subtype: Word)
    ensures BsnOfNew(v, subtype) != BsnHeader <==>
            v >= 4 && 0x24 <= subtype <= 0x43 && subtype != 0x3e && !(v == 5 && subtype == 0x37)
  {
  }

  /** Stamp and classify: whatever the buffer held, once version and types of a class have been stamped
      the root dispatcher answers with that class, through up to four levels; every byte but the version
      and those of the type fields is untouched. Conversely, when it answers with the class, the stamp
      is already there. */
  lemma StampClassify(cls: HeaderClass, v: Version, buf: seq<Byte>)
    requires MarkOf(cls, v) != Absent && |buf| >= Extent(MarkOf(cls, v))
    ensures var stamped := Stamped(buf, v, MarkOf(cls, v));
            && stamped[0] == v && Within(v, stamped) && Classify(v, stamped) == cls
            && (forall i :: 0 <= i < |buf| && !TypeByte(MarkOf(cls, v), i) ==> stamped[i] == buf[i])
            && (buf[0] == v && Within(v, buf) && Classify(v, buf) == cls <==> stamped == buf)
  {
    var mark := MarkOf(cls, v);
    StampBears(buf, v, mark);
    BearsIffClassified(cls, v, buf);
    BearsIffClassified(cls, v, Stamped(buf, v, mark));
    if buf[0] == v && Bears(buf, mark) {
      StampAgain(buf, v, mark);
    }
  }

  /** No two classes stamp the same types. */
  lemma MarksDiffer(a: HeaderClass, b: HeaderClass, v: Version, buf: seq<Byte>)
    requires a != b && MarkOf(a, v) != Absent && MarkOf(b, v) != Absent
    requires |buf| >= Extent(MarkOf(a, v)) && |buf| >= Extent(MarkOf(b, v))
    ensures Stamped(buf, v, MarkOf(a, v)) != Stamped(buf, v, MarkOf(b, v))
  {
    StampClassify(a, v, buf);
    StampClassify(b, v, buf);
  }

  /** The writes of a `push_wire_types` function. */
  method Push(buf: array<Byte>, v: Version, mark: HeaderMark)
    requires mark != Absent && buf.Length >= Extent(mark)
    modifies buf
    ensures buf[..] == Stamped(old(buf[..]), v, mark)
  {
    buf[0] := v;
    buf[1] := mark.kind;
    match mark {
      case Simple(_) =>
      case Sub(_, sub) =>
        Store16(buf, 8, sub);
      case Vendor(_, vendor, subtype) =>
        Store32(buf, 8, vendor);
        Store32(buf, 12, subtype);
      case VendorStats(_, vendor, subtype) =>
        Store16(buf, 8, VENDOR);
        Store32(buf, 16, vendor);
        Store32(buf, 20, subtype);
      case Command(_, command) =>
        buf[25] := command;
      case LateCommand(_, sub) =>
        Store16(buf, 56, sub);
    }
  }

  /** `push_wire_types` of a message, on its buffer. */
  method PushWireTypes(buf: array<Byte>, cls: HeaderClass, v: Version)
    requires MarkOf(cls, v) != Absent && buf.Length >= Extent(MarkOf(cls, v))
    modifies buf
    ensures buf[..] == Stamped(old(buf[..]), v, MarkOf(cls, v)) && Within(v, buf[..]) && Classify(v, buf[..]) == cls
  {
    var mark := MarkOf(cls, v);
    StampClassify(cls, v, buf[..]);
    Push(buf, v, mark);
  }
}
