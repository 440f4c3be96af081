/**
  How one row of an attack profile is understood (mproxy/src/attack.c).
 */
module Rules {
  import opened Bytes
  import opened CStrings
  import opened Tables
  import opened Wrappers
  import Args
  import Csv

  // ----- Versions -----

  predicate StartsWith(s: string, prefix: string) {
    |s| >= |prefix| && s[..|prefix|] == prefix
  }

  /** `normalize_ofp_ver_str`; `None` is `OFP_VER_ERR`. */
  function NormalizeVersion(v: string): Option<VersionPattern> {
    if '.' in v && StartsWith(v, "1.0") then Some(1)
    else if '.' in v && StartsWith(v, "1.1") then Some(2)
    else if '.' in v && StartsWith(v, "1.2") then Some(3)
    else if '.' in v && StartsWith(v, "1.3") then Some(4)
    else if '.' in v && StartsWith(v, "1.4") then Some(5)
    else if StartsWith(v, "*") then Some(OFP_VER_ALL)
    else
      var n := Atoi(v);
      if OFP_VER_ALL <= n <= OFP_VER_MAX then Some(n) else None
  }

  // ----- Message types -----

  /** `OFP_MSG_ALIASES` from version 1.0 to 1.4, and for all versions in row 0. `""` stands for a null
      pointer. Where a comma is missing in the source, two names are one. */
  const COMMON := [
    "Hello", "Error", "EchoReq", "EchoRes", "",
    "FeatureReq", "FeatureRes", "GetConfigReq", "GetConfigRes", "SetConfig",
    "PacketIn", "FlowRemoved", "PortStatus", "PacketOut", "FlowMod",
    "", "", "", "", "",
    "", "", "", "", "RoleReq",
    "RoleRes", "GetAsyncReq", "GetAsyncRes", "SetAsync", "MeterMod",
    "RoleStatus", "TableStatus", "RequestForward", "BundleControl", "BundleAddMessage"
  ]
  const V1_0 := [
    "Hello", "Error", "EchoReq", "EchoRes", "Vendor",
    "FeatureReq", "FeatureRes", "GetConfigReq", "GetConfigRes", "SetConfig",
    "PacketIn", "FlowRemoved", "PortStatus", "PacketOut", "FlowMod",
    "PortMod", "StatsReq", "StatsRes", "BarrierReq", "BarrierRes",
    "QueueGetConfigReq", "QueueGetConfigRes"
  ]
  const V1_1 := [
    "Hello", "Error", "EchoReq", "EchoRes", "Experimenter",
    "FeatureReq", "FeatureRes", "GetConfigReq", "GetConfigRes", "SetConfig",
    "PacketIn", "FlowRemoved", "PortStatus", "PacketOut", "FlowMod",
    "GroupMod", "PortMod", "TableMod", "StatsReq", "StatsRes",
    "BarrierReq", "BarrierRes", "QueueGetConfigReq", "QueueGetConfigRes"
  ]
  const V1_2 := [
    "Hello", "Error", "EchoReq", "EchoRes", "Experimenter",
    "FeatureReq", "FeatureRes", "GetConfigReq", "GetConfigRes", "SetConfig",
    "PacketIn", "FlowRemoved", "PortStatus", "PacketOut", "FlowMod",
    "GroupMod", "PortMod", "TableMod", "StatsReq", "StatsRes",
    "BarrierReq", "BarrierRes", "QueueGetConfigReq", "QueueGetConfigRes", "RoleReq",
    "RoleRes"
  ]
  const V1_3 := [
    "Hello", "Error", "EchoReq", "EchoRes", "Experimenter",
    "FeatureReq", "FeatureRes", "GetConfigReq", "GetConfigRes", "SetConfig",
    "PacketIn", "FlowRemoved", "PortStatus", "PacketOut", "FlowMod",
    "GroupMod", "PortMod", "TableMod", "MultipartReq", "MultipartResBarrierReq",
    "BarrierRes", "QueueGetConfigReq", "QueueGetConfigRes", "RoleReq",
    "RoleRes", "GetAsyncReq", "GetAsyncRes", "SetAsync", "MeterMod"
  ]
  const V1_4 := [
    "Hello", "Error", "EchoReq", "EchoRes", "Experimenter",
    "FeatureReq", "FeatureRes", "GetConfigReq", "GetConfigRes", "SetConfig",
    "PacketIn", "FlowRemoved", "PortStatus", "PacketOut", "FlowMod",
    "GroupMod", "PortMod", "TableMod", "MultipartReq", "MultipartResBarrierReq",
    "BarrierRes", "", "", "RoleReq",
    "RoleRes", "GetAsyncReq", "GetAsyncRes", "SetAsync", "MeterMod",
    "RoleStatus", "TableStatus", "RequestForward", "BundleControl", "BundleAddMessage"
  ]

  function Aliases(version: VersionPattern): (aliases: seq<string>)
    ensures |aliases| <= AliasLen(version) <= COLUMNS
  {
    match version
    case 0 => COMMON
    case 1 => V1_0
    case 2 => V1_1
    case 3 => V1_2
    case 4 => V1_3
    case _ => V1_4
  }

  /** `OFP_MSG_ALIAS_LEN` */
  function AliasLen(version: VersionPattern): nat {
    match version
    case 0 => 35
    case 1 => 22
    case 2 => 24
    case 3 => 26
    case 4 => 30
    case _ => 35
  }

  /** What a message type field stands for. `PastTable`: the program reads behind the end of the
      table of names, where anything may stand. */
  datatype TypeReading = TypeIs(kind: TypePattern) | BadType | PastTable

  /** The search for a name in a table of the given declared length, from index `i` on. */
  function FindAlias(table: seq<string>, len: nat, s: string, i: nat): TypeReading
    requires |table| <= COLUMNS
    decreases len - i
  {
    if i >= len then BadType
    else if i >= |table| then PastTable
    else if table[i] != "" && table[i] == s then TypeIs(i)
    else FindAlias(table, len, s, i + 1)
  }

  function NumericType(version: VersionPattern, n: int): TypeReading {
    if n > AliasLen(version) || n < 0 then BadType
    else if n >= |Aliases(version)| then PastTable
    else if Aliases(version)[n] == "" then BadType
    else TypeIs(n)
  }

  function TypeOf(version: VersionPattern, s: string): TypeReading {
    if StartsWith(s, "*") then TypeIs(OFP_MSG_TYPE_ALL)
    else if s != "" && AllDigits(s) then NumericType(version, Atoi(s))
    else FindAlias(Aliases(version), AliasLen(version), s, 0)
  }

  /** A name stands for the first place in the table that holds it. */
  lemma {:induction false} NameFound(table: seq<string>, len: nat, s: string, i: nat, k: nat)
    requires i <= k < |table| <= len <= COLUMNS && table[k] == s && s != ""
    requires forall j :: i <= j < k ==> table[j] != s
    ensures FindAlias(table, len, s, i) == TypeIs(k)
    decreases k - i
  {
    if i < k {
      NameFound(table, len, s, i + 1, k);
    }
  }

  /** An unknown name is refused, except where the table is shorter than its declared length: there
      the search runs past its end. */
  lemma {:induction false} NameMissing(table: seq<string>, len: nat, s: string, i: nat)
    requires i <= |table| <= len <= COLUMNS && (s == "" || forall j :: i <= j < |table| ==> table[j] != s)
    ensures FindAlias(table, len, s, i) == if |table| < len then PastTable else BadType
    decreases |table| - i
  {
    if i < |table| {
      NameMissing(table, len, s, i + 1);
    }
  }

  /** `normalize_ofp_msg_type`, on the C string at `p`. */
  method NormalizeMsgType(version: VersionPattern, mem: array<char>, p: nat) returns (reading: TypeReading)
    requires Terminated(mem[..], p)
    ensures reading == TypeOf(version, CStr(mem[..], p))
  {
    var s := CStr(mem[..], p);
    if StartsWith(s, "*") {
      return TypeIs(OFP_MSG_TYPE_ALL);
    }
    var numeric := IsInt(mem, p);
    if numeric {
      return NumericType(version, Atoi(s));
    }
    var table, len := Aliases(version), AliasLen(version);
    var i := 0;
    while i < len
      invariant 0 <= i <= len
      invariant FindAlias(table, len, s, 0) == FindAlias(table, len, s, i)
    {
      if i >= |table| {
        return PastTable;
      }
      var alias := table[i];
      if alias != "" && alias == s {
        return TypeIs(i);
      }
      i := i + 1;
    }
    return BadType;
  }

  // ----- Actions and their arguments -----

  const ACTION_ID_DROP := 0
  const ACTION_ID_DELAY := 1
  const ACTION_ID_DUP := 2
  const ACTION_ID_LIE := 3

  /** `normalize_action_type`; `None` is `ACTION_ID_ERR`. */
  function NormalizeAction(s: string): Option<nat> {
    if s != "" && AllDigits(s) then
      var n := Atoi(s);
      if ACTION_ID_DROP <= n <= ACTION_ID_LIE then Some(n) else None
    else if s == "DROP" then Some(ACTION_ID_DROP)
    else if s == "DELAY" then Some(ACTION_ID_DELAY)
    else if s == "DUP" then Some(ACTION_ID_DUP)
    else if s == "LIE" then Some(ACTION_ID_LIE)
    else None
  }

  /** The first argument of the given name. */
  function FindArg(args: seq<Args.Arg>, name: string): Option<Args.Value> {
    if args == [] then None
    else if args[0].key == Some(name) then Some(args[0].value)
    else FindArg(args[1..], name)
  }

  function ClampChance(prob: SignedChar): SignedChar {
    if prob < 0 then 0 else if prob > 100 then 100 else prob
  }

  /** The drop chance a DROP rule asks for. There is none when a fraction does not fit into `char`:
      its conversion is then undefined. */
  function DropChance(args: seq<Args.Arg>): Option<SignedChar> {
    match FindArg(args, "p")
    case Some(IntValue(i)) => Some(ClampChance(ToSignedChar(i)))
    case Some(FloatValue(x)) => if x.Floor < 0x80 && x >= 0.0 then Some(ClampChance(x.Floor)) else None
    case _ => Some(100)
  }

  /** The extra copies a DUP rule asks for: `r - 1` in eight bits. */
  function DupExtra(args: seq<Args.Arg>): Byte {
    match FindArg(args, "r")
    case Some(IntValue(i)) => ToByte(ToByte(i) as int - 1)
    case _ => 0
  }

  // ----- Rows -----

  /** `Unmodelled`: what the program does with the row is undefined or, for quoted fields, outside of
      this model. */
  datatype Reading = Understood(rule: Rule) | Rejected | Unmodelled

  const ATTACKER_ROW_NUM_FIELDS := 8

  function RuleOf(version: VersionPattern, kind: TypePattern, action: nat, argString: string): Reading {
    if action == ACTION_ID_DROP then
      match Args.Parse(argString)
      case Overrun => Unmodelled
      case List(args) =>
        match DropChance(args)
        case None => Unmodelled
        case Some(chance) => Understood(Drop(version, kind, chance))
    else if action == ACTION_ID_DUP then
      match Args.Parse(argString)
      case Overrun => Unmodelled
      case List(args) => if DupExtra(args) < 1 then Rejected else Understood(Dup(version, kind, DupExtra(args)))
    else
      Understood(Idle)
  }

  /** What the eight fields of a row mean. */
  function ReadFields(fields: seq<string>): Reading
    requires |fields| == ATTACKER_ROW_NUM_FIELDS
  {
    match NormalizeVersion(fields[3])
    case None => Rejected
    case Some(version) =>
      match TypeOf(version, fields[4])
      case BadType => Rejected
      case PastTable => Unmodelled
      case TypeIs(kind) =>
        match NormalizeAction(fields[6])
        case None => Rejected
        case Some(action) => RuleOf(version, kind, action, fields[7])
  }

  /** The fields as C strings. */
  function Texts(fields: seq<string>): seq<string> {
    seq(|fields|, (i: nat) requires i < |fields| => CStr(fields[i], 0))
  }

  function ReadRow(row: string): Reading {
    if !Csv.Unquoted(row) then Unmodelled
    else if |Csv.Fields(row)| != ATTACKER_ROW_NUM_FIELDS then Rejected
    else ReadFields(Texts(Csv.Fields(row)))
  }
}
