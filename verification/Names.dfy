/**
  The names of message types against the types that the LOCI classes of these messages carry on the wire:
  two independent sources for the same numbers (mproxy/src/attack.c, mproxy/inc/loci/src).
 */
module Names {
  import opened CStrings
  import opened LociHeaders
  import opened Promises
  import opened Rules
  import opened Tables
  import opened Wire

  /** The name of a message that is a class of its own, "" if profiles have none for it. */
  function CoreName(cls: CoreClass): string {
    match cls
    case Hello => "Hello"
    case EchoRequest => "EchoReq"
    case EchoReply => "EchoRes"
    case FeaturesRequest => "FeatureReq"
    case FeaturesReply => "FeatureRes"
    case GetConfigRequest => "GetConfigReq"
    case GetConfigReply => "GetConfigRes"
    case SetConfig => "SetConfig"
    case PacketIn => "PacketIn"
    case FlowRemoved => "FlowRemoved"
    case PortStatus => "PortStatus"
    case PacketOut => "PacketOut"
    case PortMod => "PortMod"
    case TableMod => "TableMod"
    case BarrierRequest => "BarrierReq"
    case BarrierReply => "BarrierRes"
    case QueueGetConfigRequest => "QueueGetConfigReq"
    case QueueGetConfigReply => "QueueGetConfigRes"
    case RoleRequest => "RoleReq"
    case RoleReply => "RoleRes"
    case AsyncGetRequest => "GetAsyncReq"
    case AsyncGetReply => "GetAsyncRes"
    case AsyncSet => "SetAsync"
    case MeterMod => "MeterMod"
    case RoleStatus => "RoleStatus"
    case TableStatus => "TableStatus"
    case Requestforward => "RequestForward"
    case BundleCtrlMsg => "BundleControl"
    case BundleAddMsg => "BundleAddMessage"
    case Header => ""
  }

  /** The name of a message of any class. 1.3 renamed the statistics, 1.1 the vendors. */
  function NameOf(cls: HeaderClass, v: Version): string {
    match cls
    case Core(c) => CoreName(c)
    case Error(_) => "Error"
    case Flow(_) => "FlowMod"
    case Group(_) => "GroupMod"
    case Experimenter => if v == 1 then "Vendor" else "Experimenter"
    case Nicira(_) => if v == 1 then "Vendor" else "Experimenter"
    case Bsn(_) => if v == 1 then "Vendor" else "Experimenter"
    case Request(_) => if v <= 3 then "StatsReq" else "MultipartReq"
    case ExperimenterRequest => if v <= 3 then "StatsReq" else "MultipartReq"
    case BsnRequest(_) => if v <= 3 then "StatsReq" else "MultipartReq"
    case Reply(_) => if v <= 3 then "StatsRes" else "MultipartRes"
    case ExperimenterReply => if v <= 3 then "StatsRes" else "MultipartRes"
    case BsnReply(_) => if v <= 3 then "StatsRes" else "MultipartRes"
  }

  /** A class whose messages profiles can name: the table modification that LOCI has for 1.0 is not in the
      specification of that version. */
  predicate Named(cls: HeaderClass, v: Version) {
    MarkOf(cls, v) != Absent && !(v == 1 && cls == Core(TableMod))
  }

  /** A class that carries the type on the wire. */
  function ClassAt(v: Version, k: nat): HeaderClass {
    match k
    case 0 => Core(Hello)
    case 1 => Error(HelloFailedErrorMsg)
    case 2 => Core(EchoRequest)
    case 3 => Core(EchoReply)
    case 4 => Bsn(BsnGetMirroringRequest)
    case 5 => Core(FeaturesRequest)
    case 6 => Core(FeaturesReply)
    case 7 => Core(GetConfigRequest)
    case 8 => Core(GetConfigReply)
    case 9 => Core(SetConfig)
    case 10 => Core(PacketIn)
    case 11 => Core(FlowRemoved)
    case 12 => Core(PortStatus)
    case 13 => Core(PacketOut)
    case 14 => Flow(FlowAdd)
    case 15 => if v == 1 then Core(PortMod) else Group(GroupAdd)
    case 16 => if v == 1 then Request(DescStatsRequest) else Core(PortMod)
    case 17 => if v == 1 then Reply(DescStatsReply) else Core(TableMod)
    case 18 => if v == 1 then Core(BarrierRequest) else Request(DescStatsRequest)
    case 19 => if v == 1 then Core(BarrierReply) else Reply(DescStatsReply)
    case 20 => if v == 1 then Core(QueueGetConfigRequest) else Core(BarrierRequest)
    case 21 => if v == 1 then Core(QueueGetConfigReply) else Core(BarrierReply)
    case 22 => Core(QueueGetConfigRequest)
    case 23 => Core(QueueGetConfigReply)
    case 24 => Core(RoleRequest)
    case 25 => Core(RoleReply)
    case 26 => Core(AsyncGetRequest)
    case 27 => Core(AsyncGetReply)
    case 28 => Core(AsyncSet)
    case 29 => Core(MeterMod)
    case 30 => Core(RoleStatus)
    case 31 => Core(TableStatus)
    case 32 => Core(Requestforward)
    case 33 => Core(BundleCtrlMsg)
    case _ => Core(BundleAddMsg)
  }

  /** The types that have a name. */
  predicate HasName(v: Version, k: nat) {
    k < (if v == 1 then 22 else if v == 2 then 24 else if v == 3 then 26 else if v == 4 then 30 else 35)
    && !(v == 5 && (k == 22 || k == 23))
  }

  /** The name of a type, by its number. */
  function TypeName(v: Version, k: nat): string {
    match k
    case 0 => "Hello"
    case 1 => "Error"
    case 2 => "EchoReq"
    case 3 => "EchoRes"
    case 4 => if v == 1 then "Vendor" else "Experimenter"
    case 5 => "FeatureReq"
    case 6 => "FeatureRes"
    case 7 => "GetConfigReq"
    case 8 => "GetConfigRes"
    case 9 => "SetConfig"
    case 10 => "PacketIn"
    case 11 => "FlowRemoved"
    case 12 => "PortStatus"
    case 13 => "PacketOut"
    case 14 => "FlowMod"
    case 15 => if v == 1 then "PortMod" else "GroupMod"
    case 16 => if v == 1 then "StatsReq" else "PortMod"
    case 17 => if v == 1 then "StatsRes" else "TableMod"
    case 18 => if v == 1 then "BarrierReq" else if v <= 3 then "StatsReq" else "MultipartReq"
    case 19 => if v == 1 then "BarrierRes" else if v <= 3 then "StatsRes" else "MultipartRes"
    case 20 => if v == 1 then "QueueGetConfigReq" else "BarrierReq"
    case 21 => if v == 1 then "QueueGetConfigRes" else "BarrierRes"
    case 22 => "QueueGetConfigReq"
    case 23 => "QueueGetConfigRes"
    case 24 => "RoleReq"
    case 25 => "RoleRes"
    case 26 => "GetAsyncReq"
    case 27 => "GetAsyncRes"
    case 28 => "SetAsync"
    case 29 => "MeterMod"
    case 30 => "RoleStatus"
    case 31 => "TableStatus"
    case 32 => "RequestForward"
    case 33 => "BundleControl"
    case _ => "BundleAddMessage"
  }

  lemma TypeNameLow(v: Version, k: nat)
    requires k < 15
    ensures TypeName(v, k) == NameOf(ClassAt(v, k), v) != ""
  {
  }

  lemma TypeNameMiddle(v: Version, k: nat)
    requires 15 <= k < 22
    ensures TypeName(v, k) == NameOf(ClassAt(v, k), v) != ""
  {
  }

  lemma TypeNameHigh(v: Version, k: nat)
    requires 22 <= k && HasName(v, k)
    ensures TypeName(v, k) == NameOf(ClassAt(v, k), v) != ""
  {
  }

  lemma TypeNameIs(v: Version, k: nat)
    requires HasName(v, k)
    ensures TypeName(v, k) == NameOf(ClassAt(v, k), v) != ""
  {
    if k < 15 {
      TypeNameLow(v, k);
    } else if k < 22 {
      TypeNameMiddle(v, k);
    } else {
      TypeNameHigh(v, k);
    }
  }

  lemma CoreIsClassAt(cls: CoreClass, v: Version)
    requires Named(Core(cls), v)
    ensures var k := CoreMark(cls, v).kind as int;
            HasName(v, k) && ClassAt(v, k) == Core(cls)
  {
  }

  lemma FamilyKind(cls: HeaderClass, v: Version)
    requires MarkOf(cls, v) != Absent && !cls.Core?
    ensures MarkOf(cls, v).kind ==
            match cls
            case Error(_) => 0x1
            case Flow(_) => 0xe
            case Group(_) => 0xf
            case Experimenter => 0x4
            case Nicira(_) => 0x4
            case Bsn(_) => 0x4
            case Request(_) => if v == 1 then 0x10 else 0x12
            case ExperimenterRequest => if v == 1 then 0x10 else 0x12
            case BsnRequest(_) => if v == 1 then 0x10 else 0x12
            case Reply(_) => if v == 1 then 0x11 else 0x13
            case ExperimenterReply => if v == 1 then 0x11 else 0x13
            case BsnReply(_) => if v == 1 then 0x11 else 0x13
            case Core(_) => 0x0
    ensures cls.Group? ==> v >= 2
  {
  }

  lemma FamilyAt(cls: HeaderClass, v: Version)
    requires Named(cls, v) && !cls.Core?
    ensures var k := MarkOf(cls, v).kind as int;
            HasName(v, k) && NameOf(ClassAt(v, k), v) == NameOf(cls, v)
  {
    FamilyKind(cls, v);
  }

  lemma TableNames1(k: nat)
    requires HasName(1, k)
    ensures k < |V1_0| && V1_0[k] == TypeName(1, k)
  {
  }

  lemma TableNames2(k: nat)
    requires HasName(2, k)
    ensures k < |V1_1| && V1_1[k] == TypeName(2, k)
  {
  }

  lemma TableNames3(k: nat)
    requires HasName(3, k)
    ensures k < |V1_2| && V1_2[k] == TypeName(3, k)
  {
  }

  lemma TableNames4(k: nat)
    requires HasName(4, k)
    ensures k <= |V1_3| && (k < 19 ==> V1_3[k] == TypeName(4, k))
    ensures k > 20 ==> V1_3[k - 1] == TypeName(4, k)
  {
  }

  lemma TableNames5(k: nat)
    requires HasName(5, k)
    ensures k <= |V1_4| && (k < 19 ==> V1_4[k] == TypeName(5, k))
    ensures k > 20 ==> V1_4[k - 1] == TypeName(5, k)
  {
  }

  lemma TableNames(v: Version, k: nat)
    requires HasName(v, k)
    ensures k < |Intended(v)| && Intended(v)[k] == NameOf(ClassAt(v, k), v) != ""
  {
    TypeNameIs(v, k);
    match v
    case 1 => TableNames1(k);
    case 2 => TableNames2(k);
    case 3 => TableNames3(k);
    case 4 =>
      TableNames4(k);
      IntendedAt(4, k);
    case 5 =>
      TableNames5(k);
      IntendedAt(5, k);
  }

  lemma NamedAt(cls: HeaderClass, v: Version)
    requires Named(cls, v)
    ensures var k := MarkOf(cls, v).kind as int;
            HasName(v, k) && k < |Intended(v)| && Intended(v)[k] == NameOf(cls, v) != ""
  {
    if cls.Core? {
      CoreIsClassAt(cls.core, v);
    } else {
      FamilyAt(cls, v);
    }
    TableNames(v, MarkOf(cls, v).kind as int);
  }

  /** For every version and every message class that has a name: up to 1.2, and below type 19, the name stands
      for the type that the class carries on the wire. For 1.3 and 1.4, the names of types 19 and 20 run past
      the table, and those of higher types stand for the type before. */
  lemma NamesMeanTypes(cls: HeaderClass, v: Version)
    requires Named(cls, v)
    ensures var k := MarkOf(cls, v).kind as int;
            && (v <= 3 || k < 19 ==> TypeOf(v, NameOf(cls, v)) == TypeIs(k))
            && (v >= 4 && (k == 19 || k == 20) ==> TypeOf(v, NameOf(cls, v)) == PastTable)
            && (v >= 4 && k > 20 ==> TypeOf(v, NameOf(cls, v)) == TypeIs(k - 1))
  {
    NamedAt(cls, v);
    NamesShifted(v, MarkOf(cls, v).kind as int);
  }

  // ----- There are no other names -----

  lemma NoNameElsewhere(v: Version, k: nat)
    requires k < |Intended(v)| && Intended(v)[k] != ""
    ensures HasName(v, k)
  {
    TableLengths();
  }

  lemma TableLengths()
    ensures |V1_0| == 22 && |V1_1| == 24 && |V1_2| == 26 && |V1_3| == 29 && |V1_4| == 34
    ensures V1_4[21] == "" && V1_4[22] == ""
  {
  }

  lemma ClassAtLow(v: Version, k: nat)
    requires k < 15
    ensures Named(ClassAt(v, k), v) && MarkOf(ClassAt(v, k), v).kind as int == k
  {
  }

  lemma ClassAtMiddle(v: Version, k: nat)
    requires 15 <= k < 22
    ensures Named(ClassAt(v, k), v) && MarkOf(ClassAt(v, k), v).kind as int == k
  {
  }

  lemma ClassAtHigh(v: Version, k: nat)
    requires 22 <= k && HasName(v, k)
    ensures Named(ClassAt(v, k), v) && MarkOf(ClassAt(v, k), v).kind as int == k
  {
  }

  lemma ClassAtNamed(v: Version, k: nat)
    requires HasName(v, k)
    ensures Named(ClassAt(v, k), v) && MarkOf(ClassAt(v, k), v).kind as int == k
  {
    if k < 15 {
      ClassAtLow(v, k);
    } else if k < 22 {
      ClassAtMiddle(v, k);
    } else {
      ClassAtHigh(v, k);
    }
  }

  /** Every name in the tables, as they are meant to be, is the name of a class of its type. */
  lemma NamesAreOfClasses(v: Version, k: nat)
    requires k < |Intended(v)| && Intended(v)[k] != ""
    ensures var cls := ClassAt(v, k);
            Named(cls, v) && MarkOf(cls, v).kind as int == k && Intended(v)[k] == NameOf(cls, v)
  {
    NoNameElsewhere(v, k);
    ClassAtNamed(v, k);
    NamedAt(ClassAt(v, k), v);
  }

  // ----- Names for all versions -----

  lemma CommonLow(v: Version, k: nat)
    requires k < 15 && k != 4
    ensures HasName(v, k) && TypeName(v, k) == COMMON[k] != ""
  {
  }

  lemma CommonHigh(v: Version, k: nat)
    requires 24 <= k < 35
    ensures TypeName(v, k) == COMMON[k] != ""
  {
  }

  lemma CommonGaps(k: nat)
    requires k < 35 && (k == 4 || 15 <= k < 24)
    ensures COMMON[k] == ""
  {
  }

  /** With the version `*`, exactly the types 0 to 3, 5 to 14 and 24 to 34 have names, and they stand for their
      types. Each is the name of the type in every version that has this type. */
  lemma CommonNames(v: Version, k: nat)
    requires k < 35
    ensures COMMON[k] != "" <==> k <= 3 || 5 <= k <= 14 || 24 <= k <= 34
    ensures COMMON[k] != "" ==> TypeOf(0, COMMON[k]) == TypeIs(k)
    ensures COMMON[k] != "" && HasName(v, k) ==> k < |Intended(v)| && Intended(v)[k] == COMMON[k]
  {
    if k == 4 || 15 <= k < 24 {
      CommonGaps(k);
    } else {
      if k < 15 {
        CommonLow(v, k);
      } else {
        CommonHigh(v, k);
      }
      EntryFound(0, k);
      if HasName(v, k) {
        TypeNameIs(v, k);
        TableNames(v, k);
      }
    }
  }

  // ----- Numbers and wildcards -----

  lemma StarIsAll(v: VersionPattern, s: string)
    requires s != "" && s[0] == '*'
    ensures TypeOf(v, s) == TypeIs(-1)
  {
    assert s[..1] == "*";
  }

  lemma DigitsAtoi(s: string)
    requires s != "" && AllDigits(s) && DigitsValue(s, 0) <= 34
    ensures Atoi(s) == DigitsValue(s, 0) && !StartsWith(s, "*")
  {
    AtoiSmallDigits(s, DigitsValue(s, 0));
    assert !StartsWith(s, "*") by {
      assert s[..1][0] == s[0];
    }
  }

  lemma ReadAsNumber(v: VersionPattern, s: string, n: int, r: TypeReading)
    requires s != "" && AllDigits(s) && !StartsWith(s, "*") && Atoi(s) == n && r == NumericType(v, n)
    ensures TypeOf(v, s) == r
  {
  }

  lemma DigitsAreNumbers(v: VersionPattern, s: string, n: nat, r: TypeReading)
    requires s != "" && AllDigits(s) && n == DigitsValue(s, 0) <= 34 && r == NumericType(v, n)
    ensures TypeOf(v, s) == r
  {
    DigitsAtoi(s);
    ReadAsNumber(v, s, n, r);
  }

  lemma MeantByNumber(v: Version, n: nat)
    requires n <= 34
    ensures MeantNumber(v, n) == if HasName(v, n) then TypeIs(n) else BadType
  {
    if HasName(v, n) {
      TypeNameIs(v, n);
      TableNames(v, n);
    } else if n < |Intended(v)| && Intended(v)[n] != "" {
      NoNameElsewhere(v, n);
    }
  }

  lemma NumbersFound(v: Version, n: nat, r: TypeReading)
    requires n <= 34 && r == NumericType(v, n)
    ensures r == TypeIs(n) <==>
            || (HasName(v, n) && !(v == 4 && n == 29) && !(v == 5 && (n == 21 || n == 34)))
            || (v == 5 && n == 23)
  {
    assert MeantNumber(v, n) == if HasName(v, n) then TypeIs(n) else BadType by {
      MeantByNumber(v, n);
    }
    assert |Aliases(v)| >= 0 && AliasLen(v) == (if v == 1 then 22 else if v == 2 then 24 else if v == 3 then 26
                                                else if v == 4 then 30 else 35);
    NumbersRead(v, n);
  }

  /** Digits stand for the type of this number exactly if the version has a name for the type; but type 29 of 1.3
      and types 21 and 34 of 1.4 are not found, and 23 of 1.4 is. */
  lemma NumbersMeanTypes(v: Version, s: string, n: nat)
    requires s != "" && AllDigits(s) && n == DigitsValue(s, 0) <= 34
    ensures TypeOf(v, s) == TypeIs(n) <==>
            || (HasName(v, n) && !(v == 4 && n == 29) && !(v == 5 && (n == 21 || n == 34)))
            || (v == 5 && n == 23)
  {
    var r := NumericType(v, n);
    assert TypeOf(v, s) == r by {
      DigitsAreNumbers(v, s, n, r);
    }
    NumbersFound(v, n, r);
  }
}
