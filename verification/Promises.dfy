/**
  What the names, numbers and versions in a profile are meant to stand for, and exactly when the reader
  takes them so (mproxy/src/attack.c).
 */
module Promises {
  import opened CStrings
  import opened Rules
  import opened Tables
  import opened Wrappers

  // ----- Message types by name -----

  /** A table with the missing comma put back, between places 19 and 20. */
  function Restored(table: seq<string>): (names: seq<string>)
    requires |table| >= 20
    ensures |names| == |table| + 1
  {
    table[..19] + ["MultipartRes", "BarrierReq"] + table[20..]
  }

  /** The names in the order of the types, with the comma that is missing in the tables of 1.3 and 1.4. */
  function Intended(version: VersionPattern): (names: seq<string>)
    ensures |names| == if version >= 4 then |Aliases(version)| + 1 else |Aliases(version)|
  {
    if version >= 4 then Restored(Aliases(version)) else Aliases(version)
  }

  // No table holds a name twice.

  lemma DistinctCommonLow(i: nat, j: nat)
    requires i < j < |COMMON| && i < 8 && COMMON[i] != ""
    ensures COMMON[i] != COMMON[j]
  {
  }

  lemma DistinctCommonHigh(i: nat, j: nat)
    requires 8 <= i < j < |COMMON| && COMMON[i] != ""
    ensures COMMON[i] != COMMON[j]
  {
  }

  lemma Distinct0(i: nat, j: nat)
    requires i < j < |V1_0|
    ensures V1_0[i] != V1_0[j]
  {
  }

  lemma Distinct1(i: nat, j: nat)
    requires i < j < |V1_1|
    ensures V1_1[i] != V1_1[j]
  {
  }

  lemma Distinct2(i: nat, j: nat)
    requires i < j < |V1_2|
    ensures V1_2[i] != V1_2[j]
  {
  }

  lemma Distinct3(i: nat, j: nat)
    requires i < j < |V1_3|
    ensures V1_3[i] != V1_3[j]
  {
  }

  lemma Distinct4Low(i: nat, j: nat)
    requires i < j < 16 && i < 8 && V1_4[i] != ""
    ensures V1_4[i] != V1_4[j]
  {
  }

  lemma Distinct4Across(i: nat, j: nat)
    requires i < 8 && 16 <= j < |V1_4| && V1_4[i] != ""
    ensures V1_4[i] != V1_4[j]
  {
  }

  lemma Distinct4High(i: nat, j: nat)
    requires 8 <= i < j < |V1_4| && V1_4[i] != ""
    ensures V1_4[i] != V1_4[j]
  {
  }

  lemma Distinct(version: VersionPattern, i: nat, j: nat)
    requires i < j < |Aliases(version)| && Aliases(version)[i] != ""
    ensures Aliases(version)[i] != Aliases(version)[j]
  {
    match version
    case 0 =>
      if i < 8 {
        DistinctCommonLow(i, j);
      } else {
        DistinctCommonHigh(i, j);
      }
    case 1 => Distinct0(i, j);
    case 2 => Distinct1(i, j);
    case 3 => Distinct2(i, j);
    case 4 => Distinct3(i, j);
    case _ =>
      if i < 8 && j < 16 {
        Distinct4Low(i, j);
      } else if i < 8 {
        Distinct4Across(i, j);
      } else {
        Distinct4High(i, j);
      }
  }

  /** The two names that the missing comma joins are in no table that lacks it. */
  lemma JoinedAreMissing(version: VersionPattern, s: string, j: nat)
    requires version >= 4 && (s == "MultipartRes" || s == "BarrierReq") && j < |Aliases(version)|
    ensures Aliases(version)[j] != s
  {
  }

  lemma NameShapeTo12(version: VersionPattern, j: nat)
    requires version <= 3 && j < |Aliases(version)| && Aliases(version)[j] != ""
    ensures 'A' <= Aliases(version)[j][0] <= 'Z'
  {
  }

  lemma NameShapeFrom13(version: VersionPattern, j: nat)
    requires version >= 4 && j < |Aliases(version)| && Aliases(version)[j] != ""
    ensures 'A' <= Aliases(version)[j][0] <= 'Z'
  {
  }

  /** Names start with a letter. */
  lemma NameShape(version: VersionPattern, j: nat)
    requires j < |Aliases(version)| && Aliases(version)[j] != ""
    ensures 'A' <= Aliases(version)[j][0] <= 'Z'
  {
    if version <= 3 {
      NameShapeTo12(version, j);
    } else {
      NameShapeFrom13(version, j);
    }
  }

  lemma RestoredAt(table: seq<string>, k: nat)
    requires 20 <= |table| && k <= |table|
    ensures Restored(table)[k] == if k == 19 then "MultipartRes" else if k == 20 then "BarrierReq"
                                  else if k < 19 then table[k] else table[k - 1]
  {
  }

  /** Where the intended names are found in the tables. */
  lemma IntendedAt(version: VersionPattern, k: nat)
    requires k < |Intended(version)|
    ensures version <= 3 || k < 19 ==> k < |Aliases(version)| && Intended(version)[k] == Aliases(version)[k]
    ensures version >= 4 && k == 19 ==> Intended(version)[k] == "MultipartRes"
    ensures version >= 4 && k == 20 ==> Intended(version)[k] == "BarrierReq"
    ensures version >= 4 && k > 20 ==> Intended(version)[k] == Aliases(version)[k - 1]
  {
    if version >= 4 {
      RestoredAt(Aliases(version), k);
    }
  }

  /** A string that is neither a wildcard nor a number is looked up. */
  predicate IsName(s: string) {
    !StartsWith(s, "*") && (s == "" || !AllDigits(s))
  }

  lemma LetterIsName(s: string)
    requires s != "" && 'A' <= s[0] <= 'Z'
    ensures IsName(s)
  {
    assert s[..1] != "*" by {
      assert s[..1][0] == s[0];
    }
  }

  /** The entry at `k` of a table is what its name stands for. */
  lemma EntryFound(version: VersionPattern, k: nat)
    requires k < |Aliases(version)| && Aliases(version)[k] != ""
    ensures TypeOf(version, Aliases(version)[k]) == TypeIs(k)
  {
    var s := Aliases(version)[k];
    NameShape(version, k);
    LetterIsName(s);
    forall j | 0 <= j < k
      ensures Aliases(version)[j] != s
    {
      if Aliases(version)[j] != "" {
        Distinct(version, j, k);
      }
    }
    NameFound(Aliases(version), AliasLen(version), s, 0, k);
  }

  lemma JoinedOverruns(version: VersionPattern, s: string)
    requires version >= 4 && (s == "MultipartRes" || s == "BarrierReq")
    ensures TypeOf(version, s) == PastTable
  {
    LetterIsName(s);
    forall j | 0 <= j < |Aliases(version)|
      ensures Aliases(version)[j] != s
    {
      JoinedAreMissing(version, s, j);
    }
    NameMissing(Aliases(version), AliasLen(version), s, 0);
  }

  /** For every version and every type that has a name: the name stands for its type exactly up to 1.2 or
      in front of the missing comma. The two names it joins lead behind the table, and all later ones
      stand for the type in front of theirs. */
  lemma NamesShifted(version: VersionPattern, k: nat)
    requires k < |Intended(version)| && Intended(version)[k] != ""
    ensures TypeOf(version, Intended(version)[k]) == TypeIs(k) <==> version <= 3 || k < 19
    ensures version >= 4 && (k == 19 || k == 20) ==> TypeOf(version, Intended(version)[k]) == PastTable
    ensures version >= 4 && k > 20 ==> TypeOf(version, Intended(version)[k]) == TypeIs(k - 1)
  {
    IntendedAt(version, k);
    if version <= 3 || k < 19 {
      EntryFound(version, k);
    } else if k <= 20 {
      JoinedOverruns(version, Intended(version)[k]);
    } else {
      EntryFound(version, k - 1);
    }
  }

  /** What is no name of the version is refused exactly up to 1.2. For 1.3 and 1.4 its search leaves the
      table, unless it is the two joined names together: these stand for type 19. */
  lemma UnknownNames(version: VersionPattern, s: string)
    requires IsName(s) && (s == "" || s !in Intended(version))
    ensures TypeOf(version, s) == BadType <==> version <= 3
    ensures version >= 4 ==> TypeOf(version, s) == if s == "MultipartResBarrierReq" then TypeIs(19) else PastTable
  {
    if s == "" {
      NameMissing(Aliases(version), AliasLen(version), s, 0);
    } else if version >= 4 && s == "MultipartResBarrierReq" {
      EntryFound(version, 19);
    } else {
      forall j | 0 <= j < |Aliases(version)|
        ensures Aliases(version)[j] != s
      {
        EntryIntended(version, j);
      }
      NameMissing(Aliases(version), AliasLen(version), s, 0);
    }
  }

  lemma EntryRestored(table: seq<string>, j: nat)
    requires 20 <= |table| && j < |table| && j != 19
    ensures table[j] in Restored(table)
  {
    if j < 19 {
      RestoredAt(table, j);
      assert Restored(table)[j] == table[j];
    } else {
      RestoredAt(table, j + 1);
      assert Restored(table)[j + 1] == table[j];
    }
  }

  lemma JoinedEntry(version: VersionPattern)
    requires version >= 4
    ensures |Aliases(version)| >= 20 && Aliases(version)[19] == "MultipartResBarrierReq"
  {
  }

  lemma EntryIntended(version: VersionPattern, j: nat)
    requires j < |Aliases(version)|
    ensures Aliases(version)[j] in Intended(version) ||
            (version >= 4 && j == 19 && Aliases(version)[j] == "MultipartResBarrierReq")
  {
    if version >= 4 {
      JoinedEntry(version);
      if j != 19 {
        EntryRestored(Aliases(version), j);
      }
    }
  }

  /** The role request of 1.3, type 24, is taken for type 23. */
  lemma RoleRequestShifted()
    ensures Intended(4)[24] == "RoleReq" && TypeOf(4, "RoleReq") == TypeIs(23)
  {
    NamesShifted(4, 24);
  }

  /** The multipart reply of 1.3 is looked for behind the table. */
  lemma MultipartReplyOverruns()
    ensures Intended(4)[19] == "MultipartRes" && TypeOf(4, "MultipartRes") == PastTable
  {
    NamesShifted(4, 19);
  }

  // ----- Message types by number -----

  /** What a number is meant to stand for: a type that the version has and that has a name. */
  function MeantNumber(version: VersionPattern, n: int): TypeReading {
    if 0 <= n < |Intended(version)| && Intended(version)[n] != "" then TypeIs(n) else BadType
  }

  lemma NumbersReadTo12(version: VersionPattern, n: int)
    requires version <= 3
    ensures NumericType(version, n) == MeantNumber(version, n) <==> n != AliasLen(version)
    ensures n == AliasLen(version) ==> NumericType(version, n) == PastTable
  {
  }

  lemma NumbersRead13(n: int)
    ensures NumericType(4, n) == MeantNumber(4, n) <==> n != 30 && n != 29
    ensures n == 30 || n == 29 ==> NumericType(4, n) == PastTable
  {
    if 0 <= n < 30 {
      IntendedAt(4, n);
    }
  }

  lemma NumbersRead14(n: int)
    ensures NumericType(5, n) == MeantNumber(5, n) <==> n != 35 && n != 34 && n != 21 && n != 23
    ensures n == 35 || n == 34 ==> NumericType(5, n) == PastTable
    ensures NumericType(5, 21) == BadType && NumericType(5, 23) == TypeIs(23)
  {
    if 0 <= n < 35 {
      IntendedAt(5, n);
    }
  }

  /** A number is read as it is meant to except for the declared length of the table, which is let through
      and read behind the table; for the last type of 1.3 and 1.4, which the missing comma leaves behind
      the table; and for types 21 and 23 of 1.4, where names and gaps have moved. */
  lemma NumbersRead(version: VersionPattern, n: int)
    ensures NumericType(version, n) == MeantNumber(version, n) <==>
            n != AliasLen(version) && !(version >= 4 && n == AliasLen(version) - 1)
            && !(version == 5 && (n == 21 || n == 23))
    ensures n == AliasLen(version) || (version >= 4 && n == AliasLen(version) - 1) ==>
              NumericType(version, n) == PastTable
    ensures NumericType(5, 21) == BadType && NumericType(5, 23) == TypeIs(23)
  {
    NumbersRead14(n);
    if version <= 3 {
      NumbersReadTo12(version, n);
    } else if version == 4 {
      NumbersRead13(n);
    }
  }

  // ----- Versions -----

  predicate StartsProtocol(v: string, version: VersionPattern) {
    version > 0 && |v| >= 3 && v[..3] == ['1', '.', '0' + (version - 1) as char]
  }

  /** The ways to write a version pattern: its number, `*` for all, or the name of the protocol, with or
      without a patch level. */
  predicate SpellsVersion(text: string, version: VersionPattern) {
    || text == Decimal(version)
    || (version == OFP_VER_ALL && text == "*")
    || (StartsProtocol(text, version) && (|text| == 3 || (|text| > 4 && text[3] == '.' && AllDigits(text[4..]))))
  }

  lemma {:induction false} DecimalSmall(n: nat)
    requires n < 10
    ensures Decimal(n) == ['0' + n as char]
  {
  }

  lemma AtoiSmall(n: nat)
    requires n < 0x8000_0000
    ensures Atoi(Decimal(n)) == n
  {
    AtoiDecimal(n);
  }

  lemma {:induction false} NoNulInDigits(s: string)
    requires AllDigits(s)
    ensures NUL !in s
  {
  }

  lemma ProtocolReads(v: string, version: VersionPattern)
    requires StartsProtocol(v, version)
    ensures NormalizeVersion(v) == Some(version)
  {
    assert v[1] == v[..3][1] == '.';
    assert v[..3][2] == '0' + (version - 1) as char;
  }

  /** Every spelling of a version pattern is read as this pattern. */
  lemma VersionReads(text: string, version: VersionPattern)
    requires SpellsVersion(text, version)
    ensures NormalizeVersion(text) == Some(version) && NUL !in text
  {
    DecimalSmall(version);
    AtoiSmall(version);
    if text == Decimal(version) || text == "*" {
      assert '.' !in text;
    } else {
      ProtocolReads(text, version);
      SpellingNoNul(text, version);
    }
  }

  lemma SpellingNoNul(text: string, version: VersionPattern)
    requires StartsProtocol(text, version) && (|text| == 3 || (|text| > 4 && text[3] == '.' && AllDigits(text[4..])))
    ensures NUL !in text
  {
    assert forall i :: 0 <= i < 3 ==> text[i] == text[..3][i];
    assert forall i :: 4 <= i < |text| ==> text[i] == text[4..][i - 4];
  }

  /** What stands at the start of a string: blanks, a sign, digits; and the rest. */
  datatype Leading = Leading(spaces: string, sign: string, digits: string, rest: string)

  predicate Leads(v: string, n: Leading) {
    && v == n.spaces + n.sign + n.digits + n.rest
    && (forall i :: 0 <= i < |n.spaces| ==> IsSpace(n.spaces[i]))
    && n.sign in ["", "-", "+"] && AllDigits(n.digits)
    && (n.rest != "" ==> !IsDigit(n.rest[0]))
    && (n.sign == "" && n.digits == "" && n.rest != "" ==>
          !IsSpace(n.rest[0]) && n.rest[0] != '-' && n.rest[0] != '+')
  }

  /** The number at the start of a string, 0 if there is none, as an `int`. */
  function NumberOf(n: Leading): int {
    var value: int := DigitsValue(n.digits, 0);
    ToInt(Saturate(if n.sign == "-" then -value else value))
  }

  lemma {:induction false} SkipsSpaces(spaces: string, s: string)
    requires forall i :: 0 <= i < |spaces| ==> IsSpace(spaces[i])
    requires s != "" ==> !IsSpace(s[0])
    ensures SkipSpaces(spaces + s) == s
    decreases |spaces|
  {
    if spaces == "" {
      assert spaces + s == s;
    } else {
      assert (spaces + s)[1..] == spaces[1..] + s;
      SkipsSpaces(spaces[1..], s);
    }
  }

  lemma {:induction false} DigitsStop(digits: string, rest: string, acc: nat)
    requires AllDigits(digits) && (rest != "" ==> !IsDigit(rest[0]))
    ensures DigitsValue(digits + rest, acc) == DigitsValue(digits, acc)
    decreases |digits|
  {
    if digits == "" {
      assert digits + rest == rest;
    } else {
      assert (digits + rest)[1..] == digits[1..] + rest;
      DigitsStop(digits[1..], rest, 10 * acc + (digits[0] as int - '0' as int));
    }
  }

  lemma AtoiLeading(v: string, n: Leading)
    requires Leads(v, n)
    ensures Atoi(v) == NumberOf(n)
  {
    var s := n.sign + n.digits + n.rest;
    assert v == n.spaces + s;
    assert s != "" ==> !IsSpace(s[0]);
    SkipsSpaces(n.spaces, s);
    DigitsStop(n.digits, n.rest, 0);
    if n.sign == "" {
      assert s == n.digits + n.rest;
      assert s != "" ==> s[0] != '-' && s[0] != '+';
    } else {
      assert s[1..] == n.digits + n.rest;
    }
  }

  /** Every string starts in such a way. */
  lemma {:induction false} LeadingOf(v: string) returns (n: Leading)
    ensures Leads(v, n)
    decreases |v|
  {
    if v != "" && IsSpace(v[0]) {
      var m := LeadingOf(v[1..]);
      n := m.(spaces := [v[0]] + m.spaces);
      LeadsMore(v, m, n);
    } else {
      n := LeadingNow(v);
    }
  }

  lemma LeadsMore(v: string, m: Leading, n: Leading)
    requires v != "" && IsSpace(v[0]) && Leads(v[1..], m) && n == m.(spaces := [v[0]] + m.spaces)
    ensures Leads(v, n)
  {
    assert v == [v[0]] + v[1..];
    assert v == n.spaces + n.sign + n.digits + n.rest;
  }

  lemma LeadingNow(v: string) returns (n: Leading)
    requires v != "" ==> !IsSpace(v[0])
    ensures Leads(v, n)
  {
    var sign := if v != "" && (v[0] == '-' || v[0] == '+') then [v[0]] else [];
    var k := DigitsEnd(v, |sign|);
    n := Leading("", sign, v[|sign|..k], v[k..]);
    assert v == "" + sign + v[|sign|..k] + v[k..];
    assert sign == "" || sign == "-" || sign == "+";
  }

  function DigitsEnd(v: string, i: nat): (k: nat)
    requires i <= |v|
    ensures i <= k <= |v| && (k < |v| ==> !IsDigit(v[k]))
    ensures forall j :: i <= j < k ==> IsDigit(v[j])
    decreases |v| - i
  {
    if i < |v| && IsDigit(v[i]) then DigitsEnd(v, i + 1) else i
  }

  /** Nothing at the start of the string speaks for a version. */
  predicate Hopeless(v: string, n: Leading) {
    (forall version: VersionPattern :: !StartsProtocol(v, version)) && !StartsWith(v, "*") &&
    !(OFP_VER_ALL <= NumberOf(n) <= OFP_VER_MAX)
  }

  /** How every version field is read: by the protocol it starts with, as the wildcard, or by the number it
      starts with (0 if there is none, wrapped to 32 bits); it is refused exactly if all of this fails. */
  lemma VersionFields(v: string, n: Leading)
    requires Leads(v, n)
    ensures NormalizeVersion(v) == None <==> Hopeless(v, n)
    ensures forall version: VersionPattern :: StartsProtocol(v, version) ==> NormalizeVersion(v) == Some(version)
    ensures (forall version: VersionPattern :: !StartsProtocol(v, version)) && !Hopeless(v, n) ==>
              NormalizeVersion(v) == Some(if StartsWith(v, "*") then OFP_VER_ALL else NumberOf(n))
  {
    AtoiLeading(v, n);
    forall version: VersionPattern | StartsProtocol(v, version)
      ensures NormalizeVersion(v) == Some(version)
    {
      ProtocolReads(v, version);
    }
    if forall version: VersionPattern :: !StartsProtocol(v, version) {
      NoProtocol(v);
    }
  }

  lemma NoProtocol(v: string)
    requires forall version: VersionPattern :: !StartsProtocol(v, version)
    ensures NormalizeVersion(v) ==
            if StartsWith(v, "*") then Some(OFP_VER_ALL)
            else if OFP_VER_ALL <= Atoi(v) <= OFP_VER_MAX then Some(Atoi(v)) else None
  {
    assert !StartsProtocol(v, 1) && !StartsProtocol(v, 2) && !StartsProtocol(v, 3);
    assert !StartsProtocol(v, 4) && !StartsProtocol(v, 5);
  }

  /** A version field is treated as it is meant to be: its spellings stand for their versions, and anything
      else is refused. */
  ghost predicate TreatedWell(v: string) {
    && (forall version: VersionPattern :: SpellsVersion(v, version) ==> NormalizeVersion(v) == Some(version))
    && ((forall version: VersionPattern :: !SpellsVersion(v, version)) ==> NormalizeVersion(v) == None)
  }

  /** This is so exactly for spellings and for what is hopeless. A field that spells no version, but starts
      like one, is taken for a version instead of being refused. */
  lemma VersionsTreatedWell(v: string, n: Leading)
    requires Leads(v, n)
    ensures TreatedWell(v) <==> (exists version: VersionPattern :: SpellsVersion(v, version)) || Hopeless(v, n)
  {
    VersionFields(v, n);
    forall version: VersionPattern | SpellsVersion(v, version)
      ensures NormalizeVersion(v) == Some(version)
    {
      VersionReads(v, version);
    }
  }

  lemma NotProtocol(v: string)
    requires |v| < 3 || v[0] != '1' || v[1] != '.' || !('0' <= v[2] <= '4')
    ensures forall version: VersionPattern :: !StartsProtocol(v, version)
  {
    if |v| >= 3 {
      assert v[..3][0] == v[0] && v[..3][1] == v[1] && v[..3][2] == v[2];
    }
  }

  /** A digit in front of a dot is taken for a version, although it spells none, unless the protocol is
      known. */
  lemma DottedDigit(v: string, version: VersionPattern)
    requires |v| >= 3 && v[0] == '0' + version as char && v[1] == '.' && (v[0] != '1' || !('0' <= v[2] <= '4'))
    ensures NormalizeVersion(v) == Some(version) && !TreatedWell(v)
  {
    var n := Leading("", "", [v[0]], v[1..]);
    NotProtocol(v);
    assert Leads(v, n) && NumberOf(n) == version by {
      assert v == "" + "" + [v[0]] + v[1..];
      assert DigitsValue([v[0]], 0) == DigitsValue([v[0]][1..], version);
    }
    assert !StartsWith(v, "*") by {
      assert v[..1][0] == v[0];
    }
    assert NormalizeVersion(v) == Some(version) by {
      VersionFields(v, n);
    }
    Unspelled(v);
  }

  /** Longer texts that do not start like a protocol spell no version. */
  lemma Unspelled(v: string)
    requires |v| >= 2 && forall version: VersionPattern :: !StartsProtocol(v, version)
    ensures forall version: VersionPattern :: !SpellsVersion(v, version)
  {
    forall version: VersionPattern
      ensures !SpellsVersion(v, version)
    {
      DecimalSmall(version);
    }
  }

  /** A field that starts like no number, or an empty one, stands for all versions. */
  lemma NoVersionIsEveryVersion(v: string)
    requires v != "" ==> !IsSpace(v[0]) && !IsDigit(v[0]) && v[0] != '-' && v[0] != '+'
    ensures NormalizeVersion(v) == Some(OFP_VER_ALL)
  {
    var n := Leading("", "", "", v);
    NotProtocol(v);
    assert v == "" + "" + "" + v;
    VersionFields(v, n);
  }

  /** The names of the protocols, their numbers, and the wildcards. */
  lemma VersionsByName()
    ensures NormalizeVersion("1.0") == Some(1) && NormalizeVersion("1.1") == Some(2)
    ensures NormalizeVersion("1.2") == Some(3) && NormalizeVersion("1.3") == Some(4)
    ensures NormalizeVersion("1.4") == Some(5) && NormalizeVersion("*") == Some(0)
    ensures forall n :: 0 <= n <= 5 ==> NormalizeVersion(['0' + n as char]) == Some(n)
  {
    assert "*"[..1] == "*";
    assert StartsProtocol("1.0", 1) && StartsProtocol("1.1", 2) && StartsProtocol("1.2", 3);
    assert StartsProtocol("1.3", 4) && StartsProtocol("1.4", 5);
    ProtocolReads("1.0", 1);
    ProtocolReads("1.1", 2);
    ProtocolReads("1.2", 3);
    ProtocolReads("1.3", 4);
    ProtocolReads("1.4", 5);
    forall n | 0 <= n <= 5
      ensures NormalizeVersion(['0' + n as char]) == Some(n)
    {
      DecimalSmall(n);
      VersionReads(Decimal(n), n);
    }
  }

  /** Fields that spell no version and are not refused: `1.5` is taken for 1.0, `2.0` for 1.1, and an empty
      field or a word for all versions. */
  lemma WrongVersions()
    ensures NormalizeVersion("1.5") == Some(1) && NormalizeVersion("2.0") == Some(2)
    ensures NormalizeVersion("") == Some(OFP_VER_ALL) && NormalizeVersion("abc") == Some(OFP_VER_ALL)
  {
    DottedDigit("1.5", 1);
    DottedDigit("2.0", 2);
    NoVersionIsEveryVersion("");
    NoVersionIsEveryVersion("abc");
  }
}
