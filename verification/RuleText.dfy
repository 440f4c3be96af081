/**
  Rules and profiles written as text, and the proofs that the two in-place tokenizers and the
  normalizers get back what was written (mproxy/src/attack.c).
 */
module RuleText {
  import opened Bytes
  import opened CStrings
  import opened Printing
  import opened Profile
  import opened Promises
  import opened Relay
  import opened Rules
  import opened Tables
  import opened Wrappers
  import Args
  import Csv
  import Frames

  // ----- Versions, types and actions -----

  /** The ways to write a type pattern without a name: its number, or `*` for all. */
  predicate SpellsType(text: string, version: VersionPattern, kind: TypePattern) {
    if kind == OFP_MSG_TYPE_ALL then text == "*"
    else text == Decimal(kind) && NumericType(version, kind) == TypeIs(kind)
  }

  /** What a row asks for: the action and its arguments. */
  datatype Deed = DoDrop(items: seq<Item>) | DoDelay(text: string) | DoDup(items: seq<Item>) | DoLie(text: string)

  predicate SpellsAction(text: string, deed: Deed) {
    match deed
    case DoDrop(_) => text == "DROP" || text == "0"
    case DoDelay(_) => text == "DELAY" || text == "1"
    case DoDup(_) => text == "DUP" || text == "2"
    case DoLie(_) => text == "LIE" || text == "3"
  }

  function DeedText(deed: Deed): string {
    match deed
    case DoDrop(items) => ArgString(items)
    case DoDelay(text) => text
    case DoDup(items) => ArgString(items)
    case DoLie(text) => text
  }

  function ActionOf(deed: Deed): nat {
    match deed
    case DoDrop(_) => ACTION_ID_DROP
    case DoDelay(_) => ACTION_ID_DELAY
    case DoDup(_) => ACTION_ID_DUP
    case DoLie(_) => ACTION_ID_LIE
  }

  /** Every argument has a value, or no `=`. */
  ghost predicate Complete(deed: Deed) {
    match deed
    case DoDrop(items) => GoodItems(items) && HasValue(items[|items| - 1])
    case DoDup(items) => GoodItems(items) && HasValue(items[|items| - 1])
    case _ => true
  }

  /** What the deed means for the messages of the given version and type. */
  function DeedMeaning(version: VersionPattern, kind: TypePattern, deed: Deed): Reading {
    match deed
    case DoDrop(items) =>
      (match DropChance(Meanings(items))
       case None => Unmodelled
       case Some(chance) => Understood(Drop(version, kind, chance)))
    case DoDup(items) =>
      if DupExtra(Meanings(items)) == 0 then Rejected else Understood(Dup(version, kind, DupExtra(Meanings(items))))
    case _ => Understood(Idle)
  }

  lemma TypeReads(text: string, version: VersionPattern, kind: TypePattern)
    requires SpellsType(text, version, kind)
    ensures TypeOf(version, text) == TypeIs(kind) && NUL !in text
  {
    if kind != OFP_MSG_TYPE_ALL {
      AtoiSmall(kind);
      NoNulInDigits(text);
      assert IsDigit(text[0]);
    }
  }

  lemma ActionReads(text: string, deed: Deed)
    requires SpellsAction(text, deed)
    ensures NormalizeAction(text) == Some(ActionOf(deed)) && NUL !in text
  {
    var n := ActionOf(deed);
    DecimalSmall(n);
    AtoiSmall(n);
    if text == Decimal(n) {
    } else {
      assert !IsDigit(text[0]);
    }
  }

  /** Every action field, in plain characters: the four names, and digits whose number has at most 63 bits and
      is 0 to 3 in its low 32 bits. Everything else is refused. */
  lemma ActionExactly(s: string)
    ensures var n := DigitsValue(s, 0);
            NormalizeAction(s) ==
            if s == "DROP" then Some(0) else if s == "DELAY" then Some(1)
            else if s == "DUP" then Some(2) else if s == "LIE" then Some(3)
            else if s != "" && (forall i :: 0 <= i < |s| ==> '0' <= s[i] <= '9')
                    && n < 0x8000_0000_0000_0000 && n % 0x1_0000_0000 <= 3 then Some(n % 0x1_0000_0000)
            else None
  {
    if s != "" && AllDigits(s) {
      AtoiDigits(s);
      assert '0' <= s[0] <= '9';
    } else if s == "DROP" || s == "DELAY" || s == "DUP" || s == "LIE" {
      assert !IsDigit(s[0]);
    }
  }

  /** Other spellings and higher numbers are refused. */
  lemma ActionsRefused()
    ensures NormalizeAction("drop") == None && NormalizeAction("4") == None && NormalizeAction("") == None
  {
    ActionExactly("drop");
    ActionExactly("4");
    ActionExactly("");
    assert DigitsValue("4", 0) == DigitsValue("4"[1..], 4);
    assert "drop"[0] == 'd';
  }

  lemma RuleReads(version: VersionPattern, kind: TypePattern, deed: Deed)
    requires Complete(deed)
    ensures RuleOf(version, kind, ActionOf(deed), DeedText(deed)) == DeedMeaning(version, kind, deed)
  {
    match deed
    case DoDrop(items) => ArgsInversion(items);
    case DoDup(items) => ArgsInversion(items);
    case _ =>
  }

  // ----- Rows -----

  /** The row writes the given rule. Fields 0, 1, 2 and 5 hold anything. */
  ghost predicate Writes(pieces: seq<Piece>, version: VersionPattern, kind: TypePattern, deed: Deed) {
    && GoodPieces(pieces) && |pieces| == ATTACKER_ROW_NUM_FIELDS
    && SpellsVersion(pieces[3].text, version)
    && SpellsType(pieces[4].text, version, kind)
    && SpellsAction(pieces[6].text, deed)
    && pieces[7].text == DeedText(deed) && NUL !in DeedText(deed) && Complete(deed)
  }

  lemma TextOfPiece(pieces: seq<Piece>, i: nat)
    requires i < |pieces| && NUL !in pieces[i].text
    ensures Texts(PieceTexts(pieces))[i] == pieces[i].text
  {
    CStrWhole(pieces[i].text, 0);
    assert pieces[i].text[0..] == pieces[i].text;
  }

  /** A rule written as a row of eight fields is understood as that rule, through both tokenizers. */
  lemma RowRoundTrip(pieces: seq<Piece>, version: VersionPattern, kind: TypePattern, deed: Deed)
    requires Writes(pieces, version, kind, deed)
    ensures ReadRow(RowOf(pieces)) == DeedMeaning(version, kind, deed)
  {
    CsvInversion(pieces);
    VersionReads(pieces[3].text, version);
    TypeReads(pieces[4].text, version, kind);
    ActionReads(pieces[6].text, deed);
    TextOfPiece(pieces, 3);
    TextOfPiece(pieces, 4);
    TextOfPiece(pieces, 6);
    TextOfPiece(pieces, 7);
    RuleReads(version, kind, deed);
  }

  // ----- Numbers in arguments -----

  lemma {:induction false} NoDots(s: string)
    requires AllDigits(s)
    ensures Dots(s) == 0
  {
    if s != [] {
      NoDots(s[1..]);
    }
  }

  lemma TypedDecimal(n: nat)
    ensures Args.Typed(Decimal(n)) == Args.IntValue(ToInt(Saturate(n)))
  {
    NoDots(Decimal(n));
    AtoiDecimal(n);
  }

  /** Argument `i` is the first of its name, and has the given value. */
  predicate SaysText(items: seq<Item>, i: nat, name: string, text: string) {
    && i < |items| && items[i].key == name && items[i].value == Some(text)
    && forall j :: 0 <= j < i ==> items[j].key != name
  }

  /** The value is a number. */
  predicate Says(items: seq<Item>, i: nat, name: string, n: nat) {
    SaysText(items, i, name, Decimal(n))
  }

  lemma {:induction false} SaysTextFinds(items: seq<Item>, i: nat, name: string, text: string)
    requires SaysText(items, i, name, text)
    ensures FindArg(Meanings(items), name) == Some(Args.Typed(text))
    decreases i
  {
    assert Meanings(items)[1..] == Meanings(items[1..]);
    if i > 0 {
      SaysTextFinds(items[1..], i - 1, name, text);
    }
  }

  lemma SaysFinds(items: seq<Item>, i: nat, name: string, n: nat)
    requires Says(items, i, name, n)
    ensures FindArg(Meanings(items), name) == Some(Args.IntValue(ToInt(Saturate(n))))
  {
    SaysTextFinds(items, i, name, Decimal(n));
    TypedDecimal(n);
  }

  lemma ToIntByte(x: int)
    ensures ToInt(x) % 0x100 == x % 0x100
  {
    var q := (x + 0x8000_0000) / 0x1_0000_0000;
    assert ToInt(x) == x - q * 0x1_0000_0000;
    assert (x - (q * 0x100_0000) * 0x100) % 0x100 == x % 0x100;
  }

  /** A written drop chance, as it arrives: the number's low eight bits as a signed number, cut off at
      0 and 100. */
  function Percent(n: nat): SignedChar {
    var low := Saturate(n) % 0x100;
    if low >= 0x80 then 0 else if low > 100 then 100 else low
  }

  /** The chance the documentation promises for `p=n`. */
  function AskedPercent(n: nat): SignedChar {
    if n > 100 then 100 else n
  }

  lemma PercentIs(n: nat)
    ensures Percent(n) == AskedPercent(n) <==> n <= 100 || 100 <= Saturate(n) % 0x100 < 0x80
    ensures 0x80 <= Saturate(n) % 0x100 ==> Percent(n) == 0
  {
  }

  lemma ChanceOfNumber(n: nat, x: int)
    requires x % 0x100 == Saturate(n) % 0x100
    ensures ClampChance(ToSignedChar(x)) == Percent(n)
  {
  }

  lemma DropChanceSays(items: seq<Item>, i: nat, n: nat)
    requires Says(items, i, "p", n)
    ensures DropChance(Meanings(items)) == Some(Percent(n))
  {
    SaysFinds(items, i, "p", n);
    ToIntByte(Saturate(n));
    ChanceOfNumber(n, ToInt(Saturate(n)));
  }

  /** A DROP rule with `p=n` sets the chance `Percent(n)`. This is the chance asked for exactly if `n` is
      at most 100 or its low eight bits lie from 100 to 127; from 128 to 255, for example, nothing is ever
      dropped. */
  lemma DropChanceOf(pieces: seq<Piece>, version: VersionPattern, kind: TypePattern, deed: Deed, i: nat, n: nat)
    requires Writes(pieces, version, kind, deed) && deed.DoDrop? && Says(deed.items, i, "p", n)
    ensures ReadRow(RowOf(pieces)) == Understood(Drop(version, kind, Percent(n)))
    ensures ReadRow(RowOf(pieces)) == Understood(Drop(version, kind, AskedPercent(n))) <==>
            n <= 100 || 100 <= Saturate(n) % 0x100 < 0x80
    ensures 0x80 <= Saturate(n) % 0x100 ==> Percent(n) == 0
  {
    RowRoundTrip(pieces, version, kind, deed);
    DropChanceSays(deed.items, i, n);
    PercentIs(n);
  }

  /** A number with a dot. */
  function Dotted(front: string, back: string): (text: string)
    ensures text != []
  {
    front + "." + back
  }

  lemma {:induction false} DotsOfDotted(front: string, back: string)
    requires AllDigits(front) && AllDigits(back)
    ensures Dots(Dotted(front, back)) == 1
    decreases |front|
  {
    if front == [] {
      assert Dotted(front, back)[1..] == back;
      NoDots(back);
    } else {
      assert Dotted(front, back)[1..] == Dotted(front[1..], back);
      DotsOfDotted(front[1..], back);
    }
  }

  lemma {:induction false} AfterDotOfDotted(front: string, back: string)
    requires AllDigits(front)
    ensures AfterDot(Dotted(front, back)) == back
    decreases |front|
  {
    if front == [] {
      assert Dotted(front, back)[1..] == back;
    } else {
      assert Dotted(front, back)[1..] == Dotted(front[1..], back);
      AfterDotOfDotted(front[1..], back);
    }
  }

  lemma TypedDotted(front: string, back: string)
    requires AllDigits(front) && AllDigits(back)
    ensures Args.Typed(Dotted(front, back)) == Args.FloatValue(DigitsValue(front, 0) as real + Fraction(back))
  {
    DotsOfDotted(front, back);
    AfterDotOfDotted(front, back);
    assert Dotted(front, back) == front + ("." + back);
    DigitsStop(front, "." + back, 0);
  }

  lemma DropChanceFraction(items: seq<Item>, i: nat, front: string, back: string)
    requires AllDigits(front) && AllDigits(back) && SaysText(items, i, "p", Dotted(front, back))
    ensures var n := DigitsValue(front, 0);
            DropChance(Meanings(items)) == if n < 0x80 then Some(AskedPercent(n)) else None
  {
    SaysTextFinds(items, i, "p", Dotted(front, back));
    TypedDotted(front, back);
    WholePart(DigitsValue(front, 0), Fraction(back));
  }

  lemma WholePart(n: nat, part: real)
    requires 0.0 <= part < 1.0
    ensures (n as real + part).Floor == n && n as real + part >= 0.0
    ensures var x := n as real + part;
            AskedPercent(n) as real == (if x > 100.0 then 100.0 else x) <==> x >= 100.0 || part == 0.0
  {
  }

  /** A DROP rule with a fraction `p=x`, written with a dot, sets the whole part of x, cut off at 100; from
      128 on, the conversion of x is undefined. Below, the chance is the one asked for exactly if x is at
      least 100 or has no digits but zeros behind its dot. */
  lemma DropFractionOf(pieces: seq<Piece>, version: VersionPattern, kind: TypePattern, deed: Deed, i: nat,
                       front: string, back: string)
    requires Writes(pieces, version, kind, deed) && deed.DoDrop? && AllDigits(front) && AllDigits(back)
    requires SaysText(deed.items, i, "p", Dotted(front, back))
    ensures var n := DigitsValue(front, 0);
            ReadRow(RowOf(pieces)) == if n < 0x80 then Understood(Drop(version, kind, AskedPercent(n))) else Unmodelled
    ensures var n, x := DigitsValue(front, 0), DigitsValue(front, 0) as real + Fraction(back);
            AskedPercent(n) as real == (if x > 100.0 then 100.0 else x) <==> x >= 100.0 || Fraction(back) == 0.0
  {
    RowRoundTrip(pieces, version, kind, deed);
    DropChanceFraction(deed.items, i, front, back);
    WholePart(DigitsValue(front, 0), Fraction(back));
  }

  lemma ExtraOfNumber(x: int, y: int)
    requires x % 0x100 == y % 0x100
    ensures ToByte(ToByte(x) as int - 1) == (y - 1) % 0x100
    ensures (y - 1) % 0x100 == 0 <==> y % 0x100 == 1
  {
    assert y == y / 0x100 * 0x100 + y % 0x100;
  }

  /** The extra copies that `r=n` asks for, in eight bits. */
  function Extra(n: nat): Byte {
    (Saturate(n) - 1) % 0x100
  }

  lemma DupExtraSays(items: seq<Item>, i: nat, n: nat)
    requires Says(items, i, "r", n)
    ensures DupExtra(Meanings(items)) == Extra(n)
    ensures DupExtra(Meanings(items)) == 0 <==> Saturate(n) % 0x100 == 1
  {
    SaysFinds(items, i, "r", n);
    ToIntByte(Saturate(n));
    ExtraOfNumber(ToInt(Saturate(n)), Saturate(n));
  }

  /** How often a message leaves once a DUP rule that covers it has been entered. LOCI is not asked. */
  lemma CopiesAfterDup(t: Tables, e: Env, rule: Rule, f: Frames.Frame, rnd: nat)
    requires rule.Dup? && rule.extra != 0 && ProperHeader(f) && Covers(rule.version, rule.kind, f.version, f.kind)
    ensures Copies(ApplyRule(t, rule), e, f, rnd) == if Dropped(t, f, rnd) then 0 else 1 + rule.extra as nat
    ensures Judge(ApplyRule(t, rule), e, f, rnd) != Fatal
  {
  }

  lemma ExtraIs(n: nat)
    ensures 2 <= n <= 0x100 ==> Extra(n) as int + 1 == n
    ensures (if n < 2 then Extra(n) == 0 else Extra(n) != 0 && Extra(n) as int + 1 == n) <==> 1 <= n <= 0x100
  {
  }

  /** What a row with the action DUP and `r=n` is understood as. */
  lemma DupRowReads(pieces: seq<Piece>, version: VersionPattern, kind: TypePattern, deed: Deed, i: nat, n: nat)
    requires Writes(pieces, version, kind, deed) && deed.DoDup? && Says(deed.items, i, "r", n)
    ensures ReadRow(RowOf(pieces)) == if Extra(n) == 0 then Rejected else Understood(Dup(version, kind, Extra(n)))
    ensures Extra(n) == 0 <==> Saturate(n) % 0x100 == 1
  {
    RowRoundTrip(pieces, version, kind, deed);
    DupExtraSays(deed.items, i, n);
  }

  /** A DUP rule with `r=n` is rejected exactly when `n`, cut off at the largest `long`, is 1 modulo
      256; otherwise every message it covers that is not dropped leaves `(n - 1) % 256 + 1` times,
      so exactly `n` times for 2 to 256. */
  lemma DupCountOf(pieces: seq<Piece>, version: VersionPattern, kind: TypePattern, deed: Deed, i: nat, n: nat,
                   t: Tables, e: Env, f: Frames.Frame, rnd: nat)
    requires Writes(pieces, version, kind, deed) && deed.DoDup? && Says(deed.items, i, "r", n)
    requires ProperHeader(f) && Covers(version, kind, f.version, f.kind)
    ensures ReadRow(RowOf(pieces)) == Rejected <==> Saturate(n) % 0x100 == 1
    ensures ReadRow(RowOf(pieces)) != Rejected ==>
              Copies(Effect(t, ReadRow(RowOf(pieces))), e, f, rnd) ==
              if Dropped(t, f, rnd) then 0 else (Saturate(n) - 1) % 0x100 + 1
    ensures 2 <= n <= 0x100 ==> (Saturate(n) - 1) % 0x100 + 1 == n
  {
    ExtraIs(n);
    DupRowReads(pieces, version, kind, deed, i, n);
    if Extra(n) != 0 {
      CopiesAfterDup(t, e, Dup(version, kind, Extra(n)), f, rnd);
    }
  }

  /** The documentation promises that counts below 2 are ignored and that others are honoured. A DUP rule
      does what it promises exactly for the counts from 1 to 256. */
  lemma DupAsPromised(pieces: seq<Piece>, version: VersionPattern, kind: TypePattern, deed: Deed, i: nat, n: nat)
    requires Writes(pieces, version, kind, deed) && deed.DoDup? && Says(deed.items, i, "r", n)
    ensures var reading := ReadRow(RowOf(pieces));
            (if n < 2 then reading == Rejected
             else reading.Understood? && reading.rule.Dup? && reading.rule.extra as int + 1 == n) <==> 1 <= n <= 0x100
  {
    DupRowReads(pieces, version, kind, deed, i, n);
    ExtraIs(n);
  }

  // ----- Rules without a number -----

  /** No argument has the name, or the first that has it has no value, or a value that is no number. */
  ghost predicate Silent(items: seq<Item>, name: string) {
    || (forall j :: 0 <= j < |items| ==> items[j].key != name)
    || (exists i :: 0 <= i < |items| && items[i].key == name && (forall j :: 0 <= j < i ==> items[j].key != name)
                    && (items[i].value.Some? ==> NoNumber(items[i].value.value)))
  }

  lemma {:induction false} FirstNamed(items: seq<Item>, i: nat, name: string)
    requires i < |items| && items[i].key == name && forall j :: 0 <= j < i ==> items[j].key != name
    ensures FindArg(Meanings(items), name) == Some(Meaning(items[i]).value)
    decreases i
  {
    assert Meanings(items)[1..] == Meanings(items[1..]);
    if i > 0 {
      FirstNamed(items[1..], i - 1, name);
    }
  }

  lemma {:induction false} NoneNamed(items: seq<Item>, name: string)
    requires forall j :: 0 <= j < |items| ==> items[j].key != name
    ensures FindArg(Meanings(items), name) == None
    decreases |items|
  {
    if items != [] {
      assert Meanings(items)[1..] == Meanings(items[1..]);
      NoneNamed(items[1..], name);
    }
  }

  lemma SilentFinds(items: seq<Item>, name: string)
    requires Silent(items, name)
    ensures var found := FindArg(Meanings(items), name);
            found.None? || found.value.NoValue? || found.value.StrValue?
  {
    if forall j :: 0 <= j < |items| ==> items[j].key != name {
      NoneNamed(items, name);
    } else {
      var i :| 0 <= i < |items| && items[i].key == name && (forall j :: 0 <= j < i ==> items[j].key != name)
               && (items[i].value.Some? ==> NoNumber(items[i].value.value));
      FirstNamed(items, i, name);
      if items[i].value.Some? {
        KindIs(items[i].value.value);
      }
    }
  }

  /** A DROP rule that names no chance drops everything, as documented. */
  lemma DropByDefault(pieces: seq<Piece>, version: VersionPattern, kind: TypePattern, deed: Deed)
    requires Writes(pieces, version, kind, deed) && deed.DoDrop? && Silent(deed.items, "p")
    ensures ReadRow(RowOf(pieces)) == Understood(Drop(version, kind, 100))
  {
    RowRoundTrip(pieces, version, kind, deed);
    SilentFinds(deed.items, "p");
  }

  /** A DUP rule that names no count is refused, and so is one that names a fraction. */
  lemma DupByDefault(pieces: seq<Piece>, version: VersionPattern, kind: TypePattern, deed: Deed)
    requires Writes(pieces, version, kind, deed) && deed.DoDup? && Silent(deed.items, "r")
    ensures ReadRow(RowOf(pieces)) == Rejected
  {
    RowRoundTrip(pieces, version, kind, deed);
    SilentFinds(deed.items, "r");
  }

  lemma DupFractionRefused(pieces: seq<Piece>, version: VersionPattern, kind: TypePattern, deed: Deed, i: nat,
                           front: string, back: string)
    requires Writes(pieces, version, kind, deed) && deed.DoDup? && AllDigits(front) && AllDigits(back)
    requires SaysText(deed.items, i, "r", Dotted(front, back))
    ensures ReadRow(RowOf(pieces)) == Rejected
  {
    RowRoundTrip(pieces, version, kind, deed);
    SaysTextFinds(deed.items, i, "r", Dotted(front, back));
    TypedDotted(front, back);
  }

  /** The same for an empty list of arguments. */
  lemma NoArguments(version: VersionPattern, kind: TypePattern)
    ensures RuleOf(version, kind, 0, "") == Understood(Drop(version, kind, 100))
    ensures RuleOf(version, kind, 2, "") == Rejected
  {
    assert Args.Parse("") == Args.List([Args.Arg(None, Args.NoValue)]);
  }

  // ----- Every rule can be written -----

  lemma PlainNumber(s: string)
    requires DigitsAndDots(s) && s != []
    ensures PlainText(s) && Plain(s) && NUL !in s
  {
    assert forall i :: 0 <= i < |s| ==> IsDigit(s[i]) || s[i] == '.';
    assert s[0] in s && s[|s| - 1] in s;
  }

  /** The argument list `p=text` or `r=text`. */
  lemma NumberItem(name: string, text: string) returns (items: seq<Item>)
    requires (name == "p" || name == "r") && DigitsAndDots(text) && text != []
    ensures GoodItems(items) && HasValue(items[|items| - 1]) && SaysText(items, 0, name, text)
    ensures ArgString(items) == name + "=" + text
    ensures PlainText(ArgString(items)) && NUL !in ArgString(items)
  {
    PlainNumber(text);
    items := [Item([], name, [], Some(text), [], [])];
    assert ItemString(items[0]) == name + [] + ("=" + [] + text + []) == name + "=" + text;
    var s := name + "=" + text;
    assert s[0] == name[0] && s[|s| - 1] == text[|text| - 1];
  }

  lemma BarePieces(texts: seq<string>) returns (pieces: seq<Piece>)
    requires texts != [] && forall i :: 0 <= i < |texts| ==> PlainText(texts[i])
    ensures GoodPieces(pieces) && |pieces| == |texts|
    ensures forall i :: 0 <= i < |texts| ==> pieces[i].text == texts[i]
  {
    pieces := seq(|texts|, (i: nat) requires i < |texts| => Piece([], texts[i], []));
    assert forall i :: 0 <= i < |texts| ==> GoodPiece(pieces[i]);
  }

  lemma RuleRow(version: string, kind: string, action: string, args: string) returns (pieces: seq<Piece>)
    requires PlainText(version) && PlainText(kind) && PlainText(action) && PlainText(args)
    ensures GoodPieces(pieces) && |pieces| == ATTACKER_ROW_NUM_FIELDS
    ensures pieces[3].text == version && pieces[4].text == kind && pieces[6].text == action && pieces[7].text == args
  {
    pieces := BarePieces([[], [], [], version, kind, [], action, args]);
  }

  /** There is a row for every DROP and every DUP rule, whatever its version, its type (by number or `*`)
      and its number, with a dot or without. */
  lemma Writable(version: VersionPattern, kind: TypePattern, dup: bool, text: string)
    returns (pieces: seq<Piece>, deed: Deed)
    requires kind == OFP_MSG_TYPE_ALL || NumericType(version, kind) == TypeIs(kind)
    requires DigitsAndDots(text) && text != []
    ensures Writes(pieces, version, kind, deed)
    ensures if dup then deed.DoDup? && SaysText(deed.items, 0, "r", text)
            else deed.DoDrop? && SaysText(deed.items, 0, "p", text)
  {
    var items := NumberItem(if dup then "r" else "p", text);
    deed := if dup then DoDup(items) else DoDrop(items);
    var kindText := if kind == OFP_MSG_TYPE_ALL then "*" else Decimal(kind);
    PlainNumber(Decimal(version));
    if kind != OFP_MSG_TYPE_ALL {
      PlainNumber(kindText);
    }
    pieces := RuleRow(Decimal(version), kindText, if dup then "DUP" else "DROP", ArgString(items));
  }

  // ----- Rows that are not read as the documentation promises -----

  lemma TwoHundred()
    ensures Decimal(200) == "200"
  {
    assert Decimal(2) == "2";
    assert Decimal(20) == "20";
  }

  /** There is a row with `p=n` for every version and type, and if the low byte of n is 128 or more, it drops
      nothing. */
  lemma NothingDropped(version: VersionPattern, kind: TypePattern, n: nat, text: string)
    returns (pieces: seq<Piece>, deed: Deed)
    requires kind == OFP_MSG_TYPE_ALL || NumericType(version, kind) == TypeIs(kind)
    requires text == Decimal(n) && 0x80 <= Saturate(n) % 0x100
    ensures Writes(pieces, version, kind, deed) && deed.DoDrop? && SaysText(deed.items, 0, "p", text)
    ensures ReadRow(RowOf(pieces)) == Understood(Drop(version, kind, 0))
  {
    pieces, deed := Writable(version, kind, false, text);
    DropChanceOf(pieces, version, kind, deed, 0, n);
  }

  /** With `p=200` nothing is dropped, instead of everything. */
  lemma DropsNothing(version: VersionPattern, kind: TypePattern) returns (pieces: seq<Piece>, deed: Deed)
    requires kind == OFP_MSG_TYPE_ALL || NumericType(version, kind) == TypeIs(kind)
    ensures Writes(pieces, version, kind, deed) && deed.DoDrop? && SaysText(deed.items, 0, "p", "200")
    ensures ReadRow(RowOf(pieces)) == Understood(Drop(version, kind, 0)) && AskedPercent(200) == 100
  {
    assert "200" == Decimal(200) by {
      TwoHundred();
    }
    pieces, deed := NothingDropped(version, kind, 200, "200");
  }

  /** With `p=0.5` nothing is ever dropped. */
  lemma HalfDropsNothing(version: VersionPattern, kind: TypePattern) returns (pieces: seq<Piece>, deed: Deed)
    requires kind == OFP_MSG_TYPE_ALL || NumericType(version, kind) == TypeIs(kind)
    ensures Writes(pieces, version, kind, deed) && deed.DoDrop? && SaysText(deed.items, 0, "p", "0.5")
    ensures ReadRow(RowOf(pieces)) == Understood(Drop(version, kind, 0))
  {
    pieces, deed := Writable(version, kind, false, "0.5");
    assert DigitsValue("0", 0) == DigitsValue("0"[1..], 0);
    assert ReadRow(RowOf(pieces)) == Understood(Drop(version, kind, AskedPercent(0))) by {
      assert Dotted("0", "5") == "0.5";
      DropFractionOf(pieces, version, kind, deed, 0, "0", "5");
    }
  }

  /** With `r=0` every message is sent 256 times, instead of the rule being ignored. */
  lemma SendsMany(version: VersionPattern, kind: TypePattern) returns (pieces: seq<Piece>, deed: Deed)
    requires kind == OFP_MSG_TYPE_ALL || NumericType(version, kind) == TypeIs(kind)
    ensures Writes(pieces, version, kind, deed) && deed.DoDup? && SaysText(deed.items, 0, "r", "0")
    ensures ReadRow(RowOf(pieces)) == Understood(Dup(version, kind, 0xff))
  {
    pieces, deed := Writable(version, kind, true, "0");
    assert Decimal(0) == "0";
    assert Extra(0) == 0xff;
    assert ReadRow(RowOf(pieces)) == Understood(Dup(version, kind, Extra(0))) by {
      DupRowReads(pieces, version, kind, deed, 0, 0);
    }
  }

  // ----- Files -----

  /** Lines and what stands between them. */
  function Join(lines: seq<string>, newlines: string): string
    requires |newlines| + 1 == |lines|
  {
    if newlines == [] then lines[0] else lines[0] + [newlines[0]] + Join(lines[1..], newlines[1..])
  }

  ghost predicate OneLine(s: string) {
    forall i :: 0 <= i < |s| ==> !IsNewline(s[i])
  }

  ghost predicate AllOneLine(lines: seq<string>) {
    forall i {:trigger OneLine(lines[i])} :: 0 <= i < |lines| ==> OneLine(lines[i])
  }

  ghost predicate AllNewlines(newlines: string) {
    forall i :: 0 <= i < |newlines| ==> IsNewline(newlines[i])
  }

  lemma RestOneLine(lines: seq<string>, newlines: string)
    requires |newlines| + 1 == |lines| && AllOneLine(lines) && AllNewlines(newlines)
    ensures OneLine(lines[0])
    ensures newlines != [] ==> IsNewline(newlines[0]) && AllOneLine(lines[1..]) && AllNewlines(newlines[1..])
  {
    if newlines != [] {
      forall i | 0 <= i < |lines[1..]|
        ensures OneLine(lines[1..][i])
      {
        assert OneLine(lines[i + 1]);
      }
    }
  }

  lemma {:induction false} LineEndIs(content: string, pos: nat, end: nat)
    requires pos <= end <= |content| && (end < |content| ==> IsNewline(content[end]))
    requires forall k :: pos <= k < end ==> !IsNewline(content[k])
    ensures LineEnd(content, pos) == end
    decreases end - pos
  {
    if pos < end {
      LineEndIs(content, pos + 1, end);
    }
  }

  /** The first of some joined lines. */
  lemma FirstJoined(content: string, pos: nat, lines: seq<string>, newlines: string)
    requires |newlines| + 1 == |lines| && pos <= |content| && content[pos..] == Join(lines, newlines)
    requires OneLine(lines[0]) && (newlines != [] ==> IsNewline(newlines[0]))
    ensures var end := pos + |lines[0]|;
            && end <= |content| && LineEnd(content, pos) == end && content[pos..end] == lines[0]
            && (newlines == [] ==> end == |content|)
            && (newlines != [] ==> end < |content| && content[end + 1..] == Join(lines[1..], newlines[1..]))
  {
    var end := pos + |lines[0]|;
    var tail := content[pos..];
    assert tail[..|lines[0]|] == lines[0] == content[pos..end];
    assert forall k :: pos <= k < end ==> content[k] == lines[0][k - pos];
    if newlines != [] {
      assert tail[|lines[0]|] == newlines[0] == content[end];
      assert tail[|lines[0]| + 1..] == content[end + 1..];
    }
    LineEndIs(content, pos, end);
  }

  lemma LinesAre(content: string, pos: nat, end: nat, lines: seq<string>)
    requires pos <= |content| && end == LineEnd(content, pos) && lines != [] && content[pos..end] == lines[0]
    requires if end < |content| then Lines(content, end + 1) == lines[1..] else |lines| == 1
    ensures Lines(content, pos) == lines
  {
  }

  /** The line splitter gets back the lines that were joined with any newlines. */
  lemma {:induction false} LinesOfJoin(content: string, pos: nat, lines: seq<string>, newlines: string)
    requires |newlines| + 1 == |lines| && pos <= |content| && content[pos..] == Join(lines, newlines)
    requires AllOneLine(lines) && AllNewlines(newlines)
    ensures Lines(content, pos) == lines
    decreases |lines|
  {
    var end := pos + |lines[0]|;
    RestOneLine(lines, newlines);
    FirstJoined(content, pos, lines, newlines);
    if newlines != [] {
      assert Lines(content, end + 1) == lines[1..] by {
        LinesOfJoin(content, end + 1, lines[1..], newlines[1..]);
      }
    }
    LinesAre(content, pos, end, lines);
  }

  /** The newlines of a file. */
  function Newlines(content: string, pos: nat): (newlines: string)
    requires pos <= |content|
    ensures |newlines| + 1 == |Lines(content, pos)|
    ensures forall i :: 0 <= i < |newlines| ==> IsNewline(newlines[i])
    decreases |content| - pos
  {
    var end := LineEnd(content, pos);
    if end < |content| then [content[end]] + Newlines(content, end + 1) else []
  }

  lemma JoinMore(line: string, c: char, lines: seq<string>, newlines: string)
    requires |newlines| + 1 == |lines|
    ensures Join([line] + lines, [c] + newlines) == line + [c] + Join(lines, newlines)
  {
    assert ([line] + lines)[1..] == lines && ([c] + newlines)[1..] == newlines;
  }

  lemma Cut(content: string, pos: nat, end: nat)
    requires pos <= end < |content|
    ensures content[pos..] == content[pos..end] + [content[end]] + content[end + 1..]
  {
  }

  /** The first line of a file and the rest of it. */
  lemma FirstLine(content: string, pos: nat, end: nat)
    requires pos <= |content| && end == LineEnd(content, pos) < |content|
    ensures Lines(content, pos) == [content[pos..end]] + Lines(content, end + 1)
  {
  }

  lemma FirstNewline(content: string, pos: nat, end: nat)
    requires pos <= |content| && end == LineEnd(content, pos) < |content|
    ensures Newlines(content, pos) == [content[end]] + Newlines(content, end + 1)
  {
  }

  lemma LastLine(content: string, pos: nat)
    requires pos <= |content| && LineEnd(content, pos) == |content|
    ensures Lines(content, pos) == [content[pos..]] && Newlines(content, pos) == []
  {
    assert content[pos..|content|] == content[pos..];
  }

  function Rejoined(content: string, pos: nat): string
    requires pos <= |content|
  {
    Join(Lines(content, pos), Newlines(content, pos))
  }

  lemma RejoinFirst(content: string, pos: nat, end: nat)
    requires pos <= |content| && end == LineEnd(content, pos) < |content|
    ensures Rejoined(content, pos) == content[pos..end] + [content[end]] + Rejoined(content, end + 1)
  {
    FirstLine(content, pos, end);
    FirstNewline(content, pos, end);
    JoinMore(content[pos..end], content[end], Lines(content, end + 1), Newlines(content, end + 1));
  }

  /** Every file is its lines, joined by its newlines. */
  lemma {:induction false} JoinOfLines(content: string, pos: nat)
    requires pos <= |content|
    ensures Rejoined(content, pos) == content[pos..]
    decreases |content| - pos
  {
    var end := LineEnd(content, pos);
    if end < |content| {
      assert Rejoined(content, end + 1) == content[end + 1..] by {
        JoinOfLines(content, end + 1);
      }
      RejoinFirst(content, pos, end);
      Cut(content, pos, end);
    } else {
      LastLine(content, pos);
    }
  }

  /** The rows of a written profile are its lines but the heading, the empty ones and the comments. */
  lemma ProfileRows(lines: seq<string>, newlines: string)
    requires |newlines| + 1 == |lines|
    requires AllOneLine(lines) && AllNewlines(newlines)
    ensures Rows(Join(lines, newlines)) == RuleLines(lines[1..])
  {
    var content := Join(lines, newlines);
    assert content[0..] == content;
    LinesOfJoin(content, 0, lines, newlines);
  }

  // ----- Files, in plain characters -----

  /** Both a line feed and a carriage return end a line; the first line is a heading. */
  lemma FileIs(lines: seq<string>, newlines: string)
    requires |newlines| + 1 == |lines|
    requires forall i :: 0 <= i < |lines| ==> '\n' !in lines[i] && '\r' !in lines[i]
    requires forall i :: 0 <= i < |newlines| ==> newlines[i] == '\n' || newlines[i] == '\r'
    ensures Rows(Join(lines, newlines)) == RuleLines(lines[1..])
    ensures Lines(Join(lines, newlines), 0) == lines
  {
    forall i | 0 <= i < |lines|
      ensures OneLine(lines[i])
    {
      assert '\n' !in lines[i] && '\r' !in lines[i];
    }
    ProfileRows(lines, newlines);
    assert Join(lines, newlines)[0..] == Join(lines, newlines);
    LinesOfJoin(Join(lines, newlines), 0, lines, newlines);
  }

  /** An empty line and one that starts with `#` change no table; every other line is read as a row. */
  lemma LineIs(t: Tables, line: string, rest: seq<string>)
    ensures line == "" || line[0] == '#' ==> Load(t, RuleLines([line] + rest)) == Load(t, RuleLines(rest))
    ensures line != "" && line[0] != '#' ==> RuleLines([line] + rest) == [line] + RuleLines(rest)
  {
    assert ([line] + rest)[1..] == rest;
    assert [] + RuleLines(rest) == RuleLines(rest);
  }
}
