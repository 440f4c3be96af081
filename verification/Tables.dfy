/**
  The two action tables (mproxy/src/attack.c) and the rules that fill them.
 */
module Tables {
  import opened Bytes

  const OFP_VER_ALL := 0
  const OFP_VER_MAX := 5
  const OFP_MSG_TYPE_ALL := -1
  const OFP_MSG_TYPE_MAX := 34

  const ROWS := OFP_VER_MAX + 1
  const COLUMNS := OFP_MSG_TYPE_MAX + 1

  ghost predicate Shaped<T>(grid: seq<seq<T>>) {
    |grid| == ROWS && forall v :: 0 <= v < ROWS ==> |grid[v]| == COLUMNS
  }

  datatype RawTables = RawTables(drop: seq<seq<SignedChar>>, dup: seq<seq<Byte>>)

  /** Cell `[v][k]` belongs to version `v` and message type `k`; it is `[v - 1][k]` of the C array. Row 0
      stands for nothing: the C array starts with version 1.0. */
  type Tables = t: RawTables | Shaped(t.drop) && Shaped(t.dup) witness BLANK

  /** The tables before any rule: static storage starts as zero. */
  const BLANK := RawTables(seq(ROWS, _ => seq(COLUMNS, _ => 0)), seq(ROWS, _ => seq(COLUMNS, _ => 0)))

  type VersionPattern = v: int | OFP_VER_ALL <= v <= OFP_VER_MAX
  type TypePattern = k: int | OFP_MSG_TYPE_ALL <= k <= OFP_MSG_TYPE_MAX

  /** A rule as it is understood from its row. `Idle` stands for the accepted DELAY and LIE rules,
      which have no effect. */
  datatype Rule =
    | Drop(version: VersionPattern, kind: TypePattern, chance: SignedChar)
    | Dup(version: VersionPattern, kind: TypePattern, extra: Byte)
    | Idle

  predicate Covers(version: VersionPattern, kind: TypePattern, v: nat, k: nat) {
    && (if version == OFP_VER_ALL then 1 <= v <= OFP_VER_MAX else v == version)
    && (kind == OFP_MSG_TYPE_ALL || k == kind)
  }

  predicate DropCovers(rule: Rule, v: nat, k: nat) {
    rule.Drop? && Covers(rule.version, rule.kind, v, k)
  }

  predicate DupCovers(rule: Rule, v: nat, k: nat) {
    rule.Dup? && Covers(rule.version, rule.kind, v, k)
  }

  /** The grid with `x` in all cells the patterns cover. */
  function Paint<T>(grid: seq<seq<T>>, version: VersionPattern, kind: TypePattern, x: T): (painted: seq<seq<T>>)
    requires Shaped(grid)
    ensures Shaped(painted)
    ensures forall v, k :: 0 <= v < ROWS && 0 <= k < COLUMNS ==>
              painted[v][k] == if Covers(version, kind, v, k) then x else grid[v][k]
  {
    seq(ROWS, (v: nat) requires v < ROWS =>
      seq(COLUMNS, (k: nat) requires k < COLUMNS =>
        if Covers(version, kind, v, k) then x else grid[v][k]))
  }

  function ApplyRule(t: Tables, rule: Rule): Tables {
    match rule
    case Drop(version, kind, chance) => t.(drop := Paint(t.drop, version, kind, chance))
    case Dup(version, kind, extra) => t.(dup := Paint(t.dup, version, kind, extra))
    case Idle => t
  }

  // What the patterns reach, in plain numbers: 0 and -1 are wildcards.

  /** A DROP rule for version 0 and type -1 sets every cell. */
  lemma DropAll(t: Tables, chance: SignedChar, v: nat, k: nat)
    requires 1 <= v <= 5 && k <= 34
    ensures ApplyRule(t, Drop(0, -1, chance)).drop[v][k] == chance
  {
  }

  /** One for version 0 and a type sets exactly the column of the type. */
  lemma DropColumn(t: Tables, kind: nat, chance: SignedChar, v: nat, k: nat)
    requires kind <= 34 && 1 <= v <= 5 && k <= 34
    ensures ApplyRule(t, Drop(0, kind, chance)).drop[v][k] == if k == kind then chance else t.drop[v][k]
  {
  }

  /** One for a version and type -1 sets exactly the row of the version. */
  lemma DropRow(t: Tables, version: nat, chance: SignedChar, v: nat, k: nat)
    requires 1 <= version <= 5 && 1 <= v <= 5 && k <= 34
    ensures ApplyRule(t, Drop(version, -1, chance)).drop[v][k] == if v == version then chance else t.drop[v][k]
  {
  }

  /** One for a version and a type sets exactly this cell. */
  lemma DropCell(t: Tables, version: nat, kind: nat, chance: SignedChar, v: nat, k: nat)
    requires 1 <= version <= 5 && kind <= 34 && 1 <= v <= 5 && k <= 34
    ensures ApplyRule(t, Drop(version, kind, chance)).drop[v][k] ==
            if v == version && k == kind then chance else t.drop[v][k]
  {
  }

  /** DUP rules do the same in the other table. */
  lemma DupAll(t: Tables, extra: Byte, v: nat, k: nat)
    requires 1 <= v <= 5 && k <= 34
    ensures ApplyRule(t, Dup(0, -1, extra)).dup[v][k] == extra
  {
  }

  lemma DupColumn(t: Tables, kind: nat, extra: Byte, v: nat, k: nat)
    requires kind <= 34 && 1 <= v <= 5 && k <= 34
    ensures ApplyRule(t, Dup(0, kind, extra)).dup[v][k] == if k == kind then extra else t.dup[v][k]
  {
  }

  lemma DupRow(t: Tables, version: nat, extra: Byte, v: nat, k: nat)
    requires 1 <= version <= 5 && 1 <= v <= 5 && k <= 34
    ensures ApplyRule(t, Dup(version, -1, extra)).dup[v][k] == if v == version then extra else t.dup[v][k]
  {
  }

  lemma DupCell(t: Tables, version: nat, kind: nat, extra: Byte, v: nat, k: nat)
    requires 1 <= version <= 5 && kind <= 34 && 1 <= v <= 5 && k <= 34
    ensures ApplyRule(t, Dup(version, kind, extra)).dup[v][k] ==
            if v == version && k == kind then extra else t.dup[v][k]
  {
  }

  function ApplyRules(t: Tables, rules: seq<Rule>): Tables
    decreases |rules|
  {
    if rules == [] then t else ApplyRules(ApplyRule(t, rules[0]), rules[1..])
  }

  /** The drop chance the last covering DROP rule gives, if there is one. */
  function LastDrop(rules: seq<Rule>, v: nat, k: nat, otherwise: SignedChar): SignedChar {
    if rules == [] then otherwise
    else
      var last := rules[|rules| - 1];
      if DropCovers(last, v, k) then last.chance else LastDrop(rules[..|rules| - 1], v, k, otherwise)
  }

  /** The extra copies the last covering DUP rule gives, if there is one. */
  function LastDup(rules: seq<Rule>, v: nat, k: nat, otherwise: Byte): Byte {
    if rules == [] then otherwise
    else
      var last := rules[|rules| - 1];
      if DupCovers(last, v, k) then last.extra else LastDup(rules[..|rules| - 1], v, k, otherwise)
  }

  lemma {:induction false} ApplyRulesLast(t: Tables, rules: seq<Rule>)
    requires rules != []
    ensures ApplyRules(t, rules) == ApplyRule(ApplyRules(t, rules[..|rules| - 1]), rules[|rules| - 1])
    decreases |rules|
  {
    if |rules| > 1 {
      ApplyRulesLast(ApplyRule(t, rules[0]), rules[1..]);
      assert rules[1..][..|rules| - 2] == rules[..|rules| - 1][1..];
    } else {
      assert rules[..0] == [];
    }
  }

  /** The tables agree with the rule list: every cell holds what the last rule of its kind that
      covers it says, and what it held before if there is none. */
  lemma {:induction false} TablesAgree(t: Tables, rules: seq<Rule>, v: nat, k: nat)
    requires v < ROWS && k < COLUMNS
    ensures ApplyRules(t, rules).drop[v][k] == LastDrop(rules, v, k, t.drop[v][k])
    ensures ApplyRules(t, rules).dup[v][k] == LastDup(rules, v, k, t.dup[v][k])
    decreases |rules|
  {
    if rules != [] {
      ApplyRulesLast(t, rules);
      TablesAgree(t, rules[..|rules| - 1], v, k);
    }
  }

  /** `LastDrop` is what its name says: rule `i` is the last DROP rule covering the cell (-1 if
      there is none). */
  lemma {:induction false} LastDropIsLast(rules: seq<Rule>, i: int, v: nat, k: nat, otherwise: SignedChar)
    requires -1 <= i < |rules|
    requires i >= 0 ==> DropCovers(rules[i], v, k)
    requires forall j :: i < j < |rules| ==> !DropCovers(rules[j], v, k)
    ensures LastDrop(rules, v, k, otherwise) == if i >= 0 then rules[i].chance else otherwise
    decreases |rules|
  {
    if i < |rules| - 1 {
      LastDropIsLast(rules[..|rules| - 1], i, v, k, otherwise);
    }
  }

  lemma {:induction false} LastDupIsLast(rules: seq<Rule>, i: int, v: nat, k: nat, otherwise: Byte)
    requires -1 <= i < |rules|
    requires i >= 0 ==> DupCovers(rules[i], v, k)
    requires forall j :: i < j < |rules| ==> !DupCovers(rules[j], v, k)
    ensures LastDup(rules, v, k, otherwise) == if i >= 0 then rules[i].extra else otherwise
    decreases |rules|
  {
    if i < |rules| - 1 {
      LastDupIsLast(rules[..|rules| - 1], i, v, k, otherwise);
    }
  }

  /** Rules only write cells that the C arrays have, and DROP and DUP rules never touch each other's
      table. */
  lemma {:induction false} RulesStayInside(t: Tables, rules: seq<Rule>)
    ensures ApplyRules(t, rules).drop[0] == t.drop[0] && ApplyRules(t, rules).dup[0] == t.dup[0]
    ensures (forall i :: 0 <= i < |rules| ==> !rules[i].Drop?) ==> ApplyRules(t, rules).drop == t.drop
    ensures (forall i :: 0 <= i < |rules| ==> !rules[i].Dup?) ==> ApplyRules(t, rules).dup == t.dup
    decreases |rules|
  {
    if rules != [] {
      RulesStayInside(ApplyRule(t, rules[0]), rules[1..]);
    }
  }
}
