/**
  Loading an attack profile: rows are cut out of the file, parsed in place and entered into the
  action tables (mproxy/src/attack.c).
 */
module Profile {
  import opened ActionTables
  import opened Bytes
  import opened CStrings
  import opened Rules
  import opened Streams
  import opened Tables
  import opened Wrappers
  import Args
  import Csv

  /** What has become of a row. After `Undetermined` nothing is known about the program. */
  datatype Outcome = Accepted | Refused | Undetermined

  function OutcomeOf(reading: Reading): Outcome {
    match reading
    case Understood(_) => Accepted
    case Rejected => Refused
    case Unmodelled => Undetermined
  }

  function Effect(t: Tables, reading: Reading): Tables {
    match reading
    case Understood(rule) => ApplyRule(t, rule)
    case _ => t
  }

  /** A node's value is that of its argument. */
  ghost predicate Carries(node: Args.NodeValue, value: Args.Value) {
    match value
    case NoValue => node == Args.NoVal
    case IntValue(i) => node == Args.IntVal(i)
    case FloatValue(x) => node == Args.FloatVal(x)
    case StrValue(_) => node.StrVal?
  }

  /** `args_find` */
  method ArgsFind(data: array<char>, nodes: seq<Args.Node>, name: string, ghost args: seq<Args.Arg>, ghost seal: nat)
    returns (found: Option<Args.NodeValue>)
    requires Args.NodesAre(data[..], seal, nodes, args) && seal <= data.Length
    requires name != "" && name[0] != '=' && name[0] != Args.DELIM
    ensures match FindArg(args, name)
            case None => found == None
            case Some(value) => found.Some? && Carries(found.value, value)
  {
    Args.NodesLength(data[..], seal, nodes, args);
    for i := 0 to |nodes|
      invariant FindArg(args, name) == FindArg(args[i..], name)
    {
      assert Args.NodeIs(data[..], seal, nodes[i], args[i]);
      NameMeans(data[..], seal, nodes[i].name, args[i].key, name);
      assert args[i..][0] == args[i] && args[i..][1..] == args[i + 1..];
      if CStr(data[..], nodes[i].name) == name {
        return Some(nodes[i].value);
      }
    }
    return None;
  }

  /** Only an argument with that key has a name equal to `name`. */
  lemma NameMeans(mem: seq<char>, bound: nat, p: nat, key: Option<string>, name: string)
    requires Args.NameAt(mem, bound, p, key)
    requires name != "" && name[0] != '=' && name[0] != Args.DELIM
    ensures p <= |mem| && (CStr(mem, p) == name <==> key == Some(name))
  {
    match key
    case Some(k) => Args.StringAtIs(mem, bound, p, k);
    case None =>
  }

  /** The DROP branch of `attacker_add_rule`; `floor` is the start of the last piece of the row. */
  method AddDropRule(store: Store, data: array<char>, start: nat, ghost floor: nat, ghost s: string,
                     version: VersionPattern, kind: TypePattern)
    returns (outcome: Outcome)
    requires store.Valid() && start + |s| < data.Length && s == CStr(data[..], start)
    requires NUL !in s && Args.CurrentAt(data[..], start, floor, s, 0, 0, Args.NoEq)
    modifies data, store.drop
    ensures var reading := RuleOf(version, kind, ACTION_ID_DROP, s);
            outcome == OutcomeOf(reading) && store.View() == Effect(old(store.View()), reading)
  {
    var end := start + |CStr(data[..], start)|;
    var overrun, nodes, args, seal := Args.ArgsParse(data, start, end, floor, s);
    if overrun {
      return Undetermined;
    }
    var prob: SignedChar := 100;
    var targ := ArgsFind(data, nodes, "p", args, seal);
    if targ.Some? && targ.value.IntVal? {
      prob := ToSignedChar(targ.value.i);
    } else if targ.Some? && targ.value.FloatVal? {
      if !(targ.value.x.Floor < 0x80 && targ.value.x >= 0.0) {
        return Undetermined;
      }
      prob := targ.value.x.Floor;
    }
    store.AddDrop(version, kind, ClampChance(prob));
    return Accepted;
  }

  /** The DUP branch of `attacker_add_rule`. */
  method AddDupRule(store: Store, data: array<char>, start: nat, ghost floor: nat, ghost s: string,
                    version: VersionPattern, kind: TypePattern)
    returns (outcome: Outcome)
    requires store.Valid() && start + |s| < data.Length && s == CStr(data[..], start)
    requires NUL !in s && Args.CurrentAt(data[..], start, floor, s, 0, 0, Args.NoEq)
    modifies data, store.dup
    ensures var reading := RuleOf(version, kind, ACTION_ID_DUP, s);
            outcome == OutcomeOf(reading) && store.View() == Effect(old(store.View()), reading)
  {
    var end := start + |CStr(data[..], start)|;
    var overrun, nodes, args, seal := Args.ArgsParse(data, start, end, floor, s);
    if overrun {
      return Undetermined;
    }
    var dupCount: Byte := 1;
    var targ := ArgsFind(data, nodes, "r", args, seal);
    if targ.Some? && targ.value.IntVal? {
      dupCount := ToByte(targ.value.i);
    }
    dupCount := ToByte(dupCount as int - 1);
    if dupCount < 1 {
      return Refused;
    }
    store.AddDup(version, kind, dupCount);
    return Accepted;
  }

  /** The C string at the start of a parsed field. */
  lemma FieldString(mem: seq<char>, seal: nat, starts: seq<nat>, fields: seq<string>, i: nat)
    requires Csv.FieldsAt(mem, seal, starts, fields) && i < |starts|
    ensures Terminated(mem, starts[i]) && CStr(mem, starts[i]) == CStr(fields[i], 0)
  {
    assert starts[i] < seal;
    CStrWithin(mem, starts[i], seal);
  }

  /** The last field of a row, as the argument parser finds it. */
  lemma LastFieldString(mem: seq<char>, row: string, seal: nat, start: nat)
    requires seal <= |row| && Csv.Holds(mem, row, seal) && (seal > 0 ==> mem[seal - 1] == NUL)
    requires start == SkipBlanks(row, seal)
    ensures var s := CStr(row[start..], 0);
            && NUL !in s && start + |s| <= |row| && s == CStr(mem, start)
            && Args.CurrentAt(mem, start, seal, s, 0, 0, Args.NoEq)
  {
    var s := CStr(row[start..], 0);
    CStrNoNul(row[start..], 0);
    CStrPrefix(row[start..], 0);
    assert row[start..][..|s|] == s;
    assert forall k :: 0 <= k < |s| ==> row[start + k] == s[k];
    assert mem[start..|row|] == row[start..];
    CStrAt(mem, start, row[start..]);
    assert |s| < |row[start..]| ==> row[start..][|s|] == NUL;
    assert mem[start + |s|] == NUL;
    forall k | seal <= k < start
      ensures IsBlank(mem[k])
    {
      assert mem[k] == row[k];
    }
  }

  /** A C string is the text up to the first NUL. */
  lemma {:induction false} CStrPrefix(s: string, p: nat)
    requires p <= |s|
    ensures var t := CStr(s, p);
            && p + |t| <= |s| && s[p..p + |t|] == t && (p + |t| < |s| ==> s[p + |t|] == NUL)
    decreases |s| - p
  {
    if p < |s| && s[p] != NUL {
      CStrPrefix(s, p + 1);
    }
  }

  /** The version, type and action fields of a row are read, as far as the fields before them are
      good. */
  method ReadHead(data: array<char>, ret: array<nat>, ghost fields: seq<string>, ghost seal: nat)
    returns (version: Option<VersionPattern>, kind: TypeReading, action: Option<nat>)
    requires 7 < ret.Length && |fields| == ATTACKER_ROW_NUM_FIELDS && Csv.FieldsAt(data[..], seal, ret[..7], fields)
    ensures version == NormalizeVersion(Texts(fields)[3])
    ensures version.Some? ==> kind == TypeOf(version.value, Texts(fields)[4])
    ensures version.Some? && kind.TypeIs? ==> action == NormalizeAction(Texts(fields)[6])
  {
    kind, action := BadType, None;
    ghost var starts := ret[..7];
    FieldString(data[..], seal, starts, fields, 3);
    version := NormalizeVersion(CStr(data[..], ret[3]));
    if version.Some? {
      FieldString(data[..], seal, starts, fields, 4);
      kind := NormalizeMsgType(version.value, data, ret[4]);
      if kind.TypeIs? {
        FieldString(data[..], seal, starts, fields, 6);
        action := NormalizeAction(CStr(data[..], ret[6]));
      }
    }
  }

  /** What `attacker_add_rule` does once the action is known. */
  method AddParsed(store: Store, data: array<char>, start: nat, ghost floor: nat, ghost s: string,
                   version: VersionPattern, kind: TypePattern, action: nat)
    returns (outcome: Outcome)
    requires store.Valid() && start + |s| < data.Length && s == CStr(data[..], start)
    requires NUL !in s && Args.CurrentAt(data[..], start, floor, s, 0, 0, Args.NoEq)
    modifies data, store.drop, store.dup
    ensures var reading := RuleOf(version, kind, action, s);
            outcome == OutcomeOf(reading) && store.View() == Effect(old(store.View()), reading)
  {
    if action == ACTION_ID_DROP {
      outcome := AddDropRule(store, data, start, floor, s, version, kind);
    } else if action == ACTION_ID_DUP {
      outcome := AddDupRule(store, data, start, floor, s, version, kind);
    } else {
      outcome := Accepted;
    }
  }

  /** What `attacker_add_rule` does with a row of the right number of fields, the last of which starts at
      `seal`. */
  method AddFields(store: Store, data: array<char>, ret: array<nat>, ghost row: string, ghost fields: seq<string>,
                   ghost seal: nat)
    returns (outcome: Outcome)
    requires store.Valid() && |fields| == ATTACKER_ROW_NUM_FIELDS <= ret.Length
    requires Csv.Parsed(data[..], row, seal, ret[..8], fields)
    modifies data, store.drop, store.dup
    ensures var reading := ReadFields(Texts(fields));
            outcome == OutcomeOf(reading) && store.View() == Effect(old(store.View()), reading)
  {
    assert ret[..8][..7] == ret[..7] && ret[..8][7] == ret[7];
    var version, kind, action := ReadHead(data, ret, fields, seal);
    if version == None || kind == BadType {
      return Refused;
    } else if kind == PastTable {
      return Undetermined;
    } else if action == None {
      return Refused;
    }
    LastFieldString(data[..], row, seal, ret[7]);
    outcome := AddParsed(store, data, ret[7], seal, Texts(fields)[7], version.value, kind.kind, action.value);
  }

  /** `attacker_add_rule`: parses the row in place and enters its rule into the tables. */
  method AddRule(store: Store, data: array<char>, len: nat, ghost row: string) returns (outcome: Outcome)
    requires store.Valid() && len == |row| + 1 && Csv.Holds(data[..], row, 0)
    modifies data, store.drop, store.dup
    ensures outcome == OutcomeOf(ReadRow(row)) && store.View() == Effect(old(store.View()), ReadRow(row))
  {
    var quoted, ret, used, seal := Csv.CsvParse(data, len, row);
    if quoted {
      outcome := Undetermined;
    } else if used != ATTACKER_ROW_NUM_FIELDS {
      outcome := Refused;
    } else {
      outcome := AddFields(store, data, ret, row, Csv.Fields(row), seal);
    }
  }

  // ----- Files -----

  predicate IsNewline(c: char) {
    c == '\n' || c == '\r'
  }

  /** The end of the line at `pos`: the next newline, or the end of the file. */
  function LineEnd(content: string, pos: nat): (end: nat)
    requires pos <= |content|
    ensures pos <= end <= |content|
    ensures forall k :: pos <= k < end ==> !IsNewline(content[k])
    ensures end < |content| ==> IsNewline(content[end])
    decreases |content| - pos
  {
    if pos == |content| || IsNewline(content[pos]) then pos else LineEnd(content, pos + 1)
  }

  /** The lines of a file; there is one more of them than newlines. */
  function Lines(content: string, pos: nat): (lines: seq<string>)
    requires pos <= |content|
    ensures lines != []
    decreases |content| - pos
  {
    var end := LineEnd(content, pos);
    [content[pos..end]] + if end < |content| then Lines(content, end + 1) else []
  }

  /** A line that holds a rule: not empty, and not a comment. */
  predicate IsRuleLine(line: string) {
    line != [] && line[0] != '#'
  }

  function RuleLines(lines: seq<string>): seq<string> {
    if lines == [] then []
    else (if IsRuleLine(lines[0]) then [lines[0]] else []) + RuleLines(lines[1..])
  }

  /** The rows of a profile: the first line is a heading. */
  function Rows(content: string): seq<string> {
    RuleLines(Lines(content, 0)[1..])
  }

  /** The tables after some rows; `known` is false when one of them is not modelled. */
  datatype Loaded = Loaded(tables: Tables, known: bool)

  function Load(t: Tables, rows: seq<string>): Loaded
    decreases |rows|
  {
    if rows == [] then Loaded(t, true)
    else if ReadRow(rows[0]) == Unmodelled then Loaded(t, false)
    else Load(Effect(t, ReadRow(rows[0])), rows[1..])
  }

  /** What a line of the given number means. */
  function ReadLineNo(line: string, lineNo: nat): Reading {
    if lineNo > 1 && IsRuleLine(line) then ReadRow(line) else Rejected
  }

  lemma LoadOne(t: Tables, line: string, rest: seq<string>)
    ensures Load(t, RuleLines([line] + rest)) ==
            if ReadLineNo(line, 2) == Unmodelled then Loaded(t, false)
            else Load(Effect(t, ReadLineNo(line, 2)), RuleLines(rest))
  {
    assert ([line] + rest)[1..] == rest;
    if IsRuleLine(line) {
      assert ([line] + RuleLines(rest))[1..] == RuleLines(rest);
    } else {
      assert [] + RuleLines(rest) == RuleLines(rest);
    }
  }

  /** What the given lines load, the first of which has the given number. */
  function LoadLines(t: Tables, lines: seq<string>, lineNo: nat): Loaded {
    Load(t, RuleLines(if lineNo > 1 || lines == [] then lines else lines[1..]))
  }

  /** How one line leads to the next: `v` are the tables after it. */
  lemma LoadLine(t: Tables, v: Tables, known: bool, lines: seq<string>, lineNo: nat, reading: Reading)
    requires lines != [] && lineNo >= 1 && reading == ReadLineNo(lines[0], lineNo)
    requires v == Effect(t, reading) && known == (reading != Unmodelled)
    ensures LoadLines(t, lines, lineNo) ==
            if known then LoadLines(v, lines[1..], lineNo + 1) else Loaded(v, false)
  {
    if lineNo > 1 {
      LoadOne(t, lines[0], lines[1..]);
      assert [lines[0]] + lines[1..] == lines;
    }
  }

  /** The first of the lines from `pos` on, and the others. */
  lemma LinesFirst(content: string, pos: nat, lines: seq<string>, end: nat)
    requires pos <= |content| && lines == Lines(content, pos) && end == LineEnd(content, pos)
    ensures lines[0] == content[pos..end]
    ensures lines[1..] == if end < |content| then Lines(content, end + 1) else []
  {
  }

  /** The characters of a line are appended to the emptied stream, and a NUL behind them. */
  method ReadLine(stream: Stream<char>, content: string, pos: nat) returns (end: nat)
    requires stream.Valid() && stream.len == 0 && pos <= |content|
    modifies stream, stream.data
    ensures stream.Valid() && (stream.data == old(stream.data) || fresh(stream.data))
    ensures end == LineEnd(content, pos) && stream.Live() == content[pos..end] + [NUL]
  {
    end := pos;
    while end < |content| && !IsNewline(content[end])
      invariant pos <= end <= |content| && LineEnd(content, pos) == LineEnd(content, end)
      invariant stream.Valid() && (stream.data == old(stream.data) || fresh(stream.data))
      invariant stream.Live() == content[pos..end]
    {
      stream.Append([content[end]]);
      assert content[pos..end + 1] == content[pos..end] + [content[end]];
      end := end + 1;
    }
    stream.Append([NUL]);
  }

  /** The line in the stream is used unless it is the first one, empty or a comment. */
  method UseLine(store: Store, stream: Stream<char>, lineNo: nat, ghost line: string, ghost reading: Reading)
    returns (outcome: Outcome)
    requires store.Valid() && stream.Valid() && stream.Live() == line + [NUL] && reading == ReadLineNo(line, lineNo)
    modifies stream.data, store.drop, store.dup
    ensures outcome == OutcomeOf(reading) && store.View() == Effect(old(store.View()), reading)
  {
    assert stream.len == |line| + 1;
    assert forall k :: 0 <= k < |line| ==> stream.data[k] == stream.Live()[k] == line[k];
    assert stream.data[|line|] == stream.Live()[|line|];
    if lineNo > 1 && stream.len > 1 && stream.data[0] != '#' {
      outcome := AddRule(store, stream.data, stream.len, line);
    } else {
      outcome := Refused;
    }
  }

  /** A line is read and used, and the stream emptied again. */
  method NextLine(store: Store, stream: Stream<char>, content: string, pos: nat, lineNo: nat, ghost line: string,
                  ghost reading: Reading)
    returns (known: bool, end: nat)
    requires store.Valid() && stream.Valid() && stream.len == 0 && pos <= |content|
    requires line == content[pos..LineEnd(content, pos)] && reading == ReadLineNo(line, lineNo)
    modifies stream, stream.data, store.drop, store.dup
    ensures stream.Valid() && stream.len == 0 && (stream.data == old(stream.data) || fresh(stream.data))
    ensures end == LineEnd(content, pos) && known == (reading != Unmodelled)
    ensures store.View() == Effect(old(store.View()), reading)
  {
    end := ReadLine(stream, content, pos);
    var outcome := UseLine(store, stream, lineNo, line, reading);
    known := outcome != Undetermined;
    stream.len := 0;
  }

  /** The effect of the next line on what the lines load. */
  method TakeLine(store: Store, stream: Stream<char>, content: string, pos: nat, lineNo: nat, ghost lines: seq<string>,
                  ghost rest: seq<string>)
    returns (known: bool, end: nat)
    requires store.Valid() && stream.Valid() && stream.len == 0 && pos <= |content|
    requires lineNo >= 1 && lines != [] && lines[0] == content[pos..LineEnd(content, pos)] && rest == lines[1..]
    modifies stream, stream.data, store.drop, store.dup
    ensures stream.Valid() && stream.len == 0 && (stream.data == old(stream.data) || fresh(stream.data))
    ensures end == LineEnd(content, pos)
    ensures LoadLines(old(store.View()), lines, lineNo) ==
            if known then LoadLines(store.View(), rest, lineNo + 1) else Loaded(store.View(), false)
  {
    ghost var t, reading := store.View(), ReadLineNo(lines[0], lineNo);
    known, end := NextLine(store, stream, content, pos, lineNo, lines[0], reading);
    LoadLine(t, store.View(), known, lines, lineNo, reading);
  }

  /** An iteration of `attacker_read_rows`. */
  method NextRow(store: Store, stream: Stream<char>, content: string, pos: nat, lineNo: nat, ghost lines: seq<string>,
                 ghost rest: seq<string>, ghost goal: Loaded)
    returns (known: bool, eof: bool, next: nat)
    requires store.Valid() && stream.Valid() && stream.len == 0 && lineNo >= 1
    requires pos <= |content| && lines == Lines(content, pos) && rest == lines[1..]
    requires goal == LoadLines(store.View(), lines, lineNo)
    modifies stream, stream.data, store.drop, store.dup
    ensures stream.Valid() && stream.len == 0 && (stream.data == old(stream.data) || fresh(stream.data))
    ensures pos <= next <= |content| && (!eof ==> pos < next)
    ensures if eof then known ==> rest == [] else known && rest == Lines(content, next)
    ensures goal == if known then LoadLines(store.View(), rest, lineNo + 1) else Loaded(store.View(), false)
  {
    assert lines[0] == content[pos..LineEnd(content, pos)] by {
      LinesFirst(content, pos, lines, LineEnd(content, pos));
    }
    var end;
    known, end := TakeLine(store, stream, content, pos, lineNo, lines, rest);
    eof := !known || end == |content|;
    next := if eof then end else end + 1;
    assert rest == if end < |content| then Lines(content, end + 1) else [] by {
      LinesFirst(content, pos, lines, end);
    }
  }

  /** `attacker_read_rows`, given what the file holds. The loop ends after the line that meets the end
      of the file. */
  method ReadRows(store: Store, content: string) returns (known: bool)
    requires store.Valid()
    modifies store.drop, store.dup
    ensures Loaded(store.View(), known) == Load(old(store.View()), Rows(content))
  {
    var stream := new Stream(DEFAULT_STREAM_LEN);
    var pos, lineNo, eof := 0, 1, false;
    ghost var lines := Lines(content, 0);
    ghost var goal := LoadLines(store.View(), lines, 1);
    known := true;
    while !eof
      invariant stream.Valid() && fresh(stream) && fresh(stream.data) && stream.len == 0
      invariant pos <= |content| && lineNo >= 1
      invariant if eof then known ==> lines == [] else known && lines == Lines(content, pos)
      invariant goal == if known then LoadLines(store.View(), lines, lineNo) else Loaded(store.View(), false)
      decreases |content| - pos, !eof
    {
      ghost var rest := lines[1..];
      known, eof, pos := NextRow(store, stream, content, pos, lineNo, lines, rest, goal);
      lineNo := lineNo + 1;
      lines := rest;
    }
  }
}
