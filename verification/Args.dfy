/**
  The in-place parser of `key=value` lists (mproxy/src/args.c).
 */
module Args {
  import opened CStrings
  import opened Wrappers

  const DELIM := '&'

  datatype Value = NoValue | IntValue(i: int) | FloatValue(x: real) | StrValue(s: string)

  /** An argument. It has no key when nothing stands in front of its `=` or delimiter; the C string
      of its name is then empty, or starts with this `=` or delimiter. */
  datatype Arg = Arg(key: Option<string>, value: Value)

  /** `Overrun`: the parser steps over the end of the string, because nothing follows its last `=`. */
  datatype Parsed = List(args: seq<Arg>) | Overrun

  // ----- What a string means -----

  function Typed(s: string): Value {
    match FloatKind(s)
    case 1 => FloatValue(Atof(s))
    case 0 => IntValue(Atoi(s))
    case _ => StrValue(s)
  }

  function KeyText(s: string, name: nat, end: nat): Option<string>
    requires name <= end <= |s|
  {
    var n := TextEnd(s, name, end);
    if n == name then None else Some(s[name..n])
  }

  /** Where the current argument stands: whether its first `=` has been passed, and where its value
      starts, which is behind the last `=`. */
  datatype Pending = NoEq | Eq(keyEnd: nat, value: nat)

  ghost predicate Fits(p: Pending, name: nat, i: nat) {
    name <= i && (p.Eq? ==> name <= p.keyEnd < p.value < i)
  }

  function ArgOf(s: string, name: nat, p: Pending, end: nat): Arg
    requires end <= |s| && Fits(p, name, end)
  {
    match p
    case NoEq => Arg(KeyText(s, name, end), NoValue)
    case Eq(keyEnd, value) => Arg(KeyText(s, name, keyEnd), Typed(s[value..TextEnd(s, value, end)]))
  }

  function Prepend(arg: Arg, tail: Parsed): Parsed {
    match tail
    case List(args) => List([arg] + args)
    case Overrun => Overrun
  }

  function AtEq(p: Pending, i: nat, value: nat): Pending {
    Eq(if p.Eq? then p.keyEnd else i, value)
  }

  /** The arguments from position `i` on, when the current one starts at `name`. */
  function Scan(s: string, i: nat, name: nat, p: Pending): Parsed
    requires i <= |s| + 1 && Fits(p, name, i)
    decreases |s| + 1 - i
  {
    if i > |s| then Overrun
    else if i == |s| then List([ArgOf(s, name, p, i)])
    else if s[i] == DELIM then
      var next := SkipBlanks(s, i + 1);
      if next == |s| then List([ArgOf(s, name, p, i)])
      else Prepend(ArgOf(s, name, p, i), Scan(s, next, next, NoEq))
    else if s[i] == '=' then
      var value := SkipBlanks(s, i + 1);
      Scan(s, value + 1, name, AtEq(p, i, value))
    else Scan(s, i + 1, name, p)
  }

  function Parse(s: string): Parsed {
    Scan(s, 0, 0, NoEq)
  }

  // ----- When the parser stays inside the string -----

  /** What the string ends with, from position `i` on: whether there is nothing but `=` and blanks, and how
      many `=` stand in the run of `=` and blanks at its end. */
  datatype Closing = Closing(whole: bool, eqs: nat)

  function ClosingOf(s: string, i: nat): Closing
    requires i <= |s|
    decreases |s| - i
  {
    if i == |s| then Closing(true, 0)
    else
      var c := ClosingOf(s, i + 1);
      if IsBlank(s[i]) then c
      else if s[i] == '=' && c.whole then Closing(true, c.eqs + 1)
      else Closing(false, c.eqs)
  }

  lemma {:induction false} ClosingSkips(s: string, i: nat)
    requires i <= |s|
    ensures ClosingOf(s, SkipBlanks(s, i)) == ClosingOf(s, i)
    decreases |s| - i
  {
    if i < |s| && IsBlank(s[i]) {
      ClosingSkips(s, i + 1);
    }
  }

  /** An `=` takes the character behind it, and the blanks between them, with it. */
  lemma ClosingPairs(s: string, i: nat, value: nat)
    requires i < |s| && s[i] == '=' && value == SkipBlanks(s, i + 1)
    ensures value <= |s| && (value == |s| ==> ClosingOf(s, i).eqs == 1)
    ensures value < |s| ==> ClosingOf(s, i).eqs % 2 == ClosingOf(s, value + 1).eqs % 2
  {
    ClosingSkips(s, i + 1);
  }

  lemma ScanAtDelim(s: string, i: nat, name: nat, p: Pending, next: nat)
    requires i < |s| && s[i] == DELIM && Fits(p, name, i) && next == SkipBlanks(s, i + 1)
    ensures Scan(s, i, name, p) == Overrun <==> next < |s| && Scan(s, next, next, NoEq) == Overrun
    ensures ClosingOf(s, i).eqs == ClosingOf(s, next).eqs
  {
    ClosingSkips(s, i + 1);
  }

  lemma ScanAtEq(s: string, i: nat, name: nat, p: Pending, value: nat)
    requires i < |s| && s[i] == '=' && Fits(p, name, i) && value == SkipBlanks(s, i + 1)
    ensures Scan(s, i, name, p) == Scan(s, value + 1, name, AtEq(p, i, value))
  {
  }

  lemma {:induction false} ScanOverruns(s: string, i: nat, name: nat, p: Pending)
    requires i <= |s| + 1 && Fits(p, name, i)
    ensures Scan(s, i, name, p) == Overrun <==> i > |s| || ClosingOf(s, i).eqs % 2 == 1
    decreases |s| + 1 - i
  {
    if i < |s| {
      if s[i] == DELIM {
        var next := SkipBlanks(s, i + 1);
        ScanAtDelim(s, i, name, p, next);
        ScanOverruns(s, next, next, NoEq);
      } else if s[i] == '=' {
        var value := SkipBlanks(s, i + 1);
        ClosingPairs(s, i, value);
        ScanAtEq(s, i, name, p, value);
        ScanOverruns(s, value + 1, name, AtEq(p, i, value));
      } else {
        ScanOverruns(s, i + 1, name, p);
      }
    }
  }

  /** The parser steps over the end of a string exactly if an odd number of `=` stands in the run of `=` and
      blanks at its end. */
  lemma Overruns(s: string)
    ensures Parse(s) == Overrun <==> ClosingOf(s, 0).eqs % 2 == 1
  {
    ScanOverruns(s, 0, 0, NoEq);
  }

  /** The parser leaves the string `p=`. */
  lemma EmptyValueOverruns()
    ensures Parse("p=") == Overrun
  {
    Overruns("p=");
  }

  /** In `p=&=` the first `=` takes the delimiter, and the parser leaves the string. */
  lemma TakenDelimiterOverruns()
    ensures Parse("p=&=") == Overrun
  {
    Overruns("p=&=");
  }

  /** In `p==` the first `=` takes the second one, and the parser stays inside. */
  lemma DoubleEqStays()
    ensures Parse("p==").List?
  {
    Overruns("p==");
  }

  // ----- The parser -----

  datatype NodeValue = NoVal | IntVal(i: int) | FloatVal(x: real) | StrVal(p: nat)

  /** `arg_node_t`; names and string values are pointers into the string. */
  datatype Node = Node(name: nat, value: NodeValue)

  /** From position `i` on, memory still holds the string and the NUL behind it. */
  ghost predicate Holds(mem: seq<char>, start: nat, s: string, i: nat) {
    && start + |s| < |mem| && mem[start + |s|] == NUL
    && forall k :: i <= k < |s| ==> mem[start + k] == s[k]
  }

  /** `s` and a NUL stand at `p`, in front of `bound`. */
  ghost predicate StringAt(mem: seq<char>, bound: nat, p: nat, s: string) {
    && p + |s| < bound <= |mem| && mem[p + |s|] == NUL && NUL !in s
    && forall k :: 0 <= k < |s| ==> mem[p + k] == s[k]
  }

  /** The name of an argument, as far as it lies in front of `bound`. */
  ghost predicate NameAt(mem: seq<char>, bound: nat, p: nat, key: Option<string>) {
    match key
    case Some(k) => StringAt(mem, bound, p, k)
    case None => p < bound <= |mem| && (mem[p] == NUL || mem[p] == '=' || mem[p] == DELIM)
  }

  ghost predicate NodeIs(mem: seq<char>, bound: nat, node: Node, arg: Arg) {
    && NameAt(mem, bound, node.name, arg.key)
    && match arg.value
       case NoValue => node.value == NoVal
       case IntValue(i) => node.value == IntVal(i)
       case FloatValue(x) => node.value == FloatVal(x)
       case StrValue(s) => node.value.StrVal? && StringAt(mem, bound, node.value.p, s)
  }

  ghost predicate NodesAre(mem: seq<char>, bound: nat, nodes: seq<Node>, args: seq<Arg>)
    decreases |nodes|
  {
    if nodes == [] then args == []
    else
      var n := |nodes| - 1;
      |args| == n + 1 && NodeIs(mem, bound, nodes[n], args[n]) && NodesAre(mem, bound, nodes[..n], args[..n])
  }

  /** The nodes stay intact when memory changes behind them. */
  lemma {:induction false} NodesStay(before: seq<char>, after: seq<char>, bound: nat, more: nat, nodes: seq<Node>,
                                     args: seq<Arg>)
    requires NodesAre(before, bound, nodes, args)
    requires bound <= more <= |after| && bound <= |before| && forall k :: 0 <= k < bound ==> after[k] == before[k]
    ensures NodesAre(after, more, nodes, args)
    decreases |nodes|
  {
    if nodes != [] {
      var n := |nodes| - 1;
      NodesStay(before, after, bound, more, nodes[..n], args[..n]);
    }
  }

  lemma NodesMore(mem: seq<char>, bound: nat, nodes: seq<Node>, args: seq<Arg>, node: Node, arg: Arg)
    requires NodesAre(mem, bound, nodes, args) && NodeIs(mem, bound, node, arg)
    ensures NodesAre(mem, bound, nodes + [node], args + [arg])
  {
    assert (nodes + [node])[..|nodes|] == nodes;
    NodesLength(mem, bound, nodes, args);
    assert (args + [arg])[..|args|] == args;
  }

  /** Memory has changed behind the nodes, and there stands one more. */
  lemma NodesAppend(before: seq<char>, after: seq<char>, bound: nat, more: nat, nodes: seq<Node>, args: seq<Arg>,
                    node: Node, arg: Arg)
    requires NodesAre(before, bound, nodes, args) && NodeIs(after, more, node, arg)
    requires bound <= more <= |after| && bound <= |before| && forall k :: 0 <= k < bound ==> after[k] == before[k]
    ensures NodesAre(after, more, nodes + [node], args + [arg])
  {
    NodesStay(before, after, bound, more, nodes, args);
    NodesMore(after, more, nodes, args, node, arg);
  }

  lemma {:induction false} NodesLength(mem: seq<char>, bound: nat, nodes: seq<Node>, args: seq<Arg>)
    requires NodesAre(mem, bound, nodes, args)
    ensures |nodes| == |args|
    ensures forall j :: 0 <= j < |nodes| ==> NodeIs(mem, bound, nodes[j], args[j])
    decreases |nodes|
  {
    if nodes != [] {
      var n := |nodes| - 1;
      NodesLength(mem, bound, nodes[..n], args[..n]);
      assert forall j :: 0 <= j < n ==> nodes[..n][j] == nodes[j] && args[..n][j] == args[j];
    }
  }

  /** The loop that steps back over blanks and ends the text in front of them with a NUL. The byte in
      front of `floor` is not a blank. */
  method EndText(data: array<char>, ghost floor: nat, at: nat) returns (w: nat)
    requires floor <= at < data.Length && (floor > 0 ==> !IsBlank(data[floor - 1]))
    modifies data
    ensures floor <= w <= at
    ensures forall k :: w <= k < at ==> IsBlank(old(data[k]))
    ensures w > floor ==> !IsBlank(old(data[w - 1]))
    ensures forall k :: 0 <= k < data.Length ==> data[k] == if k == w then NUL else old(data[k])
  {
    var back: int := at - 1;
    while back >= 0 && IsBlank(data[back])
      invariant floor - 1 <= back < at
      invariant forall k :: back < k < at ==> IsBlank(data[k])
    {
      back := back - 1;
    }
    w := back + 1;
    data[w] := NUL;
  }

  method Skip(data: array<char>, start: nat, i: nat, ghost s: string) returns (next: nat)
    requires i <= |s| && Holds(data[..], start, s, i)
    ensures next == SkipBlanks(s, i)
  {
    next := i;
    while IsBlank(data[start + next])
      invariant i <= next <= |s| && SkipBlanks(s, next) == SkipBlanks(s, i)
      decreases |s| - next
    {
      next := next + 1;
    }
  }

  /** Memory around the current argument, from its name to the cursor at `i`: what is still needed of
      it has not been overwritten. Before the first `=` there are only blanks between `floor` and the
      name. */
  ghost predicate CurrentAt(mem: seq<char>, start: nat, floor: nat, s: string, name: nat, i: nat, p: Pending)
    requires Fits(p, name, i)
  {
    && i <= |s| && Holds(mem, start, s, i)
    && floor <= start + name && (floor > 0 ==> !IsBlank(mem[floor - 1]))
    && (name < |s| ==> !IsBlank(s[name]))
    && match p
       case NoEq =>
         && (forall k :: floor <= k < start + name ==> IsBlank(mem[k]))
         && forall k :: name <= k < i ==> mem[start + k] == s[k]
       case Eq(keyEnd, value) =>
         && NameAt(mem, start + value, start + name, KeyText(s, name, keyEnd))
         && !IsBlank(s[value]) && forall k :: value <= k < i ==> mem[start + k] == s[k]
  }

  /** The name of an argument is ended at position `i`, where an `=`, a delimiter or the end of the
      string stands. */
  method EndName(data: array<char>, start: nat, ghost floor: nat, ghost s: string, ghost name: nat, i: nat)
    requires name <= i && CurrentAt(data[..], start, floor, s, name, i, NoEq) && NUL !in s
    requires i < |s| ==> s[i] == '=' || s[i] == DELIM
    modifies data
    ensures NameAt(data[..], start + i + 1, start + name, KeyText(s, name, i))
    ensures data[start + i] == NUL || data[start + i] == old(data[start + i])
    ensures forall k :: 0 <= k < floor || start + i < k < data.Length ==> data[k] == old(data[k])
  {
    ghost var was := data[..];
    var w := EndText(data, floor, start + i);
    assert forall k :: name <= k < i ==> was[start + k] == s[k];
    assert forall k :: floor <= k < start + name ==> IsBlank(was[k]);
    if w > start + name {
      TextEndIs(s, name, i, w - start);
    } else {
      assert forall k :: w <= k < start + i ==> IsBlank(was[k]);
      assert name == i;
      TextEndIs(s, name, i, name);
    }
  }

  /** The value of an argument is ended at position `i`. */
  method EndValue(data: array<char>, start: nat, ghost s: string, ghost value: nat, i: nat)
    requires value < i <= |s| && start + |s| < data.Length && !IsBlank(s[value]) && NUL !in s
    requires forall k :: value <= k < i ==> data[start + k] == s[k]
    modifies data
    ensures StringAt(data[..], start + i + 1, start + value, s[value..TextEnd(s, value, i)])
    ensures data[start + i] == NUL || data[start + i] == old(data[start + i])
    ensures forall k :: 0 <= k <= start + value || start + i < k < data.Length ==> data[k] == old(data[k])
  {
    ghost var was := data[..];
    assert was[start + value] == s[value];
    var w := EndText(data, start + value + 1, start + i);
    assert forall k :: value <= k < i ==> was[start + k] == s[k];
    TextEndIs(s, value, i, w - start);
  }

  lemma StringAtIs(mem: seq<char>, bound: nat, p: nat, s: string)
    requires StringAt(mem, bound, p, s)
    ensures Terminated(mem, p) && CStr(mem, p) == s
  {
    assert mem[p..p + |s|] == s;
    CStrAt(mem, p, s);
    CStrWhole(s, 0);
    assert s[0..] == s;
  }

  /** The value of an argument is given its type. */
  method TypeValue(data: array<char>, p: nat, ghost bound: nat, ghost text: string) returns (value: NodeValue)
    requires StringAt(data[..], bound, p, text)
    ensures match Typed(text)
            case NoValue => false
            case IntValue(i) => value == IntVal(i)
            case FloatValue(x) => value == FloatVal(x)
            case StrValue(_) => value == StrVal(p) && Typed(text) == StrValue(text)
  {
    StringAtIs(data[..], bound, p, text);
    var kind := IsFloat(data, p);
    if kind == 1 {
      value := FloatVal(Atof(CStr(data[..], p)));
    } else if kind == 0 {
      value := IntVal(Atoi(CStr(data[..], p)));
    } else {
      value := StrVal(p);
    }
  }

  /** An argument is completed: position `i` holds a delimiter or the end of the string. */
  method CompleteNode(data: array<char>, start: nat, ghost floor: nat, ghost s: string, name: nat, hasEq: bool,
                      eqPos: nat, i: nat, ghost p: Pending)
    returns (node: Node)
    requires Fits(p, name, i) && CurrentAt(data[..], start, floor, s, name, i, p) && NUL !in s
    requires hasEq == p.Eq? && (hasEq ==> eqPos == p.value)
    requires i < |s| ==> s[i] == DELIM
    modifies data
    ensures NodeIs(data[..], start + i + 1, node, ArgOf(s, name, p, i))
    ensures data[start + i] == NUL || data[start + i] == old(data[start + i])
    ensures forall k :: 0 <= k < floor || start + i < k < data.Length ==> data[k] == old(data[k])
  {
    var value := NoVal;
    if hasEq {
      value := CompleteValue(data, start, floor, s, name, i, eqPos, p);
    } else {
      EndName(data, start, floor, s, name, i);
    }
    node := Node(start + name, value);
  }

  /** The value of an argument with an `=` is ended and typed. */
  method CompleteValue(data: array<char>, start: nat, ghost floor: nat, ghost s: string, ghost name: nat, i: nat,
                       eqPos: nat, ghost p: Pending)
    returns (value: NodeValue)
    requires p.Eq? && eqPos == p.value && Fits(p, name, i) && NUL !in s
    requires CurrentAt(data[..], start, floor, s, name, i, p)
    modifies data
    ensures NodeIs(data[..], start + i + 1, Node(start + name, value), ArgOf(s, name, p, i))
    ensures data[start + i] == NUL || data[start + i] == old(data[start + i])
    ensures forall k :: 0 <= k < floor || start + i < k < data.Length ==> data[k] == old(data[k])
  {
    ghost var text, key := s[eqPos..TextEnd(s, eqPos, i)], KeyText(s, name, p.keyEnd);
    EndValue(data, start, s, eqPos, i);
    assert NameAt(data[..], start + i + 1, start + name, key);
    value := TypeValue(data, start + eqPos, start + i + 1, text);
  }

  /** What precedes an `=` at position `i` is ended. */
  method EndBeforeEq(data: array<char>, start: nat, ghost floor: nat, ghost s: string, ghost name: nat, hasEq: bool,
                     ghost p: Pending, i: nat)
    requires Fits(p, name, i) && CurrentAt(data[..], start, floor, s, name, i, p) && NUL !in s
    requires hasEq == p.Eq? && i < |s| && s[i] == '='
    modifies data
    ensures NameAt(data[..], start + i + 1, start + name, KeyText(s, name, AtEq(p, i, i + 1).keyEnd))
    ensures forall k :: 0 <= k < floor || start + i < k < data.Length ==> data[k] == old(data[k])
  {
    if !hasEq {
      EndName(data, start, floor, s, name, i);
    } else {
      EndValue(data, start, s, p.value, i);
    }
  }

  /** An `=` at position `i`: the value starts at the next non-blank. */
  method PassEq(data: array<char>, start: nat, ghost floor: nat, ghost s: string, ghost name: nat, hasEq: bool,
                ghost p: Pending, i: nat)
    returns (value: nat)
    requires Fits(p, name, i) && CurrentAt(data[..], start, floor, s, name, i, p) && NUL !in s
    requires hasEq == p.Eq? && i < |s| && s[i] == '='
    modifies data
    ensures value == SkipBlanks(s, i + 1)
    ensures value < |s| ==> CurrentAt(data[..], start, floor, s, name, value + 1, AtEq(p, i, value))
    ensures forall k :: 0 <= k < floor || start + i < k < data.Length ==> data[k] == old(data[k])
  {
    ghost var was := data[..];
    assert floor > 0 ==> !IsBlank(was[floor - 1]);
    EndBeforeEq(data, start, floor, s, name, hasEq, p, i);
    value := Skip(data, start, i + 1, s);
  }

  /** An argument is completed and appended to the list. */
  method AppendNode(data: array<char>, start: nat, ghost floor: nat, ghost s: string, name: nat, hasEq: bool,
                    eqPos: nat, ghost p: Pending, i: nat, nodes: seq<Node>, ghost args: seq<Arg>)
    returns (more: seq<Node>)
    requires Fits(p, name, i) && CurrentAt(data[..], start, floor, s, name, i, p) && NUL !in s
    requires hasEq == p.Eq? && (hasEq ==> eqPos == p.value)
    requires i < |s| ==> s[i] == DELIM
    requires NodesAre(data[..], floor, nodes, args)
    modifies data
    ensures NodesAre(data[..], start + i + 1, more, args + [ArgOf(s, name, p, i)])
    ensures data[start + i] == NUL || data[start + i] == old(data[start + i])
    ensures forall k :: 0 <= k < floor || start + i < k < data.Length ==> data[k] == old(data[k])
  {
    ghost var was, bound, arg := data[..], start + i + 1, ArgOf(s, name, p, i);
    var node := CompleteNode(data, start, floor, s, name, hasEq, eqPos, i, p);
    more := nodes + [node];
    ghost var now := data[..];
    assert NodesAre(now, bound, more, args + [arg]) by {
      assert forall k :: 0 <= k < floor ==> now[k] == was[k];
      NodesAppend(was, now, floor, bound, nodes, args, node, arg);
    }
  }

  /** The end of an argument at position `i`: it is completed, and behind a delimiter the next one
      starts at the next non-blank. */
  method FinishArg(data: array<char>, start: nat, ghost floor: nat, ghost s: string, name: nat, hasEq: bool,
                   eqPos: nat, ghost p: Pending, i: nat, nodes: seq<Node>, ghost args: seq<Arg>, ghost was: seq<char>)
    returns (more: seq<Node>, next: nat)
    requires Fits(p, name, i) && CurrentAt(data[..], start, floor, s, name, i, p) && NUL !in s
    requires hasEq == p.Eq? && (hasEq ==> eqPos == p.value)
    requires i < |s| ==> s[i] == DELIM
    requires floor <= |was| && NodesAre(was, floor, nodes, args)
    requires forall k :: 0 <= k < floor ==> data[k] == was[k]
    modifies data
    ensures NodesAre(data[..], start + i + 1, more, args + [ArgOf(s, name, p, i)])
    ensures next == SkipBlanks(s, if i < |s| then i + 1 else i)
    ensures next < |s| ==> CurrentAt(data[..], start, start + i + 1, s, next, next, NoEq)
    ensures forall k :: 0 <= k < floor || start + i < k < data.Length ==> data[k] == old(data[k])
    ensures data[start + |s|] == NUL
  {
    var behind := if data[start + i] == DELIM then i + 1 else i;
    assert NodesAre(data[..], floor, nodes, args) by {
      NodesStay(was, data[..], floor, floor, nodes, args);
    }
    more := AppendNode(data, start, floor, s, name, hasEq, eqPos, p, i, nodes, args);
    next := Skip(data, start, behind, s);
    if next < |s| {
      NextCurrent(data[..], start, s, i, next);
    }
  }

  /** Behind a delimiter and blanks the next argument is current. */
  lemma NextCurrent(mem: seq<char>, start: nat, s: string, i: nat, next: nat)
    requires i < |s| && Holds(mem, start, s, i + 1) && next == SkipBlanks(s, i + 1) < |s| && !IsBlank(mem[start + i])
    ensures CurrentAt(mem, start, start + i + 1, s, next, next, NoEq)
  {
    forall k | start + i + 1 <= k < start + next
      ensures IsBlank(mem[k])
    {
      assert mem[start + (k - start)] == s[k - start];
    }
  }

  /** One step of the scan, at a character that does not end the argument. */
  method ScanStep(data: array<char>, start: nat, ghost floor: nat, ghost s: string, ghost name: nat, hasEq: bool,
                  eqPos: nat, ghost p: Pending, i: nat)
    returns (newEq: bool, newPos: nat, next: nat, ghost q: Pending)
    requires Fits(p, name, i) && CurrentAt(data[..], start, floor, s, name, i, p) && NUL !in s
    requires hasEq == p.Eq? && (hasEq ==> eqPos == p.value)
    requires i < |s| && s[i] != DELIM
    modifies data
    ensures i < next <= |s| + 1 && Fits(q, name, next) && newEq == q.Eq? && (newEq ==> newPos == q.value)
    ensures next <= |s| ==> CurrentAt(data[..], start, floor, s, name, next, q)
    ensures forall k :: 0 <= k < floor || start + |s| <= k < data.Length ==> data[k] == old(data[k])
    ensures Scan(s, i, name, p) == Scan(s, next, name, q)
  {
    if data[start + i] == '=' {
      var value := PassEq(data, start, floor, s, name, hasEq, p, i);
      newEq, newPos, next, q := true, value, value + 1, AtEq(p, i, value);
    } else {
      newEq, newPos, next, q := hasEq, eqPos, i + 1, p;
    }
  }

  /** The scan of one argument, to its delimiter or to the end of the string. (The program scans all
      arguments in one loop.) */
  method ScanArg(data: array<char>, start: nat, end: nat, ghost floor: nat, ghost s: string, name: nat)
    returns (overrun: bool, hasEq: bool, eqPos: nat, i: nat, ghost p: Pending)
    requires name <= |s| && end == start + |s| && NUL !in s && CurrentAt(data[..], start, floor, s, name, name, NoEq)
    modifies data
    ensures forall k :: 0 <= k < floor || end < k < data.Length ==> data[k] == old(data[k])
    ensures overrun ==> Scan(s, name, name, NoEq) == Overrun
    ensures !overrun ==>
              && Fits(p, name, i) && CurrentAt(data[..], start, floor, s, name, i, p)
              && hasEq == p.Eq? && (hasEq ==> eqPos == p.value)
              && (i < |s| ==> s[i] == DELIM)
              && Scan(s, name, name, NoEq) == Scan(s, i, name, p)
  {
    overrun, hasEq, eqPos, i, p := false, false, 0, name, NoEq;
    ghost var goal := Scan(s, name, name, NoEq);
    while start + i <= end && data[start + i] != DELIM && data[start + i] != NUL
      invariant i <= |s| + 1 && Fits(p, name, i) && hasEq == p.Eq? && (hasEq ==> eqPos == p.value)
      invariant i <= |s| ==> CurrentAt(data[..], start, floor, s, name, i, p)
      invariant forall k :: 0 <= k < floor || end < k < data.Length ==> data[k] == old(data[k])
      invariant goal == Scan(s, i, name, p)
      decreases |s| + 1 - i
    {
      hasEq, eqPos, i, p := ScanStep(data, start, floor, s, name, hasEq, eqPos, p, i);
    }
    overrun := start + i > end;
    assert i < |s| ==> data[start + i] == s[i] && s[i] in s;
  }

  /** How the end of an argument leads on. */
  lemma ScanEnd(s: string, i: nat, name: nat, p: Pending, args: seq<Arg>)
    requires i <= |s| && Fits(p, name, i) && (i < |s| ==> s[i] == DELIM)
    ensures var more := args + [ArgOf(s, name, p, i)];
            var next := SkipBlanks(s, if i < |s| then i + 1 else i);
            PrependAll(args, Scan(s, i, name, p)) ==
            if next == |s| then List(more) else PrependAll(more, Scan(s, next, next, NoEq))
  {
    if i < |s| {
      var next := SkipBlanks(s, i + 1);
      PrependAllOne(args, ArgOf(s, name, p, i), Scan(s, next, next, NoEq));
    }
  }

  /** The end of an argument that has been scanned: it is completed and appended to the list. */
  method CloseArg(data: array<char>, start: nat, ghost floor: nat, ghost s: string, name: nat, hasEq: bool,
                  eqPos: nat, ghost p: Pending, i: nat, nodes: seq<Node>, ghost args: seq<Arg>, ghost was: seq<char>)
    returns (more: seq<Node>, next: nat, ghost found: seq<Arg>)
    requires Fits(p, name, i) && CurrentAt(data[..], start, floor, s, name, i, p) && NUL !in s
    requires hasEq == p.Eq? && (hasEq ==> eqPos == p.value)
    requires i < |s| ==> s[i] == DELIM
    requires floor <= |was| && NodesAre(was, floor, nodes, args)
    requires forall k :: 0 <= k < floor ==> data[k] == was[k]
    modifies data
    ensures NodesAre(data[..], start + i + 1, more, found)
    ensures i <= next <= |s| && (i < |s| ==> i < next)
    ensures next < |s| ==> CurrentAt(data[..], start, start + i + 1, s, next, next, NoEq)
    ensures forall k :: 0 <= k < floor || start + i < k < data.Length ==> data[k] == old(data[k])
    ensures PrependAll(args, Scan(s, i, name, p)) ==
            if next == |s| then List(found) else PrependAll(found, Scan(s, next, next, NoEq))
  {
    more, next := FinishArg(data, start, floor, s, name, hasEq, eqPos, p, i, nodes, args, was);
    found := args + [ArgOf(s, name, p, i)];
    ScanEnd(s, i, name, p, args);
  }

  /** One argument: scanned, completed and appended to the list. */
  method ParseArg(data: array<char>, start: nat, end: nat, ghost floor: nat, ghost s: string, name: nat,
                  nodes: seq<Node>, ghost args: seq<Arg>)
    returns (overrun: bool, more: seq<Node>, next: nat, ghost found: seq<Arg>, ghost seal: nat)
    requires name <= |s| && end == start + |s| && NUL !in s && CurrentAt(data[..], start, floor, s, name, name, NoEq)
    requires NodesAre(data[..], floor, nodes, args)
    modifies data
    ensures forall k :: 0 <= k < floor || end < k < data.Length ==> data[k] == old(data[k])
    ensures overrun ==> Scan(s, name, name, NoEq) == Overrun
    ensures !overrun ==> name <= next <= |s| && floor <= seal <= end + 1 && NodesAre(data[..], seal, more, found)
    ensures !overrun && next < |s| ==> name < next && CurrentAt(data[..], start, seal, s, next, next, NoEq)
    ensures !overrun ==>
              PrependAll(args, Scan(s, name, name, NoEq)) ==
              if next == |s| then List(found) else PrependAll(found, Scan(s, next, next, NoEq))
  {
    ghost var was := data[..];
    var hasEq, eqPos, i;
    ghost var p;
    overrun, hasEq, eqPos, i, p := ScanArg(data, start, end, floor, s, name);
    more, next, found, seal := nodes, name, args, floor;
    if overrun {
      return;
    }
    more, next, found := CloseArg(data, start, floor, s, name, hasEq, eqPos, p, i, nodes, args, was);
    seal := start + i + 1;
  }

  /** `args_parse` on the string at `start`, whose NUL is at `end`. In front of the string there are
      blanks, back to `floor`. The strings found lie in front of `seal`. */
  method ArgsParse(data: array<char>, start: nat, end: nat, ghost floor: nat, ghost s: string)
    returns (overrun: bool, nodes: seq<Node>, ghost args: seq<Arg>, ghost seal: nat)
    requires end == start + |s| && NUL !in s && CurrentAt(data[..], start, floor, s, 0, 0, NoEq)
    modifies data
    ensures forall k :: 0 <= k < floor || end < k < data.Length ==> data[k] == old(data[k])
    ensures Parse(s) == if overrun then Overrun else List(args)
    ensures !overrun ==> seal <= end + 1 && NodesAre(data[..], seal, nodes, args)
  {
    nodes, args, overrun, seal := [], [], false, floor;
    var name: nat := 0;
    ghost var goal := Parse(s);
    PrependNone(goal);
    while true
      invariant name <= |s| && floor <= seal
      invariant CurrentAt(data[..], start, seal, s, name, name, NoEq)
      invariant NodesAre(data[..], seal, nodes, args)
      invariant forall k :: 0 <= k < floor || end < k < data.Length ==> data[k] == old(data[k])
      invariant goal == PrependAll(args, Scan(s, name, name, NoEq))
      decreases |s| - name
    {
      overrun, nodes, name, args, seal := ParseArg(data, start, end, seal, s, name, nodes, args);
      if overrun || start + name == end {
        break;
      }
    }
  }

  lemma PrependNone(tail: Parsed)
    ensures PrependAll([], tail) == tail
  {
    if tail.List? {
      assert [] + tail.args == tail.args;
    }
  }

  function PrependAll(args: seq<Arg>, tail: Parsed): Parsed {
    match tail
    case List(more) => List(args + more)
    case Overrun => Overrun
  }

  lemma PrependAllOne(args: seq<Arg>, arg: Arg, tail: Parsed)
    ensures PrependAll(args, Prepend(arg, tail)) == PrependAll(args + [arg], tail)
  {
    if tail.List? {
      assert args + ([arg] + tail.args) == (args + [arg]) + tail.args;
    }
  }
}
