/**
  What a whole attack profile does to traffic: from the text of the file to the bytes that leave the
  proxy.
 */
module Loading {
  import opened Bytes
  import opened Flows
  import opened Frames
  import opened Profile
  import opened Relay
  import opened RuleText
  import opened Rules
  import opened Tables
  import Printing

  /** The rules of the rows that are understood, in order. */
  function RulesIn(rows: seq<string>): seq<Rule> {
    if rows == [] then []
    else
      match ReadRow(rows[0])
      case Understood(rule) => [rule] + RulesIn(rows[1..])
      case _ => RulesIn(rows[1..])
  }

  /** A file whose rows are all within the model leaves the tables its rules make; rejected rows, and
      DELAY and LIE rules, change nothing. */
  lemma {:induction false} LoadApplies(t: Tables, rows: seq<string>)
    ensures Load(t, rows).known <==> forall i :: 0 <= i < |rows| ==> ReadRow(rows[i]) != Unmodelled
    ensures Load(t, rows).known ==> Load(t, rows).tables == ApplyRules(t, RulesIn(rows))
    decreases |rows|
  {
    if rows != [] && ReadRow(rows[0]) != Unmodelled {
      var reading := ReadRow(rows[0]);
      LoadApplies(Effect(t, reading), rows[1..]);
      assert forall i :: 0 < i < |rows| ==> rows[i] == rows[1..][i - 1];
      if reading.Understood? {
        assert ([reading.rule] + RulesIn(rows[1..]))[1..] == RulesIn(rows[1..]);
      }
    }
  }

  /** Whatever a row says, a drop chance is a percentage, and a DUP rule asks for a further copy. */
  lemma RowSane(row: string)
    ensures var reading := ReadRow(row);
            reading.Understood? ==>
              && (reading.rule.Drop? ==> 0 <= reading.rule.chance <= 100)
              && (reading.rule.Dup? ==> reading.rule.extra >= 1)
  {
  }

  lemma {:induction false} RulesSane(rows: seq<string>)
    ensures SaneRules(RulesIn(rows))
  {
    if rows != [] {
      RowSane(rows[0]);
      RulesSane(rows[1..]);
    }
  }

  // ----- Profiles that write given rules -----

  /** A rule and the row that writes it. */
  datatype Order = Order(pieces: seq<Printing.Piece>, version: VersionPattern, kind: TypePattern, deed: Deed)

  ghost predicate AllWritten(orders: seq<Order>) {
    forall i :: 0 <= i < |orders| ==> Writes(orders[i].pieces, orders[i].version, orders[i].kind, orders[i].deed)
  }

  function RowsOf(orders: seq<Order>): seq<string> {
    if orders == [] then [] else [Printing.RowOf(orders[0].pieces)] + RowsOf(orders[1..])
  }

  /** The rules that take effect: all but the DUP rules that ask for no further copy. */
  function RulesOf(orders: seq<Order>): seq<Rule> {
    if orders == [] then []
    else
      match DeedMeaning(orders[0].version, orders[0].kind, orders[0].deed)
      case Understood(rule) => [rule] + RulesOf(orders[1..])
      case _ => RulesOf(orders[1..])
  }

  lemma {:induction false} RowsMean(orders: seq<Order>)
    requires AllWritten(orders)
    ensures RulesIn(RowsOf(orders)) == RulesOf(orders)
    decreases |orders|
  {
    if orders != [] {
      var o := orders[0];
      RowRoundTrip(o.pieces, o.version, o.kind, o.deed);
      assert RowsOf(orders)[1..] == RowsOf(orders[1..]);
      RowsMean(orders[1..]);
    }
  }

  /** A profile of a heading, comments, empty lines and rows that write some rules is read back as
      exactly these rules, in their order. */
  lemma ProfileRoundTrip(lines: seq<string>, newlines: string, orders: seq<Order>)
    requires |newlines| + 1 == |lines|
    requires AllOneLine(lines) && AllNewlines(newlines)
    requires RuleLines(lines[1..]) == RowsOf(orders) && AllWritten(orders)
    ensures RulesIn(Rows(Join(lines, newlines))) == RulesOf(orders)
  {
    ProfileRows(lines, newlines);
    RowsMean(orders);
  }

  // ----- What rules do to messages -----

  /** The random numbers used by some messages: one for each that may be dropped. */
  function RandomsUsed(rules: seq<Rule>, messages: seq<seq<Byte>>): nat
    requires forall i :: 0 <= i < |messages| ==> WellFormed(messages[i])
  {
    if messages == [] then 0
    else
      var n := |messages| - 1;
      var f := FrameOf(messages[n]);
      RandomsUsed(rules, messages[..n]) +
      if ProperHeader(f) && LastDrop(rules, f.version, f.kind, 0) != 0 then 1 else 0
  }

  /** What the rules decide about message `i`. */
  function RuledAt(rules: seq<Rule>, e: Env, messages: seq<seq<Byte>>, i: nat): Verdict
    requires i < |messages| && forall j :: 0 <= j < |messages| ==> WellFormed(messages[j])
  {
    RuledVerdict(rules, e, FrameOf(messages[i]), e.rnd(RandomsUsed(rules, messages[..i])))
  }

  /** What leaves the proxy, message by message. */
  function Delivered(rules: seq<Rule>, e: Env, messages: seq<seq<Byte>>): seq<seq<Byte>>
    requires forall i :: 0 <= i < |messages| ==> WellFormed(messages[i])
  {
    seq(|messages|, (i: nat) requires i < |messages| =>
      Repeat(messages[i], CopiesOf(RuledAt(rules, e, messages, i))))
  }

  /** The messages in front of the first one that ends the process. */
  function Survived(rules: seq<Rule>, e: Env, messages: seq<seq<Byte>>): (n: nat)
    requires forall i :: 0 <= i < |messages| ==> WellFormed(messages[i])
    ensures n <= |messages|
  {
    First(seq(|messages|, (i: nat) requires i < |messages| => RuledAt(rules, e, messages, i) == Fatal))
  }

  lemma DrawsByRules(rules: seq<Rule>, f: Frame)
    ensures Draws(ApplyRules(BLANK, rules), f) <==> ProperHeader(f) && LastDrop(rules, f.version, f.kind, 0) != 0
  {
    if ProperHeader(f) {
      TablesAgree(BLANK, rules, f.version, f.kind);
    }
  }

  lemma FramesOfFirst(messages: seq<seq<Byte>>, n: nat)
    requires n <= |messages| && forall i :: 0 <= i < |messages| ==> WellFormed(messages[i])
    ensures FramesOf(messages)[..n] == FramesOf(messages[..n])
  {
  }

  lemma {:induction false} DrawsOfRules(rules: seq<Rule>, messages: seq<seq<Byte>>)
    requires forall i :: 0 <= i < |messages| ==> WellFormed(messages[i])
    ensures CountDraws(ApplyRules(BLANK, rules), FramesOf(messages)) == RandomsUsed(rules, messages)
    decreases |messages|
  {
    if messages != [] {
      var n := |messages| - 1;
      DrawsByRules(rules, FrameOf(messages[n]));
      FramesOfFirst(messages, n);
      DrawsOfRules(rules, messages[..n]);
    }
  }

  lemma RuledIsVerdict(rules: seq<Rule>, e: Env, messages: seq<seq<Byte>>, i: nat)
    requires SaneRules(rules) && i < |messages| && forall j :: 0 <= j < |messages| ==> WellFormed(messages[j])
    ensures VerdictOn(ApplyRules(BLANK, rules), e, FramesOf(messages), i) == RuledAt(rules, e, messages, i)
  {
    FramesOfFirst(messages, i);
    DrawsOfRules(rules, messages[..i]);
    VerdictOfRules(rules, e, FramesOf(messages)[i], e.rnd(RandomsUsed(rules, messages[..i])));
  }

  lemma RulesStop(rules: seq<Rule>, e: Env, messages: seq<seq<Byte>>)
    requires SaneRules(rules) && AlwaysUp(e) && forall j :: 0 <= j < |messages| ==> WellFormed(messages[j])
    ensures Treated(ApplyRules(BLANK, rules), e, FramesOf(messages)) == Survived(rules, e, messages)
  {
    var t, frames := ApplyRules(BLANK, rules), FramesOf(messages);
    forall i | 0 <= i < |messages|
      ensures Stops(t, e, frames, i) == (RuledAt(rules, e, messages, i) == Fatal)
    {
      RuledIsVerdict(rules, e, messages, i);
    }
    assert seq(|frames|, (i: nat) requires i < |frames| => Stops(t, e, frames, i)) ==
           seq(|messages|, (i: nat) requires i < |messages| => RuledAt(rules, e, messages, i) == Fatal);
  }

  lemma DeliveredIsEmission(rules: seq<Rule>, e: Env, messages: seq<seq<Byte>>)
    requires SaneRules(rules) && forall j :: 0 <= j < |messages| ==> WellFormed(messages[j])
    ensures Delivered(rules, e, messages) == Emission(ApplyRules(BLANK, rules), e, FramesOf(messages))
  {
    forall i | 0 <= i < |messages|
      ensures Delivered(rules, e, messages)[i] == CopiesAt(ApplyRules(BLANK, rules), e, FramesOf(messages), i)
    {
      RuledIsVerdict(rules, e, messages, i);
    }
  }

  lemma DeliveredFirst(rules: seq<Rule>, e: Env, messages: seq<seq<Byte>>, n: nat)
    requires SaneRules(rules) && n <= |messages| && forall j :: 0 <= j < |messages| ==> WellFormed(messages[j])
    ensures Delivered(rules, e, messages[..n]) == Emission(ApplyRules(BLANK, rules), e, FramesOf(messages)[..n])
  {
    FramesOfFirst(messages, n);
    DeliveredIsEmission(rules, e, messages[..n]);
  }

  /** The account of some messages under the tables that the rules fill, told by the rules. */
  lemma RulesAccount(rules: seq<Rule>, e: Env, messages: seq<seq<Byte>>, n: nat, p: Progress)
    requires SaneRules(rules) && AlwaysUp(e) && forall j :: 0 <= j < |messages| ==> WellFormed(messages[j])
    requires n == Survived(rules, e, messages) && p == Account(ApplyRules(BLANK, rules), e, FramesOf(messages))
    ensures p.outlet.sent == Flatten(Delivered(rules, e, messages[..n]))
    ensures p.fate == if n < |messages| then Crashed else Running
  {
    RulesStop(rules, e, messages);
    DeliveredFirst(rules, e, messages, n);
    AccountUp(ApplyRules(BLANK, rules), e, FramesOf(messages), n);
  }

  /** The meaning of a profile, end to end. Load any file, let any well-formed messages arrive in any
      pieces: each message leaves the proxy, in order, 0 times if the last DROP rule covering its
      version and type has a chance above its random number, and else once plus the extra times of
      the last covering DUP rule. This goes on up to the first message that ends the process: one of version
      0, or one that is neither dropped nor copied, and that LOCI does not accept. */
  lemma ProfileMeans(content: string, e: Env, messages: seq<seq<Byte>>, chunks: seq<seq<Byte>>)
    requires Load(BLANK, Rows(content)).known
    requires AlwaysUp(e)
    requires forall i :: 0 <= i < |messages| ==> WellFormed(messages[i])
    requires Flatten(chunks) == Flatten(messages)
    ensures var f, rules := FeedAll(Load(BLANK, Rows(content)).tables, e, START, chunks), RulesIn(Rows(content));
            var n := Survived(rules, e, messages);
            && f.outlet.sent == Flatten(Delivered(rules, e, messages[..n]))
            && f.conn.fate == if n < |messages| then Crashed else Running
  {
    var rules := RulesIn(Rows(content));
    LoadApplies(BLANK, Rows(content));
    RulesSane(Rows(content));
    var t, n := ApplyRules(BLANK, rules), Survived(rules, e, messages);
    FramingRoundTrip(t, e, messages, chunks);
    RulesAccount(rules, e, messages, n, Account(t, e, FramesOf(messages)));
  }
}
