/**
  Attack profiles written down: rows, argument lists and files that mean given rules, and the proofs
  that the reader of profiles gets back what was written.
 */
module Printing {
  import opened CStrings
  import opened Wrappers
  import Args
  import Csv

  // ----- Rows -----

  /** A field with the blanks around it. */
  datatype Piece = Piece(before: string, text: string, after: string)

  function PieceString(p: Piece): string {
    p.before + p.text + p.after
  }

  function RowOf(pieces: seq<Piece>): string {
    if pieces == [] then []
    else if |pieces| == 1 then PieceString(pieces[0])
    else PieceString(pieces[0]) + "," + RowOf(pieces[1..])
  }

  /** A field that needs no quotes. */
  predicate PlainText(text: string) {
    Trimmed(text) && ',' !in text && (text != [] ==> text[0] != '"' && text[0] != '\'')
  }

  ghost predicate GoodPieces(pieces: seq<Piece>) {
    && pieces != []
    && (forall i :: 0 <= i < |pieces| ==> GoodPiece(pieces[i]))
    && pieces[|pieces| - 1].after == []
  }

  ghost predicate GoodPiece(p: Piece) {
    AllBlank(p.before) && AllBlank(p.after) && PlainText(p.text)
  }

  function PieceTexts(pieces: seq<Piece>): seq<string> {
    seq(|pieces|, (i: nat) requires i < |pieces| => pieces[i].text)
  }

  lemma {:induction false} CommaFromIs(row: string, pos: nat, comma: nat)
    requires pos <= comma <= |row| && (comma < |row| ==> row[comma] == ',')
    requires forall k :: pos <= k < comma ==> row[k] != ','
    ensures Csv.CommaFrom(row, pos) == comma
    decreases comma - pos
  {
    if pos < comma {
      CommaFromIs(row, pos + 1, comma);
    }
  }

  lemma {:induction false} SkipBlanksIs(s: string, i: nat, k: nat)
    requires i <= k <= |s| && (k < |s| ==> !IsBlank(s[k]))
    requires forall j :: i <= j < k ==> IsBlank(s[j])
    ensures SkipBlanks(s, i) == k
    decreases k - i
  {
    if i < k {
      SkipBlanksIs(s, i + 1, k);
    }
  }

  lemma SliceIs(row: string, lo: nat, text: string)
    requires lo + |text| <= |row| && forall k :: lo <= k < lo + |text| ==> row[k] == text[k - lo]
    ensures row[lo..lo + |text|] == text
  {
  }

  lemma PieceChars(row: string, pos: nat, p: Piece)
    requires GoodPiece(p)
    requires pos + |PieceString(p)| <= |row| && row[pos..pos + |PieceString(p)|] == PieceString(p)
    ensures var start, end, comma := pos + |p.before|, pos + |p.before| + |p.text|, pos + |PieceString(p)|;
            && (forall k :: pos <= k < start || end <= k < comma ==> IsBlank(row[k]))
            && row[start..end] == p.text
            && (forall k :: start <= k < end ==> row[k] == p.text[k - start])
            && (forall k :: pos <= k < comma ==> row[k] != ',')
  {
    var s := PieceString(p);
    var start, end := |p.before|, |p.before| + |p.text|;
    assert forall k :: 0 <= k < |s| ==> row[pos + k] == s[k];
    assert forall k :: 0 <= k < start ==> s[k] == p.before[k];
    assert forall k :: start <= k < end ==> s[k] == p.text[k - start] && s[k] in p.text;
    assert forall k :: end <= k < |s| ==> s[k] == p.after[k - end];
    forall k | pos <= k < pos + |s|
      ensures k < pos + start || pos + end <= k ==> IsBlank(row[k])
      ensures pos + start <= k < pos + end ==> row[k] == p.text[k - pos - start]
      ensures row[k] != ','
    {
      assert row[k] == s[k - pos];
    }
    SliceIs(row, pos + start, p.text);
  }

  /** A field of blanks. */
  lemma BlankField(row: string, pos: nat, comma: nat)
    requires pos <= comma <= |row| && (comma < |row| ==> row[comma] == ',')
    requires forall k :: pos <= k < comma ==> IsBlank(row[k])
    ensures Csv.CommaFrom(row, pos) == comma && SkipBlanks(row, pos) == comma
  {
    CommaFromIs(row, pos, comma);
    SkipBlanksIs(row, pos, comma);
  }

  /** A field with text from `start` to `end`, and blanks around it. */
  lemma FullField(row: string, pos: nat, start: nat, end: nat, comma: nat)
    requires pos <= start < end <= comma <= |row| && (comma < |row| ==> row[comma] == ',')
    requires forall k :: pos <= k < start || end <= k < comma ==> IsBlank(row[k])
    requires forall k :: pos <= k < comma ==> row[k] != ','
    requires !IsBlank(row[start]) && !IsBlank(row[end - 1])
    ensures Csv.CommaFrom(row, pos) == comma && SkipBlanks(row, pos) == start && TextEnd(row, start, comma) == end
  {
    CommaFromIs(row, pos, comma);
    SkipBlanksIs(row, pos, start);
    TextEndIs(row, start, comma, end);
  }

  /** Where blanks, text and comma of a piece are found. */
  lemma PiecePlaces(row: string, pos: nat, p: Piece, comma: nat)
    requires GoodPiece(p) && comma == pos + |PieceString(p)| <= |row| && (comma < |row| ==> row[comma] == ',')
    requires row[pos..comma] == PieceString(p)
    ensures Csv.CommaFrom(row, pos) == comma
    ensures p.text == [] ==> SkipBlanks(row, pos) == comma
    ensures p.text != [] ==>
              && SkipBlanks(row, pos) == pos + |p.before|
              && TextEnd(row, pos + |p.before|, comma) == pos + |p.before| + |p.text|
    ensures row[pos + |p.before|..pos + |p.before| + |p.text|] == p.text
  {
    var start := pos + |p.before|;
    PieceChars(row, pos, p);
    if p.text == [] {
      BlankField(row, pos, comma);
    } else {
      assert row[start] == p.text[0] && row[start + |p.text| - 1] == p.text[|p.text| - 1];
      FullField(row, pos, start, start + |p.text|, comma);
    }
  }

  /** The first field of a row that goes on with a given piece and, unless it is the last one, a
      comma. */
  lemma FirstPiece(row: string, pos: nat, p: Piece, last: bool)
    requires GoodPiece(p) && (last ==> p.after == [])
    requires pos + |PieceString(p)| <= |row| && row[pos..pos + |PieceString(p)|] == PieceString(p)
    requires if last then pos + |PieceString(p)| == |row|
             else pos + |PieceString(p)| < |row| && row[pos + |PieceString(p)|] == ','
    ensures var comma, start := Csv.CommaFrom(row, pos), SkipBlanks(row, pos);
            && comma == pos + |PieceString(p)| && pos <= start <= comma
            && p.text == row[start..if last then |row| else TextEnd(row, start, comma)]
            && !Csv.QuoteAt(row, start)
  {
    var start, end := pos + |p.before|, pos + |p.before| + |p.text|;
    PiecePlaces(row, pos, p, pos + |PieceString(p)|);
    if p.text != [] {
      assert row[start] == row[start..end][0] == p.text[0];
    }
  }

  /** A written row goes on with its first piece. */
  lemma RowStarts(row: string, pos: nat, pieces: seq<Piece>)
    requires GoodPieces(pieces) && pos <= |row| && row[pos..] == RowOf(pieces)
    ensures var n := |PieceString(pieces[0])|;
            && GoodPiece(pieces[0])
            && pos + n <= |row| && row[pos..pos + n] == PieceString(pieces[0])
            && (|pieces| == 1 ==> pos + n == |row| && pieces[0].after == [])
            && (|pieces| > 1 ==>
                  pos + n < |row| && row[pos + n] == ',' && row[pos + n + 1..] == RowOf(pieces[1..])
                  && GoodPieces(pieces[1..]))
  {
    var n := |PieceString(pieces[0])|;
    assert row[pos..][..n] == row[pos..pos + n];
    if |pieces| > 1 {
      assert row[pos..][n] == row[pos + n];
      assert row[pos..][n + 1..] == row[pos + n + 1..];
    }
  }

  lemma PieceTextsHead(pieces: seq<Piece>)
    requires pieces != []
    ensures PieceTexts(pieces) == [pieces[0].text] + PieceTexts(pieces[1..])
  {
  }

  /** The last field of a row. */
  lemma LastField(row: string, pos: nat, p: Piece)
    requires GoodPiece(p) && p.after == [] && pos + |PieceString(p)| == |row| && row[pos..] == PieceString(p)
    ensures Csv.FieldsFrom(row, pos) == [p.text] && Csv.UnquotedFrom(row, pos)
  {
    var start := SkipBlanks(row, pos);
    assert row[pos..|row|] == row[pos..];
    FirstPiece(row, pos, p, true);
    assert row[start..|row|] == row[start..];
  }

  lemma FirstPieceFound(row: string, pos: nat, p: Piece, comma: nat)
    requires GoodPiece(p) && pos + |PieceString(p)| == comma < |row| && row[comma] == ','
    requires row[pos..comma] == PieceString(p)
    ensures Csv.CommaFrom(row, pos) == comma && Csv.PieceText(row, pos) == p.text
    ensures !Csv.QuoteAt(row, SkipBlanks(row, pos))
  {
    FirstPiece(row, pos, p, false);
  }

  /** A field in front of a comma, and the fields behind it. */
  lemma FieldThenComma(row: string, pos: nat, p: Piece, comma: nat)
    requires GoodPiece(p) && pos + |PieceString(p)| == comma < |row| && row[comma] == ','
    requires row[pos..comma] == PieceString(p)
    ensures Csv.FieldsFrom(row, pos) == [p.text] + Csv.FieldsFrom(row, comma + 1)
    ensures Csv.UnquotedFrom(row, pos) == Csv.UnquotedFrom(row, comma + 1)
  {
    FirstPieceFound(row, pos, p, comma);
    assert Csv.FieldsFrom(row, pos) == [p.text] + Csv.FieldsFrom(row, comma + 1) by {
      Csv.FieldsGoOn(row, pos, comma);
    }
    assert Csv.UnquotedFrom(row, pos) == Csv.UnquotedFrom(row, comma + 1) by {
      Csv.NextUnquoted(row, pos);
    }
  }

  /** The parser gets back the fields of a written row. */
  lemma {:induction false} RowParses(row: string, pos: nat, pieces: seq<Piece>)
    requires GoodPieces(pieces) && pos <= |row| && row[pos..] == RowOf(pieces)
    ensures Csv.FieldsFrom(row, pos) == PieceTexts(pieces) && Csv.UnquotedFrom(row, pos)
    decreases |pieces|
  {
    RowStarts(row, pos, pieces);
    PieceTextsHead(pieces);
    if |pieces| == 1 {
      LastField(row, pos, pieces[0]);
      assert PieceTexts(pieces[1..]) == [];
    } else {
      var comma := pos + |PieceString(pieces[0])|;
      RowParses(row, comma + 1, pieces[1..]);
      FieldThenComma(row, pos, pieces[0], comma);
    }
  }

  /** Parsing a row written with commas and blanks gives its fields back. */
  lemma CsvInversion(pieces: seq<Piece>)
    requires GoodPieces(pieces)
    ensures Csv.Unquoted(RowOf(pieces)) && Csv.Fields(RowOf(pieces)) == PieceTexts(pieces)
  {
    var row := RowOf(pieces);
    assert row[0..] == row;
    RowParses(row, 0, pieces);
  }

  /** The same in plain characters: any fields without commas, that neither start nor end with a blank or a
      tabulator, and start with no quotation mark, with any blanks and tabulators around them. */
  lemma PlainRow(pieces: seq<Piece>)
    requires pieces != [] && pieces[|pieces| - 1].after == ""
    requires forall i, k :: 0 <= i < |pieces| && 0 <= k < |pieces[i].before| ==> pieces[i].before[k] in [' ', '\t']
    requires forall i, k :: 0 <= i < |pieces| && 0 <= k < |pieces[i].after| ==> pieces[i].after[k] in [' ', '\t']
    requires forall i :: 0 <= i < |pieces| ==>
               var text := pieces[i].text;
               && ',' !in text
               && (text != "" ==> text[0] !in [' ', '\t', '"', '\''] && text[|text| - 1] !in [' ', '\t'])
    ensures Csv.Unquoted(RowOf(pieces)) && Csv.Fields(RowOf(pieces)) == PieceTexts(pieces)
  {
    forall i | 0 <= i < |pieces|
      ensures GoodPiece(pieces[i])
    {
      assert forall k :: 0 <= k < |pieces[i].before| ==> IsBlank(pieces[i].before[k]);
      assert forall k :: 0 <= k < |pieces[i].after| ==> IsBlank(pieces[i].after[k]);
      assert PlainText(pieces[i].text);
    }
    CsvInversion(pieces);
  }

  // ----- Argument lists -----

  /** An argument as it is written: `key`, and `=` and a value if there is one, with blanks around. */
  datatype Item = Item(front: string, key: string, gap: string, value: Option<string>, lead: string, trail: string)

  function ItemString(item: Item): string {
    item.key + item.gap + match item.value
                          case None => []
                          case Some(v) => "=" + item.lead + v + item.trail
  }

  function ArgString(items: seq<Item>): string {
    if items == [] then []
    else if |items| == 1 then ItemString(items[0])
    else ItemString(items[0]) + "&" + items[1].front + ArgString(items[1..])
  }

  predicate Plain(s: string) {
    Trimmed(s) && '=' !in s && Args.DELIM !in s
  }

  ghost predicate GoodItem(item: Item) {
    && AllBlank(item.front) && AllBlank(item.gap) && AllBlank(item.lead) && AllBlank(item.trail)
    && Plain(item.key) && item.key != [] && (item.value.Some? ==> Plain(item.value.value))
  }

  /** Something stands behind the `=`. */
  predicate HasValue(item: Item) {
    item.value.Some? ==> item.value.value != []
  }

  /** Only the last argument may have an `=` with nothing behind it. */
  ghost predicate GoodItems(items: seq<Item>) {
    && items != []
    && (forall i :: 0 <= i < |items| ==> GoodItem(items[i]))
    && (forall i :: 0 <= i < |items| - 1 ==> HasValue(items[i]))
  }

  function Meaning(item: Item): Args.Arg {
    Args.Arg(Some(item.key), match item.value
                                  case None => Args.NoValue
                                  case Some(v) => Args.Typed(v))
  }

  function Meanings(items: seq<Item>): seq<Args.Arg> {
    if items == [] then [] else [Meaning(items[0])] + Meanings(items[1..])
  }

  /** Characters without meaning are passed over. */
  lemma {:induction false} ScanPlain(s: string, i: nat, j: nat, name: nat, p: Args.Pending)
    requires i <= j <= |s| && Args.Fits(p, name, i)
    requires forall k :: i <= k < j ==> s[k] != '=' && s[k] != Args.DELIM
    ensures Args.Scan(s, i, name, p) == Args.Scan(s, j, name, p)
    decreases j - i
  {
    if i < j {
      ScanPlain(s, i + 1, j, name, p);
    }
  }

  /** The text between two positions. */
  ghost predicate TextAt(s: string, pos: nat, text: string) {
    pos + |text| <= |s| && forall k :: 0 <= k < |text| ==> s[pos + k] == text[k]
  }

  lemma TextParts(s: string, pos: nat, a: string, b: string)
    requires TextAt(s, pos, a + b)
    ensures TextAt(s, pos, a) && TextAt(s, pos + |a|, b)
  {
    assert forall k :: 0 <= k < |a| ==> (a + b)[k] == a[k];
    forall k | 0 <= k < |b|
      ensures s[pos + |a| + k] == b[k]
    {
      assert (a + b)[|a| + k] == b[k];
      assert s[pos + (|a| + k)] == (a + b)[|a| + k];
    }
  }

  /** A plain text with blanks behind it is passed over, and read as that text. */
  lemma PlainAt(s: string, pos: nat, text: string, blanks: string)
    requires Plain(text) && text != [] && AllBlank(blanks) && TextAt(s, pos, text) && TextAt(s, pos + |text|, blanks)
    ensures var end := pos + |text| + |blanks|;
            && (forall k :: pos <= k < end ==> s[k] != '=' && s[k] != Args.DELIM)
            && !IsBlank(s[pos])
            && TextEnd(s, pos, end) == pos + |text| && s[pos..pos + |text|] == text
  {
    var end := pos + |text| + |blanks|;
    forall k | pos <= k < end
      ensures s[k] != '=' && s[k] != Args.DELIM
      ensures k >= pos + |text| ==> IsBlank(s[k])
    {
      if k < pos + |text| {
        assert s[pos + (k - pos)] == text[k - pos] && text[k - pos] in text;
      } else {
        assert s[pos + |text| + (k - pos - |text|)] == blanks[k - pos - |text|];
      }
    }
    assert s[pos + 0] == text[0];
    assert s[pos + (|text| - 1)] == text[|text| - 1];
    TextEndIs(s, pos, end, pos + |text|);
    assert s[pos..pos + |text|] == text;
  }

  lemma BlanksAt(s: string, pos: nat, blanks: string)
    requires AllBlank(blanks) && TextAt(s, pos, blanks) && (pos + |blanks| < |s| ==> !IsBlank(s[pos + |blanks|]))
    ensures SkipBlanks(s, pos) == pos + |blanks|
  {
    forall k | pos <= k < pos + |blanks|
      ensures IsBlank(s[k])
    {
      assert s[pos + (k - pos)] == blanks[k - pos];
    }
    SkipBlanksIs(s, pos, pos + |blanks|);
  }

  /** The parts of a written argument with an `=`. */
  lemma ItemParts(s: string, pos: nat, item: Item, v: string)
    requires item.value == Some(v) && TextAt(s, pos, ItemString(item))
    ensures var eq := pos + |item.key| + |item.gap|;
            && TextAt(s, pos, item.key) && TextAt(s, pos + |item.key|, item.gap)
            && eq < |s| && s[eq] == '='
            && TextAt(s, eq + 1, item.lead) && TextAt(s, eq + 1 + |item.lead|, v)
            && TextAt(s, eq + 1 + |item.lead| + |v|, item.trail)
            && pos + |ItemString(item)| == eq + 1 + |item.lead| + |v| + |item.trail|
  {
    var front, rest := item.key + item.gap, "=" + item.lead + v + item.trail;
    assert ItemString(item) == front + rest;
    TextParts(s, pos, front, rest);
    TextParts(s, pos, item.key, item.gap);
    var eq := pos + |front|;
    TextParts(s, eq, "=" + item.lead + v, item.trail);
    TextParts(s, eq, "=" + item.lead, v);
    TextParts(s, eq, "=", item.lead);
    assert s[eq + 0] == "="[0];
  }

  /** The scan of a written argument without `=`. */
  lemma BareItemScans(s: string, pos: nat, item: Item)
    requires GoodItem(item) && item.value == None && TextAt(s, pos, ItemString(item))
    ensures var end := pos + |ItemString(item)|;
            && end <= |s| && Args.ArgOf(s, pos, Args.NoEq, end) == Meaning(item)
            && Args.Scan(s, pos, pos, Args.NoEq) == Args.Scan(s, end, pos, Args.NoEq)
  {
    assert ItemString(item) == item.key + item.gap;
    TextParts(s, pos, item.key, item.gap);
    PlainAt(s, pos, item.key, item.gap);
    ScanPlain(s, pos, pos + |ItemString(item)|, pos, Args.NoEq);
  }

  /** The key of an argument whose `=` is at `eq`. */
  lemma KeyScans(s: string, pos: nat, item: Item, v: string)
    requires GoodItem(item) && item.value == Some(v) && TextAt(s, pos, ItemString(item))
    ensures var eq := pos + |item.key| + |item.gap|;
            && eq <= |s| && Args.KeyText(s, pos, eq) == Some(item.key)
            && Args.Scan(s, pos, pos, Args.NoEq) == Args.Scan(s, eq, pos, Args.NoEq)
  {
    ItemParts(s, pos, item, v);
    PlainAt(s, pos, item.key, item.gap);
    ScanPlain(s, pos, pos + |item.key| + |item.gap|, pos, Args.NoEq);
  }

  /** The value of an argument whose `=` is at `eq`. */
  lemma ValuePart(s: string, pos: nat, item: Item, v: string)
    requires GoodItem(item) && item.value == Some(v) && v != [] && TextAt(s, pos, ItemString(item))
    ensures var eq, end := pos + |item.key| + |item.gap|, pos + |ItemString(item)|;
            var value := eq + 1 + |item.lead|;
            && value + |v| <= end <= |s|
            && Args.Scan(s, eq, pos, Args.NoEq) == Args.Scan(s, end, pos, Args.Eq(eq, value))
            && TextEnd(s, value, end) == value + |v| && s[value..value + |v|] == v
  {
    ItemParts(s, pos, item, v);
    ValueScans(s, pos, pos + |item.key| + |item.gap|, item.lead, v, item.trail);
  }

  /** What the positions of key and value make of an argument. */
  lemma ArgIs(s: string, pos: nat, p: Args.Pending, end: nat, item: Item, v: string)
    requires p.Eq? && end <= |s| && Args.Fits(p, pos, end) && item.value == Some(v)
    requires Args.KeyText(s, pos, p.keyEnd) == Some(item.key)
    requires TextEnd(s, p.value, end) == p.value + |v| && s[p.value..p.value + |v|] == v
    ensures Args.ArgOf(s, pos, p, end) == Meaning(item)
  {
  }

  lemma ValuedItemPath(s: string, pos: nat, item: Item, v: string, p: Args.Pending)
    requires GoodItem(item) && item.value == Some(v) && v != [] && TextAt(s, pos, ItemString(item))
    requires p == Args.Eq(pos + |item.key| + |item.gap|, pos + |item.key| + |item.gap| + 1 + |item.lead|)
    ensures var end := pos + |ItemString(item)|;
            && end <= |s| && Args.Fits(p, pos, end)
            && Args.Scan(s, pos, pos, Args.NoEq) == Args.Scan(s, end, pos, p)
  {
    KeyScans(s, pos, item, v);
    ValuePart(s, pos, item, v);
  }

  lemma KeyIs(s: string, pos: nat, item: Item, v: string, eq: nat)
    requires GoodItem(item) && item.value == Some(v) && TextAt(s, pos, ItemString(item))
    requires eq == pos + |item.key| + |item.gap|
    ensures eq <= |s| && Args.KeyText(s, pos, eq) == Some(item.key)
  {
    KeyScans(s, pos, item, v);
  }

  lemma ValueIs(s: string, pos: nat, item: Item, v: string, value: nat, end: nat)
    requires GoodItem(item) && item.value == Some(v) && v != [] && TextAt(s, pos, ItemString(item))
    requires value == pos + |item.key| + |item.gap| + 1 + |item.lead| && end == pos + |ItemString(item)|
    ensures value + |v| <= end <= |s| && TextEnd(s, value, end) == value + |v| && s[value..value + |v|] == v
  {
    ValuePart(s, pos, item, v);
  }

  lemma ValuedItemIs(s: string, pos: nat, item: Item, v: string, p: Args.Pending)
    requires GoodItem(item) && item.value == Some(v) && v != [] && TextAt(s, pos, ItemString(item))
    requires p == Args.Eq(pos + |item.key| + |item.gap|, pos + |item.key| + |item.gap| + 1 + |item.lead|)
    ensures var end := pos + |ItemString(item)|;
            && end <= |s| && Args.Fits(p, pos, end) && Args.ArgOf(s, pos, p, end) == Meaning(item)
  {
    KeyIs(s, pos, item, v, p.keyEnd);
    ValueIs(s, pos, item, v, p.value, pos + |ItemString(item)|);
    ArgIs(s, pos, p, pos + |ItemString(item)|, item, v);
  }

  /** The scan of a written argument with a value; `p` is what has been seen at its end. */
  lemma ValuedItemScans(s: string, pos: nat, item: Item, v: string) returns (p: Args.Pending)
    requires GoodItem(item) && item.value == Some(v) && v != [] && TextAt(s, pos, ItemString(item))
    ensures var end := pos + |ItemString(item)|;
            && end <= |s| && Args.Fits(p, pos, end) && Args.ArgOf(s, pos, p, end) == Meaning(item)
            && Args.Scan(s, pos, pos, Args.NoEq) == Args.Scan(s, end, pos, p)
  {
    p := Args.Eq(pos + |item.key| + |item.gap|, pos + |item.key| + |item.gap| + 1 + |item.lead|);
    ValuedItemPath(s, pos, item, v, p);
    ValuedItemIs(s, pos, item, v, p);
  }

  /** The scan of a written argument, in all. */
  lemma ItemScans(s: string, pos: nat, item: Item) returns (p: Args.Pending)
    requires GoodItem(item) && HasValue(item) && TextAt(s, pos, ItemString(item))
    ensures var end := pos + |ItemString(item)|;
            && end <= |s| && Args.Fits(p, pos, end) && Args.ArgOf(s, pos, p, end) == Meaning(item)
            && Args.Scan(s, pos, pos, Args.NoEq) == Args.Scan(s, end, pos, p)
  {
    if item.value == None {
      p := Args.NoEq;
      BareItemScans(s, pos, item);
    } else {
      p := ValuedItemScans(s, pos, item, item.value.value);
    }
  }

  /** The scan of a last argument whose `=` has nothing behind it. */
  lemma ItemOverruns(s: string, pos: nat, item: Item)
    requires GoodItem(item) && !HasValue(item) && TextAt(s, pos, ItemString(item)) && pos + |ItemString(item)| == |s|
    ensures Args.Scan(s, pos, pos, Args.NoEq) == Args.Overrun
  {
    var eq := pos + |item.key| + |item.gap|;
    ItemParts(s, pos, item, []);
    KeyScans(s, pos, item, []);
    EmptyValue(s, eq + 1, item.lead, item.trail);
    assert Args.Scan(s, eq, pos, Args.NoEq) == Args.Scan(s, |s| + 1, pos, Args.Eq(eq, |s|));
  }

  lemma EmptyValue(s: string, pos: nat, lead: string, trail: string)
    requires AllBlank(lead) && AllBlank(trail) && TextAt(s, pos, lead) && TextAt(s, pos + |lead|, trail)
    requires pos + |lead| + |trail| == |s|
    ensures SkipBlanks(s, pos) == |s|
  {
    forall k | pos <= k < |s|
      ensures IsBlank(s[k])
    {
      if k < pos + |lead| {
        assert s[pos + (k - pos)] == lead[k - pos];
      } else {
        assert s[pos + |lead| + (k - pos - |lead|)] == trail[k - pos - |lead|];
      }
    }
    SkipBlanksIs(s, pos, |s|);
  }

  /** From the `=` to the second character of the value. */
  lemma EqScans(s: string, name: nat, eq: nat, value: nat)
    requires name <= eq < |s| && s[eq] == '=' && value == SkipBlanks(s, eq + 1) <= |s|
    ensures Args.Scan(s, eq, name, Args.NoEq) == Args.Scan(s, value + 1, name, Args.Eq(eq, value))
  {
  }

  /** From the `=` to the end of the value. */
  lemma ValueScans(s: string, name: nat, eq: nat, lead: string, v: string, trail: string)
    requires name <= eq < |s| && s[eq] == '=' && Plain(v) && v != [] && AllBlank(lead) && AllBlank(trail)
    requires TextAt(s, eq + 1, lead) && TextAt(s, eq + 1 + |lead|, v) && TextAt(s, eq + 1 + |lead| + |v|, trail)
    ensures var value, end := eq + 1 + |lead|, eq + 1 + |lead| + |v| + |trail|;
            && Args.Scan(s, eq, name, Args.NoEq) == Args.Scan(s, end, name, Args.Eq(eq, value))
            && TextEnd(s, value, end) == value + |v| && s[value..value + |v|] == v
  {
    var value, end := eq + 1 + |lead|, eq + 1 + |lead| + |v| + |trail|;
    PlainAt(s, value, v, trail);
    assert SkipBlanks(s, eq + 1) == value by {
      BlanksAt(s, eq + 1, lead);
    }
    EqScans(s, name, eq, value);
    ScanPlain(s, value + 1, end, name, Args.Eq(eq, value));
  }

  /** A written list goes on with its first argument and, unless this is the last one, a delimiter and
      the rest. */
  lemma ListStarts(s: string, pos: nat, items: seq<Item>)
    requires items != [] && pos <= |s| && s[pos..] == ArgString(items)
    ensures var end := pos + |ItemString(items[0])|;
            && TextAt(s, pos, ItemString(items[0]))
            && (|items| == 1 ==> end == |s|)
            && (|items| > 1 ==>
                  && end < |s| && s[end] == Args.DELIM
                  && TextAt(s, end + 1, items[1].front)
                  && s[end + 1 + |items[1].front|..] == ArgString(items[1..]))
  {
    var n := |ItemString(items[0])|;
    assert forall k :: 0 <= k < |s| - pos ==> s[pos + k] == s[pos..][k];
    if |items| > 1 {
      var front, rest := items[1].front, ArgString(items[1..]);
      var t := s[pos..];
      assert t == ItemString(items[0]) + "&" + front + rest;
      assert t[n] == '&';
      assert t[n + 1..n + 1 + |front|] == front;
      assert t[n + 1 + |front|..] == rest == s[pos + n + 1 + |front|..];
    }
  }

  /** The next argument of a list starts at its key. */
  lemma NextItem(s: string, pos: nat, items: seq<Item>)
    requires |items| > 1 && GoodItem(items[1]) && pos <= |s| && TextAt(s, pos, items[1].front)
    requires pos + |items[1].front| <= |s| && s[pos + |items[1].front|..] == ArgString(items[1..])
    ensures SkipBlanks(s, pos) == pos + |items[1].front| < |s|
  {
    var at := pos + |items[1].front|;
    ListStarts(s, at, items[1..]);
    assert s[at + 0] == ItemString(items[1])[0] == items[1].key[0];
    BlanksAt(s, pos, items[1].front);
  }

  /** Where the second argument of a list is found. */
  lemma ListNext(s: string, pos: nat, items: seq<Item>)
    requires |items| > 1 && GoodItem(items[1]) && pos <= |s| && s[pos..] == ArgString(items)
    ensures var end := pos + |ItemString(items[0])|;
            var next := end + 1 + |items[1].front|;
            && TextAt(s, pos, ItemString(items[0])) && end < |s| && s[end] == Args.DELIM
            && SkipBlanks(s, end + 1) == next < |s| && s[next..] == ArgString(items[1..])
  {
    ListStarts(s, pos, items);
    NextItem(s, pos + |ItemString(items[0])| + 1, items);
  }

  /** An argument that is not the last one. */
  lemma ItemGoesOn(s: string, pos: nat, item: Item, end: nat, next: nat)
    requires GoodItem(item) && HasValue(item) && TextAt(s, pos, ItemString(item))
    requires end == pos + |ItemString(item)| < |s| && s[end] == Args.DELIM && SkipBlanks(s, end + 1) == next < |s|
    ensures Args.Scan(s, pos, pos, Args.NoEq) == Args.Prepend(Meaning(item), Args.Scan(s, next, next, Args.NoEq))
  {
    var p := ItemScans(s, pos, item);
    ScanDelim(s, end, pos, p);
  }

  /** Behind a delimiter that is not at the end of the list the next argument is scanned. */
  lemma ScanDelim(s: string, end: nat, name: nat, p: Args.Pending)
    requires end < |s| && s[end] == Args.DELIM && Args.Fits(p, name, end) && SkipBlanks(s, end + 1) < |s|
    ensures var next := SkipBlanks(s, end + 1);
            Args.Scan(s, end, name, p) == Args.Prepend(Args.ArgOf(s, name, p, end), Args.Scan(s, next, next, Args.NoEq))
  {
  }

  /** The last argument of a list. */
  lemma ListEnds(s: string, pos: nat, item: Item)
    requires GoodItem(item) && pos <= |s| && s[pos..] == ItemString(item)
    ensures Args.Scan(s, pos, pos, Args.NoEq) == if HasValue(item) then Args.List([Meaning(item)]) else Args.Overrun
  {
    ListStarts(s, pos, [item]);
    if HasValue(item) {
      var p := ItemScans(s, pos, item);
    } else {
      ItemOverruns(s, pos, item);
    }
  }

  lemma GoodRest(items: seq<Item>)
    requires GoodItems(items) && |items| > 1
    ensures GoodItems(items[1..]) && GoodItem(items[0]) && HasValue(items[0]) && GoodItem(items[1])
  {
  }

  /** The parser gets back the arguments of a written list, unless the last one ends with its `=`. */
  lemma {:induction false} ListParses(s: string, pos: nat, items: seq<Item>)
    requires GoodItems(items) && pos <= |s| && s[pos..] == ArgString(items)
    ensures Args.Scan(s, pos, pos, Args.NoEq) ==
            if HasValue(items[|items| - 1]) then Args.List(Meanings(items)) else Args.Overrun
    decreases |items|
  {
    if |items| == 1 {
      ListEnds(s, pos, items[0]);
      assert Meanings(items[1..]) == [];
    } else {
      var next := pos + |ItemString(items[0])| + 1 + |items[1].front|;
      GoodRest(items);
      ListNext(s, pos, items);
      assert Args.Scan(s, next, next, Args.NoEq) ==
             if HasValue(items[|items| - 1]) then Args.List(Meanings(items[1..])) else Args.Overrun by {
        ListParses(s, next, items[1..]);
      }
      ItemGoesOn(s, pos, items[0], pos + |ItemString(items[0])|, next);
    }
  }

  /** Parsing a written argument list gives its arguments back, with values typed by their form.
      Exactly when the last argument ends with its `=`, the parser overruns the string. */
  lemma ArgsInversion(items: seq<Item>)
    requires GoodItems(items)
    ensures Args.Parse(ArgString(items)) ==
            if HasValue(items[|items| - 1]) then Args.List(Meanings(items)) else Args.Overrun
  {
    var s := ArgString(items);
    assert s[0..] == s;
    ListParses(s, 0, items);
  }

  // ----- Blanks at the end of a row -----

  lemma CommaMore(row: string, blanks: string, pos: nat)
    requires pos <= |row| && AllBlank(blanks)
    ensures var comma := Csv.CommaFrom(row, pos);
            Csv.CommaFrom(row + blanks, pos) == if comma < |row| then comma else |row + blanks|
  {
    var s, comma := row + blanks, Csv.CommaFrom(row, pos);
    assert forall k :: 0 <= k < |row| ==> s[k] == row[k];
    assert forall k :: |row| <= k < |s| ==> s[k] == blanks[k - |row|];
    CommaFromIs(s, pos, if comma < |row| then comma else |s|);
  }

  lemma SkipMore(row: string, blanks: string, pos: nat)
    requires pos <= |row| && AllBlank(blanks)
    ensures var start := SkipBlanks(row, pos);
            SkipBlanks(row + blanks, pos) == if start < |row| then start else |row + blanks|
  {
    var s, start := row + blanks, SkipBlanks(row, pos);
    assert forall k :: 0 <= k < |row| ==> s[k] == row[k];
    assert forall k :: |row| <= k < |s| ==> s[k] == blanks[k - |row|];
    SkipBlanksIs(s, pos, if start < |row| then start else |s|);
  }

  lemma TextEndMore(row: string, blanks: string, lo: nat, hi: nat)
    requires lo <= hi <= |row|
    ensures TextEnd(row + blanks, lo, hi) == TextEnd(row, lo, hi)
    ensures (row + blanks)[lo..TextEnd(row, lo, hi)] == row[lo..TextEnd(row, lo, hi)]
  {
    var s := row + blanks;
    assert forall k :: 0 <= k < |row| ==> s[k] == row[k];
    TextEndIs(s, lo, hi, TextEnd(row, lo, hi));
  }

  /** The fields of `g` are those of `f`, but for blanks behind the last one, unless it is empty. */
  ghost predicate Trailed(f: seq<string>, g: seq<string>, blanks: string)
    requires f != []
  {
    var last := f[|f| - 1];
    g == f[..|f| - 1] + [if last == "" then "" else last + blanks]
  }

  lemma TrailedMore(text: string, f: seq<string>, g: seq<string>, blanks: string)
    requires f != [] && Trailed(f, g, blanks)
    ensures Trailed([text] + f, [text] + g, blanks)
  {
    assert ([text] + f)[..|f|] == [text] + f[..|f| - 1];
  }

  lemma LastFieldMore(row: string, blanks: string, pos: nat)
    requires pos <= |row| && AllBlank(blanks) && Csv.CommaFrom(row, pos) == |row|
    ensures Trailed(Csv.FieldsFrom(row, pos), Csv.FieldsFrom(row + blanks, pos), blanks)
  {
    var s, start := row + blanks, SkipBlanks(row, pos);
    CommaMore(row, blanks, pos);
    SkipMore(row, blanks, pos);
    if start < |row| {
      assert s[start..] == row[start..] + blanks;
    } else {
      assert s[|s|..] == "";
    }
  }

  lemma FieldsFirst(row: string, pos: nat, comma: nat, start: nat)
    requires pos <= start <= comma < |row| && comma == Csv.CommaFrom(row, pos) && start == SkipBlanks(row, pos)
    ensures Csv.FieldsFrom(row, pos) == [row[start..TextEnd(row, start, comma)]] + Csv.FieldsFrom(row, comma + 1)
  {
  }

  lemma FirstFieldStays(row: string, blanks: string, s: string, pos: nat, comma: nat, start: nat)
    requires pos <= |row| && AllBlank(blanks) && s == row + blanks
    requires comma == Csv.CommaFrom(row, pos) < |row| && pos <= start == SkipBlanks(row, pos) <= comma
    ensures Csv.FieldsFrom(s, pos) == [row[start..TextEnd(row, start, comma)]] + Csv.FieldsFrom(s, comma + 1)
  {
    assert comma == Csv.CommaFrom(s, pos) by {
      CommaMore(row, blanks, pos);
    }
    assert start == SkipBlanks(s, pos) by {
      SkipMore(row, blanks, pos);
    }
    assert s[start..TextEnd(s, start, comma)] == row[start..TextEnd(row, start, comma)] by {
      TextEndMore(row, blanks, start, comma);
    }
    FieldsFirst(s, pos, comma, start);
  }

  /** Blanks at the end of a row belong to its last field, unless this is empty. */
  lemma {:induction false} TrailingBlanks(row: string, blanks: string, pos: nat)
    requires pos <= |row| && AllBlank(blanks)
    ensures Trailed(Csv.FieldsFrom(row, pos), Csv.FieldsFrom(row + blanks, pos), blanks)
    decreases |row| - pos
  {
    var comma := Csv.CommaFrom(row, pos);
    if comma == |row| {
      LastFieldMore(row, blanks, pos);
    } else {
      var s, start := row + blanks, SkipBlanks(row, pos);
      assert start <= comma by {
        Csv.SkipBeforeComma(row, pos);
      }
      var text := row[start..TextEnd(row, start, comma)];
      var f, g := Csv.FieldsFrom(row, comma + 1), Csv.FieldsFrom(s, comma + 1);
      assert Trailed(f, g, blanks) by {
        TrailingBlanks(row, blanks, comma + 1);
      }
      assert Trailed([text] + f, [text] + g, blanks) by {
        TrailedMore(text, f, g, blanks);
      }
      assert Csv.FieldsFrom(row, pos) == [text] + f by {
        FieldsFirst(row, pos, comma, start);
      }
      assert Csv.FieldsFrom(s, pos) == [text] + g by {
        FirstFieldStays(row, blanks, s, pos, comma, start);
      }
    }
  }

  // ----- Further `=` -----

  /** Behind a second `=` the value starts anew. */
  lemma EqAgain(s: string, name: nat, key: nat, was: nat, eq: nat, value: nat)
    requires name <= key < was < eq < |s| && s[eq] == '=' && value == SkipBlanks(s, eq + 1) < |s|
    ensures Args.Scan(s, eq, name, Args.Eq(key, was)) == Args.Scan(s, value + 1, name, Args.Eq(key, value))
  {
  }

  lemma PlainSkips(s: string, pos: nat, text: string)
    requires Plain(text) && text != [] && TextAt(s, pos, text)
    ensures SkipBlanks(s, pos) == pos && forall k :: pos <= k < pos + |text| ==> s[k] != '=' && s[k] != Args.DELIM
  {
    PlainAt(s, pos, text, "");
  }

  /** From the second `=` to the end of the list. */
  lemma LastValueScans(s: string, key: nat, was: nat, eq: nat, p: Args.Pending)
    requires 0 <= key < was < eq && eq + 1 < |s| && s[eq] == '=' && p == Args.Eq(key, eq + 1)
    requires SkipBlanks(s, eq + 1) == eq + 1 && forall k :: eq < k < |s| ==> s[k] != '=' && s[k] != Args.DELIM
    ensures Args.Scan(s, eq, 0, Args.Eq(key, was)) == Args.Scan(s, |s|, 0, p)
  {
    assert Args.Scan(s, eq, 0, Args.Eq(key, was)) == Args.Scan(s, eq + 2, 0, p) by {
      EqAgain(s, 0, key, was, eq, eq + 1);
    }
    ScanPlain(s, eq + 2, |s|, 0, p);
  }

  /** From the start of the list to the second `=`. */
  lemma FirstEqScans(s: string, key: string, lost: string, eq: nat)
    requires Plain(key) && Plain(lost) && key != [] && lost != [] && eq == |key| + 1 + |lost| < |s|
    requires TextAt(s, 0, key) && s[|key|] == '=' && TextAt(s, |key| + 1, lost)
    ensures Args.Parse(s) == Args.Scan(s, eq, 0, Args.Eq(|key|, |key| + 1))
  {
    PlainSkips(s, 0, key);
    ScanPlain(s, 0, |key|, 0, Args.NoEq);
    ValueScans(s, 0, |key|, "", lost, "");
  }

  /** The end of a list with an argument that has key and value. */
  lemma EndScans(s: string, key: string, v: string, eq: nat, value: nat)
    requires 0 < eq < value < |s| && TextEnd(s, 0, eq) == eq && s[0..eq] == key
    requires s[value..TextEnd(s, value, |s|)] == v
    ensures Args.Scan(s, |s|, 0, Args.Eq(eq, value)) == Args.List([Args.Arg(Some(key), Args.Typed(v))])
  {
  }

  lemma WholeText(s: string, pos: nat, text: string)
    requires Plain(text) && text != [] && TextAt(s, pos, text)
    ensures TextEnd(s, pos, pos + |text|) == pos + |text| && s[pos..pos + |text|] == text
  {
    PlainAt(s, pos, text, "");
  }

  /** The text has a name, an `=`, a text that is lost, a second `=` and a value. */
  ghost predicate HasTwoEqs(s: string, key: string, lost: string, v: string, eq: nat) {
    && Plain(key) && Plain(lost) && Plain(v) && key != [] && lost != [] && v != []
    && eq == |key| + 1 + |lost| && eq + 1 + |v| == |s| && s[|key|] == '=' && s[eq] == '='
    && TextAt(s, 0, key) && TextAt(s, |key| + 1, lost) && TextAt(s, eq + 1, v)
  }

  lemma TwoEqsScan(s: string, key: string, lost: string, v: string, eq: nat)
    requires HasTwoEqs(s, key, lost, v, eq)
    ensures Args.Parse(s) == Args.Scan(s, |s|, 0, Args.Eq(|key|, eq + 1))
  {
    FirstEqScans(s, key, lost, eq);
    PlainSkips(s, eq + 1, v);
    LastValueScans(s, |key|, |key| + 1, eq, Args.Eq(|key|, eq + 1));
  }

  lemma TwoEqsTexts(s: string, key: string, lost: string, v: string, eq: nat)
    requires HasTwoEqs(s, key, lost, v, eq)
    ensures TextEnd(s, 0, |key|) == |key| && s[0..|key|] == key && s[eq + 1..TextEnd(s, eq + 1, |s|)] == v
  {
    WholeText(s, 0, key);
    WholeText(s, eq + 1, v);
  }

  lemma TwoEqsRead(s: string, key: string, lost: string, v: string, eq: nat)
    requires Plain(key) && Plain(lost) && Plain(v) && key != [] && lost != [] && v != []
    requires s == key + "=" + lost + "=" + v && eq == |key| + 1 + |lost|
    ensures 0 < |key| < eq + 1 < |s| && Args.Parse(s) == Args.Scan(s, |s|, 0, Args.Eq(|key|, eq + 1))
    ensures TextEnd(s, 0, |key|) == |key| && s[0..|key|] == key && s[eq + 1..TextEnd(s, eq + 1, |s|)] == v
  {
    assert HasTwoEqs(s, key, lost, v, eq);
    TwoEqsScan(s, key, lost, v, eq);
    TwoEqsTexts(s, key, lost, v, eq);
  }

  /** An argument with two `=` has the name in front of the first and the value behind the second. */
  lemma LastValueCounts(key: string, lost: string, v: string)
    requires Plain(key) && Plain(lost) && Plain(v) && key != [] && lost != [] && v != []
    ensures Args.Parse(key + "=" + lost + "=" + v) == Args.List([Args.Arg(Some(key), Args.Typed(v))])
  {
    var s, eq := key + "=" + lost + "=" + v, |key| + 1 + |lost|;
    TwoEqsRead(s, key, lost, v, eq);
    EndScans(s, key, v, |key|, eq + 1);
  }
}
