/**
  The in-place CSV parser (mproxy/src/csv.c), for rows without quoted fields.
 */
module Csv {
  import opened CStrings

  // ----- What a row means -----

  /** Position of the first comma from `pos` on, or the length of the row. */
  function CommaFrom(row: string, pos: nat): (i: nat)
    requires pos <= |row|
    ensures pos <= i <= |row|
    ensures i < |row| ==> row[i] == ','
    ensures forall k :: pos <= k < i ==> row[k] != ','
    decreases |row| - pos
  {
    if pos == |row| || row[pos] == ',' then pos else CommaFrom(row, pos + 1)
  }

  /** The blanks from `pos` on end before the next comma. */
  lemma SkipBeforeComma(row: string, pos: nat)
    requires pos <= |row|
    ensures SkipBlanks(row, pos) <= CommaFrom(row, pos)
  {
  }

  /** The fields from `pos` on: the pieces between commas, without the blanks around them. The last
      piece keeps the blanks at its end. */
  function FieldsFrom(row: string, pos: nat): (fields: seq<string>)
    requires pos <= |row|
    ensures fields != []
    decreases |row| - pos
  {
    SkipBeforeComma(row, pos);
    var start, comma := SkipBlanks(row, pos), CommaFrom(row, pos);
    if comma == |row| then [row[start..]]
    else [row[start..TextEnd(row, start, comma)]] + FieldsFrom(row, comma + 1)
  }

  function Fields(row: string): seq<string> {
    FieldsFrom(row, 0)
  }

  predicate QuoteAt(row: string, i: nat) {
    i < |row| && (row[i] == '"' || row[i] == '\'')
  }

  /** No field from `pos` on starts with a quote. */
  predicate UnquotedFrom(row: string, pos: nat)
    requires pos <= |row|
    decreases |row| - pos
  {
    var comma := CommaFrom(row, pos);
    !QuoteAt(row, SkipBlanks(row, pos)) && (comma < |row| ==> UnquotedFrom(row, comma + 1))
  }

  predicate Unquoted(row: string) {
    UnquotedFrom(row, 0)
  }

  // ----- The parser -----

  /** From `pos` on, memory still holds the row and the NUL behind it. */
  ghost predicate Holds(mem: seq<char>, row: string, pos: nat) {
    && pos <= |row| < |mem| && mem[|row|] == NUL
    && forall k :: pos <= k < |row| ==> mem[k] == row[k]
  }

  /** The loop that turns a comma and the blanks in front of it into NULs. The byte in front of the
      row is taken not to be a blank. */
  method BlankOut(data: array<char>, ghost row: string, ghost pos: nat, comma: nat)
    requires Holds(data[..], row, pos) && pos <= comma < |row|
    requires pos > 0 ==> data[pos - 1] == NUL
    modifies data
    ensures forall k :: 0 <= k < data.Length ==>
              data[k] == if TextEnd(row, pos, comma) <= k <= comma then NUL else old(data[k])
  {
    data[comma] := NUL;
    var back: int := comma - 1;
    while back >= 0 && IsBlank(data[back])
      invariant pos - 1 <= back < comma
      invariant forall k :: 0 <= k < data.Length ==> data[k] == if back < k <= comma then NUL else old(data[k])
      invariant TextEnd(row, pos, comma) == TextEnd(row, pos, back + 1)
    {
      data[back] := NUL;
      back := back - 1;
    }
  }

  /** `csv_find_next_comma` outside of quotes. The piece that ends with the comma starts at `pos`;
      there are only blanks between this and `start`. */
  method FindNextComma(data: array<char>, ghost row: string, ghost pos: nat, start: nat, maxlen: nat)
    returns (found: bool, comma: nat)
    requires Holds(data[..], row, pos) && start == SkipBlanks(row, pos) && start + maxlen == |row| + 1
    requires pos > 0 ==> data[pos - 1] == NUL
    modifies data
    ensures found == (CommaFrom(row, pos) < |row|)
    ensures !found ==> data[..] == old(data[..])
    ensures found ==> comma == CommaFrom(row, pos)
    ensures found ==> forall k :: 0 <= k < data.Length ==>
              data[k] == if TextEnd(row, pos, comma) <= k <= comma then NUL else old(data[k])
  {
    SkipBeforeComma(row, pos);
    var i := 0;
    while i < maxlen
      invariant i <= maxlen && data[..] == old(data[..])
      invariant start + i <= CommaFrom(row, pos) + 1
      invariant start + i == CommaFrom(row, pos) + 1 ==> CommaFrom(row, pos) == |row|
    {
      if data[start + i] == ',' {
        comma := start + i;
        assert data[..][comma] == ',' && comma == CommaFrom(row, pos);
        BlankOut(data, row, pos, comma);
        return true, comma;
      }
      assert data[..][start + i] != ',';
      i := i + 1;
    }
    return false, 0;
  }

  /** The blanks at the start of a field are skipped; the NUL at the end of the row stops the scan. */
  method SkipRun(data: array<char>, ghost row: string, pos: nat) returns (start: nat)
    requires Holds(data[..], row, pos)
    ensures start == SkipBlanks(row, pos)
  {
    start := pos;
    while IsBlank(data[start])
      invariant pos <= start <= |row| && SkipBlanks(row, start) == SkipBlanks(row, pos)
      decreases |row| - start
    {
      start := start + 1;
    }
  }

  lemma {:induction false} TextEndSkips(row: string, pos: nat, comma: nat)
    requires pos <= comma <= |row| && SkipBlanks(row, pos) < comma
    ensures TextEnd(row, pos, comma) == TextEnd(row, SkipBlanks(row, pos), comma)
    decreases comma
  {
    var start := SkipBlanks(row, pos);
    if IsBlank(row[comma - 1]) && start < comma - 1 {
      TextEndSkips(row, pos, comma - 1);
    }
  }

  /** The C string at the start of a field that has been cut off. */
  lemma FieldCut(row: string, mem: seq<char>, pos: nat, comma: nat)
    requires pos <= comma < |row| < |mem| && SkipBlanks(row, pos) <= comma
    requires forall k :: pos <= k <= comma ==>
               mem[k] == if TextEnd(row, pos, comma) <= k <= comma then NUL else row[k]
    ensures var start := SkipBlanks(row, pos);
            CStr(mem[..comma + 1], start) == CStr(row[start..TextEnd(row, start, comma)], 0)
  {
    var start := SkipBlanks(row, pos);
    var end := TextEnd(row, start, comma);
    if start < comma {
      TextEndSkips(row, pos, comma);
    }
    assert mem[..comma + 1][start..end] == row[start..end];
    CStrAt(mem[..comma + 1], start, row[start..end]);
  }

  /** The fields found so far: their C strings stand in front of `seal`, where a NUL ends the last of
      them. */
  ghost predicate FieldsAt(mem: seq<char>, seal: nat, starts: seq<nat>, fields: seq<string>) {
    && seal <= |mem| && |starts| <= |fields|
    && (seal > 0 ==> mem[seal - 1] == NUL)
    && forall i :: 0 <= i < |starts| ==> starts[i] < seal && CStr(mem[..seal], starts[i]) == CStr(fields[i], 0)
  }

  /** Fields stay where they are when memory changes behind them and a new one is added. */
  lemma FieldsAtMore(before: seq<char>, after: seq<char>, seal: nat, next: nat, starts: seq<nat>, fields: seq<string>,
                     start: nat)
    requires FieldsAt(before, seal, starts, fields)
    requires seal <= start < next <= |after| && after[..seal] == before[..seal] && after[next - 1] == NUL
    requires |starts| < |fields| && CStr(after[..next], start) == CStr(fields[|starts|], 0)
    ensures FieldsAt(after, next, starts + [start], fields)
  {
    forall i | 0 <= i < |starts|
      ensures CStr(after[..next], starts[i]) == CStr(fields[i], 0)
    {
      CStrWithin(after[..next], starts[i], seal);
      assert after[..next][..seal] == before[..seal];
    }
  }

  /** A pointer is added to the pointer array, which doubles when it is full. */
  method AddPointer(ret: array<nat>, used: nat, start: nat) returns (more: array<nat>)
    requires used <= ret.Length && ret.Length > 0
    modifies ret
    ensures more == ret || fresh(more)
    ensures used < more.Length && more[..used + 1] == old(ret[..used]) + [start]
  {
    more := ret;
    if used == ret.Length {
      more := new nat[2 * ret.Length];
      for i := 0 to used
        invariant more[..i] == ret[..i] && ret[..] == old(ret[..])
      {
        more[i] := ret[i];
      }
    }
    assert more[..used] == old(ret[..used]);
    more[used] := start;
    assert more[..used + 1] == more[..used] + [start];
  }

  /** The treatment of one field: leading blanks are skipped, and a comma behind it is cut off. */
  method ParseField(data: array<char>, ghost row: string, pos: nat, left: nat)
    returns (quoted: bool, start: nat, found: bool, comma: nat)
    requires Holds(data[..], row, pos) && pos + left == |row| + 1 && (pos > 0 ==> data[pos - 1] == NUL)
    modifies data
    ensures start == SkipBlanks(row, pos) && quoted == QuoteAt(row, start)
    ensures forall k :: 0 <= k < pos || |row| <= k < data.Length ==> data[k] == old(data[k])
    ensures quoted || !found ==> data[..] == old(data[..])
    ensures !quoted ==> found == (CommaFrom(row, pos) < |row|)
    ensures !quoted && found ==>
              && comma == CommaFrom(row, pos) && data[comma] == NUL && Holds(data[..], row, comma + 1)
              && CStr(data[..comma + 1], start) == CStr(row[start..TextEnd(row, start, comma)], 0)
  {
    found, comma := false, 0;
    SkipBeforeComma(row, pos);
    start := SkipRun(data, row, pos);
    quoted := data[start] == '"' || data[start] == '\'';
    if quoted {
      return;
    }
    found, comma := FindNextComma(data, row, pos, start, left - (start - pos));
    if found {
      FieldCut(row, data[..], pos, comma);
      assert data[..][..comma + 1] == data[..comma + 1];
    }
  }

  /** The text of the piece at `pos`, which a comma ends. */
  function PieceText(row: string, pos: nat): string
    requires pos <= |row|
  {
    SkipBeforeComma(row, pos);
    row[SkipBlanks(row, pos)..TextEnd(row, SkipBlanks(row, pos), CommaFrom(row, pos))]
  }

  /** One field is parsed and its pointer recorded. */
  method TakeField(data: array<char>, ghost row: string, pos: nat, left: nat, ret: array<nat>, used: nat,
                   ghost starts: seq<nat>, ghost fields: seq<string>)
    returns (quoted: bool, more: array<nat>, found: bool, comma: nat)
    requires Holds(data[..], row, pos) && pos + left == |row| + 1
    requires FieldsAt(data[..], pos, starts, fields) && used <= ret.Length && ret.Length > 0 && ret[..used] == starts
    requires CommaFrom(row, pos) < |row| ==> used < |fields| && fields[used] == PieceText(row, pos)
    modifies data, ret
    ensures forall k :: |row| <= k < data.Length ==> data[k] == old(data[k])
    ensures quoted == QuoteAt(row, SkipBlanks(row, pos))
    ensures more == ret || fresh(more)
    ensures !quoted ==> found == (CommaFrom(row, pos) < |row|)
    ensures !quoted ==> used < more.Length && more[..used + 1] == starts + [SkipBlanks(row, pos)]
    ensures !quoted && !found ==> data[..] == old(data[..])
    ensures !quoted && found ==>
              && comma == CommaFrom(row, pos) && Holds(data[..], row, comma + 1)
              && FieldsAt(data[..], comma + 1, starts + [SkipBlanks(row, pos)], fields)
  {
    ghost var was := data[..];
    more := ret;
    var start;
    quoted, start, found, comma := ParseField(data, row, pos, left);
    if quoted {
      return;
    }
    more := AddPointer(ret, used, start);
    if found {
      assert data[..pos] == was[..pos];
      assert data[..][..comma + 1] == data[..comma + 1];
      FieldsAtMore(was, data[..], pos, comma + 1, starts, fields, start);
    }
  }

  /** The step from one field to the next. */
  lemma NextField(row: string, pos: nat, fields: seq<string>, used: nat)
    requires pos <= |row| && used < |fields| && fields[used..] == FieldsFrom(row, pos)
    ensures CommaFrom(row, pos) < |row| ==>
              && used + 1 < |fields| && fields[used] == PieceText(row, pos)
              && fields[used + 1..] == FieldsFrom(row, CommaFrom(row, pos) + 1)
    ensures CommaFrom(row, pos) == |row| ==> used + 1 == |fields| && fields[used] == row[SkipBlanks(row, pos)..]
  {
    assert fields[used..][1..] == fields[used + 1..];
  }

  /** The fields of a row that goes on with a comma. */
  lemma FieldsGoOn(row: string, pos: nat, comma: nat)
    requires pos <= |row| && comma == CommaFrom(row, pos) < |row|
    ensures FieldsFrom(row, pos) == [PieceText(row, pos)] + FieldsFrom(row, comma + 1)
  {
  }

  lemma NextUnquoted(row: string, pos: nat)
    requires pos <= |row|
    ensures QuoteAt(row, SkipBlanks(row, pos)) ==> !UnquotedFrom(row, pos)
    ensures !QuoteAt(row, SkipBlanks(row, pos)) ==>
              UnquotedFrom(row, pos) == (CommaFrom(row, pos) < |row| ==> UnquotedFrom(row, CommaFrom(row, pos) + 1))
  {
  }

  /** Memory and pointers once the row has been parsed; its last piece starts at `seal`. */
  ghost predicate Parsed(mem: seq<char>, row: string, seal: nat, starts: seq<nat>, fields: seq<string>) {
    var n := |fields| - 1;
    && |starts| == n + 1 > 0
    && FieldsAt(mem, seal, starts[..n], fields)
    && Holds(mem, row, seal)
    && starts[n] == SkipBlanks(row, seal) && fields[n] == row[starts[n]..]
  }

  /** The pointer to the last field has been recorded. */
  lemma LastPointer(mem: seq<char>, row: string, seal: nat, starts: seq<nat>, fields: seq<string>)
    requires Holds(mem, row, seal) && FieldsAt(mem, seal, starts, fields) && |fields| == |starts| + 1
    requires fields[|starts|] == row[SkipBlanks(row, seal)..]
    ensures Parsed(mem, row, seal, starts + [SkipBlanks(row, seal)], fields)
  {
    var all := starts + [SkipBlanks(row, seal)];
    assert all[..|starts|] == starts;
  }

  /** A piece has been taken that a comma ends. */
  lemma PieceTaken(row: string, pos: nat, fields: seq<string>, used: nat, next: nat)
    requires pos <= |row| && CommaFrom(row, pos) < |row| && next == CommaFrom(row, pos) + 1
    requires !QuoteAt(row, SkipBlanks(row, pos)) && used < |fields| && fields[used..] == FieldsFrom(row, pos)
    ensures used + 1 < |fields| && fields[used + 1..] == FieldsFrom(row, next)
    ensures UnquotedFrom(row, pos) == UnquotedFrom(row, next)
  {
    NextField(row, pos, fields, used);
    NextUnquoted(row, pos);
  }

  /** The last piece has been taken. */
  lemma LastTaken(mem: seq<char>, row: string, pos: nat, starts: seq<nat>, fields: seq<string>)
    requires Holds(mem, row, pos) && FieldsAt(mem, pos, starts, fields) && CommaFrom(row, pos) == |row|
    requires !QuoteAt(row, SkipBlanks(row, pos)) && |starts| < |fields| && fields[|starts|..] == FieldsFrom(row, pos)
    ensures UnquotedFrom(row, pos) && Parsed(mem, row, pos, starts + [SkipBlanks(row, pos)], fields)
  {
    NextField(row, pos, fields, |starts|);
    NextUnquoted(row, pos);
    LastPointer(mem, row, pos, starts, fields);
  }

  /** One iteration of `csv_parse`, at the piece at `pos`. */
  method TakePiece(data: array<char>, ghost row: string, pos: nat, left: nat, ret: array<nat>, used: nat,
                   ghost fields: seq<string>)
    returns (quoted: bool, more: array<nat>, found: bool, next: nat)
    requires Holds(data[..], row, pos) && pos + left == |row| + 1
    requires used < |fields| && used <= ret.Length && ret.Length > 0 && fields[used..] == FieldsFrom(row, pos)
    requires FieldsAt(data[..], pos, ret[..used], fields)
    modifies data, ret
    ensures forall k :: |row| <= k < data.Length ==> data[k] == old(data[k])
    ensures more == ret || fresh(more)
    ensures quoted ==> !UnquotedFrom(row, pos)
    ensures !quoted ==> used < more.Length
    ensures !quoted && !found ==> UnquotedFrom(row, pos) && Parsed(data[..], row, pos, more[..used + 1], fields)
    ensures !quoted && found ==>
              && pos < next <= |row| && Holds(data[..], row, next) && UnquotedFrom(row, pos) == UnquotedFrom(row, next)
              && used + 1 < |fields| && fields[used + 1..] == FieldsFrom(row, next)
              && FieldsAt(data[..], next, more[..used + 1], fields)
  {
    ghost var starts, start := ret[..used], SkipBlanks(row, pos);
    var comma;
    assert CommaFrom(row, pos) < |row| ==> used < |fields| && fields[used] == PieceText(row, pos) by {
      NextField(row, pos, fields, used);
    }
    quoted, more, found, comma := TakeField(data, row, pos, left, ret, used, starts, fields);
    next := comma + 1;
    if quoted {
      NextUnquoted(row, pos);
    } else if found {
      PieceTaken(row, pos, fields, used, next);
    } else {
      LastTaken(data[..], row, pos, starts, fields);
    }
  }

  /** `csv_parse`. The last piece of the row starts at `seal`. */
  method CsvParse(data: array<char>, len: nat, ghost row: string)
    returns (quoted: bool, ret: array<nat>, used: nat, ghost seal: nat)
    requires len == |row| + 1 && Holds(data[..], row, 0)
    modifies data
    ensures forall k :: len <= k < data.Length ==> data[k] == old(data[k])
    ensures quoted == !Unquoted(row)
    ensures !quoted ==> used <= ret.Length && Parsed(data[..], row, seal, ret[..used], Fields(row))
  {
    ghost var fields, unquoted := Fields(row), Unquoted(row);
    used, quoted := 0, false;
    var pos, left, found := 0, len, true;
    ret := new nat[5];
    while left > 0
      invariant 0 < left && pos + left == len
      invariant Holds(data[..], row, pos)
      invariant forall k :: len <= k < data.Length ==> data[k] == old(data[k])
      invariant used < |fields| && used <= ret.Length && ret.Length > 0 && fresh(ret)
      invariant FieldsAt(data[..], pos, ret[..used], fields)
      invariant fields[used..] == FieldsFrom(row, pos) && unquoted == UnquotedFrom(row, pos)
      decreases left
    {
      seal := pos;
      var next;
      quoted, ret, found, next := TakePiece(data, row, pos, left, ret, used, fields);
      if quoted {
        return;
      }
      used := used + 1;
      if !found {
        break;
      }
      pos := next;
      left := len - pos;
    }
  }
}
