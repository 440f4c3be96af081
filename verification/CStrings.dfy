/**
  C strings in memory, and the library functions the rule reader applies to them.
 */
module CStrings {

  const NUL: char := '\0'

  /** `is_whitespace` of mproxy/src/csv.c; mproxy/src/args.c skips the same characters. */
  predicate IsBlank(c: char) {
    c == ' ' || c == '\t'
  }

  predicate IsDigit(c: char) {
    '0' <= c <= '9'
  }

  /** The C string at `p`: the characters up to the first NUL. */
  function CStr(mem: seq<char>, p: nat): string
    requires p <= |mem|
    decreases |mem| - p
  {
    if p == |mem| || mem[p] == NUL then [] else [mem[p]] + CStr(mem, p + 1)
  }

  /** There is a NUL at or after `p`. */
  ghost predicate Terminated(mem: seq<char>, p: nat) {
    exists q :: p <= q < |mem| && mem[q] == NUL
  }

  /** Only the memory up to a NUL matters for a C string in front of it. */
  lemma {:induction false} CStrWithin(mem: seq<char>, p: nat, n: nat)
    requires p < n <= |mem| && mem[n - 1] == NUL
    ensures CStr(mem, p) == CStr(mem[..n], p)
    decreases n - p
  {
    if mem[p] != NUL {
      CStrWithin(mem, p + 1, n);
    }
  }

  /** A C string whose characters stand at `p` and end with a NUL. */
  lemma {:induction false} CStrAt(mem: seq<char>, p: nat, s: string)
    requires p + |s| < |mem| && mem[p..p + |s|] == s && mem[p + |s|] == NUL
    ensures CStr(mem, p) == CStr(s, 0)
    decreases |s|
  {
    if s != [] {
      assert mem[p] == s[0];
      if s[0] != NUL {
        assert mem[p + 1..p + 1 + |s[1..]|] == s[1..];
        CStrAt(mem, p + 1, s[1..]);
        CStrShift([s[0]], s[1..], 0);
        assert [s[0]] + s[1..] == s;
      }
    }
  }

  lemma {:induction false} CStrShift(front: string, s: string, p: nat)
    requires p <= |s|
    ensures CStr(front + s, |front| + p) == CStr(s, p)
    decreases |s| - p
  {
    if p < |s| && s[p] != NUL {
      CStrShift(front, s, p + 1);
    }
  }

  /** A string without NUL is a C string as it is. */
  lemma {:induction false} CStrWhole(s: string, p: nat)
    requires p <= |s| && NUL !in s
    ensures CStr(s, p) == s[p..]
    decreases |s| - p
  {
    if p < |s| {
      assert s[p] in s;
      CStrWhole(s, p + 1);
    }
  }

  lemma {:induction false} CStrNoNul(mem: seq<char>, p: nat)
    requires p <= |mem|
    ensures NUL !in CStr(mem, p)
    decreases |mem| - p
  {
    if p < |mem| && mem[p] != NUL {
      CStrNoNul(mem, p + 1);
    }
  }

  // ----- Blanks -----

  /** The first position from `i` on without a blank. */
  function SkipBlanks(s: string, i: nat): (j: nat)
    requires i <= |s|
    ensures i <= j <= |s|
    ensures forall k :: i <= k < j ==> IsBlank(s[k])
    ensures j < |s| ==> !IsBlank(s[j])
    decreases |s| - i
  {
    if i < |s| && IsBlank(s[i]) then SkipBlanks(s, i + 1) else i
  }

  /** No blank at either end. */
  predicate Trimmed(s: string) {
    s == [] || (!IsBlank(s[0]) && !IsBlank(s[|s| - 1]))
  }

  predicate AllBlank(s: string) {
    forall i :: 0 <= i < |s| ==> IsBlank(s[i])
  }

  /** The end of the text between `lo` and `hi`, without the blanks behind it. */
  function TextEnd(row: string, lo: nat, hi: nat): (n: nat)
    requires lo <= hi <= |row|
    ensures lo <= n <= hi
    ensures forall k :: n <= k < hi ==> IsBlank(row[k])
    ensures n > lo ==> !IsBlank(row[n - 1])
  {
    if lo < hi && IsBlank(row[hi - 1]) then TextEnd(row, lo, hi - 1) else hi
  }

  lemma {:induction false} TextEndIs(row: string, lo: nat, hi: nat, n: nat)
    requires lo <= n <= hi <= |row|
    requires forall k :: n <= k < hi ==> IsBlank(row[k])
    requires n > lo ==> !IsBlank(row[n - 1])
    ensures TextEnd(row, lo, hi) == n
    decreases hi
  {
    if n < hi {
      TextEndIs(row, lo, hi - 1, n);
    }
  }

  // ----- Numbers -----

  predicate AllDigits(s: string) {
    forall i :: 0 <= i < |s| ==> IsDigit(s[i])
  }

  /** The number the leading digits spell, continuing from `acc`. */
  function DigitsValue(s: string, acc: nat): nat {
    if s != [] && IsDigit(s[0]) then DigitsValue(s[1..], 10 * acc + (s[0] as int - '0' as int)) else acc
  }

  /** The white space of the C library. */
  predicate IsSpace(c: char) {
    c == ' ' || '\t' <= c <= '\r'
  }

  function SkipSpaces(s: string): string {
    if s != [] && IsSpace(s[0]) then SkipSpaces(s[1..]) else s
  }

  const LONG_MAX := 0x7FFF_FFFF_FFFF_FFFF

  function Saturate(x: int): int {
    if x > LONG_MAX then LONG_MAX else if x < -LONG_MAX - 1 then -LONG_MAX - 1 else x
  }

  /** Conversion of a `long` to `int`. */
  function ToInt(x: int): int {
    (x + 0x8000_0000) % 0x1_0000_0000 - 0x8000_0000
  }

  /** `atoi` of the C library on a 64-bit Linux system: `strtol`, which saturates, converted to
      `int`. */
  function Atoi(s: string): int {
    var t := SkipSpaces(s);
    var negative := t != [] && t[0] == '-';
    var digits := if t != [] && (t[0] == '-' || t[0] == '+') then t[1..] else t;
    var value: int := DigitsValue(digits, 0);
    ToInt(Saturate(if negative then -value else value))
  }

  /** Decimal notation. */
  function Decimal(n: nat): (s: string)
    ensures s != [] && AllDigits(s)
  {
    var digit := '0' + (n % 10) as char;
    if n < 10 then [digit] else Decimal(n / 10) + [digit]
  }

  lemma {:induction false} DigitsValueAppend(s: string, c: char, acc: nat)
    requires AllDigits(s) && IsDigit(c)
    ensures DigitsValue(s + [c], acc) == 10 * DigitsValue(s, acc) + (c as int - '0' as int)
    decreases |s|
  {
    if s == [] {
      assert s + [c] == [c];
      assert DigitsValue([c], acc) == DigitsValue([c][1..], 10 * acc + (c as int - '0' as int));
    } else {
      assert (s + [c])[1..] == s[1..] + [c];
      DigitsValueAppend(s[1..], c, 10 * acc + (s[0] as int - '0' as int));
    }
  }

  lemma {:induction false} DigitsValueDecimal(n: nat)
    ensures DigitsValue(Decimal(n), 0) == n
  {
    var digit := '0' + (n % 10) as char;
    if n < 10 {
      assert DigitsValue([digit], 0) == DigitsValue([digit][1..], n);
    } else {
      DigitsValueDecimal(n / 10);
      DigitsValueAppend(Decimal(n / 10), digit, 0);
    }
  }

  /** Reading back a number written in decimal notation. */
  lemma AtoiDecimal(n: nat)
    ensures Atoi(Decimal(n)) == ToInt(Saturate(n))
  {
    DigitsValueDecimal(n);
    assert IsDigit(Decimal(n)[0]);
  }

  /** What digits are read as: a number of more than 63 bits gives -1, and of any other the low 32 bits are taken
      as a signed number. */
  lemma AtoiDigits(s: string)
    requires s != "" && AllDigits(s)
    ensures var n, low := DigitsValue(s, 0), DigitsValue(s, 0) % 0x1_0000_0000;
            Atoi(s) == if n >= 0x8000_0000_0000_0000 then -1 else if low < 0x8000_0000 then low else low - 0x1_0000_0000
  {
    assert IsDigit(s[0]);
    assert SkipSpaces(s) == s;
  }

  lemma AtoiSmallDigits(s: string, n: nat)
    requires s != "" && AllDigits(s) && n == DigitsValue(s, 0) < 0x8000_0000
    ensures Atoi(s) == n
  {
    assert IsDigit(s[0]);
    assert SkipSpaces(s) == s;
  }

  /** Blanks, tabulators, line feeds, vertical tabulators, form feeds and carriage returns in front are skipped. */
  lemma AtoiSkips(c: char, s: string)
    requires c == ' ' || 9 <= c as int <= 13
    ensures Atoi([c] + s) == Atoi(s)
  {
    assert ([c] + s)[1..] == s;
  }

  /** `is_int` and `is_float` in one: -1 for no number, 0 for an integer, 1 for a fraction. */
  function Dots(s: string): nat {
    if s == [] then 0 else (if s[0] == '.' then 1 else 0) + Dots(s[1..])
  }

  predicate DigitsAndDots(s: string) {
    forall i :: 0 <= i < |s| ==> IsDigit(s[i]) || s[i] == '.'
  }

  function FloatKind(s: string): int {
    if s == [] || !DigitsAndDots(s) || Dots(s) > 1 then -1 else Dots(s)
  }

  /** The value of the digits after the dot. */
  function Fraction(s: string): (x: real)
    ensures 0.0 <= x < 1.0
  {
    if s != [] && IsDigit(s[0]) then ((s[0] as int - '0' as int) as real + Fraction(s[1..])) / 10.0 else 0.0
  }

  function AfterDot(s: string): string {
    if s == [] then [] else if s[0] == '.' then s[1..] else AfterDot(s[1..])
  }

  /** `atof` on digits with a dot, without rounding. */
  function Atof(s: string): (x: real)
    ensures x >= 0.0 && x.Floor == DigitsValue(s, 0)
  {
    DigitsValue(s, 0) as real + Fraction(AfterDot(s))
  }

  function Pow10(n: nat): nat {
    if n == 0 then 1 else 10 * Pow10(n - 1)
  }

  lemma {:induction false} DigitsValueShift(s: string, acc: nat)
    requires AllDigits(s)
    ensures DigitsValue(s, acc) == acc * Pow10(|s|) + DigitsValue(s, 0)
    decreases |s|
  {
    if s != "" {
      var d, p := s[0] as int - '0' as int, Pow10(|s| - 1);
      DigitsValueShift(s[1..], 10 * acc + d);
      DigitsValueShift(s[1..], d);
      assert (10 * acc + d) * p == acc * (10 * p) + d * p;
    }
  }

  lemma TenthOf(d: nat, f: real, p: nat, n: nat, a: real, q: nat, m: nat)
    requires f * p as real == n as real && a == (d as real + f) / 10.0 && q == 10 * p && m == d * p + n
    ensures a * q as real == m as real
  {
    var x := p as real;
    assert q as real == 10.0 * x;
    assert a * (10.0 * x) == d as real * x + f * x;
    assert d as real * x == (d * p) as real;
  }

  /** The digits behind the dot are a fraction with a power of ten. */
  lemma {:induction false} FractionIs(s: string, f: real, p: nat, n: nat)
    requires AllDigits(s) && f == Fraction(s) && p == Pow10(|s|) && n == DigitsValue(s, 0)
    ensures f * p as real == n as real
    decreases |s|
  {
    if s != "" {
      var d, g, q, m := s[0] as int - '0' as int, Fraction(s[1..]), Pow10(|s| - 1), DigitsValue(s[1..], 0);
      FractionIs(s[1..], g, q, m);
      DigitsValueShift(s[1..], d);
      TenthOf(d, g, q, m, f, p, n);
    }
  }

  lemma {:induction false} DotsNone(s: string)
    ensures Dots(s) == 0 <==> '.' !in s
  {
    if s != "" {
      DotsNone(s[1..]);
      assert s == [s[0]] + s[1..];
    }
  }

  /** Two dots. */
  ghost predicate TwoDots(s: string) {
    exists i, j :: 0 <= i < j < |s| && s[i] == '.' && s[j] == '.'
  }

  lemma {:induction false} DotsMany(s: string)
    ensures Dots(s) > 1 <==> TwoDots(s)
  {
    if s != "" {
      DotsMany(s[1..]);
      DotsNone(s[1..]);
      if TwoDots(s[1..]) {
        var i, j :| 0 <= i < j < |s[1..]| && s[1..][i] == '.' && s[1..][j] == '.';
        assert s[i + 1] == '.' && s[j + 1] == '.';
      }
      if s[0] == '.' && '.' in s[1..] {
        var j :| 0 <= j < |s[1..]| && s[1..][j] == '.';
        assert s[0] == '.' && s[j + 1] == '.';
      }
      if TwoDots(s) {
        var i, j :| 0 <= i < j < |s| && s[i] == '.' && s[j] == '.';
        assert s[1..][j - 1] == '.';
        assert i > 0 ==> s[1..][i - 1] == '.';
      }
    }
  }

  /** No number: empty, with a character that is neither a digit nor a dot, or with two dots. */
  ghost predicate NoNumber(s: string) {
    s == "" || (exists i :: 0 <= i < |s| && !('0' <= s[i] <= '9') && s[i] != '.') || TwoDots(s)
  }

  /** The three kinds of values, in plain characters. */
  lemma KindIs(s: string)
    ensures FloatKind(s) == -1 <==> NoNumber(s)
    ensures FloatKind(s) == 0 <==> s != "" && forall i :: 0 <= i < |s| ==> '0' <= s[i] <= '9'
    ensures FloatKind(s) == 1 <==> !NoNumber(s) && '.' in s
  {
    DotsNone(s);
    DotsMany(s);
  }

  /** `is_int`: a loop to the terminating NUL. */
  method IsInt(mem: array<char>, p: nat) returns (yes: bool)
    requires Terminated(mem[..], p)
    ensures yes == (CStr(mem[..], p) != [] && AllDigits(CStr(mem[..], p)))
  {
    var i := p;
    ghost var q :| p <= q < mem.Length && mem[q] == NUL;
    if mem[p] == NUL {
      return false;
    }
    ghost var before := [];
    assert before + CStr(mem[..], p) == CStr(mem[..], p);
    while mem[i] != NUL
      invariant p <= i <= q
      invariant AllDigits(before) && before + CStr(mem[..], i) == CStr(mem[..], p)
      decreases q - i
    {
      if !IsDigit(mem[i]) {
        assert CStr(mem[..], p)[|before|] == mem[i];
        return false;
      }
      assert before + CStr(mem[..], i) == (before + [mem[i]]) + CStr(mem[..], i + 1);
      before := before + [mem[i]];
      i := i + 1;
    }
    assert before == CStr(mem[..], p);
    return true;
  }

  lemma {:induction false} DotsAppend(s: string, c: char)
    ensures Dots(s + [c]) == Dots(s) + if c == '.' then 1 else 0
  {
    if s == [] {
      assert s + [c] == [c];
      assert Dots([c]) == (if c == '.' then 1 else 0) + Dots([c][1..]);
    } else {
      assert (s + [c])[1..] == s[1..] + [c];
      DotsAppend(s[1..], c);
    }
  }

  /** `is_float` */
  method IsFloat(mem: array<char>, p: nat) returns (kind: int)
    requires Terminated(mem[..], p)
    ensures kind == FloatKind(CStr(mem[..], p))
  {
    var i, dots := p, 0;
    ghost var q :| p <= q < mem.Length && mem[q] == NUL;
    if mem[p] == NUL {
      return -1;
    }
    ghost var before := [];
    assert before + CStr(mem[..], p) == CStr(mem[..], p);
    while mem[i] != NUL
      invariant p <= i <= q
      invariant DigitsAndDots(before) && dots == Dots(before) && before + CStr(mem[..], i) == CStr(mem[..], p)
      decreases q - i
    {
      if mem[i] == '.' {
        dots := dots + 1;
      } else if !IsDigit(mem[i]) {
        assert CStr(mem[..], p)[|before|] == mem[i];
        return -1;
      }
      assert before + CStr(mem[..], i) == (before + [mem[i]]) + CStr(mem[..], i + 1);
      assert Dots(before + [mem[i]]) == Dots(before) + if mem[i] == '.' then 1 else 0 by {
        DotsAppend(before, mem[i]);
      }
      before := before + [mem[i]];
      i := i + 1;
    }
    assert before == CStr(mem[..], p);
    kind := if dots > 1 then -1 else dots;
  }
}
