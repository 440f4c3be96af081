/**
  The action tables as the program keeps them: two global two-dimensional arrays
  (mproxy/src/attack.c), overwritten in place by accepted rules.
 */
module ActionTables {
  import opened Bytes
  import opened Tables

  /** The contents of a table. */
  ghost function Grid<T>(a: array2<T>): (grid: seq<seq<T>>)
    requires a.Length0 == ROWS && a.Length1 == COLUMNS
    reads a
    ensures Shaped(grid)
    ensures forall v, k :: 0 <= v < ROWS && 0 <= k < COLUMNS ==> grid[v][k] == a[v, k]
  {
    seq(ROWS, (v: nat) requires v < ROWS reads a =>
      seq(COLUMNS, (k: nat) requires k < COLUMNS reads a => a[v, k]))
  }

  lemma GridsEqual<T>(g: seq<seq<T>>, h: seq<seq<T>>)
    requires Shaped(g) && Shaped(h)
    requires forall v, k :: 0 <= v < ROWS && 0 <= k < COLUMNS ==> g[v][k] == h[v][k]
    ensures g == h
  {
    forall v | 0 <= v < ROWS
      ensures g[v] == h[v]
    {
    }
  }

  /** The loops over versions and message types with which a rule is entered into its table. */
  method PaintCells<T>(a: array2<T>, version: VersionPattern, kind: TypePattern, x: T)
    requires a.Length0 == ROWS && a.Length1 == COLUMNS
    modifies a
    ensures Grid(a) == Paint(old(Grid(a)), version, kind, x)
  {
    ghost var was := Grid(a);
    if version == OFP_VER_ALL {
      for i := 0 to OFP_VER_MAX
        invariant forall v, k :: 0 <= v < ROWS && 0 <= k < COLUMNS ==>
                    a[v, k] == if v <= i && Covers(version, kind, v, k) then x else was[v][k]
      {
        if kind == OFP_MSG_TYPE_ALL {
          PaintRow(a, i + 1, x);
        } else {
          a[i + 1, kind] := x;
        }
      }
    } else {
      if kind == OFP_MSG_TYPE_ALL {
        PaintRow(a, version, x);
      } else {
        a[version, kind] := x;
      }
    }
    GridsEqual(Grid(a), Paint(was, version, kind, x));
  }

  method PaintRow<T>(a: array2<T>, row: nat, x: T)
    requires a.Length0 == ROWS && a.Length1 == COLUMNS && row < ROWS
    modifies a
    ensures forall v, k :: 0 <= v < ROWS && 0 <= k < COLUMNS ==> a[v, k] == if v == row then x else old(a[v, k])
  {
    for j := 0 to OFP_MSG_TYPE_MAX + 1
      invariant forall v, k :: 0 <= v < ROWS && 0 <= k < COLUMNS ==>
                  a[v, k] == if v == row && k < j then x else old(a[v, k])
    {
      a[row, j] := x;
    }
  }

  class Store {
    const drop: array2<SignedChar>
    const dup: array2<Byte>

    ghost predicate Valid() {
      && drop.Length0 == ROWS && drop.Length1 == COLUMNS
      && dup.Length0 == ROWS && dup.Length1 == COLUMNS
    }

    ghost function View(): Tables
      requires Valid()
      reads drop, dup
    {
      RawTables(Grid(drop), Grid(dup))
    }

    /** Static storage starts as zero. */
    constructor ()
      ensures Valid() && fresh(drop) && fresh(dup) && View() == BLANK
    {
      drop := new SignedChar[ROWS, COLUMNS]((v: nat, k: nat) => 0);
      dup := new Byte[ROWS, COLUMNS]((v: nat, k: nat) => 0);
      new;
      GridsEqual(Grid(drop), BLANK.drop);
      GridsEqual(Grid(dup), BLANK.dup);
    }

    method AddDrop(version: VersionPattern, kind: TypePattern, chance: SignedChar)
      requires Valid()
      modifies drop
      ensures View() == ApplyRule(old(View()), Drop(version, kind, chance))
      ensures forall v, k :: 1 <= v <= 5 && 0 <= k <= 34 ==>
                drop[v, k] == if (version == 0 || version == v) && (kind == -1 || kind == k) then chance
                              else old(drop[v, k])
    {
      PaintCells(drop, version, kind, chance);
      assert forall v, k :: 0 <= v < ROWS && 0 <= k < COLUMNS ==> drop[v, k] == View().drop[v][k];
    }

    method AddDup(version: VersionPattern, kind: TypePattern, extra: Byte)
      requires Valid()
      modifies dup
      ensures View() == ApplyRule(old(View()), Dup(version, kind, extra))
      ensures forall v, k :: 1 <= v <= 5 && 0 <= k <= 34 ==>
                dup[v, k] == if (version == 0 || version == v) && (kind == -1 || kind == k) then extra
                             else old(dup[v, k])
    {
      PaintCells(dup, version, kind, extra);
      assert forall v, k :: 0 <= v < ROWS && 0 <= k < COLUMNS ==> dup[v, k] == View().dup[v][k];
    }
  }
}
