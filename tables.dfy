/**
 * The tabular data the pipeline passes around: a pandas DataFrame as named
 * columns over rows of cells, and the handful of DataFrame operations the core
 * uses (`df[c] = v`, `df[cols]`, `dropna()`, `mean()`), both as functions on
 * table values and as methods of a mutable `Frame`.
 */
module Tables {
  import opened Calendar

  /** One DataFrame cell. `Null` stands for NaN, NaT and None alike (what `isna()` reports). */
  datatype Cell = Null | Num(x: real) | Time(t: Timestamp)

  /** Column names and rows, each row holding one cell per column, in column order. */
  datatype Table = Table(names: seq<string>, rows: seq<seq<Cell>>)

  predicate Distinct(names: seq<string>) {
    forall i, j :: 0 <= i < j < |names| ==> names[i] != names[j]
  }

  predicate WellFormed(t: Table) {
    && Distinct(t.names)
    && forall i :: 0 <= i < |t.rows| ==> |t.rows[i]| == |t.names|
  }

  /** Position of a column name. */
  function IndexOf(names: seq<string>, n: string): (k: nat)
    requires n in names
    ensures k < |names| && names[k] == n
    ensures forall i :: 0 <= i < k ==> names[i] != n
  {
    if names[0] == n then 0 else 1 + IndexOf(names[1..], n)
  }

  /** With distinct names, a name's position is the only place it occurs. */
  lemma IndexOfUnique(names: seq<string>, k: nat)
    requires Distinct(names) && k < |names|
    ensures IndexOf(names, names[k]) == k
  {
  }

  /** `df[n]`: the cells of one column, top to bottom. */
  function Column(t: Table, n: string): (c: seq<Cell>)
    requires WellFormed(t) && n in t.names
    ensures |c| == |t.rows|
    ensures forall i :: 0 <= i < |t.rows| ==> c[i] == t.rows[i][IndexOf(t.names, n)]
  {
    seq(|t.rows|, i requires 0 <= i < |t.rows| => t.rows[i][IndexOf(t.names, n)])
  }

  /**
   * `df[n] = cells`: an existing column is overwritten where it stands, a new
   * one is appended after the last column.
   */
  function Assign(t: Table, n: string, cells: seq<Cell>): (r: Table)
    requires WellFormed(t) && |cells| == |t.rows|
    ensures WellFormed(r) && |r.rows| == |t.rows|
    ensures forall m :: m in r.names <==> m in t.names || m == n
    ensures n in r.names && Column(r, n) == cells
    ensures forall m {:trigger Column(r, m)} :: m in t.names && m != n ==> Column(r, m) == Column(t, m)
  {
    if n in t.names then
      var k := IndexOf(t.names, n);
      var r := Table(t.names, seq(|t.rows|, i requires 0 <= i < |t.rows| => t.rows[i][k := cells[i]]));
      assert forall m :: m in t.names && m != n ==> IndexOf(t.names, m) != k;
      r
    else
      var r := Table(t.names + [n], seq(|t.rows|, i requires 0 <= i < |t.rows| => t.rows[i] + [cells[i]]));
      assert IndexOf(r.names, n) == |t.names| by { IndexOfUnique(r.names, |t.names|); }
      assert forall m :: m in t.names ==> IndexOf(r.names, m) == IndexOf(t.names, m) by {
        forall m | m in t.names ensures IndexOf(r.names, m) == IndexOf(t.names, m) {
          IndexOfUnique(r.names, IndexOf(t.names, m));
        }
      }
      r
  }

  /** Where `df[n] = cells` puts the column: in place if it exists, after the last one otherwise. */
  lemma AssignNames(t: Table, n: string, cells: seq<Cell>)
    requires WellFormed(t) && |cells| == |t.rows|
    ensures Assign(t, n, cells).names == if n in t.names then t.names else t.names + [n]
  {
  }

  /** `df[cols]`: a new table holding exactly the named columns, in the order given. */
  function Select(t: Table, cols: seq<string>): (r: Table)
    requires WellFormed(t) && Distinct(cols) && forall c :: c in cols ==> c in t.names
    ensures WellFormed(r) && r.names == cols && |r.rows| == |t.rows|
    ensures forall c :: c in cols ==> Column(r, c) == Column(t, c)
  {
    var r := Table(cols, seq(|t.rows|, i requires 0 <= i < |t.rows| =>
                               seq(|cols|, k requires 0 <= k < |cols| => t.rows[i][IndexOf(t.names, cols[k])])));
    assert forall k :: 0 <= k < |cols| ==> IndexOf(cols, cols[k]) == k by {
      forall k | 0 <= k < |cols| ensures IndexOf(cols, cols[k]) == k { IndexOfUnique(cols, k); }
    }
    r
  }

  /** The names of `cols` that the table lacks, in the order of `cols` (what a `KeyError` for `df[cols]` lists). */
  function Missing(names: seq<string>, cols: seq<string>): (m: seq<string>)
    ensures forall c :: c in m <==> c in cols && c !in names
  {
    if cols == [] then []
    else (if cols[0] in names then [] else [cols[0]]) + Missing(names, cols[1..])
  }

  /** The rows that hold no null cell, in their original order. */
  function RowsWithoutNulls(rows: seq<seq<Cell>>): (r: seq<seq<Cell>>)
    ensures |r| <= |rows|
    ensures forall row :: row in r ==> row in rows && Null !in row
    ensures (forall i :: 0 <= i < |rows| ==> Null !in rows[i]) ==> r == rows
  {
    if rows == [] then []
    else
      assert rows == [rows[0]] + rows[1..];
      if Null in rows[0] then RowsWithoutNulls(rows[1..])
      else [rows[0]] + RowsWithoutNulls(rows[1..])
  }

  /** Filtering keeps every row without a null as often as it occurs, and no row with one. */
  lemma {:induction false} RowsWithoutNullsCount(rows: seq<seq<Cell>>)
    ensures forall row :: multiset(RowsWithoutNulls(rows))[row] == if Null in row then 0 else multiset(rows)[row]
  {
    if rows != [] {
      RowsWithoutNullsCount(rows[1..]);
      assert rows == [rows[0]] + rows[1..];
    }
  }

  /** Filtering keeps the input order: the rows kept from `a` all come before those kept from `b`. */
  lemma {:induction false} RowsWithoutNullsAppend(a: seq<seq<Cell>>, b: seq<seq<Cell>>)
    ensures RowsWithoutNulls(a + b) == RowsWithoutNulls(a) + RowsWithoutNulls(b)
  {
    if a == [] {
      assert a + b == b;
    } else {
      var x, rest := a[0], a[1..];
      assert a == [x] + rest;
      ConcatAssociates([x], rest, b);
      RowsWithoutNullsAppend(rest, b);
      RowsWithoutNullsCons(x, rest);
      RowsWithoutNullsCons(x, rest + b);
      var head := if Null in x then [] else [x];
      ConcatAssociates(head, RowsWithoutNulls(rest), RowsWithoutNulls(b));
    }
  }

  /** Filtering a row followed by more rows: the row is kept first when it has no null. */
  lemma RowsWithoutNullsCons(row: seq<Cell>, rest: seq<seq<Cell>>)
    ensures RowsWithoutNulls([row] + rest) == (if Null in row then [] else [row]) + RowsWithoutNulls(rest)
  {
    var rows := [row] + rest;
    assert rows[0] == row && rows[1..] == rest;
  }

  /** Concatenation regroups freely; stated once so that proofs need not compare sequences element by element. */
  lemma ConcatAssociates<T>(p: seq<T>, q: seq<T>, r: seq<T>)
    ensures p + (q + r) == (p + q) + r
  { }

  /** `df.dropna()`: drop every row that has a null in any column. */
  function DropNA(t: Table): (r: Table)
    requires WellFormed(t)
    ensures WellFormed(r) && r.names == t.names && r.rows == RowsWithoutNulls(t.rows)
    ensures forall i :: 0 <= i < |r.rows| ==> r.rows[i] in t.rows && Null !in r.rows[i]
  {
    var r := Table(t.names, RowsWithoutNulls(t.rows));
    forall i | 0 <= i < |r.rows| ensures |r.rows[i]| == |t.names| {
      assert r.rows[i] in r.rows;
      var j :| 0 <= j < |t.rows| && t.rows[j] == r.rows[i];
    }
    r
  }

  /** `tail(n)`: the last `n` rows; a negative `n` keeps all but the first `-n` rows. */
  function Tail<T>(rows: seq<T>, n: int): (r: seq<T>)
    ensures |r| == if n >= 0 then (if n <= |rows| then n else |rows|) else (if -n <= |rows| then |rows| + n else 0)
    ensures r == rows[|rows| - |r|..]
  {
    if n >= 0 then (if n <= |rows| then rows[|rows| - n..] else rows)
    else if -n <= |rows| then rows[-n..] else []
  }

  /** A column of numbers and nulls (no timestamps). */
  predicate NoTimes(cells: seq<Cell>) {
    forall i :: 0 <= i < |cells| ==> !cells[i].Time?
  }

  function Sum(xs: seq<real>): real {
    if xs == [] then 0.0 else xs[0] + Sum(xs[1..])
  }

  /** Arithmetic mean of a non-empty sequence. */
  function Mean(xs: seq<real>): real
    requires |xs| > 0
  {
    Sum(xs) / |xs| as real
  }

  /** A mean times the count is the sum ... */
  lemma SumFromMean(xs: seq<real>)
    requires |xs| > 0
    ensures Sum(xs) == |xs| as real * Mean(xs)
  {
  }

  /** ... and a sum that is the count times `m` has mean `m`. */
  lemma MeanFromSum(xs: seq<real>, m: real)
    requires |xs| > 0 && Sum(xs) == |xs| as real * m
    ensures Mean(xs) == m
  {
    var n := |xs| as real;
    assert Mean(xs) == (n * m) / n;
  }

  /** The values a skip-NaN reduction sees are exactly the numbers in the column. */
  lemma {:induction false} NumValuesMembers(cells: seq<Cell>)
    ensures forall x :: x in NumValues(cells) <==> Num(x) in cells
  {
    if cells != [] {
      NumValuesMembers(cells[1..]);
      assert cells == [cells[0]] + cells[1..];
    }
  }

  /** Each number of the column is averaged as often as it occurs in it; nulls and timestamps add nothing. */
  lemma {:induction false} NumValuesCount(cells: seq<Cell>)
    ensures forall x :: multiset(NumValues(cells))[x] == multiset(cells)[Num(x)]
  {
    if cells != [] {
      NumValuesCount(cells[1..]);
      assert cells == [cells[0]] + cells[1..];
    }
  }

  function Abs(x: real): (r: real)
    ensures r >= 0.0 && (r == x || r == -x)
  {
    if x < 0.0 then -x else x
  }

  /** The numeric value of each non-null cell, in order (what pandas' skip-NaN reductions see). */
  function NumValues(cells: seq<Cell>): (xs: seq<real>)
    ensures |xs| <= |cells|
  {
    if cells == [] then []
    else if cells[0].Num? then [cells[0].x] + NumValues(cells[1..])
    else NumValues(cells[1..])
  }

  /** A column holding only numbers is read back as those numbers, one per cell. */
  lemma {:induction false} AllNumValues(cells: seq<Cell>)
    requires forall i :: 0 <= i < |cells| ==> cells[i].Num?
    ensures |NumValues(cells)| == |cells|
    ensures forall i :: 0 <= i < |cells| ==> NumValues(cells)[i] == cells[i].x
  {
    if cells != [] {
      AllNumValues(cells[1..]);
    }
  }

  /** Two well-formed tables with the same columns, cell for cell, are the same table. */
  lemma TablesEqual(a: Table, b: Table)
    requires WellFormed(a) && WellFormed(b) && a.names == b.names && |a.rows| == |b.rows|
    requires forall c :: c in a.names ==> Column(a, c) == Column(b, c)
    ensures a == b
  {
    forall i | 0 <= i < |a.rows| ensures a.rows[i] == b.rows[i] {
      forall k | 0 <= k < |a.names| ensures a.rows[i][k] == b.rows[i][k] {
        IndexOfUnique(a.names, k);
        assert Column(a, a.names[k])[i] == Column(b, a.names[k])[i];
      }
    }
  }

  /** A DataFrame that its owner updates in place. */
  class Frame {
    var names: seq<string>
    var rows: seq<seq<Cell>>

    function Value(): Table
      reads this
    {
      Table(names, rows)
    }

    ghost predicate Valid()
      reads this
    {
      WellFormed(Value())
    }

    constructor (t: Table)
      requires WellFormed(t)
      ensures Valid() && Value() == t
    {
      names := t.names;
      rows := t.rows;
    }

    /** `df.copy()` */
    method Copy() returns (c: Frame)
      requires Valid()
      ensures fresh(c) && c.Valid() && c.Value() == Value()
    {
      c := new Frame(Value());
    }

    /** `df[n]`, read from the current state. */
    function Get(n: string): (c: seq<Cell>)
      reads this
      requires Valid() && n in names
      ensures c == Column(Value(), n)
    {
      Column(Value(), n)
    }

    /** `df[n] = cells`, in place. */
    method SetColumn(n: string, cells: seq<Cell>)
      requires Valid() && |cells| == |rows|
      modifies this
      ensures Valid() && Value() == Assign(old(Value()), n, cells)
    {
      var t := Assign(Value(), n, cells);
      names, rows := t.names, t.rows;
    }

    /** `df[cols]`: a new frame; this one is unchanged. */
    method SelectColumns(cols: seq<string>) returns (r: Frame)
      requires Valid() && Distinct(cols) && forall c :: c in cols ==> c in names
      ensures fresh(r) && r.Valid() && r.Value() == Select(Value(), cols)
    {
      r := new Frame(Select(Value(), cols));
    }

    /** `df.dropna()`: a new frame; this one is unchanged. */
    method DropNulls() returns (r: Frame)
      requires Valid()
      ensures fresh(r) && r.Valid() && r.Value() == DropNA(Value())
    {
      r := new Frame(DropNA(Value()));
    }
  }
}
