/**
 * A pandas DataFrame as the normalisation pipeline uses it: named columns
 * and rows of cells, read and written a whole column at a time.
 */
module Frames {
  import opened Strings
  import opened Numeric
  import opened Base

  /** One cell: text as read from a file, a number after coercion, or the missing marker (NaN). */
  datatype Cell = Text(s: string) | Num(d: Decimal) | Missing

  /** The contents of a frame as a value: the column names, and the rows with one cell per column. */
  datatype Table = Table(columns: seq<string>, rows: seq<seq<Cell>>)

  predicate WellFormed(t: Table) {
    forall i :: 0 <= i < |t.rows| ==> |t.rows[i]| == |t.columns|
  }

  /** `df.empty`: the frame has no rows or no columns. */
  predicate IsEmpty(t: Table) {
    |t.rows| == 0 || |t.columns| == 0
  }

  /** The position of the first column called `name`. */
  function IndexOf(names: seq<string>, name: string): (j: nat)
    requires name in names
    ensures j < |names| && names[j] == name && name !in names[..j]
  {
    if names[0] == name then 0 else 1 + IndexOf(names[1..], name)
  }

  /** `df[name]`: the cells of the column called `name`, one per row. */
  function Column(t: Table, name: string): (cells: seq<Cell>)
    requires WellFormed(t) && name in t.columns
    ensures |cells| == |t.rows|
  {
    var j := IndexOf(t.columns, name);
    seq(|t.rows|, i requires 0 <= i < |t.rows| => t.rows[i][j])
  }

  /** `df.columns = names`: the columns are relabelled by position; no cell moves. */
  function Rename(t: Table, names: seq<string>): (r: Table)
    requires WellFormed(t) && |names| == |t.columns|
    ensures WellFormed(r) && r.columns == names && r.rows == t.rows
  {
    Table(names, t.rows)
  }

  /**
   * `df[name] = values`: the column called `name` is overwritten where it
   * stands, or, when there is none, a new column is added on the right.
   */
  function Assign(t: Table, name: string, values: seq<Cell>): (r: Table)
    requires WellFormed(t) && |values| == |t.rows|
    ensures WellFormed(r) && |r.rows| == |t.rows|
    ensures name in r.columns && Column(r, name) == values
    ensures r.columns == if name in t.columns then t.columns else t.columns + [name]
  {
    if name in t.columns then
      var j := IndexOf(t.columns, name);
      Table(t.columns, seq(|t.rows|, i requires 0 <= i < |t.rows| => t.rows[i][j := values[i]]))
    else
      var r := Table(t.columns + [name], seq(|t.rows|, i requires 0 <= i < |t.rows| => t.rows[i] + [values[i]]));
      assert r.columns[..|t.columns|] == t.columns;
      IndexOfAt(r.columns, name, |t.columns|);
      r
  }

  /** Assigning one column leaves every other column as it was. */
  lemma AssignOthers(t: Table, name: string, values: seq<Cell>, other: string)
    requires WellFormed(t) && |values| == |t.rows|
    requires other in t.columns && other != name
    ensures other in Assign(t, name, values).columns
    ensures Column(Assign(t, name, values), other) == Column(t, other)
  {
    if name !in t.columns {
      IndexOfPrefix(t.columns, [name], other);
    }
  }

  /** A new column is one more cell on the right of every row; an existing one is overwritten in place. */
  lemma AssignRows(t: Table, name: string, values: seq<Cell>, i: nat)
    requires WellFormed(t) && |values| == |t.rows| && i < |t.rows|
    ensures name !in t.columns ==> Assign(t, name, values).rows[i] == t.rows[i] + [values[i]]
    ensures name in t.columns ==> Assign(t, name, values).rows[i] == t.rows[i][IndexOf(t.columns, name) := values[i]]
  {
  }

  /** The same cell in every row: pandas' broadcast of a scalar assigned to a column. */
  function Broadcast(c: Cell, n: nat): (cells: seq<Cell>)
    ensures |cells| == n && forall i :: 0 <= i < n ==> cells[i] == c
  {
    seq(n, _ => c)
  }

  /** A per-string function applied to a text cell, as `Series.apply` calls a lambda on each value. */
  function MapText(f: string -> string, c: Cell): Cell {
    match c
    case Text(s) => Text(f(s))
    case _ => c
  }

  function MapCells(f: string -> string, cells: seq<Cell>): (r: seq<Cell>)
    ensures |r| == |cells| && forall i :: 0 <= i < |cells| ==> r[i] == MapText(f, cells[i])
  {
    seq(|cells|, i requires 0 <= i < |cells| => MapText(f, cells[i]))
  }

  /** `pd.to_numeric(x, errors='coerce')` on one cell: numerals become numbers, other text the missing marker. */
  function Coerce(c: Cell): (r: Cell)
    ensures r.Num? || r.Missing?
    ensures c.Text? ==> (r.Num? <==> ToNumeric(c.s).Some?)
    ensures c.Text? && r.Num? ==> ToNumeric(c.s) == Some(r.d)
    ensures !c.Text? ==> r == c
  {
    match c
    case Text(s) => (match ToNumeric(s) case Some(d) => Num(d) case None => Missing)
    case _ => c
  }

  function CoerceCells(cells: seq<Cell>): (r: seq<Cell>)
    ensures |r| == |cells| && forall i :: 0 <= i < |cells| ==> r[i] == Coerce(cells[i])
  {
    seq(|cells|, i requires 0 <= i < |cells| => Coerce(cells[i]))
  }

  /** Python truthiness of a cell: non-empty text, a non-zero number, or NaN (which is truthy). */
  predicate Truthy(c: Cell) {
    match c
    case Text(s) => s != ""
    case Num(d) => d.unscaled != 0
    case Missing => true
  }

  /** The position of a name in a list does not change when more names are added after it. */
  lemma {:induction false} IndexOfPrefix(names: seq<string>, more: seq<string>, n: string)
    requires n in names
    ensures n in names + more && IndexOf(names + more, n) == IndexOf(names, n)
  {
    if names[0] != n {
      assert (names + more)[1..] == names[1..] + more;
      IndexOfPrefix(names[1..], more, n);
    }
  }

  /** A name found at position `j` with no earlier occurrence is at `IndexOf` position `j`. */
  lemma {:induction false} IndexOfAt(names: seq<string>, n: string, j: nat)
    requires j < |names| && names[j] == n
    requires forall k :: 0 <= k < j ==> names[k] != n
    ensures n in names && IndexOf(names, n) == j
  {
    if j > 0 {
      assert names[1..][j - 1] == n;
      IndexOfAt(names[1..], n, j - 1);
    }
  }

  /** The column called `name` is the one at position `j` when no earlier column has that name. */
  lemma ColumnAt(t: Table, name: string, j: nat)
    requires WellFormed(t) && j < |t.columns| && t.columns[j] == name
    requires forall k :: 0 <= k < j ==> t.columns[k] != name
    ensures name in t.columns && forall i :: 0 <= i < |t.rows| ==> Column(t, name)[i] == t.rows[i][j]
  {
    IndexOfAt(t.columns, name, j);
  }

  /**
   * A pandas DataFrame that is changed in place: its column labels and its
   * rows. Methods read or write a whole column at once.
   */
  class Frame {
    var columns: seq<string>
    var rows: seq<seq<Cell>>

    ghost predicate Valid()
      reads this
    {
      WellFormed(Table(columns, rows))
    }

    /** The frame's current contents. */
    function Value(): Table
      reads this
    {
      Table(columns, rows)
    }

    /** `pd.DataFrame(...)`: a frame holding `t`. */
    constructor (t: Table)
      requires WellFormed(t)
      ensures Valid() && Value() == t
    {
      columns := t.columns;
      rows := t.rows;
    }

    /** `df.empty`. */
    predicate Empty()
      reads this
    {
      IsEmpty(Value())
    }

    /** `len(df.columns)`. */
    function Width(): nat
      reads this
    {
      |columns|
    }

    /** `df.columns = names`. */
    method SetColumns(names: seq<string>)
      requires Valid() && |names| == |columns|
      modifies this
      ensures Valid() && Value() == Rename(old(Value()), names)
    {
      columns := names;
    }

    /** `df[name]`. */
    method Get(name: string) returns (cells: seq<Cell>)
      requires Valid() && name in columns
      ensures cells == Column(Value(), name)
    {
      var j, current := IndexOf(columns, name), rows;
      cells := seq(|current|, i requires 0 <= i < |current| => current[i][j]);
    }

    /** `df[name] = values`, a column of one value per row. */
    method Set(name: string, values: seq<Cell>)
      requires Valid() && |values| == |rows|
      modifies this
      ensures Valid() && Value() == Assign(old(Value()), name, values)
    {
      var r := Assign(Value(), name, values);
      columns, rows := r.columns, r.rows;
    }
  }
}
