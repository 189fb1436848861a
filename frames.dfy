/** The pandas DataFrame as the dashboard uses it: named columns over rows of
    cells, where a cell is a string, an integer or a missing value (NaN).
    Columns are positional, so a table may carry two columns of the same
    name; every lookup by name goes to the first of them, as the model's
    operations only ever look a column up by name. */
module Frames {
  import opened Text
  import opened Seqs

  datatype Option<T> = None | Some(value: T)

  /** The failures the modelled operations report instead of a table. */
  datatype Error =
    | KeyError(column: string)          // a column read by name is absent
    | DuplicateColumn(column: string)   // a column read by name is not unique
    | InvalidMapping                    // a column mapping lacks EAN or ESTOQUE
    | ColumnsNotFound                   // a column mapping names absent columns
    | UnsupportedFormat(ext: string)    // a file extension the upload refuses
    | WrongColumnCount(width: nat)      // a counting file of the wrong width
    | MissingRequiredColumns            // an expected-stock file without EAN or ESTOQUE
    | EmptyData                         // a text file with nothing to read
    | HeaderNotText                     // a column label that is a number, not a text
    | ColumnNotText(column: string)     // the .str accessor used on a column of numbers

  datatype Result<T> = Success(value: T) | Failure(error: Error)

  datatype Cell = Str(s: string) | Int(n: int) | Missing

  datatype TableData = TableData(columns: seq<string>, rows: seq<seq<Cell>>)

  predicate Rectangular(t: TableData) {
    forall i :: 0 <= i < |t.rows| ==> |t.rows[i]| == |t.columns|
  }

  /** A data frame: every row has one cell per column. */
  type Table = t: TableData | Rectangular(t) witness TableData([], [])

  /** pd.DataFrame(): no columns, no rows. */
  const EmptyTable: Table := TableData([], [])

  /** Position of the first column called name; |cols| when there is none. */
  function IndexOf(cols: seq<string>, name: string): (j: nat)
    ensures j <= |cols|
    ensures j < |cols| ==> cols[j] == name
    ensures forall k :: 0 <= k < j ==> cols[k] != name
    ensures j == |cols| <==> name !in cols
  {
    if cols == [] then 0
    else if cols[0] == name then 0
    else 1 + IndexOf(cols[1..], name)
  }

  lemma IndexOfAppend(cols: seq<string>, name: string, c: string)
    ensures IndexOf(cols + [name], c) ==
      if c in cols then IndexOf(cols, c) else if c == name then |cols| else |cols| + 1
  {
    var j, j' := IndexOf(cols, c), IndexOf(cols + [name], c);
    assert forall k :: 0 <= k < |cols| ==> (cols + [name])[k] == cols[k];
    if c in cols {
      assert (cols + [name])[j] == c;
    } else if c == name {
      assert (cols + [name])[|cols|] == c;
    }
  }

  /** A name that occurs once is found where it occurs. */
  lemma IndexOfUnique(cols: seq<string>, name: string, k: nat)
    requires k < |cols| && cols[k] == name && Count(cols, name) == 1
    ensures IndexOf(cols, name) == k
  {
    var j := IndexOf(cols, name);
    if j != k {
      CountTwo(cols, name, j, k);
    }
  }

  /** Two sequences with the same occurrences of name find it at the same place. */
  lemma IndexOfSamePositions(a: seq<string>, b: seq<string>, name: string)
    requires |a| == |b|
    requires forall j :: 0 <= j < |a| ==> (a[j] == name <==> b[j] == name)
    ensures IndexOf(a, name) == IndexOf(b, name)
  {
  }

  /** The cell of row i under the column called name; missing when there is
      no such column. */
  function Lookup(t: Table, i: nat, name: string): Cell
    requires i < |t.rows|
  {
    var j := IndexOf(t.columns, name);
    if j < |t.columns| then t.rows[i][j] else Missing
  }

  /** df[name], read cell by cell. */
  function Column(t: Table, name: string): (c: seq<Cell>)
    ensures |c| == |t.rows|
    ensures forall i :: 0 <= i < |c| ==> c[i] == Lookup(t, i, name)
  {
    seq(|t.rows|, i requires 0 <= i < |t.rows| => Lookup(t, i, name))
  }

  /** df[name] = values: overwrites the first column of that name, or appends
      a new last column when there is none. */
  function AssignColumn(t: Table, name: string, values: seq<Cell>): (r: Table)
    requires |values| == |t.rows|
    ensures |r.rows| == |t.rows|
    ensures r.columns == if name in t.columns then t.columns else t.columns + [name]
  {
    var j := IndexOf(t.columns, name);
    if j < |t.columns| then
      TableData(t.columns, seq(|t.rows|, i requires 0 <= i < |t.rows| => t.rows[i][j := values[i]]))
    else
      TableData(t.columns + [name], seq(|t.rows|, i requires 0 <= i < |t.rows| => t.rows[i] + [values[i]]))
  }

  /** After df[name] = values, the column name holds values and every other
      column reads as before. */
  lemma LookupAssign(t: Table, name: string, values: seq<Cell>, i: nat, c: string)
    requires |values| == |t.rows| && i < |t.rows|
    ensures Lookup(AssignColumn(t, name, values), i, c) == if c == name then values[i] else Lookup(t, i, c)
  {
    var r := AssignColumn(t, name, values);
    if name !in t.columns {
      IndexOfAppend(t.columns, name, c);
      assert r.rows[i] == t.rows[i] + [values[i]];
    }
  }

  /** Assigning a column keeps the columns there and adds at most that one. */
  lemma AssignColumnColumns(t: Table, name: string, values: seq<Cell>)
    requires |values| == |t.rows|
    ensures var r := AssignColumn(t, name, values);
      t.columns <= r.columns && |r.columns| <= |t.columns| + 1 && name in r.columns
  {
    var r := AssignColumn(t, name, values);
    if name !in t.columns {
      assert r.columns[|t.columns|] == name;
    }
  }

  /** LookupAssign for every row and column at once. */
  lemma LookupAssignAll(t: Table, name: string, values: seq<Cell>)
    requires |values| == |t.rows|
    ensures forall i, c :: 0 <= i < |t.rows| ==>
      Lookup(AssignColumn(t, name, values), i, c) == if c == name then values[i] else Lookup(t, i, c)
  {
    forall i, c | 0 <= i < |t.rows|
      ensures Lookup(AssignColumn(t, name, values), i, c) == if c == name then values[i] else Lookup(t, i, c)
    {
      LookupAssign(t, name, values, i, c);
    }
  }

  /** The whole-column form of LookupAssign. */
  lemma ColumnAssign(t: Table, name: string, values: seq<Cell>)
    requires |values| == |t.rows|
    ensures Column(AssignColumn(t, name, values), name) == values
    ensures forall c :: c != name ==> Column(AssignColumn(t, name, values), c) == Column(t, c)
  {
    var r := AssignColumn(t, name, values);
    forall i | 0 <= i < |t.rows| ensures Column(r, name)[i] == values[i] {
      LookupAssign(t, name, values, i, name);
    }
    forall c | c != name ensures Column(r, c) == Column(t, c) {
      forall i | 0 <= i < |t.rows| ensures Column(r, c)[i] == Column(t, c)[i] {
        LookupAssign(t, name, values, i, c);
      }
    }
  }

  /** df.columns = names. */
  function SetColumns(t: Table, names: seq<string>): (r: Table)
    requires |names| == |t.columns|
    ensures r.columns == names && r.rows == t.rows
  {
    TableData(names, t.rows)
  }

  /** df.iloc[:, :k]. */
  function KeepColumns(t: Table, k: nat): (r: Table)
    requires k <= |t.columns|
    ensures r.columns == t.columns[..k]
    ensures |r.rows| == |t.rows|
    ensures forall i :: 0 <= i < |t.rows| ==> r.rows[i] == t.rows[i][..k]
  {
    TableData(t.columns[..k], seq(|t.rows|, i requires 0 <= i < |t.rows| => t.rows[i][..k]))
  }

  /** Series.astype(str): NaN becomes the text "nan". */
  function CellToStr(c: Cell): string {
    match c
    case Str(s) => s
    case Int(n) => IntToString(n)
    case Missing => "nan"
  }

  /** astype(int) on a float: truncation toward zero. */
  function Trunc(x: real): (n: int)
    ensures x >= 0.0 ==> n >= 0 && n as real <= x < n as real + 1.0
    ensures x < 0.0 ==> n <= 0 && n as real - 1.0 < x <= n as real
  {
    if x >= 0.0 then x.Floor else -((-x).Floor)
  }

  /** The number parser behind pd.to_numeric: Some value for a numeric text,
      None for a text it cannot read (errors="coerce" turns that into NaN). */
  type NumberParser = string -> Option<real>

  /** pd.to_numeric(cell, errors="coerce"). */
  function ToNumeric(c: Cell, parse: NumberParser): Option<real> {
    match c
    case Int(n) => Some(n as real)
    case Str(s) => parse(s)
    case Missing => None
  }

  /** pd.to_numeric(cell, errors="coerce").fillna(default).astype(int). */
  function CoerceInt(c: Cell, parse: NumberParser, default: int): (n: int)
    ensures c.Int? ==> n == c.n
    ensures c.Missing? ==> n == default
    ensures c.Str? && parse(c.s).None? ==> n == default
    ensures c.Str? && parse(c.s).Some? ==> n == Trunc(parse(c.s).value)
  {
    match ToNumeric(c, parse)
    case Some(x) => Trunc(x)
    case None => default
  }

  /** The mutable data frame a function receives and may change in place. */
  class Frame {
    var columns: seq<string>
    var rows: seq<seq<Cell>>

    ghost predicate Valid()
      reads this
    {
      Rectangular(TableData(columns, rows))
    }

    function Value(): Table
      reads this
      requires Valid()
    {
      TableData(columns, rows)
    }

    constructor (t: Table)
      ensures Valid() && Value() == t
    {
      columns := t.columns;
      rows := t.rows;
    }

    /** self[name] = values. */
    method Assign(name: string, values: seq<Cell>)
      requires Valid() && |values| == |rows|
      modifies this
      ensures Valid() && Value() == AssignColumn(old(Value()), name, values)
    {
      var t := AssignColumn(Value(), name, values);
      columns, rows := t.columns, t.rows;
    }

    /** self.columns = names. */
    method Rename(names: seq<string>)
      requires Valid() && |names| == |columns|
      modifies this
      ensures Valid() && Value() == SetColumns(old(Value()), names)
    {
      columns := names;
    }

    /** self = self.iloc[:, :k]. */
    method Keep(k: nat)
      requires Valid() && k <= |columns|
      modifies this
      ensures Valid() && Value() == KeepColumns(old(Value()), k)
    {
      var t := KeepColumns(Value(), k);
      columns, rows := t.columns, t.rows;
    }
  }
}
