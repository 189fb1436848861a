/** process_upload and normalize_column_names of rfdash.py, the older
    revision of the dashboard. A file arrives already split into cells (the
    grid, one column per field, as the readers deliver it). .csv and the
    Excel formats read their first line as the header and normalise it;
    .txt is read without a header, so its columns are positions. An
    expected-stock file must then name EAN and ESTOQUE; a counting file of
    two columns becomes EAN and CONTAGEM with an unreadable quantity
    counting 0, and a counting file of one column is grouped by EAN so that
    CONTAGEM is the number of lines of each key. */
module RfdashUpload {
  import opened Seqs
  import opened Text
  import opened Frames
  import ConfigHeaders
  import Metrics
  import Reconciliation

  // ---------------------------------------------------------------------------
  // normalize_column_names
  // ---------------------------------------------------------------------------

  /** The shape of a header after normalize_column_names: ASCII, no
      lower-case letter, no space, and no white space at either end. */
  predicate RfdashCanonical(s: string) {
    && IsAscii(s)
    && (forall i :: 0 <= i < |s| ==> !IsLowerAscii(s[i]) && s[i] != ' ')
    && (s != [] ==> !IsSpace(s[0]) && !IsSpace(s[|s| - 1]))
  }

  /** unidecode(col).strip().upper().replace(" ", "_") */
  function RfdashHeader(col: string, u: Transliterator): (r: string)
    ensures RfdashCanonical(r)
    ensures |r| == |Strip(u(col))|
  {
    RfdashHeaderShape(col, u);
    ReplaceChar(Upper(Strip(u(col))), ' ', '_')
  }

  lemma RfdashHeaderShape(col: string, u: Transliterator)
    ensures RfdashCanonical(ReplaceChar(Upper(Strip(u(col))), ' ', '_'))
  {
    var b := Strip(u(col));
    ConfigHeaders.StripAscii(u(col));
    StripCharsSpec(u(col), Whitespace);
    var c := Upper(b);
    UpperSpec(b);
    if b != [] {
      UpperKeepsNonSpace(b[0]);
      UpperKeepsNonSpace(b[|b| - 1]);
    }
  }

  /** Upper-casing never turns a character into white space. */
  lemma UpperKeepsNonSpace(x: char)
    requires !IsSpace(x)
    ensures !IsSpace(UpperChar(x)) && UpperChar(x) != ' '
  {
    if IsLowerAscii(x) {
      assert 'A' <= UpperChar(x) <= 'Z';
    }
  }

  /** A normalised header is its own normal form. */
  lemma RfdashCanonicalFixed(s: string, u: Transliterator)
    requires RfdashCanonical(s)
    ensures RfdashHeader(s, u) == s
  {
    StripCharsNoop(s, Whitespace);
    UpperSpec(s);
  }

  /** normalize_column_names: every name normalised, in order. */
  function RfdashNames(cols: seq<string>, u: Transliterator): (r: seq<string>)
    ensures |r| == |cols|
    ensures forall j :: 0 <= j < |r| ==> RfdashCanonical(r[j])
  {
    seq(|cols|, j requires 0 <= j < |cols| => RfdashHeader(cols[j], u))
  }

  /** Normalising the header list keeps its length, and normalising twice
      changes nothing more. */
  lemma RfdashNamesIdempotent(cols: seq<string>, u: Transliterator)
    ensures |RfdashNames(cols, u)| == |cols|
    ensures RfdashNames(RfdashNames(cols, u), u) == RfdashNames(cols, u)
  {
    var n := RfdashNames(cols, u);
    forall j | 0 <= j < |n| ensures RfdashHeader(n[j], u) == n[j] {
      RfdashCanonicalFixed(n[j], u);
    }
  }

  /** On an ASCII name without white space at its ends the normalisation
      works character by character: a space becomes "_", a letter is
      upper-cased and every other character, a hyphen or a dot say, is kept
      (the current revision turns those into "_" as well). */
  lemma RfdashHeaderChars(col: string, u: Transliterator)
    requires IsAscii(col) && (col != [] ==> !IsSpace(col[0]) && !IsSpace(col[|col| - 1]))
    ensures |RfdashHeader(col, u)| == |col|
    ensures forall i :: 0 <= i < |col| ==>
      RfdashHeader(col, u)[i] == if col[i] == ' ' then '_' else UpperChar(col[i])
  {
    StripCharsNoop(col, Whitespace);
    UpperSpec(col);
    forall i | 0 <= i < |col| ensures col[i] == ' ' <==> UpperChar(col[i]) == ' ' {
    }
  }

  // ---------------------------------------------------------------------------
  // Reading the grid
  // ---------------------------------------------------------------------------

  /** The extensions process_upload reads. */
  const Formats: set<string> := {"csv", "xlsx", "xls", "xlsb", "txt"}

  /** The column labels pandas gives a file read with header=None: 0, 1, ... */
  function Positions(n: nat): (r: seq<string>)
    ensures |r| == n
    ensures forall j :: 0 <= j < n ==> r[j] == NatToString(j)
  {
    seq(n, j requires 0 <= j < n => NatToString(j))
  }

  /** The labels of a header line: a text is kept, a numeric cell stays a
      number, and an empty cell becomes "Unnamed: j". */
  function HeaderCells(line: seq<Cell>): (r: seq<Cell>)
    ensures |r| == |line|
    ensures forall j :: 0 <= j < |r| ==> !r[j].Missing?
  {
    seq(|line|, j requires 0 <= j < |line| =>
      if line[j].Missing? then Str("Unnamed: " + NatToString(j)) else line[j])
  }

  /** The integer labels of the frames the .xlsb reader builds. */
  function IntLabels(n: nat): (r: seq<Cell>)
    ensures |r| == n
  {
    seq(n, j requires 0 <= j < n => Int(j))
  }

  /** normalize_column_names on the labels: unidecode accepts only texts, so
      a numeric label makes the upload fail. */
  function NormalizeLabels(labels: seq<Cell>, u: Transliterator): (r: Result<seq<string>>)
    ensures r.Success? <==> forall j :: 0 <= j < |labels| ==> !labels[j].Int?
    ensures r.Failure? ==> r.error == HeaderNotText
    ensures r.Success? ==> |r.value| == |labels|
  {
    if forall j :: 0 <= j < |labels| ==> !labels[j].Int? then
      Success(RfdashNames(seq(|labels|, j requires 0 <= j < |labels| => CellToStr(labels[j])), u))
    else Failure(HeaderNotText)
  }

  /** The frame process_upload holds after reading and, for the formats with
      a header, normalising the header. An empty .csv or .txt raises
      EmptyDataError; an empty sheet is an empty frame. */
  function ReadFrame(ext: string, grid: Table, u: Transliterator): (r: Result<Table>)
    ensures ext !in Formats <==> r.Failure? && r.error == UnsupportedFormat(ext)
    ensures ext == "txt" && r.Success? ==> r.value == TableData(Positions(|grid.columns|), grid.rows)
  {
    if ext !in Formats then Failure(UnsupportedFormat(ext))
    else if grid.rows == [] then
      if ext == "csv" || ext == "txt" then Failure(EmptyData) else Success(EmptyTable)
    else if ext == "txt" then
      var t: Table := TableData(Positions(|grid.columns|), grid.rows);
      Success(t)
    else
      var labels := if ext == "xlsb" then IntLabels(|grid.columns|) else HeaderCells(grid.rows[0]);
      var body := if ext == "xlsb" then grid.rows else grid.rows[1..];
      match NormalizeLabels(labels, u)
      case Failure(e) => Failure(e)
      case Success(names) =>
        var t: Table := TableData(names, body);
        Success(t)
  }

  /** A file with a header loses its first line to the header: the frame
      holds the other lines, under the normalised names of the first. */
  lemma HeaderLineConsumed(ext: string, grid: Table, u: Transliterator)
    requires ext in {"csv", "xlsx", "xls"} && grid.rows != []
    requires forall j :: 0 <= j < |grid.columns| ==> grid.rows[0][j].Str?
    ensures ReadFrame(ext, grid, u).Success?
    ensures ReadFrame(ext, grid, u).value.rows == grid.rows[1..]
    ensures ReadFrame(ext, grid, u).value.columns ==
      RfdashNames(seq(|grid.columns|, j requires 0 <= j < |grid.columns| => grid.rows[0][j].s), u)
  {
    var labels := HeaderCells(grid.rows[0]);
    var texts := seq(|labels|, j requires 0 <= j < |labels| => CellToStr(labels[j]));
    assert texts == seq(|grid.columns|, j requires 0 <= j < |grid.columns| => grid.rows[0][j].s);
  }

  /** An .xlsb sheet with any column cannot be uploaded: its labels are the
      numbers 0, 1, ... and normalisation rejects them. */
  lemma XlsbRejected(grid: Table, u: Transliterator)
    requires grid.rows != [] && |grid.columns| > 0
    ensures ReadFrame("xlsb", grid, u) == Failure(HeaderNotText)
  {
    assert IntLabels(|grid.columns|)[0].Int?;
  }

  // ---------------------------------------------------------------------------
  // The counting branch
  // ---------------------------------------------------------------------------

  /** The cells of the j-th column, read by position. */
  function Positional(t: Table, j: nat): (c: seq<Cell>)
    requires j < |t.columns|
    ensures |c| == |t.rows|
    ensures forall i :: 0 <= i < |c| ==> c[i] == t.rows[i][j]
  {
    seq(|t.rows|, i requires 0 <= i < |t.rows| => t.rows[i][j])
  }

  /** Series.str is refused on a column whose values are numbers only; texts,
      texts mixed with numbers, or nothing but missing values are accepted. */
  predicate StrAccessorOk(col: seq<Cell>) {
    (exists i :: 0 <= i < |col| && col[i].Str?) || (forall i :: 0 <= i < |col| ==> !col[i].Int?)
  }

  /** pd.to_numeric(col.str.replace(",", "."), errors="coerce").fillna(0).astype(int)
      for one cell: a number in a text column is not a text and becomes NaN
      under .str, then 0, as does a missing or unreadable quantity. */
  function Quantity0(c: Cell, parse: NumberParser): (n: int)
    ensures !c.Str? ==> n == 0
    ensures c.Str? && parse(ReplaceChar(c.s, ',', '.')).None? ==> n == 0
    ensures c.Str? && parse(ReplaceChar(c.s, ',', '.')).Some? ==> n == Trunc(parse(ReplaceChar(c.s, ',', '.')).value)
  {
    if c.Str? then CoerceInt(Str(ReplaceChar(c.s, ',', '.')), parse, 0) else 0
  }

  function Quantities0(t: Table, parse: NumberParser): (qs: seq<Cell>)
    ensures |qs| == |t.rows|
    ensures forall i :: 0 <= i < |qs| ==> qs[i] == Int(Quantity0(Lookup(t, i, "CONTAGEM"), parse))
  {
    seq(|t.rows|, i requires 0 <= i < |t.rows| => Int(Quantity0(Lookup(t, i, "CONTAGEM"), parse)))
  }

  /** The (key, quantity) pairs of the rows whose key is not missing:
      groupby leaves out NaN keys. */
  function KeyedPairs(keys: seq<Cell>, qs: seq<Cell>): (ps: seq<(Cell, int)>)
    requires |keys| == |qs|
    ensures |ps| <= |keys|
    decreases |keys|
  {
    if keys == [] then []
    else (if keys[0].Missing? then [] else [(keys[0], Metrics.IntOf(qs[0]))]) + KeyedPairs(keys[1..], qs[1..])
  }

  /** df.groupby("EAN", as_index=False).agg({"CONTAGEM": "sum"}): one row per
      key that is not missing, holding the sum of its counts. */
  function GroupByKey(t: Table): (g: Table)
    ensures g.columns == ["EAN", "CONTAGEM"]
  {
    var pairs := KeyedPairs(Column(t, "EAN"), Column(t, "CONTAGEM"));
    var ks := Distinct(Keys(pairs));
    var m := GroupSum(pairs);
    TableData(["EAN", "CONTAGEM"], seq(|ks|, j requires 0 <= j < |ks| => [ks[j], Int(GetOr0(m, ks[j]))]))
  }

  /** The counting branch of process_upload on the frame read. */
  function CountingFrame(t: Table, parse: NumberParser): (r: Result<Table>)
    ensures r.Failure? <==> (
      || (|t.columns| != 1 && |t.columns| != 2)
      || (|t.columns| == 2 && !StrAccessorOk(Positional(t, 1))))
    ensures r.Success? ==> r.value.columns == ["EAN", "CONTAGEM"]
    ensures r.Success? && |t.columns| == 2 ==> |r.value.rows| == |t.rows|
    ensures |t.columns| != 1 && |t.columns| != 2 ==> r == Failure(WrongColumnCount(|t.columns|))
  {
    if |t.columns| == 2 then
      var named := SetColumns(t, ["EAN", "CONTAGEM"]);
      var keyed := AssignColumn(named, "EAN", Reconciliation.AsText(named, "EAN"));
      SecondColumn(t, keyed);
      if !StrAccessorOk(Column(keyed, "CONTAGEM")) then Failure(ColumnNotText("CONTAGEM"))
      else Success(AssignColumn(keyed, "CONTAGEM", Quantities0(keyed, parse)))
    else if |t.columns| == 1 then
      var named := SetColumns(t, ["EAN"]);
      Success(GroupByKey(AssignColumn(named, "CONTAGEM", seq(|t.rows|, _ => Int(1)))))
    else Failure(WrongColumnCount(|t.columns|))
  }

  /** After naming two columns EAN and CONTAGEM and converting EAN, the
      CONTAGEM column is the second column as read. */
  lemma SecondColumn(t: Table, keyed: Table)
    requires |t.columns| == 2
    requires keyed == AssignColumn(SetColumns(t, ["EAN", "CONTAGEM"]), "EAN",
      Reconciliation.AsText(SetColumns(t, ["EAN", "CONTAGEM"]), "EAN"))
    ensures Column(keyed, "CONTAGEM") == Positional(t, 1)
  {
    var named := SetColumns(t, ["EAN", "CONTAGEM"]);
    forall i | 0 <= i < |t.rows| ensures Column(keyed, "CONTAGEM")[i] == t.rows[i][1] {
      LookupAssign(named, "EAN", Reconciliation.AsText(named, "EAN"), i, "CONTAGEM");
    }
  }

  /** Which file an upload is: the expected stock or a count. */
  datatype Kind = EstoqueEsperado | Contagem

  /** process_upload(file, expected_type), with None, None as a Failure. */
  function Uploaded(ext: string, kind: Kind, grid: Table, u: Transliterator, parse: NumberParser): (r: Result<Table>)
    ensures ext !in Formats ==> r == Failure(UnsupportedFormat(ext))
    ensures r.Success? && kind == EstoqueEsperado ==> "EAN" in r.value.columns && "ESTOQUE" in r.value.columns
    ensures r.Success? && kind == Contagem ==> r.value.columns == ["EAN", "CONTAGEM"]
  {
    match ReadFrame(ext, grid, u)
    case Failure(e) => Failure(e)
    case Success(t) =>
      if kind == EstoqueEsperado then
        if "EAN" in t.columns && "ESTOQUE" in t.columns then Success(t) else Failure(MissingRequiredColumns)
      else CountingFrame(t, parse)
  }

  /** process_upload, renaming and assigning the columns of the frame in
      place as the source does. */
  method ProcessUpload(ext: string, kind: Kind, grid: Table, u: Transliterator, parse: NumberParser)
    returns (r: Result<Table>)
    ensures r == Uploaded(ext, kind, grid, u, parse)
  {
    var read := ReadFrame(ext, grid, u);
    if read.Failure? {
      return Failure(read.error);
    }
    var df := new Frame(read.value);
    if kind == EstoqueEsperado {
      if !("EAN" in df.columns && "ESTOQUE" in df.columns) {
        return Failure(MissingRequiredColumns);
      }
      return Success(df.Value());
    }
    var width := |df.columns|;
    if width == 2 {
      df.Rename(["EAN", "CONTAGEM"]);
      df.Assign("EAN", Reconciliation.AsText(df.Value(), "EAN"));
      var keyed := df.Value();
      SecondColumn(read.value, keyed);
      if !StrAccessorOk(Column(keyed, "CONTAGEM")) {
        return Failure(ColumnNotText("CONTAGEM"));
      }
      df.Assign("CONTAGEM", Quantities0(keyed, parse));
    } else if width == 1 {
      df.Rename(["EAN"]);
      df.Assign("CONTAGEM", seq(|df.rows|, _ => Int(1)));
      df := new Frame(GroupByKey(df.Value()));
    } else {
      return Failure(WrongColumnCount(width));
    }
    r := Success(df.Value());
  }

  // ---------------------------------------------------------------------------
  // What an upload holds
  // ---------------------------------------------------------------------------

  /** An expected-stock upload succeeds exactly when the frame read names
      both EAN and ESTOQUE, and is then that frame unchanged. */
  lemma ExpectedColumnsRequired(ext: string, grid: Table, u: Transliterator, parse: NumberParser)
    ensures var r, f := Uploaded(ext, EstoqueEsperado, grid, u, parse), ReadFrame(ext, grid, u);
      && (r.Success? <==> f.Success? && "EAN" in f.value.columns && "ESTOQUE" in f.value.columns)
      && (r.Success? ==> r.value == f.value)
      && (f.Success? && r.Failure? ==> r.error == MissingRequiredColumns)
  {
  }

  lemma {:induction false} NatToStringDigits(n: nat)
    ensures forall i :: 0 <= i < |NatToString(n)| ==> '0' <= NatToString(n)[i] <= '9'
    decreases n
  {
    if n >= 10 {
      NatToStringDigits(n / 10);
      var a := NatToString(n / 10);
      assert NatToString(n) == a + [DigitChar(n % 10)];
      assert forall i :: 0 <= i < |a| ==> NatToString(n)[i] == a[i];
    }
  }

  /** A .txt file has no header, so its columns are positions and can never
      include EAN or ESTOQUE: a .txt expected-stock file is always refused. */
  lemma TxtExpectedRejected(grid: Table, u: Transliterator, parse: NumberParser)
    ensures Uploaded("txt", EstoqueEsperado, grid, u, parse).Failure?
  {
    var ps := Positions(|grid.columns|);
    forall j | 0 <= j < |ps| ensures ps[j] != "EAN" {
      NatToStringDigits(j);
      assert !('0' <= "EAN"[0] <= '9');
    }
  }

  /** Two columns: the key as text (a missing key reads "nan") and the
      quantity with a comma read as a decimal point, where a missing,
      numeric or unreadable quantity counts 0. */
  lemma TwoColumnCounting(t: Table, parse: NumberParser, i: nat)
    requires |t.columns| == 2 && i < |t.rows|
    requires StrAccessorOk(Positional(t, 1))
    ensures CountingFrame(t, parse).Success?
    ensures Lookup(CountingFrame(t, parse).value, i, "EAN") == Str(CellToStr(t.rows[i][0]))
    ensures Lookup(CountingFrame(t, parse).value, i, "CONTAGEM") == Int(Quantity0(t.rows[i][1], parse))
  {
    var named := SetColumns(t, ["EAN", "CONTAGEM"]);
    var texts := Reconciliation.AsText(named, "EAN");
    var keyed := AssignColumn(named, "EAN", texts);
    SecondColumn(t, keyed);
    var qs := Quantities0(keyed, parse);
    LookupAssign(keyed, "CONTAGEM", qs, i, "EAN");
    LookupAssign(keyed, "CONTAGEM", qs, i, "CONTAGEM");
    LookupAssign(named, "EAN", texts, i, "EAN");
    assert Lookup(keyed, i, "CONTAGEM") == Column(keyed, "CONTAGEM")[i];
  }

  /** KeyedPairs unfolded once. */
  lemma KeyedPairsCons(keys: seq<Cell>, qs: seq<Cell>)
    requires |keys| == |qs| && keys != []
    ensures KeyedPairs(keys, qs) ==
      (if keys[0].Missing? then [] else [(keys[0], Metrics.IntOf(qs[0]))]) + KeyedPairs(keys[1..], qs[1..])
  {
  }

  predicate AllOnes(qs: seq<Cell>) {
    forall i :: 0 <= i < |qs| ==> qs[i] == Int(1)
  }

  lemma AllOnesTail(qs: seq<Cell>)
    requires AllOnes(qs) && qs != []
    ensures AllOnes(qs[1..]) && qs[0] == Int(1)
  {
    assert forall i :: 0 <= i < |qs[1..]| ==> qs[1..][i] == qs[i + 1];
  }

  /** Lines that all count one give pairs that all carry 1. */
  lemma {:induction false} KeyedOnesOne(keys: seq<Cell>, qs: seq<Cell>)
    requires |keys| == |qs| && AllOnes(qs)
    ensures forall i :: 0 <= i < |KeyedPairs(keys, qs)| ==> KeyedPairs(keys, qs)[i].1 == 1
    decreases |keys|
  {
    if keys != [] {
      AllOnesTail(qs);
      KeyedOnesOne(keys[1..], qs[1..]);
      KeyedPairsCons(keys, qs);
    }
  }

  /** A key that is not missing is listed as often as it occurs; a missing
      key is not listed. */
  lemma {:induction false} KeyedCount(keys: seq<Cell>, qs: seq<Cell>, k: Cell)
    requires |keys| == |qs|
    ensures Count(Keys(KeyedPairs(keys, qs)), k) == if k.Missing? then 0 else Count(keys, k)
    decreases |keys|
  {
    if keys != [] {
      KeyedCount(keys[1..], qs[1..], k);
      KeyedPairsCons(keys, qs);
      var head: seq<(Cell, int)> := if keys[0].Missing? then [] else [(keys[0], Metrics.IntOf(qs[0]))];
      KeysAppend(head, KeyedPairs(keys[1..], qs[1..]));
      CountAppend(Keys(head), Keys(KeyedPairs(keys[1..], qs[1..])), k);
    }
  }

  /** One pair per line with a key. */
  lemma {:induction false} KeyedLength(keys: seq<Cell>, qs: seq<Cell>)
    requires |keys| == |qs|
    ensures |KeyedPairs(keys, qs)| == |keys| - Count(keys, Missing)
    decreases |keys|
  {
    if keys != [] {
      KeyedLength(keys[1..], qs[1..]);
      KeyedPairsCons(keys, qs);
    }
  }

  lemma {:induction false} KeysAppend<K>(a: seq<(K, int)>, b: seq<(K, int)>)
    ensures Keys(a + b) == Keys(a) + Keys(b)
    decreases |a|
  {
    if a == [] {
      assert a + b == b;
    } else {
      assert (a + b)[0] == a[0] && (a + b)[1..] == a[1..] + b;
      KeysAppend(a[1..], b);
      assert Keys(a + b) == [a[0].0] + Keys(a[1..] + b);
      assert Keys(a) == [a[0].0] + Keys(a[1..]);
    }
  }

  /** The frame of a one-column count before grouping: the key and 1 per line. */
  function Ones(t: Table): (o: Table)
    requires |t.columns| == 1
    ensures |o.rows| == |t.rows|
  {
    AssignColumn(SetColumns(t, ["EAN"]), "CONTAGEM", seq(|t.rows|, _ => Int(1)))
  }

  lemma OnesColumns(t: Table)
    requires |t.columns| == 1
    ensures Column(Ones(t), "EAN") == Positional(t, 0)
    ensures AllOnes(Column(Ones(t), "CONTAGEM"))
  {
    var named := SetColumns(t, ["EAN"]);
    var ones := seq(|t.rows|, _ => Int(1));
    forall i | 0 <= i < |t.rows|
      ensures Column(Ones(t), "EAN")[i] == t.rows[i][0] && Column(Ones(t), "CONTAGEM")[i] == Int(1)
    {
      LookupAssign(named, "EAN", ones, i, "EAN");
      LookupAssign(named, "EAN", ones, i, "CONTAGEM");
      LookupAssign(named, "CONTAGEM", ones, i, "EAN");
      LookupAssign(named, "CONTAGEM", ones, i, "CONTAGEM");
    }
  }

  /** One column: each row of the grouped table holds a key of the file
      that is not missing and the number of lines with that key. */
  lemma OneColumnCounts(t: Table, parse: NumberParser, j: nat)
    requires |t.columns| == 1 && j < |CountingFrame(t, parse).value.rows|
    ensures var g := CountingFrame(t, parse).value;
      && g.rows[j][0] in Positional(t, 0) && !g.rows[j][0].Missing?
      && g.rows[j][1] == Int(Count(Positional(t, 0), g.rows[j][0]))
  {
    var o := Ones(t);
    OnesColumns(t);
    var keys := Column(o, "EAN");
    var pairs := KeyedPairs(keys, Column(o, "CONTAGEM"));
    var ks := Distinct(Keys(pairs));
    var x := ks[j];
    assert CountingFrame(t, parse).value.rows[j] == [x, Int(GetOr0(GroupSum(pairs), x))];
    KeyedOnesOne(keys, Column(o, "CONTAGEM"));
    KeyedCount(keys, Column(o, "CONTAGEM"), x);
    GroupCountOnes(pairs, x);
  }

  /** The rows of the grouped table, one per distinct key. */
  function GroupedKeys(t: Table): seq<Cell>
    requires |t.columns| == 1
  {
    var o := Ones(t);
    Distinct(Keys(KeyedPairs(Column(o, "EAN"), Column(o, "CONTAGEM"))))
  }

  lemma GroupedRows(t: Table, parse: NumberParser)
    requires |t.columns| == 1
    ensures var g := CountingFrame(t, parse).value; var ks := GroupedKeys(t);
      && |g.rows| == |ks| && forall j :: 0 <= j < |ks| ==> g.rows[j][0] == ks[j]
  {
  }

  /** One column: every key of the file that is not missing has a row. */
  lemma OneColumnKeys(t: Table, parse: NumberParser, k: Cell)
    requires |t.columns| == 1
    ensures var g := CountingFrame(t, parse).value;
      k in Positional(t, 0) && !k.Missing? ==> exists j :: 0 <= j < |g.rows| && g.rows[j][0] == k
  {
    var o := Ones(t);
    OnesColumns(t);
    var keys := Column(o, "EAN");
    KeyedCount(keys, Column(o, "CONTAGEM"), k);
    GroupedRows(t, parse);
    var ks := GroupedKeys(t);
    if k in keys && !k.Missing? {
      assert k in ks;
      var j :| 0 <= j < |ks| && ks[j] == k;
      assert CountingFrame(t, parse).value.rows[j][0] == k;
    }
  }

  /** One column: no key has two rows. */
  lemma OneColumnUnique(t: Table, parse: NumberParser)
    requires |t.columns| == 1
    ensures var g := CountingFrame(t, parse).value;
      forall a, b :: 0 <= a < b < |g.rows| ==> g.rows[a][0] != g.rows[b][0]
  {
    GroupedRows(t, parse);
  }

  lemma {:induction false} SumOnes<K>(pairs: seq<(K, int)>)
    requires forall i :: 0 <= i < |pairs| ==> pairs[i].1 == 1
    ensures Sum(Quantities(pairs)) == |pairs|
  {
    if pairs != [] {
      var q := Quantities(pairs);
      assert q == [1] + Quantities(pairs[1..]);
      assert q[1..] == Quantities(pairs[1..]);
      assert forall i :: 0 <= i < |pairs[1..]| ==> pairs[1..][i] == pairs[i + 1];
      SumOnes(pairs[1..]);
    }
  }

  /** The grouped counts add up to the number of lines with a key. */
  lemma OneColumnTotal(t: Table)
    requires |t.columns| == 1
    ensures var o := Ones(t);
      var pairs := KeyedPairs(Column(o, "EAN"), Column(o, "CONTAGEM"));
      var keys := Positional(t, 0);
      SumKeys(Distinct(Keys(pairs)), GroupSum(pairs)) == |t.rows| - Count(keys, Missing)
  {
    var o := Ones(t);
    OnesColumns(t);
    var pairs := KeyedPairs(Column(o, "EAN"), Column(o, "CONTAGEM"));
    KeyedOnesOne(Column(o, "EAN"), Column(o, "CONTAGEM"));
    KeyedLength(Column(o, "EAN"), Column(o, "CONTAGEM"));
    GroupSumTotal(pairs, Distinct(Keys(pairs)));
    SumOnes(pairs);
  }

  /** A two-column counting .txt has every line counted. */
  lemma TxtCountKeepsLines(grid: Table, u: Transliterator, parse: NumberParser)
    requires |grid.columns| == 2
    ensures Uploaded("txt", Contagem, grid, u, parse).Success? ==>
      |Uploaded("txt", Contagem, grid, u, parse).value.rows| == |grid.rows|
  {
  }

  /** A two-column counting .csv loses its first line to the header: one
      line fewer than the file is counted. */
  lemma CsvCountLosesFirstLine(grid: Table, u: Transliterator, parse: NumberParser)
    requires |grid.columns| == 2 && grid.rows != []
    requires grid.rows[0][0].Str? && grid.rows[0][1].Str?
    ensures Uploaded("csv", Contagem, grid, u, parse).Success? ==>
      |Uploaded("csv", Contagem, grid, u, parse).value.rows| == |grid.rows| - 1
  {
    HeaderLineConsumed("csv", grid, u);
  }
}
