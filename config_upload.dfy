/** The counting branch of process_upload in utils/config.py: a counting
    file (.txt or .csv, no header) already split into cells becomes a table
    with the columns EAN and CONTAGEM. One column means one piece per line;
    two or more keep the first two as key and quantity, reading a comma in
    the quantity as a decimal point and an unreadable quantity as 1. The
    key is always the stripped text of the first cell. */
module ConfigUpload {
  import opened Seqs
  import opened Text
  import opened Frames

  /** The quantity of a two-column line: str.replace(",", ".") on the text,
      then pd.to_numeric(errors="coerce").fillna(1).astype(int). A missing
      cell stays missing through the replacement and so becomes 1. */
  function CountQuantity(c: Cell, parse: NumberParser): (n: int)
    ensures c.Missing? ==> n == 1
    ensures c.Str? && parse(ReplaceChar(c.s, ',', '.')).None? ==> n == 1
    ensures c.Str? && parse(ReplaceChar(c.s, ',', '.')).Some? ==> n == Trunc(parse(ReplaceChar(c.s, ',', '.')).value)
  {
    match c
    case Str(s) => CoerceInt(Str(ReplaceChar(s, ',', '.')), parse, 1)
    case _ => CoerceInt(c, parse, 1)
  }

  /** The counted table the branch returns, row by row: the stripped key and
      the quantity. The columns of the raw table are positions. */
  function CountingTable(ext: string, raw: Table, parse: NumberParser): (r: Result<Table>)
    ensures r.Failure? <==> (ext != "txt" && ext != "csv") || |raw.columns| == 0
    ensures r.Failure? ==> r.error == if ext != "txt" && ext != "csv" then UnsupportedFormat(ext) else WrongColumnCount(0)
    ensures r.Success? ==> r.value.columns == ["EAN", "CONTAGEM"] && |r.value.rows| == |raw.rows|
  {
    if ext != "txt" && ext != "csv" then Failure(UnsupportedFormat(ext))
    else if |raw.columns| == 0 then Failure(WrongColumnCount(0))
    else
      var t: Table := TableData(["EAN", "CONTAGEM"], seq(|raw.rows|, i requires 0 <= i < |raw.rows| =>
        [Str(Strip(CellToStr(raw.rows[i][0]))),
         Int(if |raw.columns| == 1 then 1 else CountQuantity(raw.rows[i][1], parse))]));
      Success(t)
  }

  /** process_upload(file, "contagem") from the split cells on: the column
      assignments done in place on the frame, as the source does them. */
  method ReadCounting(ext: string, raw: Table, parse: NumberParser) returns (r: Result<Table>)
    ensures r == CountingTable(ext, raw, parse)
  {
    if ext != "txt" && ext != "csv" {
      return Failure(UnsupportedFormat(ext));
    }
    var df := new Frame(raw);
    if |df.columns| == 1 {
      df.Rename(["EAN"]);
      var ones := seq(|df.rows|, _ => Int(1));
      df.Assign("CONTAGEM", ones);
      OneColumnShape(raw, parse, ones);
    } else if |df.columns| >= 2 {
      df.Keep(2);
      df.Rename(["EAN", "CONTAGEM"]);
      var t := df.Value();
      var qs := Quantities2(t, parse);
      df.Assign("CONTAGEM", qs);
      TwoColumnShape(raw, parse);
    } else {
      return Failure(WrongColumnCount(0));
    }
    var keys := StrippedKeys(df.Value());
    KeysStep(ext, raw, parse, df.Value());
    df.Assign("EAN", keys);
    r := Success(df.Value());
  }

  /** The quantities of the CONTAGEM column of a two-column table. */
  function Quantities2(t: Table, parse: NumberParser): (qs: seq<Cell>)
    ensures |qs| == |t.rows|
  {
    seq(|t.rows|, i requires 0 <= i < |t.rows| => Int(CountQuantity(Lookup(t, i, "CONTAGEM"), parse)))
  }

  /** df["EAN"].astype(str).str.strip() */
  function StrippedKeys(t: Table): (ks: seq<Cell>)
    ensures |ks| == |t.rows|
  {
    seq(|t.rows|, i requires 0 <= i < |t.rows| => Str(Strip(CellToStr(Lookup(t, i, "EAN")))))
  }

  /** The frame before the key is stripped: the raw key and the quantity. */
  predicate Quantified(raw: Table, parse: NumberParser, t: Table)
    requires |raw.columns| > 0
  {
    && t.columns == ["EAN", "CONTAGEM"] && |t.rows| == |raw.rows|
    && forall i :: 0 <= i < |t.rows| ==>
      t.rows[i] == [raw.rows[i][0], Int(if |raw.columns| == 1 then 1 else CountQuantity(raw.rows[i][1], parse))]
  }

  /** One column: naming it EAN and adding CONTAGEM = 1. */
  lemma OneColumnShape(raw: Table, parse: NumberParser, ones: seq<Cell>)
    requires |raw.columns| == 1 && ones == seq(|raw.rows|, _ => Int(1))
    ensures Quantified(raw, parse, AssignColumn(SetColumns(raw, ["EAN"]), "CONTAGEM", ones))
  {
    var t := AssignColumn(SetColumns(raw, ["EAN"]), "CONTAGEM", ones);
    forall i | 0 <= i < |t.rows| ensures t.rows[i] == [raw.rows[i][0], Int(1)] {
      assert raw.rows[i] == [raw.rows[i][0]];
    }
  }

  /** Two or more columns: keeping two, naming them and reading the quantity. */
  lemma TwoColumnShape(raw: Table, parse: NumberParser)
    requires |raw.columns| >= 2
    ensures var t := SetColumns(KeepColumns(raw, 2), ["EAN", "CONTAGEM"]);
      Quantified(raw, parse, AssignColumn(t, "CONTAGEM", Quantities2(t, parse)))
  {
    var t := SetColumns(KeepColumns(raw, 2), ["EAN", "CONTAGEM"]);
    var u := AssignColumn(t, "CONTAGEM", Quantities2(t, parse));
    forall i | 0 <= i < |u.rows|
      ensures u.rows[i] == [raw.rows[i][0], Int(CountQuantity(raw.rows[i][1], parse))]
    {
      assert t.rows[i] == [raw.rows[i][0], raw.rows[i][1]];
    }
  }

  /** Stripping the key of the quantified frame gives the counted table. */
  lemma KeysStep(ext: string, raw: Table, parse: NumberParser, t: Table)
    requires (ext == "txt" || ext == "csv") && |raw.columns| > 0 && Quantified(raw, parse, t)
    ensures Success(AssignColumn(t, "EAN", StrippedKeys(t))) == CountingTable(ext, raw, parse)
  {
    var a := AssignColumn(t, "EAN", StrippedKeys(t));
    var b := CountingTable(ext, raw, parse).value;
    forall i | 0 <= i < |a.rows| ensures a.rows[i] == b.rows[i] {
      assert t.rows[i][0] == raw.rows[i][0];
    }
    SameTable(a, b);
  }

  /** Two tables with the same columns and the same cells are equal. */
  lemma SameTable(a: Table, b: Table)
    requires a.columns == b.columns && |a.rows| == |b.rows|
    requires forall i :: 0 <= i < |a.rows| ==> a.rows[i] == b.rows[i]
    ensures a == b
  {
  }

  /** The key read back from a counted table: always text, stripped. */
  lemma CountedKeysStripped(ext: string, raw: Table, parse: NumberParser, i: nat)
    requires CountingTable(ext, raw, parse).Success? && i < |raw.rows|
    ensures var t := CountingTable(ext, raw, parse).value;
      && Lookup(t, i, "EAN") == Str(Strip(CellToStr(raw.rows[i][0])))
      && var k := Strip(CellToStr(raw.rows[i][0]));
        k != [] ==> !IsSpace(k[0]) && !IsSpace(k[|k| - 1])
  {
    StripCharsSpec(CellToStr(raw.rows[i][0]), Whitespace);
  }

  /** One column: every line counts one piece. */
  lemma OneColumnCountsOne(ext: string, raw: Table, parse: NumberParser, i: nat)
    requires (ext == "txt" || ext == "csv") && |raw.columns| == 1 && i < |raw.rows|
    ensures Lookup(CountingTable(ext, raw, parse).value, i, "CONTAGEM") == Int(1)
  {
    assert "EAN" != "CONTAGEM";
  }

  /** Two or more columns: the quantity of the second cell, with a comma
      read as a decimal point; an unreadable or missing quantity counts 1. */
  lemma TwoColumnsQuantity(ext: string, raw: Table, parse: NumberParser, i: nat)
    requires (ext == "txt" || ext == "csv") && |raw.columns| >= 2 && i < |raw.rows|
    ensures var c := raw.rows[i][1];
      var q := Lookup(CountingTable(ext, raw, parse).value, i, "CONTAGEM");
      && (c.Missing? ==> q == Int(1))
      && (c.Str? && parse(ReplaceChar(c.s, ',', '.')).None? ==> q == Int(1))
      && (c.Str? && parse(ReplaceChar(c.s, ',', '.')).Some? ==>
          q == Int(Trunc(parse(ReplaceChar(c.s, ',', '.')).value)))
  {
    assert "EAN" != "CONTAGEM";
  }

  /** The text handed to the number parser never holds a comma. */
  lemma NoCommaParsed(s: string)
    ensures ',' !in ReplaceChar(s, ',', '.')
  {
    var r := ReplaceChar(s, ',', '.');
    forall i | 0 <= i < |r| ensures r[i] != ',' {
    }
  }

  /** A one-column file, once grouped by calculate_discrepancies, counts
      each key as often as it occurs. */
  lemma OneColumnGroupCounts(ext: string, raw: Table, parse: NumberParser, k: string)
    requires (ext == "txt" || ext == "csv") && |raw.columns| == 1
    ensures var t := CountingTable(ext, raw, parse).value;
      var pairs := seq(|t.rows|, i requires 0 <= i < |t.rows| =>
        (CellToStr(Lookup(t, i, "EAN")), CoerceInt(Lookup(t, i, "CONTAGEM"), parse, 0)));
      GetOr0(GroupSum(pairs), k) == Count(Keys(pairs), k)
  {
    var t := CountingTable(ext, raw, parse).value;
    var pairs := seq(|t.rows|, i requires 0 <= i < |t.rows| =>
      (CellToStr(Lookup(t, i, "EAN")), CoerceInt(Lookup(t, i, "CONTAGEM"), parse, 0)));
    forall i | 0 <= i < |pairs| ensures pairs[i].1 == 1 {
      OneColumnCountsOne(ext, raw, parse, i);
    }
    GroupCountOnes(pairs, k);
  }
}
