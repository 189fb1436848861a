/** calculate_discrepancies of rfdash.py. It computes the same table as the
    current revision (Reconciliation.Reconcile) and fails on the same
    inputs, though one of its checks comes earlier (Discrepancies). It works
    on the caller's frames instead of copies: once both have an EAN column it converts that
    column to text in both, and once the counted rows are grouped it adds a
    zero ESTOQUE column to the expected frame when there is none. The merged
    table is then completed step by step in place. */
module RfdashReconcile {
  import opened Seqs
  import opened Text
  import opened Frames
  import opened Metrics
  import opened Reconciliation

  predicate BothKeyed(expected: Table, counted: Table) {
    "EAN" in expected.columns && "EAN" in counted.columns
  }

  /** counted.groupby("EAN").agg({"CONTAGEM": "sum"}) raises nothing. */
  predicate Groupable(counted: Table) {
    Count(counted.columns, "EAN") == 1 && "CONTAGEM" in counted.columns
  }

  /** The outcome of rfdash.py's calculate_discrepancies. The checks are
      those of the current revision, except that the merged frame is read
      for CONTAGEM (fillna, line 415) before its ESTOQUE is converted (line
      418). So an expected frame that has a CONTAGEM column fails with a
      KeyError even when ESTOQUE is repeated as well. */
  function Discrepancies(expected: Table, counted: Table, parse: NumberParser): (r: Result<Table>)
    ensures r.Success? <==> Reconcile(expected, counted, parse).Success?
    ensures r.Success? ==> r == Reconcile(expected, counted, parse)
    ensures r != Reconcile(expected, counted, parse) ==>
      && r == Failure(KeyError("CONTAGEM"))
      && Reconcile(expected, counted, parse) == Failure(DuplicateColumn("ESTOQUE"))
      && Count(expected.columns, "ESTOQUE") > 1 && "CONTAGEM" in expected.columns
  {
    if !BothKeyed(expected, counted) then Success(EmptyTable)
    else if Count(counted.columns, "EAN") > 1 then Failure(DuplicateColumn("EAN"))
    else if "CONTAGEM" !in counted.columns then Failure(KeyError("CONTAGEM"))
    else if Count(expected.columns, "EAN") > 1 then Failure(DuplicateColumn("EAN"))
    else if "CONTAGEM" in expected.columns then Failure(KeyError("CONTAGEM"))
    else if Count(expected.columns, "ESTOQUE") > 1 then Failure(DuplicateColumn("ESTOQUE"))
    else Success(Derive(Joined(expected, counted, parse), parse))
  }

  /** Expected headers EAN, ESTOQUE, ESTOQUE, CONTAGEM: rfdash.py reports
      the missing CONTAGEM, the current revision the repeated ESTOQUE. */
  lemma CheckOrderDiffers(expected: Table, counted: Table, parse: NumberParser)
    requires expected.columns == ["EAN", "ESTOQUE", "ESTOQUE", "CONTAGEM"]
    requires counted.columns == ["EAN", "CONTAGEM"]
    ensures Discrepancies(expected, counted, parse) == Failure(KeyError("CONTAGEM"))
    ensures Reconcile(expected, counted, parse) == Failure(DuplicateColumn("ESTOQUE"))
  {
    CountTwo(expected.columns, "ESTOQUE", 1, 2);
    assert Count(counted.columns, "EAN") == 1 by {
      assert counted.columns[1..] == ["CONTAGEM"];
    }
    assert Count(expected.columns, "EAN") == 1 by {
      assert expected.columns[1..] == ["ESTOQUE", "ESTOQUE", "CONTAGEM"];
      assert "EAN" !in expected.columns[1..];
    }
  }

  /** The counted frame after the call: EAN as text when both frames have one. */
  function CountedAfter(counted: Table, expected: Table): (c: Table)
    ensures c.columns == counted.columns && |c.rows| == |counted.rows|
  {
    if BothKeyed(expected, counted) then TextKeys(counted) else counted
  }

  /** The expected frame after the call: EAN as text when both frames have
      one, and an ESTOQUE column of zeros added once the grouping succeeded. */
  function ExpectedAfter(expected: Table, counted: Table): (e: Table)
    ensures |e.rows| == |expected.rows|
    ensures e.columns == if BothKeyed(expected, counted) && Groupable(counted) && "ESTOQUE" !in expected.columns
      then expected.columns + ["ESTOQUE"] else expected.columns
  {
    if !BothKeyed(expected, counted) then expected
    else if Groupable(counted) then Prepare(expected)
    else TextKeys(expected)
  }

  /** Converting EAN to text changes none of the counted pairs. */
  lemma TextKeysPairs(counted: Table, parse: NumberParser)
    requires "EAN" in counted.columns
    ensures CountedPairs(TextKeys(counted), parse) == CountedPairs(counted, parse)
  {
    NamesDistinct();
    var texts := AsText(counted, "EAN");
    forall i | 0 <= i < |counted.rows|
      ensures CountedPairs(TextKeys(counted), parse)[i] == CountedPairs(counted, parse)[i]
    {
      LookupAssign(counted, "EAN", texts, i, "EAN");
      LookupAssign(counted, "EAN", texts, i, "CONTAGEM");
    }
  }

  /** Preparing the expected frame changes none of its keys. */
  lemma PreparedKeys(expected: Table, parse: NumberParser)
    requires "EAN" in expected.columns
    ensures KeysOf(Prepare(expected)) == KeysOf(expected)
  {
    forall i | 0 <= i < |expected.rows| ensures KeysOf(Prepare(expected))[i] == KeysOf(expected)[i] {
      PrepareLookup(expected, parse, i);
    }
  }

  /** Assigning a column the values it already holds changes nothing. */
  lemma AssignSame(t: Table, name: string, values: seq<Cell>)
    requires name in t.columns && |values| == |t.rows|
    requires forall i :: 0 <= i < |t.rows| ==> values[i] == Lookup(t, i, name)
    ensures AssignColumn(t, name, values) == t
  {
    var r := AssignColumn(t, name, values);
    var j := IndexOf(t.columns, name);
    forall i | 0 <= i < |t.rows| ensures r.rows[i] == t.rows[i] {
      assert t.rows[i][j] == Lookup(t, i, name);
    }
  }

  /** Keys already texts stay as they are. */
  lemma TextKeysText(t: Table)
    requires "EAN" in t.columns
    requires forall i :: 0 <= i < |t.rows| ==> Lookup(t, i, "EAN").Str?
    ensures TextKeys(t) == t
  {
    AssignSame(t, "EAN", AsText(t, "EAN"));
  }

  /** A prepared frame is prepared already. */
  lemma PrepareIdempotent(expected: Table, parse: NumberParser)
    requires "EAN" in expected.columns
    ensures Prepare(Prepare(expected)) == Prepare(expected)
  {
    var e := Prepare(expected);
    forall i | 0 <= i < |e.rows| ensures Lookup(e, i, "EAN").Str? {
      PrepareLookup(expected, parse, i);
    }
    TextKeysText(e);
  }

  /** Adding ESTOQUE where there was none changes none of the checks
      calculate_discrepancies makes on the expected columns. */
  lemma StockChecks(cols: seq<string>)
    ensures var p := if "ESTOQUE" in cols then cols else cols + ["ESTOQUE"];
      && Count(p, "EAN") == Count(cols, "EAN")
      && (Count(p, "ESTOQUE") > 1 <==> Count(cols, "ESTOQUE") > 1)
      && ("CONTAGEM" in p <==> "CONTAGEM" in cols)
  {
    NamesDistinct();
    CountAppend(cols, ["ESTOQUE"], "EAN");
    CountAppend(cols, ["ESTOQUE"], "ESTOQUE");
  }

  /** The checks of the merge and of the steps after it, made on the
      expected columns once ESTOQUE is added, in rfdash.py's order, and the
      error each one gives. */
  lemma MergeChecks(expected: Table, counted: Table, cols: seq<string>, parse: NumberParser)
    requires BothKeyed(expected, counted) && Groupable(counted)
    requires cols == if "ESTOQUE" in expected.columns then expected.columns else expected.columns + ["ESTOQUE"]
    ensures Count(cols, "EAN") > 1 ==> Discrepancies(expected, counted, parse) == Failure(DuplicateColumn("EAN"))
    ensures Count(cols, "EAN") <= 1 && "CONTAGEM" in cols ==>
      Discrepancies(expected, counted, parse) == Failure(KeyError("CONTAGEM"))
    ensures Count(cols, "EAN") <= 1 && "CONTAGEM" !in cols && Count(cols, "ESTOQUE") > 1 ==>
      Discrepancies(expected, counted, parse) == Failure(DuplicateColumn("ESTOQUE"))
    ensures Count(cols, "EAN") <= 1 && Count(cols, "ESTOQUE") <= 1 && "CONTAGEM" !in cols ==>
      Joinable(expected, counted)
  {
    StockChecks(expected.columns);
  }

  /** When every check passes, the result is the derived merge of the
      prepared expected frame and the grouped counts of the converted
      counted frame. */
  lemma ConvertedResult(expected: Table, counted: Table, parse: NumberParser, e: Table, c: Table)
    requires BothKeyed(expected, counted) && Groupable(counted)
    requires Count(expected.columns, "EAN") == 1 && Count(expected.columns, "ESTOQUE") <= 1
    requires "CONTAGEM" !in expected.columns
    requires e == Prepare(expected) && c == TextKeys(counted)
    ensures Reconcile(expected, counted, parse) == Success(Derive(
      Merge(e, GroupSum(CountedPairs(c, parse)), NewKeys(KeysOf(e), CountedPairs(c, parse))), parse))
  {
    TextKeysPairs(counted, parse);
    PreparedKeys(expected, parse);
  }

  /** calculate_discrepancies(expected, counted), changing the two frames in
      place as the source does. It returns the outcome Discrepancies gives
      for the frames as they were passed. */
  method CalculateDiscrepancies(expected: Frame, counted: Frame, parse: NumberParser) returns (r: Result<Table>)
    requires expected.Valid() && counted.Valid() && expected != counted
    modifies expected, counted
    ensures expected.Valid() && counted.Valid()
    ensures r == Discrepancies(old(expected.Value()), old(counted.Value()), parse)
    ensures counted.Value() == CountedAfter(old(counted.Value()), old(expected.Value()))
    ensures expected.Value() == ExpectedAfter(old(expected.Value()), old(counted.Value()))
  {
    var e0, c0 := expected.Value(), counted.Value();
    if !("EAN" in e0.columns && "EAN" in c0.columns) {
      return Success(EmptyTable);
    }
    ConvertKeys(expected);
    ConvertKeys(counted);
    var c1 := counted.Value();
    if Count(c1.columns, "EAN") > 1 {
      return Failure(DuplicateColumn("EAN"));
    }
    if "CONTAGEM" !in c1.columns {
      return Failure(KeyError("CONTAGEM"));
    }
    AddStock(expected);
    r := MergeFrames(expected.Value(), c1, parse, e0, c0);
  }

  /** The part of calculate_discrepancies after the zero ESTOQUE column is
      added: the merge and its checks, and the derived columns. */
  method MergeFrames(e2: Table, c1: Table, parse: NumberParser, ghost e0: Table, ghost c0: Table)
    returns (r: Result<Table>)
    requires BothKeyed(e0, c0) && Groupable(c0)
    requires e2 == Prepare(e0) && c1 == TextKeys(c0)
    ensures r == Discrepancies(e0, c0, parse)
  {
    var pairs := CountedPairs(c1, parse);
    MergeChecks(e0, c0, e2.columns, parse);
    if Count(e2.columns, "EAN") > 1 {
      return Failure(DuplicateColumn("EAN"));
    }
    if "CONTAGEM" in e2.columns {
      return Failure(KeyError("CONTAGEM"));
    }
    if Count(e2.columns, "ESTOQUE") > 1 {
      return Failure(DuplicateColumn("ESTOQUE"));
    }
    ConvertedResult(e0, c0, parse, e2, c1);
    var d := new Frame(Merge(e2, GroupSum(pairs), NewKeys(KeysOf(e2), pairs)));
    Complete(d, parse);
    r := Success(d.Value());
  }

  /** df["EAN"] = df["EAN"].astype(str) on the caller's frame. */
  method ConvertKeys(f: Frame)
    requires f.Valid() && "EAN" in f.columns
    modifies f
    ensures f.Valid() && f.Value() == TextKeys(old(f.Value()))
  {
    f.Assign("EAN", AsText(f.Value(), "EAN"));
  }

  /** if "ESTOQUE" not in expected.columns: expected["ESTOQUE"] = 0 */
  method AddStock(f: Frame)
    requires f.Valid()
    modifies f
    ensures f.Valid() && f.Value() == WithStock(old(f.Value()))
  {
    if "ESTOQUE" !in f.columns {
      f.Assign("ESTOQUE", Ints(seq(|f.rows|, _ => 0)));
    }
  }

  /** The four column assignments that complete the merged frame. */
  method Complete(d: Frame, parse: NumberParser)
    requires d.Valid()
    modifies d
    ensures d.Valid() && d.Value() == Derive(old(d.Value()), parse)
  {
    d.Assign("ESTOQUE", CoercedValues(d.Value(), "ESTOQUE", parse));
    d.Assign("CONTAGEM", CoercedValues(d.Value(), "CONTAGEM", parse));
    d.Assign(Divergence, DivergenceValues(d.Value()));
    d.Assign(RecountColumn, RecountValues(d.Value()));
  }

  /** The changes made to the caller's frames are harmless: calling again on
      the changed frames gives the same result. */
  lemma RecallSameResult(expected: Table, counted: Table, parse: NumberParser)
    ensures Reconcile(ExpectedAfter(expected, counted), CountedAfter(counted, expected), parse)
      == Reconcile(expected, counted, parse)
    ensures Discrepancies(ExpectedAfter(expected, counted), CountedAfter(counted, expected), parse)
      == Discrepancies(expected, counted, parse)
  {
    if BothKeyed(expected, counted) {
      var e', c' := ExpectedAfter(expected, counted), CountedAfter(counted, expected);
      StockChecks(expected.columns);
      if Groupable(counted) && Joinable(expected, counted) {
        RecallJoined(expected, counted, parse);
      }
      SameChecks(expected, counted, e', c', parse);
    }
  }

  /** Two pairs of frames on which every check of calculate_discrepancies
      agrees, and that join alike when they join, give the same result. */
  lemma SameChecks(e: Table, c: Table, e': Table, c': Table, parse: NumberParser)
    requires BothKeyed(e, c) && BothKeyed(e', c') && c'.columns == c.columns
    requires Count(e'.columns, "EAN") == Count(e.columns, "EAN")
    requires Count(e'.columns, "ESTOQUE") > 1 <==> Count(e.columns, "ESTOQUE") > 1
    requires "CONTAGEM" in e'.columns <==> "CONTAGEM" in e.columns
    requires Joinable(e, c) ==> Joined(e', c', parse) == Joined(e, c, parse)
    ensures Reconcile(e', c', parse) == Reconcile(e, c, parse)
    ensures Discrepancies(e', c', parse) == Discrepancies(e, c, parse)
  {
  }

  lemma RecallJoined(expected: Table, counted: Table, parse: NumberParser)
    requires BothKeyed(expected, counted) && Groupable(counted)
    ensures Joined(Prepare(expected), TextKeys(counted), parse) == Joined(expected, counted, parse)
  {
    TextKeysPairs(counted, parse);
    PreparedKeys(expected, parse);
    PrepareIdempotent(expected, parse);
    PreparedKeys(Prepare(expected), parse);
  }
}
