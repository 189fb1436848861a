/** calculate_discrepancies, as both revisions compute it: group the counted
    rows by EAN and sum their counts, outer-join the sums with the expected
    rows on EAN, read missing or unreadable quantities as 0, and derive per
    row DIVERGÊNCIA = CONTAGEM - ESTOQUE and the pieces to recount.
    Reconcile is the value the function returns; Lines is an independent
    description of the same rows as records, and the lemmas below tie the
    two together and state what the join promises. */
module Reconciliation {
  import opened Seqs
  import opened Text
  import opened Frames
  import opened Metrics

  /** The column names involved are pairwise different. */
  lemma NamesDistinct()
    ensures "EAN" != "ESTOQUE" && "EAN" != "CONTAGEM" && "ESTOQUE" != "CONTAGEM"
    ensures Divergence != "EAN" && Divergence != "ESTOQUE" && Divergence != "CONTAGEM"
    ensures RecountColumn != "EAN" && RecountColumn != "ESTOQUE" && RecountColumn != "CONTAGEM"
    ensures RecountColumn != Divergence
  {
    assert Divergence[0] == 'D' && RecountColumn[0] == 'P';
    assert "EAN"[0] == 'E' && "ESTOQUE"[1] == 'S' && "CONTAGEM"[0] == 'C' && "EAN"[1] == 'A';
  }

  // ---------------------------------------------------------------------------
  // The steps of calculate_discrepancies
  // ---------------------------------------------------------------------------

  /** df[name].astype(str), cell by cell. */
  function AsText(t: Table, name: string): (c: seq<Cell>)
    ensures |c| == |t.rows|
    ensures forall i :: 0 <= i < |c| ==> c[i] == Str(CellToStr(Lookup(t, i, name)))
  {
    seq(|t.rows|, i requires 0 <= i < |t.rows| => Str(CellToStr(Lookup(t, i, name))))
  }

  /** A column of integer cells. */
  function Ints(xs: seq<int>): (c: seq<Cell>)
    ensures |c| == |xs|
    ensures forall i :: 0 <= i < |c| ==> c[i] == Int(xs[i])
  {
    seq(|xs|, i requires 0 <= i < |xs| => Int(xs[i]))
  }

  /** The EAN keys of the rows, as text. */
  function KeysOf(t: Table): (ks: seq<string>)
    ensures |ks| == |t.rows|
    ensures forall i :: 0 <= i < |ks| ==> ks[i] == CellToStr(Lookup(t, i, "EAN"))
  {
    seq(|t.rows|, i requires 0 <= i < |t.rows| => CellToStr(Lookup(t, i, "EAN")))
  }

  /** The counted rows as (EAN, quantity) pairs, the quantity read as an
      integer (missing or unreadable counts 0). */
  function CountedPairs(counted: Table, parse: NumberParser): (ps: seq<(string, int)>)
    ensures |ps| == |counted.rows|
    ensures forall i :: 0 <= i < |ps| ==>
      ps[i] == (CellToStr(Lookup(counted, i, "EAN")), CoerceInt(Lookup(counted, i, "CONTAGEM"), parse, 0))
  {
    seq(|counted.rows|, i requires 0 <= i < |counted.rows| =>
      (CellToStr(Lookup(counted, i, "EAN")), CoerceInt(Lookup(counted, i, "CONTAGEM"), parse, 0)))
  }

  /** counted.groupby("EAN").agg({"CONTAGEM": "sum"}) as a map. */
  function Aggregate(counted: Table, parse: NumberParser): map<string, int> {
    GroupSum(CountedPairs(counted, parse))
  }

  /** df["EAN"] = df["EAN"].astype(str) */
  function TextKeys(t: Table): (r: Table)
    requires "EAN" in t.columns
    ensures r.columns == t.columns && |r.rows| == |t.rows|
  {
    AssignColumn(t, "EAN", AsText(t, "EAN"))
  }

  /** if "ESTOQUE" not in df.columns: df["ESTOQUE"] = 0 */
  function WithStock(t: Table): (r: Table)
    ensures |r.rows| == |t.rows|
    ensures r.columns == if "ESTOQUE" in t.columns then t.columns else t.columns + ["ESTOQUE"]
  {
    if "ESTOQUE" in t.columns then t
    else AssignColumn(t, "ESTOQUE", Ints(seq(|t.rows|, _ => 0)))
  }

  /** The copy of expected that is joined: EAN as text, and a zero ESTOQUE
      column when there is none. */
  function Prepare(expected: Table): (e: Table)
    requires "EAN" in expected.columns
    ensures |e.rows| == |expected.rows|
    ensures e.columns == if "ESTOQUE" in expected.columns then expected.columns else expected.columns + ["ESTOQUE"]
  {
    WithStock(TextKeys(expected))
  }

  /** The grouped keys that no expected row has, in order of first
      appearance among the counted rows. */
  function NewKeys(expKeys: seq<string>, pairs: seq<(string, int)>): seq<string> {
    Without(Distinct(Keys(pairs)), set k | k in expKeys)
  }

  /** The summed count joined to a key: missing when the key was not counted. */
  function MatchCell(agg: map<string, int>, k: string): Cell {
    if k in agg then Int(agg[k]) else Missing
  }

  /** The expected-side cells of a row that only the counted side has: the
      key under EAN, missing everywhere else. */
  function KeyOnlyRow(cols: seq<string>, k: string): (r: seq<Cell>)
    ensures |r| == |cols|
    ensures forall j :: 0 <= j < |r| ==> r[j] == if cols[j] == "EAN" then Str(k) else Missing
  {
    seq(|cols|, j requires 0 <= j < |cols| => if cols[j] == "EAN" then Str(k) else Missing)
  }

  /** pd.merge(e, agg, on="EAN", how="outer"): every row of e extended by its
      summed count, followed by one row per new key. The grouped table holds
      one row per key, so no row of e is repeated. */
  function Merge(e: Table, agg: map<string, int>, extra: seq<string>): (m: Table)
    ensures m.columns == e.columns + ["CONTAGEM"]
    ensures |m.rows| == |e.rows| + |extra|
  {
    var w := |e.columns|;
    var matched := seq(|e.rows|, i requires 0 <= i < |e.rows| =>
      e.rows[i] + [MatchCell(agg, CellToStr(Lookup(e, i, "EAN")))]);
    var added := seq(|extra|, j requires 0 <= j < |extra| =>
      KeyOnlyRow(e.columns, extra[j]) + [MatchCell(agg, extra[j])]);
    assert forall i :: 0 <= i < |matched| ==> |matched[i]| == w + 1;
    assert forall j :: 0 <= j < |added| ==> |added[j]| == w + 1;
    TableData(e.columns + ["CONTAGEM"], matched + added)
  }

  /** pd.to_numeric(t[name], errors="coerce").fillna(0).astype(int) */
  function CoercedValues(t: Table, name: string, parse: NumberParser): (v: seq<Cell>)
    ensures |v| == |t.rows|
    ensures forall i :: 0 <= i < |v| ==> v[i] == Int(CoerceInt(Lookup(t, i, name), parse, 0))
  {
    Ints(seq(|t.rows|, i requires 0 <= i < |t.rows| => CoerceInt(Lookup(t, i, name), parse, 0)))
  }

  /** df[name] = pd.to_numeric(df[name], errors="coerce").fillna(0).astype(int) */
  function CoerceColumn(t: Table, name: string, parse: NumberParser): (r: Table)
    ensures |r.rows| == |t.rows|
    ensures r.columns == if name in t.columns then t.columns else t.columns + [name]
  {
    AssignColumn(t, name, CoercedValues(t, name, parse))
  }

  lemma CoerceColumnLookup(t: Table, name: string, parse: NumberParser, i: nat, c: string)
    requires i < |t.rows|
    ensures Lookup(CoerceColumn(t, name, parse), i, c) ==
      if c == name then Int(CoerceInt(Lookup(t, i, name), parse, 0)) else Lookup(t, i, c)
  {
    LookupAssign(t, name, CoercedValues(t, name, parse), i, c);
  }

  /** df["CONTAGEM"] - df["ESTOQUE"] */
  function DivergenceValues(t: Table): (v: seq<Cell>)
    ensures |v| == |t.rows|
    ensures forall i :: 0 <= i < |v| ==>
      v[i] == Int(IntOf(Lookup(t, i, "CONTAGEM")) - IntOf(Lookup(t, i, "ESTOQUE")))
  {
    Ints(seq(|t.rows|, i requires 0 <= i < |t.rows| =>
      IntOf(Lookup(t, i, "CONTAGEM")) - IntOf(Lookup(t, i, "ESTOQUE"))))
  }

  /** df["DIVERGÊNCIA"] = df["CONTAGEM"] - df["ESTOQUE"] */
  function DivergenceStep(t: Table): (r: Table)
    ensures |r.rows| == |t.rows|
    ensures r.columns == if Divergence in t.columns then t.columns else t.columns + [Divergence]
  {
    AssignColumn(t, Divergence, DivergenceValues(t))
  }

  lemma DivergenceStepLookup(t: Table, i: nat, c: string)
    requires i < |t.rows|
    ensures Lookup(DivergenceStep(t), i, c) == if c == Divergence
      then Int(IntOf(Lookup(t, i, "CONTAGEM")) - IntOf(Lookup(t, i, "ESTOQUE")))
      else Lookup(t, i, c)
  {
    LookupAssign(t, Divergence, DivergenceValues(t), i, c);
  }

  /** max(ESTOQUE, CONTAGEM) on rows whose DIVERGÊNCIA is not 0, else 0. */
  function RecountValues(t: Table): (v: seq<Cell>)
    ensures |v| == |t.rows|
    ensures forall i :: 0 <= i < |v| ==>
      v[i] == Int(if IntOf(Lookup(t, i, Divergence)) != 0
        then Max(IntOf(Lookup(t, i, "ESTOQUE")), IntOf(Lookup(t, i, "CONTAGEM"))) else 0)
  {
    Ints(seq(|t.rows|, i requires 0 <= i < |t.rows| =>
      if IntOf(Lookup(t, i, Divergence)) != 0
      then Max(IntOf(Lookup(t, i, "ESTOQUE")), IntOf(Lookup(t, i, "CONTAGEM"))) else 0))
  }

  /** df["PEÇAS A SEREM RELIDAS"] = df.apply(..., axis=1) */
  function RecountStep(t: Table): (r: Table)
    ensures |r.rows| == |t.rows|
    ensures r.columns == if RecountColumn in t.columns then t.columns else t.columns + [RecountColumn]
  {
    AssignColumn(t, RecountColumn, RecountValues(t))
  }

  lemma RecountStepLookup(t: Table, i: nat, c: string)
    requires i < |t.rows|
    ensures Lookup(RecountStep(t), i, c) == if c == RecountColumn
      then Int(if IntOf(Lookup(t, i, Divergence)) != 0
        then Max(IntOf(Lookup(t, i, "ESTOQUE")), IntOf(Lookup(t, i, "CONTAGEM"))) else 0)
      else Lookup(t, i, c)
  {
    LookupAssign(t, RecountColumn, RecountValues(t), i, c);
  }

  /** The derived columns: ESTOQUE and CONTAGEM read as integers with 0 for
      missing or unreadable values, then DIVERGÊNCIA and the pieces to
      recount. */
  function Derive(m: Table, parse: NumberParser): (r: Table)
    ensures |r.rows| == |m.rows|
  {
    RecountStep(DivergenceStep(CoerceColumn(CoerceColumn(m, "ESTOQUE", parse), "CONTAGEM", parse)))
  }

  /** Deriving keeps the columns and adds the four it assigns when absent. */
  lemma DeriveColumns(m: Table, parse: NumberParser)
    ensures var r := Derive(m, parse);
      && m.columns <= r.columns && |r.columns| <= |m.columns| + 4
      && "ESTOQUE" in r.columns && "CONTAGEM" in r.columns
      && Divergence in r.columns && RecountColumn in r.columns
  {
    var m1 := CoerceColumn(m, "ESTOQUE", parse);
    var m2 := CoerceColumn(m1, "CONTAGEM", parse);
    var m3 := DivergenceStep(m2);
    ChainColumns(m.columns, m1.columns, m2.columns, m3.columns, RecountStep(m3).columns);
  }

  /** Four column assignments in a row, as Derive makes them. */
  lemma ChainColumns(a: seq<string>, b: seq<string>, c: seq<string>, d: seq<string>, e: seq<string>)
    requires b == if "ESTOQUE" in a then a else a + ["ESTOQUE"]
    requires c == if "CONTAGEM" in b then b else b + ["CONTAGEM"]
    requires d == if Divergence in c then c else c + [Divergence]
    requires e == if RecountColumn in d then d else d + [RecountColumn]
    ensures a <= e && |e| <= |a| + 4
    ensures "ESTOQUE" in e && "CONTAGEM" in e && Divergence in e && RecountColumn in e
  {
    GrowColumns(a, b, "ESTOQUE");
    GrowColumns(b, c, "CONTAGEM");
    GrowColumns(c, d, Divergence);
    GrowColumns(d, e, RecountColumn);
    PrefixIn(b, e, "ESTOQUE");
    PrefixIn(c, e, "CONTAGEM");
    PrefixIn(d, e, Divergence);
  }

  /** The columns after assigning one: the old ones, then the new name when
      it was absent. */
  lemma GrowColumns(a: seq<string>, b: seq<string>, name: string)
    requires b == if name in a then a else a + [name]
    ensures a <= b && |b| <= |a| + 1 && name in b
  {
    if name !in a {
      assert b[|a|] == name;
    }
  }

  /** calculate_discrepancies(expected, counted). An empty table when either
      side lacks EAN; otherwise the errors pandas raises, in the order it
      meets them: grouping by a repeated EAN column, aggregating a missing
      CONTAGEM, merging on a repeated EAN column, converting a repeated
      ESTOQUE column, and reading CONTAGEM after the merge renamed it because
      both sides had one. */
  function Reconcile(expected: Table, counted: Table, parse: NumberParser): (r: Result<Table>)
    ensures ("EAN" !in expected.columns || "EAN" !in counted.columns) ==> r == Success(EmptyTable)
    ensures r.Failure? <==> (
      && "EAN" in expected.columns && "EAN" in counted.columns
      && (|| Count(counted.columns, "EAN") > 1 || "CONTAGEM" !in counted.columns
          || Count(expected.columns, "EAN") > 1 || Count(expected.columns, "ESTOQUE") > 1
          || "CONTAGEM" in expected.columns))
  {
    if "EAN" !in expected.columns || "EAN" !in counted.columns then Success(EmptyTable)
    else if Count(counted.columns, "EAN") > 1 then Failure(DuplicateColumn("EAN"))
    else if "CONTAGEM" !in counted.columns then Failure(KeyError("CONTAGEM"))
    else if Count(expected.columns, "EAN") > 1 then Failure(DuplicateColumn("EAN"))
    else if Count(expected.columns, "ESTOQUE") > 1 then Failure(DuplicateColumn("ESTOQUE"))
    else if "CONTAGEM" in expected.columns then Failure(KeyError("CONTAGEM"))
    else Success(Derive(Joined(expected, counted, parse), parse))
  }

  /** The merged table before the derived columns. */
  function Joined(expected: Table, counted: Table, parse: NumberParser): (m: Table)
    requires "EAN" in expected.columns
  {
    var pairs := CountedPairs(counted, parse);
    Merge(Prepare(expected), GroupSum(pairs), NewKeys(KeysOf(expected), pairs))
  }

  /** The inputs for which calculate_discrepancies joins the two tables. */
  predicate Joinable(expected: Table, counted: Table) {
    && "EAN" in expected.columns && "EAN" in counted.columns
    && Count(counted.columns, "EAN") == 1 && "CONTAGEM" in counted.columns
    && Count(expected.columns, "EAN") == 1 && Count(expected.columns, "ESTOQUE") <= 1
    && "CONTAGEM" !in expected.columns
  }

  lemma JoinableSuccess(expected: Table, counted: Table, parse: NumberParser)
    ensures Reconcile(expected, counted, parse).Success? && Reconcile(expected, counted, parse) != Success(EmptyTable)
      <== Joinable(expected, counted)
    ensures Joinable(expected, counted) <==
      (Reconcile(expected, counted, parse).Success? && "EAN" in expected.columns && "EAN" in counted.columns)
  {
    if Joinable(expected, counted) {
      ReconcileColumns(expected, counted, parse);
    }
  }

  /** The columns of a joined result: those of expected (with ESTOQUE added
      when absent), CONTAGEM, then DIVERGÊNCIA and PEÇAS A SEREM RELIDAS
      where they are not there yet. */
  lemma ReconcileColumns(expected: Table, counted: Table, parse: NumberParser)
    requires Joinable(expected, counted)
    ensures var r := Reconcile(expected, counted, parse);
      && r.Success?
      && expected.columns <= r.value.columns
      && "EAN" in r.value.columns && "ESTOQUE" in r.value.columns && "CONTAGEM" in r.value.columns
      && Divergence in r.value.columns && RecountColumn in r.value.columns
      && |r.value.columns| <= |expected.columns| + 4 + 2
  {
    var m := Joined(expected, counted, parse);
    ReconcileIs(expected, counted, parse);
    JoinedColumns(expected, counted, parse);
    DeriveColumns(m, parse);
    PrefixIn(expected.columns, Derive(m, parse).columns, "EAN");
  }

  lemma JoinedColumns(expected: Table, counted: Table, parse: NumberParser)
    requires "EAN" in expected.columns
    ensures var m := Joined(expected, counted, parse);
      expected.columns <= m.columns && |m.columns| <= |expected.columns| + 2
  {
  }

  lemma PrefixIn(a: seq<string>, b: seq<string>, x: string)
    requires a <= b && x in a
    ensures x in b
  {
    var k :| 0 <= k < |a| && a[k] == x;
    assert b[k] == x;
  }

  // ---------------------------------------------------------------------------
  // The rows as records
  // ---------------------------------------------------------------------------

  /** One row of the result: its key, expected and counted quantities. */
  datatype Line = Line(key: string, stock: int, counted: int)

  /** The expected quantity of row i: ESTOQUE read as an integer, 0 when it
      is missing, unreadable or the column is absent. */
  function ExpectedStock(expected: Table, parse: NumberParser, i: nat): int
    requires i < |expected.rows|
  {
    CoerceInt(Lookup(expected, i, "ESTOQUE"), parse, 0)
  }

  /** The reference description of the result: one line per expected row,
      in order, carrying the summed count of its key (0 when the key was not
      counted), then one line per counted key no expected row has, with
      expected quantity 0. */
  function Lines(expected: Table, counted: Table, parse: NumberParser): (ls: seq<Line>)
    ensures |ls| == |expected.rows| + |NewKeys(KeysOf(expected), CountedPairs(counted, parse))|
  {
    var pairs := CountedPairs(counted, parse);
    ExpectedLines(expected, parse, GroupSum(pairs)) + NewLines(NewKeys(KeysOf(expected), pairs), GroupSum(pairs))
  }

  /** The lines of the expected rows, in order. */
  function ExpectedLines(expected: Table, parse: NumberParser, agg: map<string, int>): (ls: seq<Line>)
    ensures |ls| == |expected.rows|
    ensures forall i :: 0 <= i < |ls| ==>
      ls[i] == Line(KeysOf(expected)[i], ExpectedStock(expected, parse, i), GetOr0(agg, KeysOf(expected)[i]))
  {
    var ks := KeysOf(expected);
    seq(|ks|, i requires 0 <= i < |ks| => Line(ks[i], ExpectedStock(expected, parse, i), GetOr0(agg, ks[i])))
  }

  /** The lines of the keys only counted, with expected quantity 0. */
  function NewLines(nk: seq<string>, agg: map<string, int>): (ls: seq<Line>)
    ensures |ls| == |nk|
    ensures forall j :: 0 <= j < |ls| ==> ls[j] == Line(nk[j], 0, GetOr0(agg, nk[j]))
  {
    seq(|nk|, j requires 0 <= j < |nk| => Line(nk[j], 0, GetOr0(agg, nk[j])))
  }

  function LineKeys(ls: seq<Line>): (ks: seq<string>)
    ensures |ks| == |ls|
    ensures forall i :: 0 <= i < |ls| ==> ks[i] == ls[i].key
  {
    seq(|ls|, i requires 0 <= i < |ls| => ls[i].key)
  }

  /** The record a line becomes in the result table. */
  function LineRecord(l: Line): (r: Rec)
    ensures Consistent(r)
  {
    Rec(l.stock, l.counted, l.counted - l.stock, RecountOf(l.stock, l.counted))
  }

  /** The records of the lines, as the result table holds them. */
  function LineRecords(ls: seq<Line>): (rs: seq<Rec>)
    ensures |rs| == |ls|
    ensures forall i :: 0 <= i < |ls| ==> rs[i] == LineRecord(ls[i])
  {
    seq(|ls|, i requires 0 <= i < |ls| => LineRecord(ls[i]))
  }

  /** The expected quantities read from the ESTOQUE column. */
  function StockColumn(expected: Table, parse: NumberParser): (xs: seq<int>)
    ensures |xs| == |expected.rows|
    ensures forall i :: 0 <= i < |xs| ==> xs[i] == ExpectedStock(expected, parse, i)
  {
    seq(|expected.rows|, i requires 0 <= i < |expected.rows| => ExpectedStock(expected, parse, i))
  }

  // ---------------------------------------------------------------------------
  // The table matches the lines
  // ---------------------------------------------------------------------------

  /** The prepared copy reads the key as text and the stock as before; an
      added ESTOQUE column reads 0, as an absent one does. */
  lemma PrepareLookup(expected: Table, parse: NumberParser, i: nat)
    requires "EAN" in expected.columns && i < |expected.rows|
    ensures Lookup(Prepare(expected), i, "EAN") == Str(KeysOf(expected)[i])
    ensures CoerceInt(Lookup(Prepare(expected), i, "ESTOQUE"), parse, 0) == ExpectedStock(expected, parse, i)
  {
    NamesDistinct();
    var texts := AsText(expected, "EAN");
    var e1 := AssignColumn(expected, "EAN", texts);
    LookupAssign(expected, "EAN", texts, i, "EAN");
    LookupAssign(expected, "EAN", texts, i, "ESTOQUE");
    if "ESTOQUE" !in e1.columns {
      var zeros := Ints(seq(|e1.rows|, _ => 0));
      LookupAssign(e1, "ESTOQUE", zeros, i, "EAN");
      LookupAssign(e1, "ESTOQUE", zeros, i, "ESTOQUE");
      assert "ESTOQUE" !in expected.columns;
    }
  }

  /** What a cell of the merged table holds. */
  lemma MergeLookup(e: Table, agg: map<string, int>, extra: seq<string>, i: nat, c: string)
    requires i < |e.rows| + |extra| && "CONTAGEM" !in e.columns
    ensures Lookup(Merge(e, agg, extra), i, c) ==
      if c == "CONTAGEM" then
        MatchCell(agg, if i < |e.rows| then CellToStr(Lookup(e, i, "EAN")) else extra[i - |e.rows|])
      else if i < |e.rows| then Lookup(e, i, c)
      else if c == "EAN" && "EAN" in e.columns then Str(extra[i - |e.rows|])
      else Missing
  {
    var m := Merge(e, agg, extra);
    var w := |e.columns|;
    IndexOfAppend(e.columns, "CONTAGEM", c);
    var j := IndexOf(m.columns, c);
    if i < |e.rows| {
      assert m.rows[i] == e.rows[i] + [MatchCell(agg, CellToStr(Lookup(e, i, "EAN")))];
    } else {
      var k := extra[i - |e.rows|];
      assert m.rows[i] == KeyOnlyRow(e.columns, k) + [MatchCell(agg, k)];
    }
  }

  /** What the derived columns of a row hold; the other columns are kept. */
  lemma DeriveLookup(m: Table, parse: NumberParser, i: nat, c: string)
    requires i < |m.rows|
    ensures var r := Derive(m, parse);
      var est := CoerceInt(Lookup(m, i, "ESTOQUE"), parse, 0);
      var cnt := CoerceInt(Lookup(m, i, "CONTAGEM"), parse, 0);
      && Lookup(r, i, "ESTOQUE") == Int(est)
      && Lookup(r, i, "CONTAGEM") == Int(cnt)
      && Lookup(r, i, Divergence) == Int(cnt - est)
      && Lookup(r, i, RecountColumn) == Int(RecountOf(est, cnt))
      && (c != "ESTOQUE" && c != "CONTAGEM" && c != Divergence && c != RecountColumn ==>
          Lookup(r, i, c) == Lookup(m, i, c))
  {
    var m2 := CoerceColumn(CoerceColumn(m, "ESTOQUE", parse), "CONTAGEM", parse);
    CoercedLookup(m, parse, i, c);
    DerivedLookup(m2, i, c);
    ComposeLookup(m, m2, Derive(m, parse), i, c,
      CoerceInt(Lookup(m, i, "ESTOQUE"), parse, 0), CoerceInt(Lookup(m, i, "CONTAGEM"), parse, 0));
  }

  /** Chains the facts of CoercedLookup and DerivedLookup. */
  lemma ComposeLookup(m: Table, m2: Table, r: Table, i: nat, c: string, est: int, cnt: int)
    requires i < |m.rows| && i < |m2.rows| && i < |r.rows|
    requires Lookup(m2, i, "ESTOQUE") == Int(est) && Lookup(m2, i, "CONTAGEM") == Int(cnt)
    requires c != "ESTOQUE" && c != "CONTAGEM" ==> Lookup(m2, i, c) == Lookup(m, i, c)
    requires Lookup(r, i, "ESTOQUE") == Lookup(m2, i, "ESTOQUE")
    requires Lookup(r, i, "CONTAGEM") == Lookup(m2, i, "CONTAGEM")
    requires Lookup(r, i, Divergence) == Int(IntOf(Lookup(m2, i, "CONTAGEM")) - IntOf(Lookup(m2, i, "ESTOQUE")))
    requires Lookup(r, i, RecountColumn) == Int(RecountOf(IntOf(Lookup(m2, i, "ESTOQUE")), IntOf(Lookup(m2, i, "CONTAGEM"))))
    requires c != Divergence && c != RecountColumn ==> Lookup(r, i, c) == Lookup(m2, i, c)
    ensures Lookup(r, i, "ESTOQUE") == Int(est) && Lookup(r, i, "CONTAGEM") == Int(cnt)
    ensures Lookup(r, i, Divergence) == Int(cnt - est)
    ensures Lookup(r, i, RecountColumn) == Int(RecountOf(est, cnt))
    ensures c != "ESTOQUE" && c != "CONTAGEM" && c != Divergence && c != RecountColumn ==>
      Lookup(r, i, c) == Lookup(m, i, c)
  {
  }

  /** The two coerced columns of a row, and the others kept. */
  lemma CoercedLookup(m: Table, parse: NumberParser, i: nat, c: string)
    requires i < |m.rows|
    ensures var m2 := CoerceColumn(CoerceColumn(m, "ESTOQUE", parse), "CONTAGEM", parse);
      && Lookup(m2, i, "ESTOQUE") == Int(CoerceInt(Lookup(m, i, "ESTOQUE"), parse, 0))
      && Lookup(m2, i, "CONTAGEM") == Int(CoerceInt(Lookup(m, i, "CONTAGEM"), parse, 0))
      && (c != "ESTOQUE" && c != "CONTAGEM" ==> Lookup(m2, i, c) == Lookup(m, i, c))
  {
    NamesDistinct();
    var m1 := CoerceColumn(m, "ESTOQUE", parse);
    CoerceColumnLookup(m, "ESTOQUE", parse, i, "ESTOQUE");
    CoerceColumnLookup(m, "ESTOQUE", parse, i, "CONTAGEM");
    CoerceColumnLookup(m, "ESTOQUE", parse, i, c);
    CoerceColumnLookup(m1, "CONTAGEM", parse, i, "ESTOQUE");
    CoerceColumnLookup(m1, "CONTAGEM", parse, i, "CONTAGEM");
    CoerceColumnLookup(m1, "CONTAGEM", parse, i, c);
  }

  /** The two computed columns of a row, and the others kept. */
  lemma DerivedLookup(m2: Table, i: nat, c: string)
    requires i < |m2.rows|
    ensures var r := RecountStep(DivergenceStep(m2));
      var est := IntOf(Lookup(m2, i, "ESTOQUE"));
      var cnt := IntOf(Lookup(m2, i, "CONTAGEM"));
      && Lookup(r, i, "ESTOQUE") == Lookup(m2, i, "ESTOQUE")
      && Lookup(r, i, "CONTAGEM") == Lookup(m2, i, "CONTAGEM")
      && Lookup(r, i, Divergence) == Int(cnt - est)
      && Lookup(r, i, RecountColumn) == Int(RecountOf(est, cnt))
      && (c != Divergence && c != RecountColumn ==> Lookup(r, i, c) == Lookup(m2, i, c))
  {
    NamesDistinct();
    var m3 := DivergenceStep(m2);
    DivergenceStepLookup(m2, i, "ESTOQUE");
    DivergenceStepLookup(m2, i, "CONTAGEM");
    DivergenceStepLookup(m2, i, Divergence);
    DivergenceStepLookup(m2, i, c);
    RecountStepLookup(m3, i, "ESTOQUE");
    RecountStepLookup(m3, i, "CONTAGEM");
    RecountStepLookup(m3, i, Divergence);
    RecountStepLookup(m3, i, RecountColumn);
    RecountStepLookup(m3, i, c);
    ChainDerived(m2, m3, RecountStep(m3), i, c);
  }

  /** Chains the facts of DivergenceStepLookup and RecountStepLookup. */
  lemma ChainDerived(m2: Table, m3: Table, r: Table, i: nat, c: string)
    requires i < |m2.rows| && i < |m3.rows| && i < |r.rows|
    requires Lookup(m3, i, "ESTOQUE") == Lookup(m2, i, "ESTOQUE")
    requires Lookup(m3, i, "CONTAGEM") == Lookup(m2, i, "CONTAGEM")
    requires Lookup(m3, i, Divergence) == Int(IntOf(Lookup(m2, i, "CONTAGEM")) - IntOf(Lookup(m2, i, "ESTOQUE")))
    requires c != Divergence ==> Lookup(m3, i, c) == Lookup(m2, i, c)
    requires Lookup(r, i, "ESTOQUE") == Lookup(m3, i, "ESTOQUE")
    requires Lookup(r, i, "CONTAGEM") == Lookup(m3, i, "CONTAGEM")
    requires Lookup(r, i, Divergence) == Lookup(m3, i, Divergence)
    requires Lookup(r, i, RecountColumn) == Int(if IntOf(Lookup(m3, i, Divergence)) != 0
      then Max(IntOf(Lookup(m3, i, "ESTOQUE")), IntOf(Lookup(m3, i, "CONTAGEM"))) else 0)
    requires c != RecountColumn ==> Lookup(r, i, c) == Lookup(m3, i, c)
    ensures var est := IntOf(Lookup(m2, i, "ESTOQUE"));
      var cnt := IntOf(Lookup(m2, i, "CONTAGEM"));
      && Lookup(r, i, "ESTOQUE") == Lookup(m2, i, "ESTOQUE")
      && Lookup(r, i, "CONTAGEM") == Lookup(m2, i, "CONTAGEM")
      && Lookup(r, i, Divergence) == Int(cnt - est)
      && Lookup(r, i, RecountColumn) == Int(RecountOf(est, cnt))
      && (c != Divergence && c != RecountColumn ==> Lookup(r, i, c) == Lookup(m2, i, c))
  {
  }

  /** Row i of the merged table carries line i's key and, once coerced,
      its expected and counted quantities. */
  lemma JoinedLookup(expected: Table, agg: map<string, int>, nk: seq<string>, parse: NumberParser,
                     i: nat, m: Table, el: seq<Line>, nl: seq<Line>)
    requires "EAN" in expected.columns && Count(expected.columns, "ESTOQUE") <= 1
    requires "CONTAGEM" !in expected.columns
    requires m == Merge(Prepare(expected), agg, nk)
    requires el == ExpectedLines(expected, parse, agg) && nl == NewLines(nk, agg)
    requires i < |el| + |nl|
    ensures i < |m.rows|
    ensures Lookup(m, i, "EAN") == Str((el + nl)[i].key)
    ensures CoerceInt(Lookup(m, i, "ESTOQUE"), parse, 0) == (el + nl)[i].stock
    ensures CoerceInt(Lookup(m, i, "CONTAGEM"), parse, 0) == (el + nl)[i].counted
  {
    ConcatAt(el, nl, i);
    if i < |el| {
      JoinedLookupExpected(expected, agg, nk, parse, i, m, el[i]);
    } else {
      JoinedLookupNew(expected, agg, nk, parse, i, m, nl[i - |el|]);
    }
  }

  /** A merged row of an expected line. */
  lemma JoinedLookupExpected(expected: Table, agg: map<string, int>, nk: seq<string>, parse: NumberParser,
                             i: nat, m: Table, l: Line)
    requires "EAN" in expected.columns && Count(expected.columns, "ESTOQUE") <= 1
    requires "CONTAGEM" !in expected.columns && i < |expected.rows|
    requires m == Merge(Prepare(expected), agg, nk) && l == ExpectedLines(expected, parse, agg)[i]
    ensures i < |m.rows|
    ensures Lookup(m, i, "EAN") == Str(l.key)
    ensures CoerceInt(Lookup(m, i, "ESTOQUE"), parse, 0) == l.stock
    ensures CoerceInt(Lookup(m, i, "CONTAGEM"), parse, 0) == l.counted
  {
    NamesDistinct();
    var e := Prepare(expected);
    assert "CONTAGEM" !in e.columns;
    MergeLookup(e, agg, nk, i, "EAN");
    MergeLookup(e, agg, nk, i, "ESTOQUE");
    MergeLookup(e, agg, nk, i, "CONTAGEM");
    PrepareLookup(expected, parse, i);
  }

  /** A merged row of a key only the counted side has. */
  lemma JoinedLookupNew(expected: Table, agg: map<string, int>, nk: seq<string>, parse: NumberParser,
                        i: nat, m: Table, l: Line)
    requires "EAN" in expected.columns && "CONTAGEM" !in expected.columns
    requires |expected.rows| <= i < |expected.rows| + |nk|
    requires m == Merge(Prepare(expected), agg, nk) && l == NewLines(nk, agg)[i - |expected.rows|]
    ensures i < |m.rows|
    ensures Lookup(m, i, "EAN") == Str(l.key)
    ensures CoerceInt(Lookup(m, i, "ESTOQUE"), parse, 0) == l.stock
    ensures CoerceInt(Lookup(m, i, "CONTAGEM"), parse, 0) == l.counted
  {
    NamesDistinct();
    var e := Prepare(expected);
    assert "CONTAGEM" !in e.columns;
    MergeLookup(e, agg, nk, i, "EAN");
    MergeLookup(e, agg, nk, i, "ESTOQUE");
    MergeLookup(e, agg, nk, i, "CONTAGEM");
  }

  lemma ReconcileIs(expected: Table, counted: Table, parse: NumberParser)
    requires Joinable(expected, counted)
    ensures Reconcile(expected, counted, parse) == Success(Derive(Joined(expected, counted, parse), parse))
  {
  }

  /** A merged table whose rows carry the lines' quantities derives the
      lines' records. */
  lemma DeriveRecords(m: Table, parse: NumberParser, ls: seq<Line>)
    requires |m.rows| == |ls|
    requires forall i :: 0 <= i < |ls| ==>
      && CoerceInt(Lookup(m, i, "ESTOQUE"), parse, 0) == ls[i].stock
      && CoerceInt(Lookup(m, i, "CONTAGEM"), parse, 0) == ls[i].counted
    ensures Records(Derive(m, parse)) == LineRecords(ls)
  {
    var r := Derive(m, parse);
    forall i | 0 <= i < |ls| ensures Records(r)[i] == LineRecords(ls)[i] {
      RowRecord(m, parse, i, ls[i]);
    }
  }

  lemma RowRecord(m: Table, parse: NumberParser, i: nat, l: Line)
    requires i < |m.rows|
    requires CoerceInt(Lookup(m, i, "ESTOQUE"), parse, 0) == l.stock
    requires CoerceInt(Lookup(m, i, "CONTAGEM"), parse, 0) == l.counted
    ensures i < |Records(Derive(m, parse))|
    ensures Records(Derive(m, parse))[i] == LineRecord(l)
  {
    DeriveLookup(m, parse, i, "EAN");
    RecordOf(Derive(m, parse), i, l);
  }

  /** A row whose four numeric cells hold a line's figures reads as that
      line's record. */
  lemma RecordOf(t: Table, i: nat, l: Line)
    requires i < |t.rows|
    requires Lookup(t, i, "ESTOQUE") == Int(l.stock) && Lookup(t, i, "CONTAGEM") == Int(l.counted)
    requires Lookup(t, i, Divergence) == Int(l.counted - l.stock)
    requires Lookup(t, i, RecountColumn) == Int(RecountOf(l.stock, l.counted))
    ensures Records(t)[i] == LineRecord(l)
  {
  }

  /** Deriving keeps the EAN column. */
  lemma DeriveKeys(m: Table, parse: NumberParser, ls: seq<Line>)
    requires |m.rows| == |ls|
    requires forall i :: 0 <= i < |ls| ==> Lookup(m, i, "EAN") == Str(ls[i].key)
    ensures forall i :: 0 <= i < |ls| ==> Lookup(Derive(m, parse), i, "EAN") == Str(ls[i].key)
  {
    forall i | 0 <= i < |ls| ensures Lookup(Derive(m, parse), i, "EAN") == Str(ls[i].key) {
      DeriveLookup(m, parse, i, "EAN");
      NamesDistinct();
    }
  }

  /** The merged table, row by row, is the lines. */
  lemma JoinedRows(expected: Table, counted: Table, parse: NumberParser)
    requires Joinable(expected, counted)
    ensures var m := Joined(expected, counted, parse);
      var ls := Lines(expected, counted, parse);
      && |m.rows| == |ls|
      && (forall i :: 0 <= i < |ls| ==>
        && Lookup(m, i, "EAN") == Str(ls[i].key)
        && CoerceInt(Lookup(m, i, "ESTOQUE"), parse, 0) == ls[i].stock
        && CoerceInt(Lookup(m, i, "CONTAGEM"), parse, 0) == ls[i].counted)
  {
    var pairs := CountedPairs(counted, parse);
    var agg := GroupSum(pairs);
    var nk := NewKeys(KeysOf(expected), pairs);
    var m := Joined(expected, counted, parse);
    var ls := Lines(expected, counted, parse);
    var el, nl := ExpectedLines(expected, parse, agg), NewLines(nk, agg);
    assert ls == el + nl;
    forall i | 0 <= i < |ls|
      ensures && i < |m.rows|
        && Lookup(m, i, "EAN") == Str(ls[i].key)
        && CoerceInt(Lookup(m, i, "ESTOQUE"), parse, 0) == ls[i].stock
        && CoerceInt(Lookup(m, i, "CONTAGEM"), parse, 0) == ls[i].counted
    {
      JoinedLookup(expected, agg, nk, parse, i, m, el, nl);
    }
  }

  /** The result, read as records, is the lines' records; in particular
      every row has DIVERGÊNCIA = CONTAGEM - ESTOQUE and the recount rule. */
  lemma ReconcileRecords(expected: Table, counted: Table, parse: NumberParser)
    requires Joinable(expected, counted)
    ensures Reconcile(expected, counted, parse).Success?
    ensures Records(Reconcile(expected, counted, parse).value) == LineRecords(Lines(expected, counted, parse))
    ensures AllConsistent(Records(Reconcile(expected, counted, parse).value))
  {
    ReconcileIs(expected, counted, parse);
    JoinedRows(expected, counted, parse);
    DeriveRecords(Joined(expected, counted, parse), parse, Lines(expected, counted, parse));
  }

  /** Row i of the result has line i's key under EAN. */
  lemma ReconcileKeys(expected: Table, counted: Table, parse: NumberParser)
    requires Joinable(expected, counted)
    ensures var r := Reconcile(expected, counted, parse);
      var ls := Lines(expected, counted, parse);
      && r.Success? && |r.value.rows| == |ls|
      && forall i :: 0 <= i < |ls| ==> Lookup(r.value, i, "EAN") == Str(ls[i].key)
  {
    ReconcileIs(expected, counted, parse);
    JoinedRows(expected, counted, parse);
    DeriveKeys(Joined(expected, counted, parse), parse, Lines(expected, counted, parse));
  }

  // ---------------------------------------------------------------------------
  // What the join promises
  // ---------------------------------------------------------------------------

  /** The key column of the lines: the expected keys, then the new ones. */
  lemma LineKeysSplit(expected: Table, counted: Table, parse: NumberParser)
    ensures LineKeys(Lines(expected, counted, parse)) ==
      KeysOf(expected) + NewKeys(KeysOf(expected), CountedPairs(counted, parse))
  {
    var pairs := CountedPairs(counted, parse);
    var agg := GroupSum(pairs);
    var a := ExpectedLines(expected, parse, agg);
    var b := NewLines(NewKeys(KeysOf(expected), pairs), agg);
    LineKeysAppend(a, b);
    assert LineKeys(a) == KeysOf(expected);
    assert LineKeys(b) == NewKeys(KeysOf(expected), pairs);
  }

  lemma LineKeysAppend(a: seq<Line>, b: seq<Line>)
    ensures LineKeys(a + b) == LineKeys(a) + LineKeys(b)
  {
    assert forall i :: 0 <= i < |a + b| ==> LineKeys(a + b)[i] == (LineKeys(a) + LineKeys(b))[i];
  }

  /** Every line carries the summed count of its key, 0 for a key nobody
      counted. */
  lemma LinesCounted(expected: Table, counted: Table, parse: NumberParser)
    ensures var ls := Lines(expected, counted, parse);
      forall i :: 0 <= i < |ls| ==> ls[i].counted == GetOr0(Aggregate(counted, parse), ls[i].key)
  {
  }

  /** A key occurs in the result as often as among the expected rows, plus
      once more when it was counted but not expected: no expected row is
      dropped or repeated, and every counted key appears. */
  lemma KeyOccurrences(expected: Table, counted: Table, parse: NumberParser, k: string)
    ensures Count(LineKeys(Lines(expected, counted, parse)), k) ==
      Count(KeysOf(expected), k)
      + (if k in Aggregate(counted, parse) && k !in KeysOf(expected) then 1 else 0)
  {
    var ks := KeysOf(expected);
    var pairs := CountedPairs(counted, parse);
    var nk := NewKeys(ks, pairs);
    LineKeysSplit(expected, counted, parse);
    CountAppend(ks, nk, k);
    CountNoDuplicates(nk, k);
  }

  /** A key is in the result exactly when some expected or counted row has it. */
  lemma ResultKeys(expected: Table, counted: Table, parse: NumberParser, k: string)
    ensures k in LineKeys(Lines(expected, counted, parse)) <==>
      k in KeysOf(expected) || k in Keys(CountedPairs(counted, parse))
  {
    KeyOccurrences(expected, counted, parse, k);
  }

  /** Unique expected keys stay unique in the result. */
  lemma UniqueKeys(expected: Table, counted: Table, parse: NumberParser)
    requires NoDuplicates(KeysOf(expected))
    ensures NoDuplicates(LineKeys(Lines(expected, counted, parse)))
  {
    var ks := KeysOf(expected);
    var nk := NewKeys(ks, CountedPairs(counted, parse));
    LineKeysSplit(expected, counted, parse);
    NoDuplicatesAppend(ks, nk);
  }

  lemma {:induction false} TotalCountedKeys(rs: seq<Rec>, ks: seq<string>, agg: map<string, int>)
    requires |rs| == |ks|
    requires forall i :: 0 <= i < |rs| ==> rs[i].counted == GetOr0(agg, ks[i])
    ensures TotalCounted(rs) == SumKeys(ks, agg)
  {
    if rs != [] {
      assert forall i :: 0 <= i < |rs[1..]| ==> rs[1..][i] == rs[i + 1] && ks[1..][i] == ks[i + 1];
      TotalCountedKeys(rs[1..], ks[1..], agg);
    }
  }

  lemma {:induction false} TotalStockIs(rs: seq<Rec>, xs: seq<int>)
    requires |rs| == |xs|
    requires forall i :: 0 <= i < |rs| ==> rs[i].stock == xs[i]
    ensures TotalStock(rs) == Sum(xs)
  {
    if rs != [] {
      assert forall i :: 0 <= i < |rs[1..]| ==> rs[1..][i] == rs[i + 1] && xs[1..][i] == xs[i + 1];
      TotalStockIs(rs[1..], xs[1..]);
    }
  }

  /** The distinct expected keys and the new keys together list every
      counted key once, so their summed counts are everything counted. */
  lemma EveryCountOnce(expected: Table, counted: Table, parse: NumberParser)
    ensures var ks := KeysOf(expected);
      var pairs := CountedPairs(counted, parse);
      SumKeys(Distinct(ks), GroupSum(pairs)) + SumKeys(NewKeys(ks, pairs), GroupSum(pairs))
        == Sum(Quantities(pairs))
  {
    var ks := KeysOf(expected);
    var pairs := CountedPairs(counted, parse);
    var nk := NewKeys(ks, pairs);
    NoDuplicatesAppend(Distinct(ks), nk);
    GroupSumTotal(pairs, Distinct(ks) + nk);
    SumKeysAppend(Distinct(ks), nk, GroupSum(pairs));
  }

  /** CONTAGEM.sum() of the result: everything counted, plus the count of
      each expected key once more for every extra expected row with that key. */
  lemma CountedTotal(expected: Table, counted: Table, parse: NumberParser)
    requires Joinable(expected, counted)
    ensures Reconcile(expected, counted, parse).Success?
    ensures var ks := KeysOf(expected);
      var pairs := CountedPairs(counted, parse);
      TotalCounted(Records(Reconcile(expected, counted, parse).value)) + SumKeys(Distinct(ks), GroupSum(pairs))
        == Sum(Quantities(pairs)) + SumKeys(ks, GroupSum(pairs))
  {
    var ks := KeysOf(expected);
    var pairs := CountedPairs(counted, parse);
    var ls := Lines(expected, counted, parse);
    ReconcileRecords(expected, counted, parse);
    LinesCounted(expected, counted, parse);
    TotalCountedKeys(LineRecords(ls), LineKeys(ls), GroupSum(pairs));
    LineKeysSplit(expected, counted, parse);
    SumKeysAppend(ks, NewKeys(ks, pairs), GroupSum(pairs));
    EveryCountOnce(expected, counted, parse);
  }

  /** With unique expected keys nothing counted is lost or counted twice:
      CONTAGEM.sum() of the result is the sum of the counted quantities. */
  lemma CountedConserved(expected: Table, counted: Table, parse: NumberParser)
    requires Joinable(expected, counted) && NoDuplicates(KeysOf(expected))
    ensures Reconcile(expected, counted, parse).Success?
    ensures TotalCounted(Records(Reconcile(expected, counted, parse).value))
      == Sum(Quantities(CountedPairs(counted, parse)))
  {
    CountedTotal(expected, counted, parse);
    SumKeysDistinct(KeysOf(expected), GroupSum(CountedPairs(counted, parse)));
  }

  /** ESTOQUE.sum() of the result is the expected total: rows only counted
      add 0. */
  lemma StockTotal(expected: Table, counted: Table, parse: NumberParser)
    requires Joinable(expected, counted)
    ensures Reconcile(expected, counted, parse).Success?
    ensures TotalStock(Records(Reconcile(expected, counted, parse).value)) == Sum(StockColumn(expected, parse))
  {
    ReconcileRecords(expected, counted, parse);
    LinesStock(expected, counted, parse);
  }

  lemma LinesStock(expected: Table, counted: Table, parse: NumberParser)
    ensures TotalStock(LineRecords(Lines(expected, counted, parse))) == Sum(StockColumn(expected, parse))
  {
    var pairs := CountedPairs(counted, parse);
    var agg := GroupSum(pairs);
    LineRecordsStock(ExpectedLines(expected, parse, agg), NewLines(NewKeys(KeysOf(expected), pairs), agg),
      StockColumn(expected, parse));
  }

  /** The stock of expected lines followed by only-counted lines sums to
      the expected stock. */
  lemma LineRecordsStock(a: seq<Line>, b: seq<Line>, st: seq<int>)
    requires |a| == |st| && forall i :: 0 <= i < |a| ==> a[i].stock == st[i]
    requires forall j :: 0 <= j < |b| ==> b[j].stock == 0
    ensures TotalStock(LineRecords(a + b)) == Sum(st)
  {
    var zeros := seq(|b|, _ => 0);
    var ls := a + b;
    forall i | 0 <= i < |ls| ensures LineRecords(ls)[i].stock == (st + zeros)[i] {
      if i < |a| {
        assert ls[i] == a[i];
      } else {
        assert ls[i] == b[i - |a|];
      }
    }
    TotalStockIs(LineRecords(ls), st + zeros);
    SumAppend(st, zeros);
    SumZero(zeros);
  }

  /** With unique expected keys, DIVERGÊNCIA.sum() of the result is
      everything counted minus everything expected. */
  lemma NetDivergenceConserved(expected: Table, counted: Table, parse: NumberParser)
    requires Joinable(expected, counted) && NoDuplicates(KeysOf(expected))
    ensures Reconcile(expected, counted, parse).Success?
    ensures TotalDivergence(Records(Reconcile(expected, counted, parse).value))
      == Sum(Quantities(CountedPairs(counted, parse))) - Sum(StockColumn(expected, parse))
  {
    ReconcileRecords(expected, counted, parse);
    CountedConserved(expected, counted, parse);
    StockTotal(expected, counted, parse);
    NetDivergence(Records(Reconcile(expected, counted, parse).value));
  }

  /** Rows of the same expected key all carry that key's full count. */
  lemma RepeatedKeyCounts(expected: Table, counted: Table, parse: NumberParser, a: nat, b: nat)
    requires a < b < |expected.rows| && KeysOf(expected)[a] == KeysOf(expected)[b]
    ensures var ls := Lines(expected, counted, parse);
      && ls[a].counted == ls[b].counted == GetOr0(Aggregate(counted, parse), KeysOf(expected)[a])
  {
  }
}
