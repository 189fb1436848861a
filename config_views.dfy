/** The two views of the discrepancy table in utils/config.py: the quick
    filter (apply_quick_filter, lenses Tudo / Divergências / Sobra / Falta)
    and the sign-based STATUS column (adicionar_status_visual), whose labels
    the PDF export turns back into plain text. */
module ConfigViews {
  import opened Seqs
  import opened Text
  import opened Frames
  import opened Metrics
  import opened ConfigText

  // ---------------------------------------------------------------------------
  // apply_quick_filter
  // ---------------------------------------------------------------------------

  datatype Lens = Everything | Divergent | Surplus | Shortfall

  /** The lens a mode selects; any mode other than the three names is Tudo. */
  function LensOf(mode: string): Lens {
    if mode == "Diverg\U{EA}ncias" then Divergent
    else if mode == "Sobra" then Surplus
    else if mode == "Falta" then Shortfall
    else Everything
  }

  /** The comparison of one DIVERGÊNCIA cell with 0. A missing cell is NaN:
      NaN != 0 holds, NaN > 0 and NaN < 0 do not. */
  predicate Selects(lens: Lens, c: Cell) {
    match lens
    case Everything => true
    case Divergent => !(c.Int? && c.n == 0)
    case Surplus => c.Int? && c.n > 0
    case Shortfall => c.Int? && c.n < 0
  }

  /** The cell at position j of a row (missing past its end). */
  function CellAt(row: seq<Cell>, j: nat): Cell {
    if j < |row| then row[j] else Missing
  }

  /** The rows of t that the lens keeps, in order. */
  function Kept(t: Table, lens: Lens): (r: Table)
    ensures r.columns == t.columns
    ensures IsSubsequence(r.rows, t.rows)
  {
    var j := IndexOf(t.columns, Divergence);
    var rows := Filter(t.rows, row => Selects(lens, CellAt(row, j)));
    FilterSubsequence(t.rows, row => Selects(lens, CellAt(row, j)));
    assert forall x :: x in rows ==> |x| == |t.columns|;
    TableData(t.columns, rows)
  }

  /** apply_quick_filter(df, mode) */
  function QuickFilter(df: Option<Table>, mode: string): (r: Option<Table>)
    ensures r.Some? <==> df.Some?
    ensures df.Some? ==> r.value.columns == df.value.columns && IsSubsequence(r.value.rows, df.value.rows)
    ensures (|| df.None? || df.value.rows == [] || Divergence !in df.value.columns
             || LensOf(mode) == Everything) ==> r == df
  {
    if df.None? then df
    else if df.value.rows == [] || Divergence !in df.value.columns then
      SubsequenceRefl(df.value.rows);
      df
    else if LensOf(mode) == Everything then
      SubsequenceRefl(df.value.rows);
      df
    else Some(Kept(df.value, LensOf(mode)))
  }

  /** A filtered table holds each row of the input exactly as often as the
      input does when its DIVERGÊNCIA passes the comparison, else never. */
  lemma QuickFilterCount(t: Table, mode: string, row: seq<Cell>)
    requires t.rows != [] && Divergence in t.columns
    ensures var r := QuickFilter(Some(t), mode).value;
      Count(r.rows, row) ==
        if Selects(LensOf(mode), CellAt(row, IndexOf(t.columns, Divergence))) then Count(t.rows, row) else 0
  {
    var j := IndexOf(t.columns, Divergence);
    FilterCount(t.rows, row => Selects(LensOf(mode), CellAt(row, j)), row);
  }

  /** The row of t at position i reads its DIVERGÊNCIA cell at the column's index. */
  lemma CellAtLookup(t: Table, i: nat)
    requires i < |t.rows| && Divergence in t.columns
    ensures CellAt(t.rows[i], IndexOf(t.columns, Divergence)) == Lookup(t, i, Divergence)
  {
  }

  /** On a table whose DIVERGÊNCIA cells are all integers, Sobra and Falta
      split Divergências: no row is in both, and together they hold as many
      rows as it does. */
  lemma SurplusShortfallPartition(t: Table, row: seq<Cell>)
    requires t.rows != [] && Divergence in t.columns
    requires forall i :: 0 <= i < |t.rows| ==> Lookup(t, i, Divergence).Int?
    ensures var d := QuickFilter(Some(t), "Diverg\U{EA}ncias").value;
      var s := QuickFilter(Some(t), "Sobra").value;
      var f := QuickFilter(Some(t), "Falta").value;
      && |d.rows| == |s.rows| + |f.rows|
      && Count(d.rows, row) == Count(s.rows, row) + Count(f.rows, row)
      && (Count(s.rows, row) == 0 || Count(f.rows, row) == 0)
  {
    var j := IndexOf(t.columns, Divergence);
    forall i | 0 <= i < |t.rows| ensures CellAt(t.rows[i], j).Int? {
      CellAtLookup(t, i);
    }
    FilterSplit(t.rows, row => Selects(Divergent, CellAt(row, j)),
      row => Selects(Surplus, CellAt(row, j)), row => Selects(Shortfall, CellAt(row, j)));
    QuickFilterCount(t, "Diverg\U{EA}ncias", row);
    QuickFilterCount(t, "Sobra", row);
    QuickFilterCount(t, "Falta", row);
  }

  // ---------------------------------------------------------------------------
  // adicionar_status_visual
  // ---------------------------------------------------------------------------

  const SobraStatus: string := "\U{2795} SOBRA"
  const FaltaStatus: string := "\U{2796} FALTA"
  const OkStatus: string := "\U{2705} OK"

  /** The label of one divergence: SOBRA above 0, FALTA below, OK otherwise
      (a missing value compares false both ways and so is OK). */
  function StatusLabel(c: Cell): (s: string)
    ensures s == SobraStatus <==> Selects(Surplus, c)
    ensures s == FaltaStatus <==> Selects(Shortfall, c)
    ensures s == OkStatus <==> !Selects(Surplus, c) && !Selects(Shortfall, c)
  {
    assert SobraStatus[0] != FaltaStatus[0] && SobraStatus[0] != OkStatus[0] && FaltaStatus[0] != OkStatus[0];
    if c.Int? && c.n > 0 then SobraStatus
    else if c.Int? && c.n < 0 then FaltaStatus
    else OkStatus
  }

  /** The STATUS column: from DIVERGÊNCIA, else from DIVERGENCIA, else "N/A". */
  function StatusColumn(t: Table): (c: seq<Cell>)
    ensures |c| == |t.rows|
  {
    var n := |t.rows|;
    if Divergence in t.columns then
      seq(n, i requires 0 <= i < n => Str(StatusLabel(Lookup(t, i, Divergence))))
    else if "DIVERGENCIA" in t.columns then
      seq(n, i requires 0 <= i < n => Str(StatusLabel(Lookup(t, i, "DIVERGENCIA"))))
    else seq(n, _ => Str("N/A"))
  }

  /** adicionar_status_visual(df): the STATUS column assigned in place. */
  method AddStatusColumn(df: Frame)
    requires df.Valid()
    modifies df
    ensures df.Valid() && df.Value() == AssignColumn(old(df.Value()), "STATUS", StatusColumn(old(df.Value())))
  {
    var t := df.Value();
    var labels: seq<Cell>;
    if Divergence in df.columns {
      labels := seq(|t.rows|, i requires 0 <= i < |t.rows| => Str(StatusLabel(Lookup(t, i, Divergence))));
    } else if "DIVERGENCIA" in df.columns {
      labels := seq(|t.rows|, i requires 0 <= i < |t.rows| => Str(StatusLabel(Lookup(t, i, "DIVERGENCIA"))));
    } else {
      labels := seq(|t.rows|, _ => Str("N/A"));
    }
    df.Assign("STATUS", labels);
  }

  /** Where the table has DIVERGÊNCIA, the STATUS of a row and the quick
      filter agree: SOBRA rows are the Sobra rows, FALTA rows the Falta
      rows, and on integer divergences OK rows are those Divergências drops. */
  lemma StatusMatchesFilter(t: Table, i: nat)
    requires i < |t.rows| && Divergence in t.columns
    ensures var s := StatusColumn(t)[i];
      var c := Lookup(t, i, Divergence);
      && (s == Str(SobraStatus) <==> Selects(Surplus, c))
      && (s == Str(FaltaStatus) <==> Selects(Shortfall, c))
      && (c.Int? ==> (s == Str(OkStatus) <==> !Selects(Divergent, c)))
  {
  }

  /** A missing divergence is labelled OK yet kept by Divergências. */
  lemma MissingDivergence()
    ensures StatusLabel(Missing) == OkStatus && Selects(Divergent, Missing)
  {
  }

  // ---------------------------------------------------------------------------
  // The labels in the PDF export
  // ---------------------------------------------------------------------------

  /** The symbol keys are pairwise different. */
  lemma KeysDistinct()
    ensures forall i, j :: 0 <= i < j < |Replacements| ==> Replacements[i].0 != Replacements[j].0
  {
  }

  /** ASCII text holds none of the symbols. */
  lemma AsciiHasNoSymbol(t: string)
    requires forall i :: 0 <= i < |t| ==> t[i] <= '~'
    ensures forall j :: 0 <= j < |Replacements| ==> Replacements[j].0 !in t
  {
    SymbolsNonAscii();
  }

  /** A label made of one symbol and ASCII text: the symbol is replaced,
      the text kept, and the whitespace rule changes nothing more. */
  lemma LabelNormalized(c: char, rest: string, p: nat, n: string)
    requires p < |Replacements| && Replacements[p].0 == c
    requires forall i :: 0 <= i < |rest| ==> ' ' <= rest[i] <= '~'
    requires forall i :: 0 <= i < |Replacements[p].1| ==> ' ' <= Replacements[p].1[i] <= '~'
    requires n == Replacements[p].1 + rest
    requires forall i :: 0 <= i < |n| - 1 ==> !(n[i] == ' ' && n[i + 1] == ' ')
    requires n != [] ==> n[0] != ' ' && n[|n| - 1] != ' '
    ensures Normalized([c] + rest) == n
  {
    KeysDistinct();
    AsciiHasNoSymbol(rest);
    AsciiHasNoSymbol(Replacements[p].1);
    ReplaceAllLead(c, rest, Replacements, p);
    PrintableNormal(n);
    CollapseStripNormal(n);
  }

  /** The cleaning of such a label is the prefix rule applied to the text. */
  lemma CleanLabel(c: char, rest: string, p: nat, n: string, out: string, upper: CaseMap)
    requires p < |Replacements| && Replacements[p].0 == c
    requires forall i :: 0 <= i < |rest| ==> ' ' <= rest[i] <= '~'
    requires forall i :: 0 <= i < |Replacements[p].1| ==> ' ' <= Replacements[p].1[i] <= '~'
    requires n == Replacements[p].1 + rest
    requires forall i :: 0 <= i < |n| - 1 ==> !(n[i] == ' ' && n[i + 1] == ' ')
    requires n != [] ==> n[0] != ' ' && n[|n| - 1] != ' '
    requires Canonical(n, upper) == out
    ensures CleanStatus(Some([c] + rest), upper) == out
  {
    LabelNormalized(c, rest, p, n);
  }

  lemma SobraStatusClean(s: string, rest: string, n: string, upper: CaseMap)
    requires s == SobraStatus && rest == " SOBRA" && n == "+ SOBRA"
    ensures CleanStatus(Some(s), upper) == n
  {
    SobraParts(s, rest, n);
    SobraCanonical(n, upper);
    CleanLabel('\U{2795}', rest, 4, n, n, upper);
  }

  lemma SobraParts(s: string, rest: string, n: string)
    requires s == SobraStatus && rest == " SOBRA" && n == "+ SOBRA"
    ensures s == ['\U{2795}'] + rest
    ensures Replacements[4] == ('\U{2795}', "+") && n == Replacements[4].1 + rest
    ensures forall i :: 0 <= i < |rest| ==> ' ' <= rest[i] <= '~'
    ensures forall i :: 0 <= i < |n| - 1 ==> !(n[i] == ' ' && n[i + 1] == ' ')
    ensures n[0] != ' ' && n[|n| - 1] != ' '
  {
  }

  lemma SobraCanonical(n: string, upper: CaseMap)
    requires n == "+ SOBRA"
    ensures Canonical(n, upper) == n
  {
    SobraFixed(n, upper);
    SobraNormal(n);
    NormalizedNormal(n);
  }

  lemma FaltaStatusClean(s: string, rest: string, n: string, upper: CaseMap)
    requires s == FaltaStatus && rest == " FALTA" && n == "- FALTA"
    ensures CleanStatus(Some(s), upper) == n
  {
    FaltaParts(s, rest, n);
    FaltaCanonical(n, upper);
    CleanLabel('\U{2796}', rest, 6, n, n, upper);
  }

  lemma FaltaParts(s: string, rest: string, n: string)
    requires s == FaltaStatus && rest == " FALTA" && n == "- FALTA"
    ensures s == ['\U{2796}'] + rest
    ensures Replacements[6] == ('\U{2796}', "-") && n == Replacements[6].1 + rest
    ensures forall i :: 0 <= i < |rest| ==> ' ' <= rest[i] <= '~'
    ensures forall i :: 0 <= i < |n| - 1 ==> !(n[i] == ' ' && n[i + 1] == ' ')
    ensures n[0] != ' ' && n[|n| - 1] != ' '
  {
  }

  lemma FaltaCanonical(n: string, upper: CaseMap)
    requires n == "- FALTA"
    ensures Canonical(n, upper) == n
  {
    FaltaFixed(n, upper);
    FaltaNormal(n);
    NormalizedNormal(n);
  }

  lemma OkStatusClean(s: string, rest: string, n: string, upper: CaseMap)
    requires s == OkStatus && rest == " OK" && n == "OK OK"
    ensures CleanStatus(Some(s), upper) == "OK"
  {
    OkParts(s, rest, n);
    OkCanonical(n, upper);
    CleanLabel('\U{2705}', rest, 3, n, "OK", upper);
  }

  lemma OkParts(s: string, rest: string, n: string)
    requires s == OkStatus && rest == " OK" && n == "OK OK"
    ensures s == ['\U{2705}'] + rest
    ensures Replacements[3] == ('\U{2705}', "OK") && n == Replacements[3].1 + rest
    ensures forall i :: 0 <= i < |rest| ==> ' ' <= rest[i] <= '~'
    ensures forall i :: 0 <= i < |Replacements[3].1| ==> ' ' <= Replacements[3].1[i] <= '~'
    ensures forall i :: 0 <= i < |n| - 1 ==> !(n[i] == ' ' && n[i + 1] == ' ')
    ensures n[0] != ' ' && n[|n| - 1] != ' '
  {
  }

  /** "OK OK" mentions neither SOBRA nor FALTA and becomes "OK". */
  lemma OkCanonical(n: string, upper: CaseMap)
    requires n == "OK OK"
    ensures Canonical(n, upper) == "OK"
  {
    UpperSpec(n);
    assert IsAscii(n);
    ContainsAt(n, "OK", 0);
    NotContains(n, "SOBRA", 'S');
    NotContains(n, "FALTA", 'F');
  }

  /** The STATUS label of a row comes out of the PDF cleaning as the plain
      status the export promises: + SOBRA, - FALTA or OK. */
  lemma StatusInPdf(c: Cell, upper: CaseMap)
    ensures CleanStatus(Some(StatusLabel(c)), upper) ==
      if Selects(Surplus, c) then "+ SOBRA" else if Selects(Shortfall, c) then "- FALTA" else "OK"
  {
    var s := StatusLabel(c);
    if Selects(Surplus, c) {
      SobraStatusClean(s, " SOBRA", "+ SOBRA", upper);
    } else if Selects(Shortfall, c) {
      FaltaStatusClean(s, " FALTA", "- FALTA", upper);
    } else {
      OkStatusClean(s, " OK", "OK OK", upper);
    }
  }
}
