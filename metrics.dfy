/** The totals shown above the discrepancy table (show_summary in
    utils/config.py) and the dynamic summary of rfdash.py over the rows the
    user has filtered: stock and counted totals, surplus, shortfall,
    absolute divergence, pieces to recount, accuracy and percentages.
    A row of the discrepancy table is read as a record of its four numeric
    columns. */
module Metrics {
  import opened Frames

  const Divergence: string := "DIVERG\U{CA}NCIA"
  const RecountColumn: string := "PE\U{C7}AS A SEREM RELIDAS"

  /** The numeric columns of one row: ESTOQUE, CONTAGEM, DIVERGÊNCIA and
      PEÇAS A SEREM RELIDAS. */
  datatype Rec = Rec(stock: int, counted: int, divergence: int, recount: int)

  function Max(a: int, b: int): int {
    if a >= b then a else b
  }

  function Abs(a: int): int {
    if a >= 0 then a else -a
  }

  /** The pieces to recount for one row: the larger of stock and count when
      they differ, nothing when they agree. */
  function RecountOf(stock: int, counted: int): int {
    if counted - stock != 0 then Max(stock, counted) else 0
  }

  /** A row as calculate_discrepancies produces it. */
  predicate Consistent(r: Rec) {
    r.divergence == r.counted - r.stock && r.recount == RecountOf(r.stock, r.counted)
  }

  predicate AllConsistent(rs: seq<Rec>) {
    forall i :: 0 <= i < |rs| ==> Consistent(rs[i])
  }

  /** For non-negative quantities nothing is recounted exactly when stock and
      count agree. */
  lemma RecountZeroIff(stock: int, counted: int)
    requires stock >= 0 && counted >= 0
    ensures RecountOf(stock, counted) == 0 <==> counted - stock == 0
  {
  }

  /** With a negative stock, the only case the code does not rule out, a
      divergent row can still ask for no recount. */
  lemma RecountNegativeStock()
    ensures RecountOf(-2, 0) == 0 && 0 - (-2) != 0
  {
  }

  /** A cell read as the integer pandas sums (a missing cell counts 0). */
  function IntOf(c: Cell): int {
    if c.Int? then c.n else 0
  }

  /** The rows of a discrepancy table as records. */
  function Records(t: Table): (rs: seq<Rec>)
    ensures |rs| == |t.rows|
    ensures forall i :: 0 <= i < |rs| ==> rs[i] == Rec(
      IntOf(Lookup(t, i, "ESTOQUE")), IntOf(Lookup(t, i, "CONTAGEM")),
      IntOf(Lookup(t, i, Divergence)), IntOf(Lookup(t, i, RecountColumn)))
  {
    seq(|t.rows|, i requires 0 <= i < |t.rows| => Rec(
      IntOf(Lookup(t, i, "ESTOQUE")), IntOf(Lookup(t, i, "CONTAGEM")),
      IntOf(Lookup(t, i, Divergence)), IntOf(Lookup(t, i, RecountColumn))))
  }

  // ---------------------------------------------------------------------------
  // Column sums
  // ---------------------------------------------------------------------------

  /** df["ESTOQUE"].sum() */
  function TotalStock(rs: seq<Rec>): int {
    if rs == [] then 0 else rs[0].stock + TotalStock(rs[1..])
  }

  /** df["CONTAGEM"].sum() */
  function TotalCounted(rs: seq<Rec>): int {
    if rs == [] then 0 else rs[0].counted + TotalCounted(rs[1..])
  }

  /** df["DIVERGÊNCIA"].sum() */
  function TotalDivergence(rs: seq<Rec>): int {
    if rs == [] then 0 else rs[0].divergence + TotalDivergence(rs[1..])
  }

  /** df[df["DIVERGÊNCIA"] > 0]["DIVERGÊNCIA"].sum(): the surplus. */
  function Surplus(rs: seq<Rec>): (s: int)
    ensures s >= 0
  {
    if rs == [] then 0
    else (if rs[0].divergence > 0 then rs[0].divergence else 0) + Surplus(rs[1..])
  }

  /** df[df["DIVERGÊNCIA"] < 0]["DIVERGÊNCIA"].sum(): the shortfall. */
  function Shortfall(rs: seq<Rec>): (s: int)
    ensures s <= 0
  {
    if rs == [] then 0
    else (if rs[0].divergence < 0 then rs[0].divergence else 0) + Shortfall(rs[1..])
  }

  /** df["DIVERGÊNCIA"].abs().sum() */
  function AbsDivergence(rs: seq<Rec>): (s: int)
    ensures s >= 0
  {
    if rs == [] then 0 else Abs(rs[0].divergence) + AbsDivergence(rs[1..])
  }

  /** df[df["DIVERGÊNCIA"] != 0]["PEÇAS A SEREM RELIDAS"].sum() */
  function RecountTotal(rs: seq<Rec>): int {
    if rs == [] then 0
    else (if rs[0].divergence != 0 then rs[0].recount else 0) + RecountTotal(rs[1..])
  }

  /** df["PEÇAS A SEREM RELIDAS"].sum() */
  function RecountSum(rs: seq<Rec>): int {
    if rs == [] then 0 else rs[0].recount + RecountSum(rs[1..])
  }

  /** The absolute divergence splits into surplus minus shortfall. */
  lemma {:induction false} AbsSplit(rs: seq<Rec>)
    ensures AbsDivergence(rs) == Surplus(rs) - Shortfall(rs)
  {
    if rs != [] {
      AbsSplit(rs[1..]);
    }
  }

  /** Surplus plus shortfall is the net divergence. */
  lemma {:induction false} SurplusPlusShortfall(rs: seq<Rec>)
    ensures Surplus(rs) + Shortfall(rs) == TotalDivergence(rs)
  {
    if rs != [] {
      SurplusPlusShortfall(rs[1..]);
    }
  }

  /** On rows of the discrepancy table the net divergence is total counted
      minus total expected. */
  lemma {:induction false} NetDivergence(rs: seq<Rec>)
    requires AllConsistent(rs)
    ensures TotalDivergence(rs) == TotalCounted(rs) - TotalStock(rs)
    ensures Surplus(rs) + Shortfall(rs) == TotalCounted(rs) - TotalStock(rs)
  {
    SurplusPlusShortfall(rs);
    if rs != [] {
      assert Consistent(rs[0]);
      assert AllConsistent(rs[1..]) by {
        forall i | 0 <= i < |rs[1..]| ensures Consistent(rs[1..][i]) {
          assert rs[1..][i] == rs[i + 1];
        }
      }
      NetDivergence(rs[1..]);
    }
  }

  /** Restricting the recount sum to divergent rows changes nothing, since
      agreeing rows ask for no recount. */
  lemma {:induction false} RecountOnlyDivergent(rs: seq<Rec>)
    requires AllConsistent(rs)
    ensures RecountTotal(rs) == RecountSum(rs)
  {
    if rs != [] {
      assert Consistent(rs[0]);
      assert AllConsistent(rs[1..]) by {
        forall i | 0 <= i < |rs[1..]| ensures Consistent(rs[1..][i]) {
          assert rs[1..][i] == rs[i + 1];
        }
      }
      RecountOnlyDivergent(rs[1..]);
    }
  }

  /** Rows that all agree have no absolute divergence. */
  lemma {:induction false} NoDivergenceNoAbs(rs: seq<Rec>)
    requires forall i :: 0 <= i < |rs| ==> rs[i].divergence == 0
    ensures AbsDivergence(rs) == 0
  {
    if rs != [] {
      assert forall i :: 0 <= i < |rs[1..]| ==> rs[1..][i] == rs[i + 1];
      NoDivergenceNoAbs(rs[1..]);
    }
  }

  // ---------------------------------------------------------------------------
  // Summaries
  // ---------------------------------------------------------------------------

  /** The five cards of show_summary. */
  datatype Totals = Totals(stock: int, counted: int, surplus: int, shortfall: int, absolute: int)

  /** show_summary(discrepancies) */
  function Summary(rs: seq<Rec>): (t: Totals)
    ensures t.surplus >= 0 && t.shortfall <= 0
    ensures t.absolute == t.surplus - t.shortfall
  {
    AbsSplit(rs);
    Totals(TotalStock(rs), TotalCounted(rs), Surplus(rs), Shortfall(rs), AbsDivergence(rs))
  }

  /** x / total * 100 if total != 0 else 0, in exact arithmetic. */
  function Percentage(x: int, total: int): (p: real)
    ensures total == 0 ==> p == 0.0
    ensures total != 0 ==> p * (total as real) == (x as real) * 100.0
  {
    if total != 0 then (x as real) / (total as real) * 100.0 else 0.0
  }

  /** The accuracy: (E - |divergence|) / E * 100, 0 when E is 0. */
  function Accuracy(stock: int, absolute: int): (a: real)
    ensures stock == 0 ==> a == 0.0
    ensures stock != 0 && absolute == 0 ==> a == 100.0
    ensures stock > 0 && 0 <= absolute <= stock ==> 0.0 <= a <= 100.0
    ensures stock != 0 ==> a * (stock as real) == ((stock - absolute) as real) * 100.0
  {
    if stock != 0 then
      var e := stock as real;
      var q := ((stock - absolute) as real) / e;
      assert q * e == (stock - absolute) as real;
      assert (q * 100.0) * e == (q * e) * 100.0;
      q * 100.0
    else 0.0
  }

  /** The dynamic summary of rfdash.py: the figures and their percentages of
      the expected total. */
  datatype Dynamic = Dynamic(
    stock: int, counted: int, surplus: int, shortfall: int, absolute: int, recount: int,
    accuracy: real, surplusPct: real, shortfallPct: real, absolutePct: real, recountPct: real)

  /** The block computed when the filtered table is not empty; None when it
      is, as the block is then skipped. */
  function DynamicSummary(rs: seq<Rec>): (d: Option<Dynamic>)
    ensures d.None? <==> rs == []
    ensures d.Some? ==>
      && d.value.absolute == d.value.surplus - d.value.shortfall
      && d.value.accuracy == Accuracy(d.value.stock, d.value.absolute)
      && d.value.stock == TotalStock(rs) && d.value.counted == TotalCounted(rs)
      && d.value.surplus == Surplus(rs) && d.value.shortfall == Shortfall(rs)
      && d.value.recount == RecountTotal(rs)
      && d.value.surplusPct == Percentage(d.value.surplus, d.value.stock)
      && d.value.shortfallPct == Percentage(-d.value.shortfall, d.value.stock)
      && d.value.absolutePct == Percentage(d.value.absolute, d.value.stock)
      && d.value.recountPct == Percentage(d.value.recount, d.value.stock)
  {
    AbsSplit(rs);
    if rs == [] then None
    else
      var e := TotalStock(rs);
      var s := Surplus(rs);
      var f := Shortfall(rs);
      var a := AbsDivergence(rs);
      var k := RecountTotal(rs);
      Some(Dynamic(TotalStock(rs), TotalCounted(rs), s, f, a, k,
        Accuracy(e, a), Percentage(s, e), Percentage(Abs(f), e), Percentage(a, e), Percentage(k, e)))
  }

  /** When every filtered row agrees and something was expected, the
      accuracy is exactly 100 and the recount is 0. */
  lemma PerfectInventory(rs: seq<Rec>)
    requires rs != [] && AllConsistent(rs) && TotalStock(rs) != 0
    requires forall i :: 0 <= i < |rs| ==> rs[i].divergence == 0
    ensures DynamicSummary(rs).Some? && DynamicSummary(rs).value.accuracy == 100.0
    ensures DynamicSummary(rs).value.recount == 0
  {
    NoDivergenceNoAbs(rs);
    RecountOnlyDivergent(rs);
    NoRecountWhenAgreeing(rs);
  }

  lemma {:induction false} NoRecountWhenAgreeing(rs: seq<Rec>)
    requires forall i :: 0 <= i < |rs| ==> rs[i].divergence == 0
    ensures RecountTotal(rs) == 0
  {
    if rs != [] {
      assert forall i :: 0 <= i < |rs[1..]| ==> rs[1..][i] == rs[i + 1];
      NoRecountWhenAgreeing(rs[1..]);
    }
  }
}
