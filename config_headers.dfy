/** Column-name handling of utils/config.py: normalising header names,
    suggesting which expected-stock columns hold the EAN and the stock
    quantity, and renaming the chosen columns to EAN and ESTOQUE. */
module ConfigHeaders {
  import opened Seqs
  import opened Text
  import opened Frames

  /** The ASCII characters the regular-expression class \w matches. */
  predicate IsWordChar(c: char) {
    'A' <= c <= 'Z' || 'a' <= c <= 'z' || '0' <= c <= '9' || c == '_'
  }

  predicate NotWordChar(c: char) {
    !IsWordChar(c)
  }

  predicate IsUnderscore(c: char) {
    c == '_'
  }

  predicate IsHeaderChar(c: char) {
    'A' <= c <= 'Z' || '0' <= c <= '9' || c == '_'
  }

  /** The shape of every normalised header name: upper-case ASCII letters,
      digits and single underscores, with no underscore at either end. */
  predicate IsCanonical(s: string) {
    && (forall i :: 0 <= i < |s| ==> IsHeaderChar(s[i]))
    && (forall i :: 0 <= i < |s| - 1 ==> !(s[i] == '_' && s[i + 1] == '_'))
    && (s != [] ==> s[0] != '_' && s[|s| - 1] != '_')
  }

  /** One header through normalize_column_names: transliterate, strip,
      upper-case, turn each run of non-word characters into "_", collapse
      runs of "_" and strip "_" from both ends. */
  function NormalizeHeader(col: string, u: Transliterator): (r: string)
    ensures IsCanonical(r)
  {
    NormalizePipelineCanonical(col, u);
    StripChars(CollapseRuns(CollapseRuns(Upper(Strip(u(col))), NotWordChar, '_'), IsUnderscore, '_'), {'_'})
  }

  lemma NormalizePipelineCanonical(col: string, u: Transliterator)
    ensures IsCanonical(StripChars(CollapseRuns(CollapseRuns(Upper(Strip(u(col))), NotWordChar, '_'), IsUnderscore, '_'), {'_'}))
  {
    var b := Strip(u(col));
    StripAscii(u(col));
    var d := CollapseRuns(Upper(b), NotWordChar, '_');
    WordRunsHeaderChars(b);
    UnderscoreStepCanonical(d);
  }

  predicate AllHeaderChars(s: string) {
    forall i :: 0 <= i < |s| ==> IsHeaderChar(s[i])
  }

  lemma StripAscii(a: string)
    requires IsAscii(a)
    ensures IsAscii(Strip(a))
  {
    StripCharsMembers(a, Whitespace);
  }

  lemma WordRunsHeaderChars(b: string)
    requires IsAscii(b)
    ensures AllHeaderChars(CollapseRuns(Upper(b), NotWordChar, '_'))
  {
    var c := Upper(b);
    var d := CollapseRuns(c, NotWordChar, '_');
    UpperSpec(b);
    CollapseRunsSpec(c, NotWordChar, '_');
    assert forall i :: 0 <= i < |d| ==> d[i] == '_' || (d[i] in c && IsWordChar(d[i]));
    assert forall x :: x in c ==> x <= '\U{7F}' && !IsLowerAscii(x);
  }

  lemma UnderscoreStepCanonical(d: string)
    requires AllHeaderChars(d)
    ensures IsCanonical(StripChars(CollapseRuns(d, IsUnderscore, '_'), {'_'}))
  {
    var e := CollapseRuns(d, IsUnderscore, '_');
    var r := StripChars(e, {'_'});
    StripCharsSpec(e, {'_'});
    SliceRuns(d, IsUnderscore, '_', LeadingCount(e, {'_'}), r);
    assert forall x :: x in d ==> IsHeaderChar(x);
  }

  /** Normalising is idempotent: a canonical name is its own normal form. */
  lemma NormalizeCanonical(s: string, u: Transliterator)
    requires IsCanonical(s)
    ensures NormalizeHeader(s, u) == s
  {
    assert IsAscii(s);
    assert u(s) == s;
    StripCharsNoop(s, Whitespace);
    assert Strip(s) == s;
    UpperSpec(s);
    assert Upper(s) == s;
    CollapseRunsFixpoint(s, NotWordChar, '_');
    CollapseRunsFixpoint(s, IsUnderscore, '_');
    StripCharsNoop(s, {'_'});
  }

  lemma NormalizeIdempotent(s: string, u: Transliterator)
    ensures NormalizeHeader(NormalizeHeader(s, u), u) == NormalizeHeader(s, u)
  {
    NormalizeCanonical(NormalizeHeader(s, u), u);
  }

  /** The normal form of one entry of a header list; a missing (None) name
      stays missing. */
  function NormalizeEntry(c: Option<string>, u: Transliterator): (r: Option<string>)
    ensures r.None? == c.None?
    ensures r.Some? ==> IsCanonical(r.value)
  {
    if c.None? then None else Some(NormalizeHeader(c.value, u))
  }

  /** normalize_column_names: every name of the header list normalised, in
      place. */
  method NormalizeColumnNames(cols: seq<Option<string>>, u: Transliterator) returns (out: seq<Option<string>>)
    ensures |out| == |cols|
    ensures forall i :: 0 <= i < |out| ==> out[i] == NormalizeEntry(cols[i], u)
  {
    out := [];
    for i := 0 to |cols|
      invariant |out| == i
      invariant forall k :: 0 <= k < i ==> out[k] == NormalizeEntry(cols[k], u)
    {
      var entry: Option<string>;
      if cols[i].None? {
        entry := None;
      } else {
        entry := Some(NormalizeHeader(cols[i].value, u));
      }
      EntryAppended(out, cols, u, entry);
      out := out + [entry];
    }
  }

  /** One step of the loop of NormalizeColumnNames. */
  lemma EntryAppended(out: seq<Option<string>>, cols: seq<Option<string>>, u: Transliterator, entry: Option<string>)
    requires |out| < |cols| && entry == NormalizeEntry(cols[|out|], u)
    requires forall k :: 0 <= k < |out| ==> out[k] == NormalizeEntry(cols[k], u)
    ensures forall k :: 0 <= k < |out| + 1 ==> (out + [entry])[k] == NormalizeEntry(cols[k], u)
  {
  }

  /** Header names, after normalisation, that designate the EAN column. */
  const EanCandidates: set<string> := {
    "EAN", "CODBARRAS", "COD_BARRAS", "CODIGO_DE_BARRAS", "C\U{D3}DIGO_DE_BARRAS",
    "GTIN", "SKU", "BARCODE", "CODBARRA", "COD_DE_BARRAS"
  }

  /** Header names, after normalisation, that designate the stock quantity. */
  const EstoqueCandidates: set<string> := {
    "ESTOQUE", "QTD", "QTDE", "QUANTIDADE", "QTD_ESTOQUE", "QTD_ATUAL",
    "SALDO", "DISPONIVEL", "DISPON\U{CD}VEL", "QTY", "ON_HAND"
  }

  /** The values of to_norm = dict(zip(columns, norm)): one normalised name
      per distinct original name, in order of first appearance. The
      normaliser is a parameter: everything up to SuggestSpec holds for any. */
  function NormValues(cols: seq<string>, norm: string -> string): (vs: seq<string>)
    ensures |vs| == |Distinct(cols)|
    ensures forall i :: 0 <= i < |vs| ==> vs[i] == norm(Distinct(cols)[i])
    ensures forall n :: n in vs <==> exists c :: c in cols && norm(c) == n
  {
    var d := Distinct(cols);
    var vs := seq(|d|, i requires 0 <= i < |d| => norm(d[i]));
    ImageMembers(d, cols, norm, vs);
    vs
  }

  /** The names in the image of d under norm, when d has the elements of cols. */
  lemma ImageMembers(d: seq<string>, cols: seq<string>, norm: string -> string, vs: seq<string>)
    requires forall x :: x in d <==> x in cols
    requires |vs| == |d| && forall i :: 0 <= i < |vs| ==> vs[i] == norm(d[i])
    ensures forall n :: n in vs <==> exists c :: c in cols && norm(c) == n
  {
    forall n ensures n in vs <==> exists c :: c in cols && norm(c) == n {
      if n in vs {
        var i :| 0 <= i < |vs| && vs[i] == n;
        assert d[i] in cols;
      }
      if exists c :: c in cols && norm(c) == n {
        var c :| c in cols && norm(c) == n;
        assert c in d;
        var i :| 0 <= i < |d| && d[i] == c;
        assert vs[i] == n;
      }
    }
  }

  /** to_orig[n] for to_orig = dict(zip(norm, columns)): the last original
      name whose normal form is n (later duplicates overwrite earlier ones);
      None when no name has that normal form (a KeyError in Python). */
  function ToOrig(cols: seq<string>, n: string, norm: string -> string): (r: Option<string>)
    ensures r.Some? ==> r.value in cols && norm(r.value) == n
    ensures r.None? <==> forall c :: c in cols ==> norm(c) != n
    ensures r.Some? ==> exists k :: (
      && 0 <= k < |cols| && cols[k] == r.value
      && forall j :: k < j < |cols| ==> norm(cols[j]) != n)
  {
    if cols == [] then None
    else if norm(cols[|cols| - 1]) == n then
      assert cols[|cols| - 1] == cols[|cols| - 1];
      Some(cols[|cols| - 1])
    else
      var p := cols[..|cols| - 1];
      var r := ToOrig(p, n, norm);
      assert forall c :: c in cols ==> c in p || c == cols[|cols| - 1] by {
        assert cols == p + [cols[|cols| - 1]];
      }
      assert r.Some? ==> exists k :: (
        && 0 <= k < |cols| && cols[k] == r.value
        && forall j :: k < j < |cols| ==> norm(cols[j]) != n)
      by {
        if r.Some? {
          var k :| 0 <= k < |p| && p[k] == r.value && forall j :: k < j < |p| ==> norm(p[j]) != n;
          assert cols[k] == r.value;
          assert forall j :: k < j < |cols| ==> norm(cols[j]) != n by {
            forall j | k < j < |cols| ensures norm(cols[j]) != n {
              if j < |p| { assert cols[j] == p[j]; }
            }
          }
        }
      }
      r
  }

  /** The first element of s that belongs to cands. */
  function FirstIn(s: seq<string>, cands: set<string>): (r: Option<string>)
    ensures r.Some? ==> r.value in s && r.value in cands
    ensures r.None? <==> forall x :: x in s ==> x !in cands
    ensures r.Some? ==> forall j :: 0 <= j < FirstIndex(s, r.value) ==> s[j] !in cands
  {
    if s == [] then None
    else if s[0] in cands then Some(s[0])
    else
      var r := FirstIn(s[1..], cands);
      assert forall x :: x in s ==> x == s[0] || x in s[1..];
      assert r.Some? ==> FirstIndex(s, r.value) == 1 + FirstIndex(s[1..], r.value);
      assert forall j :: 1 <= j < |s| ==> s[j] == s[1..][j - 1];
      r
  }

  /** Extending a sequence never changes a first match already found. */
  lemma {:induction false} FirstInSnoc(s: seq<string>, x: string, cands: set<string>)
    ensures FirstIn(s + [x], cands) ==
      if FirstIn(s, cands).Some? then FirstIn(s, cands)
      else if x in cands then Some(x) else None
  {
    if s == [] {
      assert [] + [x] == [x];
      assert [x][1..] == [];
    } else {
      assert (s + [x])[0] == s[0];
      assert (s + [x])[1..] == s[1..] + [x];
      FirstInSnoc(s[1..], x, cands);
    }
  }

  /** One half of the suggestion: the original column behind the first
      normalised name that is a candidate. */
  function Pick(vs: seq<string>, cands: set<string>, cols: seq<string>, norm: string -> string): Option<string> {
    match FirstIn(vs, cands)
    case None => None
    case Some(n) => ToOrig(cols, n, norm)
  }

  /** suggest_expected_mapping for a given normaliser. */
  function SuggestWith(cols: seq<string>, norm: string -> string): (Option<string>, Option<string>) {
    var vs := NormValues(cols, norm);
    (Pick(vs, EanCandidates, cols, norm), Pick(vs, EstoqueCandidates, cols, norm))
  }

  /** suggest_expected_mapping as a value: the suggested EAN column and the
      suggested stock column, under normalize_column_names. */
  function Suggest(cols: seq<string>, u: Transliterator): (Option<string>, Option<string>) {
    SuggestWith(cols, c => NormalizeHeader(c, u))
  }

  /** suggest_expected_mapping: normalise the headers, then scan the
      normalised names once, keeping the first EAN and the first stock match. */
  method SuggestExpectedMapping(cols: seq<string>, u: Transliterator) returns (ean: Option<string>, est: Option<string>)
    ensures (ean, est) == Suggest(cols, u)
  {
    ean, est := ScanCandidates(cols, c => NormalizeHeader(c, u));
  }

  /** The loop of suggest_expected_mapping over to_norm.values(), for a
      given normaliser. */
  method ScanCandidates(cols: seq<string>, norm: string -> string) returns (ean: Option<string>, est: Option<string>)
    ensures (ean, est) == SuggestWith(cols, norm)
  {
    var vs := NormValues(cols, norm);
    ean, est := None, None;
    for i := 0 to |vs|
      invariant ean == Pick(vs[..i], EanCandidates, cols, norm)
      invariant est == Pick(vs[..i], EstoqueCandidates, cols, norm)
    {
      var c := vs[i];
      PickStep(vs, i, EanCandidates, cols, norm);
      PickStep(vs, i, EstoqueCandidates, cols, norm);
      if ean.None? && c in EanCandidates {
        ean := ToOrig(cols, c, norm);
      }
      if est.None? && c in EstoqueCandidates {
        est := ToOrig(cols, c, norm);
      }
    }
    assert vs[..|vs|] == vs;
  }

  /** One step of the scan: a pick already made stays, otherwise the next
      normalised name is picked when it is a candidate. */
  lemma PickStep(vs: seq<string>, i: nat, cands: set<string>, cols: seq<string>, norm: string -> string)
    requires vs == NormValues(cols, norm) && i < |vs|
    ensures Pick(vs[..i + 1], cands, cols, norm) ==
      if Pick(vs[..i], cands, cols, norm).Some? then Pick(vs[..i], cands, cols, norm)
      else if vs[i] in cands then ToOrig(cols, vs[i], norm) else None
  {
    assert vs[..i + 1] == vs[..i] + [vs[i]];
    FirstInSnoc(vs[..i], vs[i], cands);
    var f := FirstIn(vs[..i], cands);
    if f.Some? {
      var j :| 0 <= j < i && vs[..i][j] == f.value;
      assert Distinct(cols)[j] in cols && norm(Distinct(cols)[j]) == f.value;
    }
  }

  /** A suggested column exists in the frame and its normalised name is a
      candidate; no suggestion is made exactly when no column normalises to
      a candidate. */
  lemma PickSpec(cols: seq<string>, cands: set<string>, norm: string -> string)
    ensures var p := Pick(NormValues(cols, norm), cands, cols, norm);
      && (p.Some? ==> p.value in cols && norm(p.value) in cands)
      && (p.None? <==> forall c :: c in cols ==> norm(c) !in cands)
  {
    var vs := NormValues(cols, norm);
    var f := FirstIn(vs, cands);
    if f.None? {
      forall c | c in cols ensures norm(c) !in cands {
        assert norm(c) in vs;
      }
    }
  }

  lemma SuggestSpec(cols: seq<string>, u: Transliterator)
    ensures var (ean, est) := Suggest(cols, u);
      && (ean.Some? ==> ean.value in cols && NormalizeHeader(ean.value, u) in EanCandidates)
      && (ean.None? <==> forall c :: c in cols ==> NormalizeHeader(c, u) !in EanCandidates)
      && (est.Some? ==> est.value in cols && NormalizeHeader(est.value, u) in EstoqueCandidates)
      && (est.None? <==> forall c :: c in cols ==> NormalizeHeader(c, u) !in EstoqueCandidates)
  {
    var norm := c => NormalizeHeader(c, u);
    PickSpec(cols, EanCandidates, norm);
    PickSpec(cols, EstoqueCandidates, norm);
  }

  /** The two accented candidates can never match: a normalised name, being
      canonical, is ASCII. */
  lemma AccentedCandidatesUnreachable(n: string)
    requires IsCanonical(n)
    ensures n != "C\U{D3}DIGO_DE_BARRAS" && n != "DISPON\U{CD}VEL"
  {
    CanonicalExcludes(n, "C\U{D3}DIGO_DE_BARRAS", 1);
    CanonicalExcludes(n, "DISPON\U{CD}VEL", 6);
  }

  /** A canonical name differs from any text with a character no canonical
      name has. */
  lemma CanonicalExcludes(r: string, lit: string, k: nat)
    requires IsCanonical(r) && k < |lit| && !IsHeaderChar(lit[k])
    ensures r != lit
  {
  }

  predicate IsAsciiLetter(c: char) {
    'A' <= c <= 'Z' || 'a' <= c <= 'z'
  }

  predicate Letters(s: string) {
    forall i :: 0 <= i < |s| ==> IsAsciiLetter(s[i])
  }

  lemma UpperTwoWords(a: string, b: string)
    requires Letters(a) && Letters(b)
    ensures Upper(a + " " + b) == Upper(a) + " " + Upper(b)
    ensures Letters(Upper(a)) && Letters(Upper(b))
  {
    UpperAppend(a, " " + b);
    UpperAppend(" ", b);
    assert a + " " + b == a + (" " + b);
    assert Upper(" ") == " ";
    UpperLetters(a);
    UpperLetters(b);
  }

  lemma UpperLetters(a: string)
    requires Letters(a)
    ensures Letters(Upper(a))
  {
    UpperSpec(a);
    forall i | 0 <= i < |a| ensures IsAsciiLetter(Upper(a)[i]) {
      assert IsAsciiLetter(a[i]);
    }
  }

  lemma CollapseTwoWords(a: string, b: string)
    requires Letters(a) && Letters(b)
    ensures CollapseRuns(a + " " + b, NotWordChar, '_') == a + "_" + b
  {
    assert a + " " + b == a + ([' '] + b);
    CollapseRunsKeep(a, [' '] + b, NotWordChar, '_');
    CollapseRunsOne(' ', b, NotWordChar, '_');
    CollapseRunsFixpoint(b, NotWordChar, '_');
    assert a + ([ '_' ] + b) == a + "_" + b;
  }

  lemma JoinedWordsCanonical(a: string, b: string)
    requires Letters(a) && Letters(b) && a != [] && b != []
    ensures CollapseRuns(a + "_" + b, IsUnderscore, '_') == a + "_" + b
    ensures StripChars(a + "_" + b, {'_'}) == a + "_" + b
  {
    var e := a + "_" + b;
    assert forall i :: 0 <= i < |e| ==> (e[i] == '_' <==> i == |a|);
    CollapseRunsFixpoint(e, IsUnderscore, '_');
    StripCharsNoop(e, {'_'});
  }

  /** Two words of ASCII letters separated by one space normalise to the
      upper-cased words joined by an underscore. */
  lemma NormalizeTwoWords(a: string, b: string, u: Transliterator)
    requires a != [] && b != [] && Letters(a) && Letters(b)
    ensures NormalizeHeader(a + " " + b, u) == Upper(a) + "_" + Upper(b)
  {
    var s := a + " " + b;
    assert IsAscii(s) by {
      assert forall i :: 0 <= i < |s| ==> s[i] == ' ' || IsAsciiLetter(s[i]);
    }
    assert s[0] == a[0] && s[|s| - 1] == b[|b| - 1];
    StripCharsNoop(s, Whitespace);
    UpperTwoWords(a, b);
    CollapseTwoWords(Upper(a), Upper(b));
    JoinedWordsCanonical(Upper(a), Upper(b));
  }

  /** The four words of the example headers are made of ASCII letters. */
  lemma ExampleLetters()
    ensures Letters("Cod") && Letters("Barras") && Letters("Saldo") && Letters("Atual")
  {
  }

  /** The four words of the example headers upper-case as expected. */
  lemma ExampleUpper()
    ensures Upper("Cod") == "COD" && Upper("Barras") == "BARRAS"
    ensures Upper("Saldo") == "SALDO" && Upper("Atual") == "ATUAL"
  {
    UpperIs("Cod", "COD");
    UpperIs("Barras", "BARRAS");
    UpperIs("Saldo", "SALDO");
    UpperIs("Atual", "ATUAL");
  }

  /** The two headers of the example, split into their words and upper-cased. */
  lemma ExampleWords()
    ensures Letters("Cod") && Letters("Barras") && Letters("Saldo") && Letters("Atual")
    ensures "Cod Barras" == "Cod" + " " + "Barras" && Upper("Cod") + "_" + Upper("Barras") == "COD_BARRAS"
    ensures "Saldo Atual" == "Saldo" + " " + "Atual" && Upper("Saldo") + "_" + Upper("Atual") == "SALDO_ATUAL"
  {
    ExampleLetters();
    ExampleUpper();
  }

  lemma UpperIs(a: string, A: string)
    requires |a| == |A| && forall i :: 0 <= i < |a| ==> UpperChar(a[i]) == A[i]
    ensures Upper(a) == A
  {
    UpperSpec(a);
  }

  lemma CodBarrasCandidate(n: string)
    requires n == "COD_BARRAS"
    ensures n in EanCandidates && n !in EstoqueCandidates
  {
  }

  lemma SaldoAtualNoCandidate(n: string)
    requires n == "SALDO_ATUAL"
    ensures n !in EanCandidates && n !in EstoqueCandidates
  {
  }

  /** Of two headers, only the first normalising into cands: it is picked. */
  lemma PickFirstOfTwo(x: string, y: string, cands: set<string>, norm: string -> string)
    requires norm(x) in cands && norm(y) !in cands
    ensures Pick(NormValues([x, y], norm), cands, [x, y], norm) == Some(x)
  {
    PickSpec([x, y], cands, norm);
  }

  /** Neither of two headers normalises into cands: nothing is picked. */
  lemma PickNoneOfTwo(x: string, y: string, cands: set<string>, norm: string -> string)
    requires norm(x) !in cands && norm(y) !in cands
    ensures Pick(NormValues([x, y], norm), cands, [x, y], norm) == None
  {
    PickSpec([x, y], cands, norm);
  }

  /** Two headers, the first naming a barcode candidate and neither a stock
      candidate: only the barcode column is suggested. */
  lemma SuggestBarcodeOnly(x: string, y: string, u: Transliterator)
    requires NormalizeHeader(x, u) in EanCandidates && NormalizeHeader(x, u) !in EstoqueCandidates
    requires NormalizeHeader(y, u) !in EanCandidates && NormalizeHeader(y, u) !in EstoqueCandidates
    ensures Suggest([x, y], u) == (Some(x), None)
  {
    var norm := c => NormalizeHeader(c, u);
    PickFirstOfTwo(x, y, EanCandidates, norm);
    PickNoneOfTwo(x, y, EstoqueCandidates, norm);
  }

  lemma CodBarrasNormal(x: string, a: string, b: string, u: Transliterator)
    requires x == "Cod Barras" && a == "Cod" && b == "Barras"
    ensures NormalizeHeader(x, u) == "COD_BARRAS"
  {
    ExampleWords();
    NormalizeTwoWords(a, b, u);
  }

  lemma SaldoAtualNormal(y: string, a: string, b: string, u: Transliterator)
    requires y == "Saldo Atual" && a == "Saldo" && b == "Atual"
    ensures NormalizeHeader(y, u) == "SALDO_ATUAL"
  {
    ExampleWords();
    NormalizeTwoWords(a, b, u);
  }

  /** Headers "Cod Barras" and "Saldo Atual": the barcode column is found
      (COD_BARRAS is a candidate) but the stock column is not, because
      SALDO_ATUAL is not among the stock candidates and matching is exact. */
  lemma CodBarrasSaldoAtual(x: string, y: string, u: Transliterator)
    requires x == "Cod Barras" && y == "Saldo Atual"
    ensures Suggest([x, y], u) == (Some(x), None)
  {
    CodBarrasNormal(x, "Cod", "Barras", u);
    SaldoAtualNormal(y, "Saldo", "Atual", u);
    CodBarrasCandidate(NormalizeHeader(x, u));
    SaldoAtualNoCandidate(NormalizeHeader(y, u));
    SuggestBarcodeOnly(x, y, u);
  }

  /** standardize_expected_df's rename: the chosen stock column becomes
      ESTOQUE and the chosen EAN column becomes EAN; when both choices name
      the same column the later dictionary entry, ESTOQUE, wins. */
  function RenameChosen(cols: seq<string>, srcEan: string, srcEst: string): (r: seq<string>)
    ensures |r| == |cols|
    ensures forall j :: 0 <= j < |cols| ==>
      r[j] == (if cols[j] == srcEst then "ESTOQUE" else if cols[j] == srcEan then "EAN" else cols[j])
  {
    seq(|cols|, j requires 0 <= j < |cols| =>
      if cols[j] == srcEst then "ESTOQUE" else if cols[j] == srcEan then "EAN" else cols[j])
  }

  /** The mapping of standardize_expected_df is usable: it names both
      targets and both chosen columns exist. */
  predicate MappingValid(t: Table, mapping: map<string, string>) {
    "EAN" in mapping && "ESTOQUE" in mapping &&
    mapping["EAN"] in t.columns && mapping["ESTOQUE"] in t.columns
  }

  /** standardize_expected_df(df, mapping): validate the mapping, rename the
      two chosen columns, strip the EAN texts and read the stock as integers
      (unreadable or missing stock becomes 0). Reading out["EAN"] fails with
      a KeyError when no column is called EAN after the rename, and either
      read fails when two columns share the name. */
  function StandardizeExpected(t: Table, mapping: map<string, string>, parse: NumberParser): (r: Result<Table>)
    ensures r.Failure? && r.error == InvalidMapping <==> "EAN" !in mapping || "ESTOQUE" !in mapping
    ensures r.Failure? && r.error == ColumnsNotFound <==>
      "EAN" in mapping && "ESTOQUE" in mapping &&
      (mapping["EAN"] !in t.columns || mapping["ESTOQUE"] !in t.columns)
    ensures r.Success? <==> (
      && MappingValid(t, mapping)
      && Count(RenameChosen(t.columns, mapping["EAN"], mapping["ESTOQUE"]), "EAN") == 1
      && Count(RenameChosen(t.columns, mapping["EAN"], mapping["ESTOQUE"]), "ESTOQUE") == 1)
    ensures r.Success? ==>
      && r.value.columns == RenameChosen(t.columns, mapping["EAN"], mapping["ESTOQUE"])
      && |r.value.rows| == |t.rows|
  {
    if |mapping| == 0 || "EAN" !in mapping || "ESTOQUE" !in mapping then Failure(InvalidMapping)
    else
      var srcEan, srcEst := mapping["EAN"], mapping["ESTOQUE"];
      if srcEan !in t.columns || srcEst !in t.columns then Failure(ColumnsNotFound)
      else
        var names := RenameChosen(t.columns, srcEan, srcEst);
        var renamed := SetColumns(t, names);
        var nEan, nEst := Count(names, "EAN"), Count(names, "ESTOQUE");
        assert nEst > 0 by {
          var k := IndexOf(t.columns, srcEst);
          assert names[k] == "ESTOQUE";
        }
        if nEan == 0 then Failure(KeyError("EAN"))
        else if nEan > 1 then Failure(DuplicateColumn("EAN"))
        else if nEst > 1 then Failure(DuplicateColumn("ESTOQUE"))
        else Success(Standardized(renamed, parse))
  }

  /** out["EAN"] = out["EAN"].astype(str).str.strip() followed by
      out["ESTOQUE"] = to_numeric(out["ESTOQUE"], errors="coerce").fillna(0),
      on a frame holding both columns. */
  function Standardized(renamed: Table, parse: NumberParser): (r: Table)
    requires "EAN" in renamed.columns && "ESTOQUE" in renamed.columns
    ensures r.columns == renamed.columns && |r.rows| == |renamed.rows|
  {
    var eans := seq(|renamed.rows|, i requires 0 <= i < |renamed.rows| => Str(Strip(CellToStr(Lookup(renamed, i, "EAN")))));
    var withEan := AssignColumn(renamed, "EAN", eans);
    var stock := seq(|renamed.rows|, i requires 0 <= i < |renamed.rows| => Int(CoerceInt(Lookup(withEan, i, "ESTOQUE"), parse, 0)));
    AssignColumn(withEan, "ESTOQUE", stock)
  }

  /** The cells of the standardised frame: stripped text under EAN, an
      integer under ESTOQUE, everything else as renamed. */
  lemma StandardizedLookup(renamed: Table, parse: NumberParser, i: nat, c: string)
    requires "EAN" in renamed.columns && "ESTOQUE" in renamed.columns && i < |renamed.rows|
    ensures Lookup(Standardized(renamed, parse), i, c) ==
      if c == "ESTOQUE" then Int(CoerceInt(Lookup(renamed, i, "ESTOQUE"), parse, 0))
      else if c == "EAN" then Str(Strip(CellToStr(Lookup(renamed, i, "EAN"))))
      else Lookup(renamed, i, c)
  {
    var eans := seq(|renamed.rows|, i requires 0 <= i < |renamed.rows| => Str(Strip(CellToStr(Lookup(renamed, i, "EAN")))));
    var withEan := AssignColumn(renamed, "EAN", eans);
    var stock := seq(|renamed.rows|, i requires 0 <= i < |renamed.rows| => Int(CoerceInt(Lookup(withEan, i, "ESTOQUE"), parse, 0)));
    LookupAssign(withEan, "ESTOQUE", stock, i, c);
    LookupAssign(renamed, "EAN", eans, i, c);
    LookupAssign(renamed, "EAN", eans, i, "ESTOQUE");
  }

  /** After renaming two different chosen columns, each appearing once, EAN
      and ESTOQUE read the chosen columns and every untouched name reads as
      before. */
  lemma RenamedLookup(t: Table, srcEan: string, srcEst: string, i: nat, c: string)
    requires srcEan in t.columns && srcEst in t.columns && srcEan != srcEst && i < |t.rows|
    requires Count(RenameChosen(t.columns, srcEan, srcEst), "EAN") == 1
    requires Count(RenameChosen(t.columns, srcEan, srcEst), "ESTOQUE") == 1
    ensures var renamed := SetColumns(t, RenameChosen(t.columns, srcEan, srcEst));
      && Lookup(renamed, i, "EAN") == Lookup(t, i, srcEan)
      && Lookup(renamed, i, "ESTOQUE") == Lookup(t, i, srcEst)
      && (c !in {"EAN", "ESTOQUE", srcEan, srcEst} ==> Lookup(renamed, i, c) == Lookup(t, i, c))
  {
    var names := RenameChosen(t.columns, srcEan, srcEst);
    var kE, kS := IndexOf(t.columns, srcEan), IndexOf(t.columns, srcEst);
    IndexOfUnique(names, "EAN", kE);
    IndexOfUnique(names, "ESTOQUE", kS);
    if c !in {"EAN", "ESTOQUE", srcEan, srcEst} {
      IndexOfSamePositions(names, t.columns, c);
    }
  }

  /** With two different chosen columns, a successful standardisation holds,
      row by row, the stripped text of the chosen EAN column under EAN, the
      chosen stock read as an integer under ESTOQUE, and every other column
      unchanged. */
  lemma StandardizeContents(t: Table, mapping: map<string, string>, parse: NumberParser, i: nat, c: string)
    requires MappingValid(t, mapping) && mapping["EAN"] != mapping["ESTOQUE"]
    requires StandardizeExpected(t, mapping, parse).Success? && i < |t.rows|
    ensures var out := StandardizeExpected(t, mapping, parse).value;
      && Lookup(out, i, "EAN") == Str(Strip(CellToStr(Lookup(t, i, mapping["EAN"]))))
      && Lookup(out, i, "ESTOQUE") == Int(CoerceInt(Lookup(t, i, mapping["ESTOQUE"]), parse, 0))
      && (c !in {"EAN", "ESTOQUE", mapping["EAN"], mapping["ESTOQUE"]} ==> Lookup(out, i, c) == Lookup(t, i, c))
  {
    var srcEan, srcEst := mapping["EAN"], mapping["ESTOQUE"];
    var names := RenameChosen(t.columns, srcEan, srcEst);
    var renamed := SetColumns(t, names);
    assert StandardizeExpected(t, mapping, parse).value == Standardized(renamed, parse);
    RenamedLookup(t, srcEan, srcEst, i, c);
    StandardizedLookup(renamed, parse, i, c);
    StandardizedLookup(renamed, parse, i, "EAN");
    StandardizedLookup(renamed, parse, i, "ESTOQUE");
  }

  /** Choosing one column for both roles renames it to ESTOQUE only, so
      the standardisation fails unless another column is already called EAN. */
  lemma StandardizeSameSource(t: Table, mapping: map<string, string>, parse: NumberParser)
    requires MappingValid(t, mapping) && mapping["EAN"] == mapping["ESTOQUE"]
    requires "EAN" !in t.columns
    ensures StandardizeExpected(t, mapping, parse) == Failure(KeyError("EAN"))
  {
    var names := RenameChosen(t.columns, mapping["EAN"], mapping["ESTOQUE"]);
    assert "EAN" !in names;
  }
}
