/** The small text helpers of utils/config.py: decoding an upload with a list
    of fallback encodings, guessing a delimiter by counting, and turning the
    status labels of the discrepancy table into plain ASCII for the PDF. */
module ConfigText {
  import opened Seqs
  import opened Text
  import opened Frames

  // ---------------------------------------------------------------------------
  // _read_text_with_fallback
  // ---------------------------------------------------------------------------

  /** The encodings tried, in order. */
  const CommonEncodings: seq<string> := ["utf-8", "utf-8-sig", "latin1", "cp1252", "iso-8859-1"]

  /** The label reported when every listed encoding failed. */
  const LenientLabel: string := "latin1(ignore)"

  /** bytes.decode(encoding): the text, or None when decoding raises. */
  type Decoder = (string, seq<bv8>) -> Option<string>

  /** Position of the first encoding that decodes raw; |encs| when none does. */
  function FirstSuccess(raw: seq<bv8>, decode: Decoder, encs: seq<string>): (k: nat)
    ensures k <= |encs|
    ensures forall j :: 0 <= j < k ==> decode(encs[j], raw).None?
    ensures k < |encs| ==> decode(encs[k], raw).Some?
  {
    if encs == [] then 0
    else if decode(encs[0], raw).Some? then 0
    else 1 + FirstSuccess(raw, decode, encs[1..])
  }

  /** Try every encoding in order and return at the first that succeeds;
      when all fail, decode as latin1 ignoring errors (the lenient decoder). */
  method ReadTextWithFallback(raw: seq<bv8>, decode: Decoder, lenient: seq<bv8> -> string)
    returns (text: string, enc: string)
    ensures var k := FirstSuccess(raw, decode, CommonEncodings);
      if k < |CommonEncodings| then
        enc == CommonEncodings[k] && decode(enc, raw) == Some(text)
      else
        enc == LenientLabel && text == lenient(raw)
  {
    var i := 0;
    while i < |CommonEncodings|
      invariant 0 <= i <= |CommonEncodings|
      invariant forall j :: 0 <= j < i ==> decode(CommonEncodings[j], raw).None?
    {
      var attempt := decode(CommonEncodings[i], raw);
      if attempt.Some? {
        text, enc := attempt.value, CommonEncodings[i];
        FirstSuccessAt(raw, decode, CommonEncodings, i);
        return;
      }
      i := i + 1;
    }
    FirstSuccessAt(raw, decode, CommonEncodings, i);
    text, enc := lenient(raw), LenientLabel;
  }

  /** The first success is the position before which everything failed and
      at which decoding succeeds (or the end of the list). */
  lemma {:induction false} FirstSuccessAt(raw: seq<bv8>, decode: Decoder, encs: seq<string>, i: nat)
    requires i <= |encs|
    requires forall j :: 0 <= j < i ==> decode(encs[j], raw).None?
    requires i < |encs| ==> decode(encs[i], raw).Some?
    ensures FirstSuccess(raw, decode, encs) == i
  {
    if encs != [] && i > 0 {
      assert decode(encs[0], raw).None?;
      FirstSuccessAt(raw, decode, encs[1..], i - 1);
    }
  }

  /** latin1 maps every byte to a character, so with a decoder for which it
      never fails the lenient last resort is never reached, and the encoding
      used is utf-8, utf-8-sig or latin1. */
  lemma LenientUnreachable(raw: seq<bv8>, decode: Decoder)
    requires decode("latin1", raw).Some?
    ensures FirstSuccess(raw, decode, CommonEncodings) <= 2
  {
    assert CommonEncodings[2] == "latin1";
  }

  // ---------------------------------------------------------------------------
  // _fallback_sep
  // ---------------------------------------------------------------------------

  /** The delimiters considered, in order. */
  const Separators: seq<char> := [',', ';', '\t', '|']

  /** max(xs, key=score): Python scans left to right and replaces the current
      best only by a strictly greater one, so the first maximal element wins. */
  function FirstMax(xs: seq<char>, score: char -> nat): (k: nat)
    requires |xs| > 0
    ensures k < |xs|
    ensures forall j :: 0 <= j < |xs| ==> score(xs[j]) <= score(xs[k])
    ensures forall j :: 0 <= j < k ==> score(xs[j]) < score(xs[k])
    decreases |xs|
  {
    if |xs| == 1 then 0
    else
      var init := xs[..|xs| - 1];
      var k := FirstMax(init, score);
      assert forall j :: 0 <= j < |init| ==> init[j] == xs[j];
      if score(xs[|xs| - 1]) > score(xs[k]) then |xs| - 1 else k
  }

  /** The delimiter occurring most often in the sample, the earliest listed on
      a tie; a comma for an empty sample. */
  function FallbackSep(sample: string): (sep: char)
    ensures sep in Separators
    ensures sample == [] ==> sep == ','
    ensures sample != [] ==> exists k :: (
      && 0 <= k < |Separators| && Separators[k] == sep
      && (forall j :: 0 <= j < |Separators| ==> Count(sample, Separators[j]) <= Count(sample, sep))
      && (forall j :: 0 <= j < k ==> Count(sample, Separators[j]) < Count(sample, sep)))
  {
    if sample == [] then ','
    else
      var k := FirstMax(Separators, c => Count(sample, c));
      assert Separators[k] == Separators[k];
      Separators[k]
  }

  /** The emptiness guard only short-cuts: in an empty sample every count
      is 0 and the scan would pick the comma anyway. */
  lemma FallbackSepGuardRedundant(sample: string)
    requires sample == []
    ensures Separators[FirstMax(Separators, c => Count(sample, c))] == FallbackSep(sample)
  {
  }

  // ---------------------------------------------------------------------------
  // _clean_status_for_pdf
  // ---------------------------------------------------------------------------

  /** The symbol table, in dictionary order. The literal lists U+2795 and
      U+2796 twice each (once as a symbol, once as an escape); a dictionary
      keeps one entry per key, so each appears once here. */
  const Replacements: seq<(char, string)> := [
    ('\U{1F7E1}', ""), ('\U{1F534}', ""), ('\U{1F7E2}', ""), ('\U{2705}', "OK"),
    ('\U{2795}', "+"), ('\U{FF0B}', "+"),
    ('\U{2796}', "-"), ('\U{FF0D}', "-"),
    ('\U{2212}', "-")
  ]

  /** The successive s.replace(k, v) of the replacement loop. */
  function ReplaceAll(s: string, reps: seq<(char, string)>): string
    decreases |reps|
  {
    if reps == [] then s
    else
      var last := reps[|reps| - 1];
      ReplaceCharBy(ReplaceAll(s, reps[..|reps| - 1]), last.0, last.1)
  }

  /** After the replacements no key is left, provided no replacement text
      contains a key; characters other than the keys come from s or
      the replacement texts. */
  lemma {:induction false} ReplaceAllSpec(s: string, reps: seq<(char, string)>)
    requires forall i, j :: 0 <= i < |reps| && 0 <= j < |reps| ==> reps[i].0 !in reps[j].1
    ensures forall j :: 0 <= j < |reps| ==> reps[j].0 !in ReplaceAll(s, reps)
    ensures (forall j :: 0 <= j < |reps| ==> reps[j].0 !in s) ==> ReplaceAll(s, reps) == s
    decreases |reps|
  {
    if reps != [] {
      var init := reps[..|reps| - 1];
      var last := reps[|reps| - 1];
      assert forall j :: 0 <= j < |init| ==> init[j] == reps[j];
      ReplaceAllSpec(s, init);
      var t := ReplaceAll(s, init);
      ReplaceCharBySpec(t, last.0, last.1);
      forall j | 0 <= j < |reps| ensures reps[j].0 !in ReplaceAll(s, reps) {
        if j < |init| {
          assert reps[j].0 !in t;
          assert reps[j].0 !in last.1;
        }
      }
    }
  }

  lemma ReplacementsClean()
    ensures forall i, j :: 0 <= i < |Replacements| && 0 <= j < |Replacements| ==>
      Replacements[i].0 !in Replacements[j].1
  {
  }

  /** The text after the symbol replacements, re.sub(r"\s+", " ", s) and
      strip(). */
  function Normalized(s: string): string {
    Strip(CollapseRuns(ReplaceAll(s, Replacements), IsSpace, ' '))
  }

  /** A text in normal form: no symbol, no whitespace other than single
      spaces between other characters. */
  predicate IsNormal(s: string) {
    && (forall j :: 0 <= j < |Replacements| ==> Replacements[j].0 !in s)
    && (forall i :: 0 <= i < |s| ==> !IsSpace(s[i]) || s[i] == ' ')
    && (forall i :: 0 <= i < |s| - 1 ==> !(s[i] == ' ' && s[i + 1] == ' '))
    && (s != [] ==> !IsSpace(s[0]) && !IsSpace(s[|s| - 1]))
  }

  /** str.upper(): only its ASCII behaviour is fixed; the model holds for
      every case mapping that upper-cases ASCII text as Python does. */
  type CaseMap = f: string -> string | forall s :: IsAscii(s) ==> f(s) == Upper(s) witness Upper

  /** The prefix rule: a text mentioning SOBRA without a leading + becomes
      "+ SOBRA", one mentioning FALTA without a leading - becomes "- FALTA",
      one mentioning OK becomes "OK"; anything else stays. */
  function Canonical(s: string, upper: CaseMap): string {
    var up := upper(s);
    if Contains(up, "SOBRA") && !StartsWith(s, "+") then "+ SOBRA"
    else if Contains(up, "FALTA") && !StartsWith(s, "-") then "- FALTA"
    else if Contains(up, "OK") then "OK"
    else s
  }

  /** _clean_status_for_pdf(text); None (and an empty text) gives "". */
  function CleanStatus(text: Option<string>, upper: CaseMap): string {
    Canonical(Normalized(if text.Some? then text.value else ""), upper)
  }

  /** for k, v in reps: s = s.replace(k, v) */
  method ReplaceEach(s0: string, reps: seq<(char, string)>) returns (s: string)
    ensures s == ReplaceAll(s0, reps)
  {
    s := s0;
    var i := 0;
    while i < |reps|
      invariant 0 <= i <= |reps|
      invariant s == ReplaceAll(s0, reps[..i])
    {
      assert reps[..i + 1][..i] == reps[..i];
      s := ReplaceCharBy(s, reps[i].0, reps[i].1);
      i := i + 1;
    }
    assert reps[..i] == reps;
  }

  /** The replacement loop followed by the whitespace and prefix rules. */
  method CleanStatusForPdf(text: Option<string>, upper: CaseMap) returns (r: string)
    ensures r == CleanStatus(text, upper)
  {
    var s := if text.Some? then text.value else "";
    s := ReplaceEach(s, Replacements);
    s := Strip(CollapseRuns(s, IsSpace, ' '));
    r := Canonical(s, upper);
  }

  /** re.sub(r"\s+", " ", a).strip(): every character is a space or one of
      a's non-whitespace characters, spaces come singly, and neither end is
      whitespace. */
  lemma CollapseStripSpec(a: string)
    ensures var n := Strip(CollapseRuns(a, IsSpace, ' '));
      && (forall i :: 0 <= i < |n| ==> n[i] == ' ' || (n[i] in a && !IsSpace(n[i])))
      && (forall i :: 0 <= i < |n| - 1 ==> !(n[i] == ' ' && n[i + 1] == ' '))
      && (n != [] ==> !IsSpace(n[0]) && !IsSpace(n[|n| - 1]))
  {
    var b := CollapseRuns(a, IsSpace, ' ');
    var n := Strip(b);
    StripCharsSpec(b, Whitespace);
    assert IsSpace(' ');
    SliceRuns(a, IsSpace, ' ', LeadingCount(b, Whitespace), n);
  }

  /** The normalisation yields a normal text. */
  lemma NormalizedIsNormal(s: string)
    ensures IsNormal(Normalized(s))
  {
    ReplacementsClean();
    SymbolsNonAscii();
    var a := ReplaceAll(s, Replacements);
    ReplaceAllSpec(s, Replacements);
    CollapseStripSpec(a);
    var n := Normalized(s);
    forall j | 0 <= j < |Replacements| ensures Replacements[j].0 !in n {
      var k := Replacements[j].0;
      assert k !in a && k != ' ';
    }
  }

  /** A normal text is left as it is by the normalisation. */
  lemma NormalizedNormal(s: string)
    requires IsNormal(s)
    ensures Normalized(s) == s
  {
    ReplacementsClean();
    ReplaceAllSpec(s, Replacements);
    assert forall j :: 0 <= j < |Replacements| ==> Replacements[j].0 !in s;
    CollapseStripNormal(s);
  }

  /** The whitespace rule leaves a normal text alone. */
  lemma CollapseStripNormal(s: string)
    requires IsNormal(s)
    ensures Strip(CollapseRuns(s, IsSpace, ' ')) == s
  {
    CollapseRunsFixpoint(s, IsSpace, ' ');
    StripCharsNoop(s, Whitespace);
  }

  /** Replacements whose keys do not occur change nothing. */
  lemma {:induction false} ReplaceAllNoKeys(s: string, reps: seq<(char, string)>)
    requires forall j :: 0 <= j < |reps| ==> reps[j].0 !in s
    ensures ReplaceAll(s, reps) == s
    decreases |reps|
  {
    if reps != [] {
      var init := reps[..|reps| - 1];
      assert forall j :: 0 <= j < |init| ==> init[j] == reps[j];
      ReplaceAllNoKeys(s, init);
      ReplaceCharBySpec(s, reps[|reps| - 1].0, reps[|reps| - 1].1);
    }
  }

  /** A text made of one key followed by key-free text becomes that key's
      replacement followed by the same text. */
  lemma {:induction false} ReplaceAllLead(c: char, rest: string, reps: seq<(char, string)>, p: nat)
    requires p < |reps| && reps[p].0 == c
    requires forall j :: 0 <= j < |reps| && j != p ==> reps[j].0 != c
    requires forall j :: 0 <= j < |reps| ==> reps[j].0 !in rest && reps[j].0 !in reps[p].1
    ensures ReplaceAll([c] + rest, reps) == reps[p].1 + rest
    decreases |reps|
  {
    var init := reps[..|reps| - 1];
    var last := reps[|reps| - 1];
    assert forall j :: 0 <= j < |init| ==> init[j] == reps[j];
    if p == |reps| - 1 {
      ReplaceAllNoKeys([c] + rest, init);
      ReplaceCharBySpec(rest, c, last.1);
      assert ([c] + rest)[1..] == rest;
    } else {
      ReplaceAllLead(c, rest, init, p);
      ReplaceCharBySpec(reps[p].1 + rest, last.0, last.1);
    }
  }

  /** What the cleaned status is: one of the three canonical labels, or the
      normalised text itself, which then holds no symbol and no doubled,
      leading or trailing whitespace. */
  lemma CleanStatusSpec(text: Option<string>, upper: CaseMap)
    ensures var r := CleanStatus(text, upper);
      r == "+ SOBRA" || r == "- FALTA" || r == "OK" || (IsNormal(r) && r == Normalized(if text.Some? then text.value else ""))
  {
    NormalizedIsNormal(if text.Some? then text.value else "");
  }

  /** Cleaning twice is cleaning once. */
  lemma CleanStatusIdempotent(text: Option<string>, upper: CaseMap)
    ensures CleanStatus(Some(CleanStatus(text, upper)), upper) == CleanStatus(text, upper)
  {
    var t := if text.Some? then text.value else "";
    var n := Normalized(t);
    NormalizedIsNormal(t);
    var r := Canonical(n, upper);
    assert CleanStatus(text, upper) == r;
    CanonicalFixed(n, upper);
  }

  /** The prefix rule applied to a normal text gives a text that cleans to
      itself. */
  lemma CanonicalFixed(n: string, upper: CaseMap)
    requires IsNormal(n)
    ensures CleanStatus(Some(Canonical(n, upper)), upper) == Canonical(n, upper)
  {
    var r := Canonical(n, upper);
    if r == n {
      CleanStatusFixed(n, upper);
    } else if r == "+ SOBRA" {
      SobraFixed(r, upper);
    } else if r == "- FALTA" {
      FaltaFixed(r, upper);
    } else {
      OkFixed(r, upper);
    }
  }

  lemma SobraLetters(s: string, w: string, x: string, y: string)
    requires s == "+ SOBRA" && w == "SOBRA" && x == "FALTA" && y == "OK"
    ensures Contains(s, w) && !Contains(s, x) && !Contains(s, y) && StartsWith(s, "+")
  {
    assert s[2..2 + |w|] == w;
    ContainsAt(s, w, 2);
    NotContains(s, x, 'F');
    NotContains(s, y, 'K');
  }

  lemma FaltaLetters(s: string, w: string, x: string, y: string)
    requires s == "- FALTA" && w == "FALTA" && x == "SOBRA" && y == "OK"
    ensures Contains(s, w) && !Contains(s, x) && !Contains(s, y) && StartsWith(s, "-") && !StartsWith(s, "+")
  {
    assert s[2..2 + |w|] == w;
    ContainsAt(s, w, 2);
    NotContains(s, x, 'S');
    NotContains(s, y, 'O');
  }

  /** The replacement keys lie outside ASCII. */
  lemma SymbolsNonAscii()
    ensures forall j :: 0 <= j < |Replacements| ==> Replacements[j].0 > '\U{7F}'
  {
  }

  /** Printable ASCII holds one whitespace character, the space. */
  lemma PrintableSpace(c: char)
    requires ' ' <= c <= '~' && IsSpace(c)
    ensures c == ' '
  {
  }

  /** Printable ASCII text with single inner spaces is normal. */
  lemma PrintableNormal(s: string)
    requires forall i :: 0 <= i < |s| ==> ' ' <= s[i] <= '~'
    requires forall i :: 0 <= i < |s| - 1 ==> !(s[i] == ' ' && s[i + 1] == ' ')
    requires s != [] ==> s[0] != ' ' && s[|s| - 1] != ' '
    ensures IsNormal(s)
  {
    SymbolsNonAscii();
    forall i | 0 <= i < |s| && IsSpace(s[i]) ensures s[i] == ' ' {
      PrintableSpace(s[i]);
    }
  }

  /** A normal ASCII text that the prefix rule keeps is its own cleaning. */
  lemma CleanStatusFixed(s: string, upper: CaseMap)
    requires IsNormal(s) && Canonical(s, upper) == s
    ensures CleanStatus(Some(s), upper) == s
  {
    NormalizedNormal(s);
  }

  /** "+ SOBRA" survives the cleaning: it is normal, keeps its sign and
      mentions only its own word. */
  lemma SobraNormal(s: string)
    requires s == "+ SOBRA"
    ensures IsNormal(s) && Upper(s) == s
  {
    assert forall i :: 0 <= i < |s| ==> s[i] == ' ' || s[i] == '+' || ('A' <= s[i] <= 'Z');
    PrintableNormal(s);
    UpperSpec(s);
  }

  lemma SobraFixed(s: string, upper: CaseMap)
    requires s == "+ SOBRA"
    ensures CleanStatus(Some(s), upper) == s
  {
    SobraNormal(s);
    SobraLetters(s, "SOBRA", "FALTA", "OK");
    PrefixRuleKeeps(s, upper);
    CleanStatusFixed(s, upper);
  }

  /** "- FALTA" survives the cleaning in the same way. */
  lemma FaltaNormal(s: string)
    requires s == "- FALTA"
    ensures IsNormal(s) && Upper(s) == s
  {
    assert forall i :: 0 <= i < |s| ==> s[i] == ' ' || s[i] == '-' || ('A' <= s[i] <= 'Z');
    PrintableNormal(s);
    UpperSpec(s);
  }

  lemma FaltaFixed(s: string, upper: CaseMap)
    requires s == "- FALTA"
    ensures CleanStatus(Some(s), upper) == s
  {
    FaltaNormal(s);
    FaltaLetters(s, "FALTA", "SOBRA", "OK");
    PrefixRuleKeeps(s, upper);
    CleanStatusFixed(s, upper);
  }

  lemma OkFixed(s: string, upper: CaseMap)
    requires s == "OK"
    ensures CleanStatus(Some(s), upper) == s
  {
    PrintableNormal(s);
    UpperSpec(s);
    ContainsAt(s, "OK", 0);
    NotContains(s, "SOBRA", 'S');
    NotContains(s, "FALTA", 'F');
    PrefixRuleKeeps(s, upper);
    CleanStatusFixed(s, upper);
  }

  /** A text the prefix rule leaves alone: upper-case ASCII, signed when it
      mentions SOBRA or FALTA, and exactly "OK" when it mentions OK. */
  lemma PrefixRuleKeeps(s: string, upper: CaseMap)
    requires IsAscii(s) && Upper(s) == s
    requires Contains(s, "SOBRA") ==> StartsWith(s, "+")
    requires Contains(s, "FALTA") ==> StartsWith(s, "-")
    requires Contains(s, "OK") ==> s == "OK"
    ensures Canonical(s, upper) == s
  {
  }
}
