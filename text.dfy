/** Character-level string operations the dashboard relies on: Python's
    str.strip, an ASCII str.upper, str.replace, the regular-expression
    substitutions that collapse runs of characters, prefix and substring
    tests, and str() of an integer. Strings are sequences of Unicode code
    points, as in Python 3. */
module Text {

  predicate IsAscii(s: string) {
    forall i :: 0 <= i < |s| ==> s[i] <= '\U{7F}'
  }

  /** Replaces every non-ASCII character by '?'; the simplest transliteration. */
  function AsciiOnly(s: string): (r: string)
    ensures IsAscii(r)
    ensures |r| == |s|
    ensures IsAscii(s) ==> r == s
  {
    if s == [] then [] else [if s[0] <= '\U{7F}' then s[0] else '?'] + AsciiOnly(s[1..])
  }

  /** A transliteration in the manner of the unidecode package: whatever it
      does to accented letters and symbols, its output is plain ASCII and it
      leaves ASCII text alone. The model is proved for every such function. */
  type Transliterator = f: string -> string | forall s :: IsAscii(f(s)) && (IsAscii(s) ==> f(s) == s)
    witness AsciiOnly

  /** The code points Python's str.isspace() accepts, which are also what the
      regular-expression class \s matches in a str pattern. */
  const Whitespace: set<char> := {
    '\t', '\n', '\U{0B}', '\U{0C}', '\r', '\U{1C}', '\U{1D}', '\U{1E}', '\U{1F}', ' ',
    '\U{85}', '\U{A0}', '\U{1680}',
    '\U{2000}', '\U{2001}', '\U{2002}', '\U{2003}', '\U{2004}', '\U{2005}',
    '\U{2006}', '\U{2007}', '\U{2008}', '\U{2009}', '\U{200A}',
    '\U{2028}', '\U{2029}', '\U{202F}', '\U{205F}', '\U{3000}'
  }

  predicate IsSpace(c: char) {
    c in Whitespace
  }

  /** How many leading characters of s belong to drop. */
  function LeadingCount(s: string, drop: set<char>): (n: nat)
    ensures n <= |s|
  {
    if s != [] && s[0] in drop then 1 + LeadingCount(s[1..], drop) else 0
  }

  lemma {:induction false} LeadingCountSpec(s: string, drop: set<char>)
    ensures var n := LeadingCount(s, drop);
      && (forall i :: 0 <= i < n ==> s[i] in drop)
      && (n < |s| ==> s[n] !in drop)
  {
    if s != [] && s[0] in drop {
      LeadingCountSpec(s[1..], drop);
    }
  }

  /** How many trailing characters of s belong to drop. */
  function TrailingCount(s: string, drop: set<char>): (n: nat)
    ensures n <= |s|
  {
    if s != [] && s[|s| - 1] in drop then 1 + TrailingCount(s[..|s| - 1], drop) else 0
  }

  lemma {:induction false} TrailingCountSpec(s: string, drop: set<char>)
    ensures var n := TrailingCount(s, drop);
      && (forall i :: |s| - n <= i < |s| ==> s[i] in drop)
      && (n < |s| ==> s[|s| - n - 1] !in drop)
  {
    if s != [] && s[|s| - 1] in drop {
      TrailingCountSpec(s[..|s| - 1], drop);
    }
  }

  /** Python's s.strip(chars): s without its leading and trailing characters
      from drop. */
  function StripChars(s: string, drop: set<char>): (r: string)
    ensures |r| <= |s|
  {
    var t := s[LeadingCount(s, drop)..];
    t[..|t| - TrailingCount(t, drop)]
  }

  /** The strip is the slice of s between its leading and trailing runs of
      drop characters; it is empty only when s is made of drop characters. */
  lemma StripCharsSpec(s: string, drop: set<char>)
    ensures var r, lo := StripChars(s, drop), LeadingCount(s, drop);
      && lo + |r| <= |s|
      && r == s[lo..lo + |r|]
      && (r != [] ==> r[0] !in drop && r[|r| - 1] !in drop)
      && (r == [] ==> forall i :: 0 <= i < |s| ==> s[i] in drop)
  {
    var lo := LeadingCount(s, drop);
    var t := s[lo..];
    LeadingCountSpec(s, drop);
    TrailingCountSpec(t, drop);
    var r := StripChars(s, drop);
    assert r == [] ==> TrailingCount(t, drop) == |t|;
    assert |t| > 0 ==> t[0] == s[lo];
    assert r == [] ==> lo == |s|;
  }

  /** Every character of the strip is a character of s. */
  lemma StripCharsMembers(s: string, drop: set<char>)
    ensures forall i :: 0 <= i < |StripChars(s, drop)| ==>
      StripChars(s, drop)[i] == s[LeadingCount(s, drop) + i]
  {
    StripCharsSpec(s, drop);
  }

  /** A string that neither begins nor ends with a character of drop is its own strip. */
  lemma StripCharsNoop(s: string, drop: set<char>)
    requires s != [] ==> s[0] !in drop && s[|s| - 1] !in drop
    ensures StripChars(s, drop) == s
  {
    assert LeadingCount(s, drop) == 0;
    assert s[0..] == s;
    assert TrailingCount(s, drop) == 0;
  }

  /** Python's s.strip(): white space removed at both ends. */
  function Strip(s: string): (r: string)
    ensures |r| <= |s|
  {
    StripChars(s, Whitespace)
  }

  predicate IsLowerAscii(c: char) {
    'a' <= c <= 'z'
  }

  function UpperChar(c: char): char {
    if IsLowerAscii(c) then (c as int - 32) as char else c
  }

  /** str.upper() on the ASCII letters; every other character is kept. */
  function Upper(s: string): (r: string)
    ensures |r| == |s|
  {
    if s == [] then [] else [UpperChar(s[0])] + Upper(s[1..])
  }

  /** Upper-casing works character by character, leaves no ASCII lower-case
      letter, keeps ASCII text ASCII and changes nothing in a text without
      lower-case letters. */
  lemma {:induction false} UpperSpec(s: string)
    ensures forall i :: 0 <= i < |s| ==> Upper(s)[i] == UpperChar(s[i])
    ensures forall i :: 0 <= i < |s| ==> !IsLowerAscii(Upper(s)[i])
    ensures IsAscii(s) ==> IsAscii(Upper(s))
    ensures (forall i :: 0 <= i < |s| ==> !IsLowerAscii(s[i])) ==> Upper(s) == s
  {
    if s != [] {
      UpperSpec(s[1..]);
      assert forall i :: 1 <= i < |s| ==> Upper(s)[i] == Upper(s[1..])[i - 1];
      assert forall i :: 1 <= i < |s| ==> s[i] == s[1..][i - 1];
    }
  }

  lemma {:induction false} UpperAppend(a: string, b: string)
    ensures Upper(a + b) == Upper(a) + Upper(b)
  {
    if a == [] {
      assert a + b == b;
    } else {
      assert (a + b)[1..] == a[1..] + b;
      UpperAppend(a[1..], b);
    }
  }

  /** s.replace(a, b) for single characters a and b. */
  function ReplaceChar(s: string, a: char, b: char): (r: string)
    ensures |r| == |s|
    ensures forall i :: 0 <= i < |s| ==> r[i] == (if s[i] == a then b else s[i])
  {
    seq(|s|, i requires 0 <= i < |s| => if s[i] == a then b else s[i])
  }

  /** s.replace(k, v) for a single character k and any replacement v. */
  function ReplaceCharBy(s: string, k: char, v: string): string
  {
    if s == [] then []
    else (if s[0] == k then v else [s[0]]) + ReplaceCharBy(s[1..], k, v)
  }

  /** After the replacement no k is left (unless v brings it back), every
      character comes from v or from s, and without a k nothing changes. */
  lemma {:induction false} ReplaceCharBySpec(s: string, k: char, v: string)
    ensures k !in v ==> k !in ReplaceCharBy(s, k, v)
    ensures k !in s ==> ReplaceCharBy(s, k, v) == s
    ensures forall c :: c in ReplaceCharBy(s, k, v) ==> c in v || (c in s && c != k)
  {
    if s != [] {
      ReplaceCharBySpec(s[1..], k, v);
      var head := if s[0] == k then v else [s[0]];
      assert ReplaceCharBy(s, k, v) == head + ReplaceCharBy(s[1..], k, v);
      assert forall c :: c in s[1..] ==> c in s;
      assert k !in s ==> s == [s[0]] + s[1..];
    }
  }

  /** s without its leading run of characters satisfying p. */
  function DropRun(s: string, p: char -> bool): (r: string)
    ensures |r| <= |s|
  {
    if s != [] && p(s[0]) then DropRun(s[1..], p) else s
  }

  lemma {:induction false} DropRunSpec(s: string, p: char -> bool)
    ensures var r := DropRun(s, p);
      && r == s[|s| - |r|..]
      && (forall i :: 0 <= i < |s| - |r| ==> p(s[i]))
      && (r != [] ==> !p(r[0]))
  {
    if s != [] && p(s[0]) {
      DropRunSpec(s[1..], p);
    }
  }

  /** The regular-expression substitution re.sub("X+", rep, s) where X is
      the character class p: every maximal run of characters satisfying p
      becomes the single character rep. */
  function CollapseRuns(s: string, p: char -> bool, rep: char): (r: string)
    ensures |r| <= |s|
    decreases |s|
  {
    if s == [] then []
    else if p(s[0]) then [rep] + CollapseRuns(DropRun(s[1..], p), p, rep)
    else [s[0]] + CollapseRuns(s[1..], p, rep)
  }

  /** The substitution leaves no two p-characters side by side, and every
      character it produces is rep or a character of s outside the class. */
  lemma {:induction false} CollapseRunsSpec(s: string, p: char -> bool, rep: char)
    ensures var r := CollapseRuns(s, p, rep);
      && (forall i :: 0 <= i < |r| ==> r[i] == rep || (r[i] in s && !p(r[i])))
      && (forall i :: 0 <= i < |r| - 1 ==> !(p(r[i]) && p(r[i + 1])))
      && (s != [] && !p(s[0]) ==> r != [] && r[0] == s[0])
    decreases |s|
  {
    if s != [] {
      var r := CollapseRuns(s, p, rep);
      if p(s[0]) {
        var t := DropRun(s[1..], p);
        DropRunSpec(s[1..], p);
        CollapseRunsSpec(t, p, rep);
        var rt := CollapseRuns(t, p, rep);
        assert r == [rep] + rt;
        assert forall c :: c in t ==> c in s by {
          forall c | c in t ensures c in s {
            var j :| 0 <= j < |t| && t[j] == c;
            assert s[1..][|s[1..]| - |t| + j] == c;
          }
        }
      } else {
        CollapseRunsSpec(s[1..], p, rep);
        var rt := CollapseRuns(s[1..], p, rep);
        assert r == [s[0]] + rt;
        forall i | 0 <= i < |r| ensures r[i] == rep || (r[i] in s && !p(r[i])) {
          if i > 0 {
            assert r[i] == rt[i - 1];
            if r[i] != rep {
              var j :| 0 <= j < |s[1..]| && s[1..][j] == r[i];
              assert s[j + 1] == r[i];
            }
          }
        }
      }
    }
  }

  /** A prefix without class characters passes through the substitution. */
  lemma {:induction false} CollapseRunsKeep(a: string, b: string, p: char -> bool, rep: char)
    requires forall i :: 0 <= i < |a| ==> !p(a[i])
    ensures CollapseRuns(a + b, p, rep) == a + CollapseRuns(b, p, rep)
  {
    if a != [] {
      assert (a + b)[0] == a[0];
      assert (a + b)[1..] == a[1..] + b;
      CollapseRunsKeep(a[1..], b, p, rep);
    } else {
      assert a + b == b;
    }
  }

  /** A single class character followed by a non-class one becomes rep. */
  lemma CollapseRunsOne(c: char, b: string, p: char -> bool, rep: char)
    requires p(c) && (b == [] || !p(b[0]))
    ensures CollapseRuns([c] + b, p, rep) == [rep] + CollapseRuns(b, p, rep)
  {
    assert ([c] + b)[1..] == b;
  }

  /** A slice of a collapsed text keeps its character classes and its
      single separators. */
  lemma SliceRuns(s: string, p: char -> bool, rep: char, lo: nat, n: string)
    requires p(rep)
    requires var b := CollapseRuns(s, p, rep); lo + |n| <= |b| && n == b[lo..lo + |n|]
    ensures forall i :: 0 <= i < |n| ==> n[i] == rep || (n[i] in s && !p(n[i]))
    ensures forall i :: 0 <= i < |n| - 1 ==> !(n[i] == rep && n[i + 1] == rep)
  {
    var b := CollapseRuns(s, p, rep);
    CollapseRunsSpec(s, p, rep);
    forall i | 0 <= i < |n| ensures n[i] == b[lo + i] {
    }
  }

  /** A string with no run of two p-characters, whose p-characters are all
      rep, is left as it is by the substitution. */
  lemma {:induction false} CollapseRunsFixpoint(s: string, p: char -> bool, rep: char)
    requires forall i :: 0 <= i < |s| ==> !p(s[i]) || s[i] == rep
    requires forall i :: 0 <= i < |s| - 1 ==> !(p(s[i]) && p(s[i + 1]))
    ensures CollapseRuns(s, p, rep) == s
    decreases |s|
  {
    if s != [] {
      var t := s[1..];
      assert forall i :: 0 <= i < |t| ==> t[i] == s[i + 1];
      if p(s[0]) {
        assert t != [] ==> !p(t[0]);
        assert DropRun(t, p) == t;
      }
      CollapseRunsFixpoint(t, p, rep);
    }
  }

  predicate StartsWith(s: string, prefix: string) {
    |prefix| <= |s| && s[..|prefix|] == prefix
  }

  /** Python's `needle in s` for strings. */
  predicate Contains(s: string, needle: string)
    decreases |s|
  {
    StartsWith(s, needle) || (s != [] && Contains(s[1..], needle))
  }

  /** Every character of a contained needle occurs in the text. */
  lemma {:induction false} ContainsChars(s: string, needle: string)
    requires Contains(s, needle)
    ensures forall c :: c in needle ==> c in s
    decreases |s|
  {
    if StartsWith(s, needle) {
      assert forall i :: 0 <= i < |needle| ==> needle[i] == s[i];
    } else {
      ContainsChars(s[1..], needle);
      assert forall c :: c in s[1..] ==> c in s;
    }
  }

  /** A needle holding a character the text lacks is not contained. */
  lemma NotContains(s: string, needle: string, c: char)
    requires c in needle && c !in s
    ensures !Contains(s, needle)
  {
    if Contains(s, needle) {
      ContainsChars(s, needle);
      assert false;
    }
  }

  /** A needle found at position k is contained. */
  lemma {:induction false} ContainsAt(s: string, needle: string, k: nat)
    requires k + |needle| <= |s| && s[k..k + |needle|] == needle
    ensures Contains(s, needle)
    decreases k
  {
    if k > 0 {
      assert s[1..][k - 1..k - 1 + |needle|] == needle;
      ContainsAt(s[1..], needle, k - 1);
    }
  }

  function DigitChar(d: nat): char
    requires d < 10
  {
    ('0' as int + d) as char
  }

  function NatToString(n: nat): string
    decreases n
  {
    if n < 10 then [DigitChar(n)] else NatToString(n / 10) + [DigitChar(n % 10)]
  }

  /** Python's str() of an integer. */
  function IntToString(n: int): string {
    if n < 0 then "-" + NatToString(-n) else NatToString(n)
  }
}
