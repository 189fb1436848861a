/** Sequence and map helpers shared by every part of the model: occurrence
    counts, first-appearance de-duplication, sums, subsequences and the
    "group by key and sum" reduction that pandas' groupby(...).sum() performs. */
module Seqs {

  /** Number of occurrences of x in s. */
  function Count<T(==)>(s: seq<T>, x: T): (n: nat)
    ensures n <= |s|
    ensures n == 0 <==> x !in s
  {
    if s == [] then 0 else (if s[0] == x then 1 else 0) + Count(s[1..], x)
  }

  lemma {:induction false} CountAppend<T>(a: seq<T>, b: seq<T>, x: T)
    ensures Count(a + b, x) == Count(a, x) + Count(b, x)
  {
    if a == [] {
      assert a + b == b;
    } else {
      assert (a + b)[1..] == a[1..] + b;
      CountAppend(a[1..], b, x);
    }
  }

  /** Indexing into a concatenation. */
  lemma ConcatAt<T>(a: seq<T>, b: seq<T>, i: nat)
    requires i < |a| + |b|
    ensures (a + b)[i] == if i < |a| then a[i] else b[i - |a|]
  {
  }

  predicate NoDuplicates<T(==)>(s: seq<T>) {
    forall i, j :: 0 <= i < j < |s| ==> s[i] != s[j]
  }

  lemma {:induction false} CountNoDuplicates<T>(s: seq<T>, x: T)
    requires NoDuplicates(s)
    ensures Count(s, x) == if x in s then 1 else 0
  {
    if s != [] {
      assert NoDuplicates(s[1..]) by {
        forall i, j | 0 <= i < j < |s[1..]| ensures s[1..][i] != s[1..][j] {
          assert s[1..][i] == s[i + 1] && s[1..][j] == s[j + 1];
        }
      }
      CountNoDuplicates(s[1..], x);
      if s[0] == x {
        forall k | 0 <= k < |s[1..]| ensures s[1..][k] != x {
          assert s[1..][k] == s[k + 1];
        }
      }
    }
  }

  /** Two duplicate-free sequences with no element in common concatenate
      to a duplicate-free sequence. */
  lemma NoDuplicatesAppend<T>(a: seq<T>, b: seq<T>)
    requires NoDuplicates(a) && NoDuplicates(b)
    requires forall x :: x in a ==> x !in b
    ensures NoDuplicates(a + b)
  {
    var s := a + b;
    forall i, j | 0 <= i < j < |s| ensures s[i] != s[j] {
      if j < |a| {
        assert s[i] == a[i] && s[j] == a[j];
      } else if i >= |a| {
        assert s[i] == b[i - |a|] && s[j] == b[j - |a|];
      } else {
        assert s[i] == a[i] && s[j] == b[j - |a|];
        assert a[i] in a && b[j - |a|] in b;
      }
    }
  }

  /** Two different positions holding x make x occur at least twice. */
  lemma {:induction false} CountTwo<T>(s: seq<T>, x: T, a: nat, b: nat)
    requires a < |s| && b < |s| && a != b && s[a] == x && s[b] == x
    ensures Count(s, x) >= 2
  {
    if a == 0 {
      assert s[1..][b - 1] == x;
    } else if b == 0 {
      assert s[1..][a - 1] == x;
    } else {
      CountTwo(s[1..], x, a - 1, b - 1);
    }
  }

  /** The position of the first occurrence of x in s. */
  function FirstIndex<T(==)>(s: seq<T>, x: T): (k: nat)
    requires x in s
    ensures k < |s| && s[k] == x
    ensures forall j :: 0 <= j < k ==> s[j] != x
  {
    if s[0] == x then 0 else 1 + FirstIndex(s[1..], x)
  }

  /** Appending elements does not move a first occurrence. */
  lemma FirstIndexPrefix<T>(a: seq<T>, b: seq<T>, x: T)
    requires x in a
    ensures x in a + b && FirstIndex(a + b, x) == FirstIndex(a, x)
  {
    var k := FirstIndex(a, x);
    assert (a + b)[k] == x;
    assert forall j :: 0 <= j < k ==> (a + b)[j] == a[j];
  }

  /** The elements of s without repetitions, in order of first appearance
      (the order pandas uses for the keys of an unsorted group-by). */
  function Distinct<T(==,!new)>(s: seq<T>): (r: seq<T>)
    ensures NoDuplicates(r)
    ensures forall x :: x in r <==> x in s
    ensures |r| <= |s|
    ensures forall i, j :: 0 <= i < j < |r| ==> FirstIndex(s, r[i]) < FirstIndex(s, r[j])
  {
    if s == [] then []
    else
      var d := Distinct(s[..|s| - 1]);
      var last := s[|s| - 1];
      assert forall x :: x in s <==> x in s[..|s| - 1] || x == last by {
        assert s == s[..|s| - 1] + [last];
      }
      var r := if last in d then d else d + [last];
      DistinctStep(s[..|s| - 1], last, d, r);
      assert s[..|s| - 1] + [last] == s;
      r
  }

  /** The order clause of Distinct, for one more element. */
  lemma DistinctStep<T>(p: seq<T>, last: T, d: seq<T>, r: seq<T>)
    requires forall x :: x in d <==> x in p
    requires forall i, j :: 0 <= i < j < |d| ==> FirstIndex(p, d[i]) < FirstIndex(p, d[j])
    requires r == if last in d then d else d + [last]
    ensures forall x :: x in r ==> x in p + [last]
    ensures forall i, j :: 0 <= i < j < |r| ==> FirstIndex(p + [last], r[i]) < FirstIndex(p + [last], r[j])
  {
    var s := p + [last];
    forall x | x in d ensures x in s && FirstIndex(s, x) == FirstIndex(p, x) {
      FirstIndexPrefix(p, [last], x);
    }
    forall i, j | 0 <= i < j < |r| ensures FirstIndex(s, r[i]) < FirstIndex(s, r[j]) {
      if j < |d| {
        assert r[j] == d[j] && r[i] == d[i];
      } else {
        assert r[i] == d[i] && r[j] == last && last !in p;
        assert s[|p|] == last;
        assert forall k :: 0 <= k < |p| ==> s[k] == p[k];
      }
    }
  }

  /** The elements of s that are not in excluded, in their original order. */
  function Without<T(==,!new)>(s: seq<T>, excluded: set<T>): (r: seq<T>)
    ensures forall x :: x in r <==> x in s && x !in excluded
    ensures NoDuplicates(s) ==> NoDuplicates(r)
    ensures |r| <= |s|
  {
    if s == [] then []
    else
      var rest := Without(s[1..], excluded);
      assert NoDuplicates(s) ==> NoDuplicates(s[1..]) && s[0] !in s[1..] by {
        if NoDuplicates(s) {
          forall i, j | 0 <= i < j < |s[1..]| ensures s[1..][i] != s[1..][j] {
            assert s[1..][i] == s[i + 1] && s[1..][j] == s[j + 1];
          }
          forall k | 0 <= k < |s[1..]| ensures s[1..][k] != s[0] {
            assert s[1..][k] == s[k + 1];
          }
        }
      }
      if s[0] in excluded then rest else [s[0]] + rest
  }

  function Sum(s: seq<int>): int {
    if s == [] then 0 else s[0] + Sum(s[1..])
  }

  lemma {:induction false} SumAppend(a: seq<int>, b: seq<int>)
    ensures Sum(a + b) == Sum(a) + Sum(b)
  {
    if a == [] {
      assert a + b == b;
    } else {
      assert (a + b)[1..] == a[1..] + b;
      SumAppend(a[1..], b);
    }
  }

  /** A sequence of zeros sums to 0. */
  lemma {:induction false} SumZero(xs: seq<int>)
    requires forall i :: 0 <= i < |xs| ==> xs[i] == 0
    ensures Sum(xs) == 0
  {
    if xs != [] {
      assert forall i :: 0 <= i < |xs[1..]| ==> xs[1..][i] == xs[i + 1];
      SumZero(xs[1..]);
    }
  }

  /** a can be obtained from b by deleting elements: same order, no new elements. */
  predicate IsSubsequence<T(==)>(a: seq<T>, b: seq<T>)
    decreases |b|
  {
    if a == [] then true
    else if b == [] then false
    else if a[0] == b[0] then IsSubsequence(a[1..], b[1..])
    else IsSubsequence(a, b[1..])
  }

  lemma {:induction false} SubsequenceRefl<T>(s: seq<T>)
    ensures IsSubsequence(s, s)
  {
    if s != [] {
      SubsequenceRefl(s[1..]);
    }
  }

  /** The elements of s that satisfy p, in order (boolean indexing). */
  function Filter<T>(s: seq<T>, p: T -> bool): (r: seq<T>)
    ensures |r| <= |s|
    ensures forall x :: x in r ==> x in s && p(x)
  {
    if s == [] then []
    else (if p(s[0]) then [s[0]] else []) + Filter(s[1..], p)
  }

  /** Each element is kept as often as it occurs, or dropped entirely. */
  lemma {:induction false} FilterCount<T>(s: seq<T>, p: T -> bool, x: T)
    ensures Count(Filter(s, p), x) == if p(x) then Count(s, x) else 0
  {
    if s != [] {
      FilterCount(s[1..], p, x);
      CountAppend(if p(s[0]) then [s[0]] else [], Filter(s[1..], p), x);
    }
  }

  /** The kept elements keep their order. */
  lemma {:induction false} FilterSubsequence<T>(s: seq<T>, p: T -> bool)
    ensures IsSubsequence(Filter(s, p), s)
  {
    if s != [] {
      FilterSubsequence(s[1..], p);
      var rest := Filter(s[1..], p);
      if p(s[0]) {
        assert Filter(s, p) == [s[0]] + rest;
        assert ([s[0]] + rest)[1..] == rest;
      } else {
        assert Filter(s, p) == rest;
        if rest != [] {
          assert rest[0] in rest;
        }
      }
    }
  }

  /** Two disjoint selections that together make a third split it. */
  lemma {:induction false} FilterSplit<T>(s: seq<T>, p: T -> bool, q: T -> bool, r: T -> bool)
    requires forall i :: 0 <= i < |s| ==> (p(s[i]) <==> q(s[i]) || r(s[i])) && !(q(s[i]) && r(s[i]))
    ensures |Filter(s, p)| == |Filter(s, q)| + |Filter(s, r)|
  {
    if s != [] {
      assert forall i :: 0 <= i < |s[1..]| ==> s[1..][i] == s[i + 1];
      FilterSplit(s[1..], p, q, r);
    }
  }

  /** The value a key maps to, 0 when it is absent (pandas' fillna(0) after a join). */
  function GetOr0<K>(m: map<K, int>, k: K): int {
    if k in m then m[k] else 0
  }

  function Keys<K>(pairs: seq<(K, int)>): (ks: seq<K>)
    ensures |ks| == |pairs|
  {
    if pairs == [] then [] else [pairs[0].0] + Keys(pairs[1..])
  }

  function Quantities<K>(pairs: seq<(K, int)>): (qs: seq<int>)
    ensures |qs| == |pairs|
  {
    if pairs == [] then [] else [pairs[0].1] + Quantities(pairs[1..])
  }

  /** Sum of the quantities of every pair, grouped by key: the map
      key -> sum of the quantities paired with that key. */
  function GroupSum<K(!new)>(pairs: seq<(K, int)>): (m: map<K, int>)
    ensures forall k :: k in m <==> k in Keys(pairs)
  {
    if pairs == [] then map[]
    else
      var m0 := GroupSum(pairs[1..]);
      m0[pairs[0].0 := GetOr0(m0, pairs[0].0) + pairs[0].1]
  }

  /** Grouping pairs that all carry 1 counts the occurrences of each key. */
  lemma {:induction false} GroupCountOnes<K(!new)>(pairs: seq<(K, int)>, k: K)
    requires forall i :: 0 <= i < |pairs| ==> pairs[i].1 == 1
    ensures GetOr0(GroupSum(pairs), k) == Count(Keys(pairs), k)
  {
    if pairs != [] {
      assert forall i :: 0 <= i < |pairs[1..]| ==> pairs[1..][i] == pairs[i + 1];
      GroupCountOnes(pairs[1..], k);
      var ks := Keys(pairs);
      assert ks[0] == pairs[0].0 && ks[1..] == Keys(pairs[1..]);
      var m0 := GroupSum(pairs[1..]);
      if pairs[0].0 == k {
        assert GetOr0(GroupSum(pairs), k) == GetOr0(m0, k) + 1;
      } else {
        assert GetOr0(GroupSum(pairs), k) == GetOr0(m0, k);
      }
    }
  }

  /** Sum of the values of the listed keys, absent keys counting 0. */
  function SumKeys<K>(ks: seq<K>, m: map<K, int>): int {
    if ks == [] then 0 else GetOr0(m, ks[0]) + SumKeys(ks[1..], m)
  }

  lemma {:induction false} SumKeysAppend<K>(a: seq<K>, b: seq<K>, m: map<K, int>)
    ensures SumKeys(a + b, m) == SumKeys(a, m) + SumKeys(b, m)
  {
    if a == [] {
      assert a + b == b;
    } else {
      assert (a + b)[1..] == a[1..] + b;
      SumKeysAppend(a[1..], b, m);
    }
  }

  /** Adding q to one key adds q once per listing of that key. */
  lemma {:induction false} SumKeysBump<K>(ks: seq<K>, m: map<K, int>, k: K, q: int)
    ensures SumKeys(ks, m[k := GetOr0(m, k) + q]) == SumKeys(ks, m) + q * Count(ks, k)
  {
    if ks != [] {
      SumKeysBump(ks[1..], m, k, q);
      var m' := m[k := GetOr0(m, k) + q];
      var b := if ks[0] == k then 1 else 0;
      assert GetOr0(m', ks[0]) == GetOr0(m, ks[0]) + q * b;
      assert Count(ks, k) == b + Count(ks[1..], k);
      BumpStep(GetOr0(m, ks[0]), SumKeys(ks[1..], m), SumKeys(ks[1..], m'), q, b, Count(ks[1..], k));
    }
  }

  /** The arithmetic of one step of SumKeysBump. */
  lemma BumpStep(g: int, s: int, s': int, q: int, b: int, n: int)
    requires s' == s + q * n
    ensures (g + q * b) + s' == (g + s) + q * (b + n)
  {
  }

  /** Summing a group-by over any duplicate-free list of keys that covers
      every grouped key gives back the total of all quantities. */
  lemma {:induction false} GroupSumTotal<K(!new)>(pairs: seq<(K, int)>, ks: seq<K>)
    requires NoDuplicates(ks)
    requires forall k :: k in Keys(pairs) ==> k in ks
    ensures SumKeys(ks, GroupSum(pairs)) == Sum(Quantities(pairs))
  {
    if pairs == [] {
      SumKeysZero(ks, map[]);
    } else {
      var k, q, rest := pairs[0].0, pairs[0].1, pairs[1..];
      assert Keys(pairs) == [k] + Keys(rest);
      var qs := Quantities(rest);
      assert Quantities(pairs) == [q] + qs;
      assert ([q] + qs)[1..] == qs;
      assert Sum(Quantities(pairs)) == q + Sum(qs);
      var m0 := GroupSum(rest);
      assert GroupSum(pairs) == m0[k := GetOr0(m0, k) + q];
      GroupSumTotal(rest, ks);
      SumKeysBump(ks, m0, k, q);
      CountNoDuplicates(ks, k);
    }
  }

  /** Removing the element at position i takes its value out of the sum. */
  lemma SumKeysRemove<K>(b: seq<K>, i: nat, m: map<K, int>)
    requires i < |b|
    ensures SumKeys(b, m) == GetOr0(m, b[i]) + SumKeys(b[..i] + b[i + 1..], m)
  {
    assert b == b[..i] + [b[i]] + b[i + 1..];
    SumKeysAppend(b[..i] + [b[i]], b[i + 1..], m);
    SumKeysAppend(b[..i], [b[i]], m);
    SumKeysAppend(b[..i], b[i + 1..], m);
  }

  /** A key list whose every key has value 0 sums to 0. */
  lemma {:induction false} SumKeysZero<K>(a: seq<K>, m: map<K, int>)
    requires forall x :: x in a ==> GetOr0(m, x) == 0
    ensures SumKeys(a, m) == 0
  {
    if a != [] {
      assert a[0] in a;
      SumKeysZero(a[1..], m);
    }
  }

  /** A duplicate-free key list sums like its distinct keys. */
  lemma SumKeysDistinct<K(!new)>(ks: seq<K>, m: map<K, int>)
    requires NoDuplicates(ks)
    ensures SumKeys(Distinct(ks), m) == SumKeys(ks, m)
  {
    SumKeysSubsume(ks, Distinct(ks), m);
  }

  /** Two duplicate-free key lists have the same sum when the second lists a
      subset of the first and the keys only the first lists have value 0. */
  lemma {:induction false} SumKeysSubsume<K>(a: seq<K>, b: seq<K>, m: map<K, int>)
    requires NoDuplicates(a) && NoDuplicates(b)
    requires forall x :: x in b ==> x in a
    requires forall x :: x in a && x !in b ==> GetOr0(m, x) == 0
    ensures SumKeys(a, m) == SumKeys(b, m)
    decreases |b|
  {
    if b == [] {
      SumKeysZero(a, m);
    } else {
      var x := b[0];
      var b' := b[1..];
      assert x in b;
      var i :| 0 <= i < |a| && a[i] == x;
      var a' := a[..i] + a[i + 1..];
      SumKeysRemove(a, i, m);
      assert NoDuplicates(b') by {
        forall p, q | 0 <= p < q < |b'| ensures b'[p] != b'[q] {
          assert b'[p] == b[p + 1] && b'[q] == b[q + 1];
        }
      }
      assert x !in b' by {
        forall k | 0 <= k < |b'| ensures b'[k] != x { assert b'[k] == b[k + 1]; }
      }
      assert NoDuplicates(a') by {
        forall p, q | 0 <= p < q < |a'| ensures a'[p] != a'[q] {
          var p' := if p < i then p else p + 1;
          var q' := if q < i then q else q + 1;
          assert a'[p] == a[p'] && a'[q] == a[q'];
        }
      }
      forall y | y in a' ensures y in a && y != x {
        var j :| 0 <= j < |a'| && a'[j] == y;
        if j < i { assert a'[j] == a[j]; } else { assert a'[j] == a[j + 1]; }
      }
      forall y | y in a && y != x ensures y in a' {
        var j :| 0 <= j < |a| && a[j] == y;
        if j < i { assert a'[j] == y; } else { assert a'[j - 1] == y; }
      }
      forall y | y in b' ensures y in a' {
        assert y in b;
      }
      forall y | y in a' && y !in b' ensures GetOr0(m, y) == 0 {
        assert y !in b;
      }
      SumKeysSubsume(a', b', m);
    }
  }
}
