/**
 * Python's ordering of lists and strings, and its stable `sorted`, as used
 * by the standings re-ordering and by the qualifying lap-time ranking.
 */
module Order {

  /** Python's `a < b` on two lists of integers: lexicographic, a proper prefix is smaller. */
  predicate LexLess(a: seq<int>, b: seq<int>)
    decreases |a|
  {
    if |a| == 0 then |b| > 0
    else if |b| == 0 then false
    else if a[0] != b[0] then a[0] < b[0]
    else LexLess(a[1..], b[1..])
  }

  /** `a <= b` in the same order. */
  predicate LexLe(a: seq<int>, b: seq<int>) {
    !LexLess(b, a)
  }

  lemma {:induction false} LexIrreflexive(a: seq<int>)
    ensures !LexLess(a, a)
  {
    if |a| > 0 {
      LexIrreflexive(a[1..]);
    }
  }

  lemma {:induction false} LexTransitive(a: seq<int>, b: seq<int>, c: seq<int>)
    requires LexLess(a, b) && LexLess(b, c)
    ensures LexLess(a, c)
    decreases |a|
  {
    if |a| > 0 && a[0] == b[0] && b[0] == c[0] {
      LexTransitive(a[1..], b[1..], c[1..]);
    }
  }

  lemma {:induction false} LexTotal(a: seq<int>, b: seq<int>)
    ensures a == b || LexLess(a, b) || LexLess(b, a)
    decreases |a|
  {
    if |a| > 0 && |b| > 0 && a[0] == b[0] {
      LexTotal(a[1..], b[1..]);
      if a[1..] == b[1..] {
        assert a == [a[0]] + a[1..] && b == [b[0]] + b[1..];
      }
    }
  }

  lemma LexAsymmetric(a: seq<int>, b: seq<int>)
    requires LexLess(a, b)
    ensures !LexLess(b, a)
  {
    if LexLess(b, a) {
      LexTransitive(a, b, a);
      LexIrreflexive(a);
    }
  }

  lemma LexLeTransitive(a: seq<int>, b: seq<int>, c: seq<int>)
    requires LexLe(a, b) && LexLe(b, c)
    ensures LexLe(a, c)
  {
    LexTotal(a, b);
    LexTotal(b, c);
    if LexLess(c, a) {
      if a == b {
      } else if b == c {
      } else {
        LexTransitive(a, b, c);
        LexAsymmetric(a, c);
      }
    }
  }

  /** The code points of a string: Python compares strings by them. */
  function Codes(s: string): (r: seq<int>)
    ensures |r| == |s| && forall i :: 0 <= i < |s| ==> r[i] == s[i] as int
  {
    seq(|s|, i requires 0 <= i < |s| => s[i] as int)
  }

  lemma CodesInjective(a: string, b: string)
    requires Codes(a) == Codes(b)
    ensures a == b
  {
    assert |a| == |b|;
    forall i | 0 <= i < |a| ensures a[i] == b[i] {
      assert Codes(a)[i] == Codes(b)[i];
    }
  }

  /** Python's `a < b` on strings. */
  predicate StrLess(a: string, b: string) {
    LexLess(Codes(a), Codes(b))
  }

  /** Non-decreasing under `key`. */
  ghost predicate SortedBy<T>(xs: seq<T>, key: T -> seq<int>) {
    forall i, j :: 0 <= i < j < |xs| ==> LexLe(key(xs[i]), key(xs[j]))
  }

  /** Places `x` after every element whose key is not greater than its own. */
  function Insert<T>(s: seq<T>, x: T, key: T -> seq<int>): (r: seq<T>)
    ensures |r| == |s| + 1
    ensures multiset(r) == multiset(s) + multiset{x}
  {
    if s == [] then [x]
    else if LexLess(key(x), key(s[0])) then [x] + s
    else
      assert s == [s[0]] + s[1..];
      [s[0]] + Insert(s[1..], x, key)
  }

  lemma {:induction false} InsertSorted<T>(s: seq<T>, x: T, key: T -> seq<int>)
    requires SortedBy(s, key)
    ensures SortedBy(Insert(s, x, key), key)
  {
    if s == [] {
    } else if LexLess(key(x), key(s[0])) {
      var r := Insert(s, x, key);
      assert r == [x] + s;
      forall j | 1 <= j < |r| ensures LexLe(key(r[0]), key(r[j])) {
        assert r[j] == s[j - 1];
        LexTotal(key(s[0]), key(s[j - 1]));
        if key(s[0]) != key(s[j - 1]) {
          LexTransitive(key(x), key(s[0]), key(s[j - 1]));
        }
        LexAsymmetric(key(x), key(s[j - 1]));
      }
    } else {
      var t := Insert(s[1..], x, key);
      InsertSorted(s[1..], x, key);
      var r := [s[0]] + t;
      assert r == Insert(s, x, key);
      forall j | 1 <= j < |r| ensures LexLe(key(r[0]), key(r[j])) {
        assert r[j] in multiset(t);
        assert r[j] in multiset(s[1..]) || r[j] == x;
        if r[j] != x {
          var k :| 0 <= k < |s[1..]| && s[1..][k] == r[j];
          assert s[k + 1] == r[j];
        }
      }
    }
  }

  /** Python's `sorted(xs, key=...)`: a stable sort, ascending. */
  function SortBy<T>(xs: seq<T>, key: T -> seq<int>): (r: seq<T>)
    ensures |r| == |xs|
    ensures multiset(r) == multiset(xs)
  {
    if xs == [] then []
    else
      assert xs == xs[..|xs| - 1] + [xs[|xs| - 1]];
      assert multiset(xs) == multiset(xs[..|xs| - 1]) + multiset{xs[|xs| - 1]};
      Insert(SortBy(xs[..|xs| - 1], key), xs[|xs| - 1], key)
  }

  /** `sorted` returns its input in ascending order. */
  lemma {:induction false} SortBySorted<T>(xs: seq<T>, key: T -> seq<int>)
    ensures SortedBy(SortBy(xs, key), key)
  {
    if xs != [] {
      SortBySorted(xs[..|xs| - 1], key);
      InsertSorted(SortBy(xs[..|xs| - 1], key), xs[|xs| - 1], key);
    }
  }

  /** Python's `reversed`. */
  function Reverse<T>(s: seq<T>): (r: seq<T>)
    ensures |r| == |s| && forall i :: 0 <= i < |s| ==> r[i] == s[|s| - 1 - i]
  {
    if s == [] then [] else Reverse(s[1..]) + [s[0]]
  }

  lemma {:induction false} ReverseMultiset<T>(s: seq<T>)
    ensures multiset(Reverse(s)) == multiset(s)
  {
    if s != [] {
      ReverseMultiset(s[1..]);
      assert s == [s[0]] + s[1..];
    }
  }

  /** Non-increasing under `key`. */
  ghost predicate DescendingBy<T>(xs: seq<T>, key: T -> seq<int>) {
    forall i, j :: 0 <= i < j < |xs| ==> LexLe(key(xs[j]), key(xs[i]))
  }

  lemma ReverseOfSorted<T>(s: seq<T>, key: T -> seq<int>)
    requires SortedBy(s, key)
    ensures DescendingBy(Reverse(s), key)
  {
    var r := Reverse(s);
    forall i, j | 0 <= i < j < |r| ensures LexLe(key(r[j]), key(r[i])) {
      var a, b := |s| - 1 - j, |s| - 1 - i;
      assert r[i] == s[b] && r[j] == s[a];
    }
  }

  /** `reversed(sorted(xs, key=...))`: a permutation of `xs`, in non-increasing key order. */
  lemma ReverseSortedDescending<T>(xs: seq<T>, key: T -> seq<int>)
    ensures multiset(Reverse(SortBy(xs, key))) == multiset(xs)
    ensures DescendingBy(Reverse(SortBy(xs, key)), key)
  {
    SortBySorted(xs, key);
    ReverseMultiset(SortBy(xs, key));
    ReverseOfSorted(SortBy(xs, key), key);
  }

  /** The elements whose key is `k`, in their order in `xs`: how a sort's ties are seen. */
  function WithKey<T>(xs: seq<T>, key: T -> seq<int>, k: seq<int>): (r: seq<T>)
    ensures |r| <= |xs|
    ensures forall i :: 0 <= i < |r| ==> key(r[i]) == k
  {
    if xs == [] then []
    else (if key(xs[0]) == k then [xs[0]] else []) + WithKey(xs[1..], key, k)
  }

  lemma {:induction false} WithKeyAppend<T>(a: seq<T>, b: seq<T>, key: T -> seq<int>, k: seq<int>)
    ensures WithKey(a + b, key, k) == WithKey(a, key, k) + WithKey(b, key, k)
  {
    if a == [] {
      assert a + b == b;
    } else {
      assert (a + b)[1..] == a[1..] + b;
      WithKeyAppend(a[1..], b, key, k);
    }
  }

  lemma {:induction false} WithKeyNone<T>(xs: seq<T>, key: T -> seq<int>, k: seq<int>)
    requires forall i :: 0 <= i < |xs| ==> key(xs[i]) != k
    ensures WithKey(xs, key, k) == []
  {
    if xs != [] {
      WithKeyNone(xs[1..], key, k);
    }
  }

  /** In a sorted list, a key below the head's is no element's key. */
  lemma BelowHeadNoTie<T>(s: seq<T>, x: T, key: T -> seq<int>)
    requires SortedBy(s, key) && |s| > 0 && LexLess(key(x), key(s[0]))
    ensures forall i :: 0 <= i < |s| ==> key(s[i]) != key(x)
  {
    LexIrreflexive(key(x));
    forall i | 0 < i < |s| ensures key(s[i]) != key(x) {
      assert LexLe(key(s[0]), key(s[i]));
    }
  }

  lemma SortedTail<T>(s: seq<T>, key: T -> seq<int>)
    requires SortedBy(s, key) && |s| > 0
    ensures SortedBy(s[1..], key)
  {
    forall i, j | 0 <= i < j < |s| - 1 ensures LexLe(key(s[1..][i]), key(s[1..][j])) {
      assert s[1..][i] == s[i + 1] && s[1..][j] == s[j + 1];
    }
  }

  /** Inserting into a sorted list puts the new element after every element with its key. */
  lemma {:induction false} InsertWithKey<T>(s: seq<T>, x: T, key: T -> seq<int>, k: seq<int>)
    requires SortedBy(s, key)
    ensures WithKey(Insert(s, x, key), key, k) == WithKey(s, key, k) + (if key(x) == k then [x] else [])
  {
    var own := if key(x) == k then [x] else [];
    if s == [] {
      assert WithKey([x], key, k) == own + WithKey([], key, k);
      assert WithKey(Insert(s, x, key), key, k) == WithKey(s, key, k) + own;
    } else if LexLess(key(x), key(s[0])) {
      assert Insert(s, x, key) == [x] + s;
      assert ([x] + s)[1..] == s;
      assert WithKey([x] + s, key, k) == own + WithKey(s, key, k);
      if key(x) == k {
        BelowHeadNoTie(s, x, key);
        WithKeyNone(s, key, k);
      }
      assert WithKey(Insert(s, x, key), key, k) == WithKey(s, key, k) + own;
    } else {
      SortedTail(s, key);
      InsertWithKey(s[1..], x, key, k);
      InsertPastHeadWithKey(s, x, key, k);
    }
  }

  /** One step of `Insert` past the head, seen through `WithKey`. */
  lemma InsertPastHeadWithKey<T>(s: seq<T>, x: T, key: T -> seq<int>, k: seq<int>)
    requires |s| > 0 && !LexLess(key(x), key(s[0]))
    requires WithKey(Insert(s[1..], x, key), key, k) == WithKey(s[1..], key, k) + (if key(x) == k then [x] else [])
    ensures WithKey(Insert(s, x, key), key, k) == WithKey(s, key, k) + (if key(x) == k then [x] else [])
  {
    var own := if key(x) == k then [x] else [];
    var t := Insert(s[1..], x, key);
    assert Insert(s, x, key) == [s[0]] + t;
    assert ([s[0]] + t)[1..] == t;
    var head := if key(s[0]) == k then [s[0]] else [];
    assert WithKey([s[0]] + t, key, k) == head + WithKey(t, key, k);
    var rest := WithKey(s[1..], key, k);
    assert WithKey(s, key, k) == head + rest;
    AppendAssoc(head, rest, own);
  }

  lemma AppendAssoc<T>(a: seq<T>, b: seq<T>, c: seq<T>)
    ensures a + (b + c) == (a + b) + c
  {
  }

  /** `sorted` is stable: the elements of one key keep their input order. */
  lemma {:induction false} SortByStable<T>(xs: seq<T>, key: T -> seq<int>, k: seq<int>)
    ensures WithKey(SortBy(xs, key), key, k) == WithKey(xs, key, k)
  {
    if xs != [] {
      var p, x := xs[..|xs| - 1], xs[|xs| - 1];
      assert xs == p + [x];
      var own := if key(x) == k then [x] else [];
      assert SortBy(xs, key) == Insert(SortBy(p, key), x, key);
      SortByStable(p, key, k);
      SortBySorted(p, key);
      InsertWithKey(SortBy(p, key), x, key, k);
      assert WithKey(SortBy(xs, key), key, k) == WithKey(p, key, k) + own;
      WithKeyAppend(p, [x], key, k);
      assert [x][1..] == [];
      assert WithKey([x], key, k) == own + [];
    }
  }

  lemma {:induction false} ReverseWithKey<T>(s: seq<T>, key: T -> seq<int>, k: seq<int>)
    ensures WithKey(Reverse(s), key, k) == Reverse(WithKey(s, key, k))
  {
    if s != [] {
      ReverseWithKey(s[1..], key, k);
      WithKeyAppend(Reverse(s[1..]), [s[0]], key, k);
      assert WithKey([s[0]], key, k) == (if key(s[0]) == k then [s[0]] else []);
      var w := WithKey(s[1..], key, k);
      if key(s[0]) == k {
        assert ([s[0]] + w)[1..] == w;
      } else {
        assert WithKey(s, key, k) == w;
      }
    }
  }

  /**
   * `reversed(sorted(xs, key=...))` puts elements of equal key in the
   * reverse of their input order.
   */
  lemma ReverseSortedTieOrder<T>(xs: seq<T>, key: T -> seq<int>, k: seq<int>)
    ensures WithKey(Reverse(SortBy(xs, key)), key, k) == Reverse(WithKey(xs, key, k))
  {
    ReverseWithKey(SortBy(xs, key), key, k);
    SortByStable(xs, key, k);
  }
}
