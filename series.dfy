/**
 * The dictionaries the chart builders fill (rider key to a series, lap time
 * to rider, position to line), in insertion order. A dictionary is a
 * sequence of (key, value) pairs with distinct keys; the reserved entries
 * (`title`, `columns`, `times`) are fields of `Chart` instead.
 */
module Series {
  import opened Wrappers

  /** What one chart builder hands to the renderer for one category. */
  datatype Chart<V> = Chart(file: string, title: string, columns: seq<string>, rows: seq<(string, V)>)

  /** `[None for _ in range(n)]`: empty slots. */
  function Nones<T>(n: nat): (z: seq<Option<T>>)
    ensures |z| == n && forall i :: 0 <= i < n ==> z[i] == None
  {
    seq(n, _ => None)
  }

  /** Every series has `n` entries, one per counted session. */
  predicate Width<K, T>(rows: seq<(K, seq<T>)>, n: nat) {
    forall i :: 0 <= i < |rows| ==> |rows[i].1| == n
  }

  /** In a table of width `n`, the series stored under any key has `n` entries. */
  lemma WidthLookup<K, T>(rows: seq<(K, seq<Option<T>>)>, n: nat, k: K)
    requires Width(rows, n)
    ensures |Lookup(rows, k).GetOr(Nones(n))| == n
  {
    var i := KeyIndex(rows, k);
    if i >= 0 {
      assert Lookup(rows, k) == Some(rows[i].1);
    }
  }

  /** The position of key `k`, or -1 (`k not in d`). */
  function KeyIndex<K(==), V>(rows: seq<(K, V)>, k: K): (i: int)
    ensures -1 <= i < |rows|
    ensures i >= 0 ==> rows[i].0 == k && forall j :: 0 <= j < i ==> rows[j].0 != k
    ensures i < 0 ==> forall j :: 0 <= j < |rows| ==> rows[j].0 != k
  {
    if rows == [] then -1
    else if rows[0].0 == k then 0
    else
      var i := KeyIndex(rows[1..], k);
      if i < 0 then -1 else i + 1
  }

  /** `d.get(k)`. */
  function Lookup<K(==), V>(rows: seq<(K, V)>, k: K): (r: Option<V>)
    ensures r.Some? <==> exists j :: 0 <= j < |rows| && rows[j].0 == k
    ensures r.Some? ==> (k, r.value) in rows
  {
    var i := KeyIndex(rows, k);
    if i < 0 then None else Some(rows[i].1)
  }

  predicate KeysDistinct<K(==), V>(rows: seq<(K, V)>) {
    forall i, j :: 0 <= i < j < |rows| ==> rows[i].0 != rows[j].0
  }

  function Keys<K(==), V>(rows: seq<(K, V)>): (r: seq<K>)
    ensures |r| == |rows| && forall i :: 0 <= i < |rows| ==> r[i] == rows[i].0
  {
    seq(|rows|, i requires 0 <= i < |rows| => rows[i].0)
  }

  /** With distinct keys, the value stored under a key is the one its pair holds. */
  lemma LookupOfMember<K, V>(rows: seq<(K, V)>, k: K, v: V)
    requires KeysDistinct(rows) && (k, v) in rows
    ensures Lookup(rows, k) == Some(v)
  {
    var j :| 0 <= j < |rows| && rows[j] == (k, v);
    assert KeyIndex(rows, k) == j;
  }

  /** Overwriting the value of one key leaves every other key's value. */
  lemma LookupUpdateOther<K, V>(rows: seq<(K, V)>, j: nat, v: V, k: K)
    requires j < |rows| && rows[j].0 != k
    ensures Lookup(rows[j := (rows[j].0, v)], k) == Lookup(rows, k)
  {
    var s := rows[j := (rows[j].0, v)];
    forall i | 0 <= i < |rows| ensures (s[i].0 == k) == (rows[i].0 == k) {
    }
  }

  /** Adding a new key leaves every other key's value. */
  lemma LookupAppendOther<K, V>(rows: seq<(K, V)>, x: (K, V), k: K)
    requires x.0 != k
    ensures Lookup(rows + [x], k) == Lookup(rows, k)
  {
    var s := rows + [x];
    forall i | 0 <= i < |rows| ensures s[i] == rows[i] {
    }
  }

  /** Keys distinct means no pair occurs twice. */
  lemma {:induction false} DistinctCountsOnce<K, V>(rows: seq<(K, V)>, x: (K, V))
    requires KeysDistinct(rows)
    ensures multiset(rows)[x] <= 1
  {
    if rows != [] {
      var p := rows[..|rows| - 1];
      assert rows == p + [rows[|rows| - 1]];
      assert KeysDistinct(p);
      DistinctCountsOnce(p, x);
      if x in p {
        var j :| 0 <= j < |p| && p[j] == x;
        assert rows[j].0 != rows[|rows| - 1].0;
      }
    }
  }

  lemma TwiceCountsTwice<T>(s: seq<T>, i: nat, j: nat)
    requires i < j < |s| && s[i] == s[j]
    ensures multiset(s)[s[i]] >= 2
  {
    assert s == s[..j] + s[j..];
    assert s[i] == s[..j][i];
    assert s[j..][0] == s[j];
  }

  /**
   * A re-ordering of a dictionary's items keeps its keys distinct and every
   * key's value.
   */
  lemma PermutationKeepsLookup<K, V>(rows: seq<(K, V)>, perm: seq<(K, V)>)
    requires KeysDistinct(rows) && multiset(perm) == multiset(rows)
    ensures KeysDistinct(perm)
    ensures forall k :: Lookup(perm, k) == Lookup(rows, k)
  {
    forall i, j | 0 <= i < j < |perm| ensures perm[i].0 != perm[j].0 {
      if perm[i].0 == perm[j].0 {
        assert perm[i] in multiset(rows) && perm[j] in multiset(rows);
        var a :| 0 <= a < |rows| && rows[a] == perm[i];
        var b :| 0 <= b < |rows| && rows[b] == perm[j];
        if a == b {
          TwiceCountsTwice(perm, i, j);
          DistinctCountsOnce(rows, perm[i]);
          assert false;
        } else {
          assert false;
        }
      }
    }
    forall k ensures Lookup(perm, k) == Lookup(rows, k) {
      var l := Lookup(rows, k);
      if l.Some? {
        assert (k, l.value) in multiset(perm);
        LookupOfMember(perm, k, l.value);
      } else {
        forall i | 0 <= i < |perm| ensures perm[i].0 != k {
          assert perm[i] in multiset(rows);
        }
      }
    }
  }

  /** The key lookup sees only the keys. */
  lemma KeyIndexSameKeys<K, V, W>(a: seq<(K, V)>, b: seq<(K, W)>, k: K)
    requires |a| == |b| && forall i :: 0 <= i < |a| ==> a[i].0 == b[i].0
    ensures KeyIndex(a, k) == KeyIndex(b, k)
  {
    var x, y := KeyIndex(a, k), KeyIndex(b, k);
    if x >= 0 && y >= 0 {
      assert a[y].0 == k && b[x].0 == k;
    }
  }

  /** Storing under a key makes it the key's value. */
  lemma LookupUpdateSame<K, V>(rows: seq<(K, V)>, j: nat, v: V)
    requires j < |rows| && KeyIndex(rows, rows[j].0) == j
    ensures Lookup(rows[j := (rows[j].0, v)], rows[j].0) == Some(v)
  {
    var s := rows[j := (rows[j].0, v)];
    forall i | 0 <= i < j ensures s[i].0 != rows[j].0 {
    }
  }

  /** `d[k] = v`: overwrites the value of a present key in place, else appends the pair. */
  function Put<K(==), V>(rows: seq<(K, V)>, k: K, v: V): (r: seq<(K, V)>)
    ensures |r| == |rows| || |r| == |rows| + 1
  {
    var i := KeyIndex(rows, k);
    if i < 0 then rows + [(k, v)] else rows[i := (k, v)]
  }

  /** After `d[k] = v`, `k` holds `v`, every other key its old value, and keys stay distinct. */
  lemma PutSpec<K, V>(rows: seq<(K, V)>, k: K, v: V)
    ensures Lookup(Put(rows, k, v), k) == Some(v)
    ensures forall x :: x != k ==> Lookup(Put(rows, k, v), x) == Lookup(rows, x)
    ensures KeysDistinct(rows) ==> KeysDistinct(Put(rows, k, v))
  {
    var i := KeyIndex(rows, k);
    var r := Put(rows, k, v);
    if i < 0 {
      forall x | x != k ensures Lookup(r, x) == Lookup(rows, x) {
        LookupAppendOther(rows, (k, v), x);
      }
      assert r[|rows|].0 == k;
    } else {
      LookupUpdateSame(rows, i, v);
      forall x | x != k ensures Lookup(r, x) == Lookup(rows, x) {
        LookupUpdateOther(rows, i, v, x);
      }
    }
  }
}
