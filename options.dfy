/**
 * The menu-option reader of the scraper (`get_options`): the values offered
 * by a page's selector widget, without repeats, optionally only those that
 * come after a resume point.
 */
module Options {
  import opened Wrappers

  /**
   * A child of the widget element: an option tag carrying its `value`, or any
   * other node (a text node, on which `source['value']` raises the TypeError
   * that the source swallows).
   */
  datatype Child = OptionTag(value: string) | TextNode

  /** The values of the option tags, in document order. */
  function Values(children: seq<Child>): (r: seq<string>)
    ensures forall v :: v in r <==> OptionTag(v) in children
  {
    if children == [] then []
    else
      var init := Values(children[..|children| - 1]);
      assert children == children[..|children| - 1] + [children[|children| - 1]];
      match children[|children| - 1]
      case OptionTag(v) => init + [v]
      case TextNode => init
  }

  /** The values of a widget that may be missing from the page (`s.find` gives None). */
  function WidgetValues(widget: Option<seq<Child>>): seq<string> {
    if widget.Some? then Values(widget.value) else []
  }

  predicate NoDup<T(==)>(xs: seq<T>) {
    forall i, j :: 0 <= i < j < |xs| ==> xs[i] != xs[j]
  }

  /** The first index of `x` in `xs`. */
  function IndexOf<T(==)>(xs: seq<T>, x: T): (r: nat)
    requires x in xs
    ensures r < |xs| && xs[r] == x && x !in xs[..r]
  {
    if xs[0] == x then 0 else 1 + IndexOf(xs[1..], x)
  }

  /** The keys of an ordered dictionary filled from `xs`: each value once, at its first occurrence. */
  function Dedup<T(==)>(xs: seq<T>): (r: seq<T>)
    ensures NoDup(r)
    ensures forall k :: 0 <= k < |r| ==> r[k] in xs
    ensures forall k :: 0 <= k < |xs| ==> xs[k] in r
  {
    if xs == [] then []
    else
      var d := Dedup(xs[..|xs| - 1]);
      assert xs == xs[..|xs| - 1] + [xs[|xs| - 1]];
      if xs[|xs| - 1] in d then d else d + [xs[|xs| - 1]]
  }

  /** What the resume filter keeps of `xs`: everything strictly after `c`, nothing if `c` is absent. */
  function After<T(==)>(xs: seq<T>, c: T): seq<T> {
    if c in xs then xs[IndexOf(xs, c) + 1..] else []
  }

  lemma {:induction false} DedupFirstOccurrenceOrder<T>(xs: seq<T>)
    ensures forall i, j :: 0 <= i < j < |Dedup(xs)| ==>
      IndexOf(xs, Dedup(xs)[i]) < IndexOf(xs, Dedup(xs)[j])
  {
    if xs != [] {
      var p := xs[..|xs| - 1];
      var x := xs[|xs| - 1];
      DedupFirstOccurrenceOrder(p);
      var d, dp := Dedup(xs), Dedup(p);
      assert xs == p + [x];
      forall i, j | 0 <= i < j < |d| ensures IndexOf(xs, d[i]) < IndexOf(xs, d[j]) {
        IndexOfExtended(p, x, d[i]);
        if x !in dp && j == |d| - 1 {
          IndexOfLast(p, x);
        } else {
          IndexOfExtended(p, x, d[j]);
          assert d[i] == dp[i] && d[j] == dp[j];
        }
      }
    }
  }

  /** Two values of the dictionary are in the order of their first occurrences in the input. */
  lemma DedupOrderIff<T>(xs: seq<T>, i: nat, j: nat)
    requires i < |Dedup(xs)| && j < |Dedup(xs)|
    ensures i < j <==> IndexOf(xs, Dedup(xs)[i]) < IndexOf(xs, Dedup(xs)[j])
  {
    DedupFirstOccurrenceOrder(xs);
  }

  /** Appending a value keeps the first index of every value already present. */
  lemma IndexOfExtended<T>(p: seq<T>, x: T, y: T)
    requires y in p + [x] && (y in p || y == x)
    ensures y in p ==> IndexOf(p + [x], y) == IndexOf(p, y)
  {
    if y in p {
      var k := IndexOf(p, y);
      assert (p + [x])[k] == y;
      assert (p + [x])[..k] == p[..k];
    }
  }

  /** A value that is new at the end has the last index. */
  lemma IndexOfLast<T>(p: seq<T>, x: T)
    requires x !in p
    ensures IndexOf(p + [x], x) == |p|
  {
    assert (p + [x])[..|p|] == p;
  }

  lemma AfterOfDistinct<T>(xs: seq<T>, c: T, x: T)
    requires NoDup(xs) && c in xs
    ensures x in After(xs, c) <==> x in xs && IndexOf(xs, c) < IndexOf(xs, x)
  {
    var k := IndexOf(xs, c);
    if x in After(xs, c) {
      var m :| k + 1 <= m < |xs| && xs[m] == x;
      assert IndexOf(xs, x) == m;
    }
    if x in xs && k < IndexOf(xs, x) {
      assert xs[k + 1..][IndexOf(xs, x) - k - 1] == x;
    }
  }

  /**
   * With a resume point present among the values, exactly the values whose
   * first occurrence lies after the resume point's first occurrence are
   * kept; the resume point itself never is.
   */
  lemma {:induction false} AfterDedupMembership<T>(xs: seq<T>, c: T, x: T)
    requires c in xs
    ensures x in After(Dedup(xs), c) <==> x in xs && IndexOf(xs, c) < IndexOf(xs, x)
    ensures c !in After(Dedup(xs), c)
  {
    var d := Dedup(xs);
    AfterOfDistinct(d, c, x);
    AfterOfDistinct(d, c, c);
    if x in xs {
      DedupOrderIff(xs, IndexOf(d, c), IndexOf(d, x));
    }
  }

  /** A resume point that no option carries stops the traversal: nothing is kept. */
  lemma AbsentCutoffKeepsNothing<T>(xs: seq<T>, c: T)
    requires c !in xs
    ensures After(Dedup(xs), c) == []
  {
  }

  /** Keeps the first occurrence of each value, as filling an OrderedDict does. */
  method Distinct(options: seq<string>) returns (keys: seq<string>)
    ensures keys == Dedup(options)
  {
    keys := [];
    for i := 0 to |options|
      invariant keys == Dedup(options[..i])
    {
      assert options[..i + 1][..i] == options[..i];
      if options[i] !in keys {
        keys := keys + [options[i]];
      }
    }
    assert options[..|options|] == options;
  }

  /** The loop over the widget's children; a child without a value is skipped. */
  method CollectValues(children: seq<Child>) returns (options: seq<string>)
    ensures options == Values(children)
  {
    options := [];
    for i := 0 to |children|
      invariant options == Values(children[..i])
    {
      assert children[..i + 1][..i] == children[..i];
      match children[i]
      case OptionTag(v) =>
        options := options + [v];
      case TextNode =>
    }
    assert children[..|children|] == children;
  }

  /** The `start_accepting` loop: nothing until the resume point, then everything after it. */
  method AcceptAfter(candidates: seq<string>, cutoff: string) returns (valid: seq<string>)
    ensures valid == After(candidates, cutoff)
  {
    valid := [];
    var startAccepting := false;
    for i := 0 to |candidates|
      invariant !startAccepting ==> cutoff !in candidates[..i] && valid == []
      invariant startAccepting ==> cutoff in candidates[..i] && valid == candidates[IndexOf(candidates, cutoff) + 1..i]
    {
      if !startAccepting {
        if candidates[i] == cutoff {
          startAccepting := true;
          assert IndexOf(candidates, cutoff) == i;
        }
      } else {
        valid := valid + [candidates[i]];
      }
    }
    assert candidates[..|candidates|] == candidates;
  }

  /**
   * `get_options` once the page is fetched: `widget` is the element found by
   * id (None when the page lacks it), `onlyAcceptAfter` the resume point.
   */
  method GetOptions(widget: Option<seq<Child>>, onlyAcceptAfter: Option<string>) returns (opts: seq<string>)
    ensures NoDup(opts)
    ensures onlyAcceptAfter.None? ==> opts == Dedup(WidgetValues(widget))
    ensures onlyAcceptAfter.Some? ==> opts == After(Dedup(WidgetValues(widget)), onlyAcceptAfter.value)
  {
    var options: seq<string> := [];
    if widget.Some? {
      options := CollectValues(widget.value);
    }
    var candidates := Distinct(options);
    if onlyAcceptAfter.Some? {
      opts := AcceptAfter(candidates, onlyAcceptAfter.value);
    } else {
      opts := candidates;
    }
  }
}
