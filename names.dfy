/**
 * The rider-name split of `insert_in_database`: the regular expression
 * `\ [A]([B])*.?$` searched in the full name gives the last name, and the
 * text before the first occurrence of the lower-cased last name gives the
 * first name.
 */
module Names {
  import opened Wrappers
  import opened Text

  /**
   * The first bracket of the pattern: A-Z, the accented capitals listed in
   * it, and the characters `(`, `M`, `c`, `)` of the bracketed `(Mc)`.
   */
  predicate InA(c: char) {
    ('A' <= c <= 'Z') || c == '\U{D3}' || c == '\U{D1}' || c == '\U{D8}' || c == '\U{DC}' || c == '\U{C4}'
    || c == '\U{D6}' || c == '\U{C9}' || c == '\U{DA}' || c == '\U{C1}' || c == '(' || c == ')' || c == 'c'
  }

  /** The repeated bracket: the first one plus `J`, `r`, the apostrophe, the hyphen and the space. */
  predicate InB(c: char) {
    InA(c) || c == 'r' || c == '\'' || c == '-' || c == ' '
  }

  /** `$`: the end of the text, or just before a newline that ends it. */
  predicate AtEnd(name: string, p: nat) {
    p == |name| || (p + 1 == |name| && name[p] == '\n')
  }

  /** The end of the longest run of `B` characters starting at `k`. */
  function RunEnd(name: string, k: nat): (e: nat)
    requires k <= |name|
    ensures k <= e <= |name|
    ensures forall j :: k <= j < e ==> InB(name[j])
    ensures e == |name| || !InB(name[e])
    decreases |name| - k
  {
    if k < |name| && InB(name[k]) then RunEnd(name, k + 1) else k
  }

  /**
   * Backtracking over the greedy `([B])*` whose run ends at `e`, then `.?`
   * (one character that is not a newline, tried before none) followed by `$`.
   */
  function TryFrom(name: string, lo: nat, e: nat): (r: Option<nat>)
    requires lo <= e <= |name|
    ensures r.Some? ==> lo <= r.value <= |name| && AtEnd(name, r.value)
    decreases e
  {
    if e < |name| && name[e] != '\n' && AtEnd(name, e + 1) then Some(e + 1)
    else if AtEnd(name, e) then Some(e)
    else if e == lo then None
    else TryFrom(name, lo, e - 1)
  }

  /** The end of the match of the pattern starting at `i`, if there is one. */
  function MatchAt(name: string, i: nat): (r: Option<nat>)
    ensures r.Some? ==> i + 2 <= r.value <= |name| && name[i] == ' ' && InA(name[i + 1])
  {
    if i + 2 <= |name| && name[i] == ' ' && InA(name[i + 1]) then TryFrom(name, i + 2, RunEnd(name, i + 2))
    else None
  }

  /** `re.search` from position `i` on: the leftmost match, as (start, end). */
  function SearchFrom(name: string, i: nat): (r: Option<(nat, nat)>)
    requires i <= |name|
    ensures r.None? ==> forall j :: i <= j <= |name| ==> MatchAt(name, j).None?
    ensures r.Some? ==> i <= r.value.0 && MatchAt(name, r.value.0) == Some(r.value.1)
    ensures r.Some? ==> forall j :: i <= j < r.value.0 ==> MatchAt(name, j).None?
    decreases |name| - i
  {
    match MatchAt(name, i)
    case Some(e) => Some((i, e))
    case None => if i == |name| then None else SearchFrom(name, i + 1)
  }

  function Search(name: string): (r: Option<(nat, nat)>)
    ensures r.None? ==> forall j :: 0 <= j <= |name| ==> MatchAt(name, j).None?
    ensures r.Some? ==> MatchAt(name, r.value.0) == Some(r.value.1)
    ensures r.Some? ==> forall j :: 0 <= j < r.value.0 ==> MatchAt(name, j).None?
  {
    SearchFrom(name, 0)
  }

  /** Every backtracking step gives up only when `$` cannot be reached from the run. */
  lemma {:induction false} TryFromWholeSuffix(name: string, lo: nat, e: nat)
    requires lo <= e <= |name| && '\n' !in name
    requires e == |name| || e + 1 == |name|
    ensures TryFrom(name, lo, e) == Some(|name|)
  {
  }

  lemma {:induction false} TryFromFails(name: string, lo: nat, e: nat)
    requires lo <= e <= |name| && '\n' !in name
    requires e + 1 < |name|
    ensures TryFrom(name, lo, e).None?
    decreases e
  {
    if e != lo {
      TryFromFails(name, lo, e - 1);
    }
  }

  /**
   * The pattern read directly off a name without newlines: `name[i]` is a
   * space, `name[i + 1]` is in the first bracket and every later character
   * but the last is in the repeated bracket.
   */
  predicate Fits(name: string, i: nat) {
    i + 2 <= |name| && name[i] == ' ' && InA(name[i + 1])
    && forall k :: i + 2 <= k < |name| - 1 ==> InB(name[k])
  }

  /**
   * On a name without newlines the pattern matches at `i` exactly when it
   * fits there, and the match then runs to the end of the name.
   */
  lemma MatchAtClosedForm(name: string, i: nat)
    requires '\n' !in name
    ensures MatchAt(name, i).Some? <==> Fits(name, i)
    ensures MatchAt(name, i).Some? ==> MatchAt(name, i).value == |name|
  {
    if i + 2 <= |name| && name[i] == ' ' && InA(name[i + 1]) {
      var e := RunEnd(name, i + 2);
      if forall k :: i + 2 <= k < |name| - 1 ==> InB(name[k]) {
        TryFromWholeSuffix(name, i + 2, e);
      } else {
        var k :| i + 2 <= k < |name| - 1 && !InB(name[k]);
        assert e <= k;
        TryFromFails(name, i + 2, e);
      }
    }
  }

  /** The split: the lower-cased (first, last) names, or none when the row is skipped. */
  datatype Split = Split(first: string, last: string)

  /**
   * The last name is the stripped, lower-cased match; the first name is the
   * stripped, lower-cased text before the last name's first occurrence in
   * the original name (all but the last character when it does not occur).
   * No match, or an empty name or part, skips the row.
   */
  function SplitName(rider: string): (r: Option<Split>)
    ensures r.Some? ==> |r.value.first| >= 1 && |r.value.last| >= 1 && |rider| >= 1
  {
    match Search(rider)
    case None => None
    case Some((i, e)) =>
      var last := Lower(Strip(rider[i..e]));
      var first := Lower(Strip(PySlice(rider, 0, Find(rider, last))));
      if |rider| < 1 || |last| < 1 || |first| < 1 then None else Some(Split(first, last))
  }

  /** The guard on the last name never fires: a match holds a character of the first bracket. */
  lemma LastNameNeverEmpty(rider: string)
    requires Search(rider).Some?
    ensures |Lower(Strip(rider[Search(rider).value.0..Search(rider).value.1]))| >= 1
  {
    var (i, e) := Search(rider).value;
    var m := rider[i..e];
    assert m[1] == rider[i + 1];
    StripKeepsNonSpace(m, 1);
  }

  /** The search misses exactly when no position matches; a miss skips the row. */
  lemma SplitNameMiss(rider: string)
    ensures (forall j :: 0 <= j <= |rider| ==> MatchAt(rider, j).None?) <==> Search(rider).None?
    ensures Search(rider).None? ==> SplitName(rider).None?
  {
  }

  /**
   * When the lower-cased last name does not occur in the original name, the
   * first name is the name without its final character, stripped and lower-cased.
   */
  lemma FirstNameWhenNotFound(rider: string)
    requires Search(rider).Some? && SplitName(rider).Some?
    requires Find(rider, SplitName(rider).value.last) == -1
    ensures SplitName(rider).value.first == Lower(Strip(rider[..|rider| - 1]))
  {
  }

  /**
   * On a name without newlines the split follows from the leftmost position
   * where the pattern fits: the last name is everything from there on,
   * stripped and lower-cased, and it is never empty; the row is skipped only
   * when the first name comes out empty.
   */
  lemma SplitNameAtLeftmost(rider: string, i: nat)
    requires '\n' !in rider
    requires Fits(rider, i) && forall j :: 0 <= j < i ==> !Fits(rider, j)
    ensures var last := Lower(Strip(rider[i..]));
            var first := Lower(Strip(PySlice(rider, 0, Find(rider, last))));
            |last| >= 1 && SplitName(rider) == (if |first| >= 1 then Some(Split(first, last)) else None)
  {
    forall j | 0 <= j < i ensures MatchAt(rider, j).None? {
      MatchAtClosedForm(rider, j);
    }
    SearchAtLeftmost(rider, i);
    LastNameNeverEmpty(rider);
    assert rider[i..|rider|] == rider[i..];
    var last := Lower(Strip(rider[i..]));
    var first := Lower(Strip(PySlice(rider, 0, Find(rider, last))));
    assert SplitName(rider) == if |rider| < 1 || |last| < 1 || |first| < 1 then None else Some(Split(first, last));
  }

  /** The search lands on the leftmost position where the pattern fits. */
  lemma SearchAtLeftmost(rider: string, i: nat)
    requires '\n' !in rider
    requires Fits(rider, i) && forall j :: 0 <= j < i ==> MatchAt(rider, j).None?
    ensures Search(rider) == Some((i, |rider|))
  {
    MatchAtClosedForm(rider, i);
    var r := Search(rider);
    assert r.Some?;
    assert r.value.0 == i;
  }

  /** On a name without newlines, a name the pattern fits nowhere is skipped. */
  lemma SplitNameNoFit(rider: string)
    requires '\n' !in rider
    requires forall j :: 0 <= j <= |rider| ==> !Fits(rider, j)
    ensures SplitName(rider).None?
  {
    forall j | 0 <= j <= |rider| ensures MatchAt(rider, j).None? {
      MatchAtClosedForm(rider, j);
    }
    SplitNameMiss(rider);
  }

  /** A needle using a character the text lacks is never found. */
  lemma FindMissingChar(s: string, sub: string, k: nat)
    requires k < |sub| && sub[k] !in s
    ensures Find(s, sub) == -1
  {
  }

  lemma ExampleLast(m: string)
    requires m == " S RIDERSIX"
    ensures Lower(Strip(m)) == "s ridersix"
  {
    assert LStrip(m) == m[1..];
    assert Strip(m) == "S RIDERSIX";
  }

  lemma ExampleFirst(head: string)
    requires head == "Dummy S RIDERSI"
    ensures Lower(Strip(head)) == "dummy s ridersi"
  {
    assert !IsSpace(head[0]) && !IsSpace(head[14]);
    assert LStrip(head) == head;
    assert RStrip(head) == head;
    var low, want := Lower(head), "dummy s ridersi";
    forall k | 0 <= k < 5 ensures low[k] == want[k] {
      assert low[k] == LowerChar(head[k]);
    }
    forall k | 5 <= k < 10 ensures low[k] == want[k] {
      assert low[k] == LowerChar(head[k]);
    }
    forall k | 10 <= k < 15 ensures low[k] == want[k] {
      assert low[k] == LowerChar(head[k]);
    }
  }

  /**
   * The example name has no newline, and a capital S only, so the
   * lower-cased last name is not in it.
   */
  lemma ExampleNoSmallS(rider: string)
    requires rider == "Dummy S RIDERSIX"
    ensures '\n' !in rider && 's' !in rider
  {
  }

  /** In the example the pattern first fits at the space before the initial. */
  lemma ExampleFitsAtInitial(rider: string)
    requires rider == "Dummy S RIDERSIX"
    ensures Fits(rider, 5) && forall j :: 0 <= j < 5 ==> !Fits(rider, j)
  {
    forall j | 0 <= j < 5 ensures !Fits(rider, j) {
      assert rider[j] != ' ';
    }
  }

  /** "Dummy S RIDERSIX" splits into "dummy s ridersi" and "s ridersix". */
  lemma ExampleInitialInLastName(rider: string)
    requires rider == "Dummy S RIDERSIX"
    ensures SplitName(rider) == Some(Split("dummy s ridersi", "s ridersix"))
  {
    assert rider[5..] == " S RIDERSIX";
    ExampleLast(rider[5..]);
    ExampleNoSmallS(rider);
    ExampleFitsAtInitial(rider);
    SplitNameAtLeftmost(rider, 5);
    var last := Lower(Strip(rider[5..]));
    assert last == "s ridersix";
    FindMissingChar(rider, last, 0);
    var head := PySlice(rider, 0, Find(rider, last));
    assert head == "Dummy S RIDERSI";
    ExampleFirst(head);
  }
}
