/**
 * `Season.create_season_chart`: cumulative championship points per rider,
 * one entry per point session of the season's events, the lines re-ordered
 * after every session by `reversed(sorted(..., key=lambda x: x[-1]))`,
 * whose key is the whole series and not its final total.
 */
module Standings {
  import opened Wrappers
  import opened Text
  import opened Order
  import opened Options
  import opened Schema
  import opened Series

  /** One rider line: its key and its running totals. */
  type Line = (string, seq<int>)

  /** The `modern_points` table, with `.get(position, 0)`. */
  function Points(position: int): (p: nat)
    ensures p <= 25
    ensures p > 0 <==> 1 <= position <= 15
  {
    if position == 1 then 25
    else if position == 2 then 20
    else if position == 3 then 16
    else if position == 4 then 13
    else if position == 5 then 11
    else if 6 <= position <= 15 then 16 - position
    else 0
  }

  /** A better finish never scores less; within the table it scores strictly more. */
  lemma PointsDecrease(a: int, b: int)
    requires 1 <= a < b
    ensures Points(a) >= Points(b)
    ensures b <= 15 ==> Points(a) > Points(b)
  {
  }

  function Zeros(n: nat): (z: seq<int>)
    ensures |z| == n && forall i :: 0 <= i < n ==> z[i] == 0
  {
    seq(n, _ => 0)
  }

  /** All series have `n` entries. */
  /** The slot a line gets before a round: its last total if it has more than one entry, else 0. */
  function Carry(s: seq<int>): seq<int> {
    s + [if |s| > 1 then s[|s| - 1] else 0]
  }

  /** Before a round, every line gets its new slot. */
  function Prepare(lines: seq<Line>): (r: seq<Line>)
    ensures |r| == |lines| && forall i :: 0 <= i < |lines| ==> r[i] == (lines[i].0, Carry(lines[i].1))
  {
    seq(|lines|, i requires 0 <= i < |lines| => (lines[i].0, Carry(lines[i].1)))
  }

  /**
   * One result: a new rider gets `counts + 1` zeros, then the last entry
   * becomes the one before it plus the points (just the points when there
   * is no entry before it: the `IndexError` branch).
   */
  function Score(lines: seq<Line>, counts: nat, rider: string, pts: int): (r: seq<Line>)
    requires Width(lines, counts + 1)
    ensures Width(r, counts + 1)
  {
    var i := KeyIndex(lines, rider);
    var ls := if i < 0 then lines + [(rider, Zeros(counts + 1))] else lines;
    var j := if i < 0 then |lines| else i;
    var s := ls[j].1;
    ls[j := (rider, s[..|s| - 1] + [(if |s| >= 2 then s[|s| - 2] else 0) + pts])]
  }

  /** The results of one session, as (rider key, points), in order. */
  function ScoreAll(lines: seq<Line>, counts: nat, entries: seq<(string, int)>): (r: seq<Line>)
    requires Width(lines, counts + 1)
    ensures Width(r, counts + 1)
  {
    if entries == [] then lines
    else
      var e := entries[|entries| - 1];
      Score(ScoreAll(lines, counts, entries[..|entries| - 1]), counts, e.0, e.1)
  }

  /** The sort key `x[-1]` of an item `(rider, series)`: the whole series. */
  function SeriesKey(l: Line): seq<int> {
    l.1
  }

  /** `OrderedDict(reversed(sorted(items, key=lambda x: x[-1])))`. */
  function Reorder(lines: seq<Line>): (r: seq<Line>)
    ensures multiset(r) == multiset(lines)
    ensures DescendingBy(r, SeriesKey)
  {
    ReverseSortedDescending(lines, SeriesKey);
    Reverse(SortBy(lines, SeriesKey))
  }

  /** One point session: prepare the slots, score the results, re-order. */
  function Round(lines: seq<Line>, counts: nat, entries: seq<(string, int)>): (r: seq<Line>)
    requires Width(lines, counts)
    ensures Width(r, counts + 1)
  {
    var scored := ScoreAll(Prepare(lines), counts, entries);
    WidthPermuted(scored, Reorder(scored), counts + 1);
    Reorder(scored)
  }

  lemma WidthPermuted(a: seq<Line>, b: seq<Line>, n: nat)
    requires Width(a, n) && multiset(b) == multiset(a)
    ensures Width(b, n)
  {
    forall i | 0 <= i < |b| ensures |b[i].1| == n {
      assert b[i] in multiset(a);
    }
  }

  lemma ScoreKeepsDistinct(lines: seq<Line>, counts: nat, rider: string, pts: int)
    requires Width(lines, counts + 1) && KeysDistinct(lines)
    ensures KeysDistinct(Score(lines, counts, rider, pts))
  {
  }

  lemma {:induction false} ScoreAllKeepsDistinct(lines: seq<Line>, counts: nat, entries: seq<(string, int)>)
    requires Width(lines, counts + 1) && KeysDistinct(lines)
    ensures KeysDistinct(ScoreAll(lines, counts, entries))
  {
    if entries != [] {
      var e := entries[|entries| - 1];
      ScoreAllKeepsDistinct(lines, counts, entries[..|entries| - 1]);
      ScoreKeepsDistinct(ScoreAll(lines, counts, entries[..|entries| - 1]), counts, e.0, e.1);
    }
  }

  /** The points of a rider's last result in the session, if any. */
  function LastPoints(entries: seq<(string, int)>, rider: string): (r: Option<int>)
    ensures r.None? <==> forall i :: 0 <= i < |entries| ==> entries[i].0 != rider
  {
    if entries == [] then None
    else if entries[|entries| - 1].0 == rider then Some(entries[|entries| - 1].1)
    else LastPoints(entries[..|entries| - 1], rider)
  }

  /**
   * A rider's series after a round, from its series before it and the points
   * of its last result in it: a newcomer has zeros for the earlier rounds; a
   * scorer adds the points to its last total; an absent rider carries its
   * last total only when it already had more than one entry, and 0 otherwise.
   */
  function NextSeries(prev: Option<seq<int>>, counts: nat, pts: Option<int>): (r: Option<seq<int>>)
    ensures r.None? <==> prev.None? && pts.None?
  {
    match (prev, pts)
    case (None, None) => None
    case (None, Some(p)) => Some(Zeros(counts) + [p])
    case (Some(s), None) => Some(s + [if |s| > 1 then s[|s| - 1] else 0])
    case (Some(s), Some(p)) => Some(s + [(if |s| >= 1 then s[|s| - 1] else 0) + p])
  }

  lemma ScoreOther(lines: seq<Line>, counts: nat, rider: string, pts: int, k: string)
    requires Width(lines, counts + 1) && rider != k
    ensures Lookup(Score(lines, counts, rider, pts), k) == Lookup(lines, k)
  {
    var i := KeyIndex(lines, rider);
    if i < 0 {
      var ls := lines + [(rider, Zeros(counts + 1))];
      LookupAppendOther(lines, (rider, Zeros(counts + 1)), k);
      LookupUpdateOther(ls, |lines|, Score(lines, counts, rider, pts)[|lines|].1, k);
    } else {
      LookupUpdateOther(lines, i, Score(lines, counts, rider, pts)[i].1, k);
    }
  }

  /** The rider's new series: its old one (or the zeros) with the last entry rewritten. */
  lemma ScoreSame(lines: seq<Line>, counts: nat, rider: string, pts: int)
    requires Width(lines, counts + 1)
    ensures var s := Lookup(lines, rider).GetOr(Zeros(counts + 1));
      Lookup(Score(lines, counts, rider, pts), rider)
        == Some(s[..|s| - 1] + [(if |s| >= 2 then s[|s| - 2] else 0) + pts])
  {
    var i := KeyIndex(lines, rider);
    if i < 0 {
      var ls := lines + [(rider, Zeros(counts + 1))];
      forall j | 0 <= j < |lines| ensures ls[j].0 != rider {
        assert ls[j] == lines[j];
      }
      assert ls[|lines|].0 == rider;
      assert KeyIndex(ls, rider) == |lines|;
      LookupUpdateSame(ls, |lines|, Score(lines, counts, rider, pts)[|lines|].1);
    } else {
      LookupUpdateSame(lines, i, Score(lines, counts, rider, pts)[i].1);
    }
  }

  /** Rewriting the last entry of a series already prepared gives the series of a scorer. */
  lemma NextSeriesStep(prev: Option<seq<int>>, counts: nat, q: Option<int>, p: int)
    requires prev.Some? ==> |prev.value| == counts
    ensures var s := NextSeries(prev, counts, q).GetOr(Zeros(counts + 1));
      |s| == counts + 1 && s[..|s| - 1] + [(if |s| >= 2 then s[|s| - 2] else 0) + p] == NextSeries(prev, counts, Some(p)).value
  {
    var s := NextSeries(prev, counts, q).GetOr(Zeros(counts + 1));
    match prev
    case None =>
      assert s[..|s| - 1] == Zeros(counts);
    case Some(t) =>
      assert s[..|s| - 1] == t;
  }

  lemma PrepareLookup(lines: seq<Line>, k: string)
    ensures Lookup(Prepare(lines), k) == NextSeries(Lookup(lines, k), 0, None)
  {
    KeyIndexSameKeys(Prepare(lines), lines, k);
  }

  /**
   * Scoring a session leaves every rider's series as `NextSeries` says, its
   * points being those of its last result in the session; `prev` is the
   * rider's series before the round, already given its slot in `prepared`.
   */
  lemma {:induction false} ScoreAllFrom(prepared: seq<Line>, prev: Option<seq<int>>, counts: nat,
                                        entries: seq<(string, int)>, k: string)
    requires Width(prepared, counts + 1)
    requires prev.Some? ==> |prev.value| == counts
    requires Lookup(prepared, k) == NextSeries(prev, counts, None)
    ensures Lookup(ScoreAll(prepared, counts, entries), k) == NextSeries(prev, counts, LastPoints(entries, k))
  {
    if entries != [] {
      var init := entries[..|entries| - 1];
      var e := entries[|entries| - 1];
      var x := ScoreAll(prepared, counts, init);
      ScoreAllFrom(prepared, prev, counts, init, k);
      if e.0 != k {
        ScoreOther(x, counts, e.0, e.1, k);
      } else {
        ScoreSame(x, counts, k, e.1);
        NextSeriesStep(prev, counts, LastPoints(init, k), e.1);
      }
    }
  }

  lemma ScoreAllSeries(lines: seq<Line>, counts: nat, entries: seq<(string, int)>, k: string)
    requires Width(lines, counts)
    ensures Lookup(ScoreAll(Prepare(lines), counts, entries), k)
              == NextSeries(Lookup(lines, k), counts, LastPoints(entries, k))
  {
    PrepareLookup(lines, k);
    if Lookup(lines, k).Some? {
      var j :| 0 <= j < |lines| && lines[j] == (k, Lookup(lines, k).value);
      assert |lines[j].1| == counts;
    }
    ScoreAllFrom(Prepare(lines), Lookup(lines, k), counts, entries, k);
  }

  /**
   * After a round the keys are still distinct and every rider's series is as
   * `NextSeries` says: the re-ordering moves lines without changing them.
   */
  lemma RoundSeries(lines: seq<Line>, counts: nat, entries: seq<(string, int)>, k: string)
    requires Width(lines, counts) && KeysDistinct(lines)
    ensures KeysDistinct(Round(lines, counts, entries))
    ensures Lookup(Round(lines, counts, entries), k) == NextSeries(Lookup(lines, k), counts, LastPoints(entries, k))
  {
    var scored := ScoreAll(Prepare(lines), counts, entries);
    ScoreAllKeepsDistinct(Prepare(lines), counts, entries);
    PermutationKeepsLookup(scored, Round(lines, counts, entries));
    ScoreAllSeries(lines, counts, entries, k);
  }

  /**
   * A rider absent from the second round is given 0 instead of its first
   * round total: the carry rule needs more than one entry.
   */
  lemma FirstRoundOnlyDropsToZero(lines: seq<Line>, counts: nat, entries: seq<(string, int)>, k: string, s: seq<int>)
    requires counts == 1 && Width(lines, counts) && KeysDistinct(lines)
    requires Lookup(lines, k) == Some(s) && forall i :: 0 <= i < |entries| ==> entries[i].0 != k
    ensures Lookup(Round(lines, counts, entries), k) == Some([s[0], 0])
  {
    RoundSeries(lines, counts, entries, k);
    assert LastPoints(entries, k).None?;
    var j := KeyIndex(lines, k);
    assert lines[j].1 == s && |lines[j].1| == 1;
    assert NextSeries(Some(s), counts, None) == Some(s + [0]);
    assert s + [0] == [s[0], 0];
  }

  /** A rider not yet in the dictionary is appended with zeros for the earlier rounds and its points. */
  lemma ScoreNew(lines: seq<Line>, counts: nat, rider: string, pts: int)
    requires Width(lines, counts + 1) && KeyIndex(lines, rider) < 0
    ensures Score(lines, counts, rider, pts) == lines + [(rider, Zeros(counts) + [pts])]
  {
    var z := Zeros(counts + 1);
    assert z[..|z| - 1] == Zeros(counts);
  }

  /** A rider already present gets its last entry rewritten in place. */
  lemma ScoreKnown(lines: seq<Line>, counts: nat, rider: string, pts: int, i: nat)
    requires Width(lines, counts + 1) && KeyIndex(lines, rider) == i && counts >= 1
    ensures var s := lines[i].1;
      Score(lines, counts, rider, pts) == lines[i := (rider, s[..counts] + [s[counts - 1] + pts])]
  {
  }

  /** In the first round, a newcomer's series is its points alone. */
  lemma FirstScore(lines: seq<Line>, rider: string, pts: int)
    requires Width(lines, 1) && KeyIndex(lines, rider) < 0
    ensures Score(lines, 0, rider, pts) == lines + [(rider, [pts])]
  {
    ScoreNew(lines, 0, rider, pts);
    assert Zeros(0) + [pts] == [pts];
  }

  lemma ExampleFirstScores(s1: seq<Line>)
    requires s1 == ScoreAll(Prepare([]), 0, [("A", 25), ("B", 20), ("C", 16)])
    ensures s1 == [("A", [25]), ("B", [20]), ("C", [16])]
  {
    assert Prepare([]) == [];
    var e: seq<(string, int)> := [("A", 25), ("B", 20), ("C", 16)];
    assert e[..2] == [("A", 25), ("B", 20)] && e[..2][..1] == [("A", 25)] && e[..2][..1][..0] == [];
    FirstScore([], "A", 25);
    var a := Score([], 0, "A", 25);
    assert a == [("A", [25])];
    FirstScore(a, "B", 20);
    var b := Score(a, 0, "B", 20);
    assert b == [("A", [25]), ("B", [20])];
    FirstScore(b, "C", 16);
    assert ScoreAll([], 0, e[..1]) == a;
    assert ScoreAll([], 0, e[..2]) == b;
  }

  lemma ExampleSortTwo(a: Line, b: Line)
    requires LexLess(b.1, a.1)
    ensures SortBy([a, b], SeriesKey) == [b, a]
  {
    assert [a, b][..1] == [a] && [a][..0] == [];
    assert SortBy([a], SeriesKey) == [a];
    assert Insert([a], b, SeriesKey) == [b] + [a];
  }

  lemma ExampleSortThree(x: seq<Line>, a: Line, b: Line, c: Line)
    requires x == [a, b, c] && LexLess(c.1, b.1) && LexLess(b.1, a.1)
    ensures SortBy(x, SeriesKey) == [c, b, a]
  {
    ExampleSortTwo(a, b);
    assert x[..2] == [a, b];
    assert Insert([b, a], c, SeriesKey) == [c] + [b, a];
  }

  lemma ReverseThree(a: Line, b: Line, c: Line)
    ensures Reverse([c, b, a]) == [a, b, c]
  {
    var r := Reverse([c, b, a]);
    assert r[0] == a && r[1] == b && r[2] == c;
  }

  /** Three lines already in descending order stay where they are. */
  lemma ExampleReorderKeeps(x: seq<Line>, a: Line, b: Line, c: Line)
    requires x == [a, b, c] && LexLess(c.1, b.1) && LexLess(b.1, a.1)
    ensures Reorder(x) == x
  {
    ExampleSortThree(x, a, b, c);
    ReverseThree(a, b, c);
  }

  /** Before the second round, each one-entry series gets a 0 slot. */
  lemma ExampleSecondPrepare(p: seq<Line>)
    requires p == Prepare([("A", [25]), ("B", [20]), ("C", [16])])
    ensures p == [("A", [25, 0]), ("B", [20, 0]), ("C", [16, 0])]
  {
    assert p[0] == ("A", Carry([25])) && Carry([25]) == [25, 0];
    assert p[1] == ("B", Carry([20])) && Carry([20]) == [20, 0];
    assert p[2] == ("C", Carry([16])) && Carry([16]) == [16, 0];
  }

  /** The second round's points are added to the first round's totals. */
  lemma ExampleSecondAdds(p: seq<Line>)
    requires p == [("A", [25, 0]), ("B", [20, 0]), ("C", [16, 0])]
    ensures ScoreAll(p, 1, [("A", 16), ("B", 25), ("C", 20)]) == [("A", [25, 41]), ("B", [20, 45]), ("C", [16, 36])]
  {
    var e: seq<(string, int)> := [("A", 16), ("B", 25), ("C", 20)];
    assert e[..2] == [("A", 16), ("B", 25)] && e[..2][..1] == [("A", 16)] && e[..2][..1][..0] == [];
    assert p[0].0 == "A";
    assert KeyIndex(p, "A") == 0;
    ScoreKnown(p, 1, "A", 16, 0);
    var a := Score(p, 1, "A", 16);
    assert [25, 0][..1] + [25 + 16] == [25, 41];
    assert a == [("A", [25, 41]), ("B", [20, 0]), ("C", [16, 0])];
    assert a[0].0 != "B" && a[1].0 == "B";
    assert KeyIndex(a, "B") == 1;
    ScoreKnown(a, 1, "B", 25, 1);
    var b := Score(a, 1, "B", 25);
    assert [20, 0][..1] + [20 + 25] == [20, 45];
    assert b == [("A", [25, 41]), ("B", [20, 45]), ("C", [16, 0])];
    assert b[0].0 != "C" && b[1].0 != "C" && b[2].0 == "C";
    assert KeyIndex(b, "C") == 2;
    ScoreKnown(b, 1, "C", 20, 2);
    assert [16, 0][..1] + [16 + 20] == [16, 36];
    assert ScoreAll(p, 1, e[..1]) == a;
    assert ScoreAll(p, 1, e[..2]) == b;
  }

  lemma ExampleSecondScores(p: seq<Line>)
    requires p == Prepare([("A", [25]), ("B", [20]), ("C", [16])])
    ensures p == [("A", [25, 0]), ("B", [20, 0]), ("C", [16, 0])]
    ensures ScoreAll(p, 1, [("A", 16), ("B", 25), ("C", 20)]) == [("A", [25, 41]), ("B", [20, 45]), ("C", [16, 36])]
  {
    ExampleSecondPrepare(p);
    ExampleSecondAdds(p);
  }

  lemma ExampleFirstRound(r1: seq<Line>)
    requires r1 == Round([], 0, [("A", Points(1)), ("B", Points(2)), ("C", Points(3))])
    ensures r1 == [("A", [25]), ("B", [20]), ("C", [16])]
  {
    var e1: seq<(string, int)> := [("A", 25), ("B", 20), ("C", 16)];
    assert Points(1) == 25 && Points(2) == 20 && Points(3) == 16;
    var s1 := ScoreAll(Prepare([]), 0, e1);
    assert r1 == Reorder(s1);
    ExampleFirstScores(s1);
    assert LexLess([16], [20]) && LexLess([20], [25]);
    ExampleReorderKeeps(s1, ("A", [25]), ("B", [20]), ("C", [16]));
  }

  lemma ExampleSecondRound(r1: seq<Line>, r2: seq<Line>)
    requires r1 == [("A", [25]), ("B", [20]), ("C", [16])]
    requires r2 == Round(r1, 1, [("A", Points(3)), ("B", Points(1)), ("C", Points(2))])
    ensures r2 == [("A", [25, 41]), ("B", [20, 45]), ("C", [16, 36])]
  {
    assert Points(1) == 25 && Points(2) == 20 && Points(3) == 16;
    assert r2 == Reorder(ScoreAll(Prepare(r1), 1, [("A", 16), ("B", 25), ("C", 20)]));
    ExampleSecondScores(Prepare(r1));
    ExampleSecondReorder([("A", [25, 41]), ("B", [20, 45]), ("C", [16, 36])]);
  }

  lemma ExampleSecondReorder(s2: seq<Line>)
    requires s2 == [("A", [25, 41]), ("B", [20, 45]), ("C", [16, 36])]
    ensures Reorder(s2) == s2
  {
    assert LexLess([16, 36], [20, 45]) && LexLess([20, 45], [25, 41]);
    ExampleReorderKeeps(s2, ("A", [25, 41]), ("B", [20, 45]), ("C", [16, 36]));
  }

  /**
   * Finishing 1, 2, 3 and then 3, 1, 2: A leads with 41 points ahead of B
   * with 45, because the series [25, 41] is compared with [20, 45] entry
   * by entry.
   */
  lemma ExampleOrderIsBySeries(r1: seq<Line>, r2: seq<Line>)
    requires r1 == Round([], 0, [("A", Points(1)), ("B", Points(2)), ("C", Points(3))])
    requires r2 == Round(r1, 1, [("A", Points(3)), ("B", Points(1)), ("C", Points(2))])
    ensures r2 == [("A", [25, 41]), ("B", [20, 45]), ("C", [16, 36])]
  {
    ExampleFirstRound(r1);
    ExampleSecondRound(r1, r2);
  }

  // The season: its events, their point sessions and the stored results.

  /** `self.event_set.all()`: the season's events in creation order. */
  function SeasonEvents(events: seq<Event>, year: int): (r: seq<Event>)
    ensures forall e :: e in r <==> e in events && e.year == year
  {
    if events == [] then []
    else
      var init := SeasonEvents(events[..|events| - 1], year);
      var e := events[|events| - 1];
      assert events == events[..|events| - 1] + [e];
      if e.year == year then init + [e] else init
  }

  /** `session.result_set.all()` as (rider key, points), in creation order. */
  function Entries(rs: seq<Result>, sid: nat): (r: seq<(string, int)>)
    requires Named(rs)
    ensures |r| <= |rs|
  {
    if rs == [] then []
    else
      var x := rs[|rs| - 1];
      var init := Entries(rs[..|rs| - 1], sid);
      if x.session == sid then init + [(RiderKey(x.rider), Points(x.position))] else init
  }

  /** The events, in order, that have a point session of the category. */
  function PointEvents(ss: seq<Session>, cat: string, es: seq<Event>): seq<Event> {
    if es == [] then []
    else
      var init := PointEvents(ss, cat, es[..|es| - 1]);
      if PointSession(ss, cat, es[|es| - 1]).Some? then init + [es[|es| - 1]] else init
  }

  /** The lines of a category and the number of point sessions counted (`counts[cat]`). */
  function Standings(db: Db, cat: string, es: seq<Event>): (r: (seq<Line>, nat))
    requires Named(db.results)
    ensures Width(r.0, r.1)
  {
    if es == [] then ([], 0) else StandingsStep(db, cat, Standings(db, cat, es[..|es| - 1]), es[|es| - 1])
  }

  /** One event: a round when the category has a point session there, nothing otherwise. */
  function StandingsStep(db: Db, cat: string, st: (seq<Line>, nat), e: Event): (r: (seq<Line>, nat))
    requires Named(db.results) && Width(st.0, st.1)
    ensures Width(r.0, r.1)
  {
    var (lines, counts) := st;
    match PointSession(db.sessions, cat, e)
    case None => (lines, counts)
    case Some(sid) => (Round(lines, counts, Entries(db.results, sid)), counts + 1)
  }

  /**
   * After the season's events, one entry per point session for every rider,
   * distinct keys, and (once a session was counted) lines in non-increasing
   * order of their series.
   */
  lemma {:induction false} StandingsShape(db: Db, cat: string, es: seq<Event>)
    requires Named(db.results)
    ensures var (lines, counts) := Standings(db, cat, es);
      && counts == |PointEvents(db.sessions, cat, es)|
      && Width(lines, counts) && KeysDistinct(lines)
      && (counts > 0 ==> DescendingBy(lines, SeriesKey))
  {
    if es != [] {
      var init := es[..|es| - 1];
      StandingsShape(db, cat, init);
      var (lines, counts) := Standings(db, cat, init);
      match PointSession(db.sessions, cat, es[|es| - 1])
      case None =>
      case Some(sid) =>
        RoundSeries(lines, counts, Entries(db.results, sid), "");
    }
  }

  /** `[event.__str__() for event in events if cat in event.categories]`. */
  function Columns(es: seq<Event>, cat: string): (r: seq<string>)
    ensures |r| <= |es|
  {
    if es == [] then []
    else
      var init := Columns(es[..|es| - 1], cat);
      var e := es[|es| - 1];
      if cat in e.categories then init + [e.location] else init
  }

  /** The chart of one category: `{year}-{cat}.svg`, titled `{year} {cat} Championship`. */
  function CategoryChart(db: Db, year: int, cat: string): Chart<seq<int>>
    requires Named(db.results)
  {
    var es := SeasonEvents(db.events, year);
    Chart(IntToString(year) + "-" + cat + ".svg", IntToString(year) + " " + cat + " Championship",
          Columns(es, cat), Standings(db, cat, es).0)
  }

  /**
   * The season's charts, one per category, or none when a category is not
   * stored and the season has an event (the method returns on `DoesNotExist`
   * before any chart is written).
   */
  function SeasonCharts(db: Db, season: Season): (r: Option<seq<Chart<seq<int>>>>)
    requires Named(db.results) && OnePointSessionEach(db.sessions)
    ensures r.None? <==> |SeasonEvents(db.events, season.year)| > 0 &&
                         exists c :: c in season.categories && c !in db.categories
    ensures r.Some? ==> |r.value| == |Dedup(season.categories)|
  {
    var cats := Dedup(season.categories);
    if |SeasonEvents(db.events, season.year)| > 0 && exists c :: c in cats && c !in db.categories then None
    else Some(seq(|cats|, i requires 0 <= i < |cats| => CategoryChart(db, season.year, cats[i])))
  }

  /** Before a round, every line gets the slot `Carry` says, in place. */
  method PrepareSlots(before: seq<Line>) returns (lines: seq<Line>)
    ensures lines == Prepare(before)
  {
    lines := before;
    for i := 0 to |lines|
      invariant |lines| == |before|
      invariant forall j :: 0 <= j < i ==> lines[j] == (before[j].0, Carry(before[j].1))
      invariant forall j :: i <= j < |lines| ==> lines[j] == before[j]
    {
      var s := lines[i].1;
      if |s| > 1 {
        lines := lines[i := (lines[i].0, s + [s[|s| - 1]])];
      } else {
        lines := lines[i := (lines[i].0, s + [0])];
      }
    }
  }

  /** One result of the session: find or add the rider's line, then rewrite its last entry. */
  method ScoreOne(start: seq<Line>, counts: nat, rider: string, pts: int) returns (lines: seq<Line>)
    requires Width(start, counts + 1)
    ensures lines == Score(start, counts, rider, pts)
  {
    lines := start;
    var i := KeyIndex(lines, rider);
    if i < 0 {
      lines := lines + [(rider, Zeros(counts + 1))];
      i := |lines| - 1;
    }
    var s := lines[i].1;
    if |s| >= 2 {
      lines := lines[i := (rider, s[..|s| - 1] + [s[|s| - 2] + pts])];
    } else {
      lines := lines[i := (rider, s[..|s| - 1] + [pts])];
    }
  }

  lemma EntriesPrefix(results: seq<Result>, r: nat, sid: nat)
    requires Named(results) && r < |results|
    ensures Named(results[..r]) && Named(results[..r + 1])
    ensures var x := results[r];
      Entries(results[..r + 1], sid)
        == Entries(results[..r], sid) + (if x.session == sid then [(RiderKey(x.rider), Points(x.position))] else [])
  {
    assert results[..r + 1][..r] == results[..r];
  }

  /** The loop over `session.result_set.all()`. */
  method ScoreSession(prepared: seq<Line>, counts: nat, results: seq<Result>, sid: nat) returns (lines: seq<Line>)
    requires Width(prepared, counts + 1) && Named(results)
    ensures lines == ScoreAll(prepared, counts, Entries(results, sid))
  {
    lines := prepared;
    assert Named(results[..0]);
    for r := 0 to |results|
      invariant Named(results[..r])
      invariant lines == ScoreAll(prepared, counts, Entries(results[..r], sid))
    {
      EntriesPrefix(results, r, sid);
      var res := results[r];
      ghost var done := Entries(results[..r], sid);
      if res.session == sid {
        var e := (RiderKey(res.rider), Points(res.position));
        assert (done + [e])[..|done|] == done;
        lines := ScoreOne(lines, counts, e.0, e.1);
      } else {
        assert done + [] == done;
      }
    }
    assert results[..|results|] == results;
  }

  /** The body of the second loop of `create_season_chart`, for one category and one event. */
  method EventRound(db: Db, cat: string, e: Event, lines: seq<Line>, counts: nat)
    returns (lines': seq<Line>, counts': nat)
    requires Named(db.results) && Width(lines, counts)
    ensures (lines', counts') == StandingsStep(db, cat, (lines, counts), e)
  {
    lines', counts' := lines, counts;
    var found := PointSession(db.sessions, cat, e);
    if found.Some? {
      var prepared := PrepareSlots(lines);
      var scored := ScoreSession(prepared, counts, db.results, found.value);
      counts' := counts + 1;
      lines' := Reorder(scored);
    }
    ghost var step := StandingsStep(db, cat, (lines, counts), e);
    assert lines' == step.0 && counts' == step.1;
  }

  /** The second loop of `create_season_chart` for one category: an event at a time. */
  method CategoryStandings(db: Db, cat: string, es: seq<Event>) returns (lines: seq<Line>, counts: nat)
    requires Named(db.results)
    ensures (lines, counts) == Standings(db, cat, es)
  {
    lines, counts := [], 0;
    for k := 0 to |es|
      invariant (lines, counts) == Standings(db, cat, es[..k])
    {
      assert es[..k + 1][..k] == es[..k];
      lines, counts := EventRound(db, cat, es[k], lines, counts);
    }
    assert es[..|es|] == es;
  }

  /**
   * The columns loop of `create_season_chart` for one category; `missing`
   * is the `Category.DoesNotExist` return, raised at the first event.
   */
  method CategoryColumns(db: Db, es: seq<Event>, cat: string) returns (cols: seq<string>, missing: bool)
    ensures missing <==> |es| > 0 && cat !in db.categories
    ensures !missing ==> cols == Columns(es, cat)
  {
    cols := [];
    for k := 0 to |es|
      invariant cols == Columns(es[..k], cat)
      invariant k > 0 ==> cat in db.categories
    {
      assert es[..k + 1][..k] == es[..k];
      if cat !in db.categories {
        return cols, true;
      }
      if cat in es[k].categories {
        cols := cols + [es[k].location];
      }
    }
    assert es[..|es|] == es;
    missing := false;
  }

  /** The standings loop of `create_season_chart`: one chart per category. */
  method CategoryCharts(db: Db, year: int, cats: seq<string>, columns: seq<seq<string>>) returns (out: seq<Chart<seq<int>>>)
    requires Named(db.results)
    requires |columns| == |cats| && forall i :: 0 <= i < |cats| ==> columns[i] == Columns(SeasonEvents(db.events, year), cats[i])
    ensures out == seq(|cats|, i requires 0 <= i < |cats| => CategoryChart(db, year, cats[i]))
  {
    var es := SeasonEvents(db.events, year);
    out := [];
    for c := 0 to |cats|
      invariant |out| == c && forall i :: 0 <= i < c ==> out[i] == CategoryChart(db, year, cats[i])
    {
      var lines, _ := CategoryStandings(db, cats[c], es);
      var chart := Chart(IntToString(year) + "-" + cats[c] + ".svg",
                         IntToString(year) + " " + cats[c] + " Championship", columns[c], lines);
      out := out + [chart];
    }
  }

  /** `Season.create_season_chart`, up to handing each category's chart to the renderer. */
  method CreateSeasonChart(db: Db, season: Season) returns (charts: Option<seq<Chart<seq<int>>>>)
    requires Named(db.results) && OnePointSessionEach(db.sessions)
    ensures charts == SeasonCharts(db, season)
  {
    var cats := Dedup(season.categories);
    var es := SeasonEvents(db.events, season.year);
    var columns: seq<seq<string>> := [];
    for c := 0 to |cats|
      invariant |columns| == c && forall i :: 0 <= i < c ==> columns[i] == Columns(es, cats[i])
      invariant |es| > 0 ==> forall i :: 0 <= i < c ==> cats[i] in db.categories
    {
      var cols, missing := CategoryColumns(db, es, cats[c]);
      if missing {
        assert cats[c] in season.categories;
        return None;
      }
      columns := columns + [cols];
    }
    var out := CategoryCharts(db, season.year, cats, columns);
    assert |es| > 0 ==> forall x :: x in season.categories ==> x in db.categories by {
      if |es| > 0 {
        forall x | x in season.categories ensures x in db.categories {
          var k :| 0 <= k < |season.categories| && season.categories[k] == x;
          var i := IndexOf(cats, x);
        }
      }
    }
    charts := Some(out);
  }
}
