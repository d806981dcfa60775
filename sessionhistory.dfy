/**
 * `Event.create_session_history_chart`: for each category of an event, one
 * slot per session found in the era's session order, holding each rider's
 * position, with the Q1 column re-ranked by practice lap times, Q2 gaps
 * filled from the previous slot and race gaps filled below the last
 * classified rider; at the end the riders are ordered by their last slot.
 */
module SessionHistory {
  import opened Wrappers
  import opened Text
  import opened Order
  import opened Options
  import opened Schema
  import opened Series

  /** A rider's slots, one per session counted so far. */
  type Row = (string, seq<Option<int>>)

  /** `count_riders_skipping_Q1`. */
  const SkipQ1 := 10

  /** The session types tried, in order: the race alone before 2005, a seven-session weekend in 2006-2008. */
  function SessionOrder(year: int): seq<string> {
    if year < 2005 then ["RAC"]
    else if 2006 <= year <= 2008 then ["FP1", "QP1", "FP2", "QP2", "QP", "WUP", "RAC"]
    else ["FP1", "FP2", "FP3", "FP4", "QP", "Q1", "Q2", "WUP", "RAC"]
  }

  /** The sessions whose lap times feed the Q1 re-ranking. */
  predicate IsPractice(t: string) {
    t == "FP1" || t == "FP2" || t == "FP3"
  }

  /** `self.session_set.all()`: the event's sessions, in creation order. */
  function EventSessions(ss: seq<Session>, e: Event): (r: seq<Session>)
    ensures forall s :: s in r <==> s in ss && s.year == e.year && s.location == e.location
  {
    if ss == [] then []
    else
      var init := EventSessions(ss[..|ss| - 1], e);
      var s := ss[|ss| - 1];
      assert ss == ss[..|ss| - 1] + [s];
      if s.year == e.year && s.location == e.location then init + [s] else init
  }

  function CategoryNames(ss: seq<Session>): (r: seq<string>)
    ensures |r| == |ss| && forall i :: 0 <= i < |ss| ==> r[i] == ss[i].category
  {
    seq(|ss|, i requires 0 <= i < |ss| => ss[i].category)
  }

  /** The keys of `results`: each category of the event's sessions once, in order of first appearance. */
  function EventCategories(ss: seq<Session>, e: Event): seq<string> {
    Dedup(CategoryNames(EventSessions(ss, e)))
  }

  /** `results[cat]['columns']`: the types of all the event's sessions of the category, in order. */
  function Columns(ss: seq<Session>, cat: string): (r: seq<string>)
    ensures |r| <= |ss|
  {
    if ss == [] then []
    else
      var init := Columns(ss[..|ss| - 1], cat);
      if ss[|ss| - 1].category == cat then init + [ss[|ss| - 1].sessionType] else init
  }

  predicate SessionOf(s: Session, e: Event, t: string, cat: string) {
    s.year == e.year && s.location == e.location && s.sessionType == t && s.category == cat
  }

  /** `Session.objects.get(event=..., session_type=t, category=...)`, or `DoesNotExist`. */
  function FindTyped(ss: seq<Session>, e: Event, t: string, cat: string): (r: Option<Session>)
    ensures r.Some? ==> r.value in ss && SessionOf(r.value, e, t, cat)
    ensures r.None? <==> forall j :: 0 <= j < |ss| ==> !SessionOf(ss[j], e, t, cat)
  {
    if ss == [] then None
    else if SessionOf(ss[0], e, t, cat) then Some(ss[0])
    else
      var r := FindTyped(ss[1..], e, t, cat);
      assert forall j :: 1 <= j < |ss| ==> ss[j] == ss[1..][j - 1];
      r
  }

  /** At most one session per event, category and type: `get` never finds two. */
  predicate OneSessionEach(ss: seq<Session>) {
    forall i, j :: 0 <= i < j < |ss| ==>
      !(ss[i].year == ss[j].year && ss[i].location == ss[j].location &&
        ss[i].sessionType == ss[j].sessionType && ss[i].category == ss[j].category)
  }

  /** One classified line as the builder reads it. */
  datatype Entry = Entry(rider: string, time: string, position: int)

  /** `s.result_set.all()`, in creation order. */
  function Entries(rs: seq<Result>, sid: nat): (r: seq<Entry>)
    requires Named(rs)
    ensures |r| <= |rs|
  {
    if rs == [] then []
    else
      var x := rs[|rs| - 1];
      var init := Entries(rs[..|rs| - 1], sid);
      if x.session == sid then init + [Entry(RiderKey(x.rider), x.time, x.position)] else init
  }

  // One category's sheet.

  /** `results[cat]` less `title` and `columns`: the riders' slots and the best practice times. */
  datatype Sheet = Sheet(rows: seq<Row>, times: seq<(string, string)>)

  /** Before a session, every rider gets an empty slot. */
  function AppendSlot(rows: seq<Row>): (r: seq<Row>)
    ensures |r| == |rows| && forall i :: 0 <= i < |rows| ==> r[i] == (rows[i].0, rows[i].1 + [None])
  {
    seq(|rows|, i requires 0 <= i < |rows| => (rows[i].0, rows[i].1 + [None]))
  }

  function LastSlot(s: seq<Option<int>>): Option<int> {
    if |s| == 0 then None else s[|s| - 1]
  }

  /** `results[cat][k][-1] = v`. A missing key or an empty series (which would raise) leaves the rows. */
  function SetLast(rows: seq<Row>, k: string, v: int): (r: seq<Row>)
    ensures |r| == |rows| && forall i :: 0 <= i < |rows| ==> r[i].0 == rows[i].0 && |r[i].1| == |rows[i].1|
  {
    var i := KeyIndex(rows, k);
    if i < 0 || |rows[i].1| == 0 then rows
    else rows[i := (k, rows[i].1[..|rows[i].1| - 1] + [Some(v)])]
  }

  function Max(a: int, b: int): int {
    if a < b then b else a
  }

  /** The position stored for a result: raw, or raw plus ten in Q1. */
  function Stored(t: string, x: Entry): int {
    if t == "Q1" then x.position + SkipQ1 else x.position
  }

  /** One iteration of the results loop of a session of type `t`, after `counts` earlier sessions. */
  function Enter(sh: Sheet, counts: nat, t: string, x: Entry): Sheet {
    var rows := if KeyIndex(sh.rows, x.rider) < 0 then sh.rows + [(x.rider, Nones(counts + 1))] else sh.rows;
    var known := Lookup(sh.times, x.rider);
    var times := if IsPractice(t) && (known.None? || StrLess(x.time, known.value))
                 then Put(sh.times, x.rider, x.time) else sh.times;
    // `len(results[cat]) < 4` counts the three reserved keys besides the riders.
    var rows' := if t == "RAC" && 3 + |rows| < 4 then Put(rows, x.rider, [Some(x.position)]) else rows;
    Sheet(SetLast(rows', x.rider, Stored(t, x)), times)
  }

  /** The results loop, carrying `last_position`: the largest stored position so far. */
  function EnterAll(st: (Sheet, int), counts: nat, t: string, xs: seq<Entry>): (Sheet, int) {
    if xs == [] then st
    else
      var (sh, last) := EnterAll(st, counts, t, xs[..|xs| - 1]);
      var x := xs[|xs| - 1];
      (Enter(sh, counts, t, x), Max(last, Stored(t, x)))
  }

  /** `fastest_times`: lap time to rider; a rider with an equal time string replaces the earlier one. */
  function Fastest(times: seq<(string, string)>): seq<(string, string)> {
    if times == [] then []
    else
      var (rider, lapTime) := times[|times| - 1];
      Put(Fastest(times[..|times| - 1]), lapTime, rider)
  }

  /** The loop over the sorted lap times: the `i`-th fastest rider gets position `i + 1`. */
  function RankFrom(rows: seq<Row>, fastest: seq<(string, string)>, ks: seq<string>): (r: seq<Row>)
    ensures |r| == |rows| && forall i :: 0 <= i < |rows| ==> r[i].0 == rows[i].0 && |r[i].1| == |rows[i].1|
  {
    if ks == [] then rows
    else
      var r := RankFrom(rows, fastest, ks[..|ks| - 1]);
      match Lookup(fastest, ks[|ks| - 1])
      case None => r
      case Some(rider) => SetLast(r, rider, |ks|)
  }

  function Min(a: int, b: int): int {
    if a < b then a else b
  }

  /** The ten best lap times, ascending as strings. */
  function Best(fastest: seq<(string, string)>): (ks: seq<string>)
    ensures |ks| <= SkipQ1
  {
    var sorted := SortBy(Keys(fastest), Codes);
    sorted[..Min(SkipQ1, |sorted|)]
  }

  /** After Q1, the riders with the (up to ten) best practice times take places 1, 2, ... in its slot. */
  function RankQ1(sh: Sheet): seq<Row> {
    var fastest := Fastest(sh.times);
    RankFrom(sh.rows, fastest, Best(fastest))
  }

  /** After Q2, a rider without a Q2 result gets the value of its previous slot there. */
  function FillQ2(rows: seq<Row>): (r: seq<Row>)
    ensures |r| == |rows| && forall i :: 0 <= i < |rows| ==> r[i].0 == rows[i].0 && |r[i].1| == |rows[i].1|
  {
    seq(|rows|, i requires 0 <= i < |rows| =>
      var s := rows[i].1;
      if |s| >= 2 && s[|s| - 1].None? then (rows[i].0, s[..|s| - 1] + [s[|s| - 2]]) else rows[i])
  }

  /** After a race, riders without a result go below the last position: the rows and the final `last_position`. */
  function FillRace(rows: seq<Row>, last: int): (r: (seq<Row>, int))
    ensures |r.0| == |rows| && forall i :: 0 <= i < |rows| ==> r.0[i].0 == rows[i].0 && |r.0[i].1| == |rows[i].1|
  {
    if rows == [] then ([], last)
    else
      var (init, l) := FillRace(rows[..|rows| - 1], last);
      var (k, s) := rows[|rows| - 1];
      if |s| >= 1 && s[|s| - 1].None? then (init + [(k, s[..|s| - 1] + [Some(l + 1)])], l + 1)
      else (init + [(k, s)], l)
  }

  /** One session of type `t` with entries `xs`, after `counts` sessions. */
  function Apply(sh: Sheet, counts: nat, t: string, xs: seq<Entry>): Sheet {
    var (entered, last) := EnterAll((Sheet(AppendSlot(sh.rows), sh.times), -100), counts, t, xs);
    if t == "Q1" then entered.(rows := RankQ1(entered))
    else if t == "Q2" then entered.(rows := FillQ2(entered.rows))
    else if t == "RAC" then entered.(rows := FillRace(entered.rows, last).0)
    else entered
  }

  /** The session loop of one category: the sheet and `counts[cat]` after the types `ts`. */
  function Sessions(db: Db, e: Event, cat: string, ts: seq<string>): (Sheet, nat)
    requires Named(db.results)
  {
    if ts == [] then (Sheet([], []), 0)
    else SessionStep(db, e, cat, Sessions(db, e, cat, ts[..|ts| - 1]), ts[|ts| - 1])
  }

  /** One type of the order: the session of that type, if any, applied to the sheet. */
  function SessionStep(db: Db, e: Event, cat: string, st: (Sheet, nat), t: string): (Sheet, nat)
    requires Named(db.results)
  {
    Step(st, t, TypedEntries(db, e, cat, t))
  }

  /** The results of the session of type `t`, or none when `Session.objects.get` fails. */
  function TypedEntries(db: Db, e: Event, cat: string, t: string): Option<seq<Entry>>
    requires Named(db.results)
  {
    match FindTyped(db.sessions, e, t, cat)
    case None => None
    case Some(s) => Some(Entries(db.results, s.id))
  }

  /** A found session is applied and counted; a missing one changes nothing. */
  function Step(st: (Sheet, nat), t: string, found: Option<seq<Entry>>): (Sheet, nat) {
    match found
    case None => st
    case Some(xs) => (Apply(st.0, st.1, t, xs), st.1 + 1)
  }

  // The final order.

  /** `by_latest_pos`: last slot to line; a later rider with the same last slot replaces the earlier. */
  function ByLatest(rows: seq<Row>): seq<(int, Row)> {
    if rows == [] then []
    else
      var latest := ByLatest(rows[..|rows| - 1]);
      match LastSlot(rows[|rows| - 1].1)
      case None => latest
      case Some(p) => Put(latest, p, rows[|rows| - 1])
  }

  /** An upper bound of the keys, for termination of the `while pos in by_latest_pos` loop. */
  function KeyBound(latest: seq<(int, Row)>): (b: int)
    ensures forall i :: 0 <= i < |latest| ==> latest[i].0 <= b
  {
    if latest == [] then 0 else Max(KeyBound(latest[..|latest| - 1]), latest[|latest| - 1].0)
  }

  /** The lines under positions `pos`, `pos + 1`, ... while present. */
  function Ranked(latest: seq<(int, Row)>, pos: int): (r: seq<Row>)
    ensures forall i :: 0 <= i < |r| ==> Lookup(latest, pos + i) == Some(r[i])
    ensures Lookup(latest, pos + |r|) == None
    decreases KeyBound(latest) - pos
  {
    match Lookup(latest, pos)
    case None => []
    case Some(row) => [row] + Ranked(latest, pos + 1)
  }

  /** The chart of one category of the event. */
  function CategoryChart(db: Db, e: Event, cat: string): Chart<seq<Option<int>>>
    requires Named(db.results)
  {
    var sh := Sessions(db, e, cat, SessionOrder(e.year)).0;
    Chart(IntToString(e.year) + "-" + e.location + "-" + cat + ".svg",
          e.location + " " + IntToString(e.year) + " " + cat + " Results",
          Columns(EventSessions(db.sessions, e), cat),
          Ranked(ByLatest(sh.rows), 1))
  }

  /** `Event.create_session_history_chart`: one chart per category of the event's sessions. */
  function SessionCharts(db: Db, e: Event): (r: seq<Chart<seq<Option<int>>>>)
    requires Named(db.results)
    ensures |r| == |EventCategories(db.sessions, e)|
  {
    var cats := EventCategories(db.sessions, e);
    seq(|cats|, i requires 0 <= i < |cats| => CategoryChart(db, e, cats[i]))
  }

  // What every session keeps.

  /** Every rider with a practice time has a line. */
  predicate TimesKnown(sh: Sheet) {
    forall i :: 0 <= i < |sh.times| ==> KeyIndex(sh.rows, sh.times[i].0) >= 0
  }

  /** Riders and timed riders distinct, every line `n` slots long, every timed rider known. */
  predicate SheetOk(sh: Sheet, n: nat) {
    KeysDistinct(sh.rows) && Width(sh.rows, n) && KeysDistinct(sh.times) && TimesKnown(sh)
  }

  /** Changing slots in place keeps the keys, so a sheet stays well formed. */
  lemma SameKeysOk(sh: Sheet, rows: seq<Row>, n: nat)
    requires SheetOk(sh, n) && |rows| == |sh.rows|
    requires forall i :: 0 <= i < |rows| ==> rows[i].0 == sh.rows[i].0 && |rows[i].1| == n
    ensures SheetOk(sh.(rows := rows), n)
  {
    forall k {
      KeyIndexSameKeys(rows, sh.rows, k);
    }
  }

  lemma SetLastOk(sh: Sheet, k: string, v: int, n: nat)
    requires SheetOk(sh, n)
    ensures SheetOk(sh.(rows := SetLast(sh.rows, k, v)), n)
  {
    SameKeysOk(sh, SetLast(sh.rows, k, v), n);
  }

  /** Storing the slot of a known rider with a non-empty line rewrites its last slot and nothing else. */
  lemma SetLastLookup(rows: seq<Row>, k: string, v: int, x: string)
    requires KeyIndex(rows, k) >= 0 && |rows[KeyIndex(rows, k)].1| > 0
    ensures var s := rows[KeyIndex(rows, k)].1;
      Lookup(SetLast(rows, k, v), x) == if x == k then Some(s[..|s| - 1] + [Some(v)]) else Lookup(rows, x)
  {
    var i := KeyIndex(rows, k);
    var s := rows[i].1;
    if x == k {
      LookupUpdateSame(rows, i, s[..|s| - 1] + [Some(v)]);
    } else {
      LookupUpdateOther(rows, i, s[..|s| - 1] + [Some(v)], x);
    }
  }

  /** The rows of `Enter` before the slot is stored: the rider appended when new. */
  function Admit(rows: seq<Row>, counts: nat, rider: string): seq<Row> {
    if KeyIndex(rows, rider) < 0 then rows + [(rider, Nones(counts + 1))] else rows
  }

  lemma AdmitOk(sh: Sheet, counts: nat, rider: string)
    requires SheetOk(sh, counts + 1)
    ensures SheetOk(sh.(rows := Admit(sh.rows, counts, rider)), counts + 1)
    ensures KeyIndex(Admit(sh.rows, counts, rider), rider) >= 0
  {
    var rows := Admit(sh.rows, counts, rider);
    if KeyIndex(sh.rows, rider) < 0 {
      forall k | KeyIndex(sh.rows, k) >= 0 ensures KeyIndex(rows, k) == KeyIndex(sh.rows, k) {
        assert rows[..|sh.rows|] == sh.rows;
      }
      assert rows[|sh.rows|].0 == rider;
    }
  }

  /** A new best time keeps the timed riders distinct and known. */
  lemma PutTimeOk(sh: Sheet, n: nat, rider: string, lapTime: string)
    requires SheetOk(sh, n) && KeyIndex(sh.rows, rider) >= 0
    ensures SheetOk(sh.(times := Put(sh.times, rider, lapTime)), n)
  {
    PutSpec(sh.times, rider, lapTime);
  }

  /**
   * One result keeps the sheet well formed (at the width of the running
   * session), and so the `len(results[cat]) < 4` branch never runs: the
   * rider is already among the lines when the condition is checked.
   */
  lemma EnterOk(sh: Sheet, counts: nat, t: string, x: Entry)
    requires SheetOk(sh, counts + 1)
    ensures SheetOk(Enter(sh, counts, t, x), counts + 1)
    ensures 3 + |Admit(sh.rows, counts, x.rider)| >= 4
  {
    AdmitOk(sh, counts, x.rider);
    var a := sh.(rows := Admit(sh.rows, counts, x.rider));
    var known := Lookup(sh.times, x.rider);
    var b := if IsPractice(t) && (known.None? || StrLess(x.time, known.value))
             then a.(times := Put(sh.times, x.rider, x.time)) else a;
    if b != a {
      PutTimeOk(a, counts + 1, x.rider, x.time);
    }
    SetLastOk(b, x.rider, Stored(t, x), counts + 1);
    assert Enter(sh, counts, t, x) == b.(rows := SetLast(b.rows, x.rider, Stored(t, x)));
  }

  lemma {:induction false} EnterAllOk(st: (Sheet, int), counts: nat, t: string, xs: seq<Entry>)
    requires SheetOk(st.0, counts + 1)
    ensures SheetOk(EnterAll(st, counts, t, xs).0, counts + 1)
  {
    if xs != [] {
      EnterAllOk(st, counts, t, xs[..|xs| - 1]);
      EnterOk(EnterAll(st, counts, t, xs[..|xs| - 1]).0, counts, t, xs[|xs| - 1]);
    }
  }

  lemma RankFromOk(sh: Sheet, fastest: seq<(string, string)>, ks: seq<string>, n: nat)
    requires SheetOk(sh, n)
    ensures SheetOk(sh.(rows := RankFrom(sh.rows, fastest, ks)), n)
  {
    SameKeysOk(sh, RankFrom(sh.rows, fastest, ks), n);
  }

  /** Each session adds one slot to every line and keeps the sheet well formed. */
  lemma ApplyOk(sh: Sheet, counts: nat, t: string, xs: seq<Entry>)
    requires SheetOk(sh, counts)
    ensures SheetOk(Apply(sh, counts, t, xs), counts + 1)
  {
    var prepared := Sheet(AppendSlot(sh.rows), sh.times);
    assert SheetOk(prepared, counts + 1) by {
      forall k {
        KeyIndexSameKeys(prepared.rows, sh.rows, k);
      }
    }
    EnterAllOk((prepared, -100), counts, t, xs);
    var (entered, last) := EnterAll((prepared, -100), counts, t, xs);
    if t == "Q1" {
      var fastest := Fastest(entered.times);
      RankFromOk(entered, fastest, Best(fastest), counts + 1);
    } else if t == "Q2" {
      SameKeysOk(entered, FillQ2(entered.rows), counts + 1);
    } else if t == "RAC" {
      SameKeysOk(entered, FillRace(entered.rows, last).0, counts + 1);
    }
  }

  /**
   * After the session loop every line has one slot per session found, and
   * `counts[cat]` is the number of types in the order that had a session.
   */
  lemma {:induction false} SessionsOk(db: Db, e: Event, cat: string, ts: seq<string>)
    requires Named(db.results)
    ensures var (sh, counts) := Sessions(db, e, cat, ts);
      SheetOk(sh, counts) && counts == |Found(db.sessions, e, cat, ts)| && (counts == 0 ==> sh == Sheet([], []))
  {
    if ts != [] {
      SessionsOk(db, e, cat, ts[..|ts| - 1]);
      var (sh, counts) := Sessions(db, e, cat, ts[..|ts| - 1]);
      assert Sessions(db, e, cat, ts) == SessionStep(db, e, cat, (sh, counts), ts[|ts| - 1]);
      var t := ts[|ts| - 1];
      match TypedEntries(db, e, cat, t)
      case None =>
      case Some(xs) => ApplyOk(sh, counts, t, xs);
    }
  }

  /** The types of the order that have a session of the category at the event. */
  function Found(ss: seq<Session>, e: Event, cat: string, ts: seq<string>): (r: seq<string>)
    ensures forall t :: t in r <==> t in ts && FindTyped(ss, e, t, cat).Some?
  {
    if ts == [] then []
    else
      var init := Found(ss, e, cat, ts[..|ts| - 1]);
      var t := ts[|ts| - 1];
      assert ts == ts[..|ts| - 1] + [t];
      if FindTyped(ss, e, t, cat).Some? then init + [t] else init
  }

  // What one session does to the slots.

  /** A rider's line before the slot of the running session is stored: its own, or empty slots. */
  function Base(rows: seq<Row>, counts: nat, k: string): seq<Option<int>> {
    Lookup(rows, k).GetOr(Nones(counts + 1))
  }

  function WithLast(s: seq<Option<int>>, v: int): seq<Option<int>>
    requires |s| > 0
  {
    s[..|s| - 1] + [Some(v)]
  }

  /**
   * One result stores the rider's position (plus ten in Q1) in the last slot
   * of its line, creating the line when the rider is new, and leaves every
   * other line.
   */
  lemma EnterSpec(sh: Sheet, counts: nat, t: string, x: Entry, k: string)
    requires SheetOk(sh, counts + 1)
    ensures Lookup(Enter(sh, counts, t, x).rows, k)
              == if k == x.rider then Some(WithLast(Base(sh.rows, counts, k), Stored(t, x))) else Lookup(sh.rows, k)
  {
    var rows := Admit(sh.rows, counts, x.rider);
    AdmitOk(sh, counts, x.rider);
    EnterOk(sh, counts, t, x);
    var i := KeyIndex(rows, x.rider);
    assert rows[i].1 == Base(sh.rows, counts, x.rider) by {
      if KeyIndex(sh.rows, x.rider) < 0 {
        assert rows[|sh.rows|].0 == x.rider;
        assert i == |sh.rows|;
      } else {
        assert rows == sh.rows;
      }
    }
    SetLastLookup(rows, x.rider, Stored(t, x), k);
    if k != x.rider && KeyIndex(sh.rows, x.rider) < 0 {
      LookupAppendOther(sh.rows, (x.rider, Nones(counts + 1)), k);
    }
  }

  /** The last result of rider `k` among `xs`. */
  function LastEntry(xs: seq<Entry>, k: string): (r: Option<Entry>)
    ensures r.Some? ==> r.value in xs && r.value.rider == k
    ensures r.None? <==> forall i :: 0 <= i < |xs| ==> xs[i].rider != k
  {
    if xs == [] then None
    else if xs[|xs| - 1].rider == k then Some(xs[|xs| - 1])
    else
      var r := LastEntry(xs[..|xs| - 1], k);
      assert forall i :: 0 <= i < |xs| - 1 ==> xs[i] == xs[..|xs| - 1][i];
      r
  }

  /**
   * After the results loop, a rider who placed holds the position of its last
   * result (plus ten in Q1) in the new slot, in front of its old slots or of
   * empty ones; the lines of the others are unchanged.
   */
  lemma {:induction false} EnterAllSlots(st: (Sheet, int), counts: nat, t: string, xs: seq<Entry>, k: string)
    requires SheetOk(st.0, counts + 1)
    ensures Lookup(EnterAll(st, counts, t, xs).0.rows, k)
              == match LastEntry(xs, k)
                 case None => Lookup(st.0.rows, k)
                 case Some(x) => Some(WithLast(Base(st.0.rows, counts, k), Stored(t, x)))
  {
    if xs != [] {
      var init := xs[..|xs| - 1];
      var x := xs[|xs| - 1];
      var mid := EnterAll(st, counts, t, init);
      EnterAllSlots(st, counts, t, init, k);
      EnterAllOk(st, counts, t, init);
      EnterSpec(mid.0, counts, t, x, k);
      if x.rider == k {
        var b := Base(st.0.rows, counts, k);
        assert |b| == counts + 1 by {
          if Lookup(st.0.rows, k).Some? {
            var j :| 0 <= j < |st.0.rows| && st.0.rows[j] == (k, Lookup(st.0.rows, k).value);
          }
        }
        match LastEntry(init, k)
        case None =>
        case Some(y) =>
          assert Base(mid.0.rows, counts, k) == WithLast(b, Stored(t, y));
          assert WithLast(WithLast(b, Stored(t, y)), Stored(t, x)) == WithLast(b, Stored(t, x));
      }
    }
  }

  /** `last_position` after the results loop, from its start `last`. */
  function Highest(last: int, t: string, xs: seq<Entry>): int {
    if xs == [] then last else Max(Highest(last, t, xs[..|xs| - 1]), Stored(t, xs[|xs| - 1]))
  }

  lemma {:induction false} EnterAllHighest(st: (Sheet, int), counts: nat, t: string, xs: seq<Entry>)
    ensures EnterAll(st, counts, t, xs).1 == Highest(st.1, t, xs)
  {
    if xs != [] {
      EnterAllHighest(st, counts, t, xs[..|xs| - 1]);
    }
  }

  /**
   * `last_position` after the results loop is at least its start and every
   * stored position, and is one of them.
   */
  lemma {:induction false} HighestBound(last: int, t: string, xs: seq<Entry>)
    ensures var h := Highest(last, t, xs);
      && last <= h && (forall i :: 0 <= i < |xs| ==> Stored(t, xs[i]) <= h)
      && (h == last || exists i :: 0 <= i < |xs| && h == Stored(t, xs[i]))
  {
    if xs != [] {
      var init := xs[..|xs| - 1];
      HighestBound(last, t, init);
      var h := Highest(last, t, init);
      if h != last {
        var i :| 0 <= i < |init| && h == Stored(t, init[i]);
        assert xs[i] == init[i];
      }
      forall i | 0 <= i < |init| ensures xs[i] == init[i] {
      }
    }
  }

  // The Q1 re-ranking.

  /**
   * A lap time is a key of `fastest_times` exactly when some rider has it, and
   * its rider is the last one in `times` with that time: riders with equal
   * time strings collapse into one.
   */
  lemma {:induction false} FastestLookup(times: seq<(string, string)>, lapTime: string)
    ensures Lookup(Fastest(times), lapTime).Some? <==> exists i :: 0 <= i < |times| && times[i].1 == lapTime
    ensures Lookup(Fastest(times), lapTime).Some? ==>
      exists i :: 0 <= i < |times| && times[i] == (Lookup(Fastest(times), lapTime).value, lapTime) &&
        forall j :: i < j < |times| ==> times[j].1 != lapTime
    ensures KeysDistinct(Fastest(times))
  {
    if times != [] {
      var init := times[..|times| - 1];
      var (rider, t) := times[|times| - 1];
      FastestLookup(init, lapTime);
      PutSpec(Fastest(init), t, rider);
      forall i | 0 <= i < |init| ensures times[i] == init[i] {
      }
      if t != lapTime && Lookup(Fastest(times), lapTime).Some? {
        var i :| 0 <= i < |init| && init[i] == (Lookup(Fastest(init), lapTime).value, lapTime) &&
          forall j :: i < j < |init| ==> init[j].1 != lapTime;
        assert times[i] == init[i];
      }
    }
  }

  /** Two riders with the same time string: only the later one can be ranked by that time. */
  lemma EqualTimesCollapse(a: string, b: string, lapTime: string)
    requires a != b
    ensures Fastest([(a, lapTime), (b, lapTime)]) == [(lapTime, b)]
  {
    assert [(a, lapTime), (b, lapTime)][..1] == [(a, lapTime)];
    assert [(a, lapTime)][..0] == [];
    assert Fastest([]) == [];
    var f1 := Fastest([(a, lapTime)]);
    assert f1 == Put([], lapTime, a);
    var nothing: seq<(string, string)> := [];
    assert KeyIndex(nothing, lapTime) == -1;
    assert f1 == [(lapTime, a)];
    assert KeyIndex(f1, lapTime) == 0;
  }

  /** Each timed rider has one best time, so no rider is the value of two lap times. */
  lemma FastestValuesDistinct(times: seq<(string, string)>)
    requires KeysDistinct(times)
    ensures var f := Fastest(times);
      forall i, j :: 0 <= i < j < |f| ==> f[i].1 != f[j].1
  {
    var f := Fastest(times);
    FastestLookup(times, "");
    forall i, j | 0 <= i < j < |f| ensures f[i].1 != f[j].1 {
      LookupOfMember(f, f[i].0, f[i].1);
      LookupOfMember(f, f[j].0, f[j].1);
      FastestLookup(times, f[i].0);
      FastestLookup(times, f[j].0);
      var a :| 0 <= a < |times| && times[a] == (f[i].1, f[i].0) && forall m :: a < m < |times| ==> times[m].1 != f[i].0;
      var b :| 0 <= b < |times| && times[b] == (f[j].1, f[j].0) && forall m :: b < m < |times| ==> times[m].1 != f[j].0;
    }
  }

  /** Every rider of `fastest_times` is a timed rider. */
  lemma FastestRiders(times: seq<(string, string)>, i: nat)
    requires i < |Fastest(times)|
    ensures exists j :: 0 <= j < |times| && times[j].0 == Fastest(times)[i].1
  {
    var f := Fastest(times);
    FastestLookup(times, f[i].0);
    LookupOfMember(f, f[i].0, f[i].1);
  }

  /** The 1-based place of rider `k` in the ranking loop over `ks`; a later place overrides. */
  function RankOf(fastest: seq<(string, string)>, ks: seq<string>, k: string): (r: Option<nat>)
    ensures r.Some? ==> 1 <= r.value <= |ks| && Lookup(fastest, ks[r.value - 1]) == Some(k)
    ensures r.None? <==> forall i :: 0 <= i < |ks| ==> Lookup(fastest, ks[i]) != Some(k)
  {
    if ks == [] then None
    else if Lookup(fastest, ks[|ks| - 1]) == Some(k) then Some(|ks|)
    else
      var r := RankOf(fastest, ks[..|ks| - 1], k);
      assert forall i :: 0 <= i < |ks| - 1 ==> ks[i] == ks[..|ks| - 1][i];
      r
  }

  /** A line after place `p` is stored in its last slot; a missing or empty line stays as it is. */
  function StoreLast(line: Option<seq<Option<int>>>, p: Option<int>): Option<seq<Option<int>>> {
    match p
    case None => line
    case Some(q) => if line.Some? && |line.value| > 0 then Some(WithLast(line.value, q)) else line
  }

  /** `SetLast` on any rows: the rider's line gets the place, every other line stays. */
  lemma SetLastAny(rows: seq<Row>, k: string, v: int, x: string)
    ensures Lookup(SetLast(rows, k, v), x) == if x == k then StoreLast(Lookup(rows, k), Some(v)) else Lookup(rows, x)
  {
    var i := KeyIndex(rows, k);
    if i >= 0 && |rows[i].1| > 0 {
      SetLastLookup(rows, k, v, x);
    }
  }

  /**
   * The ranking loop stores in the last slot of each rider the place of the
   * last listed time that is the rider's, and leaves the other lines.
   */
  lemma {:induction false} RankFromSpec(rows: seq<Row>, fastest: seq<(string, string)>, ks: seq<string>, k: string)
    ensures Lookup(RankFrom(rows, fastest, ks), k) == StoreLast(Lookup(rows, k), RankOf(fastest, ks, k))
  {
    if ks != [] {
      var init := ks[..|ks| - 1];
      var r := RankFrom(rows, fastest, init);
      RankFromSpec(rows, fastest, init, k);
      match Lookup(fastest, ks[|ks| - 1])
      case None =>
      case Some(rider) =>
        SetLastAny(r, rider, |ks|, k);
        if k == rider {
          var line := Lookup(rows, k);
          match RankOf(fastest, init, k)
          case None =>
          case Some(q) =>
            if line.Some? && |line.value| > 0 {
              assert WithLast(WithLast(line.value, q), |ks|) == WithLast(line.value, |ks|);
            }
        }
    }
  }

  /** A sequence without repeats holds each value at most once. */
  lemma {:induction false} NoDupCountsOnce<T>(xs: seq<T>, x: T)
    requires NoDup(xs)
    ensures multiset(xs)[x] <= 1
  {
    if xs != [] {
      var p := xs[..|xs| - 1];
      assert xs == p + [xs[|xs| - 1]];
      NoDupCountsOnce(p, x);
    }
  }

  /** Distinct strings in ascending order are strictly ascending. */
  lemma StrictlyAscending(a: string, b: string)
    requires a != b && LexLe(Codes(a), Codes(b))
    ensures StrLess(a, b)
  {
    LexTotal(Codes(a), Codes(b));
    if Codes(a) == Codes(b) {
      CodesInjective(a, b);
    }
  }

  /** The sorted lap times are distinct, as the keys of `fastest_times` are. */
  lemma SortedKeysDistinct(fastest: seq<(string, string)>)
    requires KeysDistinct(fastest)
    ensures forall i, j :: 0 <= i < j < |SortBy(Keys(fastest), Codes)| ==>
              SortBy(Keys(fastest), Codes)[i] != SortBy(Keys(fastest), Codes)[j]
    ensures forall i, j :: 0 <= i < j < |Best(fastest)| ==> Best(fastest)[i] != Best(fastest)[j]
  {
    var keys := Keys(fastest);
    var sorted := SortBy(keys, Codes);
    forall x ensures multiset(sorted)[x] <= 1 {
      NoDupCountsOnce(keys, x);
    }
    forall i, j | 0 <= i < j < |sorted| ensures sorted[i] != sorted[j] {
      if sorted[i] == sorted[j] {
        TwiceCountsTwice(sorted, i, j);
      }
    }
    var b := Best(fastest);
    assert b == sorted[..Min(SkipQ1, |sorted|)];
    forall i, j | 0 <= i < j < |b| ensures b[i] != b[j] {
      assert b[i] == sorted[i] && b[j] == sorted[j];
    }
  }

  /**
   * The lap times the ranking loop visits: the `min(10, n)` smallest of the
   * `n` distinct times, strictly ascending, every other time slower than
   * each of them.
   */
  lemma BestSpec(fastest: seq<(string, string)>)
    requires KeysDistinct(fastest)
    ensures var b := Best(fastest);
      && |b| == Min(SkipQ1, |fastest|)
      && (forall i :: 0 <= i < |b| ==> Lookup(fastest, b[i]).Some?)
      && (forall i, j :: 0 <= i < j < |b| ==> StrLess(b[i], b[j]))
      && (forall k, i :: 0 <= i < |b| && Lookup(fastest, k).Some? && k !in b ==> StrLess(b[i], k))
  {
    var keys := Keys(fastest);
    var sorted := SortBy(keys, Codes);
    var b := Best(fastest);
    SortBySorted(keys, Codes);
    assert b == sorted[..Min(SkipQ1, |sorted|)];
    SortedKeysDistinct(fastest);
    forall i | 0 <= i < |b| ensures Lookup(fastest, b[i]).Some? {
      assert b[i] == sorted[i];
      assert b[i] in multiset(keys);
    }
    forall i, j | 0 <= i < j < |b| ensures StrLess(b[i], b[j]) {
      StrictlyAscending(sorted[i], sorted[j]);
    }
    forall k, i | 0 <= i < |b| && Lookup(fastest, k).Some? && k !in b ensures StrLess(b[i], k) {
      var m :| 0 <= m < |fastest| && fastest[m].0 == k;
      assert keys[m] == k;
      assert k in multiset(sorted);
      var n :| 0 <= n < |sorted| && sorted[n] == k;
      StrictlyAscending(sorted[i], sorted[n]);
    }
  }

  /** Two lap times held by the same rider are the same time. */
  lemma SameRiderSameTime(times: seq<(string, string)>, a: string, b: string, k: string)
    requires KeysDistinct(times)
    requires Lookup(Fastest(times), a) == Some(k) && Lookup(Fastest(times), b) == Some(k)
    ensures a == b
  {
    FastestValuesDistinct(times);
  }

  /**
   * The Q1 ranking: the rider with the `p`-th best practice
   * time (for `p` up to ten) has `p` in the Q1 slot, and every rider whose
   * time is not among them keeps the slot its Q1 result gave it.
   */
  lemma RankQ1Spec(sh: Sheet, n: nat, k: string)
    requires SheetOk(sh, n) && n >= 1
    ensures var fastest := Fastest(sh.times);
      var b := Best(fastest);
      && (forall p :: 0 <= p < |b| && Lookup(fastest, b[p]) == Some(k) ==>
            KeyIndex(sh.rows, k) >= 0 &&
            Lookup(RankQ1(sh), k) == Some(WithLast(sh.rows[KeyIndex(sh.rows, k)].1, p + 1)))
      && ((forall p :: 0 <= p < |b| ==> Lookup(fastest, b[p]) != Some(k)) ==> Lookup(RankQ1(sh), k) == Lookup(sh.rows, k))
  {
    var fastest := Fastest(sh.times);
    var b := Best(fastest);
    RankQ1Lookup(sh, k);
    forall p | 0 <= p < |b| && Lookup(fastest, b[p]) == Some(k)
      ensures KeyIndex(sh.rows, k) >= 0
      ensures Lookup(RankQ1(sh), k) == Some(WithLast(sh.rows[KeyIndex(sh.rows, k)].1, p + 1))
    {
      RankQ1Placed(sh, n, k, p);
    }
  }

  /** The ranking loop over the best times, read at one rider. */
  lemma RankQ1Lookup(sh: Sheet, k: string)
    ensures Lookup(RankQ1(sh), k)
         == StoreLast(Lookup(sh.rows, k), RankOf(Fastest(sh.times), Best(Fastest(sh.times)), k))
  {
    RankFromSpec(sh.rows, Fastest(sh.times), Best(Fastest(sh.times)), k);
  }

  /** The rider of the `p`-th best time has a line, and gets place `p + 1` in its last slot. */
  lemma RankQ1Placed(sh: Sheet, n: nat, k: string, p: nat)
    requires SheetOk(sh, n) && n >= 1
    requires p < |Best(Fastest(sh.times))| && Lookup(Fastest(sh.times), Best(Fastest(sh.times))[p]) == Some(k)
    ensures KeyIndex(sh.rows, k) >= 0
    ensures Lookup(RankQ1(sh), k) == Some(WithLast(sh.rows[KeyIndex(sh.rows, k)].1, p + 1))
  {
    var fastest := Fastest(sh.times);
    var b := Best(fastest);
    RankQ1Lookup(sh, k);
    RankOfBest(sh.times, k);
    assert RankOf(fastest, b, k) == Some(p + 1);
    FastestLookup(sh.times, "");
    var i := KeyIndex(fastest, b[p]);
    assert fastest[i] == (b[p], k);
    FastestRiders(sh.times, i);
    var j := KeyIndex(sh.rows, k);
    LookupOfMember(sh.rows, k, sh.rows[j].1);
  }

  /** In the ranking loop the rider of the `p`-th best time is placed `p`-th and at no other place. */
  lemma RankOfBest(times: seq<(string, string)>, k: string)
    requires KeysDistinct(times)
    ensures var fastest := Fastest(times);
      var b := Best(fastest);
      forall p :: 0 <= p < |b| && Lookup(fastest, b[p]) == Some(k) ==> RankOf(fastest, b, k) == Some(p + 1)
  {
    var fastest := Fastest(times);
    var b := Best(fastest);
    FastestLookup(times, "");
    SortedKeysDistinct(fastest);
    forall p | 0 <= p < |b| && Lookup(fastest, b[p]) == Some(k)
      ensures RankOf(fastest, b, k) == Some(p + 1)
    {
      var q := RankOf(fastest, b, k).value;
      SameRiderSameTime(times, b[q - 1], b[p], k);
    }
  }

  // The Q2 and race fills.

  /**
   * The Q2 fill: a line whose Q2 slot is
   * empty gets the slot before it there; every other slot is kept.
   */
  lemma FillQ2Spec(rows: seq<Row>, i: nat)
    requires i < |rows|
    ensures var (s, t) := (rows[i].1, FillQ2(rows)[i].1);
      && (|s| > 0 ==> t[..|s| - 1] == s[..|s| - 1])
      && LastSlot(t) == if LastSlot(s).None? && |s| >= 2 then s[|s| - 2] else LastSlot(s)
  {
  }

  /**
   * The lines that reach the Q2 fill with an empty last slot existed before
   * the session, so they have a slot before it: the `[-2]` the fill reads is
   * always there.
   */
  lemma Q2HasPrevious(sh: Sheet, counts: nat, xs: seq<Entry>, k: string)
    requires SheetOk(sh, counts) && (counts == 0 ==> sh.rows == [])
    ensures var entered := EnterAll((Sheet(AppendSlot(sh.rows), sh.times), -100), counts, "Q2", xs).0;
      forall s :: Lookup(entered.rows, k) == Some(s) && LastSlot(s).None? ==> |s| >= 2
  {
    var prepared := Sheet(AppendSlot(sh.rows), sh.times);
    assert SheetOk(prepared, counts + 1) by {
      forall x {
        KeyIndexSameKeys(prepared.rows, sh.rows, x);
      }
    }
    EnterAllSlots((prepared, -100), counts, "Q2", xs, k);
    var l := Lookup(prepared.rows, k);
    if l.Some? {
      var j :| 0 <= j < |prepared.rows| && prepared.rows[j] == (k, l.value);
      assert |sh.rows[j].1| == counts;
    }
  }

  /** The lines whose last slot is empty. */
  function Missing(rows: seq<Row>): nat {
    if rows == [] then 0
    else
      var s := rows[|rows| - 1].1;
      Missing(rows[..|rows| - 1]) + if |s| >= 1 && s[|s| - 1].None? then 1 else 0
  }

  /**
   * The race fill: the `m`-th line (in dictionary order)
   * with an empty race slot gets `last + m`, each other line is kept, and
   * `last_position` ends raised by the number of such lines.
   */
  lemma {:induction false} FillRaceSpec(rows: seq<Row>, last: int)
    ensures FillRace(rows, last).1 == last + Missing(rows)
    ensures forall i :: 0 <= i < |rows| ==>
      FillRace(rows, last).0[i]
        == if LastSlot(rows[i].1).None? && |rows[i].1| >= 1
           then (rows[i].0, WithLast(rows[i].1, last + Missing(rows[..i]) + 1))
           else rows[i]
  {
    FillRaceCount(rows, last);
    forall i | 0 <= i < |rows|
      ensures FillRace(rows, last).0[i]
        == if LastSlot(rows[i].1).None? && |rows[i].1| >= 1
           then (rows[i].0, WithLast(rows[i].1, last + Missing(rows[..i]) + 1))
           else rows[i]
    {
      FillRaceAt(rows, last, i);
    }
  }

  /** The fill keeps the number of lines and raises `last` once per empty race slot. */
  lemma {:induction false} FillRaceCount(rows: seq<Row>, last: int)
    ensures FillRace(rows, last).1 == last + Missing(rows)
    ensures |FillRace(rows, last).0| == |rows|
  {
    if rows != [] {
      FillRaceCount(rows[..|rows| - 1], last);
    }
  }

  /** The fill at one line, by induction on the lines after it. */
  lemma {:induction false} FillRaceAt(rows: seq<Row>, last: int, i: nat)
    requires i < |rows|
    ensures FillRace(rows, last).0[i]
      == if LastSlot(rows[i].1).None? && |rows[i].1| >= 1
         then (rows[i].0, WithLast(rows[i].1, last + Missing(rows[..i]) + 1))
         else rows[i]
  {
    var init := rows[..|rows| - 1];
    FillRaceCount(init, last);
    if i < |init| {
      FillRaceAt(init, last, i);
      assert rows[..i] == init[..i];
    } else {
      assert rows[..i] == init;
    }
  }

  /**
   * The places given by the race fill are distinct and all above `last`:
   * no two missing riders share a place and none shares one with a
   * classified rider.
   */
  lemma {:induction false} MissingGrows(rows: seq<Row>, i: nat, j: nat)
    requires i < j <= |rows|
    ensures Missing(rows[..i]) <= Missing(rows[..j])
    ensures LastSlot(rows[i].1).None? && |rows[i].1| >= 1 ==> Missing(rows[..i]) < Missing(rows[..j])
  {
    var p := rows[..j - 1];
    assert rows[..j][..j - 1] == p;
    if i < j - 1 {
      MissingGrows(rows, i, j - 1);
    }
  }

  lemma RaceFillDistinct(rows: seq<Row>, last: int, i: nat, j: nat)
    requires i < j < |rows|
    requires LastSlot(rows[i].1).None? && |rows[i].1| >= 1 && LastSlot(rows[j].1).None? && |rows[j].1| >= 1
    ensures var r := FillRace(rows, last).0;
      var (a, b) := (LastSlot(r[i].1), LastSlot(r[j].1));
      a.Some? && b.Some? && last < a.value < b.value <= last + Missing(rows)
  {
    FillRaceSpec(rows, last);
    MissingGrows(rows, i, j);
    if j + 1 <= |rows| {
      MissingGrows(rows, j, |rows|);
      assert rows[..|rows|] == rows;
    }
  }

  // The final order.

  /** The last line (in dictionary order) whose last slot is `p`. */
  function LastAt(rows: seq<Row>, p: int): (r: Option<Row>)
    ensures r.Some? ==> r.value in rows && LastSlot(r.value.1) == Some(p)
    ensures r.None? <==> forall i :: 0 <= i < |rows| ==> LastSlot(rows[i].1) != Some(p)
  {
    if rows == [] then None
    else if LastSlot(rows[|rows| - 1].1) == Some(p) then Some(rows[|rows| - 1])
    else
      var r := LastAt(rows[..|rows| - 1], p);
      assert forall i :: 0 <= i < |rows| - 1 ==> rows[i] == rows[..|rows| - 1][i];
      r
  }

  /** `by_latest_pos[p]` is the last line ending in `p`; no position is present without one. */
  lemma {:induction false} ByLatestLookup(rows: seq<Row>, p: int)
    ensures Lookup(ByLatest(rows), p) == LastAt(rows, p)
  {
    if rows != [] {
      var init := rows[..|rows| - 1];
      ByLatestLookup(init, p);
      match LastSlot(rows[|rows| - 1].1)
      case None =>
      case Some(q) => PutSpec(ByLatest(init), q, rows[|rows| - 1]);
    }
  }

  /**
   * The chart lines: the `i`-th is the last line ending in `i + 1`, they run
   * while such a line exists, and no line appears twice when the riders are
   * distinct.
   */
  lemma RankedLines(rows: seq<Row>)
    requires KeysDistinct(rows)
    ensures var out := Ranked(ByLatest(rows), 1);
      && (forall i :: 0 <= i < |out| ==> LastAt(rows, i + 1) == Some(out[i]) && out[i] in rows && LastSlot(out[i].1) == Some(i + 1))
      && LastAt(rows, |out| + 1) == None
      && KeysDistinct(out)
  {
    var out := Ranked(ByLatest(rows), 1);
    forall p | 1 <= p <= |out| + 1 ensures Lookup(ByLatest(rows), p) == LastAt(rows, p) {
      ByLatestLookup(rows, p);
    }
    forall i, j | 0 <= i < j < |out| ensures out[i].0 != out[j].0 {
      var a :| 0 <= a < |rows| && rows[a] == out[i];
      var b :| 0 <= b < |rows| && rows[b] == out[j];
      assert a != b;
    }
  }

  /**
   * Each chart line has one slot per session found for the category, the
   * `i`-th line ends in `i + 1`, and no rider appears twice.
   */
  lemma CategoryChartSpec(db: Db, e: Event, cat: string)
    requires Named(db.results)
    ensures var chart := CategoryChart(db, e, cat);
      && Width(chart.rows, |Found(db.sessions, e, cat, SessionOrder(e.year))|)
      && KeysDistinct(chart.rows)
      && forall i :: 0 <= i < |chart.rows| ==> LastSlot(chart.rows[i].1) == Some(i + 1)
  {
    var ts := SessionOrder(e.year);
    SessionsOk(db, e, cat, ts);
    var sh := Sessions(db, e, cat, ts).0;
    RankedLines(sh.rows);
  }

  // The builder, step by step.

  /** Appends an empty slot to every line in place. */
  method PrepareSlots(rows: seq<Row>) returns (r: seq<Row>)
    ensures r == AppendSlot(rows)
  {
    r := rows;
    for i := 0 to |r|
      invariant |r| == |rows|
      invariant forall j :: 0 <= j < i ==> r[j] == (rows[j].0, rows[j].1 + [None])
      invariant forall j :: i <= j < |r| ==> r[j] == rows[j]
    {
      r := r[i := (r[i].0, r[i].1 + [None])];
    }
  }

  /** The results loop, with `last_position` starting at -100. */
  method StoreResults(sh: Sheet, counts: nat, t: string, xs: seq<Entry>) returns (r: Sheet, last: int)
    ensures (r, last) == EnterAll((sh, -100), counts, t, xs)
  {
    r, last := sh, -100;
    for i := 0 to |xs|
      invariant (r, last) == EnterAll((sh, -100), counts, t, xs[..i])
    {
      assert xs[..i + 1][..i] == xs[..i];
      r := Enter(r, counts, t, xs[i]);
      last := Max(last, Stored(t, xs[i]));
    }
    assert xs[..|xs|] == xs;
  }

  /** `fastest_times`, built by one pass over the best practice times. */
  method FastestTimes(times: seq<(string, string)>) returns (fastest: seq<(string, string)>)
    ensures fastest == Fastest(times)
  {
    fastest := [];
    for i := 0 to |times|
      invariant fastest == Fastest(times[..i])
    {
      assert times[..i + 1][..i] == times[..i];
      var (rider, lapTime) := times[i];
      fastest := Put(fastest, lapTime, rider);
    }
    assert times[..|times|] == times;
  }

  /** The Q1 ranking in place: places 1 to 10 by lap time. */
  method SkipQ1Places(sh: Sheet) returns (rows: seq<Row>)
    ensures rows == RankQ1(sh)
  {
    var fastest := FastestTimes(sh.times);
    var sorted := SortBy(Keys(fastest), Codes);
    rows := PlaceFastest(sh.rows, fastest, sorted);
  }

  /** The loop over the sorted lap times, which breaks once ten places are given. */
  method PlaceFastest(start: seq<Row>, fastest: seq<(string, string)>, sorted: seq<string>) returns (rows: seq<Row>)
    ensures rows == RankFrom(start, fastest, sorted[..Min(SkipQ1, |sorted|)])
  {
    rows := start;
    var position := 1;
    var i := 0;
    while i < |sorted|
      invariant 0 <= i <= |sorted| && i < SkipQ1 && position == i + 1
      invariant rows == RankFrom(start, fastest, sorted[..i])
      decreases |sorted| - i
    {
      assert sorted[..i + 1][..i] == sorted[..i];
      match Lookup(fastest, sorted[i]) {
        case None =>
        case Some(rider) => rows := SetLast(rows, rider, position);
      }
      position := position + 1;
      i := i + 1;
      if position > SkipQ1 {
        break;
      }
    }
  }

  /** The Q2 fill, line by line in place. */
  method FillPrevious(rows: seq<Row>) returns (r: seq<Row>)
    ensures r == FillQ2(rows)
  {
    r := rows;
    for i := 0 to |r|
      invariant |r| == |rows|
      invariant forall j :: 0 <= j < i ==> r[j] == FillQ2(rows)[j]
      invariant forall j :: i <= j < |r| ==> r[j] == rows[j]
    {
      var s := r[i].1;
      if |s| >= 2 && s[|s| - 1].None? {
        r := r[i := (r[i].0, s[..|s| - 1] + [s[|s| - 2]])];
      }
    }
  }

  /** The race fill in place, raising `last_position` for each line filled. */
  method PlaceMissing(rows: seq<Row>, start: int) returns (r: seq<Row>, last: int)
    ensures (r, last) == FillRace(rows, start)
  {
    r, last := [], start;
    for i := 0 to |rows|
      invariant (r, last) == FillRace(rows[..i], start)
    {
      assert rows[..i + 1][..i] == rows[..i];
      var (k, s) := rows[i];
      if |s| >= 1 && s[|s| - 1].None? {
        r := r + [(k, s[..|s| - 1] + [Some(last + 1)])];
        last := last + 1;
      } else {
        r := r + [(k, s)];
      }
    }
    assert rows[..|rows|] == rows;
  }

  /** One session found: new slots, its results, then the adjustment of its type. */
  method RunSession(sh: Sheet, counts: nat, t: string, xs: seq<Entry>) returns (r: Sheet)
    ensures r == Apply(sh, counts, t, xs)
  {
    var prepared := PrepareSlots(sh.rows);
    var last;
    r, last := StoreResults(Sheet(prepared, sh.times), counts, t, xs);
    if t == "Q1" {
      var rows := SkipQ1Places(r);
      r := r.(rows := rows);
    } else if t == "Q2" {
      var rows := FillPrevious(r.rows);
      r := r.(rows := rows);
    } else if t == "RAC" {
      var rows, _ := PlaceMissing(r.rows, last);
      r := r.(rows := rows);
    }
  }

  /** One type of the order, given what `Session.objects.get` found; `DoesNotExist` skips the type. */
  method TrySession(sh: Sheet, counts: nat, t: string, found: Option<seq<Entry>>) returns (r: Sheet, n: nat)
    ensures (r, n) == Step((sh, counts), t, found)
  {
    if found.None? {
      return sh, counts;
    }
    r := RunSession(sh, counts, t, found.value);
    n := counts + 1;
  }

  /** The session loop of one category, over the era's order of types. */
  method RunSessions(db: Db, e: Event, cat: string) returns (sh: Sheet, counts: nat)
    requires Named(db.results)
    ensures (sh, counts) == Sessions(db, e, cat, SessionOrder(e.year))
  {
    var order := SessionOrder(e.year);
    sh, counts := Sheet([], []), 0;
    for i := 0 to |order|
      invariant (sh, counts) == Sessions(db, e, cat, order[..i])
    {
      assert order[..i + 1][..i] == order[..i];
      sh, counts := TrySession(sh, counts, order[i], TypedEntries(db, e, cat, order[i]));
    }
    assert order[..|order|] == order;
  }

  /** The display order: `by_latest_pos`, then positions 1, 2, ... while present. */
  method Reorder(rows: seq<Row>) returns (out: seq<Row>)
    ensures out == Ranked(ByLatest(rows), 1)
  {
    var latest: seq<(int, Row)> := [];
    for i := 0 to |rows|
      invariant latest == ByLatest(rows[..i])
    {
      assert rows[..i + 1][..i] == rows[..i];
      var s := rows[i].1;
      if |s| > 0 && s[|s| - 1].Some? {
        latest := Put(latest, s[|s| - 1].value, rows[i]);
      }
    }
    assert rows[..|rows|] == rows;
    out := [];
    var pos := 1;
    while Lookup(latest, pos).Some?
      invariant out + Ranked(latest, pos) == Ranked(latest, 1)
      decreases KeyBound(latest) - pos
    {
      out := out + [Lookup(latest, pos).value];
      pos := pos + 1;
    }
  }

  /** The body of the category loop of `create_session_history_chart`: one category's chart. */
  method CategoryChartOf(db: Db, e: Event, cat: string) returns (chart: Chart<seq<Option<int>>>)
    requires Named(db.results)
    ensures chart == CategoryChart(db, e, cat)
  {
    var sh, _ := RunSessions(db, e, cat);
    var lines := Reorder(sh.rows);
    chart := Chart(IntToString(e.year) + "-" + e.location + "-" + cat + ".svg",
                   e.location + " " + IntToString(e.year) + " " + cat + " Results",
                   Columns(EventSessions(db.sessions, e), cat),
                   lines);
  }

  /** `Event.create_session_history_chart`: the chart of every category of the event's sessions. */
  method CreateSessionHistoryChart(db: Db, e: Event) returns (charts: seq<Chart<seq<Option<int>>>>)
    requires Named(db.results) && OneSessionEach(db.sessions)
    ensures charts == SessionCharts(db, e)
  {
    var cats := EventCategories(db.sessions, e);
    ghost var want := SessionCharts(db, e);
    charts := [];
    for c := 0 to |cats|
      invariant charts == want[..c]
    {
      var chart := CategoryChartOf(db, e, cats[c]);
      assert want[c] == chart;
      charts := charts + [chart];
    }
  }
}
