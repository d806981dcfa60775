/**
 * `Event.create_event_history_chart`: for the event's location, the point
 * sessions of the last `season_count + 1` seasons, newest first, each rider's
 * positions prepended so that the oldest season comes first, under a label
 * that folds 500cc into MotoGP and 250cc into Moto2 once the modern name has
 * been seen.
 */
module EventHistory {
  import opened Wrappers
  import opened Text
  import opened Schema
  import opened Series
  import opened Order

  /** A rider line: its key and one position (or none) per session. */
  type Row = (string, seq<Option<int>>)

  /** `session.result_set.all()` as (rider key, position), in creation order. */
  function Placings(rs: seq<Result>, sid: nat): (r: seq<(string, int)>)
    requires Named(rs)
    ensures |r| <= |rs|
  {
    if rs == [] then []
    else
      var x := rs[|rs| - 1];
      var init := Placings(rs[..|rs| - 1], sid);
      if x.session == sid then init + [(RiderKey(x.rider), x.position)] else init
  }

  /** `reversed(range(year - season_count, year + 1))`. */
  function Years(year: int, seasonCount: int): (r: seq<int>)
    ensures |r| == if seasonCount < 0 then 0 else seasonCount + 1
    ensures forall i :: 0 <= i < |r| ==> r[i] == year - i
    decreases if seasonCount < 0 then 0 else seasonCount + 1
  {
    if seasonCount < 0 then [] else Years(year, seasonCount - 1) + [year - seasonCount]
  }

  /** One point session found: its year, its stored category name, its placings. */
  datatype Visit = Visit(year: int, cat: string, placings: seq<(string, int)>)

  /** A category with a point session at the event gives one visit, one without gives none. */
  function CategoryVisit(db: Db, e: Event, c: string): (r: seq<Visit>)
    requires Named(db.results)
    ensures |r| <= 1
  {
    match PointSession(db.sessions, c, e)
    case None => []
    case Some(sid) => [Visit(e.year, c, Placings(db.results, sid))]
  }

  /** The season's categories, in order, that have a point session at the event. */
  function CategoryVisits(db: Db, e: Event, cats: seq<string>): seq<Visit>
    requires Named(db.results)
  {
    if cats == [] then [] else CategoryVisits(db, e, cats[..|cats| - 1]) + CategoryVisit(db, e, cats[|cats| - 1])
  }

  /** A year without a season, or without an event at the location, is skipped. */
  function YearVisits(db: Db, loc: string, year: int): seq<Visit>
    requires Named(db.results)
  {
    var si := SeasonIndex(db, year);
    var ei := EventIndex(db, year, loc);
    if si < 0 || ei < 0 then [] else CategoryVisits(db, db.events[ei], db.seasons[si].categories)
  }

  function Visits(db: Db, loc: string, years: seq<int>): seq<Visit>
    requires Named(db.results)
  {
    if years == [] then [] else Visits(db, loc, years[..|years| - 1]) + YearVisits(db, loc, years[|years| - 1])
  }

  // The category labels.

  /** `motogp_present`, `moto2_present`, `moto3_present`. */
  datatype Flags = Flags(motogp: bool, moto2: bool, moto3: bool)

  /** The `if`/`elif` chain: the label a category's results go under, and the updated flags. */
  function Relabel(cat: string, f: Flags): (string, Flags) {
    if cat == "MotoGP" then (cat, f.(motogp := true))
    else if cat == "Moto2" then (cat, f.(moto2 := true))
    else if cat == "moto3" then (cat, f.(moto3 := true))
    else if cat == "500cc" && f.motogp then ("MotoGP", f)
    else if cat == "250cc" && f.moto2 then ("Moto2", f)
    else if cat == "125cc" && f.moto3 then ("Moto3", f)
    else (cat, f)
  }

  /** The flags after the categories `cats` were visited in order. */
  function FlagsAfter(cats: seq<string>): Flags {
    if cats == [] then Flags(false, false, false) else Relabel(cats[|cats| - 1], FlagsAfter(cats[..|cats| - 1])).1
  }

  /** Each flag records whether its exact name was visited. */
  lemma {:induction false} FlagsAfterSpec(cats: seq<string>)
    ensures FlagsAfter(cats).motogp <==> "MotoGP" in cats
    ensures FlagsAfter(cats).moto2 <==> "Moto2" in cats
    ensures FlagsAfter(cats).moto3 <==> "moto3" in cats
  {
    if cats != [] {
      FlagsAfterSpec(cats[..|cats| - 1]);
      assert cats == cats[..|cats| - 1] + [cats[|cats| - 1]];
    }
  }

  /** The label of the `i`-th visited category. */
  function Label(cats: seq<string>, i: nat): string
    requires i < |cats|
  {
    Relabel(cats[i], FlagsAfter(cats[..i])).0
  }

  /**
   * A category is shown as MotoGP when it is MotoGP, or 500cc after MotoGP
   * was visited (at a newer season); likewise Moto2 and 250cc. 125cc moves
   * under Moto3 only after a category named exactly `moto3`, and no other
   * name changes.
   */
  lemma LabelSpec(cats: seq<string>, i: nat)
    requires i < |cats|
    ensures Label(cats, i) == "MotoGP" <==> cats[i] == "MotoGP" || (cats[i] == "500cc" && "MotoGP" in cats[..i])
    ensures Label(cats, i) == "Moto2" <==> cats[i] == "Moto2" || (cats[i] == "250cc" && "Moto2" in cats[..i])
    ensures cats[i] == "125cc" ==> (Label(cats, i) == "Moto3" <==> "moto3" in cats[..i])
    ensures Label(cats, i) != cats[i] ==> cats[i] == "500cc" || cats[i] == "250cc" || cats[i] == "125cc"
  {
    FlagsAfterSpec(cats[..i]);
  }

  /** The site names the class `Moto3`, never `moto3`: then 125cc keeps its own label. */
  lemma Never125ToMoto3(cats: seq<string>, i: nat)
    requires i < |cats| && "moto3" !in cats && cats[i] == "125cc"
    ensures Label(cats, i) == "125cc"
  {
    FlagsAfterSpec(cats[..i]);
  }

  // The series of one label.

  /** `results[cat]` (less its reserved keys) with `result_counts[cat]`. */
  datatype Block = Block(title: string, columns: seq<string>, count: nat, rows: seq<Row>)

  /** The `while` loop that prepends `None` until the series has `n` entries. */
  function Pad(s: seq<Option<int>>, n: nat): (r: seq<Option<int>>)
    ensures |r| == if |s| < n then n else |s|
  {
    if |s| < n then Nones(n - |s|) + s else s
  }

  function PadAll(rows: seq<Row>, n: nat): (r: seq<Row>)
    ensures |r| == |rows| && forall i :: 0 <= i < |rows| ==> r[i] == (rows[i].0, Pad(rows[i].1, n))
  {
    seq(|rows|, i requires 0 <= i < |rows| => (rows[i].0, Pad(rows[i].1, n)))
  }

  /** One result: a new rider starts with `count - 1` empty slots; the position is prepended. */
  function Prepend(rows: seq<Row>, count: nat, p: (string, int)): seq<Row>
    requires count >= 1
  {
    var i := KeyIndex(rows, p.0);
    if i < 0 then rows + [(p.0, [Some(p.1)] + Nones(count - 1))]
    else rows[i := (p.0, [Some(p.1)] + rows[i].1)]
  }

  function PrependAll(rows: seq<Row>, count: nat, ps: seq<(string, int)>): seq<Row>
    requires count >= 1
  {
    if ps == [] then rows else Prepend(PrependAll(rows, count, ps[..|ps| - 1]), count, ps[|ps| - 1])
  }

  /** The positions of rider `k` in the placings, as they come. */
  function PositionsOf(ps: seq<(string, int)>, k: string): seq<Option<int>> {
    if ps == [] then []
    else PositionsOf(ps[..|ps| - 1], k) + (if ps[|ps| - 1].0 == k then [Some(ps[|ps| - 1].1)] else [])
  }

  lemma ReverseSnoc<T>(s: seq<T>, x: T)
    ensures Reverse(s + [x]) == [x] + Reverse(s)
  {
  }

  /**
   * After the results loop, a rider who placed has its positions, last one
   * first, in front of its old series (or of `count - 1` empty slots); the
   * others are as they were.
   */
  lemma {:induction false} PrependAllSeries(rows: seq<Row>, count: nat, ps: seq<(string, int)>, k: string)
    requires count >= 1
    ensures Lookup(PrependAll(rows, count, ps), k)
              == if PositionsOf(ps, k) == [] then Lookup(rows, k)
                 else Some(Reverse(PositionsOf(ps, k)) + Lookup(rows, k).GetOr(Nones(count - 1)))
  {
    if ps != [] {
      var init := ps[..|ps| - 1];
      var p := ps[|ps| - 1];
      var x := PrependAll(rows, count, init);
      PrependAllSeries(rows, count, init, k);
      PrependLookup(x, count, p, k);
      if p.0 != k {
        assert PositionsOf(ps, k) == PositionsOf(init, k);
      } else {
        var pi := PositionsOf(init, k);
        ReverseSnoc(pi, Some(p.1));
        assert PositionsOf(ps, k) == pi + [Some(p.1)];
        if pi == [] {
          assert Reverse([Some(p.1)]) == [Some(p.1)];
        } else {
          var g := Lookup(rows, k).GetOr(Nones(count - 1));
          assert [Some(p.1)] + (Reverse(pi) + g) == ([Some(p.1)] + Reverse(pi)) + g;
        }
      }
    }
  }

  /** One result prepends its position to its rider's series, or starts one behind empty slots. */
  lemma PrependLookup(rows: seq<Row>, count: nat, p: (string, int), k: string)
    requires count >= 1
    ensures Lookup(Prepend(rows, count, p), k)
              == if p.0 != k then Lookup(rows, k)
                 else Some([Some(p.1)] + Lookup(rows, k).GetOr(Nones(count - 1)))
  {
    var i := KeyIndex(rows, p.0);
    if p.0 != k {
      if i < 0 {
        LookupAppendOther(rows, (p.0, [Some(p.1)] + Nones(count - 1)), k);
      } else {
        LookupUpdateOther(rows, i, [Some(p.1)] + rows[i].1, k);
      }
    } else if i < 0 {
      var y := rows + [(k, [Some(p.1)] + Nones(count - 1))];
      forall j | 0 <= j < |rows| ensures y[j].0 != k {
        assert y[j] == rows[j];
      }
      assert y[|rows|].0 == k;
      assert KeyIndex(y, k) == |rows|;
    } else {
      LookupUpdateSame(rows, i, [Some(p.1)] + rows[i].1);
    }
  }

  lemma PadAllLookup(rows: seq<Row>, n: nat, k: string)
    ensures Lookup(PadAll(rows, n), k) == match Lookup(rows, k) case None => None case Some(s) => Some(Pad(s, n))
  {
    KeyIndexSameKeys(PadAll(rows, n), rows, k);
  }

  lemma {:induction false} PrependAllKeys(rows: seq<Row>, count: nat, ps: seq<(string, int)>)
    requires count >= 1 && KeysDistinct(rows)
    ensures KeysDistinct(PrependAll(rows, count, ps))
  {
    if ps != [] {
      PrependAllKeys(rows, count, ps[..|ps| - 1]);
    }
  }

  /** A session's placings name each rider once. */
  predicate OncePerRider(ps: seq<(string, int)>) {
    forall i, j :: 0 <= i < j < |ps| ==> ps[i].0 != ps[j].0
  }

  lemma {:induction false} PositionsOfOnce(ps: seq<(string, int)>, k: string)
    requires OncePerRider(ps)
    ensures |PositionsOf(ps, k)| <= 1
    ensures |PositionsOf(ps, k)| == 1 <==> exists i :: 0 <= i < |ps| && ps[i].0 == k
  {
    if ps != [] {
      var init := ps[..|ps| - 1];
      assert OncePerRider(init);
      PositionsOfOnce(init, k);
      if exists i :: 0 <= i < |init| && init[i].0 == k {
        var i :| 0 <= i < |init| && init[i].0 == k;
        assert ps[i] == init[i];
      }
    }
  }

  /**
   * One session, each rider placed once: a placed rider's series is its
   * position in front of its old series (or of empty slots), an absent
   * rider gets an empty slot in front, and all series have `count` entries.
   */
  /** After one session every series has `count` entries and riders stay distinct. */
  lemma SessionShape(rows: seq<Row>, count: nat, ps: seq<(string, int)>)
    requires count >= 1 && Width(rows, count - 1) && KeysDistinct(rows) && OncePerRider(ps)
    ensures KeysDistinct(PadAll(PrependAll(rows, count, ps), count))
    ensures Width(PadAll(PrependAll(rows, count, ps), count), count)
  {
    var x := PrependAll(rows, count, ps);
    var r := PadAll(x, count);
    PrependAllKeys(rows, count, ps);
    assert KeysDistinct(r) by {
      forall i, j | 0 <= i < j < |r| ensures r[i].0 != r[j].0 {
        assert r[i].0 == x[i].0 && r[j].0 == x[j].0;
      }
    }
    forall i | 0 <= i < |r| ensures |r[i].1| == count {
      var key := x[i].0;
      LookupOfMember(x, key, x[i].1);
      PrependAllSeries(rows, count, ps, key);
      PositionsOfOnce(ps, key);
      if Lookup(rows, key).Some? {
        var j :| 0 <= j < |rows| && rows[j] == (key, Lookup(rows, key).value);
        assert |rows[j].1| == count - 1;
      }
    }
  }

  /**
   * One session, each rider placed once: a placed rider's series is its
   * position in front of its old series (or of empty slots), and a rider
   * who did not place gets an empty slot in front.
   */
  lemma SessionRows(rows: seq<Row>, count: nat, ps: seq<(string, int)>, k: string)
    requires count >= 1 && Width(rows, count - 1) && OncePerRider(ps)
    ensures Lookup(PadAll(PrependAll(rows, count, ps), count), k)
              == if PositionsOf(ps, k) == [] then
                   (match Lookup(rows, k) case None => None case Some(s) => Some([None] + s))
                 else Some(PositionsOf(ps, k) + Lookup(rows, k).GetOr(Nones(count - 1)))
  {
    var x := PrependAll(rows, count, ps);
    PadAllLookup(x, count, k);
    PrependAllSeries(rows, count, ps, k);
    PositionsOfOnce(ps, k);
    var pk := PositionsOf(ps, k);
    var g := Lookup(rows, k).GetOr(Nones(count - 1));
    WidthLookup(rows, count - 1, k);
    if pk != [] {
      assert Reverse(pk) == pk;
      assert Pad(pk + g, count) == pk + g;
    } else if Lookup(rows, k).Some? {
      assert Nones<int>(1) == [None];
      assert Pad(g, count) == [None] + g;
    }
  }

  // The blocks of all labels.

  /** A label's block, as first created. */
  function NewBlock(loc: string, tag: string): Block {
    Block(loc + " " + tag + " Results History", [], 0, [])
  }

  /**
   * One point session under `tag`: the session is counted, its year is
   * put in front of the columns when it has results, its positions are
   * prepended, and every series is padded to the new count.
   */
  function VisitBlocks(blocks: seq<(string, Block)>, loc: string, tag: string, year: int,
                       ps: seq<(string, int)>): seq<(string, Block)>
  {
    var b := Lookup(blocks, tag).GetOr(NewBlock(loc, tag));
    var count := b.count + 1;
    var columns := if |ps| > 0 then [IntToString(year)] + b.columns else b.columns;
    Put(blocks, tag, Block(b.title, columns, count, PadAll(PrependAll(b.rows, count, ps), count)))
  }

  function Cats(vs: seq<Visit>): (r: seq<string>)
    ensures |r| == |vs| && forall i :: 0 <= i < |vs| ==> r[i] == vs[i].cat
  {
    seq(|vs|, i requires 0 <= i < |vs| => vs[i].cat)
  }

  /** The blocks by label, in the order labels first occur, and the flags. */
  function History(loc: string, vs: seq<Visit>): (seq<(string, Block)>, Flags) {
    if vs == [] then ([], Flags(false, false, false))
    else
      var (blocks, flags) := History(loc, vs[..|vs| - 1]);
      var v := vs[|vs| - 1];
      var (tag, flags') := Relabel(v.cat, flags);
      (VisitBlocks(blocks, loc, tag, v.year, v.placings), flags')
  }

  /** One more visit: relabel it with the flags so far, then file it. */
  lemma HistorySnoc(loc: string, vs: seq<Visit>, v: Visit)
    ensures var (blocks, flags) := History(loc, vs);
      History(loc, vs + [v])
        == (VisitBlocks(blocks, loc, Relabel(v.cat, flags).0, v.year, v.placings), Relabel(v.cat, flags).1)
  {
    assert (vs + [v])[..|vs|] == vs;
  }

  /** Each session is filed under the label `Label` gives it among all categories visited. */
  lemma HistoryStep(loc: string, vs: seq<Visit>, v: Visit)
    ensures History(loc, vs + [v]).1 == FlagsAfter(Cats(vs + [v]))
    ensures History(loc, vs + [v]).0
              == VisitBlocks(History(loc, vs).0, loc, Label(Cats(vs + [v]), |vs|), v.year, v.placings)
  {
    HistoryFlags(loc, vs);
    assert (vs + [v])[..|vs|] == vs;
    assert Cats(vs + [v])[..|vs|] == Cats(vs);
  }

  lemma {:induction false} HistoryFlags(loc: string, vs: seq<Visit>)
    ensures History(loc, vs).1 == FlagsAfter(Cats(vs))
  {
    if vs != [] {
      HistoryFlags(loc, vs[..|vs| - 1]);
      assert Cats(vs)[..|vs| - 1] == Cats(vs[..|vs| - 1]);
    }
  }

  /** What the pad loop keeps: a block's rows all have one slot per counted session. */
  predicate BlockOk(loc: string, tag: string, b: Block) {
    && b.title == loc + " " + tag + " Results History"
    && b.count >= 1 && |b.columns| <= b.count
    && KeysDistinct(b.rows) && Width(b.rows, b.count)
  }

  predicate AllOncePerRider(vs: seq<Visit>) {
    forall i :: 0 <= i < |vs| ==> OncePerRider(vs[i].placings)
  }

  /** The blocks are keyed by label and each is well formed. */
  predicate BlocksOk(loc: string, bs: seq<(string, Block)>) {
    KeysDistinct(bs) && forall i :: 0 <= i < |bs| ==> BlockOk(loc, bs[i].0, bs[i].1)
  }

  /** The block a label has so far, or a new one. */
  function BlockOf(bs: seq<(string, Block)>, loc: string, tag: string): (b: Block)
    requires BlocksOk(loc, bs)
    ensures b == NewBlock(loc, tag) || BlockOk(loc, tag, b)
    ensures Lookup(bs, tag).Some? ==> BlockOk(loc, tag, b)
    ensures b == Lookup(bs, tag).GetOr(NewBlock(loc, tag))
  {
    var l := Lookup(bs, tag);
    if l.Some? then
      var j :| 0 <= j < |bs| && bs[j] == (tag, l.value);
      l.value
    else NewBlock(loc, tag)
  }

  /** One visit keeps the blocks well formed. */
  lemma VisitShape(bs: seq<(string, Block)>, loc: string, tag: string, year: int, ps: seq<(string, int)>)
    requires BlocksOk(loc, bs) && OncePerRider(ps)
    ensures BlocksOk(loc, VisitBlocks(bs, loc, tag, year, ps))
  {
    var b := BlockOf(bs, loc, tag);
    var count := b.count + 1;
    SessionShape(b.rows, count, ps);
    var nb := Block(b.title, if |ps| > 0 then [IntToString(year)] + b.columns else b.columns, count,
                    PadAll(PrependAll(b.rows, count, ps), count));
    assert BlockOk(loc, tag, nb);
    assert VisitBlocks(bs, loc, tag, year, ps) == Put(bs, tag, nb);
    PutSpec(bs, tag, nb);
  }

  /**
   * When no session lists a rider twice, every label's block is well formed:
   * its series all have as many entries as it has sessions, and it has at
   * most that many columns.
   */
  lemma {:induction false} HistoryShape(loc: string, vs: seq<Visit>)
    requires AllOncePerRider(vs)
    ensures BlocksOk(loc, History(loc, vs).0)
  {
    if vs != [] {
      var init := vs[..|vs| - 1];
      var v := vs[|vs| - 1];
      assert AllOncePerRider(init) by {
        forall i | 0 <= i < |init| ensures OncePerRider(init[i].placings) {
          assert init[i] == vs[i];
        }
      }
      HistoryShape(loc, init);
      VisitShape(History(loc, init).0, loc, Relabel(v.cat, History(loc, init).1).0, v.year, v.placings);
    }
  }

  /**
   * The series a visit leaves for rider `k` under its label: its position in
   * front when it placed, otherwise an empty slot in front; a rider new to the
   * label starts with empty slots for the label's earlier sessions. Other
   * labels are untouched.
   */
  lemma VisitSeries(bs: seq<(string, Block)>, loc: string, tag: string, year: int,
                    ps: seq<(string, int)>, k: string)
    requires BlocksOk(loc, bs) && OncePerRider(ps)
    ensures var b := BlockOf(bs, loc, tag);
      var r := VisitBlocks(bs, loc, tag, year, ps);
      && (forall other :: other != tag ==> Lookup(r, other) == Lookup(bs, other))
      && Lookup(r, tag).Some? && Lookup(r, tag).value.count == b.count + 1
      && Lookup(Lookup(r, tag).value.rows, k)
           == if PositionsOf(ps, k) == [] then
                (match Lookup(b.rows, k) case None => None case Some(s) => Some([None] + s))
              else Some(PositionsOf(ps, k) + Lookup(b.rows, k).GetOr(Nones(b.count)))
  {
    var b := BlockOf(bs, loc, tag);
    var count := b.count + 1;
    var rows := PadAll(PrependAll(b.rows, count, ps), count);
    var nb := Block(b.title, if |ps| > 0 then [IntToString(year)] + b.columns else b.columns, count, rows);
    var r := Put(bs, tag, nb);
    PutSpec(bs, tag, nb);
    assert VisitBlocks(bs, loc, tag, year, ps) == r;
    assert Lookup(r, tag) == Some(nb);
    SessionRows(b.rows, count, ps, k);
  }

  /** The charts: one per label, named after the location and the label. */
  function EventCharts(db: Db, loc: string, year: int, seasonCount: int): (r: seq<Chart<seq<Option<int>>>>)
    requires Named(db.results)
  {
    var bs := History(loc, Visits(db, loc, Years(year, seasonCount))).0;
    seq(|bs|, i requires 0 <= i < |bs| =>
      Chart(loc + "-" + bs[i].0 + ".svg", bs[i].1.title, bs[i].1.columns, bs[i].1.rows))
  }

  // The builder.

  /** The results loop: a new rider starts with `count - 1` empty slots, then the position goes in front. */
  method PrependRows(start: seq<Row>, count: nat, ps: seq<(string, int)>) returns (rows: seq<Row>)
    requires count >= 1
    ensures rows == PrependAll(start, count, ps)
  {
    rows := start;
    for i := 0 to |ps|
      invariant rows == PrependAll(start, count, ps[..i])
    {
      assert ps[..i + 1][..i] == ps[..i];
      var (rider, position) := ps[i];
      var j := KeyIndex(rows, rider);
      if j < 0 {
        rows := rows + [(rider, Nones(count - 1))];
        j := |rows| - 1;
      }
      rows := rows[j := (rider, [Some(position)] + rows[j].1)];
    }
    assert ps[..|ps|] == ps;
  }

  /** The padding loop: every series gets empty slots in front until it has `count` entries. */
  method PadRows(start: seq<Row>, count: nat) returns (rows: seq<Row>)
    ensures rows == PadAll(start, count)
  {
    rows := start;
    for i := 0 to |start|
      invariant |rows| == |start|
      invariant forall j :: 0 <= j < i ==> rows[j] == (start[j].0, Pad(start[j].1, count))
      invariant forall j :: i <= j < |start| ==> rows[j] == start[j]
    {
      var s := PadSeries(rows[i].1, count);
      rows := rows[i := (rows[i].0, s)];
    }
  }

  /** The inner `while` of the padding loop, on one series. */
  method PadSeries(start: seq<Option<int>>, count: nat) returns (s: seq<Option<int>>)
    ensures s == Pad(start, count)
  {
    s := start;
    while |s| < count
      invariant Pad(s, count) == Pad(start, count)
      decreases count - |s|
    {
      assert Nones(count - |s| - 1) + ([None] + s) == Nones(count - |s|) + s;
      s := [None] + s;
    }
  }

  /** The body of the category loop once the session is found and its label known. */
  method VisitSession(blocks: seq<(string, Block)>, loc: string, tag: string, year: int,
                      ps: seq<(string, int)>) returns (r: seq<(string, Block)>)
    ensures r == VisitBlocks(blocks, loc, tag, year, ps)
  {
    var b := NewBlock(loc, tag);
    var found := Lookup(blocks, tag);
    if found.Some? {
      b := found.value;
    }
    var count := b.count + 1;
    var columns := b.columns;
    if |ps| > 0 {
      columns := [IntToString(year)] + columns;
    }
    var rows := PrependRows(b.rows, count, ps);
    rows := PadRows(rows, count);
    r := Put(blocks, tag, Block(b.title, columns, count, rows));
  }

  /** The body of the category loop. */
  method VisitCategory(db: Db, loc: string, e: Event, c: string, blocks: seq<(string, Block)>, flags: Flags,
                       ghost done: seq<Visit>) returns (blocks': seq<(string, Block)>, flags': Flags)
    requires Named(db.results) && OnePointSessionEach(db.sessions)
    requires (blocks, flags) == History(loc, done)
    ensures (blocks', flags') == History(loc, done + CategoryVisit(db, e, c))
  {
    blocks', flags' := blocks, flags;
    var found := PointSession(db.sessions, c, e);
    if found.None? {
      assert done + [] == done;
      return;
    }
    var v := Visit(e.year, c, Placings(db.results, found.value));
    var (tag, next) := Relabel(c, flags);
    blocks' := VisitSession(blocks, loc, tag, e.year, v.placings);
    flags' := next;
    HistorySnoc(loc, done, v);
  }

  /** The category loop of one season. */
  method VisitCategories(db: Db, loc: string, e: Event, cats: seq<string>, blocks: seq<(string, Block)>,
                         flags: Flags, ghost done: seq<Visit>) returns (blocks': seq<(string, Block)>, flags': Flags)
    requires Named(db.results) && OnePointSessionEach(db.sessions)
    requires (blocks, flags) == History(loc, done)
    ensures (blocks', flags') == History(loc, done + CategoryVisits(db, e, cats))
  {
    blocks', flags' := blocks, flags;
    ghost var h := done;
    for c := 0 to |cats|
      invariant h == done + CategoryVisits(db, e, cats[..c])
      invariant (blocks', flags') == History(loc, h)
    {
      assert cats[..c + 1][..c] == cats[..c];
      blocks', flags' := VisitCategory(db, loc, e, cats[c], blocks', flags', h);
      h := h + CategoryVisit(db, e, cats[c]);
    }
    assert cats[..|cats|] == cats;
  }

  /** One year of the season loop: a year without its season or without the event is skipped. */
  method VisitYear(db: Db, loc: string, year: int, blocks: seq<(string, Block)>, flags: Flags,
                   ghost done: seq<Visit>) returns (blocks': seq<(string, Block)>, flags': Flags)
    requires Named(db.results) && OnePointSessionEach(db.sessions)
    requires (blocks, flags) == History(loc, done)
    ensures (blocks', flags') == History(loc, done + YearVisits(db, loc, year))
  {
    var si := SeasonIndex(db, year);
    var ei := EventIndex(db, year, loc);
    if si < 0 || ei < 0 {
      assert done + [] == done;
      blocks', flags' := blocks, flags;
    } else {
      blocks', flags' := VisitCategories(db, loc, db.events[ei], db.seasons[si].categories, blocks, flags, done);
    }
  }

  /** The saving loop: one chart per label. */
  method ChartsOf(loc: string, blocks: seq<(string, Block)>) returns (charts: seq<Chart<seq<Option<int>>>>)
    ensures |charts| == |blocks|
    ensures forall j :: 0 <= j < |blocks| ==>
      charts[j] == Chart(loc + "-" + blocks[j].0 + ".svg", blocks[j].1.title, blocks[j].1.columns, blocks[j].1.rows)
  {
    charts := [];
    for i := 0 to |blocks|
      invariant |charts| == i
      invariant forall j :: 0 <= j < i ==>
        charts[j] == Chart(loc + "-" + blocks[j].0 + ".svg", blocks[j].1.title, blocks[j].1.columns, blocks[j].1.rows)
    {
      var (tag, b) := blocks[i];
      charts := charts + [Chart(loc + "-" + tag + ".svg", b.title, b.columns, b.rows)];
    }
  }

  /** The season loop, newest year first. */
  method VisitYears(db: Db, loc: string, years: seq<int>) returns (blocks: seq<(string, Block)>, flags: Flags)
    requires Named(db.results) && OnePointSessionEach(db.sessions)
    ensures (blocks, flags) == History(loc, Visits(db, loc, years))
  {
    blocks, flags := [], Flags(false, false, false);
    for y := 0 to |years|
      invariant (blocks, flags) == History(loc, Visits(db, loc, years[..y]))
    {
      assert years[..y + 1][..y] == years[..y];
      blocks, flags := VisitYear(db, loc, years[y], blocks, flags, Visits(db, loc, years[..y]));
    }
    assert years[..|years|] == years;
  }

  /** `Event.create_event_history_chart(season_count)` for the event at `loc` in `year`. */
  method CreateEventHistoryChart(db: Db, loc: string, year: int, seasonCount: int)
    returns (charts: seq<Chart<seq<Option<int>>>>)
    requires Named(db.results) && OnePointSessionEach(db.sessions)
    ensures charts == EventCharts(db, loc, year, seasonCount)
  {
    var blocks, _ := VisitYears(db, loc, Years(year, seasonCount));
    charts := ChartsOf(loc, blocks);
  }
}
