/**
 * `insert_in_database`: stores one parsed results page under its season,
 * event, category and session, replacing a restarted session, and turns
 * each row into a Result numbered by its accepted position.
 */
module Ingest {
  import opened Wrappers
  import opened Text
  import opened Names
  import opened Table
  import opened Schema
  import opened Menu
  import opened Store

  /** `session in ('RAC', 'RAC2')`: the sessions that score points. */
  predicate IsPointSession(session: string) {
    session == "RAC" || session == "RAC2"
  }

  /** Where each field sits in a row. */
  datatype Columns = Columns(rider: nat, nation: nat, team: nat, bike: nat, speed: nat, time: nat)

  /** The two column maps: race rows carry one more leading column. */
  function ColumnsFor(point: bool): Columns {
    if point then Columns(3, 4, 5, 6, 7, 8) else Columns(2, 3, 4, 5, 6, 7)
  }

  /** The point flag selects the map: the rider sits at 3 in a race and at 2 elsewhere, the rest follow it. */
  lemma ColumnMaps(session: string)
    ensures var c := ColumnsFor(IsPointSession(session));
      && c.rider == (if session == "RAC" || session == "RAC2" then 3 else 2)
      && c.nation == c.rider + 1 && c.team == c.rider + 2 && c.bike == c.rider + 3
      && c.speed == c.rider + 4 && c.time == c.rider + 5
  {
  }

  /**
   * What the loop body does with a row: skip it (an `IndexError` inside the
   * guard, a name the pattern misses, an empty name part), store it, or fail
   * with an `IndexError` outside the guard after creating the rider and
   * possibly the team and the brand.
   */
  datatype RowKind =
    | Skip
    | Take(rider: Rider, team: string, brand: string, speed: string, time: string)
    | CrashAfter(rider: Rider, madeTeam: Option<string>, madeBrand: Option<string>)

  function Classify(row: seq<string>, c: Columns): (k: RowKind)
    ensures k.Take? ==> |row| > c.rider && |row| > c.nation && |row| > c.team && |row| > c.bike
                        && |row| > c.speed && |row| > c.time
    ensures k.Take? ==> k.team == row[c.team] && k.brand == row[c.bike] && k.speed == row[c.speed]
                        && k.time == row[c.time] && k.rider.fullName == row[c.rider]
    ensures !k.Skip? ==> |row| > c.rider && |row| > c.nation && SplitName(row[c.rider]).Some?
    ensures !k.Skip? ==> |k.rider.firstName| >= 1 && |k.rider.lastName| >= 1
    ensures k.CrashAfter? ==> |row| <= c.team || |row| <= c.bike || |row| <= c.speed || |row| <= c.time
  {
    if |row| <= c.rider then Skip
    else
      match SplitName(row[c.rider])
      case None => Skip
      case Some(sp) =>
        if |row| <= c.nation then Skip
        else
          var r := Rider(row[c.rider], sp.last, sp.first, Lower(row[c.nation]));
          if |row| <= c.team then CrashAfter(r, None, None)
          else if |row| <= c.bike then CrashAfter(r, Some(row[c.team]), None)
          else if |row| <= c.speed || |row| <= c.time then CrashAfter(r, Some(row[c.team]), Some(row[c.bike]))
          else Take(r, row[c.team], row[c.bike], row[c.speed], row[c.time])
  }

  /** The effect of a failing row: what was created before the exception stays. */
  function ApplyCrash(db: Db, k: RowKind): (d: Db)
    requires k.CrashAfter?
    ensures d == db.(riders := d.riders, teams := d.teams, brands := d.brands)
  {
    var d1 := WithRider(db, k.rider);
    var d2 := if k.madeTeam.Some? then WithTeam(d1, k.madeTeam.value) else d1;
    if k.madeBrand.Some? then WithBrand(d2, k.madeBrand.value) else d2
  }

  /** The effect of a stored row at `position` of session `sid`. */
  function ApplyTake(db: Db, sid: nat, k: RowKind, position: int): (d: Db)
    requires k.Take?
    ensures d == db.(riders := d.riders, teams := d.teams, brands := d.brands, results := d.results)
    ensures d.results == db.results + [Result(k.rider, k.brand, k.team, sid, k.speed, k.time, position)]
  {
    var d1 := WithBrand(WithTeam(WithRider(db, k.rider), k.team), k.brand);
    WithResult(d1, Result(k.rider, k.brand, k.team, sid, k.speed, k.time, position))
  }

  /** The classification of every row. */
  function Kinds(rows: seq<seq<string>>, c: Columns): (ks: seq<RowKind>)
    ensures |ks| == |rows| && forall i :: 0 <= i < |rows| ==> ks[i] == Classify(rows[i], c)
  {
    seq(|rows|, i requires 0 <= i < |rows| => Classify(rows[i], c))
  }

  /** The classified rows from the front, numbering stored rows from `position`; true when a row raised. */
  function IngestKinds(db: Db, sid: nat, ks: seq<RowKind>, position: int): (r: (Db, bool))
    ensures r.0 == db.(riders := r.0.riders, teams := r.0.teams, brands := r.0.brands, results := r.0.results)
    decreases |ks|
  {
    if ks == [] then (db, false)
    else if ks[0].Skip? then IngestKinds(db, sid, ks[1..], position)
    else if ks[0].Take? then IngestKinds(ApplyTake(db, sid, ks[0], position), sid, ks[1..], position + 1)
    else (ApplyCrash(db, ks[0]), true)
  }

  /** The stored rows, in order, up to the first row that raises. */
  function Accepted(ks: seq<RowKind>): (r: seq<RowKind>)
    ensures forall i :: 0 <= i < |r| ==> r[i].Take?
    ensures |r| <= |ks|
  {
    if ks == [] then []
    else if ks[0].Skip? then Accepted(ks[1..])
    else if ks[0].Take? then [ks[0]] + Accepted(ks[1..])
    else []
  }

  /** The results of the accepted rows, numbered from `position`. */
  function Numbered(ks: seq<RowKind>, sid: nat, position: int): (r: seq<Result>)
    requires forall i :: 0 <= i < |ks| ==> ks[i].Take?
    ensures |r| == |ks|
    ensures forall i :: 0 <= i < |ks| ==>
              r[i] == Result(ks[i].rider, ks[i].brand, ks[i].team, sid, ks[i].speed, ks[i].time, position + i)
  {
    if ks == [] then []
    else [Result(ks[0].rider, ks[0].brand, ks[0].team, sid, ks[0].speed, ks[0].time, position)]
         + Numbered(ks[1..], sid, position + 1)
  }

  /**
   * The rows add exactly one result per accepted row, in row order, with
   * consecutive positions from `position`; skipped rows take no position.
   */
  lemma {:induction false} IngestKindsResults(db: Db, sid: nat, ks: seq<RowKind>, position: int)
    ensures IngestKinds(db, sid, ks, position).0.results == db.results + Numbered(Accepted(ks), sid, position)
    decreases |ks|
  {
    if ks != [] {
      var k := ks[0];
      if k.Skip? {
        IngestKindsResults(db, sid, ks[1..], position);
      } else if k.Take? {
        IngestKindsResults(ApplyTake(db, sid, k, position), sid, ks[1..], position + 1);
        assert Numbered(Accepted(ks), sid, position)
            == [Result(k.rider, k.brand, k.team, sid, k.speed, k.time, position)]
               + Numbered(Accepted(ks[1..]), sid, position + 1);
      }
    }
  }

  /** A run raises exactly when some row raises; the accepted rows all come before the first such row. */
  lemma {:induction false} IngestKindsCrash(db: Db, sid: nat, ks: seq<RowKind>, position: int)
    ensures IngestKinds(db, sid, ks, position).1 <==> exists i :: 0 <= i < |ks| && ks[i].CrashAfter?
    decreases |ks|
  {
    if ks != [] {
      var k := ks[0];
      if !k.CrashAfter? {
        var d := if k.Skip? then db else ApplyTake(db, sid, k, position);
        IngestKindsCrash(d, sid, ks[1..], if k.Skip? then position else position + 1);
        if exists i :: 0 <= i < |ks| && ks[i].CrashAfter? {
          var i :| 0 <= i < |ks| && ks[i].CrashAfter?;
          assert ks[1..][i - 1] == ks[i];
        }
      }
    }
  }

  /** The riders, teams and brands the rows name. */
  ghost predicate KindsKnown(db: Db, ks: seq<RowKind>) {
    forall i :: 0 <= i < |ks| ==>
      && (!ks[i].Skip? ==> ks[i].rider in db.riders)
      && (ks[i].Take? ==> ks[i].team in db.teams && ks[i].brand in db.brands)
      && (ks[i].CrashAfter? && ks[i].madeTeam.Some? ==> ks[i].madeTeam.value in db.teams)
      && (ks[i].CrashAfter? && ks[i].madeBrand.Some? ==> ks[i].madeBrand.value in db.brands)
  }

  /** Rows whose riders, teams and brands are all stored create none of them. */
  lemma {:induction false} IngestKindsReuses(db: Db, sid: nat, ks: seq<RowKind>, position: int)
    requires KindsKnown(db, ks)
    ensures var d := IngestKinds(db, sid, ks, position).0;
      d.riders == db.riders && d.teams == db.teams && d.brands == db.brands
    decreases |ks|
  {
    if ks != [] {
      var k := ks[0];
      assert KindsKnown(db, ks[1..]) by {
        forall i | 0 <= i < |ks| - 1 ensures ks[1..][i] == ks[i + 1] { }
      }
      if k.Skip? {
        IngestKindsReuses(db, sid, ks[1..], position);
      } else if k.Take? {
        var d := ApplyTake(db, sid, k, position);
        assert d.riders == db.riders && d.teams == db.teams && d.brands == db.brands;
        IngestKindsReuses(d, sid, ks[1..], position + 1);
      }
    }
  }

  /** The rows only ever add riders, teams and brands. */
  lemma {:induction false} IngestKindsGrows(db: Db, sid: nat, ks: seq<RowKind>, position: int)
    ensures var d := IngestKinds(db, sid, ks, position).0;
      (forall x :: x in db.riders ==> x in d.riders) && (forall t :: t in db.teams ==> t in d.teams)
      && (forall b :: b in db.brands ==> b in d.brands)
    decreases |ks|
  {
    if ks != [] && !ks[0].CrashAfter? {
      var next := if ks[0].Skip? then db else ApplyTake(db, sid, ks[0], position);
      IngestKindsGrows(next, sid, ks[1..], if ks[0].Skip? then position else position + 1);
    }
  }

  /** After a run that did not raise, everything the rows name is stored. */
  lemma {:induction false} IngestKindsStores(db: Db, sid: nat, ks: seq<RowKind>, position: int)
    requires !IngestKinds(db, sid, ks, position).1
    ensures KindsKnown(IngestKinds(db, sid, ks, position).0, ks)
    decreases |ks|
  {
    if ks != [] {
      var k := ks[0];
      var d := IngestKinds(db, sid, ks, position).0;
      var next := if k.Skip? then db else ApplyTake(db, sid, k, position);
      var p := if k.Skip? then position else position + 1;
      assert IngestKinds(db, sid, ks, position) == IngestKinds(next, sid, ks[1..], p);
      IngestKindsStores(next, sid, ks[1..], p);
      IngestKindsGrows(next, sid, ks[1..], p);
      forall i | 0 <= i < |ks|
        ensures && (!ks[i].Skip? ==> ks[i].rider in d.riders)
                && (ks[i].Take? ==> ks[i].team in d.teams && ks[i].brand in d.brands)
                && (ks[i].CrashAfter? && ks[i].madeTeam.Some? ==> ks[i].madeTeam.value in d.teams)
                && (ks[i].CrashAfter? && ks[i].madeBrand.Some? ==> ks[i].madeBrand.value in d.brands)
      {
        if i > 0 {
          assert ks[1..][i - 1] == ks[i];
        }
      }
    }
  }

  /** Running the same rows again (into any session) creates no rider, team or brand, and adds the same results again. */
  lemma KindsTwice(db: Db, sid: nat, sid2: nat, ks: seq<RowKind>)
    requires !IngestKinds(db, sid, ks, 1).1
    ensures var d1 := IngestKinds(db, sid, ks, 1).0;
      var d2 := IngestKinds(d1, sid2, ks, 1).0;
      d2.riders == d1.riders && d2.teams == d1.teams && d2.brands == d1.brands
      && d2.results == d1.results + Numbered(Accepted(ks), sid2, 1)
  {
    var d1 := IngestKinds(db, sid, ks, 1).0;
    IngestKindsStores(db, sid, ks, 1);
    IngestKindsReuses(d1, sid2, ks, 1);
    IngestKindsResults(d1, sid2, ks, 1);
  }

  /** The store after linking season, location, category and event. */
  function Linked(db: Db, year: int, loc: string, cat: string): (d: Db)
    ensures d.sessions == db.sessions && d.results == db.results && d.nextSession == db.nextSession
    ensures d.riders == db.riders && d.teams == db.teams && d.brands == db.brands
  {
    var d1 := WithCategory(WithLocation(WithSeason(db, year), loc), cat);
    LinkEvent(WithEvent(LinkSeason(d1, year, cat), year, loc), year, loc, cat)
  }

  /** The session type stored: a restart is stored under the name of the session it replaces. */
  function StoredType(session: string): string {
    if session == "RAC2" then "RAC" else if session == "WUP2" then "WUP" else session
  }

  /** The store after removing the sessions a restart replaces. */
  function Replace(db: Db, year: int, loc: string, cat: string, session: string): Db {
    if session == "RAC2" || session == "WUP2" then
      DeleteSessions(db, IsPointSession(session), cat, year, loc, StoredType(session))
    else db
  }

  datatype Ingested = Ingested(db: Db, session: nat, created: bool, crashed: bool)

  /** `insert_in_database(season, event, category, session, results)` on the store `db`. */
  function IngestSpec(db: Db, year: int, loc: string, cat: string, session: string, page: Parsed): Ingested {
    var point := IsPointSession(session);
    var d2 := Replace(Linked(db, year, loc, cat), year, loc, cat, session);
    var (d3, sid, created) := WithSession(d2, StoredType(session), point, cat, year, loc, page.sourceUrl);
    var (d4, crashed) := IngestKinds(d3, sid, Kinds(page.rows, ColumnsFor(point)), 1);
    Ingested(d4, sid, created, crashed)
  }

  /** Season, location, category and event are present, and the category is linked to both. */
  ghost predicate IsLinked(d: Db, year: int, loc: string, cat: string) {
    && SeasonIndex(d, year) >= 0 && cat in d.seasons[SeasonIndex(d, year)].categories
    && loc in d.locations && cat in d.categories
    && EventIndex(d, year, loc) >= 0 && cat in d.events[EventIndex(d, year, loc)].categories
  }

  /** Linking leaves everything linked, and changes nothing that is linked already. */
  lemma LinkedIsLinked(db: Db, year: int, loc: string, cat: string)
    ensures IsLinked(Linked(db, year, loc, cat), year, loc, cat)
    ensures IsLinked(db, year, loc, cat) ==> Linked(db, year, loc, cat) == db
  {
    var d0 := WithSeason(db, year);
    var d1 := WithCategory(WithLocation(d0, loc), cat);
    var d2 := LinkSeason(d1, year, cat);
    SeasonIndexFromYears(d1.seasons, d2.seasons, year, 0);
    var d3 := WithEvent(d2, year, loc);
    var d4 := LinkEvent(d3, year, loc, cat);
    EventIndexFromKeys(d3.events, d4.events, year, loc, 0);
    if IsLinked(db, year, loc, cat) {
      var i := SeasonIndex(db, year);
      assert db.seasons[i := db.seasons[i].(categories := AddLast(db.seasons[i].categories, cat))] == db.seasons;
      var j := EventIndex(db, year, loc);
      assert db.events[j := db.events[j].(categories := AddLast(db.events[j].categories, cat))] == db.events;
    }
  }

  /**
   * A restart (RAC2 or WUP2) that has no session to replace is ingested
   * exactly as the session it restarts: the filter finds nothing, and no
   * exception stops the ingestion.
   */
  lemma RestartWithoutPredecessor(db: Db, year: int, loc: string, cat: string, session: string, page: Parsed)
    requires session == "RAC2" || session == "WUP2"
    requires ResultsOk(db)
    requires forall j :: 0 <= j < |db.sessions| ==>
               !Replaced(db.sessions[j], IsPointSession(session), cat, year, loc, StoredType(session))
    ensures IngestSpec(db, year, loc, cat, session, page) == IngestSpec(db, year, loc, cat, StoredType(session), page)
  {
    var point, t := IsPointSession(session), StoredType(session);
    assert IsPointSession(t) == point && StoredType(t) == t;
    var l := Linked(db, year, loc, cat);
    KeepSessionsAll(l.sessions, point, cat, year, loc, t);
    KeepResultsAll(l.results, l.sessions);
    assert DeleteSessions(l, point, cat, year, loc, t) == l;
    assert Replace(l, year, loc, cat, session) == l && Replace(l, year, loc, cat, t) == l;
  }

  /**
   * After a restart every session of that event and category with the
   * restarted type and flag is gone but the new one, created under the
   * restarted type.
   */
  lemma RestartReplaces(db: Db, year: int, loc: string, cat: string, session: string, page: Parsed)
    requires session == "RAC2" || session == "WUP2"
    ensures var r := IngestSpec(db, year, loc, cat, session, page);
      && r.created
      && (forall j :: 0 <= j < |r.db.sessions| &&
            Replaced(r.db.sessions[j], IsPointSession(session), cat, year, loc, StoredType(session))
            ==> r.db.sessions[j].id == r.session)
      && r.db.sessions[|r.db.sessions| - 1]
           == Session(r.session, StoredType(session), IsPointSession(session), cat, year, loc, page.sourceUrl)
  {
    var d2 := Replace(Linked(db, year, loc, cat), year, loc, cat, session);
    assert forall j :: 0 <= j < |d2.sessions| ==>
      !Replaced(d2.sessions[j], IsPointSession(session), cat, year, loc, StoredType(session)) by {
      forall j | 0 <= j < |d2.sessions|
        ensures !Replaced(d2.sessions[j], IsPointSession(session), cat, year, loc, StoredType(session))
      {
        assert d2.sessions[j] in d2.sessions;
      }
    }
    var point, t := IsPointSession(session), StoredType(session);
    CreatedAlone(d2, t, point, cat, year, loc, page.sourceUrl);
    var (d3, sid, created) := WithSession(d2, t, point, cat, year, loc, page.sourceUrl);
    var r := IngestSpec(db, year, loc, cat, session, page);
    assert r.db.sessions == d3.sessions && r.session == sid && r.created;
  }

  /**
   * When no stored session has the filtered type and flag, the get-or-create
   * appends the new session, and it is the only one that matches.
   */
  lemma CreatedAlone(d: Db, t: string, point: bool, cat: string, year: int, loc: string, url: string)
    requires forall j :: 0 <= j < |d.sessions| ==> !Replaced(d.sessions[j], point, cat, year, loc, t)
    ensures var (d', id, created) := WithSession(d, t, point, cat, year, loc, url);
      && created
      && (forall j :: 0 <= j < |d'.sessions| && Replaced(d'.sessions[j], point, cat, year, loc, t)
            ==> d'.sessions[j].id == id)
      && d'.sessions[|d'.sessions| - 1] == Session(id, t, point, cat, year, loc, url)
  {
    var (d', id, created) := WithSession(d, t, point, cat, year, loc, url);
    assert forall j :: 0 <= j < |d.sessions| ==> !SessionMatches(d.sessions[j], t, point, cat, year, loc, url);
    assert forall j :: 0 <= j < |d.sessions| ==> d'.sessions[j] == d.sessions[j];
  }

  /**
   * A page whose session matches none stored (not a restart) creates one
   * session, appended last.
   */
  lemma NewSessionCreated(db: Db, year: int, loc: string, cat: string, session: string, page: Parsed)
    requires session != "RAC2" && session != "WUP2"
    requires forall j :: 0 <= j < |db.sessions| ==>
               !SessionMatches(db.sessions[j], session, IsPointSession(session), cat, year, loc, page.sourceUrl)
    ensures var r := IngestSpec(db, year, loc, cat, session, page);
      && r.created
      && |r.db.sessions| == |db.sessions| + 1
      && r.db.sessions[|r.db.sessions| - 1]
           == Session(r.session, session, IsPointSession(session), cat, year, loc, page.sourceUrl)
  {
    var l := Linked(db, year, loc, cat);
    assert Replace(l, year, loc, cat, session) == l && l.sessions == db.sessions;
    var d3 := WithSession(l, session, IsPointSession(session), cat, year, loc, page.sourceUrl).0;
    assert IngestSpec(db, year, loc, cat, session, page).db.sessions == d3.sessions;
  }

  /** An ingest adds at most the session of its own URL: no other URL's session appears. */
  lemma NoOtherUrl(db: Db, year: int, loc: string, cat: string, session: string, page: Parsed, url: string)
    requires session != "RAC2" && session != "WUP2" && page.sourceUrl != url
    requires forall j :: 0 <= j < |db.sessions| ==>
               !SessionMatches(db.sessions[j], session, IsPointSession(session), cat, year, loc, url)
    ensures var d := IngestSpec(db, year, loc, cat, session, page).db;
      forall j :: 0 <= j < |d.sessions| ==>
        !SessionMatches(d.sessions[j], session, IsPointSession(session), cat, year, loc, url)
  {
    var point := IsPointSession(session);
    var l := Linked(db, year, loc, cat);
    assert Replace(l, year, loc, cat, session) == l && l.sessions == db.sessions;
    var d3 := WithSession(l, session, point, cat, year, loc, page.sourceUrl).0;
    assert IngestSpec(db, year, loc, cat, session, page).db.sessions == d3.sessions;
    forall j | 0 <= j < |d3.sessions|
      ensures !SessionMatches(d3.sessions[j], session, point, cat, year, loc, url)
    {
      if j < |l.sessions| {
        assert d3.sessions[j] == l.sessions[j];
      }
    }
  }

  /**
   * The session key includes the page's URL: the same session scraped from
   * another URL gets a second Session with the same type, flag, category
   * and event.
   */
  lemma SecondUrlSecondSession(db: Db, year: int, loc: string, cat: string, session: string,
                               page1: Parsed, page2: Parsed)
    requires session != "RAC2" && session != "WUP2"
    requires forall j :: 0 <= j < |db.sessions| ==>
               !SessionMatches(db.sessions[j], session, IsPointSession(session), cat, year, loc, page2.sourceUrl)
    requires page1.sourceUrl != page2.sourceUrl
    ensures var r1 := IngestSpec(db, year, loc, cat, session, page1);
      var r2 := IngestSpec(r1.db, year, loc, cat, session, page2);
      && r2.created
      && |r2.db.sessions| == |r1.db.sessions| + 1
      && r2.db.sessions[|r2.db.sessions| - 1]
           == Session(r2.session, session, IsPointSession(session), cat, year, loc, page2.sourceUrl)
  {
    NoOtherUrl(db, year, loc, cat, session, page1, page2.sourceUrl);
    NewSessionCreated(IngestSpec(db, year, loc, cat, session, page1).db, year, loc, cat, session, page2);
  }

  /** After an ingest, linking again and the restart deletion change nothing. */
  lemma LinkedAgain(db: Db, year: int, loc: string, cat: string, session: string, page: Parsed)
    requires session != "RAC2" && session != "WUP2"
    ensures var d := IngestSpec(db, year, loc, cat, session, page).db;
      Replace(Linked(d, year, loc, cat), year, loc, cat, session) == d
  {
    var point := IsPointSession(session);
    var l := Linked(db, year, loc, cat);
    LinkedIsLinked(db, year, loc, cat);
    var (d3, sid, created) := WithSession(l, session, point, cat, year, loc, page.sourceUrl);
    assert Replace(l, year, loc, cat, session) == l;
    var r1 := IngestSpec(db, year, loc, cat, session, page);
    assert r1.db == IngestKinds(d3, sid, Kinds(page.rows, ColumnsFor(point)), 1).0;
    assert IsLinked(r1.db, year, loc, cat);
    LinkedIsLinked(r1.db, year, loc, cat);
  }

  /** After an ingest, the get-or-create of its session finds the session it used. */
  lemma SessionAgain(db: Db, year: int, loc: string, cat: string, session: string, page: Parsed)
    requires session != "RAC2" && session != "WUP2"
    ensures var r1 := IngestSpec(db, year, loc, cat, session, page);
      WithSession(r1.db, session, IsPointSession(session), cat, year, loc, page.sourceUrl) == (r1.db, r1.session, false)
  {
    var point := IsPointSession(session);
    var l := Linked(db, year, loc, cat);
    var (d3, sid, created) := WithSession(l, session, point, cat, year, loc, page.sourceUrl);
    assert Replace(l, year, loc, cat, session) == l;
    var r1 := IngestSpec(db, year, loc, cat, session, page);
    assert r1.db == IngestKinds(d3, sid, Kinds(page.rows, ColumnsFor(point)), 1).0 && r1.session == sid;
    WithSessionAgain(l, session, point, cat, year, loc, page.sourceUrl);
    assert r1.db.sessions == d3.sessions && r1.db.nextSession == d3.nextSession;
  }

  /**
   * A second ingest of the same page finds everything the first one linked
   * and the session it left, and only classifies and stores the rows again.
   */
  lemma IngestAgain(db: Db, year: int, loc: string, cat: string, session: string, page: Parsed)
    requires session != "RAC2" && session != "WUP2"
    ensures var r1 := IngestSpec(db, year, loc, cat, session, page);
      var ks := Kinds(page.rows, ColumnsFor(IsPointSession(session)));
      IngestSpec(r1.db, year, loc, cat, session, page)
        == Ingested(IngestKinds(r1.db, r1.session, ks, 1).0, r1.session, false, IngestKinds(r1.db, r1.session, ks, 1).1)
  {
    LinkedAgain(db, year, loc, cat, session, page);
    SessionAgain(db, year, loc, cat, session, page);
  }

  /**
   * Ingesting the same page twice reuses the session, the season, the
   * location, the category, the event, every rider, team and brand, and
   * stores every accepted row a second time.
   */
  lemma ReingestSamePage(db: Db, year: int, loc: string, cat: string, session: string, page: Parsed)
    requires session != "RAC2" && session != "WUP2"
    requires !IngestSpec(db, year, loc, cat, session, page).crashed
    ensures var r1 := IngestSpec(db, year, loc, cat, session, page);
      var r2 := IngestSpec(r1.db, year, loc, cat, session, page);
      var ks := Kinds(page.rows, ColumnsFor(IsPointSession(session)));
      && !r2.created && r2.session == r1.session
      && r2.db.seasons == r1.db.seasons && r2.db.locations == r1.db.locations
      && r2.db.categories == r1.db.categories && r2.db.events == r1.db.events
      && r2.db.sessions == r1.db.sessions
      && r2.db.riders == r1.db.riders && r2.db.teams == r1.db.teams && r2.db.brands == r1.db.brands
      && r2.db.results == r1.db.results + Numbered(Accepted(ks), r1.session, 1)
  {
    var ks := Kinds(page.rows, ColumnsFor(IsPointSession(session)));
    var d3 := WithSession(Linked(db, year, loc, cat), session, IsPointSession(session), cat, year, loc, page.sourceUrl).0;
    var r1 := IngestSpec(db, year, loc, cat, session, page);
    IngestAgain(db, year, loc, cat, session, page);
    assert r1.db == IngestKinds(d3, r1.session, ks, 1).0;
    KindsTwice(d3, r1.session, r1.session, ks);
  }

  /** Linking keeps the store valid. */
  lemma LinkedValid(db: Db, year: int, loc: string, cat: string)
    requires Valid(db)
    ensures Valid(Linked(db, year, loc, cat))
  {
    var d0 := WithSeason(db, year);
    WithSeasonValid(db, year);
    var dl := WithLocation(d0, loc);
    WithLocationValid(d0, loc);
    var d1 := WithCategory(dl, cat);
    WithCategoryValid(dl, cat);
    assert SeasonIndex(d1, year) == SeasonIndex(d0, year);
    var d2 := LinkSeason(d1, year, cat);
    LinkSeasonValid(d1, year, cat);
    SeasonIndexFromYears(d1.seasons, d2.seasons, year, 0);
    var d3 := WithEvent(d2, year, loc);
    WithEventValid(d2, year, loc);
    LinkEventValid(d3, year, loc, cat);
  }

  /** A stored row of a named rider, into a stored session, keeps the store valid. */
  lemma ApplyTakeValid(db: Db, sid: nat, k: RowKind, position: int)
    requires Valid(db) && HasSession(db, sid)
    requires k.Take? && |k.rider.firstName| >= 1 && |k.rider.lastName| >= 1
    ensures var d := ApplyTake(db, sid, k, position);
      Valid(d) && d.sessions == db.sessions
  {
    var d1 := WithRider(db, k.rider);
    WithRiderValid(db, k.rider);
    var d2 := WithTeam(d1, k.team);
    WithTeamValid(d1, k.team);
    var d3 := WithBrand(d2, k.brand);
    WithBrandValid(d2, k.brand);
    assert d3.sessions == db.sessions;
    WithResultValid(d3, Result(k.rider, k.brand, k.team, sid, k.speed, k.time, position));
  }

  /** A failing row of a named rider keeps the store valid. */
  lemma ApplyCrashValid(db: Db, k: RowKind)
    requires Valid(db) && k.CrashAfter? && |k.rider.firstName| >= 1 && |k.rider.lastName| >= 1
    ensures Valid(ApplyCrash(db, k))
  {
    var d1 := WithRider(db, k.rider);
    WithRiderValid(db, k.rider);
    var d2 := if k.madeTeam.Some? then WithTeam(d1, k.madeTeam.value) else d1;
    if k.madeTeam.Some? {
      WithTeamValid(d1, k.madeTeam.value);
    }
    if k.madeBrand.Some? {
      WithBrandValid(d2, k.madeBrand.value);
    }
  }

  /** Rows of named riders, stored into a stored session, keep the store valid. */
  lemma {:induction false} IngestKindsValid(db: Db, sid: nat, ks: seq<RowKind>, position: int)
    requires Valid(db) && HasSession(db, sid)
    requires forall i :: 0 <= i < |ks| && !ks[i].Skip? ==>
               |ks[i].rider.firstName| >= 1 && |ks[i].rider.lastName| >= 1
    ensures Valid(IngestKinds(db, sid, ks, position).0)
    decreases |ks|
  {
    if ks != [] {
      var k := ks[0];
      assert forall i :: 0 <= i < |ks| - 1 ==> ks[1..][i] == ks[i + 1];
      if k.Skip? {
        IngestKindsValid(db, sid, ks[1..], position);
      } else if k.Take? {
        ApplyTakeValid(db, sid, k, position);
        IngestKindsValid(ApplyTake(db, sid, k, position), sid, ks[1..], position + 1);
      } else {
        ApplyCrashValid(db, k);
      }
    }
  }

  /**
   * An ingest keeps the store valid, and the session it used is stored.
   * With `Schema.ValidNamed`, every rider it stores has a first name.
   */
  lemma IngestValid(db: Db, year: int, loc: string, cat: string, session: string, page: Parsed)
    requires Valid(db)
    ensures var r := IngestSpec(db, year, loc, cat, session, page);
      Valid(r.db) && HasSession(r.db, r.session)
  {
    var point := IsPointSession(session);
    var d2 := Replace(Linked(db, year, loc, cat), year, loc, cat, session);
    ReplaceValid(db, year, loc, cat, session);
    var (d3, sid, created) := WithSession(d2, StoredType(session), point, cat, year, loc, page.sourceUrl);
    WithSessionValid(d2, StoredType(session), point, cat, year, loc, page.sourceUrl);
    IngestKindsValid(d3, sid, Kinds(page.rows, ColumnsFor(point)), 1);
  }

  /** `IngestValid` for a store that may or may not be valid. */
  lemma IngestKeepsValid(db: Db, year: int, loc: string, cat: string, session: string, page: Parsed)
    ensures Valid(db) ==> Valid(IngestSpec(db, year, loc, cat, session, page).db)
  {
    if Valid(db) {
      IngestValid(db, year, loc, cat, session, page);
    }
  }

  /** Linking and the restart deletion keep the store valid, with the event and category stored. */
  lemma ReplaceValid(db: Db, year: int, loc: string, cat: string, session: string)
    requires Valid(db)
    ensures var d := Replace(Linked(db, year, loc, cat), year, loc, cat, session);
      Valid(d) && EventIndex(d, year, loc) >= 0 && cat in d.categories
  {
    var l := Linked(db, year, loc, cat);
    LinkedValid(db, year, loc, cat);
    LinkedIsLinked(db, year, loc, cat);
    var d := Replace(l, year, loc, cat, session);
    if session == "RAC2" || session == "WUP2" {
      DeleteSessionsValid(l, IsPointSession(session), cat, year, loc, StoredType(session));
    }
    assert d.events == l.events && d.categories == l.categories;
    assert EventIndex(d, year, loc) == EventIndex(l, year, loc);
  }

  /** The rows of the parsed page, classified and stored one at a time. */
  method InsertRows(store: Store, sid: nat, c: Columns, rows: seq<seq<string>>) returns (crashed: bool)
    modifies store
    ensures (store.Contents(), crashed) == IngestKinds(old(store.Contents()), sid, Kinds(rows, c), 1)
    ensures store.checkpoint == old(store.checkpoint) && store.menu == old(store.menu)
  {
    var position := 1;
    ghost var ks := Kinds(rows, c);
    ghost var goal := IngestKinds(store.Contents(), sid, ks, 1);
    for i := 0 to |rows|
      invariant IngestKinds(store.Contents(), sid, ks[i..], position) == goal
      invariant store.checkpoint == old(store.checkpoint) && store.menu == old(store.menu)
    {
      assert ks[i..][1..] == ks[i + 1..];
      var k := Classify(rows[i], c);
      match k {
        case Skip =>
        case Take(r, team, brand, speed, time) =>
          store.GetOrCreateRider(r);
          store.GetOrCreateTeam(team);
          store.GetOrCreateBrand(brand);
          store.SaveResult(Result(r, brand, team, sid, speed, time, position));
          position := position + 1;
        case CrashAfter(r, team, brand) =>
          store.GetOrCreateRider(r);
          if team.Some? {
            store.GetOrCreateTeam(team.value);
          }
          if brand.Some? {
            store.GetOrCreateBrand(brand.value);
          }
          return true;
      }
    }
    return false;
  }

  /**
   * `insert_in_database`. A new session rebuilds the menu, and the rows
   * leave the seasons, locations and events, hence the menu, as they were.
   */
  method Insert(store: Store, year: int, loc: string, cat: string, session: string, page: Parsed)
    returns (crashed: bool)
    modifies store
    ensures var r := IngestSpec(old(store.Contents()), year, loc, cat, session, page);
      store.Contents() == r.db && crashed == r.crashed
      && (r.created ==> store.menu == Some(MenuOf(store.Contents())))
      && (!r.created ==> store.menu == old(store.menu))
    ensures store.checkpoint == old(store.checkpoint)
    ensures Valid(old(store.Contents())) ==> Valid(store.Contents())
  {
    ghost var d0 := store.Contents();
    store.GetOrCreateSeason(year);
    store.GetOrCreateLocation(loc);
    store.GetOrCreateCategory(cat);
    store.AddSeasonCategory(year, cat);
    store.GetOrCreateEvent(year, loc);
    store.AddEventCategory(year, loc, cat);
    var point := IsPointSession(session);
    var sessionType := session;
    if sessionType == "RAC2" {
      store.DeleteSessionsWhere(point, cat, year, loc, "RAC");
      sessionType := "RAC";
    }
    if sessionType == "WUP2" {
      store.DeleteSessionsWhere(point, cat, year, loc, "WUP");
      sessionType := "WUP";
    }
    var sid, created := store.GetOrCreateSession(sessionType, point, cat, year, loc, page.sourceUrl);
    ghost var d3 := store.Contents();
    var c := if point then Columns(3, 4, 5, 6, 7, 8) else Columns(2, 3, 4, 5, 6, 7);
    crashed := InsertRows(store, sid, c, page.rows);
    MenuIgnoresResults(store.Contents(), d3);
    IngestKeepsValid(d0, year, loc, cat, session, page);
  }
}
