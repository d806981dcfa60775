/**
 * The navigation tree `MenuOptions.save` rebuilds from the stored seasons,
 * locations and events: `season_data[year][location]` and
 * `event_data[location][year]` each hold the categories of that event
 * (a dictionary whose values are all `True`, modelled as a set).
 */
module Menu {
  import opened Text
  import opened Schema

  /** Outer key, inner key, the categories. */
  type Tree = map<string, map<string, set<string>>>

  datatype MenuData = MenuData(seasonData: Tree, eventData: Tree)

  function CatSet(cats: seq<string>): (r: set<string>)
    ensures forall c :: c in r <==> c in cats
  {
    set c | c in cats
  }

  /** `season_data[str(year)]` after visiting `es`: each event of that year under its location. */
  function YearEntries(es: seq<Event>, year: int): map<string, set<string>> {
    if es == [] then map[]
    else
      var m := YearEntries(es[..|es| - 1], year);
      var e := es[|es| - 1];
      if e.year == year then m[e.location := CatSet(e.categories)] else m
  }

  /** `event_data[location]` after visiting `es`: each event at that location under its year. */
  function LocationEntries(es: seq<Event>, loc: string): map<string, set<string>> {
    if es == [] then map[]
    else
      var m := LocationEntries(es[..|es| - 1], loc);
      var e := es[|es| - 1];
      if e.location == loc then m[IntToString(e.year) := CatSet(e.categories)] else m
  }

  function SeasonData(es: seq<Event>, ss: seq<Season>): Tree {
    if ss == [] then map[]
    else SeasonData(es, ss[..|ss| - 1])[IntToString(ss[|ss| - 1].year) := YearEntries(es, ss[|ss| - 1].year)]
  }

  function EventData(es: seq<Event>, locs: seq<string>): Tree {
    if locs == [] then map[]
    else EventData(es, locs[..|locs| - 1])[locs[|locs| - 1] := LocationEntries(es, locs[|locs| - 1])]
  }

  /** What `MenuOptions.save` computes from the store. */
  function MenuOf(db: Db): MenuData {
    MenuData(SeasonData(db.events, db.seasons), EventData(db.events, db.locations))
  }

  lemma {:induction false} YearEntriesSpec(es: seq<Event>, year: int)
    requires EventsUnique(es)
    ensures forall l :: l in YearEntries(es, year) ==>
              exists j :: 0 <= j < |es| && es[j].year == year && es[j].location == l
    ensures forall j :: 0 <= j < |es| && es[j].year == year ==>
              es[j].location in YearEntries(es, year) && YearEntries(es, year)[es[j].location] == CatSet(es[j].categories)
  {
    if es != [] {
      var p := es[..|es| - 1];
      assert EventsUnique(p) by {
        forall i, j | 0 <= i < j < |p| ensures !(p[i].year == p[j].year && p[i].location == p[j].location) {
          assert p[i] == es[i] && p[j] == es[j];
        }
      }
      YearEntriesSpec(p, year);
      forall j | 0 <= j < |es| - 1 ensures es[j] == p[j] { }
    }
  }

  lemma {:induction false} LocationEntriesKeys(es: seq<Event>, loc: string)
    ensures forall y :: y in LocationEntries(es, loc) ==>
              exists j :: 0 <= j < |es| && es[j].location == loc && IntToString(es[j].year) == y
  {
    if es != [] {
      var p := es[..|es| - 1];
      LocationEntriesKeys(p, loc);
      forall y | y in LocationEntries(es, loc)
        ensures exists j :: 0 <= j < |es| && es[j].location == loc && IntToString(es[j].year) == y
      {
        if y in LocationEntries(p, loc) {
          var j :| 0 <= j < |p| && p[j].location == loc && IntToString(p[j].year) == y;
          assert es[j] == p[j];
        }
      }
    }
  }

  lemma {:induction false} LocationEntriesSpec(es: seq<Event>, loc: string)
    requires EventsUnique(es)
    ensures forall y :: y in LocationEntries(es, loc) ==>
              exists j :: 0 <= j < |es| && es[j].location == loc && IntToString(es[j].year) == y
    ensures forall j :: 0 <= j < |es| && es[j].location == loc ==>
              IntToString(es[j].year) in LocationEntries(es, loc)
              && LocationEntries(es, loc)[IntToString(es[j].year)] == CatSet(es[j].categories)
  {
    LocationEntriesKeys(es, loc);
    if es != [] {
      var p := es[..|es| - 1];
      var e := es[|es| - 1];
      assert EventsUnique(p) by {
        forall i, j | 0 <= i < j < |p| ensures !(p[i].year == p[j].year && p[i].location == p[j].location) {
          assert p[i] == es[i] && p[j] == es[j];
        }
      }
      LocationEntriesSpec(p, loc);
      var m := LocationEntries(p, loc);
      forall j | 0 <= j < |es| && es[j].location == loc
        ensures IntToString(es[j].year) in LocationEntries(es, loc)
        ensures LocationEntries(es, loc)[IntToString(es[j].year)] == CatSet(es[j].categories)
      {
        if j < |es| - 1 {
          assert es[j] == p[j];
          if e.location == loc {
            if IntToString(es[j].year) == IntToString(e.year) {
              IntToStringInjective(es[j].year, e.year);
              assert false;
            }
          }
        }
      }
    }
  }

  lemma SeasonDataSpec(es: seq<Event>, ss: seq<Season>)
    ensures forall y :: y in SeasonData(es, ss) ==>
              exists i :: 0 <= i < |ss| && IntToString(ss[i].year) == y
    ensures forall i :: 0 <= i < |ss| ==>
              IntToString(ss[i].year) in SeasonData(es, ss)
              && SeasonData(es, ss)[IntToString(ss[i].year)] == YearEntries(es, ss[i].year)
  {
    SeasonDataKeys(es, ss);
    SeasonDataValues(es, ss);
  }

  /** `season_data` has a key for the seasons only. */
  lemma {:induction false} SeasonDataKeys(es: seq<Event>, ss: seq<Season>)
    ensures forall y :: y in SeasonData(es, ss) ==>
              exists i :: 0 <= i < |ss| && IntToString(ss[i].year) == y
  {
    if ss != [] {
      var p := ss[..|ss| - 1];
      SeasonDataKeys(es, p);
      forall y | y in SeasonData(es, ss)
        ensures exists i :: 0 <= i < |ss| && IntToString(ss[i].year) == y
      {
        if y != IntToString(ss[|ss| - 1].year) {
          assert SeasonData(es, ss) == SeasonData(es, p)[IntToString(ss[|ss| - 1].year) := YearEntries(es, ss[|ss| - 1].year)];
          assert y in SeasonData(es, p);
          var i :| 0 <= i < |p| && IntToString(p[i].year) == y;
          assert ss[i] == p[i];
        }
      }
    }
  }

  /** Each season's key holds that season's events, whatever order the seasons come in. */
  lemma {:induction false} SeasonDataValues(es: seq<Event>, ss: seq<Season>)
    ensures forall i :: 0 <= i < |ss| ==>
              IntToString(ss[i].year) in SeasonData(es, ss)
              && SeasonData(es, ss)[IntToString(ss[i].year)] == YearEntries(es, ss[i].year)
  {
    if ss != [] {
      var p := ss[..|ss| - 1];
      var s := ss[|ss| - 1];
      SeasonDataValues(es, p);
      forall i | 0 <= i < |ss|
        ensures IntToString(ss[i].year) in SeasonData(es, ss)
        ensures SeasonData(es, ss)[IntToString(ss[i].year)] == YearEntries(es, ss[i].year)
      {
        if i < |ss| - 1 {
          assert ss[i] == p[i];
          if IntToString(ss[i].year) == IntToString(s.year) {
            IntToStringInjective(ss[i].year, s.year);
          }
        }
      }
    }
  }

  lemma {:induction false} EventDataSpec(es: seq<Event>, locs: seq<string>)
    ensures forall l :: l in EventData(es, locs) <==> l in locs
    ensures forall l :: l in locs ==> EventData(es, locs)[l] == LocationEntries(es, l)
  {
    if locs != [] {
      EventDataSpec(es, locs[..|locs| - 1]);
      assert locs == locs[..|locs| - 1] + [locs[|locs| - 1]];
    }
  }

  /**
   * The two trees are transposes of each other: category `c` is listed
   * under `season_data[y][l]` exactly when it is listed under
   * `event_data[l][y]`, and the (year, location) pairs present agree.
   */
  lemma MenuTranspose(db: Db, y: string, l: string, c: string)
    requires EventsOk(db)
    ensures var m := MenuOf(db);
      (y in m.seasonData && l in m.seasonData[y]) <==> (l in m.eventData && y in m.eventData[l])
    ensures var m := MenuOf(db);
      (y in m.seasonData && l in m.seasonData[y] && c in m.seasonData[y][l])
      <==> (l in m.eventData && y in m.eventData[l] && c in m.eventData[l][y])
  {
    var m := MenuOf(db);
    if y in m.seasonData && l in m.seasonData[y] {
      SeasonThenEvent(db, y, l);
    }
    if l in m.eventData && y in m.eventData[l] {
      EventThenSeason(db, y, l);
    }
  }

  /** A location listed under a season lists that season, with the same categories. */
  lemma SeasonThenEvent(db: Db, y: string, l: string)
    requires EventsOk(db)
    requires y in MenuOf(db).seasonData && l in MenuOf(db).seasonData[y]
    ensures l in MenuOf(db).eventData && y in MenuOf(db).eventData[l]
    ensures MenuOf(db).seasonData[y][l] == MenuOf(db).eventData[l][y]
  {
    var es := db.events;
    SeasonDataSpec(es, db.seasons);
    EventDataSpec(es, db.locations);
    var i :| 0 <= i < |db.seasons| && IntToString(db.seasons[i].year) == y;
    YearEntriesSpec(es, db.seasons[i].year);
    var j :| 0 <= j < |es| && es[j].year == db.seasons[i].year && es[j].location == l;
    LocationEntriesSpec(es, l);
    assert l in db.locations;
  }

  /** A season listed under a location lists that location, with the same categories. */
  lemma EventThenSeason(db: Db, y: string, l: string)
    requires EventsOk(db)
    requires l in MenuOf(db).eventData && y in MenuOf(db).eventData[l]
    ensures y in MenuOf(db).seasonData && l in MenuOf(db).seasonData[y]
    ensures MenuOf(db).seasonData[y][l] == MenuOf(db).eventData[l][y]
  {
    var es := db.events;
    SeasonDataSpec(es, db.seasons);
    EventDataSpec(es, db.locations);
    LocationEntriesSpec(es, l);
    var j :| 0 <= j < |es| && es[j].location == l && IntToString(es[j].year) == y;
    var i := SeasonIndex(db, es[j].year);
    assert 0 <= i && db.seasons[i].year == es[j].year;
    YearEntriesSpec(es, es[j].year);
  }

  /** The inner loop: the categories of one event, as the keys of a dictionary. */
  method CategoriesOf(e: Event) returns (cats: set<string>)
    ensures cats == CatSet(e.categories)
  {
    cats := {};
    for c := 0 to |e.categories|
      invariant cats == CatSet(e.categories[..c])
    {
      assert e.categories[..c + 1] == e.categories[..c] + [e.categories[c]];
      cats := cats + {e.categories[c]};
    }
    assert e.categories[..|e.categories|] == e.categories;
  }

  /** The first loop of `MenuOptions.save`: for every season, its events by location. */
  method BuildSeasonData(db: Db) returns (seasonData: Tree)
    ensures seasonData == SeasonData(db.events, db.seasons)
  {
    seasonData := map[];
    for i := 0 to |db.seasons|
      invariant seasonData == SeasonData(db.events, db.seasons[..i])
    {
      assert db.seasons[..i + 1][..i] == db.seasons[..i];
      var year := db.seasons[i].year;
      var entries: map<string, set<string>> := map[];
      for k := 0 to |db.events|
        invariant entries == YearEntries(db.events[..k], year)
      {
        assert db.events[..k + 1][..k] == db.events[..k];
        var e := db.events[k];
        if e.year == year {
          var cats := CategoriesOf(e);
          entries := entries[e.location := cats];
        }
      }
      assert db.events[..|db.events|] == db.events;
      seasonData := seasonData[IntToString(year) := entries];
    }
    assert db.seasons[..|db.seasons|] == db.seasons;
  }

  /** The second loop of `MenuOptions.save`: for every location, its events by season. */
  method BuildEventData(db: Db) returns (eventData: Tree)
    ensures eventData == EventData(db.events, db.locations)
  {
    eventData := map[];
    for i := 0 to |db.locations|
      invariant eventData == EventData(db.events, db.locations[..i])
    {
      assert db.locations[..i + 1][..i] == db.locations[..i];
      var loc := db.locations[i];
      var entries: map<string, set<string>> := map[];
      for k := 0 to |db.events|
        invariant entries == LocationEntries(db.events[..k], loc)
      {
        assert db.events[..k + 1][..k] == db.events[..k];
        var e := db.events[k];
        if e.location == loc {
          var cats := CategoriesOf(e);
          entries := entries[IntToString(e.year) := cats];
        }
      }
      assert db.events[..|db.events|] == db.events;
      eventData := eventData[loc := entries];
    }
    assert db.locations[..|db.locations|] == db.locations;
  }

  /** `MenuOptions.save`. */
  method BuildMenu(db: Db) returns (m: MenuData)
    ensures m == MenuOf(db)
  {
    var seasonData := BuildSeasonData(db);
    var eventData := BuildEventData(db);
    m := MenuData(seasonData, eventData);
  }

  /** The tree depends only on the seasons, the locations and the events. */
  lemma MenuIgnoresResults(db: Db, d: Db)
    requires d.seasons == db.seasons && d.locations == db.locations && d.events == db.events
    ensures MenuOf(d) == MenuOf(db)
  {
  }
}
