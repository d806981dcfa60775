/**
 * The database as one object: a table per entity, the `UpdateData`
 * checkpoint row and the `MenuOptions` row. Its methods are the ORM calls
 * the scraper makes; each is specified by the matching operation on `Db`.
 */
module Store {
  import opened Wrappers
  import opened Schema
  import opened Menu

  /** The `UpdateData` row: where scraping and charting last got to. */
  datatype UpdateData = UpdateData(scrapedSeason: int, scrapedEvent: string, chartedSeason: int, chartedEvent: string)

  /** The row `UpdateData.objects.get_or_create()` creates, with the model's field defaults. */
  const DefaultUpdate := UpdateData(1993, "", 1993, "")

  class Store {
    var seasons: seq<Season>
    var locations: seq<string>
    var categories: seq<string>
    var events: seq<Event>
    var sessions: seq<Session>
    var riders: seq<Rider>
    var teams: seq<string>
    var brands: seq<string>
    var results: seq<Result>
    var nextSession: nat
    var checkpoint: UpdateData
    /** The `MenuOptions` row; absent until the first session is saved. */
    var menu: Option<MenuData>

    function Contents(): Db
      reads this
    {
      Db(seasons, locations, categories, events, sessions, riders, teams, brands, results, nextSession)
    }

    constructor ()
      ensures Contents() == EmptyDb && checkpoint == DefaultUpdate && menu == None
    {
      seasons, locations, categories, events, sessions := [], [], [], [], [];
      riders, teams, brands, results, nextSession := [], [], [], [], 0;
      checkpoint := DefaultUpdate;
      menu := None;
    }

    /** `Season.objects.get_or_create(year=year)`. */
    method GetOrCreateSeason(year: int)
      modifies this
      ensures Contents() == WithSeason(old(Contents()), year)
      ensures checkpoint == old(checkpoint) && menu == old(menu)
    {
      if SeasonIndex(Contents(), year) < 0 {
        seasons := seasons + [Season(year, [])];
      }
    }

    /** `EventLocation.objects.get_or_create(location=loc)`. */
    method GetOrCreateLocation(loc: string)
      modifies this
      ensures Contents() == WithLocation(old(Contents()), loc)
      ensures checkpoint == old(checkpoint) && menu == old(menu)
    {
      if loc !in locations {
        locations := locations + [loc];
      }
    }

    /** `Category.objects.get_or_create(class_name=cat)`. */
    method GetOrCreateCategory(cat: string)
      modifies this
      ensures Contents() == WithCategory(old(Contents()), cat)
      ensures checkpoint == old(checkpoint) && menu == old(menu)
    {
      if cat !in categories {
        categories := categories + [cat];
      }
    }

    /** `y.categories.add(cat)`. */
    method AddSeasonCategory(year: int, cat: string)
      modifies this
      ensures Contents() == LinkSeason(old(Contents()), year, cat)
      ensures checkpoint == old(checkpoint) && menu == old(menu)
    {
      var i := SeasonIndex(Contents(), year);
      if i >= 0 {
        var s := seasons[i];
        seasons := seasons[i := s.(categories := AddLast(s.categories, cat))];
      }
    }

    /** `event_loc.event_set.get_or_create(season=y, event_location=event_loc)`. */
    method GetOrCreateEvent(year: int, loc: string)
      modifies this
      ensures Contents() == WithEvent(old(Contents()), year, loc)
      ensures checkpoint == old(checkpoint) && menu == old(menu)
    {
      if EventIndex(Contents(), year, loc) < 0 {
        events := events + [Event(year, loc, [])];
      }
    }

    /** `e.categories.add(cat)`. */
    method AddEventCategory(year: int, loc: string, cat: string)
      modifies this
      ensures Contents() == LinkEvent(old(Contents()), year, loc, cat)
      ensures checkpoint == old(checkpoint) && menu == old(menu)
    {
      var i := EventIndex(Contents(), year, loc);
      if i >= 0 {
        var e := events[i];
        events := events[i := e.(categories := AddLast(e.categories, cat))];
      }
    }

    /**
     * `Session.objects.get_or_create(...)`. Saving a new session forces the
     * menu row to be rebuilt from the whole store (`Session.save`).
     */
    method GetOrCreateSession(sessionType: string, point: bool, cat: string, year: int, loc: string, url: string)
      returns (id: nat, created: bool)
      modifies this
      ensures (Contents(), id, created) == WithSession(old(Contents()), sessionType, point, cat, year, loc, url)
      ensures checkpoint == old(checkpoint)
      ensures created ==> menu == Some(MenuOf(Contents()))
      ensures !created ==> menu == old(menu)
    {
      var i := FindSession(sessions, sessionType, point, cat, year, loc, url);
      if i >= 0 {
        id, created := sessions[i].id, false;
      } else {
        id, created := nextSession, true;
        sessions := sessions + [Session(id, sessionType, point, cat, year, loc, url)];
        nextSession := nextSession + 1;
        var m := BuildMenu(Contents());
        menu := Some(m);
      }
    }

    /** `for s in Session.objects.filter(...): s.delete()`, results cascading. */
    method DeleteSessionsWhere(point: bool, cat: string, year: int, loc: string, sessionType: string)
      modifies this
      ensures Contents() == DeleteSessions(old(Contents()), point, cat, year, loc, sessionType)
      ensures checkpoint == old(checkpoint) && menu == old(menu)
    {
      sessions := KeepSessions(sessions, point, cat, year, loc, sessionType);
      results := KeepResults(results, sessions);
    }

    /** `Rider.objects.get_or_create(...)` followed by `r.save()`. */
    method GetOrCreateRider(r: Rider)
      modifies this
      ensures Contents() == WithRider(old(Contents()), r)
      ensures checkpoint == old(checkpoint) && menu == old(menu)
    {
      if r !in riders {
        riders := riders + [r];
      }
    }

    /** `Team.objects.get_or_create(team_name=team)`. */
    method GetOrCreateTeam(team: string)
      modifies this
      ensures Contents() == WithTeam(old(Contents()), team)
      ensures checkpoint == old(checkpoint) && menu == old(menu)
    {
      if team !in teams {
        teams := teams + [team];
      }
    }

    /** `Brand.objects.get_or_create(brand_name=brand)`. */
    method GetOrCreateBrand(brand: string)
      modifies this
      ensures Contents() == WithBrand(old(Contents()), brand)
      ensures checkpoint == old(checkpoint) && menu == old(menu)
    {
      if brand !in brands {
        brands := brands + [brand];
      }
    }

    /** `Result(...).save()`. */
    method SaveResult(res: Result)
      modifies this
      ensures Contents() == WithResult(old(Contents()), res)
      ensures checkpoint == old(checkpoint) && menu == old(menu)
    {
      results := results + [res];
    }

    /** `update_data.save(update_fields=['most_recent_scraped_event'])`. */
    method SaveScrapedEvent(event: string)
      modifies this
      ensures checkpoint == old(checkpoint).(scrapedEvent := event)
      ensures Contents() == old(Contents()) && menu == old(menu)
    {
      checkpoint := checkpoint.(scrapedEvent := event);
    }

    /** `update_data.save(update_fields=['most_recent_scraped_season'])`. */
    method SaveScrapedSeason(year: int)
      modifies this
      ensures checkpoint == old(checkpoint).(scrapedSeason := year)
      ensures Contents() == old(Contents()) && menu == old(menu)
    {
      checkpoint := checkpoint.(scrapedSeason := year);
    }

    /** `update_data.save(update_fields=['most_recent_charted_event'])`. */
    method SaveChartedEvent(event: string)
      modifies this
      ensures checkpoint == old(checkpoint).(chartedEvent := event)
      ensures Contents() == old(Contents()) && menu == old(menu)
    {
      checkpoint := checkpoint.(chartedEvent := event);
    }

    /** `update_data.save(update_fields=['most_recent_charted_season'])`. */
    method SaveChartedSeason(year: int)
      modifies this
      ensures checkpoint == old(checkpoint).(chartedSeason := year)
      ensures Contents() == old(Contents()) && menu == old(menu)
    {
      checkpoint := checkpoint.(chartedSeason := year);
    }
  }
}
