/**
 * The stored entities of the application (Season, EventLocation, Category,
 * Event, Session, Rider, Team, Brand, Result), the integrity the schema
 * keeps between them, the lookups the chart builders make, and the
 * get-or-create and delete operations used during ingestion.
 *
 * Entities are values. A location, a category, a team and a brand are
 * identified by their one text field; a Season by its year; an Event by
 * (year, location); a Rider by all four of its fields; a Session by a
 * numeric id, since sessions are deleted and re-created.
 */
module Schema {
  import opened Wrappers
  import opened Text
  import opened Options

  /** A season with the categories linked to it, in the order they were linked. */
  datatype Season = Season(year: int, categories: seq<string>)

  /** An event: a season's visit of a location, with the categories that raced there. */
  datatype Event = Event(year: int, location: string, categories: seq<string>)

  /** A session of an event, for one category. */
  datatype Session = Session(id: nat, sessionType: string, pointEvent: bool, category: string,
                             year: int, location: string, sourceUrl: string)

  datatype Rider = Rider(fullName: string, lastName: string, firstName: string, nationality: string)

  /** One classified line of a session; `session` is the id of its session. */
  datatype Result = Result(rider: Rider, brand: string, team: string, session: nat,
                           topSpeed: string, time: string, position: int)

  /** The tables, each in creation order, and the id the next session receives. */
  datatype Db = Db(seasons: seq<Season>, locations: seq<string>, categories: seq<string>,
                   events: seq<Event>, sessions: seq<Session>, riders: seq<Rider>,
                   teams: seq<string>, brands: seq<string>, results: seq<Result>, nextSession: nat)

  const EmptyDb := Db([], [], [], [], [], [], [], [], [], 0)

  /**
   * `Rider.__str__`: the first initial upper-cased, ". ", the last name
   * upper-cased. It is the key under which the charts group a rider's results.
   */
  function RiderKey(r: Rider): string
    requires |r.firstName| >= 1
  {
    UpperChar(r.firstName[0]) + ". " + Upper(r.lastName)
  }

  /**
   * A key is the upper case of the initial, ". " and the upper case of the
   * last name, in that order, so it is never one of the chart builders'
   * reserved entries.
   */
  lemma RiderKeyShape(r: Rider)
    requires |r.firstName| >= 1
    ensures var k, n := RiderKey(r), |UpperChar(r.firstName[0])|;
      && |k| == |Upper(r.lastName)| + n + 2 && k[..n] == UpperChar(r.firstName[0])
      && k[n..n + 2] == ". " && k[n + 2..] == Upper(r.lastName)
    ensures RiderKey(r) != "title" && RiderKey(r) != "columns" && RiderKey(r) != "times"
  {
    var k := RiderKey(r);
    assert k[|UpperChar(r.firstName[0])|] == '.';
  }

  /** Two different riders can share a key, and then share one line of every chart. */
  lemma RiderKeyNotInjective(a: Rider, b: Rider)
    requires a == Rider("Alex ROSSI", "rossi", "alex", "it")
    requires b == Rider("Andrea ROSSI", "rossi", "andrea", "it")
    ensures a != b && RiderKey(a) == RiderKey(b)
  {
    assert a.fullName[1] != b.fullName[1];
    assert Upper(a.lastName) == Upper(b.lastName);
  }

  // Lookups. Each gives the first match, as a position or -1.

  function SeasonIndex(db: Db, year: int): (i: int)
    ensures -1 <= i < |db.seasons|
    ensures i >= 0 ==> db.seasons[i].year == year
    ensures forall j :: 0 <= j < |db.seasons| && (i < 0 || j < i) ==> db.seasons[j].year != year
  {
    SeasonIndexFrom(db.seasons, year, 0)
  }

  function SeasonIndexFrom(ss: seq<Season>, year: int, k: nat): (i: int)
    requires k <= |ss|
    ensures -1 <= i < |ss|
    ensures i >= 0 ==> k <= i && ss[i].year == year
    ensures forall j :: k <= j < |ss| && (i < 0 || j < i) ==> ss[j].year != year
    decreases |ss| - k
  {
    if k == |ss| then -1 else if ss[k].year == year then k else SeasonIndexFrom(ss, year, k + 1)
  }

  function EventIndex(db: Db, year: int, loc: string): (i: int)
    ensures -1 <= i < |db.events|
    ensures i >= 0 ==> db.events[i].year == year && db.events[i].location == loc
    ensures forall j :: 0 <= j < |db.events| && (i < 0 || j < i) ==>
              !(db.events[j].year == year && db.events[j].location == loc)
  {
    EventIndexFrom(db.events, year, loc, 0)
  }

  function EventIndexFrom(es: seq<Event>, year: int, loc: string, k: nat): (i: int)
    requires k <= |es|
    ensures -1 <= i < |es|
    ensures i >= 0 ==> k <= i && es[i].year == year && es[i].location == loc
    ensures forall j :: k <= j < |es| && (i < 0 || j < i) ==> !(es[j].year == year && es[j].location == loc)
    decreases |es| - k
  {
    if k == |es| then -1
    else if es[k].year == year && es[k].location == loc then k
    else EventIndexFrom(es, year, loc, k + 1)
  }

  predicate HasSession(db: Db, id: nat) {
    exists i :: 0 <= i < |db.sessions| && db.sessions[i].id == id
  }

  /** Seasons have distinct years and link only known categories, each once. */
  ghost predicate SeasonsOk(db: Db) {
    && (forall i, j :: 0 <= i < j < |db.seasons| ==> db.seasons[i].year != db.seasons[j].year)
    && (forall i :: 0 <= i < |db.seasons| ==>
          NoDup(db.seasons[i].categories) && forall c :: c in db.seasons[i].categories ==> c in db.categories)
  }

  /** No two events share a season and a location. */
  ghost predicate EventsUnique(es: seq<Event>) {
    forall i, j :: 0 <= i < j < |es| ==> !(es[i].year == es[j].year && es[i].location == es[j].location)
  }

  /** Events are unique and refer to a stored season and location. */
  ghost predicate EventsOk(db: Db) {
    && EventsUnique(db.events)
    && (forall i :: 0 <= i < |db.events| ==>
          && SeasonIndex(db, db.events[i].year) >= 0
          && db.events[i].location in db.locations
          && NoDup(db.events[i].categories)
          && forall c :: c in db.events[i].categories ==> c in db.categories)
  }

  /** No two sessions share an id. */
  ghost predicate IdsDistinct(ss: seq<Session>) {
    forall i, j :: 0 <= i < j < |ss| ==> ss[i].id != ss[j].id
  }

  /** Session ids are distinct and below the next id; every session refers to a stored event and category. */
  ghost predicate SessionsOk(db: Db) {
    && IdsDistinct(db.sessions)
    && (forall i :: 0 <= i < |db.sessions| ==>
          && db.sessions[i].id < db.nextSession
          && EventIndex(db, db.sessions[i].year, db.sessions[i].location) >= 0
          && db.sessions[i].category in db.categories)
  }

  /** Every result refers to a stored rider, team, brand and session. */
  ghost predicate ResultsOk(db: Db) {
    forall i :: 0 <= i < |db.results| ==>
      && db.results[i].rider in db.riders
      && db.results[i].team in db.teams
      && db.results[i].brand in db.brands
      && HasSession(db, db.results[i].session)
  }

  /** Stored riders have a first and a last name. */
  ghost predicate RidersNamed(riders: seq<Rider>) {
    forall i :: 0 <= i < |riders| ==> |riders[i].firstName| >= 1 && |riders[i].lastName| >= 1
  }

  /** The referential and uniqueness constraints the stored data keeps. */
  ghost predicate Valid(db: Db) {
    && SeasonsOk(db)
    && NoDup(db.locations) && NoDup(db.categories) && NoDup(db.riders) && NoDup(db.teams) && NoDup(db.brands)
    && EventsOk(db)
    && SessionsOk(db)
    && ResultsOk(db)
    && RidersNamed(db.riders)
  }

  lemma EmptyValid()
    ensures Valid(EmptyDb)
  {
  }

  // Get-or-create. Each returns the store with the entity present, and
  // changes nothing when it already was.

  function AddLast<T(==,!new)>(xs: seq<T>, x: T): (r: seq<T>)
    ensures x in r && (x in xs ==> r == xs) && (x !in xs ==> r == xs + [x])
    ensures NoDup(xs) ==> NoDup(r)
    ensures forall y :: y in r <==> y in xs || y == x
  {
    if x in xs then xs else xs + [x]
  }

  function WithSeason(db: Db, year: int): (d: Db)
    ensures SeasonIndex(d, year) >= 0
    ensures d == db.(seasons := d.seasons)
    ensures SeasonIndex(db, year) >= 0 ==> d == db
    ensures SeasonIndex(db, year) < 0 ==> d.seasons == db.seasons + [Season(year, [])]
  {
    if SeasonIndex(db, year) >= 0 then db
    else
      var d := db.(seasons := db.seasons + [Season(year, [])]);
      assert d.seasons[|db.seasons|].year == year;
      d
  }

  function WithLocation(db: Db, loc: string): (d: Db)
    ensures loc in d.locations && d == db.(locations := AddLast(db.locations, loc))
  {
    db.(locations := AddLast(db.locations, loc))
  }

  function WithCategory(db: Db, cat: string): (d: Db)
    ensures cat in d.categories && d == db.(categories := AddLast(db.categories, cat))
  {
    db.(categories := AddLast(db.categories, cat))
  }

  /** `season.categories.add(cat)` on the season of `year`. */
  function LinkSeason(db: Db, year: int, cat: string): (d: Db)
    ensures |d.seasons| == |db.seasons| && d == db.(seasons := d.seasons)
    ensures forall j :: 0 <= j < |db.seasons| ==> d.seasons[j].year == db.seasons[j].year
    ensures SeasonIndex(db, year) >= 0 ==> cat in d.seasons[SeasonIndex(db, year)].categories
  {
    var i := SeasonIndex(db, year);
    if i < 0 then db
    else
      var s := db.seasons[i];
      db.(seasons := db.seasons[i := s.(categories := AddLast(s.categories, cat))])
  }

  function WithEvent(db: Db, year: int, loc: string): (d: Db)
    ensures EventIndex(d, year, loc) >= 0
    ensures d == db.(events := d.events)
    ensures EventIndex(db, year, loc) >= 0 ==> d == db
    ensures EventIndex(db, year, loc) < 0 ==> d.events == db.events + [Event(year, loc, [])]
  {
    if EventIndex(db, year, loc) >= 0 then db
    else
      var d := db.(events := db.events + [Event(year, loc, [])]);
      assert d.events[|db.events|].year == year && d.events[|db.events|].location == loc;
      d
  }

  /** `event.categories.add(cat)` on the event (year, loc). */
  function LinkEvent(db: Db, year: int, loc: string, cat: string): (d: Db)
    ensures |d.events| == |db.events| && d == db.(events := d.events)
    ensures forall j :: 0 <= j < |db.events| ==>
              d.events[j].year == db.events[j].year && d.events[j].location == db.events[j].location
    ensures EventIndex(db, year, loc) >= 0 ==> cat in d.events[EventIndex(db, year, loc)].categories
  {
    var i := EventIndex(db, year, loc);
    if i < 0 then db
    else
      var e := db.events[i];
      db.(events := db.events[i := e.(categories := AddLast(e.categories, cat))])
  }

  /** The key `Session.objects.get_or_create` looks a session up by. */
  predicate SessionMatches(s: Session, sessionType: string, point: bool, cat: string,
                           year: int, loc: string, url: string) {
    s.sessionType == sessionType && s.pointEvent == point && s.category == cat
    && s.year == year && s.location == loc && s.sourceUrl == url
  }

  function FindSession(ss: seq<Session>, sessionType: string, point: bool, cat: string,
                       year: int, loc: string, url: string): (i: int)
    ensures -1 <= i < |ss|
    ensures i >= 0 ==> SessionMatches(ss[i], sessionType, point, cat, year, loc, url)
    ensures i < 0 ==> forall j :: 0 <= j < |ss| ==> !SessionMatches(ss[j], sessionType, point, cat, year, loc, url)
  {
    if ss == [] then -1
    else
      var i := FindSession(ss[..|ss| - 1], sessionType, point, cat, year, loc, url);
      if i >= 0 then i
      else if SessionMatches(ss[|ss| - 1], sessionType, point, cat, year, loc, url) then |ss| - 1
      else -1
  }

  /** The session looked up, or a new one with the next id; the flag tells whether it was created. */
  function WithSession(db: Db, sessionType: string, point: bool, cat: string,
                       year: int, loc: string, url: string): (r: (Db, nat, bool))
    ensures var (d, id, created) := r;
      && d == db.(sessions := d.sessions, nextSession := d.nextSession)
      && (!created ==> d == db && HasSession(db, id)
                       && exists j :: 0 <= j < |db.sessions| && db.sessions[j].id == id
                                      && SessionMatches(db.sessions[j], sessionType, point, cat, year, loc, url))
      && (created <==> forall j :: 0 <= j < |db.sessions| ==>
                         !SessionMatches(db.sessions[j], sessionType, point, cat, year, loc, url))
      && (created ==> id == db.nextSession && d.nextSession == db.nextSession + 1
                      && d.sessions == db.sessions + [Session(id, sessionType, point, cat, year, loc, url)])
  {
    var i := FindSession(db.sessions, sessionType, point, cat, year, loc, url);
    if i >= 0 then (db, db.sessions[i].id, false)
    else
      var id := db.nextSession;
      (db.(sessions := db.sessions + [Session(id, sessionType, point, cat, year, loc, url)],
           nextSession := id + 1), id, true)
  }

  /** A second get-or-create of the same session finds the one the first left. */
  lemma WithSessionAgain(db: Db, sessionType: string, point: bool, cat: string,
                         year: int, loc: string, url: string)
    ensures var (d, id, _) := WithSession(db, sessionType, point, cat, year, loc, url);
      WithSession(d, sessionType, point, cat, year, loc, url) == (d, id, false)
  {
    var (d, id, created) := WithSession(db, sessionType, point, cat, year, loc, url);
    if created {
      var n := |db.sessions|;
      assert d.sessions[..n] == db.sessions;
      assert FindSession(db.sessions, sessionType, point, cat, year, loc, url) < 0;
      assert FindSession(d.sessions, sessionType, point, cat, year, loc, url) == n;
    }
  }

  function WithRider(db: Db, r: Rider): (d: Db)
    ensures r in d.riders && d == db.(riders := AddLast(db.riders, r))
  {
    db.(riders := AddLast(db.riders, r))
  }

  function WithTeam(db: Db, team: string): (d: Db)
    ensures team in d.teams && d == db.(teams := AddLast(db.teams, team))
  {
    db.(teams := AddLast(db.teams, team))
  }

  function WithBrand(db: Db, brand: string): (d: Db)
    ensures brand in d.brands && d == db.(brands := AddLast(db.brands, brand))
  {
    db.(brands := AddLast(db.brands, brand))
  }

  function WithResult(db: Db, res: Result): (d: Db)
    ensures d == db.(results := db.results + [res])
  {
    db.(results := db.results + [res])
  }

  /** The sessions the restart filter selects: of this event and category, with this flag and type. */
  predicate Replaced(s: Session, point: bool, cat: string, year: int, loc: string, sessionType: string) {
    s.pointEvent == point && s.category == cat && s.year == year && s.location == loc && s.sessionType == sessionType
  }

  function KeepSessions(ss: seq<Session>, point: bool, cat: string, year: int, loc: string,
                        sessionType: string): (r: seq<Session>)
    ensures |r| <= |ss|
    ensures forall s :: s in r <==> s in ss && !Replaced(s, point, cat, year, loc, sessionType)
  {
    if ss == [] then []
    else
      var init := KeepSessions(ss[..|ss| - 1], point, cat, year, loc, sessionType);
      var s := ss[|ss| - 1];
      assert ss == ss[..|ss| - 1] + [s];
      if Replaced(s, point, cat, year, loc, sessionType) then init else init + [s]
  }

  /** The results whose session is still present. */
  function KeepResults(rs: seq<Result>, ss: seq<Session>): (r: seq<Result>)
    ensures |r| <= |rs|
    ensures forall x :: x in r <==> x in rs && exists j :: 0 <= j < |ss| && ss[j].id == x.session
  {
    if rs == [] then []
    else
      var init := KeepResults(rs[..|rs| - 1], ss);
      var x := rs[|rs| - 1];
      assert rs == rs[..|rs| - 1] + [x];
      if exists j :: 0 <= j < |ss| && ss[j].id == x.session then init + [x] else init
  }

  /** Deleting the selected sessions; their results go with them (on_delete=CASCADE). */
  function DeleteSessions(db: Db, point: bool, cat: string, year: int, loc: string, sessionType: string): (d: Db)
    ensures d == db.(sessions := d.sessions, results := d.results)
    ensures forall s :: s in d.sessions <==> s in db.sessions && !Replaced(s, point, cat, year, loc, sessionType)
    ensures forall x :: x in d.results <==> x in db.results && HasSession(d, x.session)
  {
    var ss := KeepSessions(db.sessions, point, cat, year, loc, sessionType);
    db.(sessions := ss, results := KeepResults(db.results, ss))
  }

  /** The season lookup sees only the years. */
  lemma {:induction false} SeasonIndexFromYears(ss: seq<Season>, tt: seq<Season>, year: int, k: nat)
    requires k <= |ss| == |tt| && forall j :: 0 <= j < |ss| ==> ss[j].year == tt[j].year
    ensures SeasonIndexFrom(ss, year, k) == SeasonIndexFrom(tt, year, k)
    decreases |ss| - k
  {
    if k < |ss| {
      SeasonIndexFromYears(ss, tt, year, k + 1);
    }
  }

  /** The event lookup sees only the (year, location) keys. */
  lemma {:induction false} EventIndexFromKeys(es: seq<Event>, fs: seq<Event>, year: int, loc: string, k: nat)
    requires k <= |es| == |fs|
    requires forall j :: 0 <= j < |es| ==> es[j].year == fs[j].year && es[j].location == fs[j].location
    ensures EventIndexFrom(es, year, loc, k) == EventIndexFrom(fs, year, loc, k)
    decreases |es| - k
  {
    if k < |es| {
      EventIndexFromKeys(es, fs, year, loc, k + 1);
    }
  }

  /** Deleting sessions of which none is selected keeps them all. */
  lemma {:induction false} KeepSessionsAll(ss: seq<Session>, point: bool, cat: string, year: int, loc: string,
                                           sessionType: string)
    requires forall j :: 0 <= j < |ss| ==> !Replaced(ss[j], point, cat, year, loc, sessionType)
    ensures KeepSessions(ss, point, cat, year, loc, sessionType) == ss
  {
    if ss != [] {
      KeepSessionsAll(ss[..|ss| - 1], point, cat, year, loc, sessionType);
      assert ss == ss[..|ss| - 1] + [ss[|ss| - 1]];
    }
  }

  /** Results whose sessions are all present are all kept. */
  lemma {:induction false} KeepResultsAll(rs: seq<Result>, ss: seq<Session>)
    requires forall x :: x in rs ==> exists j :: 0 <= j < |ss| && ss[j].id == x.session
    ensures KeepResults(rs, ss) == rs
  {
    if rs != [] {
      var p, x := rs[..|rs| - 1], rs[|rs| - 1];
      assert rs == p + [x];
      assert forall y :: y in p ==> y in rs;
      KeepResultsAll(p, ss);
      assert x in rs;
      assert KeepResults(rs, ss) == KeepResults(p, ss) + [x];
    }
  }

  // Chart queries.

  predicate OfPoint(s: Session, cat: string, e: Event) {
    s.pointEvent && s.category == cat && s.year == e.year && s.location == e.location
  }

  /** `Session.objects.get(point_event=True, category=cat, event=e)`, or `DoesNotExist`. */
  function PointSession(ss: seq<Session>, cat: string, e: Event): (r: Option<nat>)
    ensures r.Some? ==> exists j :: 0 <= j < |ss| && ss[j].id == r.value && OfPoint(ss[j], cat, e)
    ensures r.None? <==> forall j :: 0 <= j < |ss| ==> !OfPoint(ss[j], cat, e)
  {
    if ss == [] then None
    else if OfPoint(ss[0], cat, e) then Some(ss[0].id)
    else
      var r := PointSession(ss[1..], cat, e);
      assert forall j :: 1 <= j < |ss| ==> ss[j] == ss[1..][j - 1];
      r
  }

  /** At most one point session per event and category: `get` never finds two. */
  predicate OnePointSessionEach(ss: seq<Session>) {
    forall i, j :: 0 <= i < j < |ss| && ss[i].pointEvent && ss[j].pointEvent ==>
      !(ss[i].category == ss[j].category && ss[i].year == ss[j].year && ss[i].location == ss[j].location)
  }

  /** Every stored result's rider has a first name, so its key exists. */
  predicate Named(rs: seq<Result>) {
    forall i :: 0 <= i < |rs| ==> |rs[i].rider.firstName| >= 1
  }

  // The integrity each operation keeps.

  /** Appending seasons, or changing only their categories, keeps every year found. */
  lemma SeasonsKept(db: Db, d: Db, year: int)
    requires |db.seasons| <= |d.seasons|
    requires forall j :: 0 <= j < |db.seasons| ==> d.seasons[j].year == db.seasons[j].year
    requires SeasonIndex(db, year) >= 0
    ensures SeasonIndex(d, year) >= 0
  {
    assert d.seasons[SeasonIndex(db, year)].year == year;
  }

  /** Appending events, or changing only their categories, keeps every event found. */
  lemma EventsKept(db: Db, d: Db, year: int, loc: string)
    requires |db.events| <= |d.events|
    requires forall j :: 0 <= j < |db.events| ==>
               d.events[j].year == db.events[j].year && d.events[j].location == db.events[j].location
    requires EventIndex(db, year, loc) >= 0
    ensures EventIndex(d, year, loc) >= 0
  {
    var i := EventIndex(db, year, loc);
    assert d.events[i].year == year && d.events[i].location == loc;
  }

  /** Stored riders have names, so every stored result has a rider key. */
  lemma ValidNamed(db: Db)
    requires Valid(db)
    ensures Named(db.results)
  {
    forall i | 0 <= i < |db.results| ensures |db.results[i].rider.firstName| >= 1 {
      var k :| 0 <= k < |db.riders| && db.riders[k] == db.results[i].rider;
    }
  }

  /** Get-or-create of a season keeps the store valid. */
  lemma WithSeasonValid(db: Db, year: int)
    requires Valid(db)
    ensures Valid(WithSeason(db, year))
  {
    var d := WithSeason(db, year);
    forall i | 0 <= i < |d.events| ensures SeasonIndex(d, d.events[i].year) >= 0 {
      SeasonsKept(db, d, d.events[i].year);
    }
  }

  lemma WithLocationValid(db: Db, loc: string)
    requires Valid(db)
    ensures Valid(WithLocation(db, loc))
  {
  }

  lemma WithCategoryValid(db: Db, cat: string)
    requires Valid(db)
    ensures Valid(WithCategory(db, cat))
  {
  }

  /** Linking a stored category to a season keeps the store valid. */
  lemma LinkSeasonValid(db: Db, year: int, cat: string)
    requires Valid(db) && cat in db.categories
    ensures Valid(LinkSeason(db, year, cat))
  {
    var d := LinkSeason(db, year, cat);
    forall y ensures SeasonIndex(d, y) == SeasonIndex(db, y) {
      SeasonIndexFromYears(db.seasons, d.seasons, y, 0);
    }
  }

  /** An event of a stored season and location keeps the store valid. */
  lemma WithEventValid(db: Db, year: int, loc: string)
    requires Valid(db) && SeasonIndex(db, year) >= 0 && loc in db.locations
    ensures Valid(WithEvent(db, year, loc))
  {
    var d := WithEvent(db, year, loc);
    forall i | 0 <= i < |d.sessions|
      ensures EventIndex(d, d.sessions[i].year, d.sessions[i].location) >= 0
    {
      EventsKept(db, d, d.sessions[i].year, d.sessions[i].location);
    }
  }

  /** Linking a stored category to an event keeps the store valid. */
  lemma LinkEventValid(db: Db, year: int, loc: string, cat: string)
    requires Valid(db) && cat in db.categories
    ensures Valid(LinkEvent(db, year, loc, cat))
  {
    var d := LinkEvent(db, year, loc, cat);
    forall y, l ensures EventIndex(d, y, l) == EventIndex(db, y, l) {
      EventIndexFromKeys(db.events, d.events, y, l, 0);
    }
  }

  /** A session of a stored event and category keeps the store valid, and is stored. */
  lemma WithSessionValid(db: Db, sessionType: string, point: bool, cat: string, year: int, loc: string, url: string)
    requires Valid(db) && EventIndex(db, year, loc) >= 0 && cat in db.categories
    ensures var (d, id, _) := WithSession(db, sessionType, point, cat, year, loc, url);
      Valid(d) && HasSession(d, id)
  {
    var (d, id, created) := WithSession(db, sessionType, point, cat, year, loc, url);
    if created {
      AppendSessionValid(db, Session(id, sessionType, point, cat, year, loc, url));
    }
  }

  /** Appending a session with the next id, of a stored event and category. */
  lemma AppendSessionValid(db: Db, s: Session)
    requires Valid(db) && s.id == db.nextSession
    requires EventIndex(db, s.year, s.location) >= 0 && s.category in db.categories
    ensures var d := db.(sessions := db.sessions + [s], nextSession := db.nextSession + 1);
      Valid(d) && HasSession(d, s.id)
  {
    var d := db.(sessions := db.sessions + [s], nextSession := db.nextSession + 1);
    var n := |db.sessions|;
    assert d.sessions[n] == s;
    assert forall j :: 0 <= j < n ==> d.sessions[j] == db.sessions[j];
    assert SessionsOk(d);
    forall x | HasSession(db, x) ensures HasSession(d, x) {
      var j :| 0 <= j < n && db.sessions[j].id == x;
      assert d.sessions[j].id == x;
    }
    assert ResultsOk(d);
  }

  /** The subsequence kept by a deletion keeps the ids distinct. */
  lemma {:induction false} KeepSessionsIds(ss: seq<Session>, point: bool, cat: string, year: int, loc: string,
                                           sessionType: string)
    requires IdsDistinct(ss)
    ensures IdsDistinct(KeepSessions(ss, point, cat, year, loc, sessionType))
  {
    if ss != [] {
      var p := ss[..|ss| - 1];
      var s := ss[|ss| - 1];
      KeepSessionsIds(p, point, cat, year, loc, sessionType);
      var init := KeepSessions(p, point, cat, year, loc, sessionType);
      forall i | 0 <= i < |init| ensures init[i].id != s.id {
        assert init[i] in p;
        var k :| 0 <= k < |p| && p[k] == init[i];
        assert ss[k] == init[i];
      }
    }
  }

  /** Deleting sessions, with their results, keeps the store valid. */
  lemma DeleteSessionsValid(db: Db, point: bool, cat: string, year: int, loc: string, sessionType: string)
    requires Valid(db)
    ensures Valid(DeleteSessions(db, point, cat, year, loc, sessionType))
  {
    var d := DeleteSessions(db, point, cat, year, loc, sessionType);
    KeepSessionsIds(db.sessions, point, cat, year, loc, sessionType);
    forall i | 0 <= i < |d.sessions|
      ensures d.sessions[i].id < d.nextSession && d.sessions[i].category in d.categories
      ensures EventIndex(d, d.sessions[i].year, d.sessions[i].location) >= 0
    {
      assert d.sessions[i] in db.sessions;
    }
    forall i | 0 <= i < |d.results|
      ensures d.results[i].rider in d.riders && d.results[i].team in d.teams && d.results[i].brand in d.brands
    {
      assert d.results[i] in db.results;
    }
  }

  /** A rider with a first and a last name keeps the store valid. */
  lemma WithRiderValid(db: Db, r: Rider)
    requires Valid(db) && |r.firstName| >= 1 && |r.lastName| >= 1
    ensures Valid(WithRider(db, r))
  {
  }

  lemma WithTeamValid(db: Db, team: string)
    requires Valid(db)
    ensures Valid(WithTeam(db, team))
  {
  }

  lemma WithBrandValid(db: Db, brand: string)
    requires Valid(db)
    ensures Valid(WithBrand(db, brand))
  {
  }

  /** A result of a stored rider, team, brand and session keeps the store valid. */
  lemma WithResultValid(db: Db, res: Result)
    requires Valid(db) && res.rider in db.riders && res.team in db.teams && res.brand in db.brands
    requires HasSession(db, res.session)
    ensures Valid(WithResult(db, res))
  {
  }
}
