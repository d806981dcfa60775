/**
 * `scrape_data` and `chart_data`: the walks over seasons, events,
 * categories and sessions that feed the store and draw the charts, and the
 * `UpdateData` checkpoint each of them keeps. The site is a map from URL to
 * page and the current year is a parameter.
 */
module Traversal {
  import opened Wrappers
  import opened Text
  import opened Options
  import opened Web
  import opened Table
  import opened Schema
  import opened Menu
  import opened Store
  import opened Ingest
  import EventHistory
  import SessionHistory
  import Standings
  import Series

  const BasePage := "http://www.motogp.com/en/Results+Statistics/"

  /** `banned_events`. */
  const Banned := ["T22"]

  /** `list(range(lo, hi))`. */
  function Range(lo: int, hi: int): (r: seq<int>)
    ensures |r| == (if lo < hi then hi - lo else 0)
    ensures forall i :: 0 <= i < |r| ==> r[i] == lo + i
    decreases hi - lo
  {
    if lo < hi then [lo] + Range(lo + 1, hi) else []
  }

  function SeasonUrl(year: int): string {
    BasePage + IntToString(year)
  }

  function EventUrl(year: int, event: string): string {
    SeasonUrl(year) + "/" + event
  }

  function CategoryUrl(year: int, event: string, cat: string): string {
    EventUrl(year, event) + "/" + cat
  }

  function SessionUrl(year: int, event: string, cat: string, session: string): string {
    CategoryUrl(year, event, cat) + "/" + session
  }

  /** `get_options(url, tag, only_accept_after=cutoff)` on the page the site holds at `url`. */
  function OptionsAt(site: Site, url: string, tag: string, cutoff: Option<string>): seq<string> {
    var values := Dedup(WidgetValues(Widget(Fetch(site, url), tag)));
    if cutoff.None? then values else After(values, cutoff.value)
  }

  function EventOptions(site: Site, year: int, cutoff: Option<string>): seq<string> {
    OptionsAt(site, SeasonUrl(year), "event", cutoff)
  }

  function CategoryOptions(site: Site, year: int, event: string): seq<string> {
    OptionsAt(site, EventUrl(year, event), "category", None)
  }

  function SessionOptions(site: Site, year: int, event: string, cat: string): seq<string> {
    OptionsAt(site, CategoryUrl(year, event, cat), "session", None)
  }

  // What `scrape_data` does, in order.

  /** One unit of the scrape: ingest one session's page, or write a checkpoint field. */
  datatype Task =
    | Scrape(year: int, event: string, cat: string, session: string)
    | SaveEvent(year: int, event: string)
    | SaveSeason(year: int)

  /** Whether the walk reaches a task of its season and event, given the menus it finds. */
  predicate Reached(site: Site, t: Task) {
    match t
    case Scrape(y, ev, c, s) => ev !in Banned && c in CategoryOptions(site, y, ev) && s in SessionOptions(site, y, ev, c)
    case SaveEvent(y, ev) => ev !in Banned && |CategoryOptions(site, y, ev)| > 0
    case SaveSeason(_) => true
  }

  /** The loop over a category's sessions. */
  function SessionTasks(year: int, event: string, cat: string, sessions: seq<string>): (r: seq<Task>)
    ensures |r| == |sessions| && forall i :: 0 <= i < |r| ==> r[i] == Scrape(year, event, cat, sessions[i])
  {
    seq(|sessions|, i requires 0 <= i < |sessions| => Scrape(year, event, cat, sessions[i]))
  }

  /** The loop over an event's categories. */
  function CategoryTasks(site: Site, year: int, event: string, cats: seq<string>): seq<Task> {
    if cats == [] then []
    else
      var c := cats[|cats| - 1];
      CategoryTasks(site, year, event, cats[..|cats| - 1]) + SessionTasks(year, event, c, SessionOptions(site, year, event, c))
  }

  /**
   * One event: nothing for a banned one; otherwise the event checkpoint as
   * soon as it has categories, then each category's sessions.
   */
  function EventTasks(site: Site, year: int, event: string): seq<Task> {
    if event in Banned then []
    else
      var cats := CategoryOptions(site, year, event);
      (if |cats| > 0 then [SaveEvent(year, event)] else []) + CategoryTasks(site, year, event, cats)
  }

  /** The loop over a season's events. */
  function EventsTasks(site: Site, year: int, events: seq<string>): seq<Task> {
    if events == [] then []
    else EventsTasks(site, year, events[..|events| - 1]) + EventTasks(site, year, events[|events| - 1])
  }

  /** One season: its events after the cutoff, then the season checkpoint. */
  function SeasonTasks(site: Site, year: int, cutoff: Option<string>): seq<Task> {
    EventsTasks(site, year, EventOptions(site, year, cutoff)) + [SaveSeason(year)]
  }

  /** The loop over the seasons. */
  function YearsTasks(site: Site, years: seq<int>, cutoff: Option<string>): seq<Task> {
    if years == [] then []
    else YearsTasks(site, years[..|years| - 1], cutoff) + SeasonTasks(site, years[|years| - 1], cutoff)
  }

  /**
   * `scrape_data(start_season)`: without a start season, from the stored
   * season with the stored event as the cutoff of every season; with one,
   * from it without a cutoff; up to the current year.
   */
  function ScrapeTasks(site: Site, cp: UpdateData, start: Option<int>, currentYear: int): seq<Task> {
    if start.None? then YearsTasks(site, Range(cp.scrapedSeason, currentYear + 1), Some(cp.scrapedEvent))
    else YearsTasks(site, Range(start.value, currentYear + 1), None)
  }

  // Running the tasks against the store.

  /** The parts of the store the walk changes. */
  datatype State = State(db: Db, checkpoint: UpdateData, menu: Option<MenuData>)

  /** How a run ends: all tasks done, an exception out of the insert, or a cell walk that never ends. */
  datatype End = Completed | Crashed | Hung

  function Do(site: Site, st: State, t: Task): (State, End) {
    match t
    case Scrape(y, ev, c, s) =>
      var url := SessionUrl(y, ev, c, s);
      (match Parse(url, Fetch(site, url))
       case Hangs(_) => (st, Hung)
       case Got(page) =>
         var r := IngestSpec(st.db, y, ev, c, s, page);
         (State(r.db, st.checkpoint, if r.created then Some(MenuOf(r.db)) else st.menu),
          if r.crashed then Crashed else Completed))
    case SaveEvent(_, ev) => (st.(checkpoint := st.checkpoint.(scrapedEvent := ev)), Completed)
    case SaveSeason(y) => (st.(checkpoint := st.checkpoint.(scrapedSeason := y)), Completed)
  }

  /** The tasks done in order until one does not complete. */
  function Run(site: Site, st: State, tasks: seq<Task>): (State, End)
    decreases |tasks|
  {
    if tasks == [] then (st, Completed)
    else
      var (s1, e) := Do(site, st, tasks[0]);
      if e != Completed then (s1, e) else Run(site, s1, tasks[1..])
  }

  /** Running `a + b` is running `a`, then `b` if `a` completed. */
  lemma {:induction false} RunAppend(site: Site, st: State, a: seq<Task>, b: seq<Task>)
    ensures Run(site, st, a + b) == var r := Run(site, st, a); if r.1 != Completed then r else Run(site, r.0, b)
    decreases |a|
  {
    if a == [] {
      assert a + b == b;
    } else {
      assert (a + b)[0] == a[0];
      assert (a + b)[1..] == a[1..] + b;
      var (s1, e) := Do(site, st, a[0]);
      if e == Completed {
        RunAppend(site, s1, a[1..], b);
      }
    }
  }

  /** A run that stops within a prefix ends there. */
  lemma StopsAtPrefix(site: Site, st: State, a: seq<Task>, full: seq<Task>)
    requires a <= full && Run(site, st, a).1 != Completed
    ensures Run(site, st, full) == Run(site, st, a)
  {
    assert full == a + full[|a|..];
    RunAppend(site, st, a, full[|a|..]);
  }

  /** A single task runs as that task. */
  lemma RunOne(site: Site, st: State, t: Task)
    ensures Run(site, st, [t]) == Do(site, st, t)
  {
    assert [t][1..] == [];
  }

  /** One more task after a completed run. */
  lemma RunSnoc(site: Site, st: State, a: seq<Task>, t: Task)
    requires Run(site, st, a).1 == Completed
    ensures Run(site, st, a + [t]) == Do(site, Run(site, st, a).0, t)
  {
    RunAppend(site, st, a, [t]);
    assert [t][1..] == [];
  }

  lemma SessionTasksSnoc(year: int, event: string, cat: string, sessions: seq<string>, i: nat)
    requires i < |sessions|
    ensures SessionTasks(year, event, cat, sessions[..i + 1])
         == SessionTasks(year, event, cat, sessions[..i]) + [Scrape(year, event, cat, sessions[i])]
  {
  }

  lemma SessionTasksPrefix(year: int, event: string, cat: string, sessions: seq<string>, k: nat)
    requires k <= |sessions|
    ensures SessionTasks(year, event, cat, sessions[..k]) <= SessionTasks(year, event, cat, sessions)
  {
    var a, b := SessionTasks(year, event, cat, sessions[..k]), SessionTasks(year, event, cat, sessions);
    assert a == b[..k];
  }

  lemma CategoryTasksSnoc(site: Site, year: int, event: string, cats: seq<string>, i: nat)
    requires i < |cats|
    ensures CategoryTasks(site, year, event, cats[..i + 1])
         == CategoryTasks(site, year, event, cats[..i]) + SessionTasks(year, event, cats[i], SessionOptions(site, year, event, cats[i]))
  {
    assert cats[..i + 1][..i] == cats[..i];
  }

  lemma {:induction false} CategoryTasksPrefix(site: Site, year: int, event: string, cats: seq<string>, k: nat)
    requires k <= |cats|
    ensures CategoryTasks(site, year, event, cats[..k]) <= CategoryTasks(site, year, event, cats)
  {
    if k < |cats| {
      var init := cats[..|cats| - 1];
      assert cats[..k] == init[..k];
      CategoryTasksPrefix(site, year, event, init, k);
    } else {
      assert cats[..k] == cats;
    }
  }

  lemma {:induction false} EventsTasksPrefix(site: Site, year: int, events: seq<string>, k: nat)
    requires k <= |events|
    ensures EventsTasks(site, year, events[..k]) <= EventsTasks(site, year, events)
  {
    if k < |events| {
      var init := events[..|events| - 1];
      assert events[..k] == init[..k];
      EventsTasksPrefix(site, year, init, k);
    } else {
      assert events[..k] == events;
    }
  }

  lemma {:induction false} YearsTasksPrefix(site: Site, years: seq<int>, cutoff: Option<string>, k: nat)
    requires k <= |years|
    ensures YearsTasks(site, years[..k], cutoff) <= YearsTasks(site, years, cutoff)
  {
    if k < |years| {
      var init := years[..|years| - 1];
      assert years[..k] == init[..k];
      YearsTasksPrefix(site, init, cutoff, k);
    } else {
      assert years[..k] == years;
    }
  }

  // What the walk promises.

  /** A category loop scrapes exactly the listed sessions of the listed categories. */
  lemma {:induction false} CategoryTasksMembers(site: Site, year: int, event: string, cats: seq<string>)
    ensures forall t :: t in CategoryTasks(site, year, event, cats) <==>
      t.Scrape? && t.year == year && t.event == event && t.cat in cats && t.session in SessionOptions(site, year, event, t.cat)
  {
    if cats != [] {
      var c := cats[|cats| - 1];
      assert cats == cats[..|cats| - 1] + [c];
      CategoryTasksMembers(site, year, event, cats[..|cats| - 1]);
    }
  }

  /**
   * An event's tasks are its checkpoint (when it has categories) and its
   * categories' sessions, and none for a banned event.
   */
  lemma EventTasksMembers(site: Site, year: int, event: string)
    ensures forall t :: t in EventTasks(site, year, event) <==> !t.SaveSeason? && t.year == year && t.event == event && Reached(site, t)
  {
    CategoryTasksMembers(site, year, event, CategoryOptions(site, year, event));
  }

  lemma {:induction false} EventsTasksMembers(site: Site, year: int, events: seq<string>)
    ensures forall t :: t in EventsTasks(site, year, events) <==> !t.SaveSeason? && t.year == year && t.event in events && Reached(site, t)
  {
    if events != [] {
      var ev := events[|events| - 1];
      assert events == events[..|events| - 1] + [ev];
      EventsTasksMembers(site, year, events[..|events| - 1]);
      EventTasksMembers(site, year, ev);
    }
  }

  lemma SeasonTasksMembers(site: Site, year: int, cutoff: Option<string>)
    ensures forall t :: t in SeasonTasks(site, year, cutoff) <==>
      t.year == year && (t.SaveSeason? || (t.event in EventOptions(site, year, cutoff) && Reached(site, t)))
  {
    EventsTasksMembers(site, year, EventOptions(site, year, cutoff));
  }

  /**
   * The seasons' tasks: every season's checkpoint, and each reachable
   * session of each event its menu lists after the cutoff, with that event's
   * checkpoint; nothing else.
   */
  lemma {:induction false} YearsTasksMembers(site: Site, years: seq<int>, cutoff: Option<string>)
    ensures forall t :: t in YearsTasks(site, years, cutoff) <==>
      t.year in years && (t.SaveSeason? || (t.event in EventOptions(site, t.year, cutoff) && Reached(site, t)))
  {
    if years != [] {
      var y := years[|years| - 1];
      assert years == years[..|years| - 1] + [y];
      YearsTasksMembers(site, years[..|years| - 1], cutoff);
      SeasonTasksMembers(site, y, cutoff);
    }
  }

  /**
   * Resuming (no start season) never scrapes the stored event again: the
   * cutoff keeps only the events listed after it, and a season whose menu
   * lacks it (such as the initial empty name) contributes nothing but its
   * checkpoint.
   */
  lemma ResumeSkipsStoredEvent(site: Site, cp: UpdateData, currentYear: int)
    ensures forall t :: t in ScrapeTasks(site, cp, None, currentYear) && !t.SaveSeason? ==>
      var menu := Dedup(WidgetValues(Widget(Fetch(site, SeasonUrl(t.year)), "event")));
      t.event != cp.scrapedEvent && cp.scrapedEvent in menu && t.event in menu
      && IndexOf(menu, cp.scrapedEvent) < IndexOf(menu, t.event)
  {
    YearsTasksMembers(site, Range(cp.scrapedSeason, currentYear + 1), Some(cp.scrapedEvent));
    forall t | t in ScrapeTasks(site, cp, None, currentYear) && !t.SaveSeason?
      ensures var menu := Dedup(WidgetValues(Widget(Fetch(site, SeasonUrl(t.year)), "event")));
        t.event != cp.scrapedEvent && cp.scrapedEvent in menu && t.event in menu
        && IndexOf(menu, cp.scrapedEvent) < IndexOf(menu, t.event)
    {
      var raw := WidgetValues(Widget(Fetch(site, SeasonUrl(t.year)), "event"));
      var menu := Dedup(raw);
      assert t.event in After(menu, cp.scrapedEvent);
      assert cp.scrapedEvent in menu;
      var k :| 0 <= k < |menu| && menu[k] == cp.scrapedEvent;
      assert cp.scrapedEvent in raw;
      AfterDedupMembership(raw, cp.scrapedEvent, t.event);
      assert t.event in raw;
      DedupKeepsIndexOrder(raw, cp.scrapedEvent, t.event);
    }
  }

  /**
   * A first resume from the default checkpoint: while no season's event
   * menu holds an empty value, the empty stored event cuts every menu off
   * entirely, so the walk only writes the season checkpoints from 1993 to
   * the current year.
   */
  lemma FreshResumeOnlySavesSeasons(site: Site, currentYear: int)
    requires forall y :: "" !in WidgetValues(Widget(Fetch(site, SeasonUrl(y)), "event"))
    ensures forall t :: t in ScrapeTasks(site, DefaultUpdate, None, currentYear) <==>
      t.SaveSeason? && 1993 <= t.year <= currentYear
  {
    var years := Range(1993, currentYear + 1);
    YearsTasksMembers(site, years, Some(""));
    forall y ensures EventOptions(site, y, Some("")) == [] {
      var raw := WidgetValues(Widget(Fetch(site, SeasonUrl(y)), "event"));
      assert "" !in Dedup(raw);
      AbsentCutoffKeepsNothing(Dedup(raw), "");
    }
    forall y ensures y in years <==> 1993 <= y <= currentYear {
      if 1993 <= y <= currentYear {
        assert years[y - 1993] == y;
      }
    }
  }

  /** The first-appearance order of `Dedup` follows the first occurrences in its input. */
  lemma DedupKeepsIndexOrder(xs: seq<string>, a: string, b: string)
    requires a in xs && b in xs && IndexOf(xs, a) < IndexOf(xs, b)
    ensures a in Dedup(xs) && b in Dedup(xs) && IndexOf(Dedup(xs), a) < IndexOf(Dedup(xs), b)
  {
    var d := Dedup(xs);
    assert xs[IndexOf(xs, a)] in d && xs[IndexOf(xs, b)] in d;
    DedupOrderIff(xs, IndexOf(d, a), IndexOf(d, b));
  }

  /** The event checkpoint is written before any of the event's sessions is scraped. */
  lemma EventSavedFirst(site: Site, year: int, event: string)
    ensures EventTasks(site, year, event) != [] ==> EventTasks(site, year, event)[0] == SaveEvent(year, event)
  {
    if event !in Banned {
      var cats := CategoryOptions(site, year, event);
      if |cats| == 0 {
        assert EventTasks(site, year, event) == CategoryTasks(site, year, event, cats);
        assert cats == [];
      }
    }
  }

  /** The checkpoint field one task writes. */
  function Save(cp: UpdateData, t: Task): UpdateData {
    match t
    case Scrape(_, _, _, _) => cp
    case SaveEvent(_, ev) => cp.(scrapedEvent := ev)
    case SaveSeason(y) => cp.(scrapedSeason := y)
  }

  /** The checkpoint fields the tasks write, in order. */
  function Saves(cp: UpdateData, tasks: seq<Task>): UpdateData
    decreases |tasks|
  {
    if tasks == [] then cp else Saves(Save(cp, tasks[0]), tasks[1..])
  }

  lemma {:induction false} SavesAppend(cp: UpdateData, a: seq<Task>, b: seq<Task>)
    ensures Saves(cp, a + b) == Saves(Saves(cp, a), b)
    decreases |a|
  {
    if a == [] {
      assert a + b == b;
    } else {
      assert (a + b)[0] == a[0];
      assert (a + b)[1..] == a[1..] + b;
      SavesAppend(Save(cp, a[0]), a[1..], b);
    }
  }

  /** A run that completes leaves the checkpoint its saves write: the scraping itself never touches it. */
  lemma {:induction false} RunCheckpoint(site: Site, st: State, tasks: seq<Task>)
    requires Run(site, st, tasks).1 == Completed
    ensures Run(site, st, tasks).0.checkpoint == Saves(st.checkpoint, tasks)
    decreases |tasks|
  {
    if tasks != [] {
      var (s1, e) := Do(site, st, tasks[0]);
      assert s1.checkpoint == Save(st.checkpoint, tasks[0]);
      RunCheckpoint(site, s1, tasks[1..]);
    }
  }

  /**
   * After a completed scrape the stored season is the current year (when
   * the range of seasons is not empty), and the stored event is the last
   * event that had categories, or the old one.
   */
  lemma ScrapedSeasonIsLast(site: Site, years: seq<int>, cutoff: Option<string>, cp: UpdateData)
    requires years != []
    ensures Saves(cp, YearsTasks(site, years, cutoff)).scrapedSeason == years[|years| - 1]
  {
    var y := years[|years| - 1];
    var init := YearsTasks(site, years[..|years| - 1], cutoff);
    var events := EventsTasks(site, y, EventOptions(site, y, cutoff));
    assert YearsTasks(site, years, cutoff) == (init + events) + [SaveSeason(y)];
    SavesAppend(cp, init + events, [SaveSeason(y)]);
  }

  /** Every step keeps the store valid. */
  lemma DoValid(site: Site, st: State, t: Task)
    requires Valid(st.db)
    ensures Valid(Do(site, st, t).0.db)
  {
    if t.Scrape? {
      var url := SessionUrl(t.year, t.event, t.cat, t.session);
      var p := Parse(url, Fetch(site, url));
      if p.Got? {
        IngestValid(st.db, t.year, t.event, t.cat, t.session, p.table);
      }
    }
  }

  /**
   * A run keeps the store valid, so every stored result has a rider with a
   * first name, as the chart builders require, and every event a stored
   * season, as the menu requires.
   */
  lemma {:induction false} RunValid(site: Site, st: State, tasks: seq<Task>)
    requires Valid(st.db)
    ensures var db := Run(site, st, tasks).0.db;
      Valid(db) && Named(db.results) && EventsOk(db)
    decreases |tasks|
  {
    if tasks != [] {
      DoValid(site, st, tasks[0]);
      var (s1, e) := Do(site, st, tasks[0]);
      if e == Completed {
        RunValid(site, s1, tasks[1..]);
      }
    }
    ValidNamed(Run(site, st, tasks).0.db);
  }

  // `scrape_data` on the store.

  function Snapshot(store: Store): State
    reads store
  {
    State(store.Contents(), store.checkpoint, store.menu)
  }

  /** `get_results_from(url)` then `insert_in_database(...)` for one session. */
  method ScrapeSession(store: Store, site: Site, year: int, event: string, cat: string, session: string)
    returns (end: End)
    modifies store
    ensures (Snapshot(store), end) == Run(site, old(Snapshot(store)), [Scrape(year, event, cat, session)])
  {
    RunOne(site, Snapshot(store), Scrape(year, event, cat, session));
    var url := SessionUrl(year, event, cat, session);
    var f := GetResultsFrom(url, Fetch(site, url));
    if f.Hangs? {
      return Hung;
    }
    var crashed := Insert(store, year, event, cat, session, f.table);
    end := if crashed then Crashed else Completed;
  }

  /** The sessions of a category, as its menu lists them. */
  method ScrapeCategory(store: Store, site: Site, year: int, event: string, cat: string) returns (end: End)
    modifies store
    ensures (Snapshot(store), end) == Run(site, old(Snapshot(store)), SessionTasks(year, event, cat, SessionOptions(site, year, event, cat)))
  {
    var url := CategoryUrl(year, event, cat);
    var sessions := GetOptions(Widget(Fetch(site, url), "session"), None);
    end := ScrapeSessions(store, site, year, event, cat, sessions);
  }

  /** The loop over the sessions of a category. */
  method ScrapeSessions(store: Store, site: Site, year: int, event: string, cat: string, sessions: seq<string>) returns (end: End)
    modifies store
    ensures (Snapshot(store), end) == Run(site, old(Snapshot(store)), SessionTasks(year, event, cat, sessions))
  {
    ghost var s0 := Snapshot(store);
    end := Completed;
    for i := 0 to |sessions|
      invariant end == Completed
      invariant (Snapshot(store), Completed) == Run(site, s0, SessionTasks(year, event, cat, sessions[..i]))
    {
      var done := SessionTasks(year, event, cat, sessions[..i]);
      SessionTasksSnoc(year, event, cat, sessions, i);
      RunAppend(site, s0, done, [Scrape(year, event, cat, sessions[i])]);
      end := ScrapeSession(store, site, year, event, cat, sessions[i]);
      if end != Completed {
        SessionTasksPrefix(year, event, cat, sessions, i + 1);
        StopsAtPrefix(site, s0, SessionTasks(year, event, cat, sessions[..i + 1]), SessionTasks(year, event, cat, sessions));
        return;
      }
    }
    assert sessions[..|sessions|] == sessions;
  }

  /** The loop over the categories of an event, after the event checkpoint. */
  method ScrapeCategories(store: Store, site: Site, year: int, event: string, cats: seq<string>) returns (end: End)
    modifies store
    ensures (Snapshot(store), end) == Run(site, old(Snapshot(store)), CategoryTasks(site, year, event, cats))
  {
    ghost var s0 := Snapshot(store);
    end := Completed;
    for i := 0 to |cats|
      invariant end == Completed
      invariant (Snapshot(store), Completed) == Run(site, s0, CategoryTasks(site, year, event, cats[..i]))
    {
      var done := CategoryTasks(site, year, event, cats[..i]);
      CategoryTasksSnoc(site, year, event, cats, i);
      RunAppend(site, s0, done, SessionTasks(year, event, cats[i], SessionOptions(site, year, event, cats[i])));
      end := ScrapeCategory(store, site, year, event, cats[i]);
      if end != Completed {
        CategoryTasksPrefix(site, year, event, cats, i + 1);
        StopsAtPrefix(site, s0, CategoryTasks(site, year, event, cats[..i + 1]), CategoryTasks(site, year, event, cats));
        return;
      }
    }
    assert cats[..|cats|] == cats;
  }

  /** One event of the season: skipped when banned, checkpointed once it has categories. */
  method ScrapeEvent(store: Store, site: Site, year: int, event: string) returns (end: End)
    modifies store
    ensures (Snapshot(store), end) == Run(site, old(Snapshot(store)), EventTasks(site, year, event))
  {
    if event in Banned {
      return Completed;
    }
    var url := EventUrl(year, event);
    var cats := GetOptions(Widget(Fetch(site, url), "category"), None);
    var head := if |cats| > 0 then [SaveEvent(year, event)] else [];
    ghost var s0 := Snapshot(store);
    if |cats| > 0 {
      store.SaveScrapedEvent(event);
      RunSnoc(site, s0, [], SaveEvent(year, event));
    }
    assert Run(site, s0, head) == (Snapshot(store), Completed);
    RunAppend(site, s0, head, CategoryTasks(site, year, event, cats));
    end := ScrapeCategories(store, site, year, event, cats);
  }

  /** The loop over the events of a season. */
  method ScrapeEvents(store: Store, site: Site, year: int, events: seq<string>) returns (end: End)
    modifies store
    ensures (Snapshot(store), end) == Run(site, old(Snapshot(store)), EventsTasks(site, year, events))
  {
    ghost var s0 := Snapshot(store);
    end := Completed;
    for i := 0 to |events|
      invariant end == Completed
      invariant (Snapshot(store), Completed) == Run(site, s0, EventsTasks(site, year, events[..i]))
    {
      var done := EventsTasks(site, year, events[..i]);
      var next := EventTasks(site, year, events[i]);
      assert events[..i + 1][..i] == events[..i];
      assert EventsTasks(site, year, events[..i + 1]) == done + next;
      RunAppend(site, s0, done, next);
      end := ScrapeEvent(store, site, year, events[i]);
      if end != Completed {
        EventsTasksPrefix(site, year, events, i + 1);
        StopsAtPrefix(site, s0, done + next, EventsTasks(site, year, events));
        return;
      }
    }
    assert events[..|events|] == events;
  }

  /** One season: its events after the cutoff, then the season checkpoint. */
  method ScrapeSeason(store: Store, site: Site, year: int, cutoff: Option<string>) returns (end: End)
    modifies store
    ensures (Snapshot(store), end) == Run(site, old(Snapshot(store)), SeasonTasks(site, year, cutoff))
  {
    ghost var s0 := Snapshot(store);
    var events := GetOptions(Widget(Fetch(site, SeasonUrl(year)), "event"), cutoff);
    var tasks := EventsTasks(site, year, events);
    RunAppend(site, s0, tasks, [SaveSeason(year)]);
    end := ScrapeEvents(store, site, year, events);
    if end != Completed {
      return;
    }
    store.SaveScrapedSeason(year);
  }

  /** `scrape_data(start_season)` up to `current_year`, on the store and the site. */
  method ScrapeData(store: Store, site: Site, start: Option<int>, currentYear: int) returns (end: End)
    modifies store
    ensures (Snapshot(store), end) == Run(site, old(Snapshot(store)), ScrapeTasks(site, old(store.checkpoint), start, currentYear))
    ensures Valid(old(store.Contents())) ==> Valid(store.Contents()) && Named(store.results)
  {
    ghost var s0 := Snapshot(store);
    if Valid(s0.db) {
      RunValid(site, s0, ScrapeTasks(site, s0.checkpoint, start, currentYear));
    }
    var first, cutoff;
    if start.None? {
      first, cutoff := store.checkpoint.scrapedSeason, Some(store.checkpoint.scrapedEvent);
    } else {
      first, cutoff := start.value, None;
    }
    end := ScrapeSeasons(store, site, Range(first, currentYear + 1), cutoff);
  }

  /** The loop over the seasons. */
  method ScrapeSeasons(store: Store, site: Site, years: seq<int>, cutoff: Option<string>) returns (end: End)
    modifies store
    ensures (Snapshot(store), end) == Run(site, old(Snapshot(store)), YearsTasks(site, years, cutoff))
  {
    ghost var s0 := Snapshot(store);
    end := Completed;
    for i := 0 to |years|
      invariant end == Completed
      invariant Run(site, s0, YearsTasks(site, years[..i], cutoff)).0 == Snapshot(store)
      invariant Run(site, s0, YearsTasks(site, years[..i], cutoff)).1 == Completed
    {
      var done := YearsTasks(site, years[..i], cutoff);
      var next := SeasonTasks(site, years[i], cutoff);
      assert years[..i + 1][..i] == years[..i];
      assert YearsTasks(site, years[..i + 1], cutoff) == done + next;
      RunAppend(site, s0, done, next);
      end := ScrapeSeason(store, site, years[i], cutoff);
      if end != Completed {
        YearsTasksPrefix(site, years, cutoff, i + 1);
        StopsAtPrefix(site, s0, done + next, YearsTasks(site, years, cutoff));
        return;
      }
    }
    assert years[..|years|] == years;
  }

  // Drawing the charts.

  /** One step of `chart_data`: the two charts of an event, or a season's standings. */
  datatype Job = ChartEvent(e: Event) | ChartSeason(s: Season)

  /** What one step draws. */
  datatype Drawn =
    | EventDrawn(history: seq<Series.Chart<seq<Option<int>>>>, sessions: seq<Series.Chart<seq<Option<int>>>>)
    | SeasonDrawn(standings: seq<Series.Chart<seq<int>>>)

  /** The position of the first event held at `loc`, or the length when none is. */
  function FirstAt(events: seq<Event>, loc: string): (i: nat)
    ensures i <= |events| && (i < |events| ==> events[i].location == loc)
    ensures forall j :: 0 <= j < i ==> events[j].location != loc
    decreases |events|
  {
    if events == [] || events[0].location == loc then 0 else 1 + FirstAt(events[1..], loc)
  }

  /**
   * The events from the first one held at `loc` on, in order, and none when
   * no event is held there.
   */
  function FromLocation(events: seq<Event>, loc: string): seq<Event> {
    events[FirstAt(events, loc)..]
  }

  lemma FromLocationSnoc(events: seq<Event>, e: Event, loc: string)
    ensures FromLocation(events + [e], loc)
         == if FromLocation(events, loc) != [] then FromLocation(events, loc) + [e]
            else if e.location == loc then [e] else []
  {
    var xs := events + [e];
    var i, k := FirstAt(events, loc), FirstAt(xs, loc);
    if i < |events| {
      assert xs[i] == events[i];
      assert k == i;
      assert xs[k..] == events[i..] + [e];
    } else {
      assert forall j :: 0 <= j < |events| ==> xs[j] == events[j];
      assert k >= |events|;
      if e.location == loc {
        assert xs[|events|] == e;
        assert k == |events|;
        assert xs[k..] == [e];
      } else {
        assert k == |xs|;
      }
    }
  }

  /**
   * The loop over `events_temp` in the first season of a resumed run: an
   * event is kept when it is held at the stored location or once one has
   * been kept.
   */
  method KeepFrom(events: seq<Event>, loc: string) returns (kept: seq<Event>)
    ensures kept == FromLocation(events, loc)
  {
    kept := [];
    for i := 0 to |events|
      invariant kept == FromLocation(events[..i], loc)
    {
      assert events[..i + 1] == events[..i] + [events[i]];
      FromLocationSnoc(events[..i], events[i], loc);
      if events[i].location == loc || |kept| > 0 {
        kept := kept + [events[i]];
      }
    }
    assert events[..|events|] == events;
  }

  /** The events charted in `year`: the season's events, cut at the stored location in the first year of a resumed run. */
  function YearEvents(db: Db, year: int, firstYear: int, loc: Option<string>): seq<Event> {
    var all := Standings.SeasonEvents(db.events, year);
    if year == firstYear && loc.Some? then FromLocation(all, loc.value) else all
  }

  /** One step per event, in order. */
  function EventJobs(events: seq<Event>): (r: seq<Job>)
    ensures |r| == |events| && forall k :: 0 <= k < |events| ==> r[k] == ChartEvent(events[k])
  {
    seq(|events|, k requires 0 <= k < |events| => ChartEvent(events[k]))
  }

  /** A season's steps: each of the events, then the season. */
  function Jobs(events: seq<Event>, season: Season): seq<Job> {
    EventJobs(events) + [ChartSeason(season)]
  }

  /** The steps over the years, up to the first year with no stored season (`return` on `Season.DoesNotExist`). */
  function ChartJobs(db: Db, years: seq<int>, firstYear: int, loc: Option<string>): seq<Job>
    decreases |years|
  {
    if years == [] then []
    else
      var i := SeasonIndex(db, years[0]);
      if i < 0 then []
      else Jobs(YearEvents(db, years[0], firstYear, loc), db.seasons[i]) + ChartJobs(db, years[1..], firstYear, loc)
  }

  /**
   * `chart_data(start_year)`: without a start year it resumes at the stored
   * season and, when the stored event names a stored location, at that
   * location's event within it.
   */
  function ChartPlan(db: Db, cp: UpdateData, start: Option<int>, currentYear: int): seq<Job> {
    var first := start.GetOr(cp.chartedSeason);
    var loc := if start.None? && cp.chartedEvent in db.locations then Some(cp.chartedEvent) else None;
    ChartJobs(db, Range(first, currentYear + 1), first, loc)
  }

  /**
   * The charts of one step. A season's standings return early, writing no
   * chart, when one of its categories is not stored (`Category.DoesNotExist`);
   * the step then draws no standings, and the run goes on.
   */
  function Draw(db: Db, j: Job): Drawn
    requires Named(db.results) && OnePointSessionEach(db.sessions)
  {
    match j
    case ChartEvent(e) =>
      EventDrawn(EventHistory.EventCharts(db, e.location, e.year, 5), SessionHistory.SessionCharts(db, e))
    case ChartSeason(s) => SeasonDrawn(Standings.SeasonCharts(db, s).GetOr([]))
  }

  /** The checkpoint field a finished step writes. */
  function ChartSave(cp: UpdateData, j: Job): UpdateData {
    match j
    case ChartEvent(e) => cp.(chartedEvent := e.location)
    case ChartSeason(s) => cp.(chartedSeason := s.year)
  }

  /** The checkpoint fields the steps write, in order. */
  function ChartSaves(cp: UpdateData, jobs: seq<Job>): UpdateData
    decreases |jobs|
  {
    if jobs == [] then cp else ChartSaves(ChartSave(cp, jobs[0]), jobs[1..])
  }

  /** The charts of each step, in order. */
  function Draws(db: Db, jobs: seq<Job>): seq<Drawn>
    requires Named(db.results) && OnePointSessionEach(db.sessions)
  {
    Map(jobs, DrawOf(db))
  }

  /** Step `k` draws its own job's charts, one chart set per step. */
  lemma DrawsAt(db: Db, jobs: seq<Job>, k: nat)
    requires Named(db.results) && OnePointSessionEach(db.sessions) && k < |jobs|
    ensures |Draws(db, jobs)| == |jobs| && Draws(db, jobs)[k] == Draw(db, jobs[k])
  {
  }

  /** `Draw` on a fixed store, as a function of the step. */
  function DrawOf(db: Db): Job -> Drawn
    requires Named(db.results) && OnePointSessionEach(db.sessions)
  {
    j => Draw(db, j)
  }

  function Map<A, B>(xs: seq<A>, f: A -> B): (r: seq<B>)
    ensures |r| == |xs| && forall k :: 0 <= k < |xs| ==> r[k] == f(xs[k])
  {
    seq(|xs|, k requires 0 <= k < |xs| => f(xs[k]))
  }

  lemma MapAppend<A, B>(a: seq<A>, b: seq<A>, f: A -> B)
    ensures Map(a + b, f) == Map(a, f) + Map(b, f)
  {
    var l, r := Map(a + b, f), Map(a, f) + Map(b, f);
    forall k | 0 <= k < |l| ensures l[k] == r[k] {
      if k < |a| {
        assert (a + b)[k] == a[k];
      } else {
        assert (a + b)[k] == b[k - |a|];
      }
    }
  }

  lemma DrawsAppend(db: Db, a: seq<Job>, b: seq<Job>)
    requires Named(db.results) && OnePointSessionEach(db.sessions)
    ensures Draws(db, a + b) == Draws(db, a) + Draws(db, b)
  {
    MapAppend(a, b, DrawOf(db));
  }

  /** The checkpoint writes of two plans run one after the other. */
  lemma {:induction false} ChartSavesAppend(cp: UpdateData, a: seq<Job>, b: seq<Job>)
    ensures ChartSaves(cp, a + b) == ChartSaves(ChartSaves(cp, a), b)
    decreases |a|
  {
    if a == [] {
      assert a + b == b;
    } else {
      assert (a + b)[0] == a[0];
      assert (a + b)[1..] == a[1..] + b;
      ChartSavesAppend(ChartSave(cp, a[0]), a[1..], b);
    }
  }

  /** One more step draws its charts after the others and writes its checkpoint field last. */
  lemma ChartStepSnoc(db: Db, cp: UpdateData, a: seq<Job>, j: Job)
    requires Named(db.results) && OnePointSessionEach(db.sessions)
    ensures Draws(db, a + [j]) == Draws(db, a) + [Draw(db, j)]
    ensures ChartSaves(cp, a + [j]) == ChartSave(ChartSaves(cp, a), j)
  {
    MapAppend(a, [j], DrawOf(db));
    ChartSavesSnoc(cp, a, j);
  }

  lemma ChartSavesSnoc(cp: UpdateData, a: seq<Job>, j: Job)
    ensures ChartSaves(cp, a + [j]) == ChartSave(ChartSaves(cp, a), j)
  {
    ChartSavesAppend(cp, a, [j]);
    assert [j][1..] == [];
  }

  lemma ChartJobsOne(db: Db, y: int, firstYear: int, loc: Option<string>)
    requires SeasonIndex(db, y) >= 0
    ensures ChartJobs(db, [y], firstYear, loc) == Jobs(YearEvents(db, y, firstYear, loc), db.seasons[SeasonIndex(db, y)])
  {
    assert [y][1..] == [];
  }

  /** Years whose seasons are stored pass their steps on to the rest. */
  lemma {:induction false} ChartJobsAppend(db: Db, a: seq<int>, b: seq<int>, firstYear: int, loc: Option<string>)
    requires forall j :: 0 <= j < |a| ==> SeasonIndex(db, a[j]) >= 0
    ensures ChartJobs(db, a + b, firstYear, loc) == ChartJobs(db, a, firstYear, loc) + ChartJobs(db, b, firstYear, loc)
    decreases |a|
  {
    if a == [] {
      assert a + b == b;
    } else {
      assert (a + b)[0] == a[0];
      assert (a + b)[1..] == a[1..] + b;
      ChartJobsAppend(db, a[1..], b, firstYear, loc);
    }
  }

  /** The leading years that have a stored season. */
  function SeasonsStored(db: Db, years: seq<int>): (n: nat)
    ensures n <= |years|
    ensures forall j :: 0 <= j < n ==> SeasonIndex(db, years[j]) >= 0
    ensures n < |years| ==> SeasonIndex(db, years[n]) < 0
    decreases |years|
  {
    if years == [] || SeasonIndex(db, years[0]) < 0 then 0 else 1 + SeasonsStored(db, years[1..])
  }

  /** The seasons a list of steps charts, in order. */
  function JobYears(jobs: seq<Job>): seq<int>
    decreases |jobs|
  {
    if jobs == [] then []
    else (if jobs[0].ChartSeason? then [jobs[0].s.year] else []) + JobYears(jobs[1..])
  }

  lemma {:induction false} JobYearsAppend(a: seq<Job>, b: seq<Job>)
    ensures JobYears(a + b) == JobYears(a) + JobYears(b)
    decreases |a|
  {
    if a == [] {
      assert a + b == b;
    } else {
      assert (a + b)[0] == a[0];
      assert (a + b)[1..] == a[1..] + b;
      JobYearsAppend(a[1..], b);
    }
  }

  lemma {:induction false} JobYearsEvents(events: seq<Event>)
    ensures JobYears(EventJobs(events)) == []
    decreases |events|
  {
    if events != [] {
      assert EventJobs(events)[1..] == EventJobs(events[1..]);
      JobYearsEvents(events[1..]);
    }
  }

  /** A season's steps chart that season only. */
  lemma JobYearsJobs(events: seq<Event>, season: Season)
    ensures JobYears(Jobs(events, season)) == [season.year]
  {
    JobYearsAppend(EventJobs(events), [ChartSeason(season)]);
    JobYearsEvents(events);
    assert [ChartSeason(season)][1..] == [];
  }

  /**
   * The seasons charted are the years in order up to, not including, the
   * first year without a stored season.
   */
  lemma {:induction false} ChartedSeasons(db: Db, years: seq<int>, firstYear: int, loc: Option<string>)
    ensures JobYears(ChartJobs(db, years, firstYear, loc)) == years[..SeasonsStored(db, years)]
    decreases |years|
  {
    if years != [] && SeasonIndex(db, years[0]) >= 0 {
      var i := SeasonIndex(db, years[0]);
      var evs := YearEvents(db, years[0], firstYear, loc);
      var n := SeasonsStored(db, years[1..]);
      assert SeasonsStored(db, years) == 1 + n;
      assert years[..1 + n] == [years[0]] + years[1..][..n];
      var js, rest := Jobs(evs, db.seasons[i]), ChartJobs(db, years[1..], firstYear, loc);
      assert ChartJobs(db, years, firstYear, loc) == js + rest;
      JobYearsAppend(js, rest);
      JobYearsJobs(evs, db.seasons[i]);
      ChartedSeasons(db, years[1..], firstYear, loc);
      assert JobYears(js + rest) == [years[0]] + years[1..][..n];
    }
  }

  /** The stored season is the last one the steps chart, or unchanged when they chart none. */
  lemma {:induction false} ChartSavesSeason(cp: UpdateData, jobs: seq<Job>)
    ensures ChartSaves(cp, jobs).chartedSeason
         == if JobYears(jobs) == [] then cp.chartedSeason else JobYears(jobs)[|JobYears(jobs)| - 1]
    decreases |jobs|
  {
    if jobs != [] {
      ChartSavesSeason(ChartSave(cp, jobs[0]), jobs[1..]);
    }
  }

  /**
   * A season with an event and a category the store lacks draws no
   * standings, however many events and results it holds.
   */
  lemma MissingCategoryDrawsNothing(db: Db, s: Season, c: string)
    requires Named(db.results) && OnePointSessionEach(db.sessions)
    requires |Standings.SeasonEvents(db.events, s.year)| > 0 && c in s.categories && c !in db.categories
    ensures Draw(db, ChartSeason(s)) == SeasonDrawn([])
  {
    assert Standings.SeasonCharts(db, s).None?;
  }

  /** Otherwise the season draws one standings chart per category. */
  lemma StoredCategoriesDrawn(db: Db, s: Season)
    requires Named(db.results) && OnePointSessionEach(db.sessions)
    requires forall c :: c in s.categories ==> c in db.categories
    ensures Draw(db, ChartSeason(s)).standings == Standings.SeasonCharts(db, s).value
    ensures |Draw(db, ChartSeason(s)).standings| == |Options.Dedup(s.categories)|
  {
  }

  /** In a valid store every category of a stored season is stored, so its standings never return early. */
  lemma ValidSeasonDrawn(db: Db, i: nat)
    requires Valid(db) && OnePointSessionEach(db.sessions) && i < |db.seasons|
    ensures Named(db.results)
    ensures Standings.SeasonCharts(db, db.seasons[i]).Some?
    ensures Draw(db, ChartSeason(db.seasons[i])) == SeasonDrawn(Standings.SeasonCharts(db, db.seasons[i]).value)
  {
    ValidNamed(db);
    StoredCategoriesDrawn(db, db.seasons[i]);
  }

  /**
   * The checkpoint the whole plan writes holds the last year up to the
   * first one without a stored season, or the old season when the first
   * year already has none.
   */
  lemma PlanSavesSeason(db: Db, cp: UpdateData, start: Option<int>, currentYear: int)
    ensures var first := start.GetOr(cp.chartedSeason);
      var n := SeasonsStored(db, Range(first, currentYear + 1));
      ChartSaves(cp, ChartPlan(db, cp, start, currentYear)).chartedSeason
        == if n == 0 then cp.chartedSeason else first + n - 1
  {
    var first := start.GetOr(cp.chartedSeason);
    var years := Range(first, currentYear + 1);
    var loc := if start.None? && cp.chartedEvent in db.locations then Some(cp.chartedEvent) else None;
    var plan := ChartPlan(db, cp, start, currentYear);
    assert plan == ChartJobs(db, years, first, loc);
    ChartSavesSeason(cp, plan);
    ChartedSeasons(db, years, first, loc);
    var n := SeasonsStored(db, years);
    if n > 0 {
      assert years[..n][n - 1] == years[n - 1] == first + n - 1;
    }
  }

  /**
   * Resuming redraws the stored event first; when the stored season holds
   * no event at the stored location, none of that season's events is drawn
   * and its standings come first.
   */
  lemma ResumeRedrawsStoredEvent(db: Db, cp: UpdateData, currentYear: int)
    requires cp.chartedSeason <= currentYear && SeasonIndex(db, cp.chartedSeason) >= 0
    requires cp.chartedEvent in db.locations
    ensures var plan := ChartPlan(db, cp, None, currentYear);
      var evs := Standings.SeasonEvents(db.events, cp.chartedSeason);
      && plan != []
      && (plan[0].ChartEvent? <==> exists e :: e in evs && e.location == cp.chartedEvent)
      && (plan[0].ChartEvent? ==> plan[0].e.location == cp.chartedEvent && plan[0].e.year == cp.chartedSeason)
      && (plan[0].ChartSeason? ==> plan[0].s.year == cp.chartedSeason)
  {
    var years := Range(cp.chartedSeason, currentYear + 1);
    var evs := Standings.SeasonEvents(db.events, cp.chartedSeason);
    var kept := FromLocation(evs, cp.chartedEvent);
    var i := SeasonIndex(db, cp.chartedSeason);
    assert years[0] == cp.chartedSeason;
    assert ChartPlan(db, cp, None, currentYear)
        == Jobs(kept, db.seasons[i]) + ChartJobs(db, years[1..], cp.chartedSeason, Some(cp.chartedEvent));
    if kept != [] {
      assert kept[0] in evs;
    }
  }

  lemma EventJobsSnoc(events: seq<Event>, k: nat)
    requires k < |events|
    ensures EventJobs(events[..k + 1]) == EventJobs(events[..k]) + [ChartEvent(events[k])]
  {
  }

  /** Both charts of one event. */
  method DrawEvent(db: Db, e: Event) returns (d: Drawn)
    requires Named(db.results) && OnePointSessionEach(db.sessions) && SessionHistory.OneSessionEach(db.sessions)
    ensures d == Draw(db, ChartEvent(e))
  {
    var history := EventHistory.CreateEventHistoryChart(db, e.location, e.year, 5);
    var sessions := SessionHistory.CreateSessionHistoryChart(db, e);
    d := EventDrawn(history, sessions);
  }

  /** The standings of one season; none when `create_season_chart` returns early. */
  method DrawSeason(db: Db, s: Season) returns (d: Drawn)
    requires Named(db.results) && OnePointSessionEach(db.sessions)
    ensures d == Draw(db, ChartSeason(s))
  {
    var standings := Standings.CreateSeasonChart(db, s);
    d := SeasonDrawn(if standings.None? then [] else standings.value);
  }

  /** The loop over a season's events: both charts of each, then its checkpoint. */
  method ChartEvents(store: Store, db: Db, events: seq<Event>) returns (drawn: seq<Drawn>)
    requires store.Contents() == db
    requires Named(db.results) && OnePointSessionEach(db.sessions) && SessionHistory.OneSessionEach(db.sessions)
    modifies store
    ensures store.Contents() == db && store.menu == old(store.menu)
    ensures drawn == Draws(db, EventJobs(events))
    ensures store.checkpoint == ChartSaves(old(store.checkpoint), EventJobs(events))
  {
    ghost var cp0 := store.checkpoint;
    drawn := [];
    for k := 0 to |events|
      invariant store.Contents() == db && store.menu == old(store.menu)
      invariant drawn == Draws(db, EventJobs(events[..k]))
      invariant store.checkpoint == ChartSaves(cp0, EventJobs(events[..k]))
    {
      var e := events[k];
      EventJobsSnoc(events, k);
      ChartStepSnoc(db, cp0, EventJobs(events[..k]), ChartEvent(e));
      var d := DrawEvent(db, e);
      drawn := drawn + [d];
      store.SaveChartedEvent(e.location);
    }
    assert events[..|events|] == events;
  }

  /**
   * One season: its events, then its standings, and the season checkpoint,
   * written also when the standings returned early.
   */
  method ChartYear(store: Store, db: Db, events: seq<Event>, season: Season) returns (drawn: seq<Drawn>)
    requires store.Contents() == db
    requires Named(db.results) && OnePointSessionEach(db.sessions) && SessionHistory.OneSessionEach(db.sessions)
    modifies store
    ensures store.Contents() == db && store.menu == old(store.menu)
    ensures drawn == Draws(db, Jobs(events, season))
    ensures store.checkpoint == ChartSaves(old(store.checkpoint), Jobs(events, season))
  {
    ghost var cp0 := store.checkpoint;
    drawn := ChartEvents(store, db, events);
    ChartStepSnoc(db, cp0, EventJobs(events), ChartSeason(season));
    var d := DrawSeason(db, season);
    drawn := drawn + [d];
    store.SaveChartedSeason(season.year);
  }

  /** The events of one year: the season's, cut at the stored location in the first year of a resumed run. */
  method EventsOfYear(db: Db, year: int, firstYear: int, loc: Option<string>) returns (events: seq<Event>)
    ensures events == YearEvents(db, year, firstYear, loc)
  {
    events := Standings.SeasonEvents(db.events, year);
    if year == firstYear && loc.Some? {
      events := KeepFrom(events, loc.value);
    }
  }

  /** The loop over the years, stopping at the first one without a stored season. */
  method ChartSeasons(store: Store, db: Db, years: seq<int>, firstYear: int, loc: Option<string>)
    returns (drawn: seq<Drawn>)
    requires store.Contents() == db
    requires Named(db.results) && OnePointSessionEach(db.sessions) && SessionHistory.OneSessionEach(db.sessions)
    modifies store
    ensures store.Contents() == db && store.menu == old(store.menu)
    ensures drawn == Draws(db, ChartJobs(db, years, firstYear, loc))
    ensures store.checkpoint == ChartSaves(old(store.checkpoint), ChartJobs(db, years, firstYear, loc))
  {
    ghost var cp0 := store.checkpoint;
    drawn := [];
    for i := 0 to |years|
      invariant store.Contents() == db && store.menu == old(store.menu)
      invariant forall j :: 0 <= j < i ==> SeasonIndex(db, years[j]) >= 0
      invariant drawn == Draws(db, ChartJobs(db, years[..i], firstYear, loc))
      invariant store.checkpoint == ChartSaves(cp0, ChartJobs(db, years[..i], firstYear, loc))
    {
      var k := SeasonIndex(db, years[i]);
      ghost var done := ChartJobs(db, years[..i], firstYear, loc);
      if k < 0 {
        YearMissing(db, years, i, firstYear, loc);
        return;
      }
      assert forall j :: 0 <= j < i + 1 ==> SeasonIndex(db, years[j]) >= 0;
      YearStoredPrefix(db, years, i, firstYear, loc);
      var events := EventsOfYear(db, years[i], firstYear, loc);
      ghost var here := Jobs(events, db.seasons[k]);
      DrawsAppend(db, done, here);
      ChartSavesAppend(cp0, done, here);
      var ds := ChartYear(store, db, events, db.seasons[k]);
      drawn := drawn + ds;
    }
    assert years[..|years|] == years;
  }

  /** A year without a stored season ends the steps. */
  lemma YearMissing(db: Db, years: seq<int>, i: nat, firstYear: int, loc: Option<string>)
    requires i < |years| && forall j :: 0 <= j < i ==> SeasonIndex(db, years[j]) >= 0
    requires SeasonIndex(db, years[i]) < 0
    ensures ChartJobs(db, years, firstYear, loc) == ChartJobs(db, years[..i], firstYear, loc)
  {
    var tail := years[i..];
    assert years == years[..i] + tail;
    ChartJobsAppend(db, years[..i], tail, firstYear, loc);
    ChartJobsHead(db, tail, firstYear, loc);
    assert tail[0] == years[i];
  }

  /**
   * A year with a stored season contributes its steps after those of the
   * years before it and before those of the years after it.
   */
  lemma YearStored(db: Db, years: seq<int>, i: nat, firstYear: int, loc: Option<string>)
    requires i < |years| && forall j :: 0 <= j < i ==> SeasonIndex(db, years[j]) >= 0
    requires SeasonIndex(db, years[i]) >= 0
    ensures ChartJobs(db, years, firstYear, loc)
         == ChartJobs(db, years[..i], firstYear, loc)
            + Jobs(YearEvents(db, years[i], firstYear, loc), db.seasons[SeasonIndex(db, years[i])])
            + ChartJobs(db, years[i + 1..], firstYear, loc)
  {
    var tail := years[i..];
    assert years == years[..i] + tail;
    ChartJobsAppend(db, years[..i], tail, firstYear, loc);
    ChartJobsHead(db, tail, firstYear, loc);
    assert tail[0] == years[i] && tail[1..] == years[i + 1..];
    var a, h, r := ChartJobs(db, years[..i], firstYear, loc),
                   Jobs(YearEvents(db, years[i], firstYear, loc), db.seasons[SeasonIndex(db, years[i])]),
                   ChartJobs(db, years[i + 1..], firstYear, loc);
    assert ChartJobs(db, tail, firstYear, loc) == h + r;
    assert a + (h + r) == a + h + r;
  }

  lemma YearStoredPrefix(db: Db, years: seq<int>, i: nat, firstYear: int, loc: Option<string>)
    requires i < |years| && forall j :: 0 <= j < i ==> SeasonIndex(db, years[j]) >= 0
    requires SeasonIndex(db, years[i]) >= 0
    ensures ChartJobs(db, years[..i + 1], firstYear, loc)
         == ChartJobs(db, years[..i], firstYear, loc)
            + Jobs(YearEvents(db, years[i], firstYear, loc), db.seasons[SeasonIndex(db, years[i])])
  {
    assert years[..i + 1] == years[..i] + [years[i]];
    ChartJobsAppend(db, years[..i], [years[i]], firstYear, loc);
    ChartJobsOne(db, years[i], firstYear, loc);
  }

  lemma ChartJobsHead(db: Db, years: seq<int>, firstYear: int, loc: Option<string>)
    requires years != []
    ensures SeasonIndex(db, years[0]) < 0 ==> ChartJobs(db, years, firstYear, loc) == []
    ensures SeasonIndex(db, years[0]) >= 0 ==>
      ChartJobs(db, years, firstYear, loc)
      == Jobs(YearEvents(db, years[0], firstYear, loc), db.seasons[SeasonIndex(db, years[0])]) + ChartJobs(db, years[1..], firstYear, loc)
  {
  }

  /**
   * `chart_data(start_year)` up to `current_year`: draws from the store,
   * which only its checkpoint changes in; the charted season left is the
   * last year before the first one without a stored season.
   */
  method ChartData(store: Store, start: Option<int>, currentYear: int) returns (drawn: seq<Drawn>)
    requires Named(store.results) && OnePointSessionEach(store.sessions) && SessionHistory.OneSessionEach(store.sessions)
    modifies store
    ensures store.Contents() == old(store.Contents()) && store.menu == old(store.menu)
    ensures var plan := ChartPlan(old(store.Contents()), old(store.checkpoint), start, currentYear);
      drawn == Draws(old(store.Contents()), plan) && store.checkpoint == ChartSaves(old(store.checkpoint), plan)
    ensures var first := start.GetOr(old(store.checkpoint).chartedSeason);
      var n := SeasonsStored(old(store.Contents()), Range(first, currentYear + 1));
      store.checkpoint.chartedSeason == if n == 0 then old(store.checkpoint).chartedSeason else first + n - 1
  {
    var db := store.Contents();
    ghost var cp0 := store.checkpoint;
    var first := start.GetOr(store.checkpoint.chartedSeason);
    var loc := if start.None? && store.checkpoint.chartedEvent in store.locations then Some(store.checkpoint.chartedEvent) else None;
    drawn := ChartSeasons(store, db, Range(first, currentYear + 1), first, loc);
    PlanSavesSeason(db, cp0, start, currentYear);
  }
}
