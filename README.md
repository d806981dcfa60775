# gpstats core in Dafny

A model of the data pipeline of gpstats, a Django site that gathers MotoGP
results from motogp.com and draws charts from them. The model covers two
files.

- `motogp/scraper.py` holds the scraper.
  - `get_options` reads a menu widget of a results page.
  - `get_results_from` and `results_line_count` turn a results page into a
    table of rows.
  - `insert_in_database` stores one session's table in the database.
  - `scrape_data` walks seasons, events, categories and sessions, and keeps
    the scrape checkpoint in `UpdateData`.
  - `chart_data` walks the stored seasons and events, draws every chart, and
    keeps the chart checkpoint.
- `motogp/models.py` holds the entities and the three chart builders.
  - Entities: Season, EventLocation, Category, Event, Session, Rider, Team,
    Brand, Result, UpdateData and MenuOptions.
  - `Season.create_season_chart` builds the championship standings.
  - `Event.create_event_history_chart` builds a location's finishing
    positions over the last seasons.
  - `Event.create_session_history_chart` builds one event's positions
    session after session.
  - `MenuOptions.save` builds the navigation menu.

Layout, module by module:

- `Wrappers`: an `Option` type.
- `Text`: the Python string operations the code relies on: `strip`,
  `lower`, `upper`, `find`, `count`, slicing and `str(int)`.
- `Order`: Python's ordering of lists and strings, a stable sort and
  `reversed`.
- `Names`: the rider-name regular expression of `insert_in_database` and
  the first-name/last-name split.
- `Options`: `get_options`.
- `Web`: the site, a map from URL to page, holding each page's widgets,
  cells and text.
- `Table`: `results_line_count` and the cell walk of `get_results_from`.
- `Schema`: the entities and the database as one record, with the
  get-or-create operations as functions.
- `Menu`: `MenuOptions.save`.
- `Store`: a class holding the database, the `UpdateData` checkpoint and the
  saved menu. Its methods are the ORM calls the scraper makes.
- `Ingest`: `insert_in_database`.
- `Series`: the ordered dictionaries the chart builders fill.
- `Standings`, `EventHistory`, `SessionHistory`: the three chart builders.
  Each is a method with loops, proved equal to a function of the database.
- `Traversal`: `scrape_data` and `chart_data`.
  - Each is a method over the store, proved against a sequence of steps run
    in order.
  - A scrape ends `Completed`, `Crashed` (an exception escaped) or `Hung`
    (the cell walk never ends).
  - A chart run always goes through its plan. A season whose standings
    return early on a missing category draws no standings chart and is
    still saved as charted.

Behaviour the model follows from the code, where the code does something
other than its documented intent:

- Restarted race with no earlier race.
  - A restarted race (`RAC2`) with no stored `RAC` is not skipped.
  - `filter` never raises `DoesNotExist`, so the page is stored as a plain
    `RAC` (`Ingest.RestartWithoutPredecessor`).
- The standings are ordered by the whole points series compared as a list,
  not by total. After two rounds where A has [25, 41], B [20, 45] and
  C [16, 36], the order stays A, B, C (`Standings.ExampleOrderIsBySeries`).
- Riders with identical series are not ordered by name. The sort is
  stable and its result is then reversed, so such riders come out in the
  reverse of their previous order (`Order.ReverseSortedTieOrder`).
- Carrying points forward.
  - The rule that carries a rider's points into an event the rider missed
    needs the series to hold more than one entry.
  - So a rider who scores in the first round and misses the second drops to
    0 (`Standings.FirstRoundOnlyDropsToZero`).
- The event history relabels `125cc` as `Moto3` only after a category named
  `moto3` in lower case. The site says `Moto3`, so 125cc is never relabelled
  (`EventHistory.Never125ToMoto3`).
- The session history picks session lists by era.
  - The era test leaves out 2005: `year < 2005` and `2006 <= year <= 2008`.
  - So a 2005 event uses the modern list (`SessionHistory.SessionOrder`).
- Equal lap times.
  - The Q1 re-ranking maps lap times to riders.
  - Two riders with the same time string collapse into one entry, and the
    later of the two wins (`SessionHistory.EqualTimesCollapse`).
- The results line count subtracts every occurrence of the unwanted texts.
  It can be negative (`Table.LineCountMayBeNegative`), in which case no row
  is read.
- The cell walk can loop.
  - An `IndexError` while reading a row is caught without moving on, so the
    walk never ends.
  - The model marks that outcome `Spins` in the walk and `Hung` in the
    scrape.
- The last name is the whole tail of the name from the leftmost space
  followed by a capital after which only allowed characters come, up to the
  last character, which may be anything (`Names.SplitNameAtLeftmost`).
- The first name is the text before the last name's first occurrence.
  - When the lower-cased last name does not occur in the mixed-case name,
    `find` gives -1.
  - The first name is then the whole name minus its last character
    (`Names.FirstNameWhenNotFound`, `Names.ExampleInitialInLastName`).
- Rider keys can collide.
  - The chart key of a rider is the first initial and the upper-cased last
    name.
  - Two riders can share it (`Schema.RiderKeyNotInjective`), and the charts
    merge such riders.
- The scrape checkpoint.
  - It records an event before the event's sessions are scraped
    (`Traversal.EventSavedFirst`).
  - On resume the walk starts after that event (`Traversal.ResumeSkipsStoredEvent`).
  - So an event whose scrape was cut short is never completed.
  - The stored event is the cutoff of every season walked, not only of the
    stored season (`Traversal.ScrapeTasks`). A later season whose event
    menu lacks it scrapes no event and only writes its own checkpoint
    (`Traversal.ResumeSkipsStoredEvent`).
  - The default stored event is the empty name, and it is a cutoff rather
    than no cutoff. While no menu lists an empty value, a first
    `scrape_data()` without a start season scrapes nothing and only writes
    the season checkpoints from 1993 on
    (`Options.AbsentCutoffKeepsNothing`, `Traversal.FreshResumeOnlySavesSeasons`).
- Resuming the charts.
  - Resuming redraws the stored event, because the event filter keeps the
    event at the stored location.
  - When that location has no event in the stored season, the season draws
    no event at all (`Traversal.ResumeRedrawsStoredEvent`).

## Model

| member | source | states |
|---|---|---|
| Text.LStrip | motogp/scraper.py:328-329 | the result is a suffix of the input with no leading whitespace, and everything dropped is whitespace |
| Text.RStrip | motogp/scraper.py:328-329 | the result is a prefix of the input with no trailing whitespace, and everything dropped is whitespace |
| Text.Strip | motogp/scraper.py:328-329 | the result is no longer than the input and starts and ends with a non-space |
| Text.StripKeepsNonSpace | motogp/scraper.py:328-330 | a string with a non-space character strips to a non-empty one |
| Text.LowerChar | motogp/scraper.py:328 | lower-casing maps whitespace to whitespace and nothing else to it |
| Text.UpperChar | motogp/models.py:117-118 | upper-casing gives two characters for `ß` and one otherwise, maps `µ` and `ÿ` to their capitals outside Latin-1, and maps whitespace to whitespace and nothing else to it |
| Text.Lower | motogp/scraper.py:328-329 | `lower()` maps each character on its own and keeps the length |
| Text.Upper | motogp/models.py:117-118 | `upper()` is never shorter than its input nor more than twice as long; without an `ß` it maps each character on its own and keeps the length, with one it lengthens the text |
| Text.UpperAppend | motogp/models.py:118 | upper-casing a concatenation gives the concatenation of the upper-cased parts |
| Text.UpperOfLower | motogp/scraper.py:328 | upper-casing the lower-cased last name gives the same text as upper-casing the one scraped, so the stored lower-casing does not change a key |
| Text.IsSpace | motogp/scraper.py:328 | Python's `isspace` on one character |
| Text.FindFrom | motogp/scraper.py:141-142 | the index is -1 or an occurrence at or after the start, and no earlier occurrence exists from the start |
| Text.Find | motogp/scraper.py:329 | `find` gives the first occurrence, or -1 when there is none |
| Text.CountFromBound | motogp/scraper.py:144 | non-overlapping occurrences counted from an index fit in the rest of the string |
| Text.CountFromFind | motogp/scraper.py:144 | the count from an index is positive exactly when `find` from it succeeds |
| Text.CountBound | motogp/scraper.py:144-147 | `count` times the pattern length is at most the string length |
| Text.CountPositiveIffFound | motogp/scraper.py:144-147 | `count` is positive if and only if `find` finds the pattern |
| Text.Count | motogp/scraper.py:144 | Python's `count`: the non-overlapping occurrences found left to right, and one more than the length for an empty pattern |
| Text.SliceBound | motogp/scraper.py:144 | a slice bound is clamped into the string, counting negative bounds from the end as Python does |
| Text.PySlice | motogp/scraper.py:329 | a Python slice is never longer than the string |
| Text.NatToString | motogp/scraper.py:170 | a decimal numeral is non-empty, has two digits or more exactly from 10 up, and has no sign |
| Text.IntToString | motogp/scraper.py:170 | `str(int)` starts with a minus sign exactly for negative numbers |
| Text.NatToStringInjective | motogp/models.py:104-105 | distinct naturals have distinct numerals |
| Text.IntToStringInjective | motogp/models.py:104-105 | distinct years have distinct season names, so the menu keys of two seasons never clash |
| Order.LexIrreflexive | motogp/models.py:90-96 | no series compares less than itself |
| Order.LexTransitive | motogp/models.py:90-96 | Python's list comparison is transitive |
| Order.LexTotal | motogp/models.py:90-96 | any two different series are ordered one way or the other |
| Order.LexLeTransitive | motogp/models.py:90-96 | less-or-equal on series is transitive |
| Order.LexLess | motogp/models.py:93 | Python's `<` on two lists of integers: the first difference decides, and a proper prefix is smaller |
| Order.StrLess | motogp/models.py:261 | Python's `<` on two strings, by character codes |
| Order.Codes | motogp/models.py:252-265 | a string compares by its character codes, one per character |
| Order.CodesInjective | motogp/models.py:252-265 | different strings have different code sequences |
| Order.Insert | motogp/models.py:90-96 | one insertion step of the sort adds exactly one element |
| Order.InsertSorted | motogp/models.py:90-96 | inserting into a sorted list keeps it sorted |
| Order.SortBy | motogp/models.py:90-96 | `sorted` returns a permutation of its input |
| Order.SortBySorted | motogp/models.py:90-96 | `sorted` returns its input in ascending key order |
| Order.Reverse | motogp/models.py:90-96 | `reversed` puts element `i` at place `n - 1 - i` |
| Order.ReverseMultiset | motogp/models.py:90-96 | `reversed` is a permutation |
| Order.ReverseOfSorted | motogp/models.py:90-96 | reversing an ascending list gives a descending one |
| Order.ReverseSortedDescending | motogp/models.py:90-96 | `reversed(sorted(...))` is a descending permutation of the input |
| Order.InsertWithKey | motogp/models.py:93 | inserting into a sorted list places the new element after every element of equal key |
| Order.SortByStable | motogp/models.py:93 | `sorted` is stable: the elements of any one key come out in their input order |
| Order.ReverseWithKey | motogp/models.py:93 | `reversed` reverses the order of the elements of any one key |
| Order.ReverseSortedTieOrder | motogp/models.py:93 | `reversed(sorted(...))` gives the elements of equal key in the reverse of their input order |
| Names.RunEnd | motogp/scraper.py:323 | the repeated part of the pattern matches the longest run it can from a position |
| Names.InA | motogp/scraper.py:323 | the first bracket of the pattern: A-Z, the listed accented capitals, and the characters of `(Mc)` |
| Names.InB | motogp/scraper.py:323 | the repeated bracket: the first one plus `J`, `r`, the apostrophe, the hyphen and the space |
| Names.AtEnd | motogp/scraper.py:323 | `$`: the end of the name, or just before a newline that ends it |
| Names.TryFrom | motogp/scraper.py:323 | a successful backtracking attempt ends the match at the end of the name, or just before a final character |
| Names.MatchAt | motogp/scraper.py:323 | a match at `i` starts with a space and a capital from the first set |
| Names.SearchFrom | motogp/scraper.py:323 | the search finds the first position from `i` where the pattern matches, or reports none |
| Names.Search | motogp/scraper.py:323 | `re.search` finds the leftmost match, and no earlier position matches |
| Names.TryFromWholeSuffix | motogp/scraper.py:323 | a run reaching the end, or the last character, makes the match succeed up to the end |
| Names.TryFromFails | motogp/scraper.py:323 | a run that stops two or more characters before the end cannot be extended to a match |
| Names.MatchAtClosedForm | motogp/scraper.py:323 | on a name without newlines, the pattern matches at `i` exactly when it fits there (a space, a capital and then only allowed characters before the last character); the match runs to the end |
| Names.SplitName | motogp/scraper.py:321-332 | an accepted name has a non-empty first name and a non-empty last name |
| Names.LastNameNeverEmpty | motogp/scraper.py:323-330 | the length guard on the last name never fires: a match always leaves a non-empty last name |
| Names.SplitNameMiss | motogp/scraper.py:323-327 | no match anywhere means the row is skipped |
| Names.FirstNameWhenNotFound | motogp/scraper.py:329 | when the lower-cased last name does not occur in the name, the first name is the whole name minus its last character |
| Names.FindMissingChar | motogp/scraper.py:329 | a pattern holding a character the string lacks is not found |
| Names.SearchAtLeftmost | motogp/scraper.py:323 | on a name without newlines, the search returns the leftmost position where the pattern fits, and the match runs to the end |
| Names.SplitNameAtLeftmost | motogp/scraper.py:321-332 | on a name without newlines, with `i` the leftmost position where the pattern fits: the last name is the whole tail from `i`, stripped and lower-cased, and is never empty; the row is kept exactly when the first name, the text before the last name's first occurrence, is non-empty |
| Names.SplitNameNoFit | motogp/scraper.py:323-327 | on a name without newlines, a name the pattern fits nowhere is skipped |
| Names.ExampleInitialInLastName | motogp/scraper.py:321-332 | `Dummy S RIDERSIX` splits to first name `dummy s ridersi` and last name `s ridersix`: the match starts at the initial |
| Options.Values | motogp/scraper.py:47-54 | the options are the `value`s of the widget's children that carry one, and nothing else |
| Options.IndexOf | motogp/scraper.py:62-67 | the first position of an element |
| Options.Dedup | motogp/scraper.py:57-59 | an ordered dictionary's keys are distinct and hold exactly the input's elements |
| Options.DedupFirstOccurrenceOrder | motogp/scraper.py:57-59 | the keys come in the order of their first occurrences |
| Options.DedupOrderIff | motogp/scraper.py:57-59 | one key precedes another exactly when its first occurrence in the input comes first |
| Options.AfterOfDistinct | motogp/scraper.py:60-67 | in a list of distinct options, those kept are exactly the ones after the cutoff |
| Options.AfterDedupMembership | motogp/scraper.py:55-68 | with a cutoff present, an option is returned if and only if its first occurrence comes after the cutoff's; the cutoff itself never is |
| Options.AbsentCutoffKeepsNothing | motogp/scraper.py:55-68 | a cutoff missing from the menu returns no option at all |
| Options.Distinct | motogp/scraper.py:57-59 | the loop filling the ordered dictionary computes its keys |
| Options.CollectValues | motogp/scraper.py:47-54 | the loop over the widget's children collects their values, skipping the ones that raise `TypeError` |
| Options.AcceptAfter | motogp/scraper.py:60-67 | the `start_accepting` loop keeps what follows the cutoff |
| Options.GetOptions | motogp/scraper.py:33-71 | the options are distinct, are the menu's values without a cutoff and the values after the cutoff with one; a missing widget gives none |
| Options.WidgetValues | motogp/scraper.py:45-54 | a widget missing from the page (`AttributeError` on `None`) gives no values |
| Options.After | motogp/scraper.py:60-67 | the options strictly after the cutoff, and none when the cutoff is absent |
| Table.ResultsLineCount | motogp/scraper.py:130-148 | the count is `</tr>` occurrences minus unwanted-text occurrences inside the `tbody` slice; without texts to skip it is the row count |
| Table.LineCountBound | motogp/scraper.py:130-148 | the line count is at most a fifth of the page length |
| Table.CountZeroWhenCharMissing | motogp/scraper.py:144-147 | a text with a character the slice lacks counts zero |
| Table.SumCountsAtLeastLast | motogp/scraper.py:145-147 | the skip count is at least the count of the last unwanted text |
| Table.LineCountMayBeNegative | motogp/scraper.py:130-148 | a table holding only an `Excluded` cell and no `</tr>` counts -1 lines |
| Table.KeepWanted | motogp/scraper.py:105-106 | the header keeps exactly the column names that are not unwanted texts |
| Table.Texts | motogp/scraper.py:120 | a row is the texts of its cells, in order |
| Table.StepKeepsRowsOk | motogp/scraper.py:113-125 | one iteration of the walk keeps every gathered row `col_count` cells wide and made of consecutive cells |
| Table.WalkFromOk | motogp/scraper.py:113-125 | however the walk ends, it holds no more rows than the line count, each `col_count` consecutive cells; it finishes at the last cell, at the line count or at a non-breaking-space cell, and spins only on a row that would run past the last cell |
| Table.WalkFromUnfold | motogp/scraper.py:113-125 | a walk that moves continues from its next state |
| Table.RowTexts | motogp/scraper.py:118-120 | the texts of the `col_count` cells starting at the current one |
| Table.StepCells | motogp/scraper.py:114-125 | one pass of the loop body is one `Step`; it is stuck exactly when the step changes nothing, and otherwise adds a row or moves on |
| Table.WalkCells | motogp/scraper.py:109-125 | the `while` loop computes the walk's outcome, and returns only well-formed rows |
| Table.GetResultsFrom | motogp/scraper.py:75-127 | a page parses exactly when the walk terminates; the result carries the URL, the event information, the wanted header and the walk's rows |
| Table.TbodySlice | motogp/scraper.py:141-144 | the `tbody` slice, with a failed `find` used as index -1 as Python does |
| Table.SumCounts | motogp/scraper.py:145-147 | the sum of the occurrence counts of the unwanted texts in the slice |
| Table.LineCount | motogp/scraper.py:144-148 | `</tr>` count minus the skip count |
| Table.Continues | motogp/scraper.py:113 | the loop condition: a cell remains, the table with its header is no longer than the line count, and the cell is not the lone-nbsp end marker |
| Table.Step | motogp/scraper.py:114-125 | one pass: an unwanted cell is stepped over; otherwise the next `col_count` cells form a row; with too few cells left the `IndexError` is swallowed and nothing changes |
| Table.WalkFrom | motogp/scraper.py:113-125 | the walk from a state until the condition fails, or `Spins` when a pass changes nothing |
| Table.Parse | motogp/scraper.py:75-127 | `get_results_from(url)`: the URL, the event information, the wanted header and the rows, or a walk that never ends |
| Web.Fetch | motogp/scraper.py:42-43 | the page the site holds at a URL, or an empty page |
| Web.Widget | motogp/scraper.py:45 | `s.find(id=tag)`: the children of the widget with that id, if the page has one |
| Schema.RiderKey | motogp/models.py:117-118 | `Rider.__str__`: the key the charts group a rider's results under |
| Schema.RiderKeyShape | motogp/models.py:117-118 | a rider's key is the upper-cased first initial, `. ` and the upper-cased last name, in that order, and never a reserved chart key |
| Schema.RiderKeyNotInjective | motogp/models.py:117-118 | two different riders can share a key |
| Schema.SeasonIndex | motogp/scraper.py:217 | `Season.objects.get(year=...)` finds the first season with that year, or reports none |
| Schema.SeasonIndexFrom | motogp/scraper.py:217 | the search from a position finds the first matching season |
| Schema.EventIndex | motogp/models.py:153 | `Event.objects.get(season=..., event_location=...)` finds the first such event, or reports none |
| Schema.EventIndexFrom | motogp/models.py:153 | the search from a position finds the first matching event |
| Schema.EmptyValid | motogp/models.py:13-344 | the empty database satisfies the key invariants |
| Schema.WithSeason | motogp/scraper.py:254 | get-or-create of a season: afterwards it exists, an existing one changes nothing and a new one is appended with no category |
| Schema.WithLocation | motogp/scraper.py:255 | get-or-create of a location: afterwards it exists, and nothing else changes |
| Schema.WithCategory | motogp/scraper.py:256 | get-or-create of a category: afterwards it exists, and nothing else changes |
| Schema.LinkSeason | motogp/scraper.py:257 | `y.categories.add(cat)` puts the category on the season and keeps every season's year |
| Schema.WithEvent | motogp/scraper.py:258 | get-or-create of an event: afterwards it exists, an existing one changes nothing and a new one is appended |
| Schema.LinkEvent | motogp/scraper.py:259 | `e.categories.add(cat)` puts the category on the event and keeps every event's key |
| Schema.FindSession | motogp/scraper.py:292-297 | the lookup finds a session matching type, flag, category, event and URL, or proves there is none |
| Schema.WithSession | motogp/scraper.py:292-297 | get-or-create of a session: a found one changes nothing; a new one gets a fresh id and is appended |
| Schema.WithSessionAgain | motogp/scraper.py:292-297 | a second get-or-create of the same session finds the one the first created or found, and creates nothing |
| Schema.WithRider | motogp/scraper.py:333-338 | get-or-create of a rider: afterwards the rider exists, and nothing else changes |
| Schema.WithTeam | motogp/scraper.py:342 | get-or-create of a team: afterwards it exists, and nothing else changes |
| Schema.WithBrand | motogp/scraper.py:343 | get-or-create of a brand: afterwards it exists, and nothing else changes |
| Schema.WithResult | motogp/scraper.py:348-349 | saving a result appends it and changes nothing else |
| Schema.KeepSessions | motogp/scraper.py:263-290 | the surviving sessions are exactly those not matched by the restart filter |
| Schema.KeepResults | motogp/scraper.py:270-271 | the surviving results are exactly those whose session survives (cascade delete) |
| Schema.DeleteSessions | motogp/scraper.py:263-290 | deleting the filtered sessions removes them and their results and changes nothing else |
| Schema.SeasonIndexFromYears | motogp/scraper.py:257 | adding categories to seasons does not change which season a year finds |
| Schema.EventIndexFromKeys | motogp/scraper.py:259 | adding categories to events does not change which event a key finds |
| Schema.KeepSessionsAll | motogp/scraper.py:263-290 | with nothing to replace, the filter keeps every session |
| Schema.KeepResultsAll | motogp/scraper.py:270-271 | with every session kept, every result is kept |
| Schema.PointSession | motogp/models.py:64 | the point session of a category at an event, if any, is one that exists with that flag |
| Schema.Valid | motogp/models.py:13-344 | the integrity the database keeps: seasons with distinct years and stored categories, unique events of stored seasons and locations, sessions with distinct ids of stored events and categories, results of stored rows, and named riders |
| Schema.SeasonsOk | motogp/models.py:27-29 | seasons have distinct years, and link only stored categories, each once |
| Schema.EventsOk | motogp/models.py:135-138 | no two events share a season and location, and each refers to a stored season and location |
| Schema.SessionsOk | motogp/models.py:310-315 | session ids are distinct and below the next id, and each session refers to a stored event and category |
| Schema.ResultsOk | motogp/models.py:326-333 | every result refers to a stored rider, team, brand and session |
| Schema.RidersNamed | motogp/scraper.py:330-338 | stored riders have a non-empty first and last name |
| Schema.Named | motogp/models.py:117-118 | every stored result's rider has a first name, so `first_name[0]` exists |
| Schema.SessionMatches | motogp/scraper.py:292-297 | the fields `Session.objects.get_or_create` looks a session up by |
| Schema.Replaced | motogp/scraper.py:265-269 | the sessions a restart filter selects: of this event and category, with this flag and type |
| Schema.OnePointSessionEach | motogp/models.py:64 | at most one point session per event and category, so `get` never finds two |
| Schema.ValidNamed | motogp/models.py:117-118 | in a valid database every result's rider has a first name, so every rider key exists |
| Schema.WithSeasonValid | motogp/scraper.py:254 | get-or-create of a season keeps the database valid |
| Schema.WithLocationValid | motogp/scraper.py:255 | get-or-create of a location keeps the database valid |
| Schema.WithCategoryValid | motogp/scraper.py:256 | get-or-create of a category keeps the database valid |
| Schema.LinkSeasonValid | motogp/scraper.py:257 | adding a stored category to a season keeps the database valid |
| Schema.WithEventValid | motogp/scraper.py:258 | get-or-create of the event of a stored season and location keeps the database valid |
| Schema.LinkEventValid | motogp/scraper.py:259 | adding a stored category to an event keeps the database valid |
| Schema.AppendSessionValid | motogp/scraper.py:292-297 | a new session with the next id, a stored event and a stored category keeps the database valid |
| Schema.WithSessionValid | motogp/scraper.py:292-297 | get-or-create of a session of a stored event and category keeps the database valid, and its session is stored |
| Schema.KeepSessionsIds | motogp/scraper.py:263-290 | the sessions the restart filter keeps still have distinct ids |
| Schema.DeleteSessionsValid | motogp/scraper.py:263-290 | deleting the replaced sessions with their results keeps the database valid |
| Schema.WithRiderValid | motogp/scraper.py:333-338 | get-or-create of a rider with a first and a last name keeps the database valid |
| Schema.WithTeamValid | motogp/scraper.py:342 | get-or-create of a team keeps the database valid |
| Schema.WithBrandValid | motogp/scraper.py:343 | get-or-create of a brand keeps the database valid |
| Schema.WithResultValid | motogp/scraper.py:348-349 | saving a result of a stored rider, team, brand and session keeps the database valid |
| Series.Nones | motogp/models.py:191 | `[None for _ in range(n)]` has `n` empty slots |
| Series.KeyIndex | motogp/models.py:189-190 | `k in d` finds the first pair with that key, or none |
| Series.Lookup | motogp/models.py:189-193 | `d.get(k)` succeeds exactly when some pair has the key, and returns a stored value |
| Series.Keys | motogp/models.py:90-96 | the keys of a dictionary, in order |
| Series.LookupOfMember | motogp/models.py:189-193 | with distinct keys, a stored pair's key gives its value |
| Series.LookupUpdateOther | motogp/models.py:193 | overwriting one key's value leaves the other keys' values |
| Series.LookupAppendOther | motogp/models.py:191 | adding a key leaves the other keys' values |
| Series.DistinctCountsOnce | motogp/models.py:189-193 | with distinct keys no pair occurs twice |
| Series.PermutationKeepsLookup | motogp/models.py:90-96 | a re-ordering of a dictionary's items keeps its keys distinct and every key's value |
| Series.KeyIndexSameKeys | motogp/models.py:226-228 | changing values only does not move any key |
| Series.Put | motogp/models.py:193 | `d[k] = v` keeps the size or adds one pair |
| Series.PutSpec | motogp/models.py:193 | after `d[k] = v` the key holds `v`, every other key its old value, and distinct keys stay distinct |
| Menu.CatSet | motogp/models.py:364-366 | an event's category set holds exactly its categories |
| Menu.YearEntries | motogp/models.py:360-368 | `season_data[year]`: each event of the season under its location, with its categories |
| Menu.LocationEntries | motogp/models.py:375-383 | `event_data[location]`: each event at the location under its season, with its categories |
| Menu.SeasonData | motogp/models.py:355-368 | `season_data`: one entry per stored season |
| Menu.EventData | motogp/models.py:370-383 | `event_data`: one entry per stored location |
| Menu.MenuOf | motogp/models.py:349-386 | the menu `MenuOptions.save` computes from the database |
| Menu.YearEntriesSpec | motogp/models.py:355-366 | a season's entry holds exactly the locations of its events, each with that event's categories |
| Menu.LocationEntriesKeys | motogp/models.py:370-383 | a location's entry names only seasons that have an event there |
| Menu.LocationEntriesSpec | motogp/models.py:370-383 | a location's entry holds exactly the seasons of its events, each with that event's categories |
| Menu.SeasonDataSpec | motogp/models.py:355-366 | `season_data` is keyed by exactly the stored seasons' names, and each season's key holds that season's events |
| Menu.SeasonDataKeys | motogp/models.py:355-366 | every key of `season_data` is the name of a stored season |
| Menu.SeasonDataValues | motogp/models.py:355-366 | each stored season's name is a key holding that season's events by location |
| Menu.EventDataSpec | motogp/models.py:370-383 | `event_data` is keyed by exactly the stored locations |
| Menu.MenuTranspose | motogp/models.py:349-386 | a location is listed under a season if and only if the season is listed under the location, with the same categories |
| Menu.SeasonThenEvent | motogp/models.py:349-386 | a location listed under a season lists that season, with the same categories |
| Menu.EventThenSeason | motogp/models.py:349-386 | a season listed under a location lists that location, with the same categories |
| Menu.CategoriesOf | motogp/models.py:364-366 | the category loop builds the event's category set |
| Menu.BuildSeasonData | motogp/models.py:355-366 | the season loop builds `season_data` |
| Menu.BuildEventData | motogp/models.py:370-383 | the location loop builds `event_data` |
| Menu.BuildMenu | motogp/models.py:349-386 | `MenuOptions.save` builds the menu of the database |
| Menu.MenuIgnoresResults | motogp/models.py:349-386 | the menu depends only on seasons, locations and events |
| Store.Store.constructor | motogp/models.py:339-344 | a new store is empty and holds the default checkpoint (1993, empty event) and no menu |
| Store.Store.GetOrCreateSeason | motogp/scraper.py:254 | the store gets the season, and the checkpoint and menu are unchanged |
| Store.Store.GetOrCreateLocation | motogp/scraper.py:255 | the store gets the location, and the checkpoint and menu are unchanged |
| Store.Store.GetOrCreateCategory | motogp/scraper.py:256 | the store gets the category, and the checkpoint and menu are unchanged |
| Store.Store.AddSeasonCategory | motogp/scraper.py:257 | the season gets the category, and the checkpoint and menu are unchanged |
| Store.Store.GetOrCreateEvent | motogp/scraper.py:258 | the store gets the event, and the checkpoint and menu are unchanged |
| Store.Store.AddEventCategory | motogp/scraper.py:259 | the event gets the category, and the checkpoint and menu are unchanged |
| Store.Store.GetOrCreateSession | motogp/models.py:320-323 | the store gets the session; creating one saves a fresh menu, and finding one leaves the menu |
| Store.Store.DeleteSessionsWhere | motogp/scraper.py:265-271 | the matching sessions and their results go, and the checkpoint and menu are unchanged |
| Store.Store.GetOrCreateRider | motogp/scraper.py:333-338 | the store gets the rider, and the checkpoint and menu are unchanged |
| Store.Store.GetOrCreateTeam | motogp/scraper.py:342 | the store gets the team, and the checkpoint and menu are unchanged |
| Store.Store.GetOrCreateBrand | motogp/scraper.py:343 | the store gets the brand, and the checkpoint and menu are unchanged |
| Store.Store.SaveResult | motogp/scraper.py:348-349 | the result is appended, and the checkpoint and menu are unchanged |
| Store.Store.SaveScrapedEvent | motogp/scraper.py:182-183 | only the scraped-event field of the checkpoint changes |
| Store.Store.SaveScrapedSeason | motogp/scraper.py:193-194 | only the scraped-season field of the checkpoint changes |
| Store.Store.SaveChartedEvent | motogp/scraper.py:236-237 | only the charted-event field of the checkpoint changes |
| Store.Store.SaveChartedSeason | motogp/scraper.py:239-240 | only the charted-season field of the checkpoint changes |
| Ingest.ColumnMaps | motogp/scraper.py:298-316 | point sessions read the rider from column 3 and others from column 2, each later field one column further |
| Ingest.IsPointSession | motogp/scraper.py:260 | the sessions that score points: `RAC` and `RAC2` |
| Ingest.ColumnsFor | motogp/scraper.py:298-316 | the two column maps: point sessions carry one more leading column |
| Ingest.StoredType | motogp/scraper.py:263-290 | a restart is stored under the type it replaces: `RAC2` as `RAC`, `WUP2` as `WUP` |
| Ingest.Classify | motogp/scraper.py:319-346 | a row is skipped when too short or its name does not split; it stores a result holding the row's fields when every column exists; it crashes when a name splits but a later column is missing |
| Ingest.ApplyCrash | motogp/scraper.py:333-343 | a crashing row may add its rider, team and brand but no result |
| Ingest.ApplyTake | motogp/scraper.py:333-350 | a stored row appends exactly one result with the row's fields, the session and the position |
| Ingest.Kinds | motogp/scraper.py:319 | every row is classified on its own |
| Ingest.IngestKinds | motogp/scraper.py:318-350 | the row loop touches only riders, teams, brands and results |
| Ingest.Accepted | motogp/scraper.py:330-332 | the accepted rows are all rows that store a result |
| Ingest.Numbered | motogp/scraper.py:318-350 | accepted rows get consecutive positions from the starting one |
| Ingest.IngestKindsResults | motogp/scraper.py:318-350 | the results added are the accepted rows before the first crash, numbered 1, 2, … with skipped rows taking no position |
| Ingest.IngestKindsCrash | motogp/scraper.py:339-346 | the loop crashes exactly when some row has a name but lacks a later column |
| Ingest.IngestKindsReuses | motogp/scraper.py:333-343 | rows whose riders, teams and brands are stored add none |
| Ingest.IngestKindsGrows | motogp/scraper.py:333-343 | riders, teams and brands are never removed |
| Ingest.IngestKindsStores | motogp/scraper.py:333-343 | after a loop without a crash every row's rider, team and brand is stored |
| Ingest.KindsTwice | motogp/scraper.py:318-350 | running the rows twice adds no rider, team or brand the second time and adds every accepted row again |
| Ingest.Linked | motogp/scraper.py:254-259 | the get-or-create prefix leaves sessions, results, riders, teams and brands alone |
| Ingest.Replace | motogp/scraper.py:263-290 | the database after the sessions a restart replaces are deleted with their results |
| Ingest.IngestSpec | motogp/scraper.py:243-350 | `insert_in_database(season, event, category, session, results)` on a database: the new database, the session used, whether it was created, and whether a row crashed |
| Ingest.LinkedAgain | motogp/scraper.py:254-290 | after an ingest, the get-or-create prefix and the restart deletion change nothing more |
| Ingest.SessionAgain | motogp/scraper.py:292-297 | after an ingest, the get-or-create of its session finds the session it used |
| Ingest.LinkedValid | motogp/scraper.py:254-259 | the get-or-create prefix keeps the database valid |
| Ingest.ReplaceValid | motogp/scraper.py:254-290 | after the prefix and the restart deletion the database is valid and holds the event and the category |
| Ingest.ApplyTakeValid | motogp/scraper.py:333-350 | a stored row keeps the database valid and leaves the sessions alone |
| Ingest.ApplyCrashValid | motogp/scraper.py:333-343 | a crashing row keeps the database valid |
| Ingest.IngestKindsValid | motogp/scraper.py:318-350 | the row loop keeps the database valid |
| Ingest.IngestValid | motogp/scraper.py:243-350 | an ingest keeps the database valid and leaves its session stored |
| Ingest.IngestKeepsValid | motogp/scraper.py:243-350 | `insert_in_database` keeps a valid database valid |
| Ingest.LinkedIsLinked | motogp/scraper.py:254-259 | afterwards the season, location, category, event and both category links exist, and a second time changes nothing |
| Ingest.RestartWithoutPredecessor | motogp/scraper.py:263-276 | a restart with no earlier session of that type is ingested exactly like the plain type: nothing is skipped |
| Ingest.RestartReplaces | motogp/scraper.py:263-297 | after a restart the only session of the restarted type is the new one, stored under the plain type |
| Ingest.NewSessionCreated | motogp/scraper.py:292-297 | a page whose session matches none stored creates one, appended last with the page's URL |
| Ingest.CreatedAlone | motogp/scraper.py:292-297 | when no stored session has the type and flag, get-or-create appends the new session and it is the only one that matches |
| Ingest.NoOtherUrl | motogp/scraper.py:292-297 | an ingest adds no session under another URL |
| Ingest.SecondUrlSecondSession | motogp/scraper.py:292-297 | the same session scraped from another URL makes a second Session |
| Ingest.IngestAgain | motogp/scraper.py:243-350 | a second ingest of the same page (not a restart) links nothing new and reuses its session; only the rows are stored again |
| Ingest.ReingestSamePage | motogp/scraper.py:243-350 | ingesting a page twice reuses every entity and the session, and stores every accepted row a second time |
| Ingest.InsertRows | motogp/scraper.py:318-350 | the row loop over the store does what the row spec says |
| Ingest.Insert | motogp/scraper.py:243-350 | `insert_in_database` changes the store as the ingest spec says and keeps a valid store valid; a new session saves a fresh menu; the checkpoint is unchanged |
| Standings.Points | motogp/models.py:32-48 | a position earns at most 25 points, and some points exactly when it is 1 to 15 |
| Standings.Carry | motogp/models.py:69-74 | the slot a line gets before a round: its last total when it has more than one entry, else 0 |
| Standings.SeriesKey | motogp/models.py:93 | the sort key `x[-1]` of an item `(rider, series)`: the whole series |
| Standings.PointsDecrease | motogp/models.py:32-48 | a better position never earns fewer points, and strictly more inside the top 15 |
| Standings.Zeros | motogp/models.py:71-75 | a new rider's series is zeros |
| Standings.Prepare | motogp/models.py:62-70 | every line gets its new slot by the carry rule |
| Standings.Score | motogp/models.py:71-83 | scoring keeps every series one slot per round |
| Standings.ScoreAll | motogp/models.py:71-83 | scoring a session keeps every series one slot per round |
| Standings.Reorder | motogp/models.py:90-96 | the reorder is a permutation in descending series order |
| Standings.Round | motogp/models.py:59-96 | a round adds one slot to every series |
| Standings.WidthPermuted | motogp/models.py:90-96 | reordering keeps every series' length |
| Standings.ScoreKeepsDistinct | motogp/models.py:71-83 | scoring keeps rider keys distinct |
| Standings.ScoreAllKeepsDistinct | motogp/models.py:71-83 | scoring a session keeps rider keys distinct |
| Standings.LastPoints | motogp/models.py:71-83 | the points a rider takes from a session come from its last line there, if any |
| Standings.NextSeries | motogp/models.py:62-83 | a rider has a series after a round exactly when it had one before or scores in it |
| Standings.ScoreOther | motogp/models.py:71-83 | scoring a rider leaves every other rider's series |
| Standings.ScoreSame | motogp/models.py:71-83 | a scored rider's last slot becomes its previous total plus the points |
| Standings.NextSeriesStep | motogp/models.py:62-83 | one more line for a rider continues its next series |
| Standings.PrepareLookup | motogp/models.py:62-70 | preparing does for every rider what the round rule says with no points yet |
| Standings.ScoreAllFrom | motogp/models.py:71-83 | scoring a session gives every rider the round rule's series |
| Standings.ScoreAllSeries | motogp/models.py:59-83 | after a round each rider's series is the old one carried forward plus the points it took |
| Standings.RoundSeries | motogp/models.py:59-96 | a round keeps keys distinct and gives each rider the round rule's series |
| Standings.FirstRoundOnlyDropsToZero | motogp/models.py:62-70 | a rider who misses the second round gets 0 there instead of the first round's total |
| Standings.ScoreNew | motogp/models.py:71-75 | a new rider's series is zeros then the points |
| Standings.ScoreKnown | motogp/models.py:76-83 | a known rider's last slot becomes the previous total plus the points |
| Standings.FirstScore | motogp/models.py:71-75 | in the first round a new rider's series is just the points |
| Standings.ExampleOrderIsBySeries | motogp/models.py:59-96 | two rounds give A [25, 41], B [20, 45], C [16, 36] in that order, not by total |
| Standings.SeasonEvents | motogp/models.py:52-53 | a season's events are exactly the stored events of its year |
| Standings.PointEvents | motogp/models.py:60-66 | the season's events, in order, that have a point session of the category |
| Standings.CategoryChart | motogp/models.py:98-102 | one category's chart: `{year}-{cat}.svg`, titled `{year} {cat} Championship` |
| Standings.Entries | motogp/models.py:71 | a session gives at most one entry per result |
| Standings.Standings | motogp/models.py:49-96 | the standings keep one slot per counted round |
| Standings.StandingsStep | motogp/models.py:59-96 | one event keeps one slot per counted round |
| Standings.StandingsShape | motogp/models.py:49-96 | the standings have one slot per event with a point session, distinct riders, and descending series order |
| Standings.Columns | motogp/models.py:54-58 | the columns name only events of the category |
| Standings.SeasonCharts | motogp/models.py:31-102 | the season gives no charts exactly when it has an event and a category missing from the store; otherwise one chart per category |
| Standings.PrepareSlots | motogp/models.py:62-70 | the slot loop prepares every line |
| Standings.ScoreOne | motogp/models.py:71-83 | one result line scores as the spec says |
| Standings.EntriesPrefix | motogp/models.py:71 | the entries of one more result extend the entries |
| Standings.ScoreSession | motogp/models.py:71-83 | the result loop scores the session |
| Standings.EventRound | motogp/models.py:59-96 | the body of the event loop is one standings step |
| Standings.CategoryStandings | motogp/models.py:49-96 | the event loop computes the category's standings |
| Standings.CategoryColumns | motogp/models.py:50-58 | the column loop lists the events holding the category, and stops with `DoesNotExist` exactly when the category is not stored and the season has an event |
| Standings.CategoryCharts | motogp/models.py:59-102 | one chart per category, named `{year}-{cat}.svg`, over the category's columns and standings |
| Standings.CreateSeasonChart | motogp/models.py:31-102 | `create_season_chart` computes the season's charts |
| EventHistory.Placings | motogp/models.py:187-193 | a session gives at most one placing per result |
| EventHistory.YearVisits | motogp/models.py:147-162 | a year without a season, or without an event at the location, is skipped; otherwise its categories with a point session are visited |
| EventHistory.CategoryVisits | motogp/models.py:157-162 | the season's categories, in order, that have a point session at the event |
| EventHistory.Visits | motogp/models.py:147-162 | the visits of the walk over the years, in order |
| EventHistory.Relabel | motogp/models.py:164-176 | the `if`/`elif` chain: the label a category goes under, and the updated presence flags |
| EventHistory.FlagsAfter | motogp/models.py:144-176 | the presence flags after visiting categories in order |
| EventHistory.Label | motogp/models.py:164-176 | the label of a visited category, under the flags of the categories before it |
| EventHistory.Prepend | motogp/models.py:189-193 | one result: a new rider starts with `count - 1` empty slots, and the position is put in front |
| EventHistory.PrependAll | motogp/models.py:187-193 | the result loop over one session |
| EventHistory.PositionsOf | motogp/models.py:187-193 | the positions of one rider in a session, as they come |
| EventHistory.NewBlock | motogp/models.py:177-178 | a label's block when first created: titled `{location} {label} Results History`, with no columns |
| EventHistory.VisitBlocks | motogp/models.py:177-198 | one visit: the label's session is counted, its year goes in front of the columns when it has results, its positions are prepended and every series is padded |
| EventHistory.History | motogp/models.py:147-198 | the blocks by label, in order of first use, and the flags, after all the visits |
| EventHistory.EventCharts | motogp/models.py:140-204 | `create_event_history_chart(season_count)`: one chart per label |
| EventHistory.Years | motogp/models.py:147 | the years walked are the event's year and `season_count` before it, newest first |
| EventHistory.CategoryVisit | motogp/models.py:149-161 | a category of a year gives at most one visit |
| EventHistory.FlagsAfterSpec | motogp/models.py:164-176 | the presence flags are set exactly by `MotoGP`, `Moto2` and `moto3` |
| EventHistory.LabelSpec | motogp/models.py:164-176 | 500cc becomes MotoGP and 250cc Moto2 only after the newer class was seen; 125cc becomes Moto3 only after `moto3`; nothing else is relabelled |
| EventHistory.Never125ToMoto3 | motogp/models.py:169-176 | without a lower-case `moto3`, 125cc keeps its label |
| EventHistory.Pad | motogp/models.py:195-198 | padding brings a series up to the count |
| EventHistory.PadAll | motogp/models.py:195-198 | every series is padded on its own |
| EventHistory.PrependAllSeries | motogp/models.py:187-193 | after a session each rider's series starts with its new positions |
| EventHistory.PrependLookup | motogp/models.py:189-193 | one result puts its position in front of its rider's series, or starts a new series of empty slots; other riders are untouched |
| EventHistory.PadAllLookup | motogp/models.py:195-198 | padding keeps which riders have a series |
| EventHistory.PrependAllKeys | motogp/models.py:187-193 | prepending keeps rider keys distinct |
| EventHistory.PositionsOfOnce | motogp/models.py:160-161 | with one result per rider a rider has at most one position per session |
| EventHistory.SessionShape | motogp/models.py:185-198 | after a session, keys are distinct and every series has the count's length |
| EventHistory.SessionRows | motogp/models.py:185-198 | after a session a rider's series is its position before the old series, or a gap before it |
| EventHistory.Cats | motogp/models.py:164 | the category names of the visits, in order |
| EventHistory.HistorySnoc | motogp/models.py:147-198 | one more visit relabels it by the flags so far and updates its block |
| EventHistory.HistoryStep | motogp/models.py:147-198 | one more visit's label depends only on the categories visited before |
| EventHistory.HistoryFlags | motogp/models.py:164-176 | the flags after the visits depend only on their categories |
| EventHistory.BlockOf | motogp/models.py:177-182 | a label's block is the stored one or a new titled one |
| EventHistory.VisitShape | motogp/models.py:177-198 | a visit keeps every block well formed |
| EventHistory.HistoryShape | motogp/models.py:140-198 | every block has distinct riders and one slot per counted visit |
| EventHistory.VisitSeries | motogp/models.py:177-198 | a visit changes only its own block, counts one more visit there, and prepends riders' positions |
| EventHistory.PrependRows | motogp/models.py:187-193 | the result loop prepends the positions |
| EventHistory.PadSeries | motogp/models.py:197-198 | the inner `while` prepends empty slots until the series has `count` entries |
| EventHistory.PadRows | motogp/models.py:195-198 | the padding loop pads every series |
| EventHistory.VisitSession | motogp/models.py:177-198 | one visit updates the blocks as the spec says |
| EventHistory.VisitCategory | motogp/models.py:153-198 | the body of the category loop is one visit |
| EventHistory.VisitCategories | motogp/models.py:153-198 | the category loop visits every category with a point session |
| EventHistory.VisitYear | motogp/models.py:147-198 | the body of the year loop visits its event |
| EventHistory.ChartsOf | motogp/models.py:200-204 | one chart per block, `{location}-{label}.svg` |
| EventHistory.VisitYears | motogp/models.py:147-198 | the year loop computes the history |
| EventHistory.CreateEventHistoryChart | motogp/models.py:140-204 | `create_event_history_chart` computes the location's charts |
| SessionHistory.EventSessions | motogp/models.py:208 | the event's sessions are exactly those of its year and location |
| SessionHistory.EventCategories | motogp/models.py:208 | the keys of `results`: each category of the event's sessions once, in order of first appearance |
| SessionHistory.SessionOrder | motogp/models.py:214-219 | the session types tried: `RAC` alone before 2005, seven types in 2006 to 2008, nine otherwise, so 2005 gets the modern list |
| SessionHistory.IsPractice | motogp/models.py:241 | the sessions whose lap times feed the Q1 re-ranking: FP1, FP2, FP3 |
| SessionHistory.SessionOf | motogp/models.py:224 | a session of the event with that type and category |
| SessionHistory.OneSessionEach | motogp/models.py:224 | at most one session per event, category and type, so `get` never finds two |
| SessionHistory.TypedEntries | motogp/models.py:224-232 | the results of the session of a type, or none on `Session.DoesNotExist` |
| SessionHistory.Stored | motogp/models.py:248-250 | the position stored for a result: the raw one, plus ten in Q1 |
| SessionHistory.Enter | motogp/models.py:233-251 | one result: a new rider gets empty slots, a practice time is kept when faster, an early-race rider restarts its line, and its last slot holds the stored position |
| SessionHistory.EnterAll | motogp/models.py:231-251 | the result loop, carrying `last_position` |
| SessionHistory.Fastest | motogp/models.py:256-259 | `fastest_times`: lap time to rider, a later rider with an equal time replacing the earlier |
| SessionHistory.RankQ1 | motogp/models.py:254-265 | the ten best lap times take places 1 to 10 in Q1 |
| SessionHistory.Apply | motogp/models.py:226-278 | one session: the empty slots, the result loop, then the Q1, Q2 or race adjustment |
| SessionHistory.Step | motogp/models.py:222-280 | a found session is applied and counted; a missing one changes nothing |
| SessionHistory.SessionStep | motogp/models.py:222-280 | one type of the order: its session, if any, applied to the sheet |
| SessionHistory.Sessions | motogp/models.py:221-280 | the session loop of one category: the sheet and the session count |
| SessionHistory.ByLatest | motogp/models.py:287-290 | `by_latest_pos`: last slot to line, a later line with the same last slot replacing the earlier |
| SessionHistory.CategoryChart | motogp/models.py:282-301 | one category's chart: its columns, title and reordered lines |
| SessionHistory.CategoryChartOf | motogp/models.py:209-301 | the body of the category loop computes the category's chart |
| SessionHistory.CategoryNames | motogp/models.py:208 | one category name per session |
| SessionHistory.Columns | motogp/models.py:212 | the columns are at most one per session |
| SessionHistory.FindTyped | motogp/models.py:224 | the lookup finds a session of that type and category at the event, or proves there is none |
| SessionHistory.Entries | motogp/models.py:231-251 | a session gives at most one entry per result |
| SessionHistory.AppendSlot | motogp/models.py:226-228 | every line gets an empty slot |
| SessionHistory.SetLast | motogp/models.py:231-251 | setting a last slot keeps every key and length |
| SessionHistory.RankFrom | motogp/models.py:252-265 | re-ranking keeps every key and length |
| SessionHistory.Best | motogp/models.py:252-265 | at most ten times are ranked |
| SessionHistory.FillQ2 | motogp/models.py:266-270 | filling keeps every key and length |
| SessionHistory.FillRace | motogp/models.py:271-277 | the race fill keeps every key and length |
| SessionHistory.KeyBound | motogp/models.py:282-295 | a bound on the positions, so the reorder loop ends |
| SessionHistory.Ranked | motogp/models.py:282-295 | the reorder takes the lines at positions 1, 2, … and stops at the first gap |
| SessionHistory.SessionCharts | motogp/models.py:206-301 | one chart per category of the event's sessions |
| SessionHistory.SameKeysOk | motogp/models.py:226-277 | changing slots only keeps the sheet well formed |
| SessionHistory.SetLastOk | motogp/models.py:231-251 | setting a last slot keeps the sheet well formed |
| SessionHistory.SetLastLookup | motogp/models.py:231-251 | setting a last slot changes only that rider's last slot |
| SessionHistory.AdmitOk | motogp/models.py:231-240 | adding a rider keeps the sheet well formed and makes the rider known |
| SessionHistory.PutTimeOk | motogp/models.py:241-249 | storing a known rider's time keeps the sheet well formed |
| SessionHistory.EnterOk | motogp/models.py:231-251 | one result keeps the sheet well formed |
| SessionHistory.EnterAllOk | motogp/models.py:231-251 | the result loop keeps the sheet well formed |
| SessionHistory.RankFromOk | motogp/models.py:252-265 | re-ranking keeps the sheet well formed |
| SessionHistory.ApplyOk | motogp/models.py:226-277 | a session keeps the sheet well formed and adds one slot |
| SessionHistory.SessionsOk | motogp/models.py:220-277 | the sheet has one slot per session found, and no session found means an empty sheet |
| SessionHistory.Found | motogp/models.py:221-224 | the sessions found are exactly those of the list that exist |
| SessionHistory.EnterSpec | motogp/models.py:231-251 | one result sets its rider's last slot to the stored position, and no other rider's |
| SessionHistory.LastEntry | motogp/models.py:231-251 | a rider's last result of a session, if any |
| SessionHistory.EnterAllSlots | motogp/models.py:231-251 | after the result loop a rider's last slot is its last result's stored position |
| SessionHistory.EnterAllHighest | motogp/models.py:231-251 | the result loop tracks the highest stored position |
| SessionHistory.HighestBound | motogp/models.py:250-251 | the highest position bounds every stored one and is one of them or the start |
| SessionHistory.Highest | motogp/models.py:231-251 | `last_position` after the result loop: the largest stored position, from its start |
| SessionHistory.FastestLookup | motogp/models.py:252-258 | a lap time is a key of the fastest table exactly when some rider has it, and maps to such a rider |
| SessionHistory.EqualTimesCollapse | motogp/models.py:252-258 | two riders with equal times keep one entry, the later rider |
| SessionHistory.FastestValuesDistinct | motogp/models.py:252-258 | a rider appears at most once in the fastest table |
| SessionHistory.FastestRiders | motogp/models.py:252-258 | every rider in the fastest table has a time |
| SessionHistory.RankOf | motogp/models.py:259-265 | a rider's rank, if ranked, is its best time's place |
| SessionHistory.SetLastAny | motogp/models.py:231-265 | setting a last slot in any rows changes only that rider |
| SessionHistory.RankFromSpec | motogp/models.py:259-265 | after re-ranking a rider's last slot is its rank, or unchanged when unranked |
| SessionHistory.StrictlyAscending | motogp/models.py:252-265 | two different times ordered by their codes are strictly ordered |
| SessionHistory.BestSpec | motogp/models.py:252-265 | the ranked times are the ten best, or all when fewer, in strictly ascending order |
| SessionHistory.SameRiderSameTime | motogp/models.py:252-258 | with one time per rider, two lap times of one rider are equal |
| SessionHistory.RankQ1Spec | motogp/models.py:252-265 | in Q1 the rider of the `p`-th best practice time (at most ten) gets place `p + 1`, and every other line keeps what the result loop stored |
| SessionHistory.RankQ1Lookup | motogp/models.py:254-265 | at one rider, the ranking loop stores the place of the last best time that is the rider's, and otherwise changes nothing |
| SessionHistory.RankQ1Placed | motogp/models.py:254-265 | the rider of the `p`-th best time has a line, and its last slot becomes `p + 1` |
| SessionHistory.RankOfBest | motogp/models.py:259-265 | the `p`-th best time's rider ranks `p + 1` |
| SessionHistory.FillQ2Spec | motogp/models.py:266-270 | Q2 keeps earlier slots and fills an empty last slot from the one before |
| SessionHistory.Q2HasPrevious | motogp/models.py:266-270 | a rider left without a Q2 result always has a previous slot to copy |
| SessionHistory.FillRaceSpec | motogp/models.py:271-277 | riders missing from the race get places after the last, one after another in dictionary order |
| SessionHistory.MissingGrows | motogp/models.py:271-277 | the missing count grows along the rows, strictly past each missing rider |
| SessionHistory.RaceFillDistinct | motogp/models.py:271-277 | two missing riders get different places, both after the last finisher |
| SessionHistory.FillRaceCount | motogp/models.py:271-277 | the race fill keeps the number of lines and raises `last_position` once per rider missing from the race |
| SessionHistory.LastAt | motogp/models.py:282-295 | the last line with a given final position, if any |
| SessionHistory.ByLatestLookup | motogp/models.py:282-287 | the table by latest position maps each position to the last line ending there |
| SessionHistory.RankedLines | motogp/models.py:282-295 | the reorder lists the lines ending at 1, 2, … up to the first gap, once each |
| SessionHistory.CategoryChartSpec | motogp/models.py:206-301 | a category chart has one slot per session found, distinct riders, and line `i` ends at position `i + 1` |
| SessionHistory.PrepareSlots | motogp/models.py:226-228 | the slot loop appends empty slots |
| SessionHistory.StoreResults | motogp/models.py:231-251 | the result loop computes the entered sheet |
| SessionHistory.FastestTimes | motogp/models.py:252-258 | the time loop builds the fastest table |
| SessionHistory.SkipQ1Places | motogp/models.py:252-265 | the Q1 block computes the re-ranking |
| SessionHistory.PlaceFastest | motogp/models.py:259-265 | the placing loop ranks the ten best |
| SessionHistory.FillPrevious | motogp/models.py:266-270 | the Q2 loop fills from previous slots |
| SessionHistory.PlaceMissing | motogp/models.py:271-277 | the race loop places missing riders |
| SessionHistory.RunSession | motogp/models.py:226-277 | one session's block computes its spec |
| SessionHistory.TrySession | motogp/models.py:222-277 | the `try` around a session runs it or skips a missing one |
| SessionHistory.RunSessions | motogp/models.py:221-277 | the session loop computes the category's sheet |
| SessionHistory.Reorder | motogp/models.py:282-295 | the `while pos in by_latest` loop computes the reorder |
| SessionHistory.CreateSessionHistoryChart | motogp/models.py:206-301 | `create_session_history_chart` computes the event's charts |
| Traversal.Range | motogp/scraper.py:170 | `range(lo, hi)` counts up from `lo` |
| Traversal.SeasonUrl | motogp/scraper.py:174 | the season page: the base page and the season |
| Traversal.EventUrl | motogp/scraper.py:180 | the event page under the season page |
| Traversal.CategoryUrl | motogp/scraper.py:188 | the category page under the event page |
| Traversal.SessionUrl | motogp/scraper.py:191 | the session page under the category page |
| Traversal.OptionsAt | motogp/scraper.py:33-71 | `get_options(url, tag, only_accept_after=cutoff)` on the page the site holds at the URL |
| Traversal.EventOptions | motogp/scraper.py:174 | the events of a season after the cutoff |
| Traversal.CategoryOptions | motogp/scraper.py:180 | the categories of an event |
| Traversal.SessionOptions | motogp/scraper.py:188 | the sessions of a category |
| Traversal.CategoryTasks | motogp/scraper.py:185-192 | the category loop: each category's sessions, in menu order |
| Traversal.EventTasks | motogp/scraper.py:175-192 | one event: nothing when banned, else the event checkpoint when it has categories, then the categories' sessions |
| Traversal.EventsTasks | motogp/scraper.py:175-192 | the event loop: each event's steps, in menu order |
| Traversal.SeasonTasks | motogp/scraper.py:171-194 | one season: its events after the cutoff, then the season checkpoint |
| Traversal.YearsTasks | motogp/scraper.py:171-194 | the season loop: each season's steps, in order |
| Traversal.ScrapeTasks | motogp/scraper.py:163-194 | `scrape_data(start_season)`: from the stored season with the stored event as cutoff, or from the argument with none, up to the current year |
| Traversal.Do | motogp/scraper.py:181-194 | one step: a session's page is fetched and ingested, hanging on a walk that never ends and crashing on a row that raises; or a checkpoint field is written |
| Traversal.Run | motogp/scraper.py:151-194 | the steps done in order until one does not complete |
| Traversal.Save | motogp/scraper.py:182-194 | the checkpoint field a step writes |
| Traversal.Saves | motogp/scraper.py:182-194 | the checkpoint fields the steps write, in order |
| Traversal.DoValid | motogp/scraper.py:181-194 | every step keeps the database valid |
| Traversal.RunValid | motogp/scraper.py:151-194 | a run keeps the database valid, so every result's rider is named and every event refers to a stored season and location |
| Traversal.SessionTasks | motogp/scraper.py:190-192 | one scrape per session, in menu order |
| Traversal.RunAppend | motogp/scraper.py:151-194 | running two plans runs the second only after the first completes |
| Traversal.StopsAtPrefix | motogp/scraper.py:151-194 | a run that stops in a prefix stops there in the whole plan |
| Traversal.RunOne | motogp/scraper.py:190-192 | a one-step plan is that step |
| Traversal.RunSnoc | motogp/scraper.py:151-194 | one more step after a completed run is that step |
| Traversal.SessionTasksPrefix | motogp/scraper.py:190-192 | the sessions so far are a prefix of the plan |
| Traversal.CategoryTasksPrefix | motogp/scraper.py:185-192 | the categories so far are a prefix of the plan |
| Traversal.EventsTasksPrefix | motogp/scraper.py:175-192 | the events so far are a prefix of the plan |
| Traversal.YearsTasksPrefix | motogp/scraper.py:171-194 | the seasons so far are a prefix of the plan |
| Traversal.CategoryTasksMembers | motogp/scraper.py:185-192 | a category loop scrapes exactly the sessions its menus list |
| Traversal.EventTasksMembers | motogp/scraper.py:175-192 | an event's steps are exactly its checkpoint and the sessions its menus list, none for a banned event |
| Traversal.EventsTasksMembers | motogp/scraper.py:175-192 | the event loop covers exactly what its events reach |
| Traversal.SeasonTasksMembers | motogp/scraper.py:171-194 | a season's steps are its checkpoint and what its listed events reach |
| Traversal.YearsTasksMembers | motogp/scraper.py:170-194 | the scrape covers exactly the listed seasons' checkpoints and what their listed events reach |
| Traversal.ResumeSkipsStoredEvent | motogp/scraper.py:163-174 | on resume every event scraped is listed after the stored event in its season's menu, and never is the stored event |
| Traversal.FreshResumeOnlySavesSeasons | motogp/scraper.py:163-174 | from the default checkpoint, with no empty value in any event menu, the resume walk does exactly the season checkpoints from 1993 to the current year and nothing else |
| Traversal.DedupKeepsIndexOrder | motogp/scraper.py:57-59 | distinct-making keeps the order of first occurrences |
| Traversal.EventSavedFirst | motogp/scraper.py:180-192 | the event checkpoint is written before any of its sessions is scraped |
| Traversal.SavesAppend | motogp/scraper.py:181-194 | the checkpoint writes of two plans compose |
| Traversal.RunCheckpoint | motogp/scraper.py:151-194 | a completed run leaves the checkpoint its plan writes |
| Traversal.ScrapedSeasonIsLast | motogp/scraper.py:193-194 | a completed scrape leaves the last season walked as the scraped season |
| Traversal.ScrapeSession | motogp/scraper.py:191-192 | one session's fetch and insert is its step |
| Traversal.ScrapeCategory | motogp/scraper.py:188-192 | a category's fetch of its sessions and their scrape is its plan |
| Traversal.ScrapeSessions | motogp/scraper.py:190-192 | the session loop runs its plan and stops at the first failure |
| Traversal.ScrapeCategories | motogp/scraper.py:185-192 | the category loop runs its plan |
| Traversal.ScrapeEvent | motogp/scraper.py:176-192 | one event's steps run its plan |
| Traversal.ScrapeEvents | motogp/scraper.py:175-192 | the event loop runs its plan |
| Traversal.ScrapeSeason | motogp/scraper.py:172-194 | one season's steps run its plan |
| Traversal.ScrapeSeasons | motogp/scraper.py:171-194 | the season loop runs its plan |
| Traversal.ScrapeData | motogp/scraper.py:151-194 | `scrape_data` changes the store, checkpoint and menu as its plan runs, with the start and cutoff chosen from the checkpoint or the argument, and keeps a valid store valid with every result's rider named |
| Traversal.FromLocation | motogp/scraper.py:224-229 | the events from the first one held at the location on, and none when none is held there |
| Traversal.YearEvents | motogp/scraper.py:222-231 | the events charted in a year: the season's events, cut at the stored location in the first year of a resumed run |
| Traversal.FirstAt | motogp/scraper.py:224-229 | the first event at the location, or the end |
| Traversal.FromLocationSnoc | motogp/scraper.py:224-229 | the filter keeps every event from the first one at the location |
| Traversal.KeepFrom | motogp/scraper.py:224-229 | the filtering loop keeps the events from the first one at the location |
| Traversal.EventJobs | motogp/scraper.py:233-237 | one step per event, in order |
| Traversal.Jobs | motogp/scraper.py:233-240 | a season's steps: each of its events, then the season |
| Traversal.ChartJobs | motogp/scraper.py:214-240 | the steps over the years, up to the first year with no stored season |
| Traversal.ChartPlan | motogp/scraper.py:203-214 | `chart_data(start_year)`: from the stored season and location, or from the argument, up to the current year |
| Traversal.Draw | motogp/scraper.py:233-238 | the charts of one step: an event's history and session history; a season's standings, or none when they return early |
| Traversal.ChartSave | motogp/scraper.py:236-240 | the checkpoint field a step writes |
| Traversal.ChartSaves | motogp/scraper.py:233-240 | the checkpoint fields the steps write, in order |
| Traversal.Draws | motogp/scraper.py:233-238 | the charts of each step, in order |
| Traversal.DrawsAt | motogp/scraper.py:233-238 | step `k` draws its own job's charts, one chart set per step |
| Traversal.DrawsAppend | motogp/scraper.py:215-240 | drawing two plans draws the first then the second |
| Traversal.ChartSavesAppend | motogp/scraper.py:215-240 | the checkpoint writes of two plans compose |
| Traversal.ChartStepSnoc | motogp/scraper.py:233-240 | one more step draws after the others and writes its checkpoint field last |
| Traversal.ChartSavesSnoc | motogp/scraper.py:233-240 | one more step writes its checkpoint field last |
| Traversal.MissingCategoryDrawsNothing | motogp/models.py:53-58 | a season with an event and a category missing from the database draws no standings, and the run goes on |
| Traversal.StoredCategoriesDrawn | motogp/models.py:49-58 | a season whose categories are all stored draws one standings chart per distinct category |
| Traversal.ValidSeasonDrawn | motogp/models.py:49-58 | in a valid database no season's standings return early |
| Traversal.ChartJobsOne | motogp/scraper.py:215-240 | a stored season's plan is its events then the season |
| Traversal.ChartJobsAppend | motogp/scraper.py:215-240 | seasons all stored chain their plans |
| Traversal.SeasonsStored | motogp/scraper.py:215-221 | the number of leading stored seasons: the walk ends at the first missing one |
| Traversal.JobYearsAppend | motogp/scraper.py:238-240 | the seasons saved by two plans compose |
| Traversal.JobYearsEvents | motogp/scraper.py:233-237 | event steps save no season |
| Traversal.JobYearsJobs | motogp/scraper.py:233-240 | a year's steps save just that season |
| Traversal.ChartedSeasons | motogp/scraper.py:214-240 | the seasons charted are the years up to the first missing season |
| Traversal.ChartSavesSeason | motogp/scraper.py:239-240 | the charted-season checkpoint is the last season saved, or unchanged |
| Traversal.PlanSavesSeason | motogp/scraper.py:214-240 | the plan's checkpoints end on the last year before the first year with no stored season, or on the old season when there is none |
| Traversal.ResumeRedrawsStoredEvent | motogp/scraper.py:203-231 | on resume the first step redraws the stored event when its season has one at that location, and is the season chart otherwise |
| Traversal.DrawEvent | motogp/scraper.py:234-235 | an event draws its location's history and its session history |
| Traversal.DrawSeason | motogp/models.py:31-102 | a season draws its standings, or no chart when they return early on a missing category |
| Traversal.ChartEvents | motogp/scraper.py:233-237 | the event loop draws every event and saves each location, changing nothing in the database or menu |
| Traversal.ChartYear | motogp/scraper.py:222-240 | one year draws each of its events and then its season, and saves each step's checkpoint field |
| Traversal.EventsOfYear | motogp/scraper.py:222-231 | the events of a year, cut at the stored location in the first year |
| Traversal.ChartSeasons | motogp/scraper.py:215-240 | the year loop draws every step of its plan and writes the plan's checkpoint fields, up to the first missing season |
| Traversal.YearMissing | motogp/scraper.py:216-221 | a missing season ends the plan there |
| Traversal.YearStored | motogp/scraper.py:216-240 | a stored season extends the plan by its year |
| Traversal.YearStoredPrefix | motogp/scraper.py:216-240 | the years so far with a stored season make a prefix of the plan |
| Traversal.ChartJobsHead | motogp/scraper.py:215-240 | the first year ends the plan when its season is missing, and otherwise leads it with its own steps |
| Traversal.ChartData | motogp/scraper.py:197-240 | `chart_data` draws exactly what its plan draws, every step in order with none skipped, and leaves the checkpoint the plan writes, with the database and menu unchanged |

## Left out

- The HTTP requests, BeautifulSoup, the retry loop with its `sleep` and
  `exit`, and the `rate_limit` decorator. The site is a parameter: a map
  from URL to already-parsed page.
- `timezone.now()`: the current year is a parameter.
- The `settings.DEBUG` messages.
- The pygal charts and the SVG files. A chart is modelled as the data handed
  to the renderer: file name, title, column labels and series.
- The JSON text in `MenuOptions.JSON_menu` and its 2000-character limit.
  The menu is the nested dictionary before `json.dumps`.
- The type of seasons. The scraper builds season names with `str` and parses
  them back with `int`; the model keeps years as integers throughout, and
  `Text.IntToStringInjective` shows the two agree.
- `MultipleObjectsReturned`. The chart builders call `get`, which would raise
  it on a duplicate point session or session. `Standings.CreateSeasonChart`,
  `EventHistory.CreateEventHistoryChart`,
  `SessionHistory.CreateSessionHistoryChart` and `Traversal.ChartData`
  require that there be no such duplicate, rather than modelling the
  exception.
- Riders whose first name is empty. Stored riders always have one, because
  insertion checks it (`Ingest.Classify`), and every operation keeps the
  database valid (`Ingest.IngestValid`, `Traversal.RunValid`), so every
  result's rider is named (`Schema.ValidNamed`). The chart builders take
  `Named` as a precondition instead of modelling the `IndexError` of the
  rider's `__str__`.
- Options.Values: a child tag without a `value` attribute would raise
  `KeyError`. The model's widget children are option tags with a value and
  text nodes only.
- Text.LowerChar, Text.UpperChar: characters outside Latin-1 are left as they are; within Latin-1 the mapping is Python's, including `ß` to `SS`.
- Many-to-many relations (`Season.categories`, `Event.categories`) are read
  back in insertion order. The database's own row order is not modelled.
- Categories, locations and seasons are identified by name and year rather
  than by row id.
- Riders literally named `title`, `columns` or `times`. Their keys would
  clash with the chart builders' reserved entries, but `Schema.RiderKeyShape`
  shows a key always contains `. `, so the clash cannot happen.
- A walk that never ends is modelled as the `Hung` outcome of a finite
  function, not as a process that does not terminate.
- EventHistory.CreateEventHistoryChart: `chart_data` always passes the
  default `season_count` of 5, so `Traversal.Draw` fixes it at 5.
