/**
 * What the scraper sees of the results website once a page is fetched and
 * parsed: the option widgets by element id, the raw text, the event
 * information line, the header cells and the data cells of the results table.
 * Fetching, retrying and HTML parsing are outside the model; a site is a map
 * from URL to page.
 */
module Web {
  import opened Wrappers
  import opened Options

  /** A `<td>` cell: its text, and whether its contents are exactly one non-breaking space. */
  datatype Cell = Cell(text: string, nbspOnly: bool)

  datatype Page = Page(
    widgets: map<string, seq<Child>>,  // the element with that id and its children
    text: string,                      // the HTML source, for the row counter
    info: Option<string>,              // the text of the element of class padbot5
    headers: seq<string>,              // the texts of the th cells
    cells: seq<Cell>)                  // the td cells, in document order

  /** A page without any of the elements the scraper looks for. */
  const BlankPage := Page(map[], "", None, [], [])

  type Site = map<string, Page>

  function Fetch(site: Site, url: string): Page {
    if url in site then site[url] else BlankPage
  }

  /** `s.find(id=tag)`: the widget's children, or None when the page has no such element. */
  function Widget(page: Page, tag: string): Option<seq<Child>> {
    if tag in page.widgets then Some(page.widgets[tag]) else None
  }
}
