/**
 * The results-table reader of the scraper: `results_line_count` and the
 * cell walk of `get_results_from`, which cuts the flat sequence of table
 * cells into rows of the header's width.
 */
module Table {
  import opened Wrappers
  import opened Text
  import opened Web

  /** Cell texts that are annotations of the table, not results. */
  const Unwanted: seq<string> := ["Not Classified", "Fastest Lap: ", "Circuit Record Lap: ", "Best Lap:",
                                  "Pole Lap: ", "Not Finished 1st Lap", "Not Starting", "Excluded"]

  /** Sum of the occurrence counts of each item of `items` in `s`. */
  function SumCounts(s: string, items: seq<string>): nat {
    if items == [] then 0 else SumCounts(s, items[..|items| - 1]) + Count(s, items[|items| - 1])
  }

  /**
   * `source[start:end]`, where start is the index of `<tbody>` and end the
   * index just past `</tbody>`; -1 from a failed `find` is used as a Python
   * index, as the source does.
   */
  function TbodySlice(source: string): string {
    PySlice(source, Find(source, "<tbody>"), Find(source, "</tbody>") + |"</tbody>"|)
  }

  /** The value `results_line_count(text, to_skip)` computes. */
  function LineCount(source: string, toSkip: seq<string>): int {
    Count(TbodySlice(source), "</tr>") - SumCounts(TbodySlice(source), toSkip)
  }

  /** `results_line_count(source, to_skip)`. */
  method ResultsLineCount(source: string, toSkip: Option<seq<string>>) returns (n: int)
    ensures n == LineCount(source, toSkip.GetOr([]))
    ensures toSkip.None? ==> n == Count(TbodySlice(source), "</tr>")
  {
    var items := if toSkip.None? then [] else toSkip.value;
    var start := Find(source, "<tbody>");
    var end := Find(source, "</tbody>") + |"</tbody>"|;
    var segment := PySlice(source, start, end);
    var count := Count(segment, "</tr>");
    var skipCount := 0;
    for i := 0 to |items|
      invariant skipCount == SumCounts(segment, items[..i])
    {
      assert items[..i + 1][..i] == items[..i];
      skipCount := skipCount + Count(segment, items[i]);
    }
    assert items[..|items|] == items;
    n := count - skipCount;
  }

  /** The count is never more than the number of `</tr>` markers, which occupy five characters each. */
  lemma LineCountBound(source: string, toSkip: seq<string>)
    ensures LineCount(source, toSkip) <= |source| / 5
  {
    CountBound(TbodySlice(source), "</tr>");
  }

  /** A string lacking one of the characters of `sub` holds no occurrence of it. */
  lemma CountZeroWhenCharMissing(s: string, sub: string, k: nat)
    requires k < |sub| && sub[k] !in s
    ensures Count(s, sub) == 0
  {
    CountPositiveIffFound(s, sub);
  }

  lemma SumCountsAtLeastLast(s: string, items: seq<string>)
    requires items != []
    ensures SumCounts(s, items) >= Count(s, items[|items| - 1])
  {
  }

  /** A page that is only a table body: the slice is the whole page. */
  lemma ExampleTbody(src: string)
    requires src == "<tbody>Excluded</tbody>"
    ensures TbodySlice(src) == src
  {
    assert OccursAt(src, "<tbody>", 0);
    assert OccursAt(src, "</tbody>", 15);
    forall j | 0 <= j < 15 ensures !OccursAt(src, "</tbody>", j) {
      assert src[..16] == "<tbody>Excluded<";
      assert src[j + 1] in src[..16];
      assert src[j..j + 8][1] == src[j + 1];
    }
  }

  /** The example page has no `</tr>` marker: it lacks the letter `r`. */
  lemma ExampleNoRowMarker(src: string)
    requires src == "<tbody>Excluded</tbody>"
    ensures Count(src, "</tr>") == 0
  {
    assert "</tr>"[3] == 'r';
    assert 'r' !in src;
    CountZeroWhenCharMissing(src, "</tr>", 3);
  }

  /** The example page holds the annotation `Excluded`. */
  lemma ExampleHoldsExcluded(src: string)
    requires src == "<tbody>Excluded</tbody>"
    ensures Count(src, "Excluded") > 0
  {
    assert OccursAt(src, "Excluded", 7);
    CountPositiveIffFound(src, "Excluded");
  }

  /** A table body holding an annotation and no row marker gets a negative row count. */
  lemma LineCountMayBeNegative(src: string)
    requires src == "<tbody>Excluded</tbody>"
    ensures LineCount(src, Unwanted) < 0
  {
    ExampleTbody(src);
    ExampleNoRowMarker(src);
    ExampleHoldsExcluded(src);
    SumCountsAtLeastLast(src, Unwanted);
    assert Unwanted[|Unwanted| - 1] == "Excluded";
  }

  /** The header: the texts of the th cells that are not annotations. */
  function KeepWanted(texts: seq<string>): (r: seq<string>)
    ensures |r| <= |texts|
    ensures forall i :: 0 <= i < |r| ==> r[i] !in Unwanted && r[i] in texts
    ensures forall i :: 0 <= i < |texts| && texts[i] !in Unwanted ==> texts[i] in r
  {
    if texts == [] then []
    else
      var init := KeepWanted(texts[..|texts| - 1]);
      var t := texts[|texts| - 1];
      assert texts == texts[..|texts| - 1] + [t];
      if t in Unwanted then init else init + [t]
  }

  function Texts(cells: seq<Cell>): (r: seq<string>)
    ensures |r| == |cells| && forall i :: 0 <= i < |cells| ==> r[i] == cells[i].text
  {
    seq(|cells|, i requires 0 <= i < |cells| => cells[i].text)
  }

  /** The state of the cell walk: the index of the next cell, and the data rows emitted so far. */
  datatype Walk = Walk(row: nat, rows: seq<seq<string>>)

  /**
   * How the walk ends: the loop exits, or it reaches a state that its body
   * leaves unchanged, where the source's loop repeats forever.
   */
  datatype WalkOutcome = Finished(at: nat, rows: seq<seq<string>>) | Spins(at: nat, rows: seq<seq<string>>)

  /**
   * The loop condition: a cell remains, the table (header included) is not
   * longer than the row count, and the cell is not the lone-nbsp end marker.
   */
  predicate Continues(cells: seq<Cell>, rowsCount: int, w: Walk) {
    w.row < |cells| && |w.rows| + 1 <= rowsCount && !cells[w.row].nbspOnly
  }

  /**
   * One pass of the loop body: an annotation cell is stepped over; otherwise
   * the next `colCount` cells form a row; when fewer remain, the IndexError
   * is swallowed and nothing changes.
   */
  function Step(cells: seq<Cell>, colCount: nat, w: Walk): Walk
    requires w.row < |cells|
  {
    if cells[w.row].text in Unwanted then Walk(w.row + 1, w.rows)
    else if w.row + colCount <= |cells| then
      Walk(w.row + colCount, w.rows + [Texts(cells[w.row..w.row + colCount])])
    else w
  }

  /** The walk run from state `w` until the loop exits or stops making progress. */
  function WalkFrom(cells: seq<Cell>, colCount: nat, rowsCount: int, w: Walk): WalkOutcome
    requires w.row <= |cells|
    decreases if rowsCount - |w.rows| > 0 then rowsCount - |w.rows| else 0, |cells| - w.row
  {
    if !Continues(cells, rowsCount, w) then Finished(w.row, w.rows)
    else if Step(cells, colCount, w) == w then Spins(w.row, w.rows)
    else WalkFrom(cells, colCount, rowsCount, Step(cells, colCount, w))
  }

  /** `r` is the texts of `colCount` consecutive cells whose first is not an annotation. */
  ghost predicate IsWindow(cells: seq<Cell>, colCount: nat, r: seq<string>) {
    exists k :: 0 <= k < |cells| && k + colCount <= |cells| && cells[k].text !in Unwanted
                && r == Texts(cells[k..k + colCount])
  }

  function Budget(rowsCount: int): nat {
    if rowsCount > 0 then rowsCount else 0
  }

  /** What holds of the rows of every reachable state. */
  ghost predicate RowsOk(cells: seq<Cell>, colCount: nat, rowsCount: int, rows: seq<seq<string>>) {
    && |rows| <= Budget(rowsCount)
    && forall i :: 0 <= i < |rows| ==> |rows[i]| == colCount && IsWindow(cells, colCount, rows[i])
  }

  /**
   * What the outcome says: rows of the header's width taken from the cells,
   * at most the row count of them; a finished walk stopped at the end of the
   * cells, at the budget or at the end marker; a spinning walk sits at a
   * non-annotation cell from which fewer than `colCount` cells remain.
   */
  ghost predicate OutcomeOk(cells: seq<Cell>, colCount: nat, rowsCount: int, o: WalkOutcome) {
    && RowsOk(cells, colCount, rowsCount, o.rows)
    && (o.Finished? ==> o.at <= |cells| && (o.at == |cells| || |o.rows| + 1 > rowsCount || cells[o.at].nbspOnly))
    && (o.Spins? ==> o.at < |cells| && |o.rows| + 1 <= rowsCount && !cells[o.at].nbspOnly
                     && cells[o.at].text !in Unwanted && o.at + colCount > |cells|)
  }

  lemma StepKeepsRowsOk(cells: seq<Cell>, colCount: nat, rowsCount: int, w: Walk)
    requires w.row <= |cells| && Continues(cells, rowsCount, w) && RowsOk(cells, colCount, rowsCount, w.rows)
    ensures Step(cells, colCount, w).row <= |cells|
    ensures RowsOk(cells, colCount, rowsCount, Step(cells, colCount, w).rows)
  {
    var w' := Step(cells, colCount, w);
    if cells[w.row].text !in Unwanted && w.row + colCount <= |cells| {
      var r := Texts(cells[w.row..w.row + colCount]);
      assert w'.rows == w.rows + [r];
      assert IsWindow(cells, colCount, r);
      forall i | 0 <= i < |w'.rows| ensures |w'.rows[i]| == colCount && IsWindow(cells, colCount, w'.rows[i]) {
        if i < |w.rows| {
          assert w'.rows[i] == w.rows[i];
        }
      }
    }
  }

  lemma {:induction false} WalkFromOk(cells: seq<Cell>, colCount: nat, rowsCount: int, w: Walk)
    requires w.row <= |cells| && RowsOk(cells, colCount, rowsCount, w.rows)
    decreases if rowsCount - |w.rows| > 0 then rowsCount - |w.rows| else 0, |cells| - w.row
    ensures OutcomeOk(cells, colCount, rowsCount, WalkFrom(cells, colCount, rowsCount, w))
  {
    if Continues(cells, rowsCount, w) && Step(cells, colCount, w) != w {
      StepKeepsRowsOk(cells, colCount, rowsCount, w);
      WalkFromOk(cells, colCount, rowsCount, Step(cells, colCount, w));
    }
  }

  lemma WalkFromUnfold(cells: seq<Cell>, colCount: nat, rowsCount: int, w: Walk)
    requires w.row <= |cells| && Continues(cells, rowsCount, w) && Step(cells, colCount, w) != w
    ensures WalkFrom(cells, colCount, rowsCount, w) == WalkFrom(cells, colCount, rowsCount, Step(cells, colCount, w))
  {
  }

  /** `rider_result`: the texts of the `colCount` cells from `from` on. */
  method RowTexts(cells: seq<Cell>, from: nat, colCount: nat) returns (r: seq<string>)
    requires from + colCount <= |cells|
    ensures r == Texts(cells[from..from + colCount])
  {
    r := [];
    for col := 0 to colCount
      invariant r == Texts(cells[from..from + col])
    {
      assert cells[from..from + col + 1] == cells[from..from + col] + [cells[from + col]];
      r := r + [cells[from + col].text];
    }
  }

  /**
   * One pass of the loop body at cell `row`: skip an annotation, or take the
   * next row of cells; `stuck` is the swallowed IndexError, which changes nothing.
   */
  method StepCells(cells: seq<Cell>, colCount: nat, row: nat, rows: seq<seq<string>>)
    returns (row': nat, rows': seq<seq<string>>, stuck: bool)
    requires row < |cells|
    ensures Walk(row', rows') == Step(cells, colCount, Walk(row, rows))
    ensures stuck <==> Step(cells, colCount, Walk(row, rows)) == Walk(row, rows)
    ensures !stuck ==> |rows'| == |rows| + 1 || (rows' == rows && row' > row)
  {
    if cells[row].text in Unwanted {
      return row + 1, rows, false;
    } else if row + colCount <= |cells| {
      var riderResult := RowTexts(cells, row, colCount);
      return row + colCount, rows + [riderResult], false;
    } else {
      return row, rows, true;
    }
  }

  /** The `while` loop of `get_results_from`, from the first cell with an empty table. */
  method WalkCells(cells: seq<Cell>, colCount: nat, rowsCount: int) returns (o: WalkOutcome)
    ensures o == WalkFrom(cells, colCount, rowsCount, Walk(0, []))
    ensures OutcomeOk(cells, colCount, rowsCount, o)
  {
    var row: nat := 0;
    var rows: seq<seq<string>> := [];
    WalkFromOk(cells, colCount, rowsCount, Walk(0, []));
    while row < |cells| && |rows| + 1 <= rowsCount && !cells[row].nbspOnly
      invariant row <= |cells|
      invariant WalkFrom(cells, colCount, rowsCount, Walk(row, rows)) == WalkFrom(cells, colCount, rowsCount, Walk(0, []))
      decreases if rowsCount - |rows| > 0 then rowsCount - |rows| else 0, |cells| - row
    {
      ghost var w := Walk(row, rows);
      var next, nextRows, stuck := StepCells(cells, colCount, row, rows);
      if stuck {
        // The IndexError is swallowed and the state is unchanged: the source's loop never ends.
        return Spins(row, rows);
      }
      WalkFromUnfold(cells, colCount, rowsCount, w);
      row, rows := next, nextRows;
    }
    assert !Continues(cells, rowsCount, Walk(row, rows));
    return Finished(row, rows);
  }

  /** The parsed results page: the tuple (url, event info, header, rows...) of the source. */
  datatype Parsed = Parsed(sourceUrl: string, eventInfo: string, header: seq<string>, rows: seq<seq<string>>)

  /** A page is parsed, or its cell walk never ends. */
  datatype Fetched = Got(table: Parsed) | Hangs(at: nat)

  /** What `get_results_from(url)` yields for the page at `url`: the parsed table, or a walk that never ends. */
  function Parse(url: string, page: Page): Fetched {
    var header := KeepWanted(page.headers);
    match WalkFrom(page.cells, |header|, LineCount(page.text, Unwanted), Walk(0, []))
    case Finished(_, rows) => Got(Parsed(url, page.info.GetOr(""), header, rows))
    case Spins(at, _) => Hangs(at)
  }

  /** `get_results_from(url)` applied to the page fetched from `url`. */
  method GetResultsFrom(url: string, page: Page) returns (f: Fetched)
    ensures f == Parse(url, page)
    ensures f.Got? <==> WalkFrom(page.cells, |KeepWanted(page.headers)|, LineCount(page.text, Unwanted), Walk(0, [])).Finished?
    ensures f.Got? ==> f.table.sourceUrl == url && f.table.eventInfo == page.info.GetOr("")
    ensures f.Got? ==> f.table.header == KeepWanted(page.headers)
    ensures f.Got? ==> |f.table.rows| <= Budget(LineCount(page.text, Unwanted))
    ensures f.Got? ==> forall i :: 0 <= i < |f.table.rows| ==> |f.table.rows[i]| == |f.table.header|
  {
    var eventInfo := page.info.GetOr("");
    var header := KeepWanted(page.headers);
    var rowsCount := ResultsLineCount(page.text, Some(Unwanted));
    var o := WalkCells(page.cells, |header|, rowsCount);
    if o.Spins? {
      return Hangs(o.at);
    }
    return Got(Parsed(url, eventInfo, header, o.rows));
  }
}
