/** The pure parts of `ReportsManager` (frontend/js/reports.js): the display-name fallback, the
    average show duration and the CSV text `exportToCSV` builds from the daily report rows.
    Its `formatDuration` is `DurationFormat.FormatReports`. */
module Reports {
  import opened Wrappers
  import opened Decimal
  import Text

  /** One row of `/api/reports/daily`: a `source_log` row joined with the source's metadata,
      which may be missing (a left join gives `null`). The counters are integer columns with a
      default of 0, so they are always present. */
  datatype ReportItem = ReportItem(
    sourceName: string,
    title: Option<string>,
    category: Option<string>,
    brand: Option<string>,
    visibleCount: int,
    totalDuration: int)

  /** `item.title || item.source_name`. */
  function DisplayName(item: ReportItem): (r: string)
    ensures r == item.sourceName || (item.title.Some? && r == item.title.value && r != "")
  {
    Text.OrElse(item.title, item.sourceName)
  }

  /** The raw source name is shown under the display name only when the two differ. */
  predicate ShowsSubtitle(item: ReportItem) {
    item.sourceName != DisplayName(item)
  }

  /** `visible_count > 0 ? Math.round(total_duration / visible_count) : 0` on integers:
      `Math.round` rounds halves up, which is `floor((2·total + count) / (2·count))`. */
  function AverageDuration(total: int, count: int): (r: int)
    ensures count > 0 ==> 2 * count * r - count <= 2 * total < 2 * count * r + count
    ensures count <= 0 ==> r == 0
  {
    if count > 0 then
      var q := (2 * total + count) / (2 * count);
      DivBounds(2 * total + count, 2 * count);
      q
    else 0
  }

  lemma DivBounds(a: int, b: int)
    requires b > 0
    ensures b * (a / b) <= a < b * (a / b) + b
  {
  }

  function Average(item: ReportItem): (r: int)
    ensures item.visibleCount <= 0 ==> r == 0
    ensures item.visibleCount > 0 ==>
      2 * item.visibleCount * r - item.visibleCount <= 2 * item.totalDuration < 2 * item.visibleCount * r + item.visibleCount
  {
    AverageDuration(item.totalDuration, item.visibleCount)
  }

  // ---------------------------------------------------------------------------------------
  // CSV

  const Header: seq<string> :=
    ["Source Name", "Title", "Category", "Brand", "Show Count", "Total Duration", "Avg Duration"]

  function Quote(s: string): (r: string)
    ensures |r| == |s| + 2 && r[0] == '"' && r[|r| - 1] == '"'
  {
    "\"" + s + "\""
  }

  /** The seven fields of an item's line: four quoted text fields, the title falling back to
      the source name and category and brand to the empty string, then three integers. */
  function RowFields(item: ReportItem): (fs: seq<string>)
    ensures |fs| == |Header|
    ensures forall i :: 0 <= i < 4 ==> |fs[i]| >= 2 && fs[i][0] == '"' && fs[i][|fs[i]| - 1] == '"'
    ensures forall i :: 4 <= i < 7 ==> '"' !in fs[i]
  {
    IntToStringFreeOf(item.visibleCount, '"');
    IntToStringFreeOf(item.totalDuration, '"');
    IntToStringFreeOf(Average(item), '"');
    [ Quote(item.sourceName),
      Quote(Text.OrElse(item.title, item.sourceName)),
      Quote(Text.OrElse(item.category, "")),
      Quote(Text.OrElse(item.brand, "")),
      IntToString(item.visibleCount),
      IntToString(item.totalDuration),
      IntToString(Average(item)) ]
  }

  /** An item's line starts with its quoted source name and a comma. */
  function RowLine(item: ReportItem): (r: string)
    ensures |r| > |item.sourceName| + 3 && r[..|item.sourceName| + 3] == Quote(item.sourceName) + ","
  {
    var fs := RowFields(item);
    assert Text.Join(fs, ',') == fs[0] + [','] + Text.Join(fs[1..], ',');
    Text.Join(fs, ',')
  }

  function Lines(items: seq<ReportItem>): seq<string> {
    [Text.Join(Header, ',')] + seq(|items|, i requires 0 <= i < |items| => RowLine(items[i]))
  }

  /** `exportToCSV`: nothing for an empty report, otherwise the header line and one line per
      item, joined by newlines. */
  function ExportCsv(items: seq<ReportItem>): (r: Option<string>)
    ensures r.None? <==> items == []
  {
    if |items| == 0 then None else Some(Text.Join(Lines(items), '\n'))
  }

  // ---------------------------------------------------------------------------------------
  // Properties

  /** The average is the integer nearest to total / count, halves rounding up: any integer
      within half a unit of the quotient (lower bound included) is the average. */
  lemma AverageIsNearest(total: int, count: int, k: int)
    requires count > 0
    requires 2 * count * k - count <= 2 * total < 2 * count * k + count
    ensures AverageDuration(total, count) == k
  {
    var r := AverageDuration(total, count);
    assert 2 * count * (r - k) == 2 * count * r - 2 * count * k;
    assert 2 * count * (k - r) == 2 * count * k - 2 * count * r;
    ProductBelow(2 * count, r - k);
    ProductBelow(2 * count, k - r);
  }

  /** An exact quotient is its own average, and a row never shown averages to 0. */
  lemma AverageOfExact(count: int, k: int)
    requires count > 0
    ensures AverageDuration(count * k, count) == k
    ensures AverageDuration(k, 0) == 0
  {
    AverageIsNearest(count * k, count, k);
  }

  /** The subtitle appears exactly when there is a non-empty title other than the name. */
  lemma SubtitleIffDistinctTitle(item: ReportItem)
    ensures ShowsSubtitle(item) <==>
      item.title.Some? && item.title.value != "" && item.title.value != item.sourceName
  {
  }

  /** No text field of the item holds `c`. */
  predicate FreeOf(item: ReportItem, c: char) {
    && c !in item.sourceName
    && (item.title.Some? ==> c !in item.title.value)
    && (item.category.Some? ==> c !in item.category.value)
    && (item.brand.Some? ==> c !in item.brand.value)
  }

  lemma IntToStringFreeOf(i: int, c: char)
    requires c != '-' && !IsDigit(c)
    ensures c !in IntToString(i)
  {
    var s := NatToString(if i < 0 then -i else i);
    assert forall j :: 0 <= j < |s| ==> s[j] != c;
  }

  lemma FieldsFreeOf(item: ReportItem, c: char)
    requires FreeOf(item, c) && c != '-' && c != '"' && !IsDigit(c)
    ensures forall i :: 0 <= i < |RowFields(item)| ==> c !in RowFields(item)[i]
  {
    QuoteFreeOf(item.sourceName, c);
    QuoteFreeOf(Text.OrElse(item.title, item.sourceName), c);
    QuoteFreeOf(Text.OrElse(item.category, ""), c);
    QuoteFreeOf(Text.OrElse(item.brand, ""), c);
    IntToStringFreeOf(item.visibleCount, c);
    IntToStringFreeOf(item.totalDuration, c);
    IntToStringFreeOf(Average(item), c);
  }

  lemma QuoteFreeOf(s: string, c: char)
    requires c != '"' && c !in s
    ensures c !in Quote(s)
  {
    assert forall x :: x in Quote(s) ==> x == '"' || x in s;
  }

  /** When no text field holds a comma, splitting an item's line on commas gives its seven
      fields back. Quotes inside a field are not escaped, so a comma in a name would shift
      every later column. */
  lemma RowSplitsIntoFields(item: ReportItem)
    requires FreeOf(item, ',')
    ensures Text.Split(RowLine(item), ',') == RowFields(item)
  {
    FieldsFreeOf(item, ',');
    Text.SplitJoin(RowFields(item), ',');
  }

  lemma LineFreeOfNewline(item: ReportItem)
    requires FreeOf(item, '\n')
    ensures '\n' !in RowLine(item)
  {
    FieldsFreeOf(item, '\n');
    Text.InJoin(RowFields(item), ',', '\n');
  }

  lemma HeaderFreeOfNewline()
    ensures '\n' !in Text.Join(Header, ',')
  {
    Text.InJoin(Header, ',', '\n');
  }

  lemma {:induction false} SplitLines(head: string, rows: seq<string>)
    requires '\n' !in head
    requires forall i :: 0 <= i < |rows| ==> '\n' !in rows[i]
    ensures Text.Split(Text.Join([head] + rows, '\n'), '\n') == [head] + rows
  {
    Text.SplitJoin([head] + rows, '\n');
  }

  /** The export of a non-empty report whose text fields hold no newline has one line for the
      header and then exactly one line per item, in report order. */
  lemma CsvLines(items: seq<ReportItem>)
    requires items != []
    requires forall i :: 0 <= i < |items| ==> FreeOf(items[i], '\n')
    ensures var ls := Text.Split(ExportCsv(items).value, '\n');
      && |ls| == |items| + 1
      && ls[0] == Text.Join(Header, ',')
      && forall i :: 0 <= i < |items| ==> ls[i + 1] == RowLine(items[i])
  {
    var rows := seq(|items|, i requires 0 <= i < |items| => RowLine(items[i]));
    forall i | 0 <= i < |rows|
      ensures '\n' !in rows[i]
    {
      LineFreeOfNewline(items[i]);
    }
    HeaderFreeOfNewline();
    SplitLines(Text.Join(Header, ','), rows);
    assert Lines(items) == [Text.Join(Header, ',')] + rows;
  }

  /** Each item's line in the export reads back, field by field, as its quoted name, title,
      category and brand and its count, total and average. */
  lemma CsvRowReadsBack(items: seq<ReportItem>, i: int)
    requires 0 <= i < |items|
    requires forall j :: 0 <= j < |items| ==> FreeOf(items[j], '\n') && FreeOf(items[j], ',')
    ensures var ls := Text.Split(ExportCsv(items).value, '\n');
      && |ls| == |items| + 1
      && var fs := Text.Split(ls[i + 1], ',');
      && |fs| == 7
      && fs[0] == Quote(items[i].sourceName)
      && fs[1] == Quote(DisplayName(items[i]))
      && fs[2] == Quote(Text.OrElse(items[i].category, ""))
      && fs[3] == Quote(Text.OrElse(items[i].brand, ""))
      && fs[4] == IntToString(items[i].visibleCount)
      && fs[5] == IntToString(items[i].totalDuration)
      && fs[6] == IntToString(Average(items[i]))
  {
    CsvLines(items);
    RowSplitsIntoFields(items[i]);
  }
}
