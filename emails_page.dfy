/** The email page's "Export to CSV" button (client/src/pages/emails.tsx):
    the query string it builds from the page's search text, category and
    date range, and the path it opens. */
module EmailsPage {
  import opened Text
  import Queries
  import EmailsTable

  const DefaultDateRange := "Last 30 days"
  const ExportPath := "/api/emails/export"

  /** The options of the page's two selects; the first of each is the
      initial choice. */
  const DateRanges: seq<string> := ["Last 30 days", "Last 7 days", "This month", "This year"]
  const CategoryChoices: seq<string> := ["All Categories", "Invoice", "Receipt", "Bill", "Tax Document"]

  /** The entries, in order: `search` when text was typed, `category`
      unless all categories are chosen, `dateRange` unless it is the last
      30 days. */
  function ExportParams(search: string, category: string, dateRange: string): (r: seq<(string, string)>)
    ensures ("search", search) in r <==> search != ""
    ensures ("category", category) in r <==> category != Queries.AllCategories
    ensures ("dateRange", dateRange) in r <==> dateRange != DefaultDateRange
    ensures forall e :: e in r ==> e.0 == "search" || e.0 == "category" || e.0 == "dateRange"
    ensures forall i, j :: 0 <= i < j < |r| ==> r[i].0 != r[j].0
  {
    (if search != "" then [("search", search)] else [])
    + (if category != Queries.AllCategories then [("category", category)] else [])
    + (if dateRange != DefaultDateRange then [("dateRange", dateRange)] else [])
  }

  /** The page as first shown exports with an empty query string. */
  lemma InitialExportHasNoParams()
    ensures ExportParams("", CategoryChoices[0], DateRanges[0]) == []
  {
  }

  /** For any category the page offers, the export carries the same search
      and category entries as the table's own request, plus the date range
      when one other than the default is chosen. */
  lemma ExportMatchesTable(search: string, i: int, dateRange: string)
    requires 0 <= i < |CategoryChoices|
    ensures var c := CategoryChoices[i];
            ExportParams(search, c, dateRange)
            == EmailsTable.RequestParams(search, c) + (if dateRange != DefaultDateRange then [("dateRange", dateRange)] else [])
  {
    ChoiceNotEmpty(i);
  }

  lemma ChoiceNotEmpty(i: int)
    requires 0 <= i < |CategoryChoices|
    ensures CategoryChoices[i] != ""
  {
    assert |CategoryChoices[i]| > 0;
  }
}
