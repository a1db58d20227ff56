/** The email table (client/src/components/emails-table.tsx): the request
    it sends for its rows, the row selection it keeps, the colour classes of
    the category and status badges and the choice between the export and
    the open-in-Drive button. */
module EmailsTable {
  import opened Wrappers
  import opened Schema
  import opened Text
  import Seqs
  import Queries
  import Storage
  import Routes

  // ---------------------------------------------------------------------
  // The request

  /** The query string's entries, in order: `search` when the search text
      is not empty, `category` when one other than "All Categories" is
      chosen. The date range is never sent. */
  function RequestParams(search: string, category: string): (r: seq<(string, string)>)
    ensures ("search", search) in r <==> search != ""
    ensures ("category", category) in r <==> category != "" && category != Queries.AllCategories
    ensures forall e :: e in r ==> e.0 == "search" || e.0 == "category"
  {
    (if search != "" then [("search", search)] else [])
    + (if category != "" && category != Queries.AllCategories then [("category", category)] else [])
  }

  /** The first value the query string gives a key. The table's request
      names each key at most once, and for such a query string this is the
      value Express reads; a repeated key, which Express reads as an array,
      is not modelled. */
  function Lookup(entries: seq<(string, string)>, key: string): (r: Option<string>)
    ensures r.None? <==> forall e :: e in entries ==> e.0 != key
    ensures r.Some? ==> (key, r.value) in entries
  {
    if |entries| == 0 then None
    else if entries[0].0 == key then Some(entries[0].1)
    else Lookup(entries[1..], key)
  }

  function ParamsOf(entries: seq<(string, string)>): Routes.EmailsParams {
    Routes.EmailsParams(Lookup(entries, "limit"), Lookup(entries, "offset"), Lookup(entries, "search"),
                        Lookup(entries, "category"), Lookup(entries, "dateFrom"), Lookup(entries, "dateTo"))
  }

  /** What the server reads from the table's query string. */
  lemma RequestParamsRead(search: string, category: string)
    ensures var p := ParamsOf(RequestParams(search, category));
            && p.limit.None? && p.offset.None? && p.dateFrom.None? && p.dateTo.None?
            && p.search == (if search != "" then Some(search) else None)
            && p.category == (if category != "" && category != Queries.AllCategories then Some(category) else None)
  {
    var entries := RequestParams(search, category);
    assert forall e :: e in entries ==> e.0 == "search" || e.0 == "category";
    assert "search" != "limit" && "search" != "offset" && "search" != "dateFrom" && "search" != "dateTo" && "search" != "category";
    assert "category" != "limit" && "category" != "offset" && "category" != "dateFrom" && "category" != "dateTo";
    if category != "" && category != Queries.AllCategories {
      assert forall e :: e in entries && e.0 == "category" ==> e.1 == category;
    }
  }

  /** The server answers the table's request with the first 50 emails
      whose subject contains the search text (when there is one) and whose
      category is the chosen one (unless all are chosen), whatever the date
      range says. */
  lemma RequestQuery(search: string, category: string, parseDate: string -> Option<Timestamp>)
    ensures var q := Routes.RouteQuery(ParamsOf(RequestParams(search, category)), parseDate);
            && q.Some?
            && q.value.limit == Some(Queries.Num(Queries.DefaultLimit)) && q.value.offset == Some(Queries.Num(Queries.DefaultOffset))
            && (Queries.SearchApplies(q.value) <==> search != "")
            && (Queries.SearchApplies(q.value) ==> q.value.search.value == search)
            && (Queries.CategoryApplies(q.value) <==> category != "" && category != Queries.AllCategories)
            && (Queries.CategoryApplies(q.value) ==> q.value.category.value == category)
            && q.value.dateFrom.None? && q.value.dateTo.None?
  {
    RequestParamsRead(search, category);
    Routes.DefaultTexts();
    var p := ParamsOf(RequestParams(search, category));
    var q := Routes.RouteQuery(p, parseDate);
    assert Routes.DateBound(p.dateFrom, parseDate) == Some(None);
    assert Routes.DateBound(p.dateTo, parseDate) == Some(None);
    assert q == Some(Queries.EmailQuery(Some(Queries.Num(50)), Some(Queries.Num(0)), p.search, p.category, None, None));
  }

  // ---------------------------------------------------------------------
  // Selection

  function ListedIds(emails: seq<EmailWithLabels>): (r: seq<string>)
    ensures |r| == |emails| && forall i :: 0 <= i < |emails| ==> r[i] == emails[i].email.id
  {
    seq(|emails|, i requires 0 <= i < |emails| => emails[i].email.id)
  }

  /** A row's checkbox: checking appends the id, unchecking removes every
      occurrence of it and keeps the rest in order. */
  function Toggled(selected: seq<string>, id: string, checked: bool): (r: seq<string>)
    ensures checked ==> r == selected + [id]
    ensures !checked ==> id !in r && Seqs.IsSubsequence(r, selected)
                         && forall x :: x in selected && x != id ==> x in r
  {
    if checked then selected + [id]
    else
      Seqs.FilterIsSubsequence(selected, (x: string) => x != id);
      Seqs.Filter(selected, (x: string) => x != id)
  }

  /** The header checkbox is shown checked when as many ids are selected as
      rows are listed, and at least one row is. */
  predicate HeaderChecked(selected: seq<string>, emails: seq<EmailWithLabels>) {
    |selected| == |emails| && |emails| > 0
  }

  /** Selected ids that are distinct and all listed: then the header is
      checked exactly when every listed row is selected. */
  lemma {:induction false} HeaderMeansAllSelected(selected: seq<string>, emails: seq<EmailWithLabels>)
    requires Seqs.NoDuplicates(selected) && Seqs.NoDuplicates(ListedIds(emails))
    requires forall x :: x in selected ==> x in ListedIds(emails)
    ensures HeaderChecked(selected, emails) <==> |emails| > 0 && forall i :: 0 <= i < |emails| ==> emails[i].email.id in selected
  {
    var ids := ListedIds(emails);
    var a := Seqs.Elements(selected);
    var b := Seqs.Elements(ids);
    Seqs.ElementsOfDistinct(selected);
    Seqs.ElementsOfDistinct(ids);
    assert a <= b;
    if |selected| == |emails| {
      assert |b - a| == 0;
      forall i | 0 <= i < |emails| ensures emails[i].email.id in selected {
        assert ids[i] in b;
      }
    }
    if |emails| > 0 && forall i :: 0 <= i < |emails| ==> emails[i].email.id in selected {
      assert b <= a by {
        forall x | x in b ensures x in a {
          var i :| 0 <= i < |ids| && ids[i] == x;
        }
      }
    }
  }

  /** The selection is kept when the listed rows change, so the header can
      be checked while no listed row is selected. */
  lemma StaleSelectionChecksHeader(e1: Email, e2: Email)
    requires e1.id == "c" && e2.id == "d"
    ensures var emails := [EmailWithLabels(e1, [], []), EmailWithLabels(e2, [], [])];
            HeaderChecked(["a", "b"], emails) && forall i :: 0 <= i < |emails| ==> emails[i].email.id !in ["a", "b"]
  {
  }

  /** The selected ids. */
  class Selection {
    var selected: seq<string>

    constructor()
      ensures selected == []
    {
      selected := [];
    }

    method Select(id: string, checked: bool)
      modifies this
      ensures selected == Toggled(old(selected), id, checked)
    {
      selected := Toggled(selected, id, checked);
    }

    /** The header checkbox: every listed id in list order, or nothing. */
    method SelectAll(emails: seq<EmailWithLabels>, checked: bool)
      modifies this
      ensures checked ==> selected == ListedIds(emails)
      ensures !checked ==> selected == []
    {
      if checked {
        selected := ListedIds(emails);
      } else {
        selected := [];
      }
    }
  }

  // ---------------------------------------------------------------------
  // Badges and buttons

  const InvoiceBadge := "bg-gradient-to-r from-accent-cyan/20 to-accent-blue/20 text-accent-cyan border-accent-cyan/30"
  const ReceiptBadge := "bg-gradient-to-r from-accent-pink/20 to-accent-magenta/20 text-accent-pink border-accent-pink/30"
  const TaxBadge := "bg-gradient-to-r from-amber-500/20 to-orange-500/20 text-amber-400 border-amber-500/30"
  const OtherCategoryBadge := "bg-gradient-to-r from-primary-500/20 to-primary-600/20 text-primary-300 border-primary-500/30"

  /** The category badge's classes, chosen on the lower-cased category; an
      unknown category gets the neutral classes. */
  function CategoryColor(category: string): (r: string)
    ensures r == OtherCategoryBadge <==> Lower(category) != "invoice" && Lower(category) != "receipt" && Lower(category) != "tax document"
  {
    var c := Lower(category);
    if c == "invoice" then InvoiceBadge
    else if c == "receipt" then ReceiptBadge
    else if c == "tax document" then TaxBadge
    else OtherCategoryBadge
  }

  const ProcessedBadge := "bg-green-500/20 text-green-400 border-green-500/30"
  const ExportedBadge := "bg-accent-cyan/20 text-accent-cyan border-accent-cyan/30"
  const PendingBadge := "bg-amber-500/20 text-amber-400 border-amber-500/30"
  const OtherStatusBadge := "bg-primary-500/20 text-primary-300 border-primary-500/30"

  function StatusColor(status: string): (r: string)
    ensures r == OtherStatusBadge <==> Lower(status) != "processed" && Lower(status) != "exported" && Lower(status) != "pending"
  {
    var s := Lower(status);
    if s == "processed" then ProcessedBadge
    else if s == "exported" then ExportedBadge
    else if s == "pending" then PendingBadge
    else OtherStatusBadge
  }

  /** Badges ignore case: a value and its lower-cased form look alike. */
  lemma BadgesIgnoreCase(s: string)
    ensures CategoryColor(s) == CategoryColor(Lower(s))
    ensures StatusColor(s) == StatusColor(Lower(s))
  {
    LowerIdempotent(s);
  }

  /** The open-in-Drive button replaces the export button when the email
      is exported and has a non-empty Drive URL. */
  predicate ShowsDriveLink(e: Email) {
    e.status == Storage.ExportedStatus && e.driveFileUrl.Some? && e.driveFileUrl.value != ""
  }

  /** Once exported, a row offers its Drive file instead of another export. */
  lemma ExportedRowShowsLink(emails: seq<Email>, id: string, fileId: string, now: Timestamp)
    ensures var r := Storage.UpdateEmailRows(emails, id, Storage.ExportPatch(fileId, Storage.DriveFileUrl(fileId)), now);
            forall i :: 0 <= i < |r| && emails[i].id == id ==> ShowsDriveLink(r[i])
  {
    Storage.ExportMarksRow(emails, id, fileId, now);
  }
}
