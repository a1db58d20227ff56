/** The read queries of the storage layer (server/storage.ts), evaluated over
    the contents of the tables: the filtered, ordered and paginated email
    list with each email's labels and attachments, the lookup by id, the
    dashboard totals, the expenses per category and the contact list. */
module Queries {
  import opened Wrappers
  import opened Schema
  import opened Text
  import Seqs
  import Sorting
  import Ilike

  const DefaultLimit := 50
  const DefaultOffset := 0
  /** The category filter value that means "no category filter". */
  const AllCategories := "All Categories"

  /** A JavaScript number as the list query receives it for its limit and
      offset: `parseInt` of text that is not a number gives NaN. */
  datatype JsNumber = NaN | Num(n: int)

  /** The arguments of the email list query; an absent (undefined) limit or
      offset takes its default (50 and 0). */
  datatype EmailQuery = EmailQuery(
    limit: Option<JsNumber>,
    offset: Option<JsNumber>,
    search: Option<string>,
    category: Option<string>,
    dateFrom: Option<Timestamp>,
    dateTo: Option<Timestamp>)

  /** The error PostgreSQL raises for a negative OFFSET. */
  datatype QueryError = NegativeOffset

  function LimitArg(q: EmailQuery): JsNumber {
    q.limit.GetOr(Num(DefaultLimit))
  }

  function OffsetArg(q: EmailQuery): JsNumber {
    q.offset.GetOr(Num(DefaultOffset))
  }

  /** The LIMIT the query builder (Drizzle's PostgreSQL dialect) writes: only
      for a number that is not negative. NaN or a negative number leaves the
      clause out, and every row is kept. */
  function LimitClause(q: EmailQuery): Option<nat> {
    var l := LimitArg(q);
    if l.Num? && l.n >= 0 then Some(l.n) else None
  }

  /** The OFFSET the query builder writes: only for a truthy number. NaN and
      0 leave the clause out, which skips nothing; a negative offset is sent
      as it is. */
  function OffsetClause(q: EmailQuery): Option<int> {
    var o := OffsetArg(q);
    if o.Num? && o.n != 0 then Some(o.n) else None
  }

  /** The number of matching rows the statement skips. */
  function Skipped(q: EmailQuery): int {
    OffsetClause(q).GetOr(0)
  }

  /** An empty search string is falsy and adds no condition. */
  predicate SearchApplies(q: EmailQuery) {
    q.search.Some? && q.search.value != ""
  }

  predicate CategoryApplies(q: EmailQuery) {
    q.category.Some? && q.category.value != "" && q.category.value != AllCategories
  }

  /** Case-insensitive substring search in the subject, what the search box
      is for. */
  predicate SubjectMatches(subject: string, search: string) {
    ContainsIgnoringCase(subject, search)
  }

  /** All conditions of the email list query hold of `e`. */
  predicate Matches(e: Email, q: EmailQuery) {
    && (SearchApplies(q) ==> SubjectMatches(e.subject, q.search.value))
    && (CategoryApplies(q) ==> e.category == q.category.value)
    && (q.dateFrom.Some? ==> q.dateFrom.value <= e.receivedAt)
    && (q.dateTo.Some? ==> e.receivedAt <= q.dateTo.value)
  }

  /** The conditions as written: the search text is pasted into an ILIKE
      pattern unescaped. */
  predicate MatchesAsWritten(e: Email, q: EmailQuery) {
    && (SearchApplies(q) ==> Ilike.SubjectMatchesAsWritten(e.subject, q.search.value))
    && (CategoryApplies(q) ==> e.category == q.category.value)
    && (q.dateFrom.Some? ==> q.dateFrom.value <= e.receivedAt)
    && (q.dateTo.Some? ==> e.receivedAt <= q.dateTo.value)
  }

  /** Without `%`, `_` or `\` in the search text, the query as written and
      the corrected one select the same rows. */
  lemma MatchesAgreeOnPlainSearch(e: Email, q: EmailQuery)
    requires SearchApplies(q) ==> Ilike.Plain(q.search.value)
    ensures MatchesAsWritten(e, q) <==> Matches(e, q)
  {
    if SearchApplies(q) {
      Ilike.PlainSearchIsSubstring(e.subject, q.search.value);
    }
  }

  /** A search for "a_c" selects a row whose subject is "abc" as written,
      though "abc" does not contain the text "a_c". */
  lemma UnderscoreSearchMatchesAsWritten()
    ensures var e := Email("e1", "abc", None, "n", "s@x", None, DefaultCategory, DefaultStatus, None, None, 0, 0, 0);
            var q := EmailQuery(None, None, Some("a_c"), None, None, None);
            MatchesAsWritten(e, q) && !Matches(e, q)
  {
    Ilike.UnderscoreIsWildcard();
  }

  /** `ORDER BY received_at DESC`. */
  const NewestFirst := (a: Email, b: Email) => a.receivedAt >= b.receivedAt

  lemma NewestFirstIsTotalPreorder()
    ensures Sorting.TotalPreorder(NewestFirst)
  {
  }

  /** The rows the WHERE clause keeps, newest first. */
  function MatchingRows(emails: seq<Email>, q: EmailQuery): (r: seq<Email>)
    ensures multiset(r) == multiset(Seqs.Filter(emails, (e: Email) => Matches(e, q)))
    ensures Sorting.Sorted(r, NewestFirst)
  {
    NewestFirstIsTotalPreorder();
    Sorting.Sort(Seqs.Filter(emails, (e: Email) => Matches(e, q)), NewestFirst)
  }

  /** The labels linked to email `emailId` (the inner join of `labels` and
      `email_labels`), one per link, in link order. */
  function LabelsOf(labels: seq<Label>, links: seq<EmailLabel>, emailId: string): (r: seq<Label>)
    ensures forall l :: l in r <==> l in labels && exists k :: k in links && k.emailId == emailId && k.labelId == l.id
  {
    if |links| == 0 then []
    else
      var rest := LabelsOf(labels, links[1..], emailId);
      assert forall k :: k in links <==> k == links[0] || k in links[1..] by {
        assert links == [links[0]] + links[1..];
      }
      var here := if links[0].emailId == emailId
                  then Seqs.Filter(labels, (l: Label) => l.id == links[0].labelId)
                  else [];
      here + rest
  }

  /** The attachments whose owner is email `emailId`, in table order. */
  function AttachmentsOf(attachments: seq<Attachment>, emailId: string): (r: seq<Attachment>)
    ensures forall a :: a in r <==> a in attachments && a.emailId == emailId
  {
    Seqs.Filter(attachments, (a: Attachment) => a.emailId == emailId)
  }

  /** An email row with its labels and attachments. */
  function Enrich(e: Email, labels: seq<Label>, attachments: seq<Attachment>, links: seq<EmailLabel>): EmailWithLabels {
    EmailWithLabels(e, LabelsOf(labels, links, e.id), AttachmentsOf(attachments, e.id))
  }

  function EnrichAll(es: seq<Email>, labels: seq<Label>, attachments: seq<Attachment>, links: seq<EmailLabel>): (r: seq<EmailWithLabels>)
    ensures |r| == |es|
    ensures forall i :: 0 <= i < |es| ==> r[i] == Enrich(es[i], labels, attachments, links)
  {
    seq(|es|, i requires 0 <= i < |es| => Enrich(es[i], labels, attachments, links))
  }

  /** The rows the statement returns: the matching rows newest first, the
      offset skipped, cut to the limit when there is a LIMIT clause. */
  function PageOf(emails: seq<Email>, q: EmailQuery): seq<Email>
    requires Skipped(q) >= 0
  {
    var m := MatchingRows(emails, q);
    Sorting.Page(m, LimitClause(q).GetOr(|m|), Skipped(q))
  }

  /** The email list: the page of matching rows, each with its labels and
      attachments; a negative offset is refused. */
  function ListEmails(emails: seq<Email>, labels: seq<Label>, attachments: seq<Attachment>,
                      links: seq<EmailLabel>, q: EmailQuery): Result<seq<EmailWithLabels>, QueryError>
  {
    if Skipped(q) < 0 then Err(NegativeOffset)
    else Ok(EnrichAll(PageOf(emails, q), labels, attachments, links))
  }

  /** The query fails exactly when the offset is a negative number; no limit
      makes it fail. */
  lemma ListEmailsFails(emails: seq<Email>, labels: seq<Label>, attachments: seq<Attachment>,
                        links: seq<EmailLabel>, q: EmailQuery)
    ensures ListEmails(emails, labels, attachments, links, q).Err?
            <==> q.offset.Some? && q.offset.value.Num? && q.offset.value.n < 0
  {
  }

  /** Every listed email is a row of the table that meets every condition,
      and carries exactly its own labels and attachments. */
  lemma ListEmailsSound(emails: seq<Email>, labels: seq<Label>, attachments: seq<Attachment>,
                        links: seq<EmailLabel>, q: EmailQuery)
    requires ListEmails(emails, labels, attachments, links, q).Ok?
    ensures var r := ListEmails(emails, labels, attachments, links, q).value;
            forall i :: 0 <= i < |r| ==>
              && r[i].email in emails
              && Matches(r[i].email, q)
              && (forall l :: l in r[i].labels <==> l in labels && exists k :: k in links && k.emailId == r[i].email.id && k.labelId == l.id)
              && (forall a :: a in r[i].attachments <==> a in attachments && a.emailId == r[i].email.id)
  {
    var r := ListEmails(emails, labels, attachments, links, q).value;
    var m := MatchingRows(emails, q);
    var page := Sorting.Page(m, LimitClause(q).GetOr(|m|), Skipped(q));
    forall i | 0 <= i < |r| ensures r[i].email in emails && Matches(r[i].email, q) {
      var e := page[i];
      assert e in m;
      assert e in multiset(m);
      assert e in Seqs.Filter(emails, (e: Email) => Matches(e, q));
    }
  }

  /** The listed emails are newest first. */
  lemma ListEmailsNewestFirst(emails: seq<Email>, labels: seq<Label>, attachments: seq<Attachment>,
                              links: seq<EmailLabel>, q: EmailQuery)
    requires ListEmails(emails, labels, attachments, links, q).Ok?
    ensures var r := ListEmails(emails, labels, attachments, links, q).value;
            forall i, j :: 0 <= i < j < |r| ==> r[i].email.receivedAt >= r[j].email.receivedAt
  {
    var m := MatchingRows(emails, q);
    Sorting.PageSorted(m, LimitClause(q).GetOr(|m|), Skipped(q), NewestFirst);
  }

  /** The page holds what is left of the matching rows after the offset, cut
      to the limit when the statement has one. */
  lemma ListEmailsSize(emails: seq<Email>, labels: seq<Label>, attachments: seq<Attachment>,
                       links: seq<EmailLabel>, q: EmailQuery)
    requires ListEmails(emails, labels, attachments, links, q).Ok?
    ensures var r := ListEmails(emails, labels, attachments, links, q).value;
            var n := |Seqs.Filter(emails, (e: Email) => Matches(e, q))|;
            var left := if n <= Skipped(q) then 0 else n - Skipped(q);
            |r| == if LimitClause(q).Some? && LimitClause(q).value < left then LimitClause(q).value else left
  {
    var m := MatchingRows(emails, q);
    assert |m| == |multiset(m)|;
  }

  /** With no condition, no offset and either no LIMIT clause or one covering
      the table, the list holds every email, each as often as the table does. */
  lemma ListEmailsComplete(emails: seq<Email>, labels: seq<Label>, attachments: seq<Attachment>,
                           links: seq<EmailLabel>, q: EmailQuery)
    requires !SearchApplies(q) && !CategoryApplies(q) && q.dateFrom.None? && q.dateTo.None?
    requires Skipped(q) == 0 && (LimitClause(q).None? || LimitClause(q).value >= |emails|)
    ensures ListEmails(emails, labels, attachments, links, q).Ok?
    ensures var r := ListEmails(emails, labels, attachments, links, q).value;
            && multiset(seq(|r|, i requires 0 <= i < |r| => r[i].email)) == multiset(emails)
            && |r| == |emails|
  {
    Seqs.FilterKeepsAll(emails, (e: Email) => Matches(e, q));
    var m := MatchingRows(emails, q);
    assert |m| == |multiset(m)| == |emails|;
    Sorting.PageWhole(m, LimitClause(q).GetOr(|m|));
    EnrichAllKeepsEmails(m, labels, attachments, links);
  }

  /** Enriching rows keeps the rows, in order. */
  lemma EnrichAllKeepsEmails(es: seq<Email>, labels: seq<Label>, attachments: seq<Attachment>, links: seq<EmailLabel>)
    ensures var r := EnrichAll(es, labels, attachments, links);
            seq(|r|, i requires 0 <= i < |r| => r[i].email) == es
  {
  }

  // ---------------------------------------------------------------------
  // Lookup by primary key.

  /** The first row with key `id`, if any. */
  function FindEmail(emails: seq<Email>, id: string): (r: Option<Email>)
    ensures r.Some? ==> r.value in emails && r.value.id == id
    ensures r.None? <==> id !in EmailIds(emails)
  {
    if |emails| == 0 then None
    else if emails[0].id == id then Some(emails[0])
    else
      assert EmailIds(emails) == {emails[0].id} + EmailIds(emails[1..]) by {
        assert emails == [emails[0]] + emails[1..];
      }
      FindEmail(emails[1..], id)
  }

  /** The email with key `id` with its labels and attachments, or nothing
      when no row has that key. */
  function GetEmailById(emails: seq<Email>, labels: seq<Label>, attachments: seq<Attachment>,
                        links: seq<EmailLabel>, id: string): (r: Option<EmailWithLabels>)
    ensures r.None? <==> id !in EmailIds(emails)
    ensures r.Some? ==> r.value.email in emails && r.value.email.id == id
                        && r.value == Enrich(r.value.email, labels, attachments, links)
  {
    match FindEmail(emails, id)
    case None => None
    case Some(e) => Some(Enrich(e, labels, attachments, links))
  }

  /** Under the primary key, the row found is the only one with that key. */
  lemma GetEmailByIdUnique(emails: seq<Email>, labels: seq<Label>, attachments: seq<Attachment>,
                           links: seq<EmailLabel>, e: Email)
    requires Seqs.KeysUnique(emails, EmailKey)
    requires e in emails
    ensures GetEmailById(emails, labels, attachments, links, e.id) == Some(Enrich(e, labels, attachments, links))
  {
    var f := FindEmail(emails, e.id).value;
    var i :| 0 <= i < |emails| && emails[i] == e;
    var j :| 0 <= j < |emails| && emails[j] == f;
    assert EmailKey(emails[i]) == EmailKey(emails[j]);
  }

  // ---------------------------------------------------------------------
  // Users and labels.

  /** The column a user is looked up by. */
  datatype UserColumn = ById | ByUsername | ByEmail

  function UserKey(u: User, c: UserColumn): string {
    match c
    case ById => u.id
    case ByUsername => u.username
    case ByEmail => u.email
  }

  /** `SELECT * FROM users WHERE <column> = v`, first row. */
  function UserBy(users: seq<User>, c: UserColumn, v: string): (r: Option<User>)
    ensures r.Some? ==> r.value in users && UserKey(r.value, c) == v
    ensures r.None? <==> forall u :: u in users ==> UserKey(u, c) != v
  {
    Seqs.First(users, (u: User) => UserKey(u, c) == v)
  }

  /** `ORDER BY name`, compared by character code. */
  const ByName := (a: Label, b: Label) => StrLe(a.name, b.name)

  lemma ByNameIsTotalPreorder()
    ensures Sorting.TotalPreorder(ByName)
  {
    forall a: Label, b: Label ensures ByName(a, b) || ByName(b, a) {
      StrLeTotal(a.name, b.name);
    }
    forall a: Label, b: Label, c: Label | ByName(a, b) && ByName(b, c) ensures ByName(a, c) {
      StrLeTransitive(a.name, b.name, c.name);
    }
  }

  /** Every label, ordered by name. */
  function LabelsByName(labels: seq<Label>): (r: seq<Label>)
    ensures multiset(r) == multiset(labels)
    ensures forall i, j :: 0 <= i < j < |r| ==> StrLe(r[i].name, r[j].name)
  {
    ByNameIsTotalPreorder();
    Sorting.Sort(labels, ByName)
  }

  // ---------------------------------------------------------------------
  // Dashboard totals.

  /** `sum(amount)` with NULLs skipped, and 0 for no rows (`coalesce`). */
  function SumAmounts(es: seq<Email>): int
    decreases |es|
  {
    if |es| == 0 then 0 else es[0].amount.GetOr(0) + SumAmounts(es[1..])
  }

  lemma {:induction false} SumAmountsAppend(a: seq<Email>, b: seq<Email>)
    ensures SumAmounts(a + b) == SumAmounts(a) + SumAmounts(b)
    decreases |a|
  {
    if |a| == 0 {
      assert a + b == b;
    } else {
      assert (a + b)[1..] == a[1..] + b;
      SumAmountsAppend(a[1..], b);
    }
  }

  /** Rows without an amount add nothing. */
  lemma {:induction false} SumAmountsSkipsNull(es: seq<Email>)
    ensures SumAmounts(es) == SumAmounts(Seqs.Filter(es, (e: Email) => e.amount.Some?))
    decreases |es|
  {
    if |es| > 0 {
      var p := (e: Email) => e.amount.Some?;
      SumAmountsSkipsNull(es[1..]);
      SumAmountsAppend(if p(es[0]) then [es[0]] else [], Seqs.Filter(es[1..], p));
    }
  }

  /** The current month in local time, as the server derives it from its
      clock: midnight on the first day, midnight on the last day, and
      midnight on the first day of the next month. */
  datatype MonthWindow = MonthWindow(firstDay: Timestamp, lastDay: Timestamp, nextMonth: Timestamp)

  /** The last day begins after the first day and ends no later than the
      next month begins. */
  predicate WellFormed(m: MonthWindow) {
    m.firstDay <= m.lastDay < m.nextMonth
  }

  /** The range as written: from the first midnight to the last midnight, inclusive. */
  predicate InMonthAsWritten(t: Timestamp, m: MonthWindow) {
    m.firstDay <= t <= m.lastDay
  }

  /** The whole month: from the first midnight up to the next month. */
  predicate InMonth(t: Timestamp, m: MonthWindow) {
    m.firstDay <= t < m.nextMonth
  }

  function Uncategorized(emails: seq<Email>): seq<Email> {
    Seqs.Filter(emails, (e: Email) => e.category == DefaultCategory)
  }

  function MonthlyExpensesAsWritten(emails: seq<Email>, m: MonthWindow): int {
    SumAmounts(Seqs.Filter(emails, (e: Email) => InMonthAsWritten(e.receivedAt, m)))
  }

  function MonthlyExpenses(emails: seq<Email>, m: MonthWindow): int {
    SumAmounts(Seqs.Filter(emails, (e: Email) => InMonth(e.receivedAt, m)))
  }

  /** The four totals with the month range as written. */
  function DashboardMetricsAsWritten(emails: seq<Email>, attachments: seq<Attachment>, m: MonthWindow): DashboardMetrics {
    DashboardMetrics(|emails|, |Uncategorized(emails)|, |attachments|, MonthlyExpensesAsWritten(emails, m))
  }

  /** The four totals: all emails, the emails still "Uncategorized", all
      attachments, and the amounts received in the current month. */
  function GetDashboardMetrics(emails: seq<Email>, attachments: seq<Attachment>, m: MonthWindow): DashboardMetrics {
    DashboardMetrics(|emails|, |Uncategorized(emails)|, |attachments|, MonthlyExpenses(emails, m))
  }

  /** Adding an email raises the total by one, the uncategorized count by one
      exactly when it is uncategorized, and the monthly sum by its amount
      exactly when it arrived in the month. */
  lemma DashboardMetricsAddEmail(emails: seq<Email>, attachments: seq<Attachment>, m: MonthWindow, e: Email)
    ensures var before := GetDashboardMetrics(emails, attachments, m);
            var after := GetDashboardMetrics(emails + [e], attachments, m);
            && after.totalEmails == before.totalEmails + 1
            && after.uncategorizedEmails == before.uncategorizedEmails + (if e.category == DefaultCategory then 1 else 0)
            && after.totalDocuments == before.totalDocuments
            && after.monthlyExpenses == before.monthlyExpenses + (if InMonth(e.receivedAt, m) then e.amount.GetOr(0) else 0)
  {
    Seqs.FilterAppend(emails, [e], (e: Email) => e.category == DefaultCategory);
    Seqs.FilterAppend(emails, [e], (e: Email) => InMonth(e.receivedAt, m));
    var p := (e: Email) => InMonth(e.receivedAt, m);
    SumAmountsAppend(Seqs.Filter(emails, p), Seqs.Filter([e], p));
  }

  /** The same counting law for the totals as written, with the month
      ending at midnight at the start of its last day. */
  lemma DashboardMetricsAsWrittenAddEmail(emails: seq<Email>, attachments: seq<Attachment>, m: MonthWindow, e: Email)
    ensures var before := DashboardMetricsAsWritten(emails, attachments, m);
            var after := DashboardMetricsAsWritten(emails + [e], attachments, m);
            && after.totalEmails == before.totalEmails + 1
            && after.uncategorizedEmails == before.uncategorizedEmails + (if e.category == DefaultCategory then 1 else 0)
            && after.totalDocuments == before.totalDocuments
            && after.monthlyExpenses == before.monthlyExpenses + (if InMonthAsWritten(e.receivedAt, m) then e.amount.GetOr(0) else 0)
  {
    Seqs.FilterAppend(emails, [e], (e: Email) => e.category == DefaultCategory);
    Seqs.FilterAppend(emails, [e], (e: Email) => InMonthAsWritten(e.receivedAt, m));
    var p := (e: Email) => InMonthAsWritten(e.receivedAt, m);
    SumAmountsAppend(Seqs.Filter(emails, p), Seqs.Filter([e], p));
  }

  /** The two month ranges agree unless an email arrived on the last day
      after midnight. */
  lemma MonthlyExpensesAgree(emails: seq<Email>, m: MonthWindow)
    requires WellFormed(m)
    requires forall e :: e in emails ==> !(m.lastDay < e.receivedAt < m.nextMonth)
    ensures MonthlyExpensesAsWritten(emails, m) == MonthlyExpenses(emails, m)
  {
    Seqs.FilterCongruent(emails, (e: Email) => InMonthAsWritten(e.receivedAt, m), (e: Email) => InMonth(e.receivedAt, m));
  }

  /** An expense received one millisecond after midnight on the last day of
      the month is missing from the total as written. */
  lemma LastDayExpenseDropped(m: MonthWindow)
    requires WellFormed(m) && m.lastDay + 1 < m.nextMonth
    ensures var e := Email("e1", "Invoice", None, "n", "s@x", Some(100), DefaultCategory, DefaultStatus,
                           None, None, m.lastDay + 1, 0, 0);
            && DashboardMetricsAsWritten([e], [], m).monthlyExpenses == 0
            && GetDashboardMetrics([e], [], m).monthlyExpenses == 100
  {
    var e := Email("e1", "Invoice", None, "n", "s@x", Some(100), DefaultCategory, DefaultStatus,
                   None, None, m.lastDay + 1, 0, 0);
    assert Seqs.Filter([e], (e: Email) => InMonthAsWritten(e.receivedAt, m)) == [];
    assert Seqs.Filter([e], (e: Email) => InMonth(e.receivedAt, m)) == [e];
  }

  // ---------------------------------------------------------------------
  // Expenses per category: the five categories with the largest sums.

  datatype CategoryTotal = CategoryTotal(name: string, amount: int)

  const TopCategories := 5

  /** The rows with an amount, the only ones the grouping sees. */
  function WithAmount(emails: seq<Email>): seq<Email> {
    Seqs.Filter(emails, (e: Email) => e.amount.Some?)
  }

  /** The categories of the rows with an amount, each once. */
  function SpendingCategories(emails: seq<Email>): (r: seq<string>)
    ensures forall c :: c in r <==> exists e :: e in emails && e.amount.Some? && e.category == c
    ensures Seqs.NoDuplicates(r)
  {
    var w := WithAmount(emails);
    var cs := seq(|w|, i requires 0 <= i < |w| => w[i].category);
    assert forall c :: c in cs <==> exists e :: e in w && e.category == c by {
      forall c | c in cs ensures exists e :: e in w && e.category == c {
        var i :| 0 <= i < |cs| && cs[i] == c;
        assert w[i] in w;
      }
      forall c | exists e :: e in w && e.category == c ensures c in cs {
        var e :| e in w && e.category == c;
        var i :| 0 <= i < |w| && w[i] == e;
        assert cs[i] == c;
      }
    }
    Seqs.Distinct(cs)
  }

  /** The sum of the amounts in category `c`. */
  function CategorySum(emails: seq<Email>, c: string): int {
    SumAmounts(Seqs.Filter(emails, (e: Email) => e.amount.Some? && e.category == c))
  }

  /** One row per category, before ordering. */
  function CategoryTotals(emails: seq<Email>): (r: seq<CategoryTotal>)
    ensures Seqs.NoDuplicates(r)
    ensures forall t: CategoryTotal :: t in r <==> t.amount == CategorySum(emails, t.name) && t.name in SpendingCategories(emails)
  {
    var cs := SpendingCategories(emails);
    var r := seq(|cs|, i requires 0 <= i < |cs| => CategoryTotal(cs[i], CategorySum(emails, cs[i])));
    assert forall t: CategoryTotal :: t in r <==> t.amount == CategorySum(emails, t.name) && t.name in cs by {
      forall t: CategoryTotal | t.amount == CategorySum(emails, t.name) && t.name in cs ensures t in r {
        var i :| 0 <= i < |cs| && cs[i] == t.name;
        assert r[i] == t;
      }
    }
    r
  }

  /** `ORDER BY sum(amount) DESC`. */
  const LargerFirst := (a: CategoryTotal, b: CategoryTotal) => a.amount >= b.amount

  lemma LargerFirstIsTotalPreorder()
    ensures Sorting.TotalPreorder(LargerFirst)
  {
  }

  /** The category totals, largest sum first. */
  function SortedTotals(emails: seq<Email>): (r: seq<CategoryTotal>)
    ensures multiset(r) == multiset(CategoryTotals(emails))
    ensures Sorting.Sorted(r, LargerFirst)
  {
    LargerFirstIsTotalPreorder();
    Sorting.Sort(CategoryTotals(emails), LargerFirst)
  }

  function ExpensesByCategory(emails: seq<Email>): seq<CategoryTotal> {
    Sorting.Page(SortedTotals(emails), TopCategories, 0)
  }

  /** The rows are the first five of the sorted category totals. */
  lemma ExpensesAreSortedTotals(emails: seq<Email>)
    ensures var sorted := SortedTotals(emails);
            var r := ExpensesByCategory(emails);
            && |r| <= TopCategories
            && (|sorted| >= TopCategories ==> |r| == TopCategories)
            && (|sorted| < TopCategories ==> r == sorted)
            && (forall i :: 0 <= i < |r| ==> r[i] == sorted[i])
            && Seqs.NoDuplicates(sorted)
            && (forall t :: t in sorted <==> t in CategoryTotals(emails))
  {
    var totals := CategoryTotals(emails);
    var sorted := SortedTotals(emails);
    Seqs.PermutationMembers(totals, sorted);
    Seqs.PermutationKeepsNoDuplicates(totals, sorted);
  }

  /** At most five rows, largest sum first. */
  lemma ExpensesByCategoryOrdered(emails: seq<Email>)
    ensures var r := ExpensesByCategory(emails);
            && |r| <= TopCategories
            && forall i, j :: 0 <= i < j < |r| ==> r[i].amount >= r[j].amount
  {
    Sorting.PageSorted(SortedTotals(emails), TopCategories, 0, LargerFirst);
  }

  /** Each row is the true sum of a category that has amounts, and no
      category appears twice. */
  lemma ExpensesByCategoryRows(emails: seq<Email>)
    ensures var r := ExpensesByCategory(emails);
            && (forall i :: 0 <= i < |r| ==>
                  r[i].amount == CategorySum(emails, r[i].name)
                  && exists e :: e in emails && e.amount.Some? && e.category == r[i].name)
            && (forall i, j :: 0 <= i < j < |r| ==> r[i].name != r[j].name)
  {
    ExpensesAreSortedTotals(emails);
    var sorted := SortedTotals(emails);
    var r := ExpensesByCategory(emails);
    forall i | 0 <= i < |r|
      ensures r[i].amount == CategorySum(emails, r[i].name)
      ensures r[i].name in SpendingCategories(emails)
    {
      assert sorted[i] in sorted;
    }
    forall i, j | 0 <= i < j < |r| ensures r[i].name != r[j].name {
      assert sorted[i] in sorted && sorted[j] in sorted;
    }
  }

  /** Every category with amounts is listed, or there are five rows and its
      sum is no larger than the fifth. */
  lemma ExpensesByCategoryTopFive(emails: seq<Email>)
    ensures var r := ExpensesByCategory(emails);
            forall e :: e in emails && e.amount.Some? ==>
              (exists i :: 0 <= i < |r| && r[i].name == e.category)
              || (|r| == TopCategories && CategorySum(emails, e.category) <= r[TopCategories - 1].amount)
  {
    var r := ExpensesByCategory(emails);
    forall e | e in emails && e.amount.Some?
      ensures (exists i :: 0 <= i < |r| && r[i].name == e.category)
              || (|r| == TopCategories && CategorySum(emails, e.category) <= r[TopCategories - 1].amount)
    {
      assert e.category in SpendingCategories(emails);
      ListedOrSmaller(emails, e.category);
    }
  }

  /** One category with amounts: listed, or no larger than the fifth row. */
  lemma ListedOrSmaller(emails: seq<Email>, c: string)
    requires c in SpendingCategories(emails)
    ensures var r := ExpensesByCategory(emails);
            (exists i :: 0 <= i < |r| && r[i].name == c)
            || (|r| == TopCategories && CategorySum(emails, c) <= r[TopCategories - 1].amount)
  {
    ExpensesAreSortedTotals(emails);
    var sorted := SortedTotals(emails);
    var r := ExpensesByCategory(emails);
    var t := CategoryTotal(c, CategorySum(emails, c));
    assert t in CategoryTotals(emails);
    var k :| 0 <= k < |sorted| && sorted[k] == t;
    if k < |r| {
      assert r[k] == t;
    } else {
      assert LargerFirst(sorted[TopCategories - 1], sorted[k]);
    }
  }

  // ---------------------------------------------------------------------
  // Contacts: one row per (sender name, sender address).

  datatype Sender = Sender(name: string, address: string)

  datatype Contact = Contact(
    id: string, name: string, email: string, emailCount: nat,
    totalAmount: Option<int>, lastEmailDate: Timestamp)

  function SenderOf(e: Email): Sender {
    Sender(e.senderName, e.senderEmail)
  }

  /** Some email comes from sender `s`. */
  predicate HasSender(emails: seq<Email>, s: Sender) {
    exists e :: e in emails && SenderOf(e) == s
  }

  /** The distinct senders, in order of first appearance. */
  function Senders(emails: seq<Email>): (r: seq<Sender>)
    ensures forall s :: s in r <==> HasSender(emails, s)
    ensures Seqs.NoDuplicates(r)
  {
    var ss := seq(|emails|, i requires 0 <= i < |emails| => SenderOf(emails[i]));
    assert forall s :: s in ss <==> HasSender(emails, s) by {
      forall s | HasSender(emails, s) ensures s in ss {
        var e :| e in emails && SenderOf(e) == s;
        var i :| 0 <= i < |emails| && emails[i] == e;
        assert ss[i] == s;
      }
    }
    Seqs.Distinct(ss)
  }

  function FromSender(emails: seq<Email>, s: Sender): seq<Email> {
    Seqs.Filter(emails, (e: Email) => SenderOf(e) == s)
  }

  /** `sum(amount)`: NULL when no row of the group has an amount. */
  function TotalAmount(es: seq<Email>): (r: Option<int>)
    ensures r.None? <==> forall e :: e in es ==> e.amount.None?
  {
    if forall e :: e in es ==> e.amount.None? then None else Some(SumAmounts(es))
  }

  /** `max(received_at)` of a non-empty group. */
  function Latest(es: seq<Email>): (t: Timestamp)
    requires |es| > 0
    ensures forall e :: e in es ==> e.receivedAt <= t
    ensures exists e :: e in es && e.receivedAt == t
    decreases |es|
  {
    if |es| == 1 then es[0].receivedAt
    else
      assert forall e :: e in es <==> e == es[0] || e in es[1..] by {
        assert es == [es[0]] + es[1..];
      }
      var rest := Latest(es[1..]);
      if es[0].receivedAt >= rest then es[0].receivedAt else rest
  }

  /** The contact row of sender `s`; the id is the MD5 digest of the address,
      which the model takes as a parameter. */
  function ContactOf(emails: seq<Email>, s: Sender, md5: string -> string): (c: Contact)
    requires HasSender(emails, s)
    ensures c.name == s.name && c.email == s.address && c.id == md5(s.address)
    ensures c.emailCount == |FromSender(emails, s)| > 0
  {
    var group := FromSender(emails, s);
    var e :| e in emails && SenderOf(e) == s;
    assert e in group;
    Contact(md5(s.address), s.name, s.address, |group|, TotalAmount(group), Latest(group))
  }

  /** `ORDER BY max(received_at) DESC`. */
  const LatestFirst := (a: Contact, b: Contact) => a.lastEmailDate >= b.lastEmailDate

  lemma LatestFirstIsTotalPreorder()
    ensures Sorting.TotalPreorder(LatestFirst)
  {
  }

  /** One row per sender, before ordering. */
  function ContactRows(emails: seq<Email>, md5: string -> string): (r: seq<Contact>)
    ensures |r| == |Senders(emails)|
    ensures forall i :: 0 <= i < |r| ==> HasSender(emails, Senders(emails)[i]) && r[i] == ContactOf(emails, Senders(emails)[i], md5)
  {
    var ss := Senders(emails);
    assert forall i :: 0 <= i < |ss| ==> HasSender(emails, ss[i]) by {
      forall i | 0 <= i < |ss| ensures HasSender(emails, ss[i]) {
        assert ss[i] in ss;
      }
    }
    seq(|ss|, i requires 0 <= i < |ss| => ContactOf(emails, ss[i], md5))
  }

  /** The rows are the contacts of exactly the senders, each once. */
  lemma ContactRowsMembers(emails: seq<Email>, md5: string -> string)
    ensures var r := ContactRows(emails, md5);
            && (forall c :: c in r <==> exists s :: HasSender(emails, s) && c == ContactOf(emails, s, md5))
            && Seqs.NoDuplicates(r)
  {
    var ss := Senders(emails);
    var r := ContactRows(emails, md5);
    forall c | exists s :: HasSender(emails, s) && c == ContactOf(emails, s, md5) ensures c in r {
      var s :| HasSender(emails, s) && c == ContactOf(emails, s, md5);
      SenderHasRow(emails, md5, s);
    }
    forall i, j | 0 <= i < j < |r| ensures r[i] != r[j] {
      assert r[i].name == ss[i].name && r[i].email == ss[i].address;
      assert r[j].name == ss[j].name && r[j].email == ss[j].address;
    }
  }

  /** The contact list, most recently heard from first. */
  function Contacts(emails: seq<Email>, md5: string -> string): (r: seq<Contact>)
    ensures multiset(r) == multiset(ContactRows(emails, md5))
    ensures Sorting.Sorted(r, LatestFirst)
  {
    LatestFirstIsTotalPreorder();
    Sorting.Sort(ContactRows(emails, md5), LatestFirst)
  }

  /** Every sender of an email has a row. */
  lemma ContactsCoverSenders(emails: seq<Email>, md5: string -> string)
    ensures var r := Contacts(emails, md5);
            forall e :: e in emails ==> exists i :: 0 <= i < |r| && r[i].name == e.senderName && r[i].email == e.senderEmail
  {
    var rows := ContactRows(emails, md5);
    var r := Contacts(emails, md5);
    forall e | e in emails
      ensures exists i :: 0 <= i < |r| && r[i].name == e.senderName && r[i].email == e.senderEmail
    {
      assert HasSender(emails, SenderOf(e));
      SenderHasRow(emails, md5, SenderOf(e));
      var c := ContactOf(emails, SenderOf(e), md5);
      assert c in multiset(rows);
      assert c in multiset(r);
      var i :| 0 <= i < |r| && r[i] == c;
    }
  }

  /** The contact of any sender is one of the rows. */
  lemma SenderHasRow(emails: seq<Email>, md5: string -> string, s: Sender)
    requires HasSender(emails, s)
    ensures ContactOf(emails, s, md5) in ContactRows(emails, md5)
  {
    var ss := Senders(emails);
    var r := ContactRows(emails, md5);
    assert s in ss;
    var i :| 0 <= i < |ss| && ss[i] == s;
    assert r[i] == ContactOf(emails, s, md5);
  }

  /** A row is the contact of the sender it names. */
  lemma RowIsContactOfItsSender(emails: seq<Email>, md5: string -> string, c: Contact)
    requires c in ContactRows(emails, md5)
    ensures HasSender(emails, Sender(c.name, c.email))
    ensures c == ContactOf(emails, Sender(c.name, c.email), md5)
  {
    var r := ContactRows(emails, md5);
    var i :| 0 <= i < |r| && r[i] == c;
  }

  /** No sender has two rows. */
  lemma ContactsDistinctSenders(emails: seq<Email>, md5: string -> string)
    ensures var r := Contacts(emails, md5);
            forall i, j :: 0 <= i < j < |r| ==> r[i].name != r[j].name || r[i].email != r[j].email
  {
    var rows := ContactRows(emails, md5);
    var r := Contacts(emails, md5);
    ContactRowsMembers(emails, md5);
    Seqs.PermutationKeepsNoDuplicates(rows, r);
    forall i, j | 0 <= i < j < |r| ensures r[i].name != r[j].name || r[i].email != r[j].email {
      assert r[i] in multiset(rows) && r[j] in multiset(rows);
      RowIsContactOfItsSender(emails, md5, r[i]);
      RowIsContactOfItsSender(emails, md5, r[j]);
    }
  }

  /** Each row counts its sender's emails, sums their amounts, carries the
      date of the latest one, and takes its id from the address; the rows
      come most recent first. */
  lemma ContactsRows(emails: seq<Email>, md5: string -> string)
    ensures var r := Contacts(emails, md5);
            && (forall i :: 0 <= i < |r| ==>
                  var group := FromSender(emails, Sender(r[i].name, r[i].email));
                  && r[i].id == md5(r[i].email)
                  && r[i].emailCount == |group| > 0
                  && r[i].totalAmount == TotalAmount(group)
                  && (forall e :: e in group ==> e.receivedAt <= r[i].lastEmailDate)
                  && (exists e :: e in group && e.receivedAt == r[i].lastEmailDate))
            && (forall i, j :: 0 <= i < j < |r| ==> r[i].lastEmailDate >= r[j].lastEmailDate)
  {
    var rows := ContactRows(emails, md5);
    var r := Contacts(emails, md5);
    ContactRowsMembers(emails, md5);
    Seqs.PermutationMembers(rows, r);
    forall i | 0 <= i < |r|
      ensures var group := FromSender(emails, Sender(r[i].name, r[i].email));
              && r[i].id == md5(r[i].email)
              && r[i].emailCount == |group| > 0
              && r[i].totalAmount == TotalAmount(group)
              && (forall e :: e in group ==> e.receivedAt <= r[i].lastEmailDate)
              && (exists e :: e in group && e.receivedAt == r[i].lastEmailDate)
    {
      assert r[i] in multiset(rows);
      RowIsContactOfItsSender(emails, md5, r[i]);
    }
  }
}
