# Financial email dashboard — a verified model

This project models the core of a dashboard for financial emails
(invoices, receipts, bills, tax documents) in Dafny.

Server side:

- **Schema.** The relational schema (`users`, `labels`, `emails`,
  `attachments` and `email_labels`) with its defaults, keys and cascading
  foreign keys.
- **Storage.** The storage layer, as an in-memory database whose methods
  change the tables as the SQL statements would.
- **Queries.** The read queries: the filtered, ordered and paginated email
  list with each email's labels and attachments, the lookup by id, the
  dashboard totals, the expenses per category and the contact list.
- **Routes.** The HTTP layer: the authentication gate, login and
  registration, `/api/auth/me`, the dashboard route, the email list and
  lookup routes, and the CSV export.

Client side:

- **Forms.** The label and email form dialogs: validation, defaults, the
  request they send and the colour presets.
- **Filters.** The advanced-filter rule list.
- **Email table.** The request it sends, the row selection, the badge
  colours and the export/Drive button.
- **Pages.** The label, contact, email and settings pages.
- **Auth guard.** The guard that sends unauthenticated visitors to the
  login page.

JavaScript semantics the code relies on are modelled explicitly:

- `parseInt` (leading white space, sign, `0x`, NaN as `None`);
- truthiness of empty strings;
- `||` defaults;
- query strings that name each key at most once (a repeated key, which Express reads as an array, is not modelled);
- PostgreSQL's `ILIKE` patterns, which the email search builds from the raw search text (Findings; the list itself is modelled with the corrected substring search, see "Left out");
- the query builder's `LIMIT`/`OFFSET` guard: a limit that is NaN or negative writes no `LIMIT` and lists every matching row, an offset that is NaN or 0 writes no `OFFSET`, and a negative offset reaches PostgreSQL, which refuses it.

Amounts are integer cents bounded as `decimal(10, 2)`. Timestamps are
milliseconds. Clocks, UUID and MD5 generation, `toISOString` and
`new Date(text)` are parameters of the operations that use them.

Modules, one per source file:

| module | source |
|---|---|
| `Schema` | shared/schema.ts |
| `Storage` (mutations, class `DatabaseStorage`) and `Queries` (reads) | server/storage.ts |
| `Ilike` | the `ILIKE` condition |
| `Routes` | server/routes.ts |
| `Csv` | the export writer in server/routes.ts, plus an RFC 4180 reader used to state the round trip |
| `JsInt` | JavaScript's `parseInt` |
| `LabelForm` | client/src/components/label-form-dialog.tsx |
| `EmailForm` | client/src/components/email-form-dialog.tsx |
| `AdvancedFilters` | client/src/components/advanced-filters.tsx |
| `EmailsTable` | client/src/components/emails-table.tsx |
| `LabelsPage` | client/src/pages/labels.tsx |
| `ContactsPage` | client/src/pages/contacts.tsx |
| `EmailsPage` | client/src/pages/emails.tsx |
| `SettingsPage` | client/src/pages/settings.tsx |
| `AuthGuard` | client/src/components/auth-guard.tsx |

`Text`, `Seqs`, `Sorting` and `Wrappers` are helpers: strings, filtering
and subsequences, a stable insertion sort under a total preorder, and
`Option`/`Result`.

## Model

| member | source | states |
|---|---|---|
| Schema.LabelRow | shared/schema.ts:14-20 | a new label's colour is the supplied one, or #3B82F6 when none is supplied |
| Schema.EmailRow | shared/schema.ts:22-36 | a new email row takes the key and the creation stamps given; category defaults to "Uncategorized" and status to "pending" |
| Schema.EmailInsertKeepsSupplied | shared/schema.ts:94-98 | inserting an email keeps every supplied column and fills only the two defaults |
| Schema.EmailRowFromInsertShape | shared/schema.ts:94-98 | an email row is determined by its insert shape, its id and its creation stamp (round trip row → insert → row) |
| Schema.LabelRowFromInsertShape | shared/schema.ts:89-92 | a label row is determined by its insert shape, its id and createdAt |
| Schema.UserRowFromInsertShape | shared/schema.ts:83-87 | a user row is determined by username, email and password plus id and createdAt |
| Schema.AttachmentRowFromInsertShape | shared/schema.ts:100-103 | an attachment row is determined by its insert shape, id and createdAt |
| Schema.DeleteEmailCascadeConsistent | shared/schema.ts:38-52 | deleting an email with its ON DELETE CASCADE keeps every key and foreign key, removes exactly that key, and removes exactly the attachments and links that referenced it |
| Schema.DeleteLabelCascadeConsistent | shared/schema.ts:48-52 | deleting a label with its cascade keeps every constraint and removes exactly the links to it |
| Storage.PatchEmail | server/storage.ts:251-258 | an update keeps the key and createdAt and sets updatedAt to the current time |
| Storage.PatchEmailNoChange | server/storage.ts:251-258 | an empty update only touches updatedAt |
| Storage.PatchEmailIdempotent | server/storage.ts:251-258 | applying the same update twice is applying it once |
| Storage.PatchEmailColumns | server/storage.ts:251-258 | a supplied column takes the supplied value and every other column keeps its value |
| Storage.UpdateEmailRows | server/storage.ts:251-258 | the UPDATE keeps the table's length and keys and leaves every row with another key unchanged |
| Storage.UpdateEmailKeepsConsistent | server/storage.ts:251-258 | an update keeps the set of keys and all schema constraints |
| Storage.UpdateUnknownEmail | server/storage.ts:251-258 | an update with no matching row changes nothing |
| Storage.UpdatedRow | server/storage.ts:251-258 | RETURNING yields nothing exactly when no row has the key, else the row with that key and the new stamp |
| Storage.UpdatedRowInTable | server/storage.ts:251-258 | the returned row is a row of the updated table |
| Storage.PatchLabel | server/storage.ts:276-283 | a label update keeps id and createdAt |
| Storage.UpdateLabelRows | server/storage.ts:276-283 | the label UPDATE keeps length and keys and leaves other rows unchanged |
| Storage.UpdateLabelKeepsKeys | server/storage.ts:276-283 | a label update keeps the key set and key uniqueness |
| Storage.DriveFileUrlRoundTrip | server/storage.ts:340 | the Drive view URL determines the file id it was made from |
| Storage.PdfFileIdRoundTrip | server/storage.ts:339 | `pdf_<email id>_<stamp>` determines both the email id and the stamp |
| Storage.ExportMarksRow | server/storage.ts:336-353 | after an export the email's row has status "exported" and the file's id and URL, and other rows are unchanged |
| Storage.DatabaseStorage.constructor | server/storage.ts:53 | a database over tables that meet every constraint, with sequences past every issued key |
| Storage.DatabaseStorage.GetUser | server/storage.ts:54-57 | returns the user with that id, or nothing when there is none |
| Storage.DatabaseStorage.GetUserByUsername | server/storage.ts:110-113 | returns the user with that username, or nothing |
| Storage.DatabaseStorage.GetUserByEmail | server/storage.ts:115-118 | returns the user with that address, or nothing |
| Storage.DatabaseStorage.CreateUser | server/storage.ts:120-126 | fails with a unique violation exactly when the key, username or address is taken; otherwise appends the new row; other tables unchanged |
| Storage.DatabaseStorage.GetEmails | server/storage.ts:128-213 | the loop that attaches labels and attachments to each row of the page yields exactly the list specified by Queries.ListEmails |
| Storage.DatabaseStorage.GetEmailById | server/storage.ts:215-241 | returns the lookup specified by Queries.GetEmailById |
| Storage.DatabaseStorage.CreateEmail | server/storage.ts:243-249 | fails exactly when the key is taken; otherwise appends the row with defaults; other tables unchanged |
| Storage.DatabaseStorage.UpdateEmail | server/storage.ts:251-258 | the table becomes UpdateEmailRows of the old one and the returned row is UpdatedRow; constraints kept |
| Storage.DatabaseStorage.DeleteEmail | server/storage.ts:260-262 | removes the email and, by the cascade, its attachments and label links; constraints kept |
| Storage.DatabaseStorage.ExportEmailToPdf | server/storage.ts:336-353 | returns `pdf_<id>_<stamp>` and its Drive URL and applies the export update to the email's row |
| Storage.DatabaseStorage.GetLabels | server/storage.ts:264-266 | returns the labels ordered by name (Queries.LabelsByName) |
| Storage.DatabaseStorage.CreateLabel | server/storage.ts:268-274 | appends the row keyed by the next serial value and advances the sequence |
| Storage.DatabaseStorage.UpdateLabel | server/storage.ts:276-283 | the table becomes UpdateLabelRows; nothing is returned exactly when no label has the id, else a row of the new table with that id |
| Storage.DatabaseStorage.DeleteLabel | server/storage.ts:285-287 | removes exactly the labels with that id and, by the cascade, their links |
| Storage.DatabaseStorage.CreateAttachment | server/storage.ts:289-295 | consumes a serial value; fails with a foreign-key violation exactly when the email does not exist, else appends the row |
| Storage.DatabaseStorage.GetEmailAttachments | server/storage.ts:297-302 | returns the attachments of that email (Queries.AttachmentsOf) |
| Storage.DatabaseStorage.GetDashboardMetrics | server/storage.ts:304-334 | returns the totals specified by Queries.DashboardMetricsAsWritten (the month ending at midnight at the start of its last day) for the month read from the clock |
| Storage.DatabaseStorage.GetExpensesByCategory | server/storage.ts:61-74 | returns Queries.ExpensesByCategory |
| Storage.DatabaseStorage.GetContacts | server/storage.ts:93-108 | returns Queries.Contacts |
| Queries.MatchesAgreeOnPlainSearch | server/storage.ts:159-175 | without `%`, `_` or `\` in the search text, the conditions as written select exactly the rows whose subject contains the text, ignoring case |
| Queries.UnderscoreSearchMatchesAsWritten | server/storage.ts:159-163 | a search for "a_c" selects a subject "abc" as written, though "abc" does not contain "a_c" |
| Queries.MatchesAsWritten | server/storage.ts:157-180 | the WHERE clause as written: subject `ILIKE` the unescaped `%search%` when the search is non-empty, the category unless empty or "All Categories", and the two date bounds, inclusive |
| Queries.NewestFirstIsTotalPreorder | server/storage.ts:153 | `ORDER BY received_at DESC` is a total preorder |
| Queries.MatchingRows | server/storage.ts:153-180 | the rows meeting every condition, with the search as a case-insensitive substring test (corrected; see Findings), as a permutation, sorted newest first |
| Queries.LabelsOf | server/storage.ts:188-198 | an email's labels are exactly the labels linked to it |
| Queries.AttachmentsOf | server/storage.ts:200-203 | an email's attachments are exactly those referencing it |
| Queries.EnrichAll | server/storage.ts:187-210 | one enriched entry per row, in order |
| Queries.ListEmailsFails | server/storage.ts:128-155 | the list query fails exactly when the offset is a negative number; no limit, NaN or negative, makes it fail |
| Queries.LimitClause | server/storage.ts:154 | the query builder writes `LIMIT n` only for a number n that is not negative; NaN and negative limits write none |
| Queries.OffsetClause | server/storage.ts:155 | the query builder writes `OFFSET n` only for a truthy number; NaN and 0 write none, a negative offset is written as it is |
| Queries.PageOf | server/storage.ts:150-155 | the statement's rows: the matching rows newest first, the offset skipped, cut to the limit when there is a LIMIT clause |
| Queries.ListEmails | server/storage.ts:128-213 | the email list: refused for a negative offset, otherwise the page of matching rows each with its labels and attachments (properties in the ListEmails* lemmas) |
| Queries.ListEmailsSound | server/storage.ts:128-213 | every listed email is a table row meeting every condition and carries exactly its own labels and attachments |
| Queries.ListEmailsNewestFirst | server/storage.ts:153 | the listed emails are newest first |
| Queries.ListEmailsSize | server/storage.ts:154-155 | the page holds the matching rows left after the offset (none when it passes them all), cut to the limit only when the limit is a number that is not negative |
| Queries.ListEmailsComplete | server/storage.ts:128-213 | with no condition, no offset and no usable limit or a large enough one, every email is listed as often as the table holds it |
| Queries.FindEmail | server/storage.ts:216-217 | the email with that id, or nothing exactly when no row has it |
| Queries.GetEmailById | server/storage.ts:215-241 | nothing exactly when no row has the id; otherwise a table row with that id |
| Queries.GetEmailByIdUnique | server/storage.ts:215-241 | with unique keys, looking up a row's id returns that row with its labels and attachments |
| Queries.UserBy | server/storage.ts:54-57 | a user whose id, username or address (by the chosen column) is the given text, or nothing exactly when none has it; the same lookup serves lines 110-118 |
| Queries.ByNameIsTotalPreorder | server/storage.ts:265 | ordering labels by name is a total preorder |
| Queries.LabelsByName | server/storage.ts:264-266 | a permutation of the labels, ordered by name |
| Queries.SumAmountsAppend | server/storage.ts:318-319 | the sum of amounts over two tables is the sum of the sums |
| Queries.SumAmountsSkipsNull | server/storage.ts:318-319 | rows without an amount add nothing to `sum(amount)` |
| Queries.DashboardMetricsAsWrittenAddEmail | server/storage.ts:304-334 | adding an email raises the total by one, the uncategorized count by one exactly when it is "Uncategorized", keeps the document count, and raises the month's sum by its amount exactly when it arrived between the first midnight and midnight at the start of the last day |
| Queries.DashboardMetricsAsWritten | server/storage.ts:304-334 | the four totals as written: all emails, the "Uncategorized" ones, all attachments, and the amounts received from the month's first midnight to midnight at the start of its last day |
| Queries.DashboardMetricsAddEmail | server/storage.ts:304-334 | with the month corrected to end at the next month: adding an email raises the total by one, the uncategorized count by one exactly when it is "Uncategorized", keeps the document count, and raises the month's sum by its amount exactly when it arrived in the month |
| Queries.MonthlyExpensesAgree | server/storage.ts:318-326 | the month range as written and the whole month agree unless an email arrived on the last day after midnight |
| Queries.LastDayExpenseDropped | server/storage.ts:323-324 | an expense received one millisecond after midnight on the month's last day is missing from the total as written |
| Queries.SpendingCategories | server/storage.ts:64-69 | the groups: exactly the categories of rows with an amount, each once |
| Queries.CategoryTotals | server/storage.ts:62-69 | one (category, sum) per category with amounts, no duplicates |
| Queries.LargerFirstIsTotalPreorder | server/storage.ts:70 | `ORDER BY sum DESC` is a total preorder |
| Queries.SortedTotals | server/storage.ts:70 | a permutation of the category totals, largest first |
| Queries.ExpensesAreSortedTotals | server/storage.ts:70-71 | the rows are the first five sorted totals (all of them when fewer) |
| Queries.ExpensesByCategory | server/storage.ts:60-73 | the per-category sums of the emails with an amount, largest first, at most five (properties in the ExpensesByCategory* lemmas) |
| Queries.ExpensesByCategoryOrdered | server/storage.ts:70-71 | at most five rows, largest sum first |
| Queries.ExpensesByCategoryRows | server/storage.ts:62-69 | each row is the true sum of a category that has amounts; no category twice |
| Queries.ExpensesByCategoryTopFive | server/storage.ts:61-74 | every category with amounts is listed, or five rows are and its sum is no larger than the fifth |
| Queries.ListedOrSmaller | server/storage.ts:61-74 | a category with amounts is listed, or five rows are and its sum is no larger than the fifth |
| Queries.Senders | server/storage.ts:104 | exactly the (name, address) pairs of some email, each once |
| Queries.TotalAmount | server/storage.ts:100 | `sum(amount)` is NULL exactly when no email of the group has an amount |
| Queries.Latest | server/storage.ts:101 | `max(received_at)`: no email of the group is later and one has that date |
| Queries.ContactOf | server/storage.ts:94-101 | a sender's row: its name and address, md5 of the address as id, the group's size as the count |
| Queries.LatestFirstIsTotalPreorder | server/storage.ts:105 | ordering by latest date, descending, is a total preorder |
| Queries.ContactRows | server/storage.ts:93-104 | one row per sender, each the sender's contact |
| Queries.ContactRowsMembers | server/storage.ts:93-104 | the rows are exactly the contacts of the senders, without duplicates |
| Queries.Contacts | server/storage.ts:93-108 | a permutation of the rows, most recent first |
| Queries.ContactsCoverSenders | server/storage.ts:93-108 | every email's sender has a row |
| Queries.SenderHasRow | server/storage.ts:93-108 | the grouped row of any sender is among the rows |
| Queries.RowIsContactOfItsSender | server/storage.ts:94-104 | every row is the contact of the sender it names |
| Queries.ContactsDistinctSenders | server/storage.ts:104 | no sender has two rows |
| Queries.ContactsRows | server/storage.ts:93-108 | each row counts its sender's emails, sums their amounts, carries the latest date and the md5 id; rows most recent first |
| Ilike.PercentMatchesAll | server/storage.ts:161 | the pattern `%` matches every text |
| Ilike.LikeMatch | server/storage.ts:161 | `LIKE` with escape character `\`: `%` any run, `_` any character, `\c` the character c, others themselves |
| Ilike.IlikeMatch | server/storage.ts:161 | `ILIKE`: `LIKE` after folding both sides to lower case (ASCII letters only) |
| Ilike.PlainPrefixMatch | server/storage.ts:161 | a wildcard-free pattern followed by `%` matches exactly the texts it begins |
| Ilike.LeadingPercent | server/storage.ts:161 | a leading `%` matches exactly when the rest matches some suffix |
| Ilike.PlainSearchIsSubstring | server/storage.ts:159-163 | for a search text without `%`, `_` or `\`, `ILIKE '%text%'` is case-insensitive substring search |
| Ilike.MatchAtIsOccurrence | server/storage.ts:159-163 | a plain text followed by `%` matches from a position exactly when the text occurs there |
| Ilike.UnderscoreIsWildcard | server/storage.ts:161 | `_` in the search text matches any character |
| Csv.Escape | server/routes.ts:348-349 | every `"` doubled: the count of quotes doubles and the length grows by it |
| Csv.EscapeChar | server/routes.ts:348-349 | a quote becomes two quotes and any other character stays itself |
| Csv.EscapeQuoteFree | server/routes.ts:348-349 | a text without quotes is unchanged by escaping |
| Csv.RenderUnsigned | server/routes.ts:352 | a non-negative amount in cents is written with at least one integer digit, the point and two decimals |
| Csv.RenderCents | server/routes.ts:352 | a signed amount in cents is written with at least four characters |
| Csv.DecimalDigits | server/routes.ts:352 | the digits written for cents recompose the amount |
| Csv.UnsignedRoundTrip | server/routes.ts:352 | reading a written non-negative amount gives the amount back |
| Csv.CentsRoundTrip | server/routes.ts:352 | reading a written signed amount gives it back |
| Csv.AmountText | server/routes.ts:352 | the amount column is empty exactly when there is no amount, and otherwise reads back as the amount |
| Csv.RowValues | server/routes.ts:347-356 | one value per header column |
| Csv.RowFields | server/routes.ts:347-356 | each field is the quoted, escaped value of its column |
| Csv.RowAsWrittenAgrees | server/routes.ts:347-356 | when the six unescaped columns hold no quote, the row as written is the corrected row |
| Csv.RowAsWritten | server/routes.ts:347-356 | a line as written: subject and sender name quoted and escaped, the other six only quoted, joined by commas |
| Csv.CsvAsWritten | server/routes.ts:345-359 | the export as written: the bare header line, then one line as written per email, joined by line feeds |
| Csv.CsvAsWrittenAgrees | server/routes.ts:345-359 | when no email has a quote in its six unescaped values, the export as written is the corrected export |
| Csv.ExportQuerySucceeds | server/routes.ts:324-331 | the export's query (limit 1000, offset 0) never fails |
| Csv.QuotedBodyRoundTrip | server/routes.ts:348 | reading an escaped, quoted value gives the value back |
| Csv.QuotedBodyDoubledQuote | server/routes.ts:348-349 | inside a quoted field, a doubled quote reads as one quote |
| Csv.QuotedBodyPlainChar | server/routes.ts:348-349 | inside a quoted field, any character but a quote reads as itself |
| Csv.UnquotedRoundTrip | server/routes.ts:346 | a bare value without separators reads back as itself |
| Csv.FieldRoundTrip | server/routes.ts:346-356 | any correctly encoded field reads back as its value |
| Csv.RecordRoundTrip | server/routes.ts:356 | a comma-joined line of encoded fields reads back as the values |
| Csv.CsvRoundTrip | server/routes.ts:359 | lines joined by line feeds read back as the records |
| Csv.HeaderNamePlain | server/routes.ts:334-343 | no header name contains a comma, line feed or quote |
| Csv.HeaderEncodes | server/routes.ts:334-346 | the bare header names are correct encodings of themselves |
| Csv.CsvReadsBack | server/routes.ts:345-359 | the export reads back as the header and each email's eight values, in order |
| Csv.UnescapedQuoteBreaksField | server/routes.ts:350-355 | a quoted but unescaped `a"b` does not read back as `a"b`; escaped, it does |
| JsInt.TrimStart | server/routes.ts:180-181 | `parseInt` skips leading white space and line terminators, and only those |
| JsInt.ParseInt | server/routes.ts:180-181 | `parseInt` with no radix: leading white space skipped, one sign, `0x`/`0X` for base 16, the longest digit run, NaN (`None`) without digits |
| JsInt.Leading | server/routes.ts:180-181 | the longest prefix of accepted characters |
| JsInt.LeadingOf | server/routes.ts:180-181 | a run of accepted characters followed by one that is not accepted is read up to that character |
| JsInt.MagnitudeReadsNumber | server/routes.ts:180-181 | the digits of a decimal numeral, followed by anything but a digit or `x`, are read as its value |
| JsInt.ParseIntUnsigned | server/routes.ts:180-181 | text without leading white space or sign is read by its digits alone |
| JsInt.ParseIntMinus | server/routes.ts:180-181 | a leading minus sign negates the digits after it, and NaN stays NaN |
| JsInt.ParseIntReadsNumber | server/routes.ts:180-181 | a decimal numeral followed by anything but a digit or `x` is read as its value |
| JsInt.ParseIntNegative | server/routes.ts:180-181 | a minus sign negates |
| JsInt.ParseIntSkipsSpace | server/routes.ts:180-181 | leading white space does not change the result |
| JsInt.ParseIntNaN | server/routes.ts:180-181 | a text starting with anything but white space, a sign or a digit is NaN |
| JsInt.ParseIntHex | server/routes.ts:180-181 | " 0x1A" reads as 26 |
| JsInt.HexMagnitude | server/routes.ts:180-181 | behind `0x` or `0X`, the hexadecimal digits up to the first other character are the value |
| JsInt.ParseIntHexDigits | server/routes.ts:180-181 | `parseInt` reads `0x`/`0X` followed by hexadecimal digits in base 16 |
| Routes.RequireAuth | server/routes.ts:15-20 | the request passes exactly when the session holds a user with a non-empty id, else 401 "Authentication required" |
| Routes.Me | server/routes.ts:68-74 | 200 with the session user exactly when there is one, else 401 "Not authenticated" |
| Routes.AuthorizedMe | server/routes.ts:15-20 | a request that passes the gate is answered by `me` with the session user |
| Routes.MeWithoutAuthorization | server/routes.ts:16 | a session user with an empty id is answered by `me` but refused by the gate |
| Routes.DashboardRoute | server/routes.ts:157-165 | 200 with the dashboard totals as written (Queries.DashboardMetricsAsWritten) exactly when the gate lets the request through, else 401 |
| Routes.Credentials | server/routes.ts:29-30 | a user is found only when some user has that username and password |
| Routes.CredentialsExactlyMatching | server/routes.ts:29-30 | with unique usernames, login fails exactly when no user has that username and password |
| Routes.LoginOpensGate | server/routes.ts:24-40 | after a successful login with stored ids non-empty, the gate lets the session through |
| Routes.Session.constructor | server/routes.ts:7-12 | a new session holds no user |
| Routes.Session.Login | server/routes.ts:24-40 | 200 and the session set to the found user exactly when the credentials match; otherwise 401 "Invalid credentials" and the session unchanged |
| Routes.Session.Register | server/routes.ts:42-55 | invalid body gives 400; a taken key, username or address gives 500 with the table unchanged; otherwise 201, the user stored and the session set |
| Routes.RouteQuery | server/routes.ts:168-186 | limit and offset default to "50" and "0" and go through `parseInt`, NaN kept as NaN; the query exists exactly when both dates are absent, empty or valid |
| Routes.DateBound | server/routes.ts:184-185 | an absent or empty date is no bound; otherwise `new Date(text)`, with an unreadable date making the call fail |
| Routes.RouteDefaults | server/routes.ts:170-172 | with no parameters the route asks for the first 50 emails, unfiltered |
| Routes.DefaultTexts | server/routes.ts:171-172 | `parseInt("50")` is 50 and `parseInt("0")` is 0 |
| Routes.RouteLimitAllListsEverything | server/routes.ts:170-180 | `?limit=all` gives a NaN limit, the query succeeds and lists every email |
| Routes.ListEmailsRoute | server/routes.ts:168-193 | 200 with the storage list exactly when the query exists and succeeds, else 500 "Failed to fetch emails" |
| Routes.GetEmailRoute | server/routes.ts:195-209 | 404 "Email not found" exactly when no email has the id; otherwise 200 with that email, its labels and attachments |
| Routes.ExportCsvReadsBack | server/routes.ts:315-368 | the export lists at most 1000 emails and reads back as the header and each email's values |
| Routes.ExportCsv | server/routes.ts:315-368 | the full export's text: the list for at most 1000 emails from the first with the request's filters, written as CSV with every field escaped (corrected; see Findings) |
| Routes.ExportRouteAsWritten | server/routes.ts:127-154 | the handler registered first answers 200 exactly when the gate passes and both dates are absent, empty or valid; 401 "Authentication required" at the gate; 500 "Failed to export CSV" for an invalid date |
| Routes.ExportRouteAsWrittenLosesExport | server/routes.ts:127-154 | the text that handler sends is never the export for the same filters, whatever the tables hold |
| LabelForm.Errors | client/src/components/label-form-dialog.tsx:27-31 | each message appears exactly when its rule is broken; no message exactly when the data is acceptable |
| LabelForm.Defaults | client/src/components/label-form-dialog.tsx:51-57 | a new label starts empty with colour #FF6B9D; an edited one starts from its name, its colour (#FF6B9D when that is empty) and its description |
| LabelForm.CreateDefaultsNeedName | client/src/components/label-form-dialog.tsx:27-57 | the new-label form's only error is the missing name |
| LabelForm.EditDefaultsAcceptable | client/src/components/label-form-dialog.tsx:27-57 | editing a valid label starts from acceptable data |
| LabelForm.RequestFor | client/src/components/label-form-dialog.tsx:62-63 | POST /api/labels exactly when creating; PUT to /api/labels/<id> when editing |
| LabelForm.EditRequestNamesLabel | client/src/components/label-form-dialog.tsx:62 | the edit URL's last segment reads back, by `parseInt`, as the label's id |
| LabelForm.PresetIsHexColor | client/src/components/label-form-dialog.tsx:40-44 | each preset is a six-digit hex colour |
| LabelForm.PresetsAcceptable | client/src/components/label-form-dialog.tsx:29-44 | every preset passes the colour rule |
| LabelForm.StoredDefaultColorAcceptable | shared/schema.ts:17 | the database's default colour passes the form's colour rule |
| EmailForm.Errors | client/src/components/email-form-dialog.tsx:34-42 | each message appears exactly when its field is empty or the address invalid; none exactly when acceptable |
| EmailForm.OptionalFieldsFree | client/src/components/email-form-dialog.tsx:38-40 | body and amount never affect acceptance |
| EmailForm.DefaultsNeedCategory | client/src/components/email-form-dialog.tsx:51-62 | the initial form reports the missing category and no filling of name, address and subject alone makes it acceptable |
| EmailForm.OfferedCategoriesAcceptable | client/src/components/email-form-dialog.tsx:104-114 | choosing any offered category satisfies the category rule |
| EmailForm.SubmissionFor | client/src/components/email-form-dialog.tsx:64-79 | a POST to /api/emails of the form's fields with the date rewritten to ISO form; nothing is sent exactly when the date cannot be converted |
| EmailForm.SubmissionAcceptable | client/src/components/email-form-dialog.tsx:64-79 | an accepted form whose date converts sends data the same rules accept |
| AdvancedFilters.Removed | client/src/components/advanced-filters.tsx:35-37 | the remaining rules are exactly those with another id, in their order |
| AdvancedFilters.Updated | client/src/components/advanced-filters.tsx:39-43 | rules with that id are merged with the update, others unchanged, same length |
| AdvancedFilters.AddThenRemove | client/src/components/advanced-filters.tsx:25-37 | removing a just-added rule with a fresh id restores the list |
| AdvancedFilters.UpdateKeepsIds | client/src/components/advanced-filters.tsx:39-43 | an update without an id keeps every rule's id |
| AdvancedFilters.OfferedRemovalKeepsARule | client/src/components/advanced-filters.tsx:129-135 | with distinct ids, removing while the button is offered leaves at least one rule |
| AdvancedFilters.SharedIdRemovalEmpties | client/src/components/advanced-filters.tsx:25-37 | two rules added in the same millisecond share an id, and removing one removes both |
| AdvancedFilters.RuleList.constructor | client/src/components/advanced-filters.tsx:21-23 | the panel starts with the one initial rule |
| AdvancedFilters.RuleList.Add | client/src/components/advanced-filters.tsx:25-33 | appends a new rule keyed by the clock and keeps the others |
| AdvancedFilters.RuleList.Remove | client/src/components/advanced-filters.tsx:35-37 | the list becomes Removed of the old one |
| AdvancedFilters.RuleList.Update | client/src/components/advanced-filters.tsx:39-43 | the list becomes Updated of the old one |
| AdvancedFilters.RuleList.Clear | client/src/components/advanced-filters.tsx:147 | clearing restores the initial rule |
| EmailsTable.RequestParams | client/src/components/emails-table.tsx:23-25 | `search` sent exactly when typed, `category` exactly when one other than "All Categories" is chosen, nothing else |
| EmailsTable.Lookup | client/src/components/emails-table.tsx:26 | the first value of a key, or nothing exactly when no entry has it |
| EmailsTable.RequestParamsRead | client/src/components/emails-table.tsx:23-26 | the server reads exactly the sent search and category and no limit, offset or dates |
| EmailsTable.RequestQuery | client/src/components/emails-table.tsx:20-30 | the server answers with the first 50 emails matching the search and category, whatever the date range |
| EmailsTable.ListedIds | client/src/components/emails-table.tsx:103 | the ids of the listed emails, in order |
| EmailsTable.Toggled | client/src/components/emails-table.tsx:93-99 | checking appends the id; unchecking removes every occurrence and keeps the other ids in order |
| EmailsTable.HeaderMeansAllSelected | client/src/components/emails-table.tsx:156 | with distinct, listed selected ids, the header is checked exactly when every listed row is selected |
| EmailsTable.StaleSelectionChecksHeader | client/src/components/emails-table.tsx:156 | a selection kept from other rows can check the header while no listed row is selected |
| EmailsTable.Selection.constructor | client/src/components/emails-table.tsx:16 | nothing is selected at first |
| EmailsTable.Selection.Select | client/src/components/emails-table.tsx:93-99 | the selection becomes Toggled of the old one |
| EmailsTable.Selection.SelectAll | client/src/components/emails-table.tsx:101-107 | all listed ids in order, or nothing |
| EmailsTable.CategoryColor | client/src/components/emails-table.tsx:109-120 | the neutral classes exactly when the lower-cased category is none of invoice, receipt, tax document |
| EmailsTable.StatusColor | client/src/components/emails-table.tsx:122-133 | the neutral classes exactly when the lower-cased status is none of processed, exported, pending |
| EmailsTable.BadgesIgnoreCase | client/src/components/emails-table.tsx:109-133 | a value and its lower-cased form get the same badges |
| EmailsTable.ExportedRowShowsLink | client/src/components/emails-table.tsx:224 | after a PDF export, the row offers its Drive file instead of another export |
| LabelsPage.Filtered | client/src/pages/labels.tsx:54-56 | exactly the labels whose name contains the query ignoring case, in their order |
| LabelsPage.EmptyQueryKeepsAll | client/src/pages/labels.tsx:54-56 | an empty search shows every label |
| LabelsPage.LongerQueryShowsFewer | client/src/pages/labels.tsx:54-56 | typing more never shows a label that was hidden |
| LabelsPage.FilteredKeepsNameOrder | client/src/pages/labels.tsx:54-56 | filtering the server's list keeps it ordered by name |
| LabelsPage.ViewOf | client/src/pages/labels.tsx:104-111 | rows exactly when some label is left; the no-match panel exactly when none is left and a search was typed |
| LabelsPage.NoLabelsYetMeansNone | client/src/pages/labels.tsx:104-111 | the create-your-first-label panel appears only when there are no labels |
| ContactsPage.Filtered | client/src/pages/contacts.tsx:25-28 | exactly the contacts whose name or address contains the query ignoring case, in their order |
| ContactsPage.EmptyQueryKeepsAll | client/src/pages/contacts.tsx:25-28 | an empty search shows every contact |
| ContactsPage.LongerQueryShowsFewer | client/src/pages/contacts.tsx:25-28 | typing more never shows a hidden contact |
| ContactsPage.FilteredKeepsRecency | client/src/pages/contacts.tsx:25-28 | filtering the server's list keeps it most recent first |
| ContactsPage.ViewOf | client/src/pages/contacts.tsx:58-71 | loading panel exactly while loading; rows exactly when some contact is left; no-match panel exactly when none is left after a search |
| ContactsPage.NoContactsYetMeansNone | client/src/pages/contacts.tsx:58-71 | the contacts-will-appear panel appears only when there are no contacts |
| EmailsPage.ExportParams | client/src/pages/emails.tsx:63-68 | search exactly when typed, category exactly when not "All Categories", dateRange exactly when not "Last 30 days", each key once |
| EmailsPage.InitialExportHasNoParams | client/src/pages/emails.tsx:37-68 | the page as first shown exports with an empty query string |
| EmailsPage.ExportMatchesTable | client/src/pages/emails.tsx:48-68 | for every offered category, the export sends the table's own search and category entries plus the date range when it is not the default |
| SettingsPage.Changed | client/src/pages/settings.tsx:50-58 | the setting takes the new value, every other section and every other key of the section keep theirs; an unknown section is created |
| SettingsPage.ChangeTwice | client/src/pages/settings.tsx:50-58 | changing one setting twice keeps the last value |
| SettingsPage.ChangesCommute | client/src/pages/settings.tsx:50-58 | changes to two different settings can be made in either order |
| SettingsPage.ShownNumber | client/src/pages/settings.tsx:219 | the number box shows the stored number, or 0 for NaN |
| SettingsPage.ClearedNumberShowsZero | client/src/pages/settings.tsx:216-226 | clearing the retention box stores NaN and shows 0 |
| SettingsPage.LowerTitles | client/src/pages/settings.tsx:60-109 | the lower-cased section titles are the record's section names |
| SettingsPage.InitialSectionsPresent | client/src/pages/settings.tsx:24-109 | every listed setting exists in the initial record under its lower-cased section title |
| SettingsPage.ChangeKeepsSectionsPresent | client/src/pages/settings.tsx:50-109 | no change loses a listed setting |
| SettingsPage.SettingsState.constructor | client/src/pages/settings.tsx:24-48 | the page starts from the initial settings |
| SettingsPage.SettingsState.Change | client/src/pages/settings.tsx:50-58 | the settings become Changed of the old ones |
| AuthGuard.RenderOf | client/src/components/auth-guard.tsx:33-50 | the verifying panel exactly while loading, the page exactly when loaded and authenticated, nothing otherwise |
| AuthGuard.RedirectsWhenNothingShown | client/src/components/auth-guard.tsx:25-48 | the browser is sent to the login page exactly when the guard renders nothing |
| AuthGuard.Settled | client/src/components/auth-guard.tsx:10-18 | a settled query fails exactly on an error reply and carries the user of a 200 reply |
| AuthGuard.GuardFollowsSession | client/src/components/auth-guard.tsx:10-50 | once `/api/auth/me` has answered, the page is shown exactly when the session holds a user |
| AuthGuard.GuardShowsPageTheGateRefuses | client/src/components/auth-guard.tsx:16 | a session user with an empty id sees the page while the gate refuses its requests |
| AuthGuard.Browser.constructor | client/src/components/auth-guard.tsx:22 | a browser with the given storage and location |
| AuthGuard.Browser.GuardEffect | client/src/components/auth-guard.tsx:25-31 | when loaded and not authenticated, `auth-token` is removed and the location becomes /login; otherwise nothing changes |

## Left out

- The first `GET /api/export/csv` handler (server/routes.ts:127-154) is registered before the full one at lines 315-368. Express answers with the first, so the full writer is unreachable. `Routes.ExportRouteAsWritten` models the first handler. `Routes.ExportCsv` models the second, with the CSV escaping corrected (see Findings).
- Queries.MatchingRows: keeps the rows whose subject contains the search text, ignoring the case of ASCII letters only (PostgreSQL folds by the database's locale). The code as written pastes the text into an `ILIKE` pattern, so `%`, `_` and `\` act as wildcards (`Queries.MatchesAsWritten`, see Findings). The two agree on search texts without those characters (`Queries.MatchesAgreeOnPlainSearch`).
- Queries.ListEmails: built on `Queries.MatchingRows`, so it uses the corrected search too.
- Storage.DatabaseStorage.GetEmails: returns `Queries.ListEmails`, with the corrected search.
- Routes.ListEmailsRoute: answers with `Storage.DatabaseStorage.GetEmails`, with the corrected search.
- The `LIMIT`/`OFFSET` guard (`Queries.LimitClause`, `Queries.OffsetClause`) follows the PostgreSQL dialect of the drizzle-orm query builder. The repository's package.json is not part of this model, so the library version is not pinned.
- Queries.LabelsByName: orders names by character code, as PostgreSQL's C collation does. Under a language collation such as en_US.UTF-8, case and accents are compared differently; that order is not modelled.
- LabelsPage.Filtered: `toLowerCase` is modelled on ASCII letters only; JavaScript folds every Unicode letter, so a label "Ärzte" searched with "ä" is kept by the page and dropped by the model.
- ContactsPage.Filtered: the same ASCII-only folding of `toLowerCase` for contact names and addresses.
- Ilike.IlikeMatch: folds ASCII letters only. PostgreSQL folds by the database's locale (LC_CTYPE), which is not modelled.
- EmailsTable.CategoryColor and EmailsTable.StatusColor: fold ASCII letters only, where JavaScript folds every Unicode letter.
- Storage.DatabaseStorage.GetLabels: returns `Queries.LabelsByName`, so it assumes the C collation too.
- The email page's export button opens `/api/emails/export` with a `dateRange` parameter. No export route serves that path: it matches `GET /api/emails/:id` (server/routes.ts:195) with id "export", and the ids are free text (shared/schema.ts:7), so the answer is 404 "Email not found" unless some email has id "export" (`Routes.GetEmailRoute`). No route reads `dateRange`. The model states only the query string the button builds.
- The email table's query key includes the date range, but the request never sends it; `EmailsTable.RequestQuery` states this.
- The `/api/contacts` route text that stands inside the `IStorage` interface (server/storage.ts:36) is not registered by server/routes.ts, so it is not modelled as a route.
- `POST /api/sync`, `POST /api/auth/logout` and `getTransactionVolume`: not modelled. They call external services, destroy the session or use `now()` and `to_char` month names.
- The thin routes for creating, updating and deleting emails and labels, and for the PDF export route, are not modelled as routes. The storage methods they call are modelled; the routes add only zod validation and status codes.
- Storage.DatabaseStorage.UpdateLabel: an update with no columns (which Drizzle refuses) is modelled as a plain update.
- Storage.DatabaseStorage.DeleteLabel: takes any integer id, including negative ones, which match no row.
- PostgreSQL returns `count(*)` as a string and `sum(...)::float` as a float. The model uses integers and cents; `parseFloat` and floating point are not modelled.
- The order of rows with equal sort keys is not modelled. The model's sort is stable; PostgreSQL's order among ties is unspecified.
- Strings are sequences of characters, not UTF-16 code units. Length limits (100 and 500) count characters.
- JsInt.ParseIntReadsNumber: `parseInt` results beyond 2^53 lose precision in JavaScript; the model's integers are exact.
- Repeated query parameters (which Express turns into arrays) and URL percent-encoding are not modelled.
- EmailForm.Errors: zod's e-mail regular expression is a parameter `isEmail`, not written out.
- AuthGuard.Settled: the default query function that turns a non-2xx reply into an error is not part of this model (client/src/lib/queryClient.ts is missing), so a reply's effect on the query state is taken as stated.
- Routes.Session.Login: a request body without `username` or `password` is not modelled; the parameters are always strings.
- LabelsPage.ViewOf: the page's separate loading skeleton (client/src/pages/labels.tsx:58) is not modelled.
- MD5, UUID generation, clocks, `toISOString` and `new Date(text)` are parameters.

## Findings

| source | as written | input that shows it | evidently intended | confidence | as-written member | corrected member |
|---|---|---|---|---|---|---|
| server/storage.ts:323-324 | the month's expenses are those received up to midnight at the start of the last day (`lte` of `new Date(y, m + 1, 0)`) | an expense received at 10:00 on the last day of the month | every expense received in the current month counts | high, not executed | Queries.LastDayExpenseDropped | Queries.DashboardMetricsAddEmail |
| server/storage.ts:159-163 | the search text is pasted into an `ILIKE` pattern without escaping `%`, `_` and `\` | search "a_c" matches subject "abc" | case-insensitive substring search for the typed text | medium, not executed | Queries.UnderscoreSearchMatchesAsWritten | Queries.ListEmailsSound |
| server/routes.ts:350-355 | only subject and sender name have `"` doubled; the other six quoted fields are not escaped | a label named `a"b` breaks its field when read back | every field escaped so the file reads back as its values | high, not executed | Csv.UnescapedQuoteBreaksField | Csv.CsvReadsBack |
| server/routes.ts:127-154 | a stub `GET /api/export/csv` handler that sends an empty body is registered before the full one | any authorised export request, whatever the tables hold | the full export of lines 315-368 answers | high, not executed | Routes.ExportRouteAsWrittenLosesExport | Routes.ExportCsvReadsBack |
