/** The HTTP layer (server/routes.ts): the authentication gate, the login,
    registration and "who am I" rules over the session, the email list
    route's parameter handling, the lookup of one email and the CSV export.
    The session is an object whose `user` the login and registration
    handlers assign; the store is the `DatabaseStorage` of module Storage. */
module Routes {
  import opened Wrappers
  import opened Schema
  import opened Text
  import Queries
  import Storage
  import Csv
  import JsInt

  /** What the session keeps about the signed-in user. */
  datatype SessionUser = SessionUser(id: string, username: string, email: string)

  function SessionUserOf(u: User): SessionUser {
    SessionUser(u.id, u.username, u.email)
  }

  /** A JSON reply: a success status with its value, or an error status
      with the message sent as `{ error: ... }`. */
  datatype Reply<T> = Json(status: nat, value: T) | Error(status: nat, message: string)

  // ---------------------------------------------------------------------
  // requireAuth and /api/auth/me

  /** `requireAuth`: the request goes on to its handler (`None`) exactly
      when the session holds a user whose id is not empty (an empty id is
      falsy); otherwise the reply is 401. */
  function RequireAuth(session: Option<SessionUser>): (r: Option<Reply<()>>)
    ensures r.None? <==> session.Some? && |session.value.id| > 0
    ensures r.Some? ==> r.value == Error(401, "Authentication required")
  {
    if session.Some? && session.value.id != "" then None
    else Some(Error(401, "Authentication required"))
  }

  /** `/api/auth/me`: the session's user when there is one, else 401. */
  function Me(session: Option<SessionUser>): (r: Reply<SessionUser>)
    ensures r.Json? <==> session.Some?
    ensures r.Json? ==> r.status == 200 && r.value == session.value
    ensures r.Error? ==> r == Error(401, "Not authenticated")
  {
    match session
    case Some(u) => Json(200, u)
    case None => Error(401, "Not authenticated")
  }

  /** A request that passes the gate is always answered by `me` with the
      session's user. */
  lemma AuthorizedMe(session: Option<SessionUser>)
    requires RequireAuth(session).None?
    ensures Me(session) == Json(200, session.value)
  {
  }

  /** The converse does not hold: a session user with an empty id is
      answered by `me` yet turned away by the gate. */
  lemma MeWithoutAuthorization()
    ensures var s := Some(SessionUser("", "ann", "ann@example.com"));
            Me(s).Json? && RequireAuth(s).Some?
  {
  }

  /** A route behind the gate: the dashboard totals. */
  function DashboardRoute(session: Option<SessionUser>, emails: seq<Email>, attachments: seq<Attachment>,
                          m: Queries.MonthWindow): (r: Reply<DashboardMetrics>)
    ensures r.Json? <==> RequireAuth(session).None?
    ensures r.Json? ==> r.status == 200 && r.value == Queries.DashboardMetricsAsWritten(emails, attachments, m)
    ensures r.Error? ==> r.status == 401
  {
    match RequireAuth(session)
    case Some(e) => Error(e.status, e.message)
    case None => Json(200, Queries.DashboardMetricsAsWritten(emails, attachments, m))
  }

  // ---------------------------------------------------------------------
  // Login

  /** The session user a login with these credentials establishes: the user
      found by the username, if its stored password is the one given. */
  function Credentials(users: seq<User>, username: string, password: string): (r: Option<SessionUser>)
    ensures r.Some? ==> exists u :: u in users && u.username == username && u.password == password
                                    && r.value == SessionUserOf(u)
  {
    match Queries.UserBy(users, Queries.ByUsername, username)
    case Some(u) => if u.password == password then Some(SessionUserOf(u)) else None
    case None => None
  }

  /** With usernames unique, a login succeeds exactly when some user has
      both the username and the password. */
  lemma CredentialsExactlyMatching(users: seq<User>, username: string, password: string)
    requires UsersUnique(users)
    ensures Credentials(users, username, password).None?
            <==> forall u :: u in users ==> u.username != username || u.password != password
  {
    var found := Queries.UserBy(users, Queries.ByUsername, username);
    if found.Some? {
      forall u | u in users && u.username == username
        ensures u == found.value
      {
        var i :| 0 <= i < |users| && users[i] == u;
        var j :| 0 <= j < |users| && users[j] == found.value;
        assert users[i].username == users[j].username;
      }
    }
  }

  /** A successful login of a user with a non-empty id opens the gate. */
  lemma LoginOpensGate(users: seq<User>, username: string, password: string)
    requires forall u :: u in users ==> |u.id| > 0
    requires Credentials(users, username, password).Some?
    ensures RequireAuth(Credentials(users, username, password)).None?
  {
  }

  /** The session of one client. */
  class Session {
    var user: Option<SessionUser>

    constructor()
      ensures user == None
    {
      user := None;
    }

    /** `POST /api/auth/login`: on matching credentials the session user
        becomes the found user's id, username and address and the reply
        carries it; otherwise 401 and the session is untouched. */
    method Login(store: Storage.DatabaseStorage, username: string, password: string) returns (r: Reply<SessionUser>)
      modifies this
      ensures var c := Credentials(store.users, username, password);
              && (r.Json? <==> c.Some?)
              && (r.Json? ==> r.status == 200 && r.value == c.value && user == c)
              && (r.Error? ==> r == Error(401, "Invalid credentials") && user == old(user))
    {
      var found := store.GetUserByUsername(username);
      if found.None? || found.value.password != password {
        return Error(401, "Invalid credentials");
      }
      user := Some(SessionUserOf(found.value));
      r := Json(200, SessionUserOf(found.value));
    }

    /** `POST /api/auth/register`: a body that fails validation (`None`) is
        400; a username, address or key that is taken is 500; otherwise the
        user is stored, the session user becomes the new user and the reply
        is 201. */
    method Register(store: Storage.DatabaseStorage, id: string, body: Option<InsertUser>, now: Timestamp)
      returns (r: Reply<SessionUser>)
      requires store.Valid()
      modifies this, store
      ensures store.Valid()
      ensures body.None? ==> r == Error(400, "Invalid user data") && store.users == old(store.users)
      ensures body.Some? && (exists u :: u in old(store.users) && (u.id == id || u.username == body.value.username || u.email == body.value.email))
              ==> r == Error(500, "Registration failed") && store.users == old(store.users)
      ensures r.Json? <==> body.Some? && forall u :: u in old(store.users) ==> u.id != id && u.username != body.value.username && u.email != body.value.email
      ensures r.Json? ==> && r.status == 201
                          && store.users == old(store.users) + [UserRow(id, body.value, now)]
                          && r.value == SessionUserOf(UserRow(id, body.value, now))
                          && user == Some(r.value)
      ensures r.Error? ==> user == old(user)
      ensures store.emails == old(store.emails) && store.labels == old(store.labels)
      ensures store.attachments == old(store.attachments) && store.emailLabels == old(store.emailLabels)
    {
      if body.None? {
        return Error(400, "Invalid user data");
      }
      var created := store.CreateUser(id, body.value, now);
      if created.Err? {
        return Error(500, "Registration failed");
      }
      user := Some(SessionUserOf(created.value));
      r := Json(201, SessionUserOf(created.value));
    }
  }

  // ---------------------------------------------------------------------
  // GET /api/emails

  /** The query string of the email list route; every parameter may be
      absent. */
  datatype EmailsParams = EmailsParams(
    limit: Option<string>,
    offset: Option<string>,
    search: Option<string>,
    category: Option<string>,
    dateFrom: Option<string>,
    dateTo: Option<string>)

  /** A date parameter: an empty or absent one is no bound; otherwise it is
      read by `parseDate` (`new Date(text)`), and an invalid date is `None`. */
  function DateBound(p: Option<string>, parseDate: string -> Option<Timestamp>): Option<Option<Timestamp>> {
    if p.None? || p.value == "" then Some(None)
    else match parseDate(p.value)
      case Some(t) => Some(Some(t))
      case None => None
  }

  /** A `parseInt` result as a JavaScript number. */
  function NumberOf(v: Option<int>): Queries.JsNumber {
    if v.None? then Queries.NaN else Queries.Num(v.value)
  }

  /** The storage query the route issues: limit and offset default to the
      texts "50" and "0" and go through `parseInt`, NaN included; `None` when
      a date is invalid (`new Date` then gives an Invalid Date, which the
      driver cannot write, so the storage call throws). */
  function RouteQuery(p: EmailsParams, parseDate: string -> Option<Timestamp>): (r: Option<Queries.EmailQuery>)
    ensures r.Some? <==> DateBound(p.dateFrom, parseDate).Some? && DateBound(p.dateTo, parseDate).Some?
    ensures r.Some? ==> && r.value.limit == Some(NumberOf(JsInt.ParseInt(p.limit.GetOr("50"))))
                        && r.value.offset == Some(NumberOf(JsInt.ParseInt(p.offset.GetOr("0"))))
                        && r.value.search == p.search && r.value.category == p.category
                        && r.value.dateFrom == DateBound(p.dateFrom, parseDate).value
                        && r.value.dateTo == DateBound(p.dateTo, parseDate).value
  {
    var limit := NumberOf(JsInt.ParseInt(p.limit.GetOr("50")));
    var offset := NumberOf(JsInt.ParseInt(p.offset.GetOr("0")));
    var from := DateBound(p.dateFrom, parseDate);
    var to := DateBound(p.dateTo, parseDate);
    if from.None? || to.None? then None
    else Some(Queries.EmailQuery(Some(limit), Some(offset), p.search, p.category, from.value, to.value))
  }

  /** The route's defaults are the storage layer's: with no parameters it
      asks for the first 50 emails, unfiltered. */
  lemma RouteDefaults(parseDate: string -> Option<Timestamp>)
    ensures RouteQuery(EmailsParams(None, None, None, None, None, None), parseDate)
            == Some(Queries.EmailQuery(Some(Queries.Num(Queries.DefaultLimit)), Some(Queries.Num(Queries.DefaultOffset)), None, None, None, None))
  {
    DefaultTexts();
  }

  lemma DefaultTexts()
    ensures JsInt.ParseInt("50") == Some(50) && JsInt.ParseInt("0") == Some(0)
  {
    FiftyText();
    ZeroText();
  }

  lemma FiftyText()
    ensures JsInt.ParseInt("50") == Some(50)
  {
    assert NatToString(5) == [DigitChar(5)] == "5";
    assert NatToString(50) == NatToString(5) + [DigitChar(0)] == "50";
    JsInt.ParseIntReadsNumber(50, "");
    assert NatToString(50) + "" == "50";
  }

  lemma ZeroText()
    ensures JsInt.ParseInt("0") == Some(0)
  {
    assert NatToString(0) == [DigitChar(0)] == "0";
    JsInt.ParseIntReadsNumber(0, "");
    assert NatToString(0) + "" == "0";
  }

  /** A limit that is not a number lifts the limit: `?limit=all` lists every
      email. */
  lemma RouteLimitAllListsEverything(emails: seq<Email>, labels: seq<Label>, attachments: seq<Attachment>,
                                     links: seq<EmailLabel>, parseDate: string -> Option<Timestamp>)
    ensures var q := RouteQuery(EmailsParams(Some("all"), None, None, None, None, None), parseDate);
            && q.Some? && q.value.limit == Some(Queries.NaN)
            && Queries.ListEmails(emails, labels, attachments, links, q.value).Ok?
            && |Queries.ListEmails(emails, labels, attachments, links, q.value).value| == |emails|
  {
    var q := Queries.EmailQuery(Some(Queries.NaN), Some(Queries.Num(0)), None, None, None, None);
    LimitAllQuery(parseDate);
    Queries.ListEmailsComplete(emails, labels, attachments, links, q);
  }

  lemma LimitAllQuery(parseDate: string -> Option<Timestamp>)
    ensures RouteQuery(EmailsParams(Some("all"), None, None, None, None, None), parseDate)
            == Some(Queries.EmailQuery(Some(Queries.NaN), Some(Queries.Num(0)), None, None, None, None))
  {
    JsInt.ParseIntNaN("all");
    ZeroText();
  }

  /** `GET /api/emails`: 200 with the storage layer's list for the route's
      query; 500 when a date cannot be used or the database refuses a
      negative offset. */
  method ListEmailsRoute(store: Storage.DatabaseStorage, p: EmailsParams, parseDate: string -> Option<Timestamp>)
    returns (r: Reply<seq<EmailWithLabels>>)
    ensures var q := RouteQuery(p, parseDate);
            && (r.Json? <==> q.Some? && Queries.ListEmails(store.emails, store.labels, store.attachments, store.emailLabels, q.value).Ok?)
            && (r.Json? ==> r.status == 200 && r.value == Queries.ListEmails(store.emails, store.labels, store.attachments, store.emailLabels, q.value).value)
            && (r.Error? ==> r == Error(500, "Failed to fetch emails"))
  {
    var q := RouteQuery(p, parseDate);
    if q.None? {
      return Error(500, "Failed to fetch emails");
    }
    var emails := store.GetEmails(q.value);
    if emails.Err? {
      return Error(500, "Failed to fetch emails");
    }
    r := Json(200, emails.value);
  }

  /** `GET /api/emails/:id`: the email with its labels and attachments, or
      404 when no email has that id. */
  method GetEmailRoute(store: Storage.DatabaseStorage, id: string) returns (r: Reply<EmailWithLabels>)
    ensures r.Error? <==> id !in EmailIds(store.emails)
    ensures r.Error? ==> r == Error(404, "Email not found")
    ensures r.Json? ==> && r.status == 200 && r.value.email in store.emails && r.value.email.id == id
                        && r.value == Queries.Enrich(r.value.email, store.labels, store.attachments, store.emailLabels)
  {
    var email := store.GetEmailById(id);
    if email.None? {
      return Error(404, "Email not found");
    }
    r := Json(200, email.value);
  }

  // ---------------------------------------------------------------------
  // GET /api/export/csv

  /** The export's text: the storage layer's list for the export query (at
      most 1000 emails, newest first), written as CSV. */
  function ExportCsv(emails: seq<Email>, labels: seq<Label>, attachments: seq<Attachment>, links: seq<EmailLabel>,
                     search: Option<string>, category: Option<string>,
                     dateFrom: Option<Timestamp>, dateTo: Option<Timestamp>,
                     iso: Timestamp -> string): string
  {
    Csv.ExportQuerySucceeds(emails, labels, attachments, links, search, category, dateFrom, dateTo);
    Csv.Csv(Queries.ListEmails(emails, labels, attachments, links, Csv.ExportQuery(search, category, dateFrom, dateTo)).value, iso)
  }

  /** The export reads back as the header and, for each of at most 1000
      listed emails in list order, its eight values. */
  lemma ExportCsvReadsBack(emails: seq<Email>, labels: seq<Label>, attachments: seq<Attachment>, links: seq<EmailLabel>,
                           search: Option<string>, category: Option<string>,
                           dateFrom: Option<Timestamp>, dateTo: Option<Timestamp>,
                           iso: Timestamp -> string)
    ensures var q := Csv.ExportQuery(search, category, dateFrom, dateTo);
            var rows := Queries.ListEmails(emails, labels, attachments, links, q).value;
            && |rows| <= 1000
            && Csv.ParseCsv(ExportCsv(emails, labels, attachments, links, search, category, dateFrom, dateTo, iso))
               == Some([Csv.Headers] + seq(|rows|, k requires 0 <= k < |rows| => Csv.RowValues(rows[k], iso)))
  {
    var q := Csv.ExportQuery(search, category, dateFrom, dateTo);
    Csv.ExportQuerySucceeds(emails, labels, attachments, links, search, category, dateFrom, dateTo);
    Queries.ListEmailsSize(emails, labels, attachments, links, q);
    Csv.CsvReadsBack(Queries.ListEmails(emails, labels, attachments, links, q).value, iso);
  }

  /** `GET /api/export/csv` as registered first: behind the gate, it reads
      the query's dates like the list route (an invalid one makes the storage
      call throw, answered 500) and then sends the join of an empty list of
      lines. Express dispatches to the first matching route, so this is the
      handler that answers. */
  function ExportRouteAsWritten(session: Option<SessionUser>, dateFrom: Option<string>, dateTo: Option<string>,
                                parseDate: string -> Option<Timestamp>): (r: Reply<string>)
    ensures r.Json? <==> && RequireAuth(session).None?
                         && DateBound(dateFrom, parseDate).Some?
                         && DateBound(dateTo, parseDate).Some?
    ensures RequireAuth(session).Some? ==> r == Error(401, "Authentication required")
    ensures RequireAuth(session).None? && r.Error? ==> r == Error(500, "Failed to export CSV")
  {
    match RequireAuth(session)
    case Some(e) => Error(401, "Authentication required")
    case None =>
      if DateBound(dateFrom, parseDate).None? || DateBound(dateTo, parseDate).None? then Error(500, "Failed to export CSV")
      else Json(200, Join([], "\n"))
  }

  /** Whatever the tables hold, the answering handler's text is not the
      export: not even the header line comes back. */
  lemma ExportRouteAsWrittenLosesExport(session: Option<SessionUser>,
                                        emails: seq<Email>, labels: seq<Label>, attachments: seq<Attachment>, links: seq<EmailLabel>,
                                        search: Option<string>, category: Option<string>,
                                        dateFrom: Option<string>, dateTo: Option<string>,
                                        parseDate: string -> Option<Timestamp>, iso: Timestamp -> string)
    requires RequireAuth(session).None?
    requires DateBound(dateFrom, parseDate).Some? && DateBound(dateTo, parseDate).Some?
    ensures var from := DateBound(dateFrom, parseDate).value;
            var to := DateBound(dateTo, parseDate).value;
            ExportRouteAsWritten(session, dateFrom, dateTo, parseDate).value
            != ExportCsv(emails, labels, attachments, links, search, category, from, to, iso)
  {
    var from := DateBound(dateFrom, parseDate).value;
    var to := DateBound(dateTo, parseDate).value;
    ExportCsvReadsBack(emails, labels, attachments, links, search, category, from, to, iso);
    var empty := ExportRouteAsWritten(session, dateFrom, dateTo, parseDate).value;
    assert empty == "";
    var parsed := Csv.ParseCsv(empty);
    assert Csv.ParseField("") == Some(("", ""));
    assert parsed == Some([[""]]);
    assert |Csv.Headers| == 8;
  }
}
