/** The storage layer (server/storage.ts) as an in-memory database: the five
    tables are fields of `DatabaseStorage`, each mutator changes them as its
    SQL statement would (including `ON DELETE CASCADE` and the `serial`
    sequences), and each read returns the corresponding query of module
    `Queries`. */
module Storage {
  import opened Wrappers
  import opened Schema
  import opened Text
  import Seqs
  import Queries
  import Sorting

  /** A violated PRIMARY KEY/UNIQUE or FOREIGN KEY constraint. */
  datatype StoreError = UniqueViolation | ForeignKeyViolation

  // ---------------------------------------------------------------------
  // Partial updates.

  /** One column of a partial update: left alone, or set to a value. */
  datatype Patch<T> = Keep | Set(value: T)

  function Apply<T>(p: Patch<T>, v: T): T {
    if p.Set? then p.value else v
  }

  /** The columns `updateEmail` may be given. */
  datatype EmailPatch = EmailPatch(
    subject: Patch<string>,
    snippet: Patch<Option<string>>,
    senderName: Patch<string>,
    senderEmail: Patch<string>,
    amount: Patch<Option<Cents>>,
    category: Patch<string>,
    status: Patch<string>,
    driveFileId: Patch<Option<string>>,
    driveFileUrl: Patch<Option<string>>,
    receivedAt: Patch<Timestamp>)

  const NoEmailChange := EmailPatch(Keep, Keep, Keep, Keep, Keep, Keep, Keep, Keep, Keep, Keep)

  /** `SET` each supplied column and `updated_at = now`; the key and the
      creation stamp never change. */
  function PatchEmail(e: Email, p: EmailPatch, now: Timestamp): (r: Email)
    ensures r.id == e.id && r.createdAt == e.createdAt && r.updatedAt == now
  {
    Email(e.id, Apply(p.subject, e.subject), Apply(p.snippet, e.snippet),
          Apply(p.senderName, e.senderName), Apply(p.senderEmail, e.senderEmail),
          Apply(p.amount, e.amount), Apply(p.category, e.category), Apply(p.status, e.status),
          Apply(p.driveFileId, e.driveFileId), Apply(p.driveFileUrl, e.driveFileUrl),
          Apply(p.receivedAt, e.receivedAt), e.createdAt, now)
  }

  /** An empty update only touches the update stamp. */
  lemma PatchEmailNoChange(e: Email, now: Timestamp)
    ensures PatchEmail(e, NoEmailChange, now) == e.(updatedAt := now)
  {
  }

  /** Applying the same update twice is applying it once. */
  lemma PatchEmailIdempotent(e: Email, p: EmailPatch, t1: Timestamp, t2: Timestamp)
    ensures PatchEmail(PatchEmail(e, p, t1), p, t2) == PatchEmail(e, p, t2)
  {
  }

  /** A supplied column takes the supplied value and any other column keeps
      its value, read through the insert shape of the row. */
  lemma PatchEmailColumns(e: Email, p: EmailPatch, now: Timestamp)
    ensures var r := EmailInsertOf(PatchEmail(e, p, now));
            var o := EmailInsertOf(e);
            && r.subject == Apply(p.subject, o.subject)
            && r.snippet == Apply(p.snippet, o.snippet)
            && r.senderName == Apply(p.senderName, o.senderName)
            && r.senderEmail == Apply(p.senderEmail, o.senderEmail)
            && r.amount == Apply(p.amount, o.amount)
            && r.category == Some(Apply(p.category, o.category.value))
            && r.status == Some(Apply(p.status, o.status.value))
            && r.driveFileId == Apply(p.driveFileId, o.driveFileId)
            && r.driveFileUrl == Apply(p.driveFileUrl, o.driveFileUrl)
            && r.receivedAt == Apply(p.receivedAt, o.receivedAt)
  {
  }

  /** `UPDATE emails SET ... WHERE id = $id` over the whole table. */
  function UpdateEmailRows(emails: seq<Email>, id: string, p: EmailPatch, now: Timestamp): (r: seq<Email>)
    ensures |r| == |emails|
    ensures forall i :: 0 <= i < |r| ==> r[i].id == emails[i].id
    ensures forall i :: 0 <= i < |r| && emails[i].id != id ==> r[i] == emails[i]
  {
    seq(|emails|, i requires 0 <= i < |emails| =>
      if emails[i].id == id then PatchEmail(emails[i], p, now) else emails[i])
  }

  /** An update keeps the set of keys, so every constraint still holds. */
  lemma UpdateEmailKeepsConsistent(users: seq<User>, emails: seq<Email>, labels: seq<Label>,
                                   attachments: seq<Attachment>, links: seq<EmailLabel>,
                                   id: string, p: EmailPatch, now: Timestamp)
    requires Consistent(users, emails, labels, attachments, links)
    ensures EmailIds(UpdateEmailRows(emails, id, p, now)) == EmailIds(emails)
    ensures Consistent(users, UpdateEmailRows(emails, id, p, now), labels, attachments, links)
  {
    var r := UpdateEmailRows(emails, id, p, now);
    forall x | x in EmailIds(emails) ensures x in EmailIds(r) {
      var i :| 0 <= i < |emails| && emails[i].id == x;
      assert r[i] in r;
    }
    forall x | x in EmailIds(r) ensures x in EmailIds(emails) {
      var i :| 0 <= i < |r| && r[i].id == x;
      assert emails[i] in emails;
    }
    assert Seqs.KeysUnique(r, EmailKey) by {
      forall i, j | 0 <= i < j < |r| ensures EmailKey(r[i]) != EmailKey(r[j]) {
        assert EmailKey(emails[i]) != EmailKey(emails[j]);
      }
    }
  }

  /** An update with no matching row changes nothing. */
  lemma UpdateUnknownEmail(emails: seq<Email>, id: string, p: EmailPatch, now: Timestamp)
    requires id !in EmailIds(emails)
    ensures UpdateEmailRows(emails, id, p, now) == emails
  {
    var r := UpdateEmailRows(emails, id, p, now);
    forall i | 0 <= i < |emails| ensures r[i] == emails[i] {
      assert emails[i] in emails;
    }
  }

  /** The row `RETURNING` yields: the updated row with that key, if any. */
  function UpdatedRow(emails: seq<Email>, id: string, p: EmailPatch, now: Timestamp): (r: Option<Email>)
    ensures r.None? <==> id !in EmailIds(emails)
    ensures r.Some? ==> r.value.id == id && r.value.updatedAt == now
  {
    match Queries.FindEmail(emails, id)
    case None => None
    case Some(e) => Some(PatchEmail(e, p, now))
  }

  /** The row returned is a row of the updated table. */
  lemma UpdatedRowInTable(emails: seq<Email>, id: string, p: EmailPatch, now: Timestamp)
    requires UpdatedRow(emails, id, p, now).Some?
    ensures UpdatedRow(emails, id, p, now).value in UpdateEmailRows(emails, id, p, now)
  {
    var e := Queries.FindEmail(emails, id).value;
    var i :| 0 <= i < |emails| && emails[i] == e;
    assert UpdateEmailRows(emails, id, p, now)[i] == PatchEmail(e, p, now);
  }

  /** The columns `updateLabel` may be given. */
  datatype LabelPatch = LabelPatch(name: Patch<string>, color: Patch<string>, description: Patch<Option<string>>)

  function PatchLabel(l: Label, p: LabelPatch): (r: Label)
    ensures r.id == l.id && r.createdAt == l.createdAt
  {
    Label(l.id, Apply(p.name, l.name), Apply(p.color, l.color), Apply(p.description, l.description), l.createdAt)
  }

  function UpdateLabelRows(labels: seq<Label>, id: int, p: LabelPatch): (r: seq<Label>)
    ensures |r| == |labels|
    ensures forall i :: 0 <= i < |r| ==> r[i].id == labels[i].id
    ensures forall i :: 0 <= i < |r| && labels[i].id != id ==> r[i] == labels[i]
  {
    seq(|labels|, i requires 0 <= i < |labels| =>
      if labels[i].id == id then PatchLabel(labels[i], p) else labels[i])
  }

  /** A label update keeps the set of keys. */
  lemma UpdateLabelKeepsKeys(labels: seq<Label>, id: int, p: LabelPatch)
    requires Seqs.KeysUnique(labels, LabelKey)
    ensures LabelIds(UpdateLabelRows(labels, id, p)) == LabelIds(labels)
    ensures Seqs.KeysUnique(UpdateLabelRows(labels, id, p), LabelKey)
  {
    var r := UpdateLabelRows(labels, id, p);
    forall x | x in LabelIds(labels) ensures x in LabelIds(r) {
      var i :| 0 <= i < |labels| && labels[i].id == x;
      assert r[i] in r;
    }
    forall x | x in LabelIds(r) ensures x in LabelIds(labels) {
      var i :| 0 <= i < |r| && r[i].id == x;
      assert labels[i] in labels;
    }
    assert Seqs.KeysUnique(r, LabelKey) by {
      forall i, j | 0 <= i < j < |r| ensures LabelKey(r[i]) != LabelKey(r[j]) {
        assert LabelKey(labels[i]) != LabelKey(labels[j]);
      }
    }
  }

  // ---------------------------------------------------------------------
  // The Drive file a PDF export is recorded under.

  const DriveUrlPrefix := "https://drive.google.com/file/d/"
  const DriveUrlSuffix := "/view"
  const ExportedStatus := "exported"

  /** `pdf_<email id>_<milliseconds>`. */
  function PdfFileId(emailId: string, stamp: nat): string {
    "pdf_" + emailId + "_" + NatToString(stamp)
  }

  function DriveFileUrl(fileId: string): string {
    DriveUrlPrefix + fileId + DriveUrlSuffix
  }

  /** The file id a Drive view URL names. */
  function FileIdOfUrl(url: string): Option<string> {
    if |DriveUrlPrefix| + |DriveUrlSuffix| <= |url| && StartsWith(url, DriveUrlPrefix) && EndsWith(url, DriveUrlSuffix)
    then Some(url[|DriveUrlPrefix|..|url| - |DriveUrlSuffix|])
    else None
  }

  lemma DriveFileUrlRoundTrip(fileId: string)
    ensures FileIdOfUrl(DriveFileUrl(fileId)) == Some(fileId)
  {
    var u := DriveFileUrl(fileId);
    assert u[..|DriveUrlPrefix|] == DriveUrlPrefix;
    assert u[|u| - |DriveUrlSuffix|..] == DriveUrlSuffix;
    assert u[|DriveUrlPrefix|..|u| - |DriveUrlSuffix|] == fileId;
  }

  /** The email id and the stamp a PDF file id was made from: what lies
      between `pdf_` and the last `_`, and the number after it. */
  function SplitPdfFileId(f: string): Option<(string, nat)> {
    var k := LastIndexOf(f, '_');
    if StartsWith(f, "pdf_") && 4 <= k && AllDigits(f[k + 1..]) && k + 1 < |f|
    then Some((f[4..k], DigitsValue(f[k + 1..])))
    else None
  }

  /** A PDF file id determines the email and the stamp it was made from,
      whatever characters the email id contains. */
  lemma PdfFileIdRoundTrip(emailId: string, stamp: nat)
    ensures SplitPdfFileId(PdfFileId(emailId, stamp)) == Some((emailId, stamp))
  {
    var f := PdfFileId(emailId, stamp);
    var d := NatToString(stamp);
    var n := 4 + |emailId|;
    assert f[n] == '_';
    assert f[n + 1..] == d;
    assert forall j :: n < j < |f| ==> f[j] == d[j - n - 1] && IsDigit(d[j - n - 1]);
    var k := LastIndexOf(f, '_');
    assert k == n;
    assert f[..4] == "pdf_";
    assert f[4..k] == emailId;
    NatToStringRoundTrip(stamp);
  }

  /** The update an export applies: status "exported" and the file's id and URL. */
  function ExportPatch(fileId: string, fileUrl: string): EmailPatch {
    NoEmailChange.(status := Set(ExportedStatus), driveFileId := Set(Some(fileId)), driveFileUrl := Set(Some(fileUrl)))
  }

  /** After an export, the exported row carries the status and the file, and
      every other row is unchanged. */
  lemma ExportMarksRow(emails: seq<Email>, id: string, fileId: string, now: Timestamp)
    ensures var r := UpdateEmailRows(emails, id, ExportPatch(fileId, DriveFileUrl(fileId)), now);
            forall i :: 0 <= i < |r| ==>
              if emails[i].id == id then
                r[i].status == ExportedStatus && r[i].driveFileId == Some(fileId)
                && r[i].driveFileUrl == Some(DriveFileUrl(fileId))
                && r[i].subject == emails[i].subject && r[i].amount == emails[i].amount
                && r[i].category == emails[i].category && r[i].receivedAt == emails[i].receivedAt
              else r[i] == emails[i]
  {
  }

  // ---------------------------------------------------------------------
  // The database.

  class DatabaseStorage {
    var users: seq<User>
    var emails: seq<Email>
    var labels: seq<Label>
    var attachments: seq<Attachment>
    var emailLabels: seq<EmailLabel>
    /** The next values of the `serial` sequences of `labels.id` and `attachments.id`. */
    var labelSerial: nat
    var attachmentSerial: nat

    /** The schema's constraints hold and each sequence is past every key it issued. */
    ghost predicate Valid()
      reads this
    {
      && Consistent(users, emails, labels, attachments, emailLabels)
      && (forall l :: l in labels ==> l.id < labelSerial)
      && (forall a :: a in attachments ==> a.id < attachmentSerial)
    }

    /** A database holding the given rows (rows may be written by other
        clients, such as the mail import, so any consistent state is a
        possible starting point). */
    constructor(users: seq<User>, emails: seq<Email>, labels: seq<Label>, attachments: seq<Attachment>,
                emailLabels: seq<EmailLabel>, labelSerial: nat, attachmentSerial: nat)
      requires Consistent(users, emails, labels, attachments, emailLabels)
      requires forall l :: l in labels ==> l.id < labelSerial
      requires forall a :: a in attachments ==> a.id < attachmentSerial
      ensures Valid()
      ensures this.users == users && this.emails == emails && this.labels == labels
      ensures this.attachments == attachments && this.emailLabels == emailLabels
      ensures this.labelSerial == labelSerial && this.attachmentSerial == attachmentSerial
    {
      this.users := users;
      this.emails := emails;
      this.labels := labels;
      this.attachments := attachments;
      this.emailLabels := emailLabels;
      this.labelSerial := labelSerial;
      this.attachmentSerial := attachmentSerial;
    }

    // --- users ---

    method GetUser(id: string) returns (r: Option<User>)
      ensures r == Queries.UserBy(users, Queries.ById, id)
    {
      r := Queries.UserBy(users, Queries.ById, id);
    }

    method GetUserByUsername(username: string) returns (r: Option<User>)
      ensures r == Queries.UserBy(users, Queries.ByUsername, username)
    {
      r := Queries.UserBy(users, Queries.ByUsername, username);
    }

    method GetUserByEmail(email: string) returns (r: Option<User>)
      ensures r == Queries.UserBy(users, Queries.ByEmail, email)
    {
      r := Queries.UserBy(users, Queries.ByEmail, email);
    }

    /** Inserts a user under the generated key `id`; a clash on the key, the
        username or the address is a unique violation and inserts nothing. */
    method CreateUser(id: string, x: InsertUser, now: Timestamp) returns (r: Result<User, StoreError>)
      requires Valid()
      modifies this
      ensures Valid()
      ensures r.Err? <==> exists u :: u in old(users) && (u.id == id || u.username == x.username || u.email == x.email)
      ensures r.Err? ==> r.error == UniqueViolation && users == old(users)
      ensures r.Ok? ==> r.value == UserRow(id, x, now) && users == old(users) + [r.value]
      ensures emails == old(emails) && labels == old(labels) && attachments == old(attachments)
      ensures emailLabels == old(emailLabels)
      ensures labelSerial == old(labelSerial) && attachmentSerial == old(attachmentSerial)
    {
      if exists u :: u in users && (u.id == id || u.username == x.username || u.email == x.email) {
        return Err(UniqueViolation);
      }
      var row := UserRow(id, x, now);
      var t := users + [row];
      forall i, j | 0 <= i < j < |t|
        ensures t[i].id != t[j].id && t[i].username != t[j].username && t[i].email != t[j].email
      {
        if j == |users| {
          assert t[i] in users;
        }
      }
      users := t;
      r := Ok(row);
    }

    // --- emails ---

    /** The email list, built as the source builds it: the matching page is
        fetched, then each row is completed with its labels and attachments. */
    method GetEmails(q: Queries.EmailQuery) returns (r: Result<seq<EmailWithLabels>, Queries.QueryError>)
      ensures r == Queries.ListEmails(emails, labels, attachments, emailLabels, q)
    {
      var offset := Queries.Skipped(q);
      if offset < 0 {
        return Err(Queries.NegativeOffset);
      }
      var emailResults := Queries.PageOf(emails, q);
      var emailsWithLabels: seq<EmailWithLabels> := [];
      for i := 0 to |emailResults|
        invariant emailsWithLabels == Queries.EnrichAll(emailResults[..i], labels, attachments, emailLabels)
      {
        var labelsResult := Queries.LabelsOf(labels, emailLabels, emailResults[i].id);
        var attachmentsResult := Queries.AttachmentsOf(attachments, emailResults[i].id);
        emailsWithLabels := emailsWithLabels + [EmailWithLabels(emailResults[i], labelsResult, attachmentsResult)];
      }
      assert emailResults[..|emailResults|] == emailResults;
      r := Ok(emailsWithLabels);
    }

    method GetEmailById(id: string) returns (r: Option<EmailWithLabels>)
      ensures r == Queries.GetEmailById(emails, labels, attachments, emailLabels, id)
    {
      r := Queries.GetEmailById(emails, labels, attachments, emailLabels, id);
    }

    /** Inserts an email under the generated key `id` with the column
        defaults; a clash on the key inserts nothing. */
    method CreateEmail(id: string, x: InsertEmail, now: Timestamp) returns (r: Result<Email, StoreError>)
      requires Valid()
      modifies this
      ensures Valid()
      ensures r.Err? <==> id in EmailIds(old(emails))
      ensures r.Err? ==> r.error == UniqueViolation && emails == old(emails)
      ensures r.Ok? ==> r.value == EmailRow(id, x, now) && emails == old(emails) + [r.value]
      ensures users == old(users) && labels == old(labels) && attachments == old(attachments)
      ensures emailLabels == old(emailLabels)
      ensures labelSerial == old(labelSerial) && attachmentSerial == old(attachmentSerial)
    {
      if id in EmailIds(emails) {
        return Err(UniqueViolation);
      }
      var row := EmailRow(id, x, now);
      Seqs.KeysUniqueAppend(emails, row, EmailKey);
      assert EmailIds(emails + [row]) == EmailIds(emails) + {id};
      emails := emails + [row];
      r := Ok(row);
    }

    /** Sets the supplied columns and the update stamp of the row with key
        `id`, returning the updated row, or nothing when there is none. */
    method UpdateEmail(id: string, p: EmailPatch, now: Timestamp) returns (r: Option<Email>)
      requires Valid()
      modifies this
      ensures Valid()
      ensures emails == UpdateEmailRows(old(emails), id, p, now)
      ensures r == UpdatedRow(old(emails), id, p, now)
      ensures users == old(users) && labels == old(labels) && attachments == old(attachments)
      ensures emailLabels == old(emailLabels)
      ensures labelSerial == old(labelSerial) && attachmentSerial == old(attachmentSerial)
    {
      r := UpdatedRow(emails, id, p, now);
      UpdateEmailKeepsConsistent(users, emails, labels, attachments, emailLabels, id, p, now);
      emails := UpdateEmailRows(emails, id, p, now);
    }

    /** Deletes the row with key `id` with its attachments and label links. */
    method DeleteEmail(id: string)
      requires Valid()
      modifies this
      ensures Valid()
      ensures emails == EmailsWithout(old(emails), id)
      ensures attachments == AttachmentsWithout(old(attachments), id)
      ensures emailLabels == LinksWithoutEmail(old(emailLabels), id)
      ensures users == old(users) && labels == old(labels)
      ensures labelSerial == old(labelSerial) && attachmentSerial == old(attachmentSerial)
    {
      DeleteEmailCascadeConsistent(users, emails, labels, attachments, emailLabels, id);
      assert forall a :: a in AttachmentsWithout(attachments, id) ==> a.id < attachmentSerial;
      emails := EmailsWithout(emails, id);
      attachments := AttachmentsWithout(attachments, id);
      emailLabels := LinksWithoutEmail(emailLabels, id);
    }

    /** Records a PDF export of email `emailId` made at `stamp` milliseconds:
        the row gets status "exported" and the Drive file's id and URL, which
        are returned whether or not such a row exists. */
    method ExportEmailToPdf(emailId: string, stamp: nat, now: Timestamp) returns (fileId: string, fileUrl: string)
      requires Valid()
      modifies this
      ensures Valid()
      ensures fileId == PdfFileId(emailId, stamp)
      ensures fileUrl == DriveFileUrl(fileId)
      ensures emails == UpdateEmailRows(old(emails), emailId, ExportPatch(fileId, fileUrl), now)
      ensures users == old(users) && labels == old(labels) && attachments == old(attachments)
      ensures emailLabels == old(emailLabels)
      ensures labelSerial == old(labelSerial) && attachmentSerial == old(attachmentSerial)
    {
      fileId := PdfFileId(emailId, stamp);
      fileUrl := DriveFileUrl(fileId);
      var _ := UpdateEmail(emailId, ExportPatch(fileId, fileUrl), now);
    }

    // --- labels ---

    method GetLabels() returns (r: seq<Label>)
      ensures r == Queries.LabelsByName(labels)
    {
      r := Queries.LabelsByName(labels);
    }

    /** Inserts a label under the next value of the label sequence. */
    method CreateLabel(x: InsertLabel, now: Timestamp) returns (l: Label)
      requires Valid()
      modifies this
      ensures Valid()
      ensures l == LabelRow(old(labelSerial), x, now)
      ensures labels == old(labels) + [l] && labelSerial == old(labelSerial) + 1
      ensures users == old(users) && emails == old(emails) && attachments == old(attachments)
      ensures emailLabels == old(emailLabels) && attachmentSerial == old(attachmentSerial)
    {
      l := LabelRow(labelSerial, x, now);
      Seqs.KeysUniqueAppend(labels, l, LabelKey);
      assert LabelIds(labels + [l]) == LabelIds(labels) + {l.id};
      labels := labels + [l];
      labelSerial := labelSerial + 1;
    }

    /** Sets the supplied columns of the label with key `id`. */
    method UpdateLabel(id: int, p: LabelPatch) returns (r: Option<Label>)
      requires Valid()
      modifies this
      ensures Valid()
      ensures labels == UpdateLabelRows(old(labels), id, p)
      ensures r.None? <==> forall l :: l in old(labels) ==> l.id != id
      ensures r.Some? ==> r.value in labels && r.value.id == id
      ensures users == old(users) && emails == old(emails) && attachments == old(attachments)
      ensures emailLabels == old(emailLabels)
      ensures labelSerial == old(labelSerial) && attachmentSerial == old(attachmentSerial)
    {
      UpdateLabelKeepsKeys(labels, id, p);
      var updated := UpdateLabelRows(labels, id, p);
      forall l | l in updated ensures l.id < labelSerial {
        var i :| 0 <= i < |updated| && updated[i] == l;
        assert labels[i] in labels;
      }
      labels := updated;
      r := Seqs.First(labels, (l: Label) => l.id == id);
      if r.None? {
        forall l | l in old(labels) ensures l.id != id {
          var i :| 0 <= i < |old(labels)| && old(labels)[i] == l;
          assert labels[i] in labels;
        }
      }
    }

    /** Deletes the label with key `id` and its links to emails. */
    method DeleteLabel(id: int)
      requires Valid()
      modifies this
      ensures Valid()
      ensures forall l :: l in labels <==> l in old(labels) && l.id != id
      ensures forall k :: k in emailLabels <==> k in old(emailLabels) && k.labelId != id
      ensures users == old(users) && emails == old(emails) && attachments == old(attachments)
      ensures labelSerial == old(labelSerial) && attachmentSerial == old(attachmentSerial)
    {
      if id >= 0 {
        DeleteLabelCascadeConsistent(users, emails, labels, attachments, emailLabels, id);
        labels := LabelsWithout(labels, id);
        emailLabels := LinksWithoutLabel(emailLabels, id);
      }
    }

    // --- attachments ---

    /** Inserts an attachment under the next value of the attachment
        sequence. The sequence advances even when the owning email is
        missing and the insert fails. */
    method CreateAttachment(x: InsertAttachment, now: Timestamp) returns (r: Result<Attachment, StoreError>)
      requires Valid()
      modifies this
      ensures Valid()
      ensures attachmentSerial == old(attachmentSerial) + 1
      ensures r.Err? <==> x.emailId !in EmailIds(emails)
      ensures r.Err? ==> r.error == ForeignKeyViolation && attachments == old(attachments)
      ensures r.Ok? ==> r.value == AttachmentRow(old(attachmentSerial), x, now)
                        && attachments == old(attachments) + [r.value]
      ensures users == old(users) && emails == old(emails) && labels == old(labels)
      ensures emailLabels == old(emailLabels) && labelSerial == old(labelSerial)
    {
      var id := attachmentSerial;
      attachmentSerial := attachmentSerial + 1;
      if x.emailId !in EmailIds(emails) {
        return Err(ForeignKeyViolation);
      }
      var row := AttachmentRow(id, x, now);
      Seqs.KeysUniqueAppend(attachments, row, AttachmentKey);
      attachments := attachments + [row];
      r := Ok(row);
    }

    method GetEmailAttachments(emailId: string) returns (r: seq<Attachment>)
      ensures r == Queries.AttachmentsOf(attachments, emailId)
    {
      r := Queries.AttachmentsOf(attachments, emailId);
    }

    // --- aggregates ---

    /** The dashboard totals for the month `m` read from the clock, with the
        month range as written. */
    method GetDashboardMetrics(m: Queries.MonthWindow) returns (r: DashboardMetrics)
      ensures r == Queries.DashboardMetricsAsWritten(emails, attachments, m)
    {
      r := Queries.DashboardMetricsAsWritten(emails, attachments, m);
    }

    method GetExpensesByCategory() returns (r: seq<Queries.CategoryTotal>)
      ensures r == Queries.ExpensesByCategory(emails)
    {
      r := Queries.ExpensesByCategory(emails);
    }

    method GetContacts(md5: string -> string) returns (r: seq<Queries.Contact>)
      ensures r == Queries.Contacts(emails, md5)
    {
      r := Queries.Contacts(emails, md5);
    }
  }
}
