/** The relational schema (shared/schema.ts): one record type per table, the
    shapes an INSERT accepts, the column defaults, and the key and
    foreign-key constraints the database enforces. */
module Schema {
  import opened Wrappers
  import Seqs

  /** Milliseconds since the Unix epoch, what a JavaScript `Date` holds. */
  type Timestamp = int

  /** `decimal(10, 2)`: ten significant digits, two of them after the point,
      so an amount is a whole number of cents below 10^10 in magnitude. */
  const CentsBound: int := 10_000_000_000
  type Cents = c: int | -CentsBound < c < CentsBound

  /** PostgreSQL `integer`. */
  type Int32 = x: int | -0x8000_0000 <= x < 0x8000_0000

  const DefaultCategory := "Uncategorized"
  const DefaultStatus := "pending"
  const DefaultLabelColor := "#3B82F6"

  datatype User = User(id: string, username: string, email: string, password: string, createdAt: Timestamp)

  datatype Label = Label(id: nat, name: string, color: string, description: Option<string>, createdAt: Timestamp)

  datatype Email = Email(
    id: string,
    subject: string,
    snippet: Option<string>,
    senderName: string,
    senderEmail: string,
    amount: Option<Cents>,
    category: string,
    status: string,
    driveFileId: Option<string>,
    driveFileUrl: Option<string>,
    receivedAt: Timestamp,
    createdAt: Timestamp,
    updatedAt: Timestamp)

  datatype Attachment = Attachment(
    id: nat, emailId: string, filename: string, mimeType: string, size: Int32,
    content: Option<string>, createdAt: Timestamp)

  datatype EmailLabel = EmailLabel(id: nat, emailId: string, labelId: nat)

  /** An email row together with its labels and attachments, as the API returns it. */
  datatype EmailWithLabels = EmailWithLabels(email: Email, labels: seq<Label>, attachments: seq<Attachment>)

  /** The dashboard's four totals; the monthly sum is in cents. */
  datatype DashboardMetrics = DashboardMetrics(
    totalEmails: nat, uncategorizedEmails: nat, totalDocuments: nat, monthlyExpenses: int)

  // ---------------------------------------------------------------------
  // Insert shapes: the columns a client may supply. Generated columns
  // (ids, creation and update stamps) are absent; a column with a default
  // or a nullable column is optional.

  datatype InsertUser = InsertUser(username: string, email: string, password: string)

  datatype InsertLabel = InsertLabel(name: string, color: Option<string>, description: Option<string>)

  datatype InsertEmail = InsertEmail(
    subject: string,
    snippet: Option<string>,
    senderName: string,
    senderEmail: string,
    amount: Option<Cents>,
    category: Option<string>,
    status: Option<string>,
    driveFileId: Option<string>,
    driveFileUrl: Option<string>,
    receivedAt: Timestamp)

  datatype InsertAttachment = InsertAttachment(
    emailId: string, filename: string, mimeType: string, size: Int32, content: Option<string>)

  datatype InsertEmailLabel = InsertEmailLabel(emailId: string, labelId: nat)

  // ---------------------------------------------------------------------
  // The row an INSERT ... RETURNING produces from an insert shape, given the
  // generated values.

  function UserRow(id: string, x: InsertUser, now: Timestamp): User {
    User(id, x.username, x.email, x.password, now)
  }

  /** A label row: the colour defaults to #3B82F6. */
  function LabelRow(id: nat, x: InsertLabel, now: Timestamp): (l: Label)
    ensures x.color.None? ==> l.color == DefaultLabelColor
    ensures x.color.Some? ==> l.color == x.color.value
  {
    Label(id, x.name, x.color.GetOr(DefaultLabelColor), x.description, now)
  }

  /** An email row: the category defaults to "Uncategorized" and the status
      to "pending"; both stamps are the insertion time. */
  function EmailRow(id: string, x: InsertEmail, now: Timestamp): (e: Email)
    ensures x.category.None? ==> e.category == DefaultCategory
    ensures x.category.Some? ==> e.category == x.category.value
    ensures x.status.None? ==> e.status == DefaultStatus
    ensures x.status.Some? ==> e.status == x.status.value
    ensures e.id == id && e.createdAt == now && e.updatedAt == now
  {
    Email(id, x.subject, x.snippet, x.senderName, x.senderEmail, x.amount,
          x.category.GetOr(DefaultCategory), x.status.GetOr(DefaultStatus),
          x.driveFileId, x.driveFileUrl, x.receivedAt, now, now)
  }

  function AttachmentRow(id: nat, x: InsertAttachment, now: Timestamp): Attachment {
    Attachment(id, x.emailId, x.filename, x.mimeType, x.size, x.content, now)
  }

  /** The insert shape that reproduces an email row's client-supplied columns. */
  function EmailInsertOf(e: Email): InsertEmail {
    InsertEmail(e.subject, e.snippet, e.senderName, e.senderEmail, e.amount,
                Some(e.category), Some(e.status), e.driveFileId, e.driveFileUrl, e.receivedAt)
  }

  /** The insert shape with the column defaults filled in. */
  function WithDefaults(x: InsertEmail): InsertEmail {
    x.(category := Some(x.category.GetOr(DefaultCategory)), status := Some(x.status.GetOr(DefaultStatus)))
  }

  /** Inserting keeps every supplied column and fills the two defaults. */
  lemma EmailInsertKeepsSupplied(id: string, x: InsertEmail, now: Timestamp)
    ensures EmailInsertOf(EmailRow(id, x, now)) == WithDefaults(x)
  {
  }

  /** An email row is determined by its insert shape and the three generated
      columns id, createdAt and updatedAt (equal at insertion). */
  lemma EmailRowFromInsertShape(e: Email)
    requires e.createdAt == e.updatedAt
    ensures EmailRow(e.id, EmailInsertOf(e), e.createdAt) == e
  {
  }

  function LabelInsertOf(l: Label): InsertLabel {
    InsertLabel(l.name, Some(l.color), l.description)
  }

  /** A label row is determined by its insert shape, its id and createdAt. */
  lemma LabelRowFromInsertShape(l: Label)
    ensures LabelRow(l.id, LabelInsertOf(l), l.createdAt) == l
  {
  }

  function UserInsertOf(u: User): InsertUser {
    InsertUser(u.username, u.email, u.password)
  }

  /** A user row is determined by username, email and password plus its id and createdAt. */
  lemma UserRowFromInsertShape(u: User)
    ensures UserRow(u.id, UserInsertOf(u), u.createdAt) == u
  {
  }

  function AttachmentInsertOf(a: Attachment): InsertAttachment {
    InsertAttachment(a.emailId, a.filename, a.mimeType, a.size, a.content)
  }

  lemma AttachmentRowFromInsertShape(a: Attachment)
    ensures AttachmentRow(a.id, AttachmentInsertOf(a), a.createdAt) == a
  {
  }

  // ---------------------------------------------------------------------
  // Constraints.

  function EmailIds(emails: seq<Email>): set<string> {
    set e | e in emails :: e.id
  }

  function LabelIds(labels: seq<Label>): set<nat> {
    set l | l in labels :: l.id
  }

  /** Primary keys and the two unique columns of `users`. */
  ghost predicate UsersUnique(users: seq<User>) {
    forall i, j :: 0 <= i < j < |users| ==>
      users[i].id != users[j].id && users[i].username != users[j].username && users[i].email != users[j].email
  }

  function EmailKey(e: Email): string { e.id }
  function LabelKey(l: Label): nat { l.id }
  function AttachmentKey(a: Attachment): nat { a.id }
  function LinkKey(k: EmailLabel): nat { k.id }

  /** `attachments.email_id` references `emails.id`. */
  ghost predicate AttachmentsReferenceEmails(attachments: seq<Attachment>, emails: seq<Email>) {
    forall i :: 0 <= i < |attachments| ==> attachments[i].emailId in EmailIds(emails)
  }

  /** `email_labels.email_id` references `emails.id` and `label_id` references `labels.id`. */
  ghost predicate LinksReferenceRows(links: seq<EmailLabel>, emails: seq<Email>, labels: seq<Label>) {
    forall i :: 0 <= i < |links| ==> links[i].emailId in EmailIds(emails) && links[i].labelId in LabelIds(labels)
  }

  /** Every constraint the schema declares. */
  ghost predicate Consistent(users: seq<User>, emails: seq<Email>, labels: seq<Label>,
                             attachments: seq<Attachment>, links: seq<EmailLabel>) {
    && UsersUnique(users)
    && Seqs.KeysUnique(emails, EmailKey)
    && Seqs.KeysUnique(labels, LabelKey)
    && Seqs.KeysUnique(attachments, AttachmentKey)
    && Seqs.KeysUnique(links, LinkKey)
    && AttachmentsReferenceEmails(attachments, emails)
    && LinksReferenceRows(links, emails, labels)
  }

  // ---------------------------------------------------------------------
  // `ON DELETE CASCADE`: what deleting an email or a label removes.

  /** The email rows left after deleting the row with key `id`. */
  function EmailsWithout(emails: seq<Email>, id: string): seq<Email> {
    Seqs.Filter(emails, (e: Email) => e.id != id)
  }

  /** The attachment rows left after their owning email `id` is deleted. */
  function AttachmentsWithout(attachments: seq<Attachment>, emailId: string): seq<Attachment> {
    Seqs.Filter(attachments, (a: Attachment) => a.emailId != emailId)
  }

  /** The link rows left after email `emailId` is deleted. */
  function LinksWithoutEmail(links: seq<EmailLabel>, emailId: string): seq<EmailLabel> {
    Seqs.Filter(links, (k: EmailLabel) => k.emailId != emailId)
  }

  function LabelsWithout(labels: seq<Label>, id: nat): seq<Label> {
    Seqs.Filter(labels, (l: Label) => l.id != id)
  }

  /** The link rows left after label `labelId` is deleted. */
  function LinksWithoutLabel(links: seq<EmailLabel>, labelId: nat): seq<EmailLabel> {
    Seqs.Filter(links, (k: EmailLabel) => k.labelId != labelId)
  }

  /** Deleting an email with its cascade keeps every constraint, removes
      exactly the rows that pointed at it, and keeps all other rows. */
  lemma DeleteEmailCascadeConsistent(users: seq<User>, emails: seq<Email>, labels: seq<Label>,
                                     attachments: seq<Attachment>, links: seq<EmailLabel>, id: string)
    requires Consistent(users, emails, labels, attachments, links)
    ensures Consistent(users, EmailsWithout(emails, id), labels,
                       AttachmentsWithout(attachments, id), LinksWithoutEmail(links, id))
    ensures id !in EmailIds(EmailsWithout(emails, id))
    ensures EmailIds(EmailsWithout(emails, id)) == EmailIds(emails) - {id}
    ensures forall a :: a in AttachmentsWithout(attachments, id) <==> a in attachments && a.emailId != id
    ensures forall k :: k in LinksWithoutEmail(links, id) <==> k in links && k.emailId != id
  {
    var es := EmailsWithout(emails, id);
    var as' := AttachmentsWithout(attachments, id);
    var ks := LinksWithoutEmail(links, id);
    Seqs.FilterKeepsKeysUnique(emails, (e: Email) => e.id != id, EmailKey);
    Seqs.FilterKeepsKeysUnique(attachments, (a: Attachment) => a.emailId != id, AttachmentKey);
    Seqs.FilterKeepsKeysUnique(links, (k: EmailLabel) => k.emailId != id, LinkKey);
    assert EmailIds(es) == EmailIds(emails) - {id} by {
      forall x | x in EmailIds(emails) - {id} ensures x in EmailIds(es) {
        var e :| e in emails && e.id == x;
        assert e in es;
      }
    }
    forall i | 0 <= i < |as'| ensures as'[i].emailId in EmailIds(es) {
      assert as'[i] in as';
      var j :| 0 <= j < |attachments| && attachments[j] == as'[i];
    }
    forall i | 0 <= i < |ks| ensures ks[i].emailId in EmailIds(es) && ks[i].labelId in LabelIds(labels) {
      assert ks[i] in ks;
      var j :| 0 <= j < |links| && links[j] == ks[i];
    }
  }

  /** Deleting a label with its cascade keeps every constraint and leaves
      the emails and attachments untouched. */
  lemma DeleteLabelCascadeConsistent(users: seq<User>, emails: seq<Email>, labels: seq<Label>,
                                     attachments: seq<Attachment>, links: seq<EmailLabel>, id: nat)
    requires Consistent(users, emails, labels, attachments, links)
    ensures Consistent(users, emails, LabelsWithout(labels, id), attachments, LinksWithoutLabel(links, id))
    ensures LabelIds(LabelsWithout(labels, id)) == LabelIds(labels) - {id}
    ensures forall k :: k in LinksWithoutLabel(links, id) <==> k in links && k.labelId != id
  {
    var ls := LabelsWithout(labels, id);
    var ks := LinksWithoutLabel(links, id);
    Seqs.FilterKeepsKeysUnique(labels, (l: Label) => l.id != id, LabelKey);
    Seqs.FilterKeepsKeysUnique(links, (k: EmailLabel) => k.labelId != id, LinkKey);
    assert LabelIds(ls) == LabelIds(labels) - {id} by {
      forall x | x in LabelIds(labels) - {id} ensures x in LabelIds(ls) {
        var l :| l in labels && l.id == x;
        assert l in ls;
      }
    }
    forall i | 0 <= i < |ks| ensures ks[i].emailId in EmailIds(emails) && ks[i].labelId in LabelIds(ls) {
      assert ks[i] in ks;
      var j :| 0 <= j < |links| && links[j] == ks[i];
    }
  }
}
