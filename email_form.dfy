/** The "Add Email" dialog (client/src/components/email-form-dialog.tsx):
    its validation rules, its initial values, the categories it offers and
    the request it sends.
    The address check is a parameter `isEmail`, standing for the schema
    library's own address pattern. */
module EmailForm {
  import opened Wrappers

  /** What the form holds; every field is text, body and amount may be
      left out. */
  datatype EmailFormData = EmailFormData(
    senderName: string,
    senderEmail: string,
    subject: string,
    body: Option<string>,
    category: string,
    amount: Option<string>,
    receivedAt: string)

  const SenderNameRequired := "Sender name is required"
  const ValidEmailRequired := "Valid email required"
  const SubjectRequired := "Subject is required"
  const CategoryRequired := "Category is required"
  const DateRequired := "Date is required"

  /** The form is accepted: sender name, subject, category and date are
      non-empty and the address passes the address check; body and amount
      are free. */
  predicate Acceptable(d: EmailFormData, isEmail: string -> bool) {
    && |d.senderName| > 0 && isEmail(d.senderEmail) && |d.subject| > 0
    && |d.category| > 0 && |d.receivedAt| > 0
  }

  /** The messages the schema reports, in field order. */
  function Errors(d: EmailFormData, isEmail: string -> bool): (r: seq<string>)
    ensures |r| == 0 <==> Acceptable(d, isEmail)
    ensures SenderNameRequired in r <==> |d.senderName| == 0
    ensures ValidEmailRequired in r <==> !isEmail(d.senderEmail)
    ensures SubjectRequired in r <==> |d.subject| == 0
    ensures CategoryRequired in r <==> |d.category| == 0
    ensures DateRequired in r <==> |d.receivedAt| == 0
  {
    (if |d.senderName| == 0 then [SenderNameRequired] else [])
    + (if isEmail(d.senderEmail) then [] else [ValidEmailRequired])
    + (if |d.subject| == 0 then [SubjectRequired] else [])
    + (if |d.category| == 0 then [CategoryRequired] else [])
    + (if |d.receivedAt| == 0 then [DateRequired] else [])
  }

  /** The body and the amount never decide acceptance. */
  lemma OptionalFieldsFree(d: EmailFormData, body: Option<string>, amount: Option<string>, isEmail: string -> bool)
    ensures Acceptable(d.(body := body, amount := amount), isEmail) <==> Acceptable(d, isEmail)
  {
  }

  /** The initial form: every text empty except the date, which is today's
      date (`today`, the first ten characters of the current time in ISO
      form). */
  function Defaults(today: string): EmailFormData {
    EmailFormData("", "", "", Some(""), "", Some(""), today)
  }

  /** The initial form is refused for want of a category, whatever else
      the user fills in, until one is chosen. */
  lemma DefaultsNeedCategory(today: string, isEmail: string -> bool)
    ensures CategoryRequired in Errors(Defaults(today), isEmail)
    ensures forall n, e, s :: !Acceptable(Defaults(today).(senderName := n, senderEmail := e, subject := s), isEmail)
  {
  }

  /** What submitting the form does: POST the form's fields to /api/emails
      with the date rewritten by `toIso` (`new Date(text).toISOString()`),
      or fail before sending when that call throws on an unreadable date
      (`None`), which the dialog reports with its error toast. */
  datatype Submission = Post(url: string, body: EmailFormData) | Failed

  function SubmissionFor(d: EmailFormData, toIso: string -> Option<string>): (r: Submission)
    ensures r.Failed? <==> toIso(d.receivedAt).None?
    ensures r.Post? ==> && r.url == "/api/emails"
                        && r.body.receivedAt == toIso(d.receivedAt).value
                        && r.body.(receivedAt := d.receivedAt) == d
  {
    match toIso(d.receivedAt)
    case None => Failed
    case Some(t) => Post("/api/emails", d.(receivedAt := t))
  }

  /** An accepted form whose date converts to a non-empty text sends data
      the same rules accept. */
  lemma SubmissionAcceptable(d: EmailFormData, isEmail: string -> bool, toIso: string -> Option<string>)
    requires Acceptable(d, isEmail)
    requires toIso(d.receivedAt).Some? && |toIso(d.receivedAt).value| > 0
    ensures SubmissionFor(d, toIso).Post? && Acceptable(SubmissionFor(d, toIso).body, isEmail)
  {
  }

  const Categories: seq<string> := [
    "Invoice", "Receipt", "Bill", "Tax Document", "Bank Statement",
    "Insurance", "Subscription", "Refund", "Other"]

  /** Choosing any offered category satisfies the category rule; with the
      other fields filled in properly the form is then accepted. */
  lemma OfferedCategoriesAcceptable(d: EmailFormData, i: int, isEmail: string -> bool)
    requires 0 <= i < |Categories|
    requires |d.senderName| > 0 && isEmail(d.senderEmail) && |d.subject| > 0 && |d.receivedAt| > 0
    ensures Acceptable(d.(category := Categories[i]), isEmail)
  {
  }
}
