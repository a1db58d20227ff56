/** The contact list page (client/src/pages/contacts.tsx): the contacts
    whose name or address contains the search text, ignoring case, and what
    the list area shows while loading, when nothing is left and otherwise. */
module ContactsPage {
  import opened Text
  import Seqs
  import Queries
  import Sorting
  import Schema

  predicate Found(c: Queries.Contact, query: string) {
    ContainsIgnoringCase(c.name, query) || ContainsIgnoringCase(c.email, query)
  }

  /** The contacts matching on name or address, in the server's order. */
  function Filtered(contacts: seq<Queries.Contact>, query: string): (r: seq<Queries.Contact>)
    ensures forall c :: c in r <==> c in contacts && Found(c, query)
    ensures Seqs.IsSubsequence(r, contacts)
  {
    Seqs.FilterIsSubsequence(contacts, (c: Queries.Contact) => Found(c, query));
    Seqs.Filter(contacts, (c: Queries.Contact) => Found(c, query))
  }

  lemma EmptyQueryKeepsAll(contacts: seq<Queries.Contact>)
    ensures Filtered(contacts, "") == contacts
  {
    forall i | 0 <= i < |contacts| ensures Found(contacts[i], "") {
      EmptyFoundIgnoringCase(contacts[i].name);
    }
    Seqs.FilterKeepsAll(contacts, (c: Queries.Contact) => Found(c, ""));
  }

  /** Typing more keeps a subset of what was shown. */
  lemma LongerQueryShowsFewer(contacts: seq<Queries.Contact>, query: string, more: string)
    ensures forall c :: c in Filtered(contacts, query + more) ==> c in Filtered(contacts, query)
  {
    forall c | c in Filtered(contacts, query + more) ensures c in Filtered(contacts, query) {
      if ContainsIgnoringCase(c.name, query + more) {
        LongerQueryNarrows(c.name, query, more);
      } else {
        LongerQueryNarrows(c.email, query, more);
      }
    }
  }

  /** The server's contacts come most recent first; the filtered list keeps
      that order. */
  lemma FilteredKeepsRecency(emails: seq<Schema.Email>, md5: string -> string, query: string)
    ensures var r := Filtered(Queries.Contacts(emails, md5), query);
            forall i, j :: 0 <= i < j < |r| ==> r[i].lastEmailDate >= r[j].lastEmailDate
  {
    var s := Queries.Contacts(emails, md5);
    Sorting.SubsequenceSorted(Filtered(s, query), s, Queries.LatestFirst);
  }

  datatype View = Loading | Rows | NoMatches | NoContactsYet

  function ViewOf(loading: bool, contacts: seq<Queries.Contact>, query: string): (r: View)
    ensures r.Loading? <==> loading
    ensures r.Rows? <==> !loading && |Filtered(contacts, query)| > 0
    ensures r.NoMatches? <==> !loading && |Filtered(contacts, query)| == 0 && query != ""
  {
    if loading then Loading
    else if |Filtered(contacts, query)| > 0 then Rows
    else if query != "" then NoMatches
    else NoContactsYet
  }

  /** The "contacts will appear here" panel appears only when the server
      sent no contact at all. */
  lemma NoContactsYetMeansNone(loading: bool, contacts: seq<Queries.Contact>, query: string)
    requires ViewOf(loading, contacts, query) == NoContactsYet
    ensures contacts == []
  {
    EmptyQueryKeepsAll(contacts);
  }
}
