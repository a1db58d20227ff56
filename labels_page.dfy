/** The label list page (client/src/pages/labels.tsx): the labels whose
    name contains the search text, ignoring case, and the empty state shown
    when none is left. */
module LabelsPage {
  import opened Schema
  import opened Text
  import Seqs
  import Sorting
  import Queries

  /** `labels.filter(label => label.name.toLowerCase().includes(query.toLowerCase()))`. */
  function Filtered(labels: seq<Label>, query: string): (r: seq<Label>)
    ensures forall l :: l in r <==> l in labels && ContainsIgnoringCase(l.name, query)
    ensures Seqs.IsSubsequence(r, labels)
  {
    Seqs.FilterIsSubsequence(labels, (l: Label) => ContainsIgnoringCase(l.name, query));
    Seqs.Filter(labels, (l: Label) => ContainsIgnoringCase(l.name, query))
  }

  /** An empty search shows every label. */
  lemma EmptyQueryKeepsAll(labels: seq<Label>)
    ensures Filtered(labels, "") == labels
  {
    forall i | 0 <= i < |labels| ensures ContainsIgnoringCase(labels[i].name, "") {
      EmptyFoundIgnoringCase(labels[i].name);
    }
    Seqs.FilterKeepsAll(labels, (l: Label) => ContainsIgnoringCase(l.name, ""));
  }

  /** Typing more keeps a subset of what was shown. */
  lemma LongerQueryShowsFewer(labels: seq<Label>, query: string, more: string)
    ensures forall l :: l in Filtered(labels, query + more) ==> l in Filtered(labels, query)
  {
    forall l | l in Filtered(labels, query + more) ensures l in Filtered(labels, query) {
      LongerQueryNarrows(l.name, query, more);
    }
  }

  /** The server sends the labels by name; the filtered list keeps that
      order. */
  lemma FilteredKeepsNameOrder(labels: seq<Label>, query: string)
    ensures var r := Filtered(Queries.LabelsByName(labels), query);
            forall i, j :: 0 <= i < j < |r| ==> StrLe(r[i].name, r[j].name)
  {
    var s := Queries.LabelsByName(labels);
    assert Sorting.Sorted(s, Queries.ByName);
    Sorting.SubsequenceSorted(Filtered(s, query), s, Queries.ByName);
  }

  /** What the list area shows. */
  datatype View = Rows | NoMatches | NoLabelsYet

  /** The table when some label is left; otherwise the empty panel, whose
      message depends on whether a search was typed. */
  function ViewOf(labels: seq<Label>, query: string): (r: View)
    ensures r.Rows? <==> |Filtered(labels, query)| > 0
    ensures r.NoMatches? <==> |Filtered(labels, query)| == 0 && query != ""
  {
    if |Filtered(labels, query)| > 0 then Rows
    else if query != "" then NoMatches
    else NoLabelsYet
  }

  /** The "create your first label" panel appears only when there are no
      labels at all. */
  lemma NoLabelsYetMeansNone(labels: seq<Label>, query: string)
    requires ViewOf(labels, query) == NoLabelsYet
    ensures labels == []
  {
    EmptyQueryKeepsAll(labels);
  }
}
