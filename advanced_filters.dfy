/** The rule editor of the advanced filter panel
    (client/src/components/advanced-filters.tsx). The panel keeps a list of
    rules that its buttons replace: Add Rule appends a fresh rule, the X
    button removes a rule, the selects and the text box update one, and
    Clear All goes back to the single initial rule. */
module AdvancedFilters {
  import opened Wrappers
  import opened Text
  import Seqs

  datatype FilterRule = FilterRule(id: string, field: string, operator: string, value: string)

  /** A partial rule: the fields an update sets. */
  datatype RuleUpdate = RuleUpdate(id: Option<string>, field: Option<string>, operator: Option<string>, value: Option<string>)

  const InitialRule := FilterRule("1", "sender", "contains", "")

  /** A fresh rule: its id is the current time in milliseconds, in decimal. */
  function NewRule(now: nat): FilterRule {
    FilterRule(NatToString(now), "sender", "contains", "")
  }

  /** `{ ...rule, ...updates }`: each field the update sets replaces the
      rule's. */
  function Merge(rule: FilterRule, u: RuleUpdate): FilterRule {
    FilterRule(u.id.GetOr(rule.id), u.field.GetOr(rule.field), u.operator.GetOr(rule.operator), u.value.GetOr(rule.value))
  }

  /** The rules without those carrying `id`, the others in their order. */
  function Removed(rules: seq<FilterRule>, id: string): (r: seq<FilterRule>)
    ensures forall x :: x in r <==> x in rules && x.id != id
    ensures Seqs.IsSubsequence(r, rules)
  {
    Seqs.FilterIsSubsequence(rules, (x: FilterRule) => x.id != id);
    Seqs.Filter(rules, (x: FilterRule) => x.id != id)
  }

  /** Every rule carrying `id` merged with the update, the others as they were. */
  function Updated(rules: seq<FilterRule>, id: string, u: RuleUpdate): (r: seq<FilterRule>)
    ensures |r| == |rules|
    ensures forall i :: 0 <= i < |rules| && rules[i].id != id ==> r[i] == rules[i]
    ensures forall i :: 0 <= i < |rules| && rules[i].id == id ==> r[i] == Merge(rules[i], u)
  {
    seq(|rules|, i requires 0 <= i < |rules| => if rules[i].id == id then Merge(rules[i], u) else rules[i])
  }

  /** Removing the rule just added gives back the list it was added to. */
  lemma AddThenRemove(rules: seq<FilterRule>, now: nat)
    requires forall x :: x in rules ==> x.id != NatToString(now)
    ensures Removed(rules + [NewRule(now)], NatToString(now)) == rules
  {
    var p := (x: FilterRule) => x.id != NatToString(now);
    Seqs.FilterAppend(rules, [NewRule(now)], p);
    Seqs.FilterKeepsAll(rules, p);
    assert Seqs.Filter([NewRule(now)], p) == [];
  }

  /** An update that leaves ids alone keeps every rule's id, so the rules
      a later removal drops are the same. */
  lemma UpdateKeepsIds(rules: seq<FilterRule>, id: string, u: RuleUpdate)
    requires u.id.None?
    ensures forall i :: 0 <= i < |rules| ==> Updated(rules, id, u)[i].id == rules[i].id
    ensures forall x :: x in Removed(Updated(rules, id, u), id) <==> x in Updated(rules, id, u) && x.id != id
  {
  }

  /** Removing a rule is offered only while more than one rule is listed
      (the X button). */
  predicate OffersRemove(rules: seq<FilterRule>) {
    |rules| > 1
  }

  /** With distinct ids, a removal the panel offers leaves at least one rule. */
  lemma OfferedRemovalKeepsARule(rules: seq<FilterRule>, id: string)
    requires Seqs.KeysUnique(rules, (x: FilterRule) => x.id)
    requires OffersRemove(rules)
    ensures |Removed(rules, id)| >= 1
  {
    var k := if rules[0].id != id then 0 else 1;
    assert rules[0].id != rules[1].id;
    assert rules[k] in Removed(rules, id);
  }

  /** Two rules created in the same millisecond share an id, and removing
      one of them empties the list. */
  lemma SharedIdRemovalEmpties(now: nat)
    ensures var rules := [NewRule(now), NewRule(now)];
            OffersRemove(rules) && Removed(rules, NatToString(now)) == []
  {
    var rules := [NewRule(now), NewRule(now)];
    Seqs.FilterEmpty(rules, (x: FilterRule) => x.id != NatToString(now));
  }

  /** The value box is shown unless the operator needs no value. */
  predicate ShowsValueInput(rule: FilterRule) {
    rule.operator != "is_empty" && rule.operator != "is_not_empty"
  }

  /** The panel's state. */
  class RuleList {
    var rules: seq<FilterRule>

    constructor()
      ensures rules == [InitialRule]
    {
      rules := [InitialRule];
    }

    /** Add Rule: a fresh rule goes at the end; the others keep their
        places. */
    method Add(now: nat)
      modifies this
      ensures rules == old(rules) + [NewRule(now)]
      ensures rules[..|old(rules)|] == old(rules)
    {
      rules := rules + [NewRule(now)];
    }

    method Remove(id: string)
      modifies this
      ensures rules == Removed(old(rules), id)
    {
      rules := Removed(rules, id);
    }

    method Update(id: string, u: RuleUpdate)
      modifies this
      ensures rules == Updated(old(rules), id, u)
    {
      rules := Updated(rules, id, u);
    }

    /** Clear All. */
    method Clear()
      modifies this
      ensures rules == [InitialRule]
    {
      rules := [InitialRule];
    }
  }
}
