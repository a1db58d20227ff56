/** The label dialog (client/src/components/label-form-dialog.tsx): the
    form's validation rules, its initial values for creating and for
    editing, the request it sends and the offered colour presets. */
module LabelForm {
  import opened Wrappers
  import opened Schema
  import opened Text
  import JsInt

  /** What the form submits; the description may be left out. */
  datatype LabelFormData = LabelFormData(name: string, color: string, description: Option<string>)

  const NameRequired := "Label name is required"
  const NameTooLong := "Name too long"
  const BadColor := "Must be a valid hex color"
  const DescriptionTooLong := "Description too long"

  /** The colour rule: `#` and exactly six hexadecimal digits, either case. */
  predicate IsHexColor(c: string) {
    |c| == 7 && c[0] == '#' && forall i :: 1 <= i < 7 ==> IsHexDigit(c[i])
  }

  /** The form is accepted: a name of 1 to 100 characters, a hex colour and
      a description of at most 500 characters when one is given. */
  predicate Acceptable(d: LabelFormData) {
    1 <= |d.name| <= 100 && IsHexColor(d.color) && (d.description.Some? ==> |d.description.value| <= 500)
  }

  /** The messages the schema reports, field by field in declaration order. */
  function Errors(d: LabelFormData): (r: seq<string>)
    ensures |r| == 0 <==> Acceptable(d)
    ensures (NameRequired in r <==> |d.name| == 0) && (NameTooLong in r <==> |d.name| > 100)
    ensures BadColor in r <==> !IsHexColor(d.color)
    ensures DescriptionTooLong in r <==> d.description.Some? && |d.description.value| > 500
  {
    (if |d.name| == 0 then [NameRequired] else [])
    + (if |d.name| > 100 then [NameTooLong] else [])
    + (if IsHexColor(d.color) then [] else [BadColor])
    + (if d.description.Some? && |d.description.value| > 500 then [DescriptionTooLong] else [])
  }

  const DefaultColor := "#FF6B9D"

  /** The initial values: the edited label's name, colour and description,
      each replaced by its fallback ("", #FF6B9D, "") when it is empty or
      absent. */
  function Defaults(edit: Option<Label>): (r: LabelFormData)
    ensures edit.None? ==> r == LabelFormData("", DefaultColor, Some(""))
    ensures edit.Some? ==> r.name == edit.value.name && r.description == Some(edit.value.description.GetOr(""))
    ensures edit.Some? && edit.value.color != "" ==> r.color == edit.value.color
    ensures edit.Some? && edit.value.color == "" ==> r.color == DefaultColor
  {
    match edit
    case None => LabelFormData("", DefaultColor, Some(""))
    case Some(l) =>
      LabelFormData(l.name,
                    if l.color != "" then l.color else DefaultColor,
                    Some(if l.description.Some? && l.description.value != "" then l.description.value else ""))
  }

  /** A new label's form is refused until a name is typed, and for that
      reason only. */
  lemma CreateDefaultsNeedName()
    ensures Errors(Defaults(None)) == [NameRequired]
  {
    assert IsHexColor(DefaultColor);
  }

  /** Editing a label whose values pass the rules starts from a form that
      passes them too. */
  lemma EditDefaultsAcceptable(l: Label)
    requires 1 <= |l.name| <= 100 && IsHexColor(l.color)
    requires l.description.Some? ==> |l.description.value| <= 500
    ensures Acceptable(Defaults(Some(l)))
  {
  }

  datatype Request = Request(verb: string, url: string)

  /** Editing sends PUT to /api/labels/{id}; creating sends POST to
      /api/labels. */
  function RequestFor(edit: Option<Label>): (r: Request)
    ensures edit.None? <==> r == Request("POST", "/api/labels")
    ensures edit.Some? ==> r.verb == "PUT" && StartsWith(r.url, "/api/labels/")
  {
    match edit
    case None => Request("POST", "/api/labels")
    case Some(l) => Request("PUT", "/api/labels/" + NatToString(l.id))
  }

  /** The id in an edit request's path reads back, through the server's
      `parseInt`, as the edited label's id. */
  lemma EditRequestNamesLabel(l: Label)
    ensures var url := RequestFor(Some(l)).url;
            |url| > 12 && JsInt.ParseInt(url[12..]) == Some(l.id)
  {
    var url := RequestFor(Some(l)).url;
    assert url[12..] == NatToString(l.id) + "";
    JsInt.ParseIntReadsNumber(l.id, "");
  }

  const ColorPresets: seq<string> := [
    "#FF6B9D", "#FF8E53", "#FFBE0B", "#8FB339", "#06FFA5",
    "#54C6EB", "#A663CC", "#FF4081", "#E91E63", "#9C27B0",
    "#673AB7", "#3F51B5", "#2196F3", "#03DAC6", "#4CAF50"]

  lemma PresetIsHexColor(i: int)
    requires 0 <= i < |ColorPresets|
    ensures IsHexColor(ColorPresets[i])
  {
  }

  /** Every preset passes the colour rule. */
  lemma PresetsAcceptable()
    ensures forall i :: 0 <= i < |ColorPresets| ==> IsHexColor(ColorPresets[i])
  {
    forall i | 0 <= i < |ColorPresets| ensures IsHexColor(ColorPresets[i]) {
      PresetIsHexColor(i);
    }
  }

  /** The database's own default colour passes the rule, so a label stored
      without a colour can be edited without changing it. */
  lemma StoredDefaultColorAcceptable()
    ensures IsHexColor(DefaultLabelColor)
  {
  }
}
