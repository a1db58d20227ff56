/** The settings page (client/src/pages/settings.tsx): the nested settings
    record, the change handler that replaces one setting of one section,
    and the list of sections whose lower-cased titles name the record's
    sections. */
module SettingsPage {
  import opened Wrappers
  import opened Text
  import JsInt

  /** A setting's value: text, a switch, or a number read by `parseInt`
      (`None` is NaN). */
  datatype Value = TextValue(text: string) | Flag(on: bool) | Number(n: Option<int>)

  type Settings = map<string, map<string, Value>>

  const InitialSettings: Settings := map[
    "profile" := map["name" := TextValue("John Doe"), "email" := TextValue("john.doe@company.com")],
    "theme" := map["darkMode" := Flag(true), "accentColor" := TextValue("#FF6B9D")],
    "notifications" := map["emailProcessed" := Flag(true), "weeklyReport" := Flag(false),
                           "monthlyReport" := Flag(true), "errorAlerts" := Flag(true)],
    "privacy" := map["dataRetention" := Number(Some(365)), "autoDelete" := Flag(false)],
    "integration" := map["gmailSync" := Flag(true), "driveExport" := Flag(true), "autoCategorizationn" := Flag(true)]]

  /** `{ ...prev, [section]: { ...prev[section], [key]: value } }`: a
      section that is not there spreads as an empty record. */
  function Changed(s: Settings, section: string, key: string, v: Value): (r: Settings)
    ensures section in r && key in r[section] && r[section][key] == v
    ensures r.Keys == s.Keys + {section}
    ensures forall t :: t in s && t != section ==> r[t] == s[t]
    ensures section in s ==> r[section].Keys == s[section].Keys + {key}
    ensures section in s ==> forall k :: k in s[section] && k != key ==> r[section][k] == s[section][k]
  {
    var inner := if section in s then s[section] else map[];
    s[section := inner[key := v]]
  }

  /** Changing one setting twice keeps the last value. */
  lemma ChangeTwice(s: Settings, section: string, key: string, v1: Value, v2: Value)
    ensures Changed(Changed(s, section, key, v1), section, key, v2) == Changed(s, section, key, v2)
  {
    var inner := if section in s then s[section] else map[];
    assert Changed(s, section, key, v1)[section] == inner[key := v1];
    assert inner[key := v1][key := v2] == inner[key := v2];
  }

  /** Changes to two different settings can be made in either order. */
  lemma ChangesCommute(s: Settings, a: string, k1: string, v1: Value, b: string, k2: string, v2: Value)
    requires a != b || k1 != k2
    ensures Changed(Changed(s, a, k1, v1), b, k2, v2) == Changed(Changed(s, b, k2, v2), a, k1, v1)
  {
    var ia := if a in s then s[a] else map[];
    var ib := if b in s then s[b] else map[];
    if a == b {
      assert ia[k1 := v1][k2 := v2] == ia[k2 := v2][k1 := v1];
      assert s[a := ia[k1 := v1]][a := ia[k1 := v1][k2 := v2]] == s[a := ia[k1 := v1][k2 := v2]];
      assert s[a := ia[k2 := v2]][a := ia[k2 := v2][k1 := v1]] == s[a := ia[k2 := v2][k1 := v1]];
    } else {
      assert s[a := ia[k1 := v1]][b := ib[k2 := v2]] == s[b := ib[k2 := v2]][a := ia[k1 := v1]];
    }
  }

  /** A number box stores what `parseInt` reads from its text; it shows 0
      for NaN and for 0. */
  function NumberInput(text: string): Value {
    Number(JsInt.ParseInt(text))
  }

  function ShownNumber(v: Value): (r: int)
    ensures v.Number? && v.n.Some? ==> r == v.n.value
    ensures !(v.Number? && v.n.Some?) ==> r == 0
  {
    if v.Number? && v.n.Some? then v.n.value else 0
  }

  /** Clearing the retention box stores NaN and shows 0. */
  lemma ClearedNumberShowsZero()
    ensures NumberInput("") == Number(None) && ShownNumber(NumberInput("")) == 0
  {
    JsInt.ParseIntNaN("");
  }

  datatype Kind = Switch | TextBox | EmailBox | ColorBox | NumberBox

  datatype Section = Section(title: string, settings: seq<(string, Kind)>)

  const Sections: seq<Section> := [
    Section("Profile", [("name", TextBox), ("email", EmailBox)]),
    Section("Theme", [("darkMode", Switch), ("accentColor", ColorBox)]),
    Section("Notifications", [("emailProcessed", Switch), ("weeklyReport", Switch), ("monthlyReport", Switch), ("errorAlerts", Switch)]),
    Section("Privacy", [("dataRetention", NumberBox), ("autoDelete", Switch)]),
    Section("Integration", [("gmailSync", Switch), ("driveExport", Switch), ("autoCategorizationn", Switch)])]

  /** Every listed setting exists in the record, under the section named
      by the lower-cased title. */
  ghost predicate SectionsPresent(s: Settings) {
    forall i :: 0 <= i < |Sections| ==>
      Lower(Sections[i].title) in s
      && forall j :: 0 <= j < |Sections[i].settings| ==> Sections[i].settings[j].0 in s[Lower(Sections[i].title)]
  }

  lemma LowerTitles()
    ensures Lower("Profile") == "profile" && Lower("Theme") == "theme"
    ensures Lower("Notifications") == "notifications" && Lower("Privacy") == "privacy"
    ensures Lower("Integration") == "integration"
  {
  }

  lemma InitialSectionsPresent()
    ensures SectionsPresent(InitialSettings)
  {
    LowerTitles();
  }

  /** Changes made through the page never lose a listed setting. */
  lemma ChangeKeepsSectionsPresent(s: Settings, section: string, key: string, v: Value)
    requires SectionsPresent(s)
    ensures SectionsPresent(Changed(s, section, key, v))
  {
  }

  /** The page's state. */
  class SettingsState {
    var settings: Settings

    constructor()
      ensures settings == InitialSettings
    {
      settings := InitialSettings;
    }

    method Change(section: string, key: string, v: Value)
      modifies this
      ensures settings == Changed(old(settings), section, key, v)
    {
      var inner := if section in settings then settings[section] else map[];
      settings := settings[section := inner[key := v]];
    }
  }
}
