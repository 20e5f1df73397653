/// The settings tab of src/settings-tab.ts, as far as it changes the
/// settings: the delay field, the entries its buttons add, and the move-up,
/// move-down and delete controls of the exclusion-rule and excluded-folder
/// lists.
module SettingsTab {
  import opened JsRuntime
  import opened Types
  import M = Main
  import L = ListOps
  import E = Exclusion
  import A = Apply

  /** The entry "+ Add Property" appends */
  const NewProperty: GlobalProperty := GlobalProperty("", Str(""), Text, true, false)

  /** The entry "+ Add Exclusion Rule" appends */
  const NewRule: ExclusionRule := ExclusionRule(TagRule, "")

  /** The entry "+ Add Excluded Folder" appends */
  const NewFolder: ExcludedFolder := ExcludedFolder("")

  /** The delay a text in the delay field sets: `parseInt(value)` when that
      is a number from 0 to 5000; otherwise none */
  function AcceptedDelay(value: string): (r: Option<int>)
    ensures r.Some? <==> ParseInt(value).Some? && 0 <= ParseInt(value).value <= 5000
    ensures r.Some? ==> r == ParseInt(value) && 0 <= r.value <= 5000
  {
    var num := ParseInt(value);
    if num.Some? && num.value >= 0 && num.value <= 5000 then num else None
  }

  /** The field shows `String(delay)`; that text sets the same delay back */
  lemma DelayOfItsOwnText(n: nat)
    requires n <= 5000
    ensures AcceptedDelay(NatToString(n)) == Some(n)
  {
    ParseIntOfNatToString(n);
  }

  /** `parseInt` reads the leading digits only: `1e4` sets one millisecond */
  lemma DelayReadsLeadingDigits()
    ensures AcceptedDelay("1e4") == Some(1)
  {
    assert TrimStart("1e4") == "1e4";
    assert DigitPrefix("1e4", 10) == "1" by {
      assert "1e4"[1..] == "e4";
    }
    assert DigitsValue("1", 10) == 1 by {
      assert "1"[..0] == "";
    }
  }

  /** A number past the upper bound is refused, and so is a negative one */
  lemma DelayOutsideRangeRefused(n: nat)
    ensures n > 5000 ==> AcceptedDelay(NatToString(n)) == None
    ensures n >= 1 ==> AcceptedDelay("-" + NatToString(n)) == None
  {
    ParseIntOfNatToString(n);
    if n >= 1 {
      var s := NatToString(n);
      NatToStringFacts(n);
      DigitPrefixOfDigits(s);
      var t := "-" + s;
      assert TrimStart(t) == t;
      assert t[1..] == s;
    }
  }

  /** The entries the buttons add do nothing until they are filled in: the
      property has a blank name, the rule a blank value, the folder no path */
  lemma NewEntriesAreInert(st: A.State, infos: map<string, string>, host: Host, cache: E.Cache,
                           parentPath: string, useRegex: Option<bool>)
    ensures A.ApplyOne(st, NewProperty, infos, host) == st
    ensures E.RuleStep(NewRule, cache) == E.Continue
    ensures !E.FolderMatches(NewFolder, parentPath, useRegex, host)
  {
    TrimmedIsFixpoint("");
  }

  class AutoPropertiesSettingTab {
    const plugin: M.AutoPropertiesPlugin

    constructor(plugin: M.AutoPropertiesPlugin)
      ensures this.plugin == plugin
    {
      this.plugin := plugin;
    }

    /** The delay field's `onChange`: the settings change iff the text is
        accepted, and then only in the delay */
    method OnDelayChange(value: string) returns (accepted: bool)
      modifies plugin
      ensures accepted <==> AcceptedDelay(value).Some?
      ensures accepted ==> plugin.settings == old(plugin.settings).(delayAfterCreate := AcceptedDelay(value).value)
      ensures !accepted ==> plugin.settings == old(plugin.settings)
    {
      var num := ParseInt(value);
      if num.Some? && num.value >= 0 && num.value <= 5000 {
        plugin.settings := plugin.settings.(delayAfterCreate := num.value);
        accepted := true;
      } else {
        accepted := false;
      }
    }

    /** "+ Add Property" */
    method AddPropertyClicked()
      modifies plugin
      ensures plugin.settings == old(plugin.settings).(properties := old(plugin.settings.properties) + [NewProperty])
    {
      plugin.AddProperty(NewProperty);
    }

    /** "+ Add Excluded Folder": `push` onto an absent list throws, and then
        nothing changes */
    method AddFolderClicked() returns (threw: bool)
      modifies plugin
      ensures threw <==> old(plugin.settings.excludedFolders).None?
      ensures threw ==> plugin.settings == old(plugin.settings)
      ensures !threw ==>
                plugin.settings ==
                old(plugin.settings).(excludedFolders := Some(old(plugin.settings.excludedFolders.value) + [NewFolder]))
    {
      if plugin.settings.excludedFolders.None? {
        return true;
      }
      var folders := plugin.settings.excludedFolders.value;
      plugin.settings := plugin.settings.(excludedFolders := Some(folders + [NewFolder]));
      threw := false;
    }

    /** "+ Add Exclusion Rule" */
    method AddRuleClicked()
      modifies plugin
      ensures plugin.settings == old(plugin.settings).(exclusionRules := old(plugin.settings.exclusionRules) + [NewRule])
    {
      plugin.settings := plugin.settings.(exclusionRules := plugin.settings.exclusionRules + [NewRule]);
    }

    /** Move-up of the rule in row `index`: it changes places with the rule
        above it; the top row stays */
    method MoveRuleUp(index: int)
      requires 0 <= index < |plugin.settings.exclusionRules|
      modifies plugin
      ensures plugin.settings == old(plugin.settings).(exclusionRules :=
                if index > 0 then L.Swapped(old(plugin.settings.exclusionRules), index, index - 1)
                else old(plugin.settings.exclusionRules))
    {
      if index > 0 {
        var rules := plugin.settings.exclusionRules;
        var temp := rules[index];
        rules := rules[index := rules[index - 1]];
        rules := rules[index - 1 := temp];
        plugin.settings := plugin.settings.(exclusionRules := rules);
      }
    }

    /** Move-down of the rule in row `index`: it changes places with the
        rule below it; the bottom row stays */
    method MoveRuleDown(index: int)
      requires 0 <= index < |plugin.settings.exclusionRules|
      modifies plugin
      ensures plugin.settings == old(plugin.settings).(exclusionRules :=
                if index < |old(plugin.settings.exclusionRules)| - 1
                then L.Swapped(old(plugin.settings.exclusionRules), index, index + 1)
                else old(plugin.settings.exclusionRules))
    {
      if index < |plugin.settings.exclusionRules| - 1 {
        var rules := plugin.settings.exclusionRules;
        var temp := rules[index];
        rules := rules[index := rules[index + 1]];
        rules := rules[index + 1 := temp];
        plugin.settings := plugin.settings.(exclusionRules := rules);
      }
    }

    /** Delete of the rule in row `index`: `splice(index, 1)` */
    method DeleteRule(index: int)
      modifies plugin
      ensures plugin.settings == old(plugin.settings).(exclusionRules := L.RemoveAt(old(plugin.settings.exclusionRules), index))
    {
      plugin.settings := plugin.settings.(exclusionRules := L.RemoveAt(plugin.settings.exclusionRules, index));
    }

    /** Move-up of the excluded folder in row `index` */
    method MoveFolderUp(index: int)
      requires plugin.settings.excludedFolders.Some?
      requires 0 <= index < |plugin.settings.excludedFolders.value|
      modifies plugin
      ensures plugin.settings == old(plugin.settings).(excludedFolders := Some(
                if index > 0 then L.Swapped(old(plugin.settings.excludedFolders.value), index, index - 1)
                else old(plugin.settings.excludedFolders.value)))
    {
      var folders := plugin.settings.excludedFolders.value;
      if index > 0 {
        var temp := folders[index];
        folders := folders[index := folders[index - 1]];
        folders := folders[index - 1 := temp];
        plugin.settings := plugin.settings.(excludedFolders := Some(folders));
      }
    }

    /** Move-down of the excluded folder in row `index` */
    method MoveFolderDown(index: int)
      requires plugin.settings.excludedFolders.Some?
      requires 0 <= index < |plugin.settings.excludedFolders.value|
      modifies plugin
      ensures plugin.settings == old(plugin.settings).(excludedFolders := Some(
                if index < |old(plugin.settings.excludedFolders.value)| - 1
                then L.Swapped(old(plugin.settings.excludedFolders.value), index, index + 1)
                else old(plugin.settings.excludedFolders.value)))
    {
      var folders := plugin.settings.excludedFolders.value;
      if index < |folders| - 1 {
        var temp := folders[index];
        folders := folders[index := folders[index + 1]];
        folders := folders[index + 1 := temp];
        plugin.settings := plugin.settings.(excludedFolders := Some(folders));
      }
    }

    /** Delete of the excluded folder in row `index` */
    method DeleteFolder(index: int)
      requires plugin.settings.excludedFolders.Some?
      modifies plugin
      ensures plugin.settings == old(plugin.settings).(excludedFolders :=
                Some(L.RemoveAt(old(plugin.settings.excludedFolders.value), index)))
    {
      var folders := plugin.settings.excludedFolders.value;
      plugin.settings := plugin.settings.(excludedFolders := Some(L.RemoveAt(folders, index)));
    }
  }
}
