/// The plugin object of src/main.ts: its settings, built from the defaults
/// and the saved data; the exclusion check and the frontmatter update as the
/// loops they are; and the edits of the list of property definitions.
module Main {
  import opened JsRuntime
  import opened Types
  import opened Constants
  import H = Helpers
  import F = Frontmatter
  import E = Exclusion
  import A = Apply
  import L = ListOps

  /** The fields of the plugin's data file, each of which may be missing; a
      vault without the file reads as no fields at all */
  datatype SavedData = SavedData(
    enabled: Option<bool>,
    properties: Option<seq<GlobalProperty>>,
    showNotifications: Option<bool>,
    exclusionRules: Option<seq<ExclusionRule>>,
    excludedFolders: Option<seq<ExcludedFolder>>,
    useRegexForExcludedFolders: Option<bool>,
    delayAfterCreate: Option<int>)

  const NoSavedData: SavedData := SavedData(None, None, None, None, None, None, None)

  function Or<T>(saved: Option<T>, default: T): T {
    if saved.Some? then saved.value else default
  }

  /** `Object.assign({}, defaults, saved)`: every saved field replaces the
      default one, and a field neither has stays absent */
  function Assign(defaults: SettingsData, saved: SavedData): (r: SettingsData)
    ensures saved == NoSavedData ==> r == defaults
    ensures r.excludedFolders.None? <==> defaults.excludedFolders.None? && saved.excludedFolders.None?
    ensures r.useRegexForExcludedFolders.None? <==>
              defaults.useRegexForExcludedFolders.None? && saved.useRegexForExcludedFolders.None?
    ensures saved.properties.None? ==> r.properties == defaults.properties
    ensures saved.exclusionRules.None? ==> r.exclusionRules == defaults.exclusionRules
  {
    SettingsData(
      enabled := Or(saved.enabled, defaults.enabled),
      properties := Or(saved.properties, defaults.properties),
      showNotifications := Or(saved.showNotifications, defaults.showNotifications),
      exclusionRules := Or(saved.exclusionRules, defaults.exclusionRules),
      excludedFolders := if saved.excludedFolders.Some? then saved.excludedFolders else defaults.excludedFolders,
      useRegexForExcludedFolders :=
        if saved.useRegexForExcludedFolders.Some? then saved.useRegexForExcludedFolders
        else defaults.useRegexForExcludedFolders,
      delayAfterCreate := Or(saved.delayAfterCreate, defaults.delayAfterCreate))
  }

  class AutoPropertiesPlugin {
    var settings: SettingsData

    /** The plugin as `onload` leaves it when there is no saved data: the
        corrected defaults */
    constructor()
      ensures settings == CorrectedDefaultSettings
    {
      settings := CorrectedDefaultSettings;
    }

    /** `loadSettings()` given what `loadData()` read, over the defaults with
        the folder fields the settings type declares. Saved data that holds
        both folder fields gives the same settings as the defaults as
        written. */
    method LoadSettings(saved: SavedData)
      modifies this
      ensures settings == Assign(CorrectedDefaultSettings, saved)
      ensures settings.excludedFolders.Some? && settings.useRegexForExcludedFolders.Some?
      ensures saved.excludedFolders.Some? && saved.useRegexForExcludedFolders.Some? ==>
                settings == Assign(DefaultSettings, saved)
    {
      settings := Assign(CorrectedDefaultSettings, saved);
    }

    /** `isExcluded(file, cache)`: the folder entries in order, then, given a
        cache and some rules, the rules in order; the first match returns
        true */
    method IsExcluded(parent: Option<string>, cache: Option<E.Cache>, host: Host) returns (o: E.Outcome)
      ensures o == E.Excluded(settings, parent, cache, host)
    {
      if settings.excludedFolders.None? {
        return E.Threw;
      }
      var folders := settings.excludedFolders.value;
      var useRegex := settings.useRegexForExcludedFolders;
      var parentPath := E.ParentPath(parent);
      if |folders| > 0 {
        for i := 0 to |folders|
          invariant forall j :: 0 <= j < i ==> !E.FolderMatches(folders[j], parentPath, useRegex, host)
        {
          var excluded := folders[i];
          if excluded.folder == "" {
            continue;
          }
          if useRegex != Some(true) {
            if parentPath == host.normalizePath(excluded.folder) {
              return E.Returned(true);
            }
          } else {
            var test := host.regexTest(excluded.folder, parentPath);
            if test == Tested(true) {
              return E.Returned(true);
            }
          }
        }
      }
      var rules := settings.exclusionRules;
      if cache.None? || |rules| == 0 {
        return E.Returned(false);
      }
      var c := cache.value;
      for i := 0 to |rules|
        invariant forall j :: 0 <= j < i ==> E.RuleStep(rules[j], c) == E.Continue
      {
        var value := Trim(rules[i].value);
        if value == "" {
          continue;
        }
        var step := if rules[i].kind == TagRule then E.TagStep(value, c) else E.PropertyStep(value, c.frontmatter);
        if step == E.Exclude {
          E.RulesScanSkipsPrefix(rules, c, i);
          return E.Returned(true);
        } else if step == E.Throw {
          E.RulesScanSkipsPrefix(rules, c, i);
          return E.Threw;
        }
      }
      E.RulesScanFalse(rules, c);
      return E.Returned(false);
    }

    /** `applyPropertiesToFile(file)`: the note's folder `parent`, metadata
        `cache` and parsed frontmatter `frontmatter`, and the vault's
        recorded property types `infos`, are given. The loop works on the
        dictionary in place and counts the definitions that write. */
    method ApplyPropertiesToFile(parent: Option<string>, cache: Option<E.Cache>,
                                 frontmatter: map<string, JsValue>, infos: map<string, string>, host: Host)
      returns (r: A.ApplyOutcome)
      ensures r == A.ApplyToFile(settings, parent, cache, frontmatter, infos, host)
    {
      var excluded := IsExcluded(parent, cache, host);
      if excluded.Threw? {
        return A.Failed;
      }
      if excluded.excluded {
        return A.Skipped;
      }
      var enabled := A.Enabled(settings.properties);
      if |enabled| == 0 {
        return A.Skipped;
      }
      var fm := frontmatter;
      var added: nat := 0;
      for i := 0 to |enabled|
        invariant A.State(fm, added) == A.ApplyAll(A.State(frontmatter, 0), enabled[..i], infos, host)
      {
        assert enabled[..i + 1][..i] == enabled[..i];
        fm, added := ApplyDefinition(fm, added, enabled[i], infos, host);
      }
      assert enabled[..|enabled|] == enabled;
      return A.Applied(fm, added);
    }

    /** One pass of the loop body of `applyPropertiesToFile` */
    static method ApplyDefinition(frontmatter: map<string, JsValue>, propertiesAdded: nat, prop: GlobalProperty,
                                  infos: map<string, string>, host: Host)
      returns (fm: map<string, JsValue>, added: nat)
      ensures A.State(fm, added) == A.ApplyOne(A.State(frontmatter, propertiesAdded), prop, infos, host)
    {
      fm, added := frontmatter, propertiesAdded;
      var propName := Trim(prop.name);
      if propName == "" {
        return;
      }
      var systemType := A.SystemType(infos, propName, host);
      var processedValue := H.ProcessPropertyValue(prop.value, prop.propertyType, host);
      if !Truthy(E.Lookup(fm, propName)) || prop.overwrite {
        fm := fm[propName := processedValue];
        added := added + 1;
        return;
      }
      if F.CanBeAppended(TypeName(prop.propertyType), systemType) && Truthy(processedValue) {
        if !Identical(E.Lookup(fm, propName), processedValue) {
          fm := fm[propName := Arr(F.MergeIntoArrays([E.Lookup(fm, propName), processedValue]))];
          added := added + 1;
        }
      }
    }

    /** `addProperty(property)`: appended at the end */
    method AddProperty(property: GlobalProperty)
      modifies this
      ensures settings == old(settings).(properties := old(settings.properties) + [property])
    {
      settings := settings.(properties := settings.properties + [property]);
    }

    /** `updateProperty(index, property)`: position `index` is replaced */
    method UpdateProperty(index: int, property: GlobalProperty)
      requires 0 <= index < |settings.properties|
      modifies this
      ensures settings == old(settings).(properties := old(settings.properties)[index := property])
    {
      settings := settings.(properties := settings.properties[index := property]);
    }

    /** `removeProperty(index)`: `splice(index, 1)` */
    method RemoveProperty(index: int)
      modifies this
      ensures settings == old(settings).(properties := L.RemoveAt(old(settings.properties), index))
    {
      settings := settings.(properties := L.RemoveAt(settings.properties, index));
    }

    /** `moveProperty(fromIndex, toIndex)`: nothing happens for a target
        outside the list; otherwise the definition is spliced out and back
        in at the target */
    method MoveProperty(fromIndex: int, toIndex: int)
      requires fromIndex < |settings.properties|
      modifies this
      ensures settings == old(settings).(properties := L.Moved(old(settings.properties), fromIndex, toIndex))
    {
      var props := settings.properties;
      if toIndex < 0 || toIndex >= |props| {
        return;
      }
      var property := props[L.SpliceStart(fromIndex, |props|)];
      props := L.RemoveAt(props, fromIndex);
      props := L.InsertAt(props, toIndex, property);
      settings := settings.(properties := props);
    }
  }

  // ---------------------------------------------------------------------
  // The settings of a first start

  /** As the defaults are written, a vault without a data file (or with one
      that lacks the folder list) has no excluded-folder list, so every
      note's exclusion check throws and nothing is ever applied, whatever
      definitions the settings gain */
  lemma FreshInstallNeverApplies(saved: SavedData, parent: Option<string>, cache: Option<E.Cache>,
                                 fm: map<string, JsValue>, infos: map<string, string>, host: Host)
    requires saved.excludedFolders.None?
    ensures E.Excluded(Assign(DefaultSettings, saved), parent, cache, host) == E.Threw
    ensures A.ApplyToFile(Assign(DefaultSettings, saved), parent, cache, fm, infos, host) == A.Failed
  {
  }

  /** With the folder fields in the defaults, a first start checks no folder
      and no rule, and every note gets the enabled definitions applied */
  lemma CorrectedInstallApplies(saved: SavedData, parent: Option<string>, cache: Option<E.Cache>,
                                fm: map<string, JsValue>, infos: map<string, string>, host: Host)
    requires saved.excludedFolders.None? && saved.exclusionRules.None?
    ensures E.Excluded(Assign(CorrectedDefaultSettings, saved), parent, cache, host) == E.Returned(false)
    ensures A.ApplyToFile(Assign(CorrectedDefaultSettings, saved), parent, cache, fm, infos, host).Applied? <==>
              |A.Enabled(Assign(CorrectedDefaultSettings, saved).properties)| > 0
  {
  }

  /** With the corrected defaults the check can throw only on a frontmatter
      `tags` value that cannot be spread, never on the folder list */
  lemma CorrectedSettingsThrowOnlyOnBadTags(saved: SavedData, parent: Option<string>, cache: Option<E.Cache>, host: Host)
    requires E.Excluded(Assign(CorrectedDefaultSettings, saved), parent, cache, host) == E.Threw
    ensures cache.Some? && E.AllTags(cache.value).None?
  {
    E.ThrowsOnlyOnMissingFoldersOrBadTags(Assign(CorrectedDefaultSettings, saved), parent, cache, host);
  }
}
