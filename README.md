# Auto Properties — a verified model of the property pipeline

This project models the core of the Obsidian plugin "Auto Properties" in
Dafny and proves properties of it. The plugin adds configured properties
to every note it is run on.

Each definition in the plugin's settings names a property, gives a raw
value and a property type, and says whether the definition is enabled and
whether it overwrites. The model covers the following parts of the
plugin.

- **Tag sanitiser.** `cleanTags` deletes every character of a fixed
  denylist (module `Helpers`, with the table in `Constants`).
- **Value normaliser.** `processPropertyValue` and `getDefaultValueForType`
  turn a loosely typed value into the canonical value of one of eight
  property types (`Helpers`). `Utils` holds the older copy in
  `src/utils.ts`, which differs only in its multitext branch.
- **Merge resolver.** `canBeAppended` and `mergeIntoArrays` live in
  `Frontmatter`. The per-definition decision of `applyPropertiesToFile`
  is to overwrite, merge or leave alone (`Apply`).
- **Exclusion matcher.** `isExcluded` lives in `Exclusion`. It checks the
  folder entries first, then tag rules and `key` / `key:value` property
  rules against the note's metadata.
- **The plugin object.** `Main.AutoPropertiesPlugin` is a class whose
  `settings` field its methods update. `IsExcluded` and
  `ApplyPropertiesToFile` are loops proved equal to the specification
  functions above. `AddProperty`, `UpdateProperty`, `RemoveProperty` and
  `MoveProperty` edit the definition list in place.
- **The settings tab.** `SettingsTab.AutoPropertiesSettingTab` holds the
  plugin and models these controls:
  - the delay field's range check;
  - the entries its add buttons append;
  - move-up, move-down and delete of exclusion rules and excluded
    folders, swapping through a temporary as the source does.
- **The value field's helpers.** `UiComponents` has the input validator,
  the placeholder table and the tags/aliases clean-up on blur.

JavaScript's own behaviour is modelled in `JsRuntime`:
- a value datatype with `undefined`, `null`, booleans, integers, strings,
  arrays and objects;
- truthiness, where `[]` and `{}` are truthy;
- `String(v)`, strict equality and `trim()`;
- `split`/`join`, `indexOf`, `replace` with a one-character pattern, and
  `parseInt`.

List edits through `splice` are modelled in `ListOps`, with negative
starts counted from the end.

The host's services are parameters, gathered in the `Types.Host` record:
- `Number()` as a partial parse to an integer;
- the current UTC date;
- Obsidian's `normalizePath`;
- `toLowerCase` with the full Unicode case mapping, for the property-type
  lookup by name;
- the JavaScript regular-expression test, with an outcome for a pattern
  that does not compile.

Where the code and the plugin's own description disagree, the model
follows the code:
- A `date` or `datetime` value other than `today` and `now` is kept
  trimmed, time included. Nothing is parsed or validated.
- An inline tag loses its first `#` twice (src/main.ts:188 and again at
  191-192). So `#a#b` is compared as `ab`.
- The tag denylist has 120 characters.

## Model

| member | source | states |
|---|---|---|
| Constants.PropertyTypesTable | src/constants.ts:3-12 | the type list is exactly text, multitext, number, checkbox, date, datetime, tags and aliases, in that order; the eight are distinct and every built-in type is among them |
| Constants.BadCharactersTable | src/constants.ts:23-32 | the denylist holds `#`, space, `:`, `.`, `!`, `?`, `[`, `]`, `…` and `‘`; it has none of `/`, `_`, ASCII `-`, `,`, letters, digits, tab or newline; every entry is one BMP character |
| Constants.DefaultSettingsTable | src/constants.ts:14-20 | the defaults are enabled, show notifications, have no definitions and no rules, and a delay of 500; they have no excluded-folder list and no regex flag |
| Types.TypeOfTypeName | src/types.ts:20 | reading a built-in type's name gives the type back |
| Helpers.CleanTags | src/helpers.ts:21-28 | the result is no longer than the input and holds no denylisted character |
| Helpers.CleanTagsCounts | src/helpers.ts:21-28 | every character outside the denylist occurs as often in the result as in the input |
| Helpers.CleanTagsAppend | src/helpers.ts:21-28 | cleaning distributes over concatenation; together with CleanTagsOfChar, the result is the input with the denylisted characters deleted and the rest in order |
| Helpers.CleanTagsOfChar | src/helpers.ts:21-28 | a single character is deleted iff it is denylisted |
| Helpers.CleanTagsOfClean | src/helpers.ts:21-28 | a string without denylisted characters is left as it is |
| Helpers.CleanTagsIdempotent | src/helpers.ts:21-28 | cleaning twice is cleaning once |
| Helpers.CleanTagsKeepsNesting | src/helpers.ts:21-28 | `#a/b-c_d` becomes `a/b-c_d`: nesting slashes, dashes and underscores stay |
| Helpers.CleanTagsDropsPunctuation | src/helpers.ts:21-28 | `a b!` becomes `ab` |
| Helpers.DropEmpty | src/helpers.ts:50 | dropping empty items keeps exactly the non-empty ones and keeps their being trimmed, comma-free and clean |
| Helpers.StringList | src/helpers.ts:43-50 | a list of strings, read back as strings, is that list |
| Helpers.StringListOfStringsOf | src/helpers.ts:43-50 | a list value of strings is rebuilt from its strings |
| Helpers.TrimmedPieces | src/helpers.ts:47-50 | the comma-separated pieces of a string, trimmed, are at least one, all trimmed and comma-free |
| Helpers.GetDefaultValueForType | src/helpers.ts:110-128 | the default is canonical for its type; it is truthy exactly for multitext, tags and aliases, and then the empty list |
| Helpers.DefaultValueTable | src/helpers.ts:110-128 | `''` for text, date, datetime and any other type; `[]` for multitext, tags and aliases; `0` for number; `false` for checkbox |
| Helpers.TagList | src/helpers.ts:77-79 | the tags read from an array are non-empty and clean |
| Helpers.AliasList | src/helpers.ts:90-92 | the aliases read from an array are non-empty and trimmed |
| Helpers.ListOfString | src/helpers.ts:43-50 | the items read from a string are non-empty; for tags they are clean, otherwise trimmed and comma-free |
| Helpers.ProcessPropertyValue | src/helpers.ts:34-105 | a null or undefined value gives its type's default; the result is always canonical for the type (a string, a list of strings, a number or a boolean); an unknown type passes the value through |
| Helpers.JoinEnds | src/helpers.ts:43-50 | joining non-empty items starts with the first item's first character and ends with the last item's last one |
| Helpers.PiecesOfJoin | src/helpers.ts:43-50 | splitting a join of trimmed, comma-free items at the commas, and trimming, gives the items back, whatever white space surrounds them |
| Helpers.ListOfJoin | src/helpers.ts:43-50 | reading the join of trimmed, comma-free, non-empty items gives those items |
| Helpers.JoinElementsOfStrings | src/helpers.ts:40-41 | joining the elements of a list of strings with `,` gives the comma join of the strings themselves; `ToStringOfStringList` builds on it |
| Helpers.ToStringOfStringList | src/helpers.ts:40-41 | `String` of a list of strings is its comma join |
| Helpers.ToNumber | src/helpers.ts:52-54 | `Number()` of a boolean is 1 or 0 and of a number the number itself; a string and an array go through the parser by their string form; `undefined` and an object are `NaN` |
| Helpers.CheckboxValue | src/helpers.ts:56-62 | a boolean passes through; a string is true iff it lower-cases and trims to `true`, `yes` or `1`, so a true string is never blank; anything else is its truthiness |
| Helpers.NormalizeDate | src/helpers.ts:64-74 | a falsy value gives `''`; otherwise the result is the current date or the trimmed string form; a stored text is trimmed and never the word `today` or `now` |
| Helpers.ListOfStringValue | src/helpers.ts:43-100 | a list type's string input normalises to the list of the items read from it |
| Helpers.ListRoundTrip | src/helpers.ts:43-100 | writing a list out with `", "` and normalising it again gives the list |
| Helpers.ListRoundTripOfString | src/helpers.ts:43-100 | normalising `String(list)` of such a list gives the list |
| Helpers.MapToStringOfStringList | src/helpers.ts:45 | `String` of each element of a list of strings changes nothing |
| Helpers.MultitextOfArray | src/helpers.ts:44-45 | an array input to multitext gives one string per element, `String` of it, none dropped |
| Helpers.SplitTailExample | src/helpers.ts:50 | `b,a` splits into `b` and `a` |
| Helpers.SplitExample | src/helpers.ts:50 | `a, ,b,a` splits into four pieces, the blank one included |
| Helpers.TrimPiecesExample | src/helpers.ts:50 | trimming those pieces leaves an empty one |
| Helpers.TrimListExample | src/helpers.ts:47 | the whole input is trimmed first |
| Helpers.DropEmptyExample | src/helpers.ts:50 | the empty piece is dropped and the duplicate kept |
| Helpers.ListOfStringExample | src/helpers.ts:43-50 | ` a, ,b,a ` reads as `a`, `b`, `a` |
| Helpers.MultitextExample | src/helpers.ts:43-50 | ` a, ,b,a ` normalises to the multitext list `a`, `b`, `a`: order and duplicates are kept |
| Helpers.MultitextBlankExample | src/helpers.ts:43-50 | blank multitext input gives `[]` |
| Helpers.TagListOfTags | src/helpers.ts:77-79 | clean, trimmed, non-empty tags read from an array are unchanged |
| Helpers.AliasListOfAliases | src/helpers.ts:90-92 | trimmed, non-empty aliases read from an array are unchanged |
| Helpers.DateFixpoint | src/helpers.ts:64-74 | a trimmed non-empty date text other than `today` and `now` normalises to itself |
| Helpers.DateIdempotent | src/helpers.ts:64-74 | normalising a date twice is normalising it once, given the clock reads `YYYY-MM-DD` |
| Helpers.ProcessIdempotent | src/helpers.ts:34-105 | normalising a normalised value again changes nothing, for every type; for tags this needs the cleaned items to have no white space at their ends |
| Helpers.CleanTagExample | src/helpers.ts:21-28 | cleaning `#` and a tab keeps the tab |
| Helpers.TagPiecesExample | src/helpers.ts:83-84 | `#` and a tab before `x` is one trimmed piece |
| Helpers.TagStringExample | src/helpers.ts:76-87 | that piece cleans to a tab before `x` |
| Helpers.TagArrayExample | src/helpers.ts:77-79 | as an array element it is trimmed to `x` |
| Helpers.TagsNotIdempotentExample | src/helpers.ts:76-87 | without the precondition, tags normalisation is not idempotent: the string gives a tab-led tag and normalising that gives `x` |
| Helpers.CheckboxIgnoresCase | src/helpers.ts:56-62 | the checkbox reading of a string ignores ASCII case |
| Helpers.CheckboxIgnoresPadding | src/helpers.ts:56-62 | the checkbox reading of a string ignores surrounding white space |
| Helpers.LowerYesExample | src/helpers.ts:59 | `Yes` lower-cases to `yes` |
| Helpers.CheckboxYesExample | src/helpers.ts:56-62 | ` Yes ` normalises to true |
| Helpers.CheckboxOneExample | src/helpers.ts:56-62 | `1` normalises to true |
| Helpers.CheckboxNoExample | src/helpers.ts:56-62 | `no` normalises to false |
| Helpers.CheckboxTruthinessExamples | src/helpers.ts:56-62 | other values use truthiness: `false` and `0` give false; `2` and `[]` give true |
| Helpers.DateKeepsAnyString | src/helpers.ts:64-74 | any trimmed date or datetime text other than `today` and `now` is stored as it is, without calendar validation |
| Helpers.TrimTodayExample | src/helpers.ts:70 | ` today ` trims to `today` |
| Helpers.DateTodayExample | src/helpers.ts:64-74 | ` today ` as a date gives the current date |
| Helpers.DateNowExample | src/helpers.ts:64-74 | `now` as a datetime gives the current date |
| Helpers.DateVerbatimExamples | src/helpers.ts:64-74 | `Today` (the test is case-sensitive) and `2024-13-45` are stored as written |
| Helpers.DateFalsyExamples | src/helpers.ts:66 | a falsy date or datetime value gives `''` |
| Helpers.NumberExamples | src/helpers.ts:52-54 | a number stays, `true` is 1, an object or text that does not parse is 0, and text that parses is its number |
| Frontmatter.CanBeAppended | src/frontmatter.ts:13-19 | false iff the first type is number, date, datetime or checkbox, or a second type is given and is one of them |
| Frontmatter.CanBeAppendedSymmetric | src/frontmatter.ts:15 | with two types given the test is symmetric |
| Frontmatter.CanBeAppendedWithoutSystemType | src/frontmatter.ts:15 | without a second type the test depends on the first alone, and an empty second type acts as none |
| Frontmatter.AppendableTypes | src/frontmatter.ts:13-19 | a built-in type can be appended to iff it is not number, date, datetime or checkbox |
| Frontmatter.Flatten | src/frontmatter.ts:27 | the flattened list holds exactly the elements of the arguments |
| Frontmatter.FirstOccurrencesElements | src/frontmatter.ts:28 | keeping first occurrences keeps every element |
| Frontmatter.FirstOccurrencesNoDuplicates | src/frontmatter.ts:28 | keeping first occurrences leaves no duplicate |
| Frontmatter.AddAllFirstOccurrences | src/frontmatter.ts:28 | adding elements one at a time to a set in insertion order is keeping first occurrences |
| Frontmatter.MergeIntoArrays | src/frontmatter.ts:25-30 | the merge has no duplicates, and its elements are exactly those of all arguments |
| Frontmatter.MergeOrder | src/frontmatter.ts:25-30 | the merge lists elements in order of first occurrence across the arguments, left to right |
| Frontmatter.FirstOccurrencesOfPrefix | src/frontmatter.ts:28 | the first occurrences of a prefix are a prefix of the first occurrences |
| Frontmatter.FirstOccurrencesOfDistinct | src/frontmatter.ts:28 | a list without duplicates is its own first occurrences |
| Frontmatter.MergeKeepsExistingFirst | src/frontmatter.ts:25-30 | the existing value's elements come first in the merge, in their order |
| Frontmatter.ScalarIsSingleton | src/frontmatter.ts:26 | two scalar arguments flatten to the two of them |
| Frontmatter.MergeExample | src/frontmatter.ts:25-30 | `["a","b"]` and `["b","c"]` merge to `["a","b","c"]` |
| Frontmatter.MergeKeepsEveryArray | src/frontmatter.ts:28 | two nested empty arrays are distinct objects for the `Set`, so both stay |
| Utils.ProcessPropertyValue | src/utils.ts:40-108 | the older normaliser gives the type default for null or undefined and a canonical value always; its multitext branch turns a non-array into `[String(value)]` |
| Utils.AgreesWithHelpers | src/utils.ts:40-108 | the two normalisers agree on every type and value except multitext on a present non-array |
| Utils.MultitextDiffers | src/utils.ts:49-53 | there they differ: `''` gives `['']` here and `[]` in the helpers copy; `a,b` stays one item |
| Exclusion.FolderMatches | src/main.ts:157-172 | an empty entry never matches; unless regex mode is on, an entry matches iff the parent path equals the normalised entry; in regex mode iff the pattern compiles and matches |
| Exclusion.FolderScan | src/main.ts:155-175 | the folder check excludes iff some entry matches |
| Exclusion.FolderEntryCases | src/main.ts:157-172 | an empty entry never matches; in literal mode an entry matches iff the parent path is the normalised entry; in regex mode a pattern that does not compile never matches |
| Exclusion.FrontmatterTags | src/main.ts:189-190 | the frontmatter tags cannot be spread iff they are truthy and neither a list nor a string |
| Exclusion.AllTags | src/main.ts:187-192 | the combined tag list exists iff the frontmatter tags can be spread |
| Exclusion.TagStep | src/main.ts:183-197 | a tag rule throws iff the combined tag list cannot be built, and excludes iff the list holds the rule's text without its leading `#` |
| Exclusion.PropertyStep | src/main.ts:198-224 | a property rule never throws; without frontmatter it is skipped; a `key` rule excludes iff the key is present; a `key:value` rule that excludes has a non-blank key |
| Exclusion.Excluded | src/main.ts:153-229 | an absent folder list throws; without a cache or without rules the check never throws; a matching folder entry excludes; a false result means no folder entry matched |
| Exclusion.RuleStep | src/main.ts:180-181 | a rule whose value trims to nothing is skipped |
| Exclusion.RulesScanTrue | src/main.ts:179-226 | the rule scan returns true iff some rule excludes and every rule before it is skipped |
| Exclusion.RulesScanSkipsPrefix | src/main.ts:179-226 | the scan passes over skipped rules |
| Exclusion.RulesScanFalse | src/main.ts:179-228 | the rule scan returns false iff every rule is skipped |
| Exclusion.ExcludedIffSomeRuleMatches | src/main.ts:153-229 | when no rule can throw, `isExcluded` is true iff some folder entry or, given a cache, some rule matches |
| Exclusion.FirstExcluding | src/main.ts:179-226 | when some rule excludes and none throws, a first excluding rule exists |
| Exclusion.ThrowsOnlyOnMissingFoldersOrBadTags | src/main.ts:153-229 | the check throws only when the folder list is absent, or a non-blank tag rule meets frontmatter tags that cannot be spread |
| Exclusion.RulesScanThrows | src/main.ts:183-192 | a scan that throws reached a non-blank tag rule with tags that cannot be spread |
| Exclusion.OnlyFoldersWithoutCache | src/main.ts:177 | without a cache, or without rules, only the folder entries decide |
| Exclusion.KeyRule | src/main.ts:203-207 | a `key` rule excludes iff the key's value is anything but `undefined` |
| Exclusion.KeyRuleNull | src/main.ts:205 | a `null` value counts as present |
| Exclusion.IndexOfFirstColon | src/main.ts:201 | the rule is split at its first colon |
| Exclusion.JoinedRuleIsTrimmed | src/main.ts:180 | a `key:value` rule built from trimmed parts is trimmed |
| Exclusion.KeyValueRule | src/main.ts:208-222 | a `key:value` rule excludes iff the value is present and its string form is the text, or, for an array, some element's is; the text may itself hold colons |
| Exclusion.BlankKeySkipped | src/main.ts:213 | a `key:value` rule with a blank key is skipped |
| Exclusion.PropertyRuleWithoutFrontmatter | src/main.ts:199 | without frontmatter a property rule is skipped |
| Exclusion.TagRuleMatches | src/main.ts:183-197 | a tag rule excludes iff the combined tag list exists and holds the rule's text without its leading `#`, compared case-sensitively; it throws iff the list cannot be built |
| Exclusion.StringTagsAreCharacters | src/main.ts:190 | frontmatter `tags: ab` is read as the tags `a` and `b` |
| Exclusion.NumberTagsThrow | src/main.ts:190 | frontmatter `tags: 5` makes a tag rule throw |
| Exclusion.RemoveFirstHashExample | src/main.ts:188 | `replace('#','')` removes the first `#` wherever it is |
| Exclusion.FrontmatterTagLosesFirstHash | src/main.ts:190-192 | the frontmatter tag `a#b` is compared as `ab` |
| Exclusion.InlineTagLosesTwoHashes | src/main.ts:188-192 | the inline tag `#a#b` loses both `#` and is compared as `ab` |
| Apply.SystemType | src/main.ts:246-254 | the recorded type of a property is the one the vault's infos hold under its name lower-cased by the host, and none without a record |
| Apply.Enabled | src/main.ts:243 | the enabled definitions are exactly those of the settings that are enabled |
| Apply.EnabledAppend | src/main.ts:243 | `filter` keeps order and multiplicity: filtering a concatenation is filtering each part and concatenating |
| Apply.EnabledOfOne | src/main.ts:243 | a single definition is kept iff it is enabled |
| Apply.EnabledKeepsOrderExample | src/main.ts:243 | two enabled definitions stay in their order, so `[p, q]` never becomes `[q, p]` |
| Apply.ApplyOne | src/main.ts:251-270 | one definition changes only the key it names, removes no key, and a pass that is not counted leaves the state as it was; a counted pass adds exactly one |
| Apply.Names | src/main.ts:252 | the names of a list of definitions are exactly their trimmed names |
| Apply.ApplyAll | src/main.ts:250-271 | the loop counts at most one per definition, removes no key and touches no key that no definition names |
| Apply.NamesOfSnoc | src/main.ts:250 | the names of a list are those of its first part and its last definition |
| Apply.ApplyToFile | src/main.ts:235-277 | the update fails iff the exclusion check throws; it runs iff the note is not excluded and some definition is enabled; then it counts at most the enabled definitions and touches only the keys they name |
| Apply.OverwriteBranch | src/main.ts:258-262 | an absent or falsy value, or an overwriting definition: the key becomes the normalised value and is counted |
| Apply.MergeBranch | src/main.ts:265-270 | a mergeable, truthy value not identical to the existing one: the key becomes the merge of the two lists, existing elements first, no duplicates, and is counted |
| Apply.LeaveAloneBranch | src/main.ts:264-270 | otherwise nothing changes |
| Apply.BlankNameSkipped | src/main.ts:252-253 | a definition whose name trims to nothing changes nothing |
| Apply.ScalarTypesNeverMerge | src/main.ts:265 | a number, date, datetime or checkbox definition never changes an existing truthy value unless it overwrites |
| Apply.OverwriteOfSameValueCounted | src/main.ts:258-262 | an overwriting definition is counted even when the note already holds the value it writes |
| Apply.ZeroIsReplaced | src/main.ts:258 | an existing `0` is falsy and is replaced without the overwrite flag |
| Apply.MergeEmptyIntoScalar | src/frontmatter.ts:25-30 | merging `[]` into a scalar gives the one-element list of it |
| Apply.EmptyListStillMerges | src/main.ts:265-270 | an empty tags value is truthy: `tags: work` becomes `[work]`, and the definition is counted |
| Apply.MergeTwoStrings | src/frontmatter.ts:25-30 | two different strings merge into both, in order |
| Apply.LaterDefinitionsSeeEarlierWrites | src/main.ts:250-271 | two text definitions of one name: the second sees the first's write and merges, and both are counted |
| Main.Assign | src/main.ts:132-134 | every saved field replaces the default; a field neither has stays absent; with no saved data the defaults are the settings |
| Main.AutoPropertiesPlugin.constructor | src/constants.ts:14-20 | a new plugin object has the corrected defaults |
| Main.AutoPropertiesPlugin.LoadSettings | src/main.ts:132-134 | the settings become the saved data over the corrected defaults, so both folder fields are present; saved data holding both folder fields gives exactly the settings the defaults as written give |
| Main.AutoPropertiesPlugin.IsExcluded | src/main.ts:153-229 | the loops over folder entries and rules, with their early returns, compute the exclusion check function |
| Main.AutoPropertiesPlugin.ApplyPropertiesToFile | src/main.ts:235-277 | the loop that rewrites the frontmatter in place and counts the writes computes the update function |
| Main.AutoPropertiesPlugin.ApplyDefinition | src/main.ts:251-270 | one pass of the loop body computes one definition's step |
| Main.AutoPropertiesPlugin.AddProperty | src/main.ts:280-283 | the definition is appended; nothing else changes |
| Main.AutoPropertiesPlugin.UpdateProperty | src/main.ts:285-288 | the definition at the index is replaced; nothing else changes |
| Main.AutoPropertiesPlugin.RemoveProperty | src/main.ts:290-293 | `splice(index, 1)`: exactly one definition goes, the others keep their order; nothing else changes |
| Main.AutoPropertiesPlugin.MoveProperty | src/main.ts:295-301 | a target outside the list changes nothing; otherwise the definition is moved, length and multiset kept |
| Main.FreshInstallNeverApplies | src/constants.ts:14-20 | with the defaults as written and no saved folder list, every note's exclusion check throws and no note is ever updated |
| Main.CorrectedInstallApplies | src/main.ts:153-229 | with the folder fields in the defaults, a first start excludes no note, and every note is updated iff some definition is enabled |
| Main.CorrectedSettingsThrowOnlyOnBadTags | src/main.ts:183-192 | with the corrected defaults the check throws only on frontmatter tags that cannot be spread |
| ListOps.SpliceStart | src/main.ts:291 | the splice position lies in the list and is the start itself when the start lies in it |
| ListOps.RemoveAt | src/main.ts:290-293 | `splice(start, 1)` removes the element at the splice position and closes up the others in order; past the end nothing changes |
| ListOps.RemoveAtMultiset | src/main.ts:291 | removal takes out exactly one occurrence of the removed element |
| ListOps.InsertAt | src/main.ts:299 | `splice(start, 0, x)` puts x at the splice position, shifts the rest up and adds one occurrence of x |
| ListOps.RemoveInserted | src/main.ts:298-299 | removing what was inserted restores the list |
| ListOps.InsertRemoved | src/main.ts:298-299 | inserting what was removed restores the list |
| ListOps.Moved | src/main.ts:295-301 | the move keeps length and multiset, does nothing for a target outside the list, and puts the moved element at the target |
| ListOps.ClampedStartMovesFirst | src/main.ts:298-299 | a start below minus the length moves the first element |
| ListOps.MovedKeepsTheOthers | src/main.ts:298-299 | the elements not moved keep their relative order |
| ListOps.MoveBack | src/main.ts:295-301 | moving back undoes a move |
| ListOps.Swapped | src/settings-tab.ts:257-259 | the swap exchanges the two positions, keeps every other position and the multiset |
| ListOps.SwapTwice | src/settings-tab.ts:257-259 | swapping twice restores the list |
| ListOps.SwapIsMove | src/settings-tab.ts:255-272 | swapping with a neighbour is moving to the neighbour's place |
| UiComponents.ValidatePropertyInput | src/ui-components.ts:387-411 | a rejection carries a message and an acceptance none; blank input is valid for every type; text, multitext, tags, aliases and other types accept anything |
| UiComponents.ValidationRules | src/ui-components.ts:395-407 | number iff it parses; checkbox iff it lower-cases to `true` or `false`; date iff `today` in any case or `YYYY-MM-DD`; datetime iff `now` in any case or a date, `T` or white space, `HH:mm` and optionally `:ss` |
| UiComponents.YesRejected | src/ui-components.ts:397-399 | ` Yes ` is rejected for a checkbox |
| UiComponents.OneRejected | src/ui-components.ts:397-399 | `1` is rejected for a checkbox |
| UiComponents.CheckboxWordsDisagree | src/ui-components.ts:397-399 | ` Yes ` and `1` are rejected by the field though the normaliser reads them as true |
| UiComponents.AcceptedCheckboxNormalises | src/ui-components.ts:397-399 | a checkbox text the field accepts normalises to the boolean it spells |
| UiComponents.AcceptedDateKept | src/ui-components.ts:400-403 | a `YYYY-MM-DD` date passes the field and is stored as it is |
| UiComponents.TodayCaseDisagrees | src/ui-components.ts:401 | `Today` passes the field, whose test ignores case, and is stored as the text `Today` |
| UiComponents.GetPlaceholderForType | src/ui-components.ts:370-382 | every type has a non-empty placeholder |
| UiComponents.PlaceholdersDistinct | src/ui-components.ts:370-382 | the eight built-in types have eight different placeholders |
| UiComponents.SanitizeOnBlur | src/ui-components.ts:100-109 | the value the blur handler passes on is the trimmed input; for tags and aliases it is the items the normaliser reads from the input, joined with `", "`, and for non-blank tags or aliases input it is also written back into the field |
| UiComponents.CleanTagsAddsNothing | src/helpers.ts:21-28 | cleaning adds no character |
| UiComponents.ListOfStringNoCommas | src/ui-components.ts:106 | no item read from a string holds a comma |
| UiComponents.SanitizeKeepsItems | src/ui-components.ts:104-109 | the sanitised text has no empty item and, read again, gives the same items |
| UiComponents.SanitizeKeepsValue | src/ui-components.ts:104-109 | sanitising does not change the value the field's text normalises to |
| UiComponents.SanitizeIdempotent | src/ui-components.ts:104-109 | a second blur passes on the same value as the first |
| SettingsTab.AcceptedDelay | src/settings-tab.ts:66-76 | a delay is accepted iff `parseInt` of the text is a number from 0 to 5000, and it is that number |
| SettingsTab.DelayOfItsOwnText | src/settings-tab.ts:65-76 | the text the field shows for a delay sets that delay back |
| SettingsTab.DelayReadsLeadingDigits | src/settings-tab.ts:67 | `1e4` sets a delay of 1 |
| SettingsTab.DelayOutsideRangeRefused | src/settings-tab.ts:68 | numbers above 5000 and negative numbers are refused |
| SettingsTab.NewEntriesAreInert | src/settings-tab.ts:112-118 | a new definition, rule or folder does nothing until filled in: the definition changes no note, the rule is skipped, the folder matches no path |
| SettingsTab.AutoPropertiesSettingTab.OnDelayChange | src/settings-tab.ts:66-76 | the settings change iff the text is accepted, and then only in the delay |
| SettingsTab.AutoPropertiesSettingTab.AddPropertyClicked | src/settings-tab.ts:112-118 | the new definition `{name:'', value:'', type:'text', enabled:true, overwrite:false}` is appended |
| SettingsTab.AutoPropertiesSettingTab.AddFolderClicked | src/settings-tab.ts:143 | `{folder:''}` is appended to the folder list; on an absent list `push` throws and nothing changes |
| SettingsTab.AutoPropertiesSettingTab.AddRuleClicked | src/settings-tab.ts:167 | `{type:'tag', value:''}` is appended to the rules |
| SettingsTab.AutoPropertiesSettingTab.MoveRuleUp | src/settings-tab.ts:255-263 | above the top row the rule changes places with the one above; at the top nothing changes |
| SettingsTab.AutoPropertiesSettingTab.MoveRuleDown | src/settings-tab.ts:264-272 | above the bottom row the rule changes places with the one below; at the bottom nothing changes |
| SettingsTab.AutoPropertiesSettingTab.DeleteRule | src/settings-tab.ts:273-276 | the rule at the row is spliced out, the others keep their order |
| SettingsTab.AutoPropertiesSettingTab.MoveFolderUp | src/settings-tab.ts:307-315 | the folder entry changes places with the one above, except at the top |
| SettingsTab.AutoPropertiesSettingTab.MoveFolderDown | src/settings-tab.ts:316-324 | the folder entry changes places with the one below, except at the bottom |
| SettingsTab.AutoPropertiesSettingTab.DeleteFolder | src/settings-tab.ts:325-328 | the folder entry at the row is spliced out, the others keep their order |
| JsRuntime.TrimOfLower | src/ui-components.ts:397-398 | trimming and ASCII lower-casing commute |
| JsRuntime.ParseIntOfNatToString | src/settings-tab.ts:65-67 | `parseInt` of the decimal text of a number is that number |

## Left out

- Numbers are integers. `Number()`, `isNaN` and floating point are the host's `parseNumber` (src/helpers.ts:52-54, src/ui-components.ts:396). Fractions, `NaN` and infinities are not modelled.
- Helpers.ProcessPropertyValue, Utils.ProcessPropertyValue: the branch for a JavaScript `Date` object in the date types (src/helpers.ts:67-69, src/utils.ts:69-71) is not modelled; values are the JSON-like kinds a frontmatter holds.
- Helpers.ProcessIdempotent: for tags it holds only when the cleaned items have no white space at their ends. `Helpers.TagsNotIdempotentExample` shows the input where it fails.
- UiComponents.SanitizeIdempotent: for tags, the same precondition as above.
- The clock is a parameter: `today` is the host's current UTC date (src/helpers.ts:71-72). The regular-expression engine is the host's `regexTest`, with an outcome for a pattern that does not compile. `normalizePath`, `getFileCache`, `getAllPropertyInfos` and `processFrontMatter` are not modelled; their results are given to the operations.
- JsRuntime.ToLower: lower-cases ASCII letters only. It serves the checkbox reading and the validator, whose results are compared with the ASCII words `true`, `false`, `yes`, `1`, `today` and `now`. The property-type lookup by name (src/main.ts:254), whose keys are arbitrary text, uses the host's `toLowerCase` instead.
- Frontmatter is a map of the note's own keys. Keys inherited from `Object.prototype` (such as `constructor`) are not modelled as present.
- Strict equality (`!==`) and the `Set` of `mergeIntoArrays` compare primitives by value. An array or object is never identical to another, which is right because every comparison in the core is between fresh values.
- Main.AutoPropertiesPlugin.UpdateProperty: requires an index inside the list. JavaScript would also accept an index past the end (leaving holes) or a non-integer key.
- Main.AutoPropertiesPlugin.MoveProperty: requires a start below the list's length. A start below minus the length is modelled, clamped to the first element as `splice` does (`ListOps.ClampedStartMovesFirst`). With a start at or past the end, `splice` takes out nothing and JavaScript inserts `undefined`, which a list of definitions cannot hold; every call site (src/settings-tab.ts:210,214) passes a row inside the list.
- SettingsTab.AutoPropertiesSettingTab.MoveRuleUp: requires a row inside the list. The tab builds these callbacks once per rendered row (src/settings-tab.ts:241), so every call meets it.
- SettingsTab.AutoPropertiesSettingTab.MoveRuleDown: requires a row inside the list, for the same reason.
- SettingsTab.AutoPropertiesSettingTab.MoveFolderUp: requires a present folder list and a row inside it. The rows exist only once the list has been rendered (src/settings-tab.ts:290-298), and rendering an absent list throws.
- SettingsTab.AutoPropertiesSettingTab.MoveFolderDown: requires a present folder list and a row inside it, for the same reason.
- SettingsTab.AutoPropertiesSettingTab.DeleteFolder: requires a present folder list, for the same reason.
- Main.AutoPropertiesPlugin.constructor, Main.AutoPropertiesPlugin.LoadSettings: these build the settings over the corrected defaults, not over the defaults as written (src/constants.ts:14-20), so the plugin object models the program with the correction of the finding below. The defaults as written are modelled by `Constants.DefaultSettings`, and `Main.FreshInstallNeverApplies` states what they do. The source's constructor sets no settings; `onload` assigns them through `loadSettings`, and the model's constructor stands for that with no saved data.
- Persistence (`loadData`, `saveData`, `saveSettings`), timers (`setTimeout`), vault events, commands, the ribbon and `Notice` are not modelled (src/main.ts:56-147). `handleFileEvent` and the notification after an update (src/main.ts:273-275) are also out.
- The DOM: every row builder, style and render method of src/ui-components.ts and src/settings-tab.ts, and the files src/property-row.ts, src/settings-modal.ts, src/exclusion-row.ts, src/folder-exclusion-row.ts and src/ui-utils.ts, are not part of this model. Only the value logic of the blur handler (src/ui-components.ts:104-109) is modelled.
- `canBeAppended`, `mergeIntoArrays`, `cleanTags` and `getDefaultValueForType` of src/utils.ts (src/utils.ts:7-35, 113-131) have the same text as the versions in src/frontmatter.ts and src/helpers.ts. They are modelled by those definitions rather than by copies.

## Findings

| source | as written | input that shows it | evidently intended | confidence | as-written member | corrected member |
|---|---|---|---|---|---|---|
| src/constants.ts:14-20 | the defaults leave out `excludedFolders` and `useRegexForExcludedFolders`, which the settings type declares (src/types.ts:27-28); `isExcluded` reads `this.settings.excludedFolders.length` (src/main.ts:155) | a vault with no saved data: every note's exclusion check throws, so no property is ever applied; the settings tab's folder list (src/settings-tab.ts:290) and its add button (143) throw too | defaults with an empty folder list and regex mode off, so a first start applies the enabled definitions | not executed | Main.FreshInstallNeverApplies | Main.CorrectedInstallApplies |
