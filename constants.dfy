/// The constant tables of src/constants.ts.
module Constants {
  import opened JsRuntime
  import opened Types

  /** PROPERTY_TYPES: the eight property types, in the order the type menu lists them */
  const PropertyTypes: seq<PropertyType> :=
    [Text, Multitext, Number, Checkbox, Date, Datetime, Tags, Aliases]

  /** KNOWN_BAD_CHARACTERS, the characters that may not appear in a tag. The
      source lists 120 distinct characters, all in the Basic Multilingual
      Plane and none a surrogate, and uses the list only as one regular
      expression character class; the class is written here as the code-point
      ranges that the 120 characters fill: 28 ASCII characters (space to `+`,
      `.`, `:` to `@`, `[`, `]`, `^`, the backquote, `{` to `~`), 68 from the
      General Punctuation block and 24 plus 2 from Supplemental Punctuation. */
  predicate IsBadCharacter(c: char) {
    var n := c as int;
    (0x20 <= n <= 0x2B) || n == 0x2E || (0x3A <= n <= 0x40) || n == 0x5B ||
    (0x5D <= n <= 0x5E) || n == 0x60 || (0x7B <= n <= 0x7E) ||
    (0x2011 <= n <= 0x2018) || (0x201A <= n <= 0x2026) || (0x2030 <= n <= 0x203E) ||
    (0x2041 <= n <= 0x205E) || (0x2E00 <= n <= 0x2E17) || (0x2E1C <= n <= 0x2E1D)
  }

  /** DEFAULT_SETTINGS as written: it has no `excludedFolders` and no
      `useRegexForExcludedFolders` entry. */
  const DefaultSettings: SettingsData :=
    SettingsData(
      enabled := true,
      properties := [],
      showNotifications := true,
      exclusionRules := [],
      excludedFolders := None,
      useRegexForExcludedFolders := None,
      delayAfterCreate := 500)

  /** DEFAULT_SETTINGS with the two folder entries its declared type calls
      for: no excluded folders and literal folder matching. */
  const CorrectedDefaultSettings: SettingsData :=
    DefaultSettings.(excludedFolders := Some([]), useRegexForExcludedFolders := Some(false))

  lemma PropertyTypesTable()
    ensures |PropertyTypes| == 8
    ensures forall i :: 0 <= i < 8 ==> TypeName(PropertyTypes[i]) == KnownTypeNames[i]
    ensures forall i, j :: 0 <= i < j < |PropertyTypes| ==> PropertyTypes[i] != PropertyTypes[j]
    ensures forall t: PropertyType :: !t.Other? ==> t in PropertyTypes
  {
  }

  /** The characters the table is known for: the tag sign, whitespace used
      as a separator, sentence punctuation and brackets; and the ones a tag
      may keep: `/` (nested tags), `_`, `-`, digits, letters and `,` (which
      the callers split on before cleaning). U+2019, the right single
      quotation mark, is not in the table although its left partner is. */
  lemma BadCharactersTable()
    ensures IsBadCharacter('#') && IsBadCharacter(' ') && IsBadCharacter(':')
    ensures IsBadCharacter('.') && IsBadCharacter('!') && IsBadCharacter('?')
    ensures IsBadCharacter('[') && IsBadCharacter(']') && IsBadCharacter('\U{2026}')
    ensures IsBadCharacter('\U{2018}') && !IsBadCharacter('\U{2019}')
    ensures !IsBadCharacter('/') && !IsBadCharacter('_') && !IsBadCharacter('-') && !IsBadCharacter(',')
    ensures forall c: char :: ('a' <= c <= 'z' || 'A' <= c <= 'Z' || '0' <= c <= '9') ==> !IsBadCharacter(c)
    ensures forall c: char :: IsBadCharacter(c) ==> c as int < 0x1_0000 && !(0xD800 <= c as int < 0xE000)
    ensures !IsBadCharacter('\t') && !IsBadCharacter('\n')
  {
  }

  lemma DefaultSettingsTable()
    ensures DefaultSettings.enabled && DefaultSettings.showNotifications
    ensures DefaultSettings.properties == [] && DefaultSettings.exclusionRules == []
    ensures DefaultSettings.delayAfterCreate == 500
    ensures DefaultSettings.excludedFolders.None? && DefaultSettings.useRegexForExcludedFolders.None?
  {
  }
}
