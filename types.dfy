/// The plugin's configuration records (src/types.ts) and the services of the
/// host application and of the JavaScript runtime that the core calls but
/// does not define.
module Types {
  import opened JsRuntime

  /** The type strings a property can carry. `Other` stands for a type name
      outside the eight (a value loaded from an edited settings file); it
      reaches the `default` branches of the type switches. */
  datatype TypeKind =
    | Text | Multitext | Number | Checkbox | Date | Datetime | Tags | Aliases
    | Other(name: string)

  /** A type as the source can hold it: `Other` never carries one of the
      eight known names, which select their own cases */
  predicate IsCanonical(t: TypeKind) {
    t.Other? ==> t.name !in KnownTypeNames
  }

  /** The declared type of a property */
  type PropertyType = t: TypeKind | IsCanonical(t) witness Text

  /** The string the source stores for a type */
  function TypeName(t: PropertyType): string {
    match t
    case Text => "text"
    case Multitext => "multitext"
    case Number => "number"
    case Checkbox => "checkbox"
    case Date => "date"
    case Datetime => "datetime"
    case Tags => "tags"
    case Aliases => "aliases"
    case Other(name) => name
  }

  const KnownTypeNames: seq<string> :=
    ["text", "multitext", "number", "checkbox", "date", "datetime", "tags", "aliases"]

  /** The `switch` on a type string: a known name selects its case, any other
      name the `default` case */
  function TypeOf(name: string): (t: PropertyType)
    ensures TypeName(t) == name
    ensures t.Other? <==> name !in KnownTypeNames
  {
    match name
    case "text" => Text
    case "multitext" => Multitext
    case "number" => Number
    case "checkbox" => Checkbox
    case "date" => Date
    case "datetime" => Datetime
    case "tags" => Tags
    case "aliases" => Aliases
    case _ => Other(name)
  }

  lemma TypeOfTypeName(t: PropertyType)
    ensures TypeOf(TypeName(t)) == t
  {
  }

  /** GlobalProperty: a property definition of the settings */
  datatype GlobalProperty = GlobalProperty(
    name: string,
    value: JsValue,
    propertyType: PropertyType,
    enabled: bool,
    overwrite: bool)

  datatype RuleKind = TagRule | PropertyRule

  /** ExclusionRule: `type` is `'tag'` or `'property'` */
  datatype ExclusionRule = ExclusionRule(kind: RuleKind, value: string)

  datatype ExcludedFolder = ExcludedFolder(folder: string)

  /** AutoPropertiesSettings as the plugin holds it at run time. The two
      folder fields are optional because the settings object is built from
      the defaults and the saved data, and either may lack them. */
  datatype SettingsData = SettingsData(
    enabled: bool,
    properties: seq<GlobalProperty>,
    showNotifications: bool,
    exclusionRules: seq<ExclusionRule>,
    excludedFolders: Option<seq<ExcludedFolder>>,
    useRegexForExcludedFolders: Option<bool>,
    delayAfterCreate: int)

  /** Outcome of `new RegExp(pattern).test(path)`: the constructor throws on
      an invalid pattern */
  datatype RegexTest = InvalidPattern | Tested(matched: bool)

  /** What the core takes from its surroundings:
      - `parseNumber`: `Number(s)` on a string, `None` for `NaN`;
      - `today`: `new Date().toISOString().split('T')[0]` at the moment of the call;
      - `normalizePath`: the host's path normaliser;
      - `toLowerCase`: `String.prototype.toLowerCase` with the full Unicode
        case mapping, for keys that are arbitrary text;
      - `regexTest(pattern, text)`: the regular-expression engine. */
  datatype Host = Host(
    parseNumber: string -> Option<int>,
    today: string,
    normalizePath: string -> string,
    toLowerCase: string -> string,
    regexTest: (string, string) -> RegexTest)

  predicate IsDigit(c: char) {
    '0' <= c <= '9'
  }

  /** `YYYY-MM-DD`: four digits, `-`, two digits, `-`, two digits */
  predicate IsIsoDate(s: string) {
    |s| == 10 && s[4] == '-' && s[7] == '-' &&
    IsDigit(s[0]) && IsDigit(s[1]) && IsDigit(s[2]) && IsDigit(s[3]) &&
    IsDigit(s[5]) && IsDigit(s[6]) && IsDigit(s[8]) && IsDigit(s[9])
  }
}
