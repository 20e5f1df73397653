/// The value field of a property row in src/ui-components.ts: the
/// type-specific input check, the placeholder text, and the clean-up of a
/// tags or aliases field when it loses focus.
module UiComponents {
  import opened JsRuntime
  import opened Types
  import opened Constants
  import H = Helpers

  /** `{ isValid, message }` */
  datatype ValidationResult = ValidationResult(isValid: bool, message: string)

  const Valid: ValidationResult := ValidationResult(true, "")

  /** `/^\d{4}-\d{2}-\d{2}[T\s]\d{2}:\d{2}(:\d{2})?$/`: a date, `T` or a
      whitespace character, hours and minutes, and optionally seconds */
  predicate IsDateTimeStamp(s: string) {
    (|s| == 16 || |s| == 19) &&
    IsIsoDate(s[..10]) &&
    (s[10] == 'T' || IsWhitespace(s[10])) &&
    IsDigit(s[11]) && IsDigit(s[12]) && s[13] == ':' && IsDigit(s[14]) && IsDigit(s[15]) &&
    (|s| == 19 ==> s[16] == ':' && IsDigit(s[17]) && IsDigit(s[18]))
  }

  /** `validatePropertyInput(value, type)`: blank input passes for every
      type; a number must parse, a checkbox must read `true` or `false` in
      any case, a date must be `today` in any case or `YYYY-MM-DD`, a
      datetime `now` in any case or a time stamp; the other types accept
      anything. A rejection always carries a message. */
  function ValidatePropertyInput(value: string, t: PropertyType, host: Host): (r: ValidationResult)
    ensures r.isValid <==> r.message == ""
    ensures Trim(value) == "" ==> r.isValid
    ensures t.Text? || t.Multitext? || t.Tags? || t.Aliases? || t.Other? ==> r.isValid
  {
    var trimmed := Trim(value);
    if trimmed == "" then Valid
    else match t
      case Number =>
        if host.parseNumber(trimmed).Some? then Valid
        else ValidationResult(false, "Must be a valid number")
      case Checkbox =>
        var lower := ToLower(trimmed);
        if lower == "true" || lower == "false" then Valid
        else ValidationResult(false, "Must be \"true\" or \"false\"")
      case Date =>
        if ToLower(trimmed) == "today" then Valid
        else if IsIsoDate(trimmed) then Valid
        else ValidationResult(false, "Format: YYYY-MM-DD or \"today\"")
      case Datetime =>
        if ToLower(trimmed) == "now" then Valid
        else if IsDateTimeStamp(trimmed) then Valid
        else ValidationResult(false, "Format: YYYY-MM-DD HH:mm or \"now\"")
      case _ => Valid
  }

  /** The four checked types accept a non-blank input exactly as described */
  lemma ValidationRules(value: string, t: PropertyType, host: Host)
    requires Trim(value) != ""
    ensures t.Number? ==> (ValidatePropertyInput(value, t, host).isValid <==> host.parseNumber(Trim(value)).Some?)
    ensures t.Checkbox? ==> (ValidatePropertyInput(value, t, host).isValid <==>
                               ToLower(Trim(value)) in {"true", "false"})
    ensures t.Date? ==> (ValidatePropertyInput(value, t, host).isValid <==>
                           ToLower(Trim(value)) == "today" || IsIsoDate(Trim(value)))
    ensures t.Datetime? ==> (ValidatePropertyInput(value, t, host).isValid <==>
                               ToLower(Trim(value)) == "now" || IsDateTimeStamp(Trim(value)))
  {
  }

  lemma YesRejected(host: Host)
    ensures !ValidatePropertyInput(" Yes ", Checkbox, host).isValid
  {
    assert " Yes " == " " + "Yes" + " ";
    TrimSkipsPadding(" ", "Yes", " ");
    TrimmedIsFixpoint("Yes");
    assert ToLower("Yes") == "yes";
  }

  lemma OneRejected(host: Host)
    ensures !ValidatePropertyInput("1", Checkbox, host).isValid
  {
    TrimmedIsFixpoint("1");
    assert ToLower("1") == "1";
  }

  /** The checkbox field rejects `yes` and `1`, which the normaliser reads
      as true */
  lemma CheckboxWordsDisagree(host: Host)
    ensures !ValidatePropertyInput(" Yes ", Checkbox, host).isValid
    ensures H.ProcessPropertyValue(Str(" Yes "), Checkbox, host) == Bool(true)
    ensures !ValidatePropertyInput("1", Checkbox, host).isValid
    ensures H.ProcessPropertyValue(Str("1"), Checkbox, host) == Bool(true)
  {
    YesRejected(host);
    OneRejected(host);
    H.CheckboxYesExample(host);
    H.CheckboxOneExample(host);
  }

  /** A checkbox input the field accepts normalises to the boolean it
      spells */
  lemma AcceptedCheckboxNormalises(value: string, host: Host)
    requires Trim(value) != "" && ValidatePropertyInput(value, Checkbox, host).isValid
    ensures H.ProcessPropertyValue(Str(value), Checkbox, host) == Bool(ToLower(Trim(value)) == "true")
  {
    TrimOfLower(value);
  }

  /** A date in `YYYY-MM-DD` form that the field accepts is kept as it is by
      the normaliser; `Today` passes the field but, the normaliser's test
      being case-sensitive, is stored as the text `Today` */
  lemma AcceptedDateKept(value: string, host: Host)
    requires IsIsoDate(value)
    ensures ValidatePropertyInput(value, Date, host).isValid
    ensures H.ProcessPropertyValue(Str(value), Date, host) == Str(value)
  {
    TrimmedIsFixpoint(value);
  }

  /** `Today` passes the date field, whose test ignores case, and is stored
      as the text `Today` by the normaliser, whose test does not */
  lemma TodayCaseDisagrees(host: Host)
    ensures ValidatePropertyInput("Today", Date, host).isValid
    ensures H.ProcessPropertyValue(Str("Today"), Date, host) == Str("Today")
  {
    TrimmedIsFixpoint("Today");
    assert ToLower("Today") == "today";
    H.DateFixpoint("Today", host);
  }

  /** `getPlaceholderForType(type)` */
  function GetPlaceholderForType(t: PropertyType): (r: string)
    ensures r != ""
  {
    match t
    case Text => "Text value"
    case Multitext => "value1, value2, ..."
    case Number => "42"
    case Checkbox => "true/false"
    case Date => "YYYY-MM-DD or \"today\""
    case Datetime => "YYYY-MM-DD or \"now\""
    case Tags => "tag1, tag2, ..."
    case Aliases => "alias1, alias2, ..."
    case Other(_) => "Value"
  }

  /** Each of the eight types has a placeholder of its own */
  lemma PlaceholdersDistinct(a: PropertyType, b: PropertyType)
    requires !a.Other? && !b.Other? && a != b
    ensures GetPlaceholderForType(a) != GetPlaceholderForType(b)
  {
  }

  /** The value the blur handler passes on to `onValueChange` and to the
      validation: the trimmed input; for tags and aliases, the items the
      normaliser reads from the input (comma-separated pieces, trimmed, tags
      cleaned, empty ones dropped) written out with `", "` between them.
      Only a non-blank tags or aliases value is also written back into the
      field; otherwise the field keeps the text as typed. */
  function SanitizeOnBlur(input: string, t: PropertyType): (r: string)
    ensures t.Tags? || t.Aliases? ==> r == Join(H.ListOfString(input, t.Tags?), ", ")
    ensures !(t.Tags? || t.Aliases?) ==> r == Trim(input)
  {
    var val := Trim(input);
    if (t.Tags? || t.Aliases?) && val != "" then
      var pieces := H.MapTrim(Split(val, ','));
      Join(H.DropEmpty(if t.Tags? then H.MapClean(pieces) else pieces), ", ")
    else val
  }

  /** Cleaning adds no character */
  lemma CleanTagsAddsNothing(s: string)
    ensures forall c :: c in H.CleanTags(s) ==> c in s
  {
    H.CleanTagsCounts(s);
    var r := H.CleanTags(s);
    forall c | c in r ensures c in s {
      var i :| 0 <= i < |r| && r[i] == c;
      assert !IsBadCharacter(c);
      assert multiset(r)[c] > 0;
    }
  }

  /** No item the normaliser reads from a string holds a comma */
  lemma ListOfStringNoCommas(s: string, tags: bool)
    ensures H.NoCommas(H.ListOfString(s, tags))
  {
    var m := Trim(s);
    if m != "" && tags {
      var pieces := H.TrimmedPieces(m);
      forall i | 0 <= i < |pieces| ensures ',' !in H.MapClean(pieces)[i] {
        CleanTagsAddsNothing(pieces[i]);
      }
    }
  }

  /** The sanitised text has no empty items: its comma-separated pieces,
      trimmed, are the items read from the input, none of them empty, and
      read again it gives those items. For tags this needs the cleaned items
      to have no white space at their ends. */
  lemma {:induction false} SanitizeKeepsItems(input: string, t: PropertyType)
    requires t.Tags? || t.Aliases?
    requires t.Tags? ==> H.AllTrimmed(H.ListOfString(input, true))
    ensures var r := SanitizeOnBlur(input, t);
            var items := H.ListOfString(input, t.Tags?);
            H.NoEmptyItems(items) &&
            (r != "" ==> H.TrimmedPieces(r) == items) &&
            H.ListOfString(r, t.Tags?) == items
  {
    var items := H.ListOfString(input, t.Tags?);
    var r := SanitizeOnBlur(input, t);
    ListOfStringNoCommas(input, t.Tags?);
    if |items| == 0 {
      assert r == "";
      assert H.ListOfString(r, t.Tags?) == [];
    } else {
      H.ListOfJoin(items, ", ", t.Tags?);
      assert "," + " " == ", ";
      assert "" + Join(items, "," + " ") == r;
      H.PiecesOfJoin("", items, " ");
    }
  }

  /** Sanitising does not change the value the text normalises to */
  lemma SanitizeKeepsValue(input: string, t: PropertyType, host: Host)
    requires t.Tags? || t.Aliases?
    requires t.Tags? ==> H.AllTrimmed(H.ListOfString(input, true))
    ensures H.ProcessPropertyValue(Str(SanitizeOnBlur(input, t)), t, host) == H.ProcessPropertyValue(Str(input), t, host)
  {
    SanitizeKeepsItems(input, t);
    H.ListOfStringValue(SanitizeOnBlur(input, t), t, host);
    H.ListOfStringValue(input, t, host);
  }

  /** A second blur changes nothing */
  lemma SanitizeIdempotent(input: string, t: PropertyType)
    requires t.Tags? ==> H.AllTrimmed(H.ListOfString(input, true))
    ensures SanitizeOnBlur(SanitizeOnBlur(input, t), t) == SanitizeOnBlur(input, t)
  {
    if t.Tags? || t.Aliases? {
      SanitizeKeepsItems(input, t);
    } else {
      TrimIdempotent(input);
    }
  }
}
