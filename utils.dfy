/// src/utils.ts, an older copy of the value pipeline that src/main.ts does
/// not import. Its `canBeAppended`, `mergeIntoArrays`, `cleanTags` and
/// `getDefaultValueForType` are the same text as the versions in
/// src/frontmatter.ts and src/helpers.ts, and are modelled by those
/// definitions; only `processPropertyValue` differs.
module Utils {
  import opened JsRuntime
  import opened Types
  import H = Helpers

  /** `processPropertyValue(value, type)` of src/utils.ts. The multitext
      branch turns a value that is not an array into the one-element list of
      its string form, with no trimming and no splitting. */
  function ProcessPropertyValue(value: JsValue, t: PropertyType, host: Host): (r: JsValue)
    ensures value.Null? || value.Undefined? ==> r == H.GetDefaultValueForType(t)
    ensures H.IsCanonicalValue(r, t)
    ensures t.Multitext? && !value.Null? && !value.Undefined? && !value.Arr? ==>
              H.StringsOf(r) == [ToString(value)]
  {
    if value.Null? || value.Undefined? then H.GetDefaultValueForType(t)
    else
      match t
      case Text => Str(ToString(value))
      case Multitext =>
        H.StringList(if value.Arr? then H.MapToString(value.items) else [ToString(value)])
      case Number =>
        var num := H.ToNumber(value, host);
        if num.None? then Num(0) else Num(num.value)
      case Checkbox => Bool(H.CheckboxValue(value))
      case Date => Str(H.NormalizeDate(value, host))
      case Datetime => Str(H.NormalizeDate(value, host))
      case Tags =>
        H.StringList(if value.Arr? then H.TagList(H.MapToString(value.items)) else H.ListOfString(ToString(value), true))
      case Aliases =>
        H.StringList(if value.Arr? then H.AliasList(H.MapToString(value.items)) else H.ListOfString(ToString(value), false))
      case Other(_) => value
  }

  /** The two copies agree everywhere except on a multitext value that is
      present and not an array */
  lemma AgreesWithHelpers(value: JsValue, t: PropertyType, host: Host)
    requires !(t.Multitext? && !value.Null? && !value.Undefined? && !value.Arr?)
    ensures ProcessPropertyValue(value, t, host) == H.ProcessPropertyValue(value, t, host)
  {
  }

  /** ... and there they differ: the empty string is a list of one empty
      item here, and the empty list in src/helpers.ts; a comma-separated
      string stays one item */
  lemma MultitextDiffers(host: Host)
    ensures ProcessPropertyValue(Str(""), Multitext, host) == H.StringList([""])
    ensures H.ProcessPropertyValue(Str(""), Multitext, host) == Arr([])
    ensures ProcessPropertyValue(Str("a,b"), Multitext, host) == H.StringList(["a,b"])
  {
  }
}
