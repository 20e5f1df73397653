/// The value pipeline of src/helpers.ts: the tag sanitiser `cleanTags`, the
/// per-type normaliser `processPropertyValue` and the table of type defaults
/// `getDefaultValueForType`.
module Helpers {
  import opened JsRuntime
  import opened Types
  import opened Constants

  // ---------------------------------------------------------------------
  // cleanTags

  /** No character of the tag denylist occurs in `s` */
  predicate IsCleanTag(s: string) {
    forall i :: 0 <= i < |s| ==> !IsBadCharacter(s[i])
  }

  /** `cleanTags(s)`: the global replace of the denylist character class by
      the empty string */
  function CleanTags(s: string): (r: string)
    ensures |r| <= |s|
    ensures IsCleanTag(r)
  {
    if |s| == 0 then ""
    else if IsBadCharacter(s[0]) then CleanTags(s[1..]) else [s[0]] + CleanTags(s[1..])
  }

  /** Every character that is not denylisted stays, as often as it occurred */
  lemma {:induction false} CleanTagsCounts(s: string)
    ensures forall c :: !IsBadCharacter(c) ==> multiset(CleanTags(s))[c] == multiset(s)[c]
  {
    if |s| > 0 {
      CleanTagsCounts(s[1..]);
      assert s == [s[0]] + s[1..];
    }
  }

  /** Cleaning works character by character: the kept characters keep their
      relative order */
  lemma {:induction false} CleanTagsAppend(a: string, b: string)
    ensures CleanTags(a + b) == CleanTags(a) + CleanTags(b)
  {
    if |a| == 0 {
      assert a + b == b;
    } else {
      assert (a + b)[0] == a[0];
      assert (a + b)[1..] == a[1..] + b;
      CleanTagsAppend(a[1..], b);
    }
  }

  /** One character: dropped iff it is denylisted */
  lemma CleanTagsOfChar(c: char)
    ensures CleanTags([c]) == if IsBadCharacter(c) then "" else [c]
  {
    assert [c][1..] == "";
  }

  /** A string without denylisted characters is left as it is */
  lemma {:induction false} CleanTagsOfClean(s: string)
    requires IsCleanTag(s)
    ensures CleanTags(s) == s
  {
    if |s| > 0 {
      assert IsCleanTag(s[1..]) by {
        forall i | 0 <= i < |s[1..]| ensures !IsBadCharacter(s[1..][i]) {
          assert s[1..][i] == s[i + 1];
        }
      }
      CleanTagsOfClean(s[1..]);
      assert s == [s[0]] + s[1..];
    }
  }

  lemma CleanTagsIdempotent(s: string)
    ensures CleanTags(CleanTags(s)) == CleanTags(s)
  {
    CleanTagsOfClean(CleanTags(s));
  }

  /** A nested tag keeps its `/`, `-` and `_`; the tag sign goes */
  lemma CleanTagsKeepsNesting()
    ensures CleanTags("#a/b-c_d") == "a/b-c_d"
  {
    CleanTagsAppend("#", "a/b-c_d");
    assert "#" + "a/b-c_d" == "#a/b-c_d";
    CleanTagsOfChar('#');
    CleanTagsOfClean("a/b-c_d");
  }

  /** Blanks and punctuation go, wherever they are */
  lemma CleanTagsDropsPunctuation()
    ensures CleanTags("a b!") == "ab"
  {
    CleanTagsAppend("a", " b!");
    CleanTagsAppend(" ", "b!");
    CleanTagsAppend("b", "!");
    assert "a" + " b!" == "a b!";
    assert " " + "b!" == " b!";
    assert "b" + "!" == "b!";
    CleanTagsOfChar('a');
    CleanTagsOfChar(' ');
    CleanTagsOfChar('b');
    CleanTagsOfChar('!');
  }

  // ---------------------------------------------------------------------
  // Lists of strings

  /** `value.map(v => String(v))` */
  function MapToString(items: seq<JsValue>): seq<string> {
    seq(|items|, i requires 0 <= i < |items| => ToString(items[i]))
  }

  /** `.map(v => v.trim())` */
  function MapTrim(xs: seq<string>): seq<string> {
    seq(|xs|, i requires 0 <= i < |xs| => Trim(xs[i]))
  }

  /** `.map(v => cleanTags(v))` */
  function MapClean(xs: seq<string>): seq<string> {
    seq(|xs|, i requires 0 <= i < |xs| => CleanTags(xs[i]))
  }

  predicate NoEmptyItems(xs: seq<string>) {
    forall i :: 0 <= i < |xs| ==> xs[i] != ""
  }

  predicate AllTrimmed(xs: seq<string>) {
    forall i :: 0 <= i < |xs| ==> IsTrimmed(xs[i])
  }

  predicate NoCommas(xs: seq<string>) {
    forall i :: 0 <= i < |xs| ==> ',' !in xs[i]
  }

  predicate AllCleanTags(xs: seq<string>) {
    forall i :: 0 <= i < |xs| ==> IsCleanTag(xs[i])
  }

  /** `.filter(v => v)` on strings: drops the empty ones, keeping the order
      and the duplicates of the others */
  function DropEmpty(xs: seq<string>): (r: seq<string>)
    ensures |r| <= |xs|
    ensures NoEmptyItems(r)
    ensures forall x :: x in r <==> x in xs && x != ""
    ensures NoCommas(xs) ==> NoCommas(r)
    ensures AllTrimmed(xs) ==> AllTrimmed(r)
    ensures AllCleanTags(xs) ==> AllCleanTags(r)
  {
    if |xs| == 0 then []
    else if xs[0] == "" then DropEmpty(xs[1..])
    else [xs[0]] + DropEmpty(xs[1..])
  }

  lemma {:induction false} DropEmptyOfNonEmpty(xs: seq<string>)
    requires NoEmptyItems(xs)
    ensures DropEmpty(xs) == xs
  {
    if |xs| > 0 {
      DropEmptyOfNonEmpty(xs[1..]);
      assert xs == [xs[0]] + xs[1..];
    }
  }

  lemma MapTrimOfTrimmed(xs: seq<string>)
    requires AllTrimmed(xs)
    ensures MapTrim(xs) == xs
  {
    forall i | 0 <= i < |xs| ensures MapTrim(xs)[i] == xs[i] {
      TrimmedIsFixpoint(xs[i]);
    }
  }

  lemma MapCleanOfClean(xs: seq<string>)
    requires AllCleanTags(xs)
    ensures MapClean(xs) == xs
  {
    forall i | 0 <= i < |xs| ensures MapClean(xs)[i] == xs[i] {
      CleanTagsOfClean(xs[i]);
    }
  }

  lemma MapTrimAppend(a: seq<string>, b: seq<string>)
    ensures MapTrim(a + b) == MapTrim(a) + MapTrim(b)
  {
  }

  /** A JavaScript array whose elements are all strings */
  predicate IsStringList(v: JsValue) {
    v.Arr? && forall i :: 0 <= i < |v.items| ==> v.items[i].Str?
  }

  function StringsOf(v: JsValue): (xs: seq<string>)
    requires IsStringList(v)
    ensures |xs| == |v.items|
    ensures forall i :: 0 <= i < |xs| ==> v.items[i] == Str(xs[i])
  {
    seq(|v.items|, i requires 0 <= i < |v.items| => v.items[i].s)
  }

  /** The array of strings `xs` */
  function StringList(xs: seq<string>): (v: JsValue)
    ensures IsStringList(v) && StringsOf(v) == xs
  {
    Arr(seq(|xs|, i requires 0 <= i < |xs| => Str(xs[i])))
  }

  lemma StringListOfStringsOf(v: JsValue)
    requires IsStringList(v)
    ensures StringList(StringsOf(v)) == v
  {
  }

  /** `s.split(',').map(t => t.trim())` */
  function TrimmedPieces(s: string): (r: seq<string>)
    ensures |r| >= 1 && AllTrimmed(r) && NoCommas(r)
  {
    var pieces := Split(s, ',');
    var r := MapTrim(pieces);
    assert forall i :: 0 <= i < |r| ==> ',' !in r[i] by {
      forall i | 0 <= i < |r| ensures ',' !in r[i] {
        TrimAddsNothing(pieces[i]);
      }
    }
    r
  }

  /** Trimming adds no character */
  lemma TrimAddsNothing(s: string)
    ensures forall c :: c in Trim(s) ==> c in s
  {
    TrimIsInfix(s);
  }

  // ---------------------------------------------------------------------
  // The type defaults and the canonical shapes

  /** The value a normalised property of type `t` has: a string for text and
      the dates, an array of strings for the list types (non-empty trimmed
      aliases; non-empty tags free of denylisted characters), an integer, a
      boolean. A type outside the eight keeps whatever it is given. */
  predicate IsCanonicalValue(v: JsValue, t: PropertyType) {
    match t
    case Text => v.Str?
    case Date => v.Str?
    case Datetime => v.Str?
    case Multitext => IsStringList(v)
    case Tags => IsStringList(v) && NoEmptyItems(StringsOf(v)) && AllCleanTags(StringsOf(v))
    case Aliases => IsStringList(v) && NoEmptyItems(StringsOf(v)) && AllTrimmed(StringsOf(v))
    case Number => v.Num?
    case Checkbox => v.Bool?
    case Other(_) => true
  }

  /** `getDefaultValueForType(t)`: the canonical empty value of the type.
      The empty list is the only default that is truthy. */
  function GetDefaultValueForType(t: PropertyType): (r: JsValue)
    ensures IsCanonicalValue(r, t)
    ensures r.Arr? ==> r.items == []
    ensures Truthy(r) <==> t.Multitext? || t.Tags? || t.Aliases?
    ensures r == Arr([]) || r == Str("") || r == Num(0) || r == Bool(false)
  {
    match t
    case Text => Str("")
    case Multitext => Arr([])
    case Tags => Arr([])
    case Aliases => Arr([])
    case Number => Num(0)
    case Checkbox => Bool(false)
    case Date => Str("")
    case Datetime => Str("")
    case Other(_) => Str("")
  }

  lemma DefaultValueTable()
    ensures GetDefaultValueForType(Text) == Str("")
    ensures GetDefaultValueForType(Multitext) == Arr([])
    ensures GetDefaultValueForType(Tags) == Arr([])
    ensures GetDefaultValueForType(Aliases) == Arr([])
    ensures GetDefaultValueForType(Number) == Num(0)
    ensures GetDefaultValueForType(Checkbox) == Bool(false)
    ensures GetDefaultValueForType(Date) == Str("")
    ensures GetDefaultValueForType(Datetime) == Str("")
    ensures forall name :: name !in KnownTypeNames ==> GetDefaultValueForType(Other(name)) == Str("")
  {
  }

  // ---------------------------------------------------------------------
  // processPropertyValue

  /** `Number(v)` on a value that is not `null` or `undefined`; `None` stands
      for `NaN`. Strings, and arrays through their string form, go to the
      host's number parser. */
  function ToNumber(v: JsValue, host: Host): (r: Option<int>)
    ensures v.Bool? ==> r == Some(if v.b then 1 else 0)
    ensures v.Num? ==> r == Some(v.n)
    ensures v.Str? || v.Arr? ==> r == host.parseNumber(ToString(v))
    ensures v.Undefined? || v.Obj? ==> r.None?
  {
    match v
    case Undefined => None
    case Null => Some(0)
    case Bool(b) => Some(if b then 1 else 0)
    case Num(n) => Some(n)
    case Str(s) => host.parseNumber(s)
    case Arr(_) => host.parseNumber(ToString(v))
    case Obj => None
  }

  /** The words a checkbox string may lower-case and trim to for `true` */
  predicate IsTrueWord(s: string) {
    s == "true" || s == "yes" || s == "1"
  }

  /** The `date`/`datetime` branch: a falsy value is the empty string,
      `today` and `now` (trimmed, exact case) are the current date, and
      anything else is its string form trimmed, unchecked */
  function NormalizeDate(value: JsValue, host: Host): (r: string)
    ensures !Truthy(value) ==> r == ""
    ensures Truthy(value) ==> r == host.today || r == Trim(ToString(value))
    ensures r == host.today || (IsTrimmed(r) && r != "today" && r != "now")
  {
    if !Truthy(value) then ""
    else
      var str := Trim(ToString(value));
      if str == "today" || str == "now" then host.today else str
  }

  /** The tag list of some strings: `.map(v => cleanTags(v.trim())).filter(v => v)` */
  function TagList(xs: seq<string>): (r: seq<string>)
    ensures NoEmptyItems(r) && AllCleanTags(r)
  {
    DropEmpty(MapClean(MapTrim(xs)))
  }

  /** The alias list of some strings: `.map(v => v.trim()).filter(v => v)` */
  function AliasList(xs: seq<string>): (r: seq<string>)
    ensures NoEmptyItems(r) && AllTrimmed(r)
  {
    DropEmpty(MapTrim(xs))
  }

  /** A list type given a string: `[]` when it trims to nothing, else the
      pieces between commas, trimmed, without the empty ones */
  function ListOfString(s: string, tags: bool): (r: seq<string>)
    ensures NoEmptyItems(r)
    ensures tags ==> AllCleanTags(r)
    ensures !tags ==> AllTrimmed(r) && NoCommas(r)
  {
    var m := Trim(s);
    if m == "" then []
    else if tags then DropEmpty(MapClean(TrimmedPieces(m)))
    else DropEmpty(TrimmedPieces(m))
  }

  /** The checkbox branch on a value other than `null` and `undefined` */
  function CheckboxValue(value: JsValue): (r: bool)
    ensures value.Bool? ==> r == value.b
    ensures value.Str? ==> (r <==> Trim(ToLower(value.s)) in {"true", "yes", "1"})
    ensures !value.Bool? && !value.Str? ==> r == Truthy(value)
    ensures value.Str? && r ==> Trim(value.s) != ""
  {
    if value.Bool? then value.b
    else if value.Str? then
      TrimOfLower(value.s);
      IsTrueWord(Trim(ToLower(value.s)))
    else Truthy(value)
  }

  /** `processPropertyValue(value, type)` of src/helpers.ts */
  function ProcessPropertyValue(value: JsValue, t: PropertyType, host: Host): (r: JsValue)
    ensures value.Null? || value.Undefined? ==> r == GetDefaultValueForType(t)
    ensures IsCanonicalValue(r, t)
    ensures t.Other? && !value.Null? && !value.Undefined? ==> r == value
  {
    if value.Null? || value.Undefined? then GetDefaultValueForType(t)
    else
      match t
      case Text => Str(ToString(value))
      case Multitext =>
        StringList(if value.Arr? then MapToString(value.items) else ListOfString(ToString(value), false))
      case Number =>
        var num := ToNumber(value, host);
        if num.None? then Num(0) else Num(num.value)
      case Checkbox => Bool(CheckboxValue(value))
      case Date => Str(NormalizeDate(value, host))
      case Datetime => Str(NormalizeDate(value, host))
      case Tags =>
        StringList(if value.Arr? then TagList(MapToString(value.items)) else ListOfString(ToString(value), true))
      case Aliases =>
        StringList(if value.Arr? then AliasList(MapToString(value.items)) else ListOfString(ToString(value), false))
      case Other(_) => value
  }

  // ---------------------------------------------------------------------
  // Properties of processPropertyValue

  /** A joined string ends where its first and last pieces do */
  lemma {:induction false} JoinEnds(xs: seq<string>, sep: string)
    requires |xs| >= 1 && NoEmptyItems(xs)
    ensures |Join(xs, sep)| > 0
    ensures Join(xs, sep)[0] == xs[0][0]
    ensures Join(xs, sep)[|Join(xs, sep)| - 1] == xs[|xs| - 1][|xs[|xs| - 1]| - 1]
  {
    if |xs| > 1 {
      JoinEnds(xs[1..], sep);
      var r := Join(xs[1..], sep);
      assert Join(xs, sep) == xs[0] + sep + r;
      assert xs[1..][|xs[1..]| - 1] == xs[|xs| - 1];
      assert Join(xs, sep)[|Join(xs, sep)| - 1] == r[|r| - 1];
    }
  }

  lemma Regroup(u: string, x: string, w: string, rest: string)
    ensures u + (x + ([','] + w) + rest) == (u + x) + [','] + (w + rest)
  {
  }

  /** Splitting `u + x0 + "," + w + x1 + "," + w + ...` at the commas and
      trimming the pieces gives back `x0, x1, ...` when `u` and `w` are white
      space and the pieces are trimmed and comma-free */
  lemma {:induction false} PiecesOfJoin(u: string, xs: seq<string>, w: string)
    requires forall i :: 0 <= i < |u| ==> IsWhitespace(u[i])
    requires forall i :: 0 <= i < |w| ==> IsWhitespace(w[i])
    requires |xs| >= 1 && AllTrimmed(xs) && NoCommas(xs)
    ensures MapTrim(Split(u + Join(xs, "," + w), ',')) == xs
    decreases |xs|
  {
    var x := xs[0];
    assert ',' !in u + x by {
      forall k | 0 <= k < |u + x| ensures (u + x)[k] != ',' {
        if k < |u| {
          assert IsWhitespace(u[k]);
        } else {
          assert (u + x)[k] == x[k - |u|];
        }
      }
    }
    SplitWithoutSeparator(u + x, ',');
    assert Trim(u + x) == x by {
      TrimSkipsLeadingWhitespace(u, x);
      TrimmedIsFixpoint(x);
    }
    assert MapTrim([u + x]) == [x];
    if |xs| == 1 {
      assert u + Join(xs, "," + w) == u + x;
    } else {
      var sep := "," + w;
      var rest := Join(xs[1..], sep);
      assert sep == [','] + w;
      assert Join(xs, sep) == x + sep + rest;
      Regroup(u, x, w, rest);
      SplitAtSeparator(u + x, w + rest, ',');
      PiecesOfJoin(w, xs[1..], w);
      MapTrimAppend([u + x], Split(w + rest, ','));
      calc {
        MapTrim(Split(u + Join(xs, sep), ','));
        MapTrim([u + x] + Split(w + rest, ','));
        MapTrim([u + x]) + MapTrim(Split(w + rest, ','));
        [x] + xs[1..];
        xs;
      }
    }
  }

  /** A list written out with `","` or `", "` between its items reads back
      as the list, when the items are non-empty, trimmed and comma-free (and,
      for tags, clean) */
  lemma ListOfJoin(xs: seq<string>, sep: string, tags: bool)
    requires sep == "," || sep == ", "
    requires |xs| >= 1 && NoEmptyItems(xs) && AllTrimmed(xs) && NoCommas(xs)
    requires tags ==> AllCleanTags(xs)
    ensures ListOfString(Join(xs, sep), tags) == xs
  {
    var w := sep[1..];
    assert sep == "," + w;
    assert w == "" || w == " ";
    var j := Join(xs, sep);
    JoinEnds(xs, sep);
    TrimmedIsFixpoint(j);
    PiecesOfJoin("", xs, w);
    assert "" + j == j;
    DropEmptyOfNonEmpty(xs);
    if tags {
      MapCleanOfClean(xs);
    }
  }

  lemma {:induction false} JoinElementsOfStrings(xs: seq<string>)
    ensures JoinElements(StringList(xs).items) == Join(xs, ",")
  {
    var items := StringList(xs).items;
    if |xs| >= 1 {
      assert items[0] == Str(xs[0]);
    }
    if |xs| > 1 {
      JoinElementsOfStrings(xs[1..]);
      assert items[1..] == StringList(xs[1..]).items;
    }
  }

  /** The string form of a list of strings is its items joined by `","` */
  lemma ToStringOfStringList(xs: seq<string>)
    ensures ToString(StringList(xs)) == Join(xs, ",")
  {
    JoinElementsOfStrings(xs);
  }

  /** A string given to a list type is read as a comma-separated list */
  lemma ListOfStringValue(s: string, t: PropertyType, host: Host)
    requires t.Multitext? || t.Tags? || t.Aliases?
    ensures ProcessPropertyValue(Str(s), t, host) == StringList(ListOfString(s, t.Tags?))
  {
  }

  /** A list the normaliser could have produced, written out joined by `", "`
      (as the blur handler writes it), normalises back to itself */
  lemma ListRoundTrip(xs: seq<string>, t: PropertyType, host: Host)
    requires t.Multitext? || t.Tags? || t.Aliases?
    requires |xs| >= 1 && NoEmptyItems(xs) && AllTrimmed(xs) && NoCommas(xs)
    requires t.Tags? ==> AllCleanTags(xs)
    ensures ProcessPropertyValue(Str(Join(xs, ", ")), t, host) == StringList(xs)
  {
    ListOfJoin(xs, ", ", t.Tags?);
    ListOfStringValue(Join(xs, ", "), t, host);
  }

  /** ... and so does its string form, the items joined by `","` */
  lemma ListRoundTripOfString(xs: seq<string>, t: PropertyType, host: Host)
    requires t.Multitext? || t.Tags? || t.Aliases?
    requires |xs| >= 1 && NoEmptyItems(xs) && AllTrimmed(xs) && NoCommas(xs)
    requires t.Tags? ==> AllCleanTags(xs)
    ensures ProcessPropertyValue(Str(ToString(StringList(xs))), t, host) == StringList(xs)
  {
    ListOfJoin(xs, ",", t.Tags?);
    ListOfStringValue(Join(xs, ","), t, host);
    ToStringOfStringList(xs);
  }

  lemma MapToStringOfStringList(xs: seq<string>)
    ensures MapToString(StringList(xs).items) == xs
  {
  }

  /** An array given to `multitext` keeps every element, each turned into its
      string form, in order; nothing is trimmed or dropped */
  lemma MultitextOfArray(items: seq<JsValue>, host: Host)
    ensures IsStringList(ProcessPropertyValue(Arr(items), Multitext, host))
    ensures StringsOf(ProcessPropertyValue(Arr(items), Multitext, host)) == MapToString(items)
    ensures |StringsOf(ProcessPropertyValue(Arr(items), Multitext, host))| == |items|
  {
  }

  lemma SplitTailExample()
    ensures Split("b,a", ',') == ["b", "a"]
  {
    assert "b,a" == "b" + [','] + "a";
    SplitAtSeparator("b", "a", ',');
    SplitWithoutSeparator("a", ',');
    SplitWithoutSeparator("b", ',');
  }

  lemma SplitExample()
    ensures Split("a, ,b,a", ',') == ["a", " ", "b", "a"]
  {
    assert "a, ,b,a" == "a" + [','] + (" " + [','] + "b,a");
    SplitAtSeparator("a", " " + [','] + "b,a", ',');
    SplitAtSeparator(" ", "b,a", ',');
    SplitTailExample();
    SplitWithoutSeparator("a", ',');
    SplitWithoutSeparator(" ", ',');
  }

  lemma TrimPiecesExample()
    ensures MapTrim(["a", " ", "b", "a"]) == ["a", "", "b", "a"]
  {
    assert Trim(" ") == "" by {
      TrimStartOfWhitespace(" ");
    }
    TrimmedIsFixpoint("a");
    TrimmedIsFixpoint("b");
  }

  /** Empty pieces and the blanks around the commas disappear; duplicates
      and the order stay */
  lemma TrimListExample()
    ensures Trim(" a, ,b,a ") == "a, ,b,a"
  {
    assert " a, ,b,a " == " " + "a, ,b,a" + " ";
    TrimSkipsPadding(" ", "a, ,b,a", " ");
    TrimmedIsFixpoint("a, ,b,a");
  }

  lemma DropEmptyExample()
    ensures DropEmpty(["a", "", "b", "a"]) == ["a", "b", "a"]
  {
  }

  lemma ListOfStringExample()
    ensures ListOfString(" a, ,b,a ", false) == ["a", "b", "a"]
  {
    TrimListExample();
    SplitExample();
    TrimPiecesExample();
    DropEmptyExample();
  }

  lemma MultitextExample(host: Host)
    ensures ProcessPropertyValue(Str(" a, ,b,a "), Multitext, host) == StringList(["a", "b", "a"])
  {
    ListOfStringExample();
  }

  /** A string of blanks is the empty list, not a list of one empty item */
  lemma MultitextBlankExample(host: Host)
    ensures ProcessPropertyValue(Str("  "), Multitext, host) == Arr([])
  {
    TrimStartOfWhitespace("  ");
  }

  /** Lists already in normal form are left alone by the array branches */
  lemma {:induction false} TagListOfTags(ys: seq<string>)
    requires NoEmptyItems(ys) && AllTrimmed(ys) && AllCleanTags(ys)
    ensures TagList(ys) == ys
  {
    MapTrimOfTrimmed(ys);
    MapCleanOfClean(ys);
    DropEmptyOfNonEmpty(ys);
  }

  lemma {:induction false} AliasListOfAliases(ys: seq<string>)
    requires NoEmptyItems(ys) && AllTrimmed(ys)
    ensures AliasList(ys) == ys
  {
    MapTrimOfTrimmed(ys);
    DropEmptyOfNonEmpty(ys);
  }

  /** The date branch is a fixpoint on its own results, given a current
      date of the form `YYYY-MM-DD` */
  /** A trimmed date string other than `today` and `now` is kept as it is */
  lemma DateFixpoint(d: string, host: Host)
    requires d != "" && IsTrimmed(d) && d != "today" && d != "now"
    ensures NormalizeDate(Str(d), host) == d
  {
    TrimmedIsFixpoint(d);
  }

  lemma DateIdempotent(value: JsValue, host: Host)
    requires IsIsoDate(host.today)
    ensures NormalizeDate(Str(NormalizeDate(value, host)), host) == NormalizeDate(value, host)
  {
    var d := NormalizeDate(value, host);
    if d == host.today {
      assert IsTrimmed(d) && |d| == 10;
      DateFixpoint(d, host);
    } else if d != "" {
      assert d == Trim(ToString(value));
      DateFixpoint(d, host);
    }
  }

  /** Normalising a normalised value changes nothing, given a date service
      that answers `YYYY-MM-DD`. For tags this needs the first pass to leave
      no white space at a tag's ends: cleaning can uncover a tab or a
      newline that sat behind a denylisted character. */
  lemma ProcessIdempotent(value: JsValue, t: PropertyType, host: Host)
    requires IsIsoDate(host.today)
    requires t.Tags? ==> AllTrimmed(StringsOf(ProcessPropertyValue(value, t, host)))
    ensures ProcessPropertyValue(ProcessPropertyValue(value, t, host), t, host)
            == ProcessPropertyValue(value, t, host)
  {
    var r := ProcessPropertyValue(value, t, host);
    match t
    case Multitext =>
      MapToStringOfStringList(StringsOf(r));
    case Tags =>
      MapToStringOfStringList(StringsOf(r));
      TagListOfTags(StringsOf(r));
    case Aliases =>
      MapToStringOfStringList(StringsOf(r));
      AliasListOfAliases(StringsOf(r));
    case Date =>
      DateIdempotent(value, host);
    case Datetime =>
      DateIdempotent(value, host);
    case _ =>
  }

  lemma CleanTagExample()
    ensures CleanTags("#\tx") == "\tx"
  {
    CleanTagsAppend("#", "\tx");
    assert "#" + "\tx" == "#\tx";
    CleanTagsOfChar('#');
    CleanTagsOfClean("\tx");
  }

  lemma TagPiecesExample()
    ensures TrimmedPieces("#\tx") == ["#\tx"]
  {
    TrimmedIsFixpoint("#\tx");
    SplitWithoutSeparator("#\tx", ',');
  }

  lemma TagStringExample()
    ensures ListOfString("#\tx", true) == ["\tx"]
  {
    TrimmedIsFixpoint("#\tx");
    TagPiecesExample();
    CleanTagExample();
    assert MapClean(["#\tx"]) == ["\tx"];
  }

  lemma TagArrayExample()
    ensures TagList(["\tx"]) == ["x"]
  {
    TrimSkipsLeadingWhitespace("\t", "x");
    assert "\t" + "x" == "\tx";
    TrimmedIsFixpoint("x");
    CleanTagsOfClean("x");
    assert MapTrim(["\tx"]) == ["x"];
  }

  /** The tag list is not always a fixpoint: `"#\tx"` cleans to `"\tx"`,
      which the next pass trims to `"x"` */
  lemma TagsNotIdempotentExample(host: Host)
    ensures ProcessPropertyValue(Str("#\tx"), Tags, host) == StringList(["\tx"])
    ensures ProcessPropertyValue(StringList(["\tx"]), Tags, host) == StringList(["x"])
  {
    TagStringExample();
    TagArrayExample();
    MapToStringOfStringList(["\tx"]);
  }

  /** Checkbox strings are read without regard to ASCII case or to the white
      space around them */
  lemma CheckboxIgnoresCase(s: string)
    ensures CheckboxValue(Str(ToLower(s))) == CheckboxValue(Str(s))
  {
    assert ToLower(ToLower(s)) == ToLower(s);
  }

  lemma CheckboxIgnoresPadding(u: string, s: string, w: string)
    requires AllWhitespace(u) && AllWhitespace(w)
    ensures CheckboxValue(Str(u + s + w)) == CheckboxValue(Str(s))
  {
    TrimOfLower(u + s + w);
    TrimSkipsPadding(u, s, w);
    TrimOfLower(s);
  }

  /** `yes` in any case and with blanks around it counts as true */
  lemma LowerYesExample()
    ensures Trim(ToLower("Yes")) == "yes"
  {
    assert ToLower("Yes") == "yes";
    TrimmedIsFixpoint("yes");
  }

  lemma CheckboxYesExample(host: Host)
    ensures ProcessPropertyValue(Str(" Yes "), Checkbox, host) == Bool(true)
  {
    assert " Yes " == " " + "Yes" + " ";
    CheckboxIgnoresPadding(" ", "Yes", " ");
    LowerYesExample();
  }

  lemma CheckboxOneExample(host: Host)
    ensures ProcessPropertyValue(Str("1"), Checkbox, host) == Bool(true)
  {
    assert ToLower("1") == "1";
    TrimmedIsFixpoint("1");
  }

  /** Any other word is false */
  lemma CheckboxNoExample(host: Host)
    ensures ProcessPropertyValue(Str("no"), Checkbox, host) == Bool(false)
  {
    assert ToLower("no") == "no";
    TrimmedIsFixpoint("no");
  }

  /** A value that is neither a boolean nor a string goes by truthiness, so
      even `[]` is true */
  lemma CheckboxTruthinessExamples(host: Host)
    ensures ProcessPropertyValue(Bool(false), Checkbox, host) == Bool(false)
    ensures ProcessPropertyValue(Num(0), Checkbox, host) == Bool(false)
    ensures ProcessPropertyValue(Num(2), Checkbox, host) == Bool(true)
    ensures ProcessPropertyValue(Arr([]), Checkbox, host) == Bool(true)
  {
  }

  /** A date is kept as written once trimmed, with no calendar check; only
      the exact words `today` and `now` are replaced by the current date */
  lemma DateKeepsAnyString(s: string, t: PropertyType, host: Host)
    requires t.Date? || t.Datetime?
    requires s != "" && IsTrimmed(s) && s != "today" && s != "now"
    ensures ProcessPropertyValue(Str(s), t, host) == Str(s)
  {
    DateFixpoint(s, host);
  }

  /** `today` with blanks around it is the current date */
  lemma TrimTodayExample()
    ensures Trim(" today ") == "today"
  {
    assert " today " == " " + "today" + " ";
    TrimSkipsPadding(" ", "today", " ");
    TrimmedIsFixpoint("today");
  }

  lemma DateTodayExample(host: Host)
    ensures ProcessPropertyValue(Str(" today "), Date, host) == Str(host.today)
  {
    TrimTodayExample();
  }

  lemma DateNowExample(host: Host)
    ensures ProcessPropertyValue(Str("now"), Datetime, host) == Str(host.today)
  {
    TrimmedIsFixpoint("now");
  }

  /** The words are matched with their case: `Today` is kept as a date
      string, and so is an impossible calendar date */
  lemma DateVerbatimExamples(host: Host)
    ensures ProcessPropertyValue(Str("Today"), Date, host) == Str("Today")
    ensures ProcessPropertyValue(Str("2024-13-45"), Date, host) == Str("2024-13-45")
  {
    DateFixpoint("Today", host);
    DateFixpoint("2024-13-45", host);
  }

  /** A falsy value is the empty date */
  lemma DateFalsyExamples(host: Host)
    ensures ProcessPropertyValue(Bool(false), Date, host) == Str("")
    ensures ProcessPropertyValue(Num(0), Datetime, host) == Str("")
  {
  }

  /** The number branch: `NaN` becomes 0; booleans count as 1 and 0 */
  lemma NumberExamples(s: string, n: int, host: Host)
    ensures ProcessPropertyValue(Num(n), Number, host) == Num(n)
    ensures ProcessPropertyValue(Bool(true), Number, host) == Num(1)
    ensures ProcessPropertyValue(Obj, Number, host) == Num(0)
    ensures host.parseNumber(s) == None ==> ProcessPropertyValue(Str(s), Number, host) == Num(0)
    ensures host.parseNumber(s) == Some(n) ==> ProcessPropertyValue(Str(s), Number, host) == Num(n)
  {
  }
}
