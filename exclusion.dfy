/// The exclusion matcher `isExcluded` of src/main.ts: folder entries first,
/// then tag rules and `key` / `key:value` property rules against the note's
/// metadata.
module Exclusion {
  import opened JsRuntime
  import opened Types
  import H = Helpers

  /** The part of a note's metadata cache the matcher reads: the inline tags
      as written (`#tag`; an absent list is the empty one) and the parsed
      frontmatter, if the note has any */
  datatype Cache = Cache(inlineTags: seq<string>, frontmatter: Option<map<string, JsValue>>)

  /** How a call of `isExcluded` ends: it returns, or it throws a TypeError */
  datatype Outcome = Returned(excluded: bool) | Threw

  /** What one rule does to the scan over the rules */
  datatype Step = Continue | Exclude | Throw

  // ---------------------------------------------------------------------
  // Folder entries

  /** `file.parent ? file.parent.path : ''` */
  function ParentPath(parent: Option<string>): string {
    if parent.Some? then parent.value else ""
  }

  /** One excluded-folder entry against the parent folder's path. An empty
      entry is skipped. Unless the regex setting is `true`, the path must equal
      the normalised entry; otherwise the entry is a pattern, and one that does
      not compile is skipped. */
  function FolderMatches(entry: ExcludedFolder, parentPath: string, useRegex: Option<bool>, host: Host): (r: bool)
    ensures entry.folder == "" ==> !r
    ensures entry.folder != "" && useRegex != Some(true) ==> (r <==> parentPath == host.normalizePath(entry.folder))
    ensures useRegex == Some(true) ==> (r <==> entry.folder != "" && host.regexTest(entry.folder, parentPath) == Tested(true))
  {
    entry.folder != "" &&
    if useRegex != Some(true) then parentPath == host.normalizePath(entry.folder)
    else host.regexTest(entry.folder, parentPath) == Tested(true)
  }

  /** The scan over the folder entries: true at the first entry that matches */
  function FolderScan(folders: seq<ExcludedFolder>, parentPath: string, useRegex: Option<bool>, host: Host): (r: bool)
    ensures r <==> exists i :: 0 <= i < |folders| && FolderMatches(folders[i], parentPath, useRegex, host)
  {
    if |folders| == 0 then false
    else
      assert forall i :: 0 < i < |folders| ==> folders[1..][i - 1] == folders[i];
      FolderMatches(folders[0], parentPath, useRegex, host) || FolderScan(folders[1..], parentPath, useRegex, host)
  }

  // ---------------------------------------------------------------------
  // Tag rules

  /** `value.startsWith('#') ? value.substring(1) : value` */
  function StripTagSign(v: string): (r: string)
    ensures |v| > 0 && v[0] == '#' ==> v == "#" + r
    ensures !(|v| > 0 && v[0] == '#') ==> r == v
  {
    if |v| > 0 && v[0] == '#' then v[1..] else v
  }

  /** `typeof t === 'string' ? t.replace('#', '') : t` */
  function DropHash(v: JsValue): JsValue {
    if v.Str? then Str(RemoveFirst(v.s, '#')) else v
  }

  function MapDropHash(vs: seq<JsValue>): (r: seq<JsValue>)
    ensures |r| == |vs|
    ensures forall i :: 0 <= i < |vs| ==> r[i] == DropHash(vs[i])
  {
    seq(|vs|, i requires 0 <= i < |vs| => DropHash(vs[i]))
  }

  /** `frontmatter[key]`: `undefined` for a key the frontmatter lacks */
  function Lookup(fm: map<string, JsValue>, key: string): JsValue {
    if key in fm then fm[key] else Undefined
  }

  /** The one-character strings of `s`, as spreading a string gives them */
  function Characters(s: string): (r: seq<JsValue>)
    ensures |r| == |s|
    ensures forall i :: 0 <= i < |s| ==> r[i] == Str([s[i]])
  {
    seq(|s|, i requires 0 <= i < |s| => Str([s[i]]))
  }

  /** `[...(cache.frontmatter?.tags || [])]`: a falsy value is the empty list,
      an array its elements, a string its characters; spreading any other
      value throws, written `None` */
  function FrontmatterTags(fm: Option<map<string, JsValue>>): (r: Option<seq<JsValue>>)
    ensures r.None? <==> fm.Some? && var v := Lookup(fm.value, "tags"); Truthy(v) && !v.Arr? && !v.Str?
  {
    var v := if fm.Some? then Lookup(fm.value, "tags") else Undefined;
    if !Truthy(v) then Some([])
    else match v
      case Arr(items) => Some(items)
      case Str(s) => Some(Characters(s))
      case _ => None
  }

  /** The tag list a tag rule is compared with: the inline tags with their
      first `#` removed, then the frontmatter tags, and every string of the
      combined list once more without its first `#` */
  function AllTags(cache: Cache): (r: Option<seq<JsValue>>)
    ensures r.None? <==> FrontmatterTags(cache.frontmatter).None?
  {
    var inline := seq(|cache.inlineTags|, i requires 0 <= i < |cache.inlineTags| =>
                        Str(RemoveFirst(cache.inlineTags[i], '#')));
    var fmTags := FrontmatterTags(cache.frontmatter);
    if fmTags.None? then None else Some(MapDropHash(inline + fmTags.value))
  }

  /** A tag rule with trimmed, non-empty `value` */
  function TagStep(value: string, cache: Cache): (r: Step)
    ensures r == Throw <==> AllTags(cache).None?
    ensures r == Exclude <==> AllTags(cache).Some? && Str(StripTagSign(value)) in AllTags(cache).value
  {
    var tags := AllTags(cache);
    if tags.None? then Throw
    else if Str(StripTagSign(value)) in tags.value then Exclude
    else Continue
  }

  // ---------------------------------------------------------------------
  // Property rules

  /** A property rule with trimmed, non-empty `value`: `key` asks for the
      key to be present (any value but `undefined`, so `null` counts);
      `key:value`, split at the first colon and both sides trimmed, asks for
      the string form of the value, or of some element of an array value, to
      be the given text. Without frontmatter the rule is skipped. */
  function PropertyStep(value: string, fm: Option<map<string, JsValue>>): (r: Step)
    ensures r != Throw
    ensures fm.None? ==> r == Continue
    ensures ':' !in value && fm.Some? ==> (r == Exclude <==> Lookup(fm.value, value) != Undefined)
    ensures r == Exclude && ':' in value ==> fm.Some? && Trim(value[..IndexOf(value, ':')]) != ""
  {
    if fm.None? then Continue
    else
      var colon := IndexOf(value, ':');
      if colon == -1 then
        if Lookup(fm.value, value) != Undefined then Exclude else Continue
      else
        var key := Trim(value[..colon]);
        var want := Trim(value[colon + 1..]);
        if key == "" then Continue
        else
          var v := Lookup(fm.value, key);
          if v == Undefined then Continue
          else if v.Arr? then (if want in H.MapToString(v.items) then Exclude else Continue)
          else if ToString(v) == want then Exclude else Continue
  }

  /** One exclusion rule; a rule whose value trims to nothing is skipped */
  function RuleStep(rule: ExclusionRule, cache: Cache): (r: Step)
    ensures Trim(rule.value) == "" ==> r == Continue
  {
    var value := Trim(rule.value);
    if value == "" then Continue
    else match rule.kind
      case TagRule => TagStep(value, cache)
      case PropertyRule => PropertyStep(value, cache.frontmatter)
  }

  /** The scan over the rules: it stops at the first rule that excludes or
      throws */
  function RulesScan(rules: seq<ExclusionRule>, cache: Cache): Outcome {
    if |rules| == 0 then Returned(false)
    else match RuleStep(rules[0], cache)
      case Exclude => Returned(true)
      case Throw => Threw
      case Continue => RulesScan(rules[1..], cache)
  }

  /** `isExcluded(file, cache)`: `parent` is the path of the note's folder,
      if it has one. Reading the length of an absent folder list throws. */
  function Excluded(settings: SettingsData, parent: Option<string>, cache: Option<Cache>, host: Host): (r: Outcome)
    ensures settings.excludedFolders.None? ==> r == Threw
    ensures settings.excludedFolders.Some? && (cache.None? || settings.exclusionRules == []) ==> r.Returned?
    ensures r == Returned(false) ==>
              forall i :: 0 <= i < |settings.excludedFolders.value| ==>
                !FolderMatches(settings.excludedFolders.value[i], ParentPath(parent), settings.useRegexForExcludedFolders, host)
    ensures settings.excludedFolders.Some? &&
            (exists i :: 0 <= i < |settings.excludedFolders.value| &&
               FolderMatches(settings.excludedFolders.value[i], ParentPath(parent), settings.useRegexForExcludedFolders, host))
            ==> r == Returned(true)
  {
    if settings.excludedFolders.None? then Threw
    else if FolderScan(settings.excludedFolders.value, ParentPath(parent),
                       settings.useRegexForExcludedFolders, host) then Returned(true)
    else if cache.None? || |settings.exclusionRules| == 0 then Returned(false)
    else RulesScan(settings.exclusionRules, cache.value)
  }

  // ---------------------------------------------------------------------
  // Properties of the scan

  /** Rule `i` is the first rule that is not skipped, and it excludes */
  predicate ExcludesFirstAt(rules: seq<ExclusionRule>, cache: Cache, i: int) {
    0 <= i < |rules| && RuleStep(rules[i], cache) == Exclude &&
    forall j :: 0 <= j < i ==> RuleStep(rules[j], cache) == Continue
  }

  /** The rules scan returns true iff some rule excludes and every rule
      before it is skipped */
  lemma {:induction false} RulesScanTrue(rules: seq<ExclusionRule>, cache: Cache)
    ensures RulesScan(rules, cache) == Returned(true) <==> exists i :: ExcludesFirstAt(rules, cache, i)
  {
    if |rules| > 0 {
      var tail := rules[1..];
      RulesScanTrue(tail, cache);
      assert forall i :: 0 < i < |rules| ==> tail[i - 1] == rules[i];
      var step := RuleStep(rules[0], cache);
      if step == Exclude {
        assert ExcludesFirstAt(rules, cache, 0);
      } else if step == Continue {
        if RulesScan(tail, cache) == Returned(true) {
          var k :| ExcludesFirstAt(tail, cache, k);
          assert ExcludesFirstAt(rules, cache, k + 1);
        }
        if exists i :: ExcludesFirstAt(rules, cache, i) {
          var i :| ExcludesFirstAt(rules, cache, i);
          assert ExcludesFirstAt(tail, cache, i - 1);
        }
      } else {
        assert forall i :: !ExcludesFirstAt(rules, cache, i);
      }
    }
  }

  /** The scan passes over a prefix of skipped rules */
  lemma {:induction false} RulesScanSkipsPrefix(rules: seq<ExclusionRule>, cache: Cache, i: int)
    requires 0 <= i <= |rules|
    requires forall j :: 0 <= j < i ==> RuleStep(rules[j], cache) == Continue
    ensures RulesScan(rules, cache) == RulesScan(rules[i..], cache)
    decreases i
  {
    if i > 0 {
      var tail := rules[1..];
      assert forall j :: 0 <= j < i - 1 ==> tail[j] == rules[j + 1];
      RulesScanSkipsPrefix(tail, cache, i - 1);
      assert tail[i - 1..] == rules[i..];
    }
  }

  /** The rules scan returns false iff every rule is skipped */
  lemma {:induction false} RulesScanFalse(rules: seq<ExclusionRule>, cache: Cache)
    ensures RulesScan(rules, cache) == Returned(false) <==>
              forall i :: 0 <= i < |rules| ==> RuleStep(rules[i], cache) == Continue
  {
    if |rules| > 0 {
      RulesScanFalse(rules[1..], cache);
      assert forall i :: 0 < i < |rules| ==> rules[1..][i - 1] == rules[i];
    }
  }

  /** When no rule can throw, `isExcluded` is true iff some folder entry or
      some rule matches */
  lemma ExcludedIffSomeRuleMatches(settings: SettingsData, parent: Option<string>, cache: Option<Cache>, host: Host)
    requires settings.excludedFolders.Some?
    requires cache.Some? ==> forall i :: 0 <= i < |settings.exclusionRules| ==>
                               RuleStep(settings.exclusionRules[i], cache.value) != Throw
    ensures Excluded(settings, parent, cache, host) == Returned(
              (exists i :: 0 <= i < |settings.excludedFolders.value| &&
                           FolderMatches(settings.excludedFolders.value[i], ParentPath(parent),
                                         settings.useRegexForExcludedFolders, host)) ||
              (cache.Some? &&
               exists i :: 0 <= i < |settings.exclusionRules| &&
                           RuleStep(settings.exclusionRules[i], cache.value) == Exclude))
  {
    if cache.Some? {
      var rules := settings.exclusionRules;
      var c := cache.value;
      RulesScanTrue(rules, c);
      RulesScanFalse(rules, c);
      if exists i :: 0 <= i < |rules| && RuleStep(rules[i], c) == Exclude {
        var i :| 0 <= i < |rules| && RuleStep(rules[i], c) == Exclude;
        FirstExcluding(rules, c, i);
      }
    }
  }

  /** Some rule excludes, so a first one does, every rule before it being
      skipped when none throws */
  lemma {:induction false} FirstExcluding(rules: seq<ExclusionRule>, cache: Cache, i: int)
    requires 0 <= i < |rules| && RuleStep(rules[i], cache) == Exclude
    requires forall j :: 0 <= j < |rules| ==> RuleStep(rules[j], cache) != Throw
    ensures exists k :: ExcludesFirstAt(rules, cache, k)
    decreases i
  {
    if exists j :: 0 <= j < i && RuleStep(rules[j], cache) == Exclude {
      var j :| 0 <= j < i && RuleStep(rules[j], cache) == Exclude;
      FirstExcluding(rules, cache, j);
    } else {
      assert ExcludesFirstAt(rules, cache, i);
    }
  }

  /** `isExcluded` throws only when the folder list is absent or a tag rule
      meets a frontmatter `tags` value that cannot be spread */
  lemma ThrowsOnlyOnMissingFoldersOrBadTags(settings: SettingsData, parent: Option<string>, cache: Option<Cache>, host: Host)
    requires Excluded(settings, parent, cache, host) == Threw
    ensures settings.excludedFolders.None? ||
            (cache.Some? && AllTags(cache.value).None? &&
             exists i :: 0 <= i < |settings.exclusionRules| &&
               settings.exclusionRules[i].kind == TagRule && Trim(settings.exclusionRules[i].value) != "")
  {
    if settings.excludedFolders.Some? {
      var c := cache.value;
      var k := RulesScanThrows(settings.exclusionRules, c);
    }
  }

  lemma {:induction false} RulesScanThrows(rules: seq<ExclusionRule>, cache: Cache) returns (k: int)
    requires RulesScan(rules, cache) == Threw
    ensures 0 <= k < |rules| && RuleStep(rules[k], cache) == Throw
    ensures rules[k].kind == TagRule && Trim(rules[k].value) != "" && AllTags(cache).None?
  {
    if RuleStep(rules[0], cache) == Throw {
      k := 0;
    } else {
      var k' := RulesScanThrows(rules[1..], cache);
      k := k' + 1;
      assert rules[1..][k'] == rules[k];
    }
  }

  /** Without a cache, or with no rules, only the folder entries count */
  lemma OnlyFoldersWithoutCache(settings: SettingsData, parent: Option<string>, cache: Option<Cache>, host: Host)
    requires settings.excludedFolders.Some?
    requires cache.None? || settings.exclusionRules == []
    ensures Excluded(settings, parent, cache, host) ==
              Returned(FolderScan(settings.excludedFolders.value, ParentPath(parent),
                                  settings.useRegexForExcludedFolders, host))
  {
  }

  /** In literal mode an entry matches iff the parent path is the normalised
      entry; in regex mode a pattern that does not compile never matches */
  lemma FolderEntryCases(entry: ExcludedFolder, parentPath: string, useRegex: Option<bool>, host: Host)
    ensures entry.folder == "" ==> !FolderMatches(entry, parentPath, useRegex, host)
    ensures entry.folder != "" && useRegex != Some(true) ==>
              (FolderMatches(entry, parentPath, useRegex, host) <==> parentPath == host.normalizePath(entry.folder))
    ensures useRegex == Some(true) && host.regexTest(entry.folder, parentPath) == InvalidPattern ==>
              !FolderMatches(entry, parentPath, useRegex, host)
  {
  }

  // ---------------------------------------------------------------------
  // Properties of single rules

  /** A trimmed `key` without a colon excludes iff the key is present with
      any value but `undefined`; `null` counts as present */
  lemma KeyRule(key: string, cache: Cache)
    requires key != "" && IsTrimmed(key) && ':' !in key && cache.frontmatter.Some?
    ensures RuleStep(ExclusionRule(PropertyRule, key), cache) == Exclude <==>
              Lookup(cache.frontmatter.value, key) != Undefined
  {
    TrimmedIsFixpoint(key);
  }

  lemma KeyRuleNull(key: string, cache: Cache)
    requires key != "" && IsTrimmed(key) && ':' !in key
    requires cache.frontmatter.Some? && key in cache.frontmatter.value && cache.frontmatter.value[key] == Null
    ensures RuleStep(ExclusionRule(PropertyRule, key), cache) == Exclude
  {
    KeyRule(key, cache);
  }

  /** The first colon is where a `key:value` rule splits */
  lemma IndexOfFirstColon(key: string, want: string)
    requires ':' !in key
    ensures IndexOf(key + ":" + want, ':') == |key|
  {
    var s := key + ":" + want;
    assert s[|key|] == ':';
    assert s[..|key|] == key;
  }

  lemma JoinedRuleIsTrimmed(key: string, want: string)
    requires key != "" && IsTrimmed(key) && IsTrimmed(want)
    ensures IsTrimmed(key + ":" + want)
  {
    var s := key + ":" + want;
    assert s[0] == key[0];
    if want == "" {
      assert s[|s| - 1] == ':';
    } else {
      assert s[|s| - 1] == want[|want| - 1];
    }
  }

  /** `key:want`, with `key` free of colons and both sides trimmed, excludes
      iff the key's value is present and its string form is `want`, or, for
      an array, the string form of some element is; `want` may hold further
      colons */
  lemma KeyValueRule(key: string, want: string, cache: Cache)
    requires key != "" && IsTrimmed(key) && ':' !in key && IsTrimmed(want)
    requires cache.frontmatter.Some?
    ensures var v := Lookup(cache.frontmatter.value, key);
            RuleStep(ExclusionRule(PropertyRule, key + ":" + want), cache) == Exclude <==>
              v != Undefined &&
              if v.Arr? then exists i :: 0 <= i < |v.items| && ToString(v.items[i]) == want
              else ToString(v) == want
  {
    var s := key + ":" + want;
    JoinedRuleIsTrimmed(key, want);
    TrimmedIsFixpoint(s);
    IndexOfFirstColon(key, want);
    assert s[..|key|] == key;
    assert s[|key| + 1..] == want;
    TrimmedIsFixpoint(key);
    TrimmedIsFixpoint(want);
    var v := Lookup(cache.frontmatter.value, key);
    if v.Arr? {
      var strs := H.MapToString(v.items);
      assert (want in strs) <==> exists i :: 0 <= i < |v.items| && ToString(v.items[i]) == want by {
        assert forall i :: 0 <= i < |v.items| ==> strs[i] == ToString(v.items[i]);
      }
    }
  }

  /** A `key:value` rule whose key is blank is skipped, whatever the
      frontmatter holds */
  lemma BlankKeySkipped(want: string, cache: Cache)
    requires IsTrimmed(":" + want)
    ensures RuleStep(ExclusionRule(PropertyRule, ":" + want), cache) == Continue
  {
    TrimmedIsFixpoint(":" + want);
    assert (":" + want)[..0] == "";
  }

  /** Without frontmatter a property rule is skipped */
  lemma PropertyRuleWithoutFrontmatter(rule: ExclusionRule, cache: Cache)
    requires rule.kind == PropertyRule && cache.frontmatter.None?
    ensures RuleStep(rule, cache) == Continue
  {
  }

  /** A trimmed tag rule excludes iff the tag list can be built and holds the
      rule's text without its leading `#`; the comparison keeps case */
  lemma TagRuleMatches(value: string, cache: Cache)
    requires value != "" && IsTrimmed(value)
    ensures RuleStep(ExclusionRule(TagRule, value), cache) == Exclude <==>
              AllTags(cache).Some? && Str(StripTagSign(value)) in AllTags(cache).value
    ensures RuleStep(ExclusionRule(TagRule, value), cache) == Throw <==> AllTags(cache).None?
  {
    TrimmedIsFixpoint(value);
  }

  // ---------------------------------------------------------------------
  // Examples of the JavaScript behaviour the matcher inherits

  /** A frontmatter `tags` string is spread into its characters, so the
      rule `b` matches `tags: ab` */
  lemma StringTagsAreCharacters()
    ensures AllTags(Cache([], Some(map["tags" := Str("ab")]))) == Some([Str("a"), Str("b")])
  {
    var fm := map["tags" := Str("ab")];
    assert Lookup(fm, "tags") == Str("ab");
    var cs := Characters("ab");
    assert cs[0] == Str("a") && cs[1] == Str("b");
    assert cs == [Str("a"), Str("b")];
    assert FrontmatterTags(Some(fm)) == Some(cs);
    var c := Cache([], Some(fm));
    var inline := seq(|c.inlineTags|, i requires 0 <= i < |c.inlineTags| =>
                        Str(RemoveFirst(c.inlineTags[i], '#')));
    assert inline + cs == cs;
    var r := MapDropHash(cs);
    assert r[0] == Str(RemoveFirst("a", '#')) == Str("a");
    assert r[1] == Str(RemoveFirst("b", '#')) == Str("b");
    assert r == [Str("a"), Str("b")];
  }

  /** A frontmatter `tags` number cannot be spread: a tag rule throws */
  lemma NumberTagsThrow(value: string)
    requires Trim(value) != ""
    ensures RuleStep(ExclusionRule(TagRule, value), Cache([], Some(map["tags" := Num(5)]))) == Throw
  {
  }

  lemma RemoveFirstHashExample()
    ensures RemoveFirst("a#b", '#') == "ab"
    ensures RemoveFirst("#a#b", '#') == "a#b"
  {
    assert "a#b"[1..] == "#b" && "#b"[1..] == "b";
  }

  /** `replace('#', '')` drops the first `#` wherever it is: the frontmatter
      tag `a#b` is compared as `ab` */
  lemma FrontmatterTagLosesFirstHash()
    ensures AllTags(Cache([], Some(map["tags" := Arr([Str("a#b")])]))) == Some([Str("ab")])
  {
    RemoveFirstHashExample();
    var fm := map["tags" := Arr([Str("a#b")])];
    assert Lookup(fm, "tags") == Arr([Str("a#b")]);
    assert FrontmatterTags(Some(fm)) == Some([Str("a#b")]);
    var c := Cache([], Some(fm));
    var inline := seq(|c.inlineTags|, i requires 0 <= i < |c.inlineTags| =>
                        Str(RemoveFirst(c.inlineTags[i], '#')));
    assert inline + [Str("a#b")] == [Str("a#b")];
    assert MapDropHash([Str("a#b")]) == [Str("ab")];
  }

  /** ... and an inline tag loses two, once when the inline list is read and
      once more with the combined list */
  lemma InlineTagLosesTwoHashes()
    ensures AllTags(Cache(["#a#b"], None)) == Some([Str("ab")])
  {
    RemoveFirstHashExample();
    var c := Cache(["#a#b"], None);
    var inline := seq(|c.inlineTags|, i requires 0 <= i < |c.inlineTags| =>
                        Str(RemoveFirst(c.inlineTags[i], '#')));
    assert inline == [Str("a#b")];
    assert inline + [] == [Str("a#b")];
    assert MapDropHash([Str("a#b")]) == [Str("ab")];
  }
}
