/// What `applyPropertiesToFile` of src/main.ts does to a note's frontmatter:
/// the decision for one property definition (overwrite, merge or leave
/// alone), its repetition over the enabled definitions in order, and the
/// whole call with the exclusion check in front.
module Apply {
  import opened JsRuntime
  import opened Types
  import H = Helpers
  import F = Frontmatter
  import E = Exclusion

  /** The frontmatter dictionary and the `propertiesAdded` counter */
  datatype State = State(fm: map<string, JsValue>, added: nat)

  /** How a call ends: `isExcluded` threw (the frontmatter is not opened);
      the note is excluded or no definition is enabled (nothing is written);
      or the frontmatter is rewritten */
  datatype ApplyOutcome = Failed | Skipped | Applied(fm: map<string, JsValue>, added: nat)

  /** `properties.filter(p => p.enabled)` */
  function Enabled(props: seq<GlobalProperty>): (r: seq<GlobalProperty>)
    ensures |r| <= |props|
    ensures forall p :: p in r <==> p in props && p.enabled
  {
    if |props| == 0 then []
    else (if props[0].enabled then [props[0]] else []) + Enabled(props[1..])
  }

  /** `filter` keeps order and multiplicity: the enabled definitions of a
      concatenation are those of each part, one after the other */
  lemma {:induction false} EnabledAppend(a: seq<GlobalProperty>, b: seq<GlobalProperty>)
    ensures Enabled(a + b) == Enabled(a) + Enabled(b)
  {
    if |a| == 0 {
      assert a + b == b;
    } else {
      assert (a + b)[1..] == a[1..] + b;
      EnabledAppend(a[1..], b);
    }
  }

  /** A single definition is kept iff it is enabled */
  lemma EnabledOfOne(p: GlobalProperty)
    ensures Enabled([p]) == if p.enabled then [p] else []
  {
    assert [p][1..] == [];
  }

  /** Two enabled definitions stay in their order */
  lemma EnabledKeepsOrderExample(p: GlobalProperty, q: GlobalProperty)
    requires p.enabled && q.enabled
    ensures Enabled([p, q]) == [p, q]
  {
    assert [p, q] == [p] + [q];
    EnabledAppend([p], [q]);
    EnabledOfOne(p);
    EnabledOfOne(q);
  }

  /** `allPropertyInfos[propName.toLowerCase()]?.widget`: the type the
      vault already records for the property, looked up by the lower-cased
      name (the host's full Unicode lower-casing); a name without a record
      has none */
  function SystemType(infos: map<string, string>, name: string, host: Host): (r: Option<string>)
    ensures r.Some? <==> host.toLowerCase(name) in infos
    ensures r.Some? ==> r.value == infos[host.toLowerCase(name)]
  {
    var key := host.toLowerCase(name);
    if key in infos then Some(infos[key]) else None
  }

  /** The keys `k` of `after` other than those in `names` are those of
      `before`, with the same values */
  ghost predicate SameOutside(before: map<string, JsValue>, after: map<string, JsValue>, names: set<string>) {
    forall k :: k !in names ==> (k in after <==> k in before) && (k in before ==> after[k] == before[k])
  }

  /** One pass of the loop body for definition `prop`. A pass that is not
      counted changes nothing, and a counted one adds one (an overwrite is
      counted even when it writes the value already there); only the
      trimmed name can change, and no key is removed. */
  function ApplyOne(st: State, prop: GlobalProperty, infos: map<string, string>, host: Host): (r: State)
    ensures r.added == st.added <==> r == st
    ensures r.added == st.added || r.added == st.added + 1
    ensures SameOutside(st.fm, r.fm, {Trim(prop.name)})
    ensures st.fm.Keys <= r.fm.Keys
  {
    var name := Trim(prop.name);
    if name == "" then st
    else
      var systemType := SystemType(infos, name, host);
      var processed := H.ProcessPropertyValue(prop.value, prop.propertyType, host);
      var existing := E.Lookup(st.fm, name);
      if !Truthy(existing) || prop.overwrite then
        State(st.fm[name := processed], st.added + 1)
      else if F.CanBeAppended(TypeName(prop.propertyType), systemType) && Truthy(processed)
              && !Identical(existing, processed) then
        State(st.fm[name := Arr(F.MergeIntoArrays([existing, processed]))], st.added + 1)
      else st
  }

  /** The trimmed names of some definitions */
  function Names(props: seq<GlobalProperty>): (r: set<string>)
    ensures forall i :: 0 <= i < |props| ==> Trim(props[i].name) in r
    ensures forall k :: k in r ==> exists i :: 0 <= i < |props| && Trim(props[i].name) == k
  {
    set i | 0 <= i < |props| :: Trim(props[i].name)
  }

  /** The loop over the definitions `props`, in order: each definition sees
      the writes of those before it. The counter grows by at most one per
      definition, no key is removed, and keys no definition names are left
      as they are. */
  function ApplyAll(st: State, props: seq<GlobalProperty>, infos: map<string, string>, host: Host): (r: State)
    ensures st.added <= r.added <= st.added + |props|
    ensures st.fm.Keys <= r.fm.Keys
    ensures SameOutside(st.fm, r.fm, Names(props))
    decreases |props|
  {
    if |props| == 0 then st
    else
      var init := props[..|props| - 1];
      var mid := ApplyAll(st, init, infos, host);
      NamesOfSnoc(props);
      ApplyOne(mid, props[|props| - 1], infos, host)
  }

  lemma NamesOfSnoc(props: seq<GlobalProperty>)
    requires |props| > 0
    ensures Names(props) == Names(props[..|props| - 1]) + {Trim(props[|props| - 1].name)}
  {
    var init := props[..|props| - 1];
    assert forall i :: 0 <= i < |init| ==> init[i] == props[i];
  }

  /** `applyPropertiesToFile(file)` with the note's folder `parent`, its
      metadata `cache`, the parsed frontmatter `fm` and the vault's recorded
      property types `infos`. Only a note that is not excluded and a
      settings list with an enabled definition get the frontmatter
      rewritten; the counter then counts the definitions that wrote. */
  function ApplyToFile(settings: SettingsData, parent: Option<string>, cache: Option<E.Cache>,
                       fm: map<string, JsValue>, infos: map<string, string>, host: Host): (r: ApplyOutcome)
    ensures r.Failed? <==> E.Excluded(settings, parent, cache, host) == E.Threw
    ensures r.Applied? <==> E.Excluded(settings, parent, cache, host) == E.Returned(false) &&
                            |Enabled(settings.properties)| > 0
    ensures r.Applied? ==> r.added <= |Enabled(settings.properties)|
    ensures r.Applied? ==> fm.Keys <= r.fm.Keys && SameOutside(fm, r.fm, Names(Enabled(settings.properties)))
  {
    match E.Excluded(settings, parent, cache, host)
    case Threw => Failed
    case Returned(excluded) =>
      if excluded then Skipped
      else
        var enabled := Enabled(settings.properties);
        if |enabled| == 0 then Skipped
        else
          var st := ApplyAll(State(fm, 0), enabled, infos, host);
          Applied(st.fm, st.added)
  }

  // ---------------------------------------------------------------------
  // The three branches of one definition

  /** An absent or falsy value, or a definition that overwrites: the key
      becomes the normalised value and is counted */
  lemma OverwriteBranch(st: State, prop: GlobalProperty, infos: map<string, string>, host: Host)
    requires Trim(prop.name) != ""
    requires !Truthy(E.Lookup(st.fm, Trim(prop.name))) || prop.overwrite
    ensures ApplyOne(st, prop, infos, host).fm ==
              st.fm[Trim(prop.name) := H.ProcessPropertyValue(prop.value, prop.propertyType, host)]
    ensures ApplyOne(st, prop, infos, host).added == st.added + 1
  {
  }

  /** A truthy value not to be overwritten, with types that may be merged,
      a truthy normalised value not identical to it: the key becomes the
      merged list, which starts with the existing values (all of them when
      they had no duplicates) and holds the elements of both */
  lemma MergeBranch(st: State, prop: GlobalProperty, infos: map<string, string>, host: Host)
    requires Trim(prop.name) != "" && !prop.overwrite
    requires Truthy(E.Lookup(st.fm, Trim(prop.name)))
    requires F.CanBeAppended(TypeName(prop.propertyType), SystemType(infos, Trim(prop.name), host))
    requires Truthy(H.ProcessPropertyValue(prop.value, prop.propertyType, host))
    requires !Identical(E.Lookup(st.fm, Trim(prop.name)), H.ProcessPropertyValue(prop.value, prop.propertyType, host))
    ensures var name := Trim(prop.name);
            var existing := E.Lookup(st.fm, name);
            var processed := H.ProcessPropertyValue(prop.value, prop.propertyType, host);
            var r := ApplyOne(st, prop, infos, host);
            name in r.fm && r.fm[name].Arr? && r.added == st.added + 1 &&
            F.NoDuplicates(r.fm[name].items) &&
            F.FirstOccurrences(F.AsList(existing)) <= r.fm[name].items &&
            (F.NoDuplicates(F.AsList(existing)) ==> F.AsList(existing) <= r.fm[name].items) &&
            (forall x :: x in r.fm[name].items <==> x in F.AsList(existing) || x in F.AsList(processed))
  {
    var name := Trim(prop.name);
    var existing := E.Lookup(st.fm, name);
    var processed := H.ProcessPropertyValue(prop.value, prop.propertyType, host);
    F.MergeKeepsExistingFirst(existing, processed);
    var args := [existing, processed];
    assert forall x :: x in F.Flatten(args) <==> x in F.AsList(existing) || x in F.AsList(processed) by {
      forall x ensures x in F.Flatten(args) <==> x in F.AsList(existing) || x in F.AsList(processed) {
        if x in F.AsList(existing) {
          assert x in F.AsList(args[0]);
        }
        if x in F.AsList(processed) {
          assert x in F.AsList(args[1]);
        }
      }
    }
  }

  /** A truthy value not to be overwritten stays as it is when the types may
      not be merged, the normalised value is falsy, or it is the same
      primitive */
  lemma LeaveAloneBranch(st: State, prop: GlobalProperty, infos: map<string, string>, host: Host)
    requires !prop.overwrite && Truthy(E.Lookup(st.fm, Trim(prop.name)))
    requires !F.CanBeAppended(TypeName(prop.propertyType), SystemType(infos, Trim(prop.name), host)) ||
             !Truthy(H.ProcessPropertyValue(prop.value, prop.propertyType, host)) ||
             Identical(E.Lookup(st.fm, Trim(prop.name)), H.ProcessPropertyValue(prop.value, prop.propertyType, host))
    ensures ApplyOne(st, prop, infos, host) == st
  {
  }

  /** A definition whose name trims to nothing does nothing */
  lemma BlankNameSkipped(st: State, prop: GlobalProperty, infos: map<string, string>, host: Host)
    requires Trim(prop.name) == ""
    ensures ApplyOne(st, prop, infos, host) == st
  {
  }

  /** Number, date, datetime and checkbox definitions never touch a truthy
      value they may not overwrite, whatever the vault records */
  lemma ScalarTypesNeverMerge(st: State, prop: GlobalProperty, infos: map<string, string>, host: Host)
    requires prop.propertyType in {Number, Date, Datetime, Checkbox}
    requires !prop.overwrite && Truthy(E.Lookup(st.fm, Trim(prop.name)))
    ensures ApplyOne(st, prop, infos, host) == st
  {
  }

  // ---------------------------------------------------------------------
  // Consequences of JavaScript truthiness

  /** A frontmatter value `0` is falsy, so a definition that does not
      overwrite still replaces it */
  lemma ZeroIsReplaced(prop: GlobalProperty, infos: map<string, string>, host: Host)
    requires prop.name == "count" && prop.propertyType == Number && prop.value == Num(5) && !prop.overwrite
    ensures ApplyOne(State(map["count" := Num(0)], 0), prop, infos, host) ==
              State(map["count" := Num(5)], 1)
  {
    TrimmedIsFixpoint("count");
  }

  /** An overwriting definition is counted even when the note already holds
      the value it writes: the count goes up with the frontmatter unchanged */
  lemma OverwriteOfSameValueCounted(host: Host)
    ensures ApplyOne(State(map["a" := Str("x")], 0), GlobalProperty("a", Str("x"), Text, true, true), map[], host) ==
              State(map["a" := Str("x")], 1)
  {
    TrimmedIsFixpoint("a");
    assert H.ProcessPropertyValue(Str("x"), Text, host) == Str("x");
    assert map["a" := Str("x")]["a" := Str("x")] == map["a" := Str("x")];
  }

  /** Merging the empty list into a scalar gives the one-element list of
      the scalar */
  lemma MergeEmptyIntoScalar(v: JsValue)
    requires !v.Arr?
    ensures F.MergeIntoArrays([v, Arr([])]) == [v]
  {
    var args := [v, Arr([])];
    assert args[1..] == [Arr([])];
    assert F.Flatten(args[1..]) == [] + F.Flatten(args[1..][1..]);
    assert F.Flatten(args) == [v];
    F.MergeOrder(args);
    F.FirstOccurrencesOfDistinct([v]);
  }

  /** A tags definition without a value normalises to the empty list, which
      is truthy: an existing single tag is turned into a one-element list and
      the definition is counted, though no tag was added */
  lemma EmptyListStillMerges(host: Host)
    ensures ApplyOne(State(map["tags" := Str("work")], 0),
                     GlobalProperty("tags", Null, Tags, true, false), map[], host) ==
              State(map["tags" := Arr([Str("work")])], 1)
  {
    TrimmedIsFixpoint("tags");
    var processed := H.ProcessPropertyValue(Null, Tags, host);
    assert processed == Arr([]);
    assert F.CanBeAppended("tags", None);
    MergeEmptyIntoScalar(Str("work"));
  }

  /** Merging two different strings lists both, in order */
  lemma MergeTwoStrings(x: string, y: string)
    requires x != y
    ensures F.MergeIntoArrays([Str(x), Str(y)]) == [Str(x), Str(y)]
  {
    F.ScalarIsSingleton(Str(x), Str(y));
    F.MergeOrder([Str(x), Str(y)]);
    F.FirstOccurrencesOfDistinct([Str(x), Str(y)]);
  }

  /** Two text definitions of one name: the second sees the value the first
      wrote and merges its own into a list */
  lemma LaterDefinitionsSeeEarlierWrites(host: Host)
    ensures ApplyAll(State(map[], 0),
                     [GlobalProperty("a", Str("x"), Text, true, false),
                      GlobalProperty("a", Str("y"), Text, true, false)], map[], host) ==
              State(map["a" := Arr([Str("x"), Str("y")])], 2)
  {
    TrimmedIsFixpoint("a");
    var p := GlobalProperty("a", Str("x"), Text, true, false);
    var q := GlobalProperty("a", Str("y"), Text, true, false);
    assert [p, q][..1] == [p];
    assert [p][..0] == [];
    assert H.ProcessPropertyValue(Str("x"), Text, host) == Str("x");
    assert H.ProcessPropertyValue(Str("y"), Text, host) == Str("y");
    var first := ApplyOne(State(map[], 0), p, map[], host);
    assert first == State(map["a" := Str("x")], 1);
    assert ApplyAll(State(map[], 0), [p], map[], host) == first;
    MergeTwoStrings("x", "y");
    assert F.CanBeAppended("text", None);
    assert ApplyOne(first, q, map[], host) == State(map["a" := Arr([Str("x"), Str("y")])], 2);
  }
}
