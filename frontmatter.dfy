/// The merge resolver of src/frontmatter.ts: which property types may be
/// combined into a list, and the de-duplicating union of values.
module Frontmatter {
  import opened JsRuntime
  import opened Types

  /** The type names whose values are never merged into a list */
  const NonAppendable: seq<string> := ["number", "date", "datetime", "checkbox"]

  /** `canBeAppended(type1, type2)`; `type2` is optional, and the empty
      string is falsy, so it counts as absent */
  function CanBeAppended(type1: string, type2: Option<string>): (r: bool)
    ensures !r <==> type1 in NonAppendable || (type2.Some? && type2.value in NonAppendable)
  {
    !(type1 in NonAppendable || (type2.Some? && type2.value != "" && type2.value in NonAppendable))
  }

  /** With two types given, the order does not matter */
  lemma CanBeAppendedSymmetric(a: string, b: string)
    ensures CanBeAppended(a, Some(b)) == CanBeAppended(b, Some(a))
  {
  }

  /** With no second type (or an empty one), only the first type decides */
  lemma CanBeAppendedWithoutSystemType(a: string, b: string)
    ensures CanBeAppended(a, None) == CanBeAppended(a, Some(""))
    ensures CanBeAppended(a, None) == CanBeAppended(a, Some(b)) || b in NonAppendable
  {
  }

  /** Of the eight property types, the four list-like or textual ones may be
      merged; a type name outside the eight may be merged too */
  lemma AppendableTypes(t: PropertyType)
    ensures CanBeAppended(TypeName(t), None) <==> !(t.Number? || t.Date? || t.Datetime? || t.Checkbox?)
  {
  }

  // ---------------------------------------------------------------------
  // mergeIntoArrays

  /** `Array.isArray(arg) ? arg : [arg]` */
  function AsList(v: JsValue): (r: seq<JsValue>)
    ensures v.Arr? ==> r == v.items
    ensures !v.Arr? ==> r == [v]
  {
    if v.Arr? then v.items else [v]
  }

  /** `args.map(AsList).flat()` */
  function Flatten(args: seq<JsValue>): (r: seq<JsValue>)
    ensures forall x :: x in r <==> exists i :: 0 <= i < |args| && x in AsList(args[i])
  {
    if |args| == 0 then []
    else
      var rest := Flatten(args[1..]);
      assert forall i :: 0 < i < |args| ==> args[1..][i - 1] == args[i];
      AsList(args[0]) + rest
  }

  /** `set.has(x)` on a set whose elements, in insertion order, are `acc`:
      a primitive value by value; an array or object never, for no two of
      them reaching the set are the same allocation */
  predicate InSet(acc: seq<JsValue>, x: JsValue) {
    IsPrimitive(x) && x in acc
  }

  /** Adding the values `xs` in order to a set holding `acc`: the element
      order of the resulting set */
  function AddAll(acc: seq<JsValue>, xs: seq<JsValue>): seq<JsValue>
    decreases |xs|
  {
    if |xs| == 0 then acc
    else AddAll(if InSet(acc, xs[0]) then acc else acc + [xs[0]], xs[1..])
  }

  predicate NoDuplicates(xs: seq<JsValue>) {
    forall i, j :: 0 <= i < j < |xs| ==> !Identical(xs[i], xs[j])
  }

  /** The reference order: every value not identical to an earlier one, in
      the order of their positions */
  predicate IsFirstOccurrence(xs: seq<JsValue>, k: int)
    requires 0 <= k < |xs|
  {
    forall j :: 0 <= j < k ==> !Identical(xs[j], xs[k])
  }

  function FirstOccurrences(xs: seq<JsValue>): (r: seq<JsValue>)
    decreases |xs|
  {
    if |xs| == 0 then []
    else
      FirstOccurrences(xs[..|xs| - 1]) +
      (if IsFirstOccurrence(xs, |xs| - 1) then [xs[|xs| - 1]] else [])
  }

  lemma {:induction false} FirstOccurrencesElements(xs: seq<JsValue>)
    ensures forall x :: x in FirstOccurrences(xs) <==> x in xs
    decreases |xs|
  {
    if |xs| > 0 {
      var init := xs[..|xs| - 1];
      var last := xs[|xs| - 1];
      FirstOccurrencesElements(init);
      assert xs == init + [last];
      if !IsFirstOccurrence(xs, |xs| - 1) {
        var j :| 0 <= j < |xs| - 1 && Identical(xs[j], last);
        assert init[j] == last;
      }
    }
  }

  lemma {:induction false} FirstOccurrencesNoDuplicates(xs: seq<JsValue>)
    ensures NoDuplicates(FirstOccurrences(xs))
    decreases |xs|
  {
    if |xs| > 0 {
      var init := xs[..|xs| - 1];
      var last := xs[|xs| - 1];
      FirstOccurrencesNoDuplicates(init);
      FirstOccurrencesElements(init);
      var f := FirstOccurrences(init);
      if IsFirstOccurrence(xs, |xs| - 1) {
        forall i | 0 <= i < |f| ensures !Identical(f[i], last) {
          assert f[i] in init;
          forall j | 0 <= j < |init| ensures init[j] == xs[j] {
          }
        }
      }
    }
  }

  /** Inserting the rest of the values into the set built from a prefix
      completes the reference order of the whole */
  lemma {:induction false} AddAllFirstOccurrences(p: seq<JsValue>, s: seq<JsValue>)
    ensures AddAll(FirstOccurrences(p), s) == FirstOccurrences(p + s)
    decreases |s|
  {
    if |s| == 0 {
      assert p + s == p;
    } else {
      var x := s[0];
      var q := p + [x];
      assert q[..|q| - 1] == p;
      FirstOccurrencesElements(p);
      if IsPrimitive(x) && x in p {
        var j :| 0 <= j < |p| && p[j] == x;
        assert q[j] == x;
        assert !IsFirstOccurrence(q, |q| - 1);
      } else {
        forall j | 0 <= j < |p| ensures !Identical(q[j], x) {
          assert q[j] == p[j];
        }
      }
      var f := FirstOccurrences(p);
      assert FirstOccurrences(q) == f + (if IsFirstOccurrence(q, |q| - 1) then [x] else []);
      assert (if InSet(f, x) then f else f + [x]) == FirstOccurrences(q);
      assert AddAll(f, s) == AddAll(FirstOccurrences(q), s[1..]);
      AddAllFirstOccurrences(q, s[1..]);
      assert q + s[1..] == p + s;
    }
  }

  /** `[...new Set(args.map(AsList).flat())]` of src/frontmatter.ts */
  function MergeIntoArrays(args: seq<JsValue>): (r: seq<JsValue>)
    ensures NoDuplicates(r)
    ensures forall x :: x in r <==> x in Flatten(args)
  {
    var flat := Flatten(args);
    AddAllFirstOccurrences([], flat);
    assert [] + flat == flat;
    FirstOccurrencesNoDuplicates(flat);
    FirstOccurrencesElements(flat);
    AddAll([], flat)
  }

  /** The merged values come in the order of their first occurrence across
      the arguments, left to right */
  lemma MergeOrder(args: seq<JsValue>)
    ensures MergeIntoArrays(args) == FirstOccurrences(Flatten(args))
  {
    var flat := Flatten(args);
    AddAllFirstOccurrences([], flat);
    assert [] + flat == flat;
  }

  lemma {:induction false} FirstOccurrencesOfPrefix(xs: seq<JsValue>, k: nat)
    requires k <= |xs|
    ensures FirstOccurrences(xs[..k]) <= FirstOccurrences(xs)
    decreases |xs|
  {
    if k < |xs| {
      var init := xs[..|xs| - 1];
      assert init[..k] == xs[..k];
      FirstOccurrencesOfPrefix(init, k);
    } else {
      assert xs[..k] == xs;
    }
  }

  lemma {:induction false} FirstOccurrencesOfDistinct(xs: seq<JsValue>)
    requires NoDuplicates(xs)
    ensures FirstOccurrences(xs) == xs
    decreases |xs|
  {
    if |xs| > 0 {
      var init := xs[..|xs| - 1];
      FirstOccurrencesOfDistinct(init);
      assert xs == init + [xs[|xs| - 1]];
    }
  }

  /** Merging a value into an existing one keeps the existing values in
      front, in their order; an existing list without duplicates is kept
      whole at the front */
  lemma MergeKeepsExistingFirst(existing: JsValue, added: JsValue)
    ensures FirstOccurrences(AsList(existing)) <= MergeIntoArrays([existing, added])
    ensures NoDuplicates(AsList(existing)) ==> AsList(existing) <= MergeIntoArrays([existing, added])
  {
    var flat := Flatten([existing, added]);
    var e := AsList(existing);
    MergeOrder([existing, added]);
    assert [existing, added][1..] == [added];
    assert Flatten([added]) == AsList(added) + Flatten([]);
    assert flat == e + AsList(added);
    assert flat[..|e|] == e;
    FirstOccurrencesOfPrefix(flat, |e|);
    if NoDuplicates(e) {
      FirstOccurrencesOfDistinct(e);
    }
  }

  /** A value that is not an array counts as a list of itself */
  lemma ScalarIsSingleton(v: JsValue, w: JsValue)
    requires !v.Arr? && !w.Arr?
    ensures Flatten([v, w]) == [v, w]
  {
    assert [v, w][1..] == [w];
    assert [w][1..] == [];
    assert Flatten([w]) == [w];
  }

  lemma MergeExample()
    ensures MergeIntoArrays([Arr([Str("a"), Str("b")]), Arr([Str("b"), Str("c")])])
            == [Str("a"), Str("b"), Str("c")]
  {
    var args := [Arr([Str("a"), Str("b")]), Arr([Str("b"), Str("c")])];
    assert args[1..] == [Arr([Str("b"), Str("c")])];
    assert Flatten(args) == [Str("a"), Str("b"), Str("b"), Str("c")];
  }

  /** Arrays and objects are never recognised as already present: two empty
      arrays both stay */
  lemma MergeKeepsEveryArray()
    ensures MergeIntoArrays([Arr([Arr([])]), Arr([Arr([])])]) == [Arr([]), Arr([])]
  {
    var args := [Arr([Arr([])]), Arr([Arr([])])];
    assert args[1..] == [Arr([Arr([])])];
    assert Flatten(args) == [Arr([]), Arr([])];
  }
}
