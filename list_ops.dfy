/// The edits the plugin makes to its settings lists: JavaScript's `splice`
/// with a delete count of one or with one inserted element, a move made of
/// the two, and the exchange of two positions through a temporary.
module ListOps {

  /** The position `splice(start, …)` works at: a negative start counts from
      the end; the position is clamped to `[0, len]` */
  function SpliceStart(start: int, len: nat): (k: nat)
    ensures k <= len
    ensures 0 <= start <= len ==> k == start
  {
    if start < 0 then (if len + start < 0 then 0 else len + start)
    else if start > len then len else start
  }

  /** `xs.splice(start, 1)`: the element at the splice position leaves the
      list and the others close up, in order; past the end nothing happens */
  function RemoveAt<T>(xs: seq<T>, start: int): (r: seq<T>)
    ensures SpliceStart(start, |xs|) == |xs| ==> r == xs
    ensures SpliceStart(start, |xs|) < |xs| ==> |r| == |xs| - 1
    ensures forall i :: 0 <= i < SpliceStart(start, |xs|) && i < |r| ==> r[i] == xs[i]
    ensures SpliceStart(start, |xs|) < |xs| ==>
              forall i :: SpliceStart(start, |xs|) <= i < |r| ==> r[i] == xs[i + 1]
  {
    var k := SpliceStart(start, |xs|);
    if k < |xs| then xs[..k] + xs[k + 1..] else xs
  }

  /** Removal takes out exactly one occurrence of the element removed */
  lemma RemoveAtMultiset<T>(xs: seq<T>, start: int)
    requires SpliceStart(start, |xs|) < |xs|
    ensures multiset(RemoveAt(xs, start)) + multiset{xs[SpliceStart(start, |xs|)]} == multiset(xs)
  {
    var k := SpliceStart(start, |xs|);
    assert xs == xs[..k] + [xs[k]] + xs[k + 1..];
  }

  /** `xs.splice(start, 0, x)`: `x` goes in at the splice position and the
      elements from there on move up by one */
  function InsertAt<T>(xs: seq<T>, start: int, x: T): (r: seq<T>)
    ensures |r| == |xs| + 1
    ensures r[SpliceStart(start, |xs|)] == x
    ensures forall i :: 0 <= i < SpliceStart(start, |xs|) ==> r[i] == xs[i]
    ensures forall i :: SpliceStart(start, |xs|) < i < |r| ==> r[i] == xs[i - 1]
    ensures multiset(r) == multiset(xs) + multiset{x}
  {
    var k := SpliceStart(start, |xs|);
    assert xs == xs[..k] + xs[k..];
    xs[..k] + [x] + xs[k..]
  }

  /** Taking out what was just put in restores the list */
  lemma RemoveInserted<T>(xs: seq<T>, k: int, x: T)
    requires 0 <= k <= |xs|
    ensures RemoveAt(InsertAt(xs, k, x), k) == xs
  {
  }

  /** Putting back what was just taken out restores the list */
  lemma InsertRemoved<T>(xs: seq<T>, k: int)
    requires 0 <= k < |xs|
    ensures InsertAt(RemoveAt(xs, k), k, xs[k]) == xs
  {
  }

  /** `moveProperty(from, to)`: nothing happens when `to` is outside the
      list; otherwise the element at `from` is spliced out and spliced back
      in at `to` (a start below `-|xs|` is clamped to the first element) */
  function Moved<T>(xs: seq<T>, from: int, to: int): (r: seq<T>)
    requires from < |xs|
    ensures |r| == |xs|
    ensures multiset(r) == multiset(xs)
    ensures !(0 <= to < |xs|) ==> r == xs
    ensures 0 <= to < |xs| ==> r[to] == xs[SpliceStart(from, |xs|)]
  {
    if to < 0 || to >= |xs| then xs
    else
      var k := SpliceStart(from, |xs|);
      var rest := RemoveAt(xs, from);
      RemoveAtMultiset(xs, from);
      InsertAt(rest, to, xs[k])
  }

  /** The elements that are not moved keep their relative order: taking the
      moved element out of the result leaves what taking it out of the
      original leaves */
  lemma {:induction false} MovedKeepsTheOthers<T>(xs: seq<T>, from: int, to: int)
    requires from < |xs| && 0 <= to < |xs|
    ensures RemoveAt(Moved(xs, from, to), to) == RemoveAt(xs, from)
  {
    RemoveInserted(RemoveAt(xs, from), to, xs[SpliceStart(from, |xs|)]);
  }

  /** Moving back undoes a move */
  lemma {:induction false} MoveBack<T>(xs: seq<T>, from: int, to: int)
    requires 0 <= from < |xs| && 0 <= to < |xs|
    ensures Moved(Moved(xs, from, to), to, from) == xs
  {
    MovedKeepsTheOthers(xs, from, to);
    InsertRemoved(xs, from);
  }

  /** A start far below zero is clamped: the first element is the one moved */
  lemma ClampedStartMovesFirst()
    ensures SpliceStart(-10, 3) == 0
    ensures Moved([1, 2, 3], -10, 2) == [2, 3, 1]
  {
    assert RemoveAt([1, 2, 3], -10) == [2, 3];
  }

  /** The exchange of positions `i` and `j` through a temporary */
  function Swapped<T>(xs: seq<T>, i: int, j: int): (r: seq<T>)
    requires 0 <= i < |xs| && 0 <= j < |xs|
    ensures |r| == |xs|
    ensures r[i] == xs[j] && r[j] == xs[i]
    ensures forall k :: 0 <= k < |xs| && k != i && k != j ==> r[k] == xs[k]
    ensures multiset(r) == multiset(xs)
  {
    xs[i := xs[j]][j := xs[i]]
  }

  /** Swapping twice restores the list */
  lemma SwapTwice<T>(xs: seq<T>, i: int, j: int)
    requires 0 <= i < |xs| && 0 <= j < |xs|
    ensures Swapped(Swapped(xs, i, j), i, j) == xs
  {
  }

  /** Swapping with a neighbour is moving to the neighbour's place */
  lemma {:induction false} SwapIsMove<T>(xs: seq<T>, i: int, j: int)
    requires 0 <= i < |xs| && 0 <= j < |xs| && (j == i + 1 || j == i - 1)
    ensures Swapped(xs, i, j) == Moved(xs, i, j)
  {
    var m := Moved(xs, i, j);
    var s := Swapped(xs, i, j);
    forall k | 0 <= k < |xs| ensures s[k] == m[k] {
      var rest := RemoveAt(xs, i);
      if k == i {
        assert m[k] == rest[if j == i + 1 then k else k - 1];
      }
    }
  }
}
