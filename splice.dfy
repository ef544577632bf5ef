/**
 * The two calls to JavaScript's `Array.prototype.splice` that move a card:
 * `cards.splice(i, 1)` removes one element, `cards.splice(i, 0, x)` inserts one.
 * Indices handed out by the drag-and-drop library are never negative, so they are `nat`.
 */
module Splice {

  /** Where splice starts for a non-negative start index: past the end means at the end. */
  function SpliceStart(index: nat, length: nat): (r: nat)
    ensures r <= length
    ensures r == index || (index > length && r == length)
  {
    if index <= length then index else length
  }

  /** `s.splice(index, 1)`: `s` without its element at `index`. */
  function SpliceRemove<T>(s: seq<T>, index: nat): (r: seq<T>)
    requires index < |s|
    ensures |r| == |s| - 1
  {
    s[..index] + s[index + 1..]
  }

  /** Removal keeps the elements before `index`, shifts those after it down by one, and takes exactly `s[index]` out of the bag. */
  lemma SpliceRemoveElements<T>(s: seq<T>, index: nat)
    requires index < |s|
    ensures var r := SpliceRemove(s, index);
            && (forall k :: 0 <= k < index ==> r[k] == s[k])
            && (forall k :: index <= k < |r| ==> r[k] == s[k + 1])
            && multiset(r) + multiset{s[index]} == multiset(s)
  {
    assert s == s[..index] + [s[index]] + s[index + 1..];
  }

  /** `s.splice(index, 0, x)`: `x` inserted before position `index`, or appended when `index` is past the end. */
  function SpliceInsert<T>(s: seq<T>, index: nat, x: T): (r: seq<T>)
    ensures |r| == |s| + 1
    ensures r[SpliceStart(index, |s|)] == x
  {
    var at := SpliceStart(index, |s|);
    s[..at] + [x] + s[at..]
  }

  /** Insertion keeps the elements before the insertion point, shifts the rest up by one, and adds exactly `x` to the bag. */
  lemma SpliceInsertElements<T>(s: seq<T>, index: nat, x: T)
    ensures var r := SpliceInsert(s, index, x);
            var at := SpliceStart(index, |s|);
            && (forall k :: 0 <= k < at ==> r[k] == s[k])
            && (forall k :: at <= k < |s| ==> r[k + 1] == s[k])
            && multiset(r) == multiset(s) + multiset{x}
  {
    var at := SpliceStart(index, |s|);
    assert s == s[..at] + s[at..];
  }

  /** Putting a removed element back where it was restores the sequence. */
  lemma RemoveThenInsertBack<T>(s: seq<T>, index: nat)
    requires index < |s|
    ensures SpliceInsert(SpliceRemove(s, index), index, s[index]) == s
  {
    var rest := SpliceRemove(s, index);
    assert rest[..index] == s[..index];
    assert rest[index..] == s[index + 1..];
    assert s == s[..index] + [s[index]] + s[index + 1..];
  }

  /** Removing an element right where it was inserted restores the sequence. */
  lemma InsertThenRemove<T>(s: seq<T>, index: nat, x: T)
    ensures SpliceRemove(SpliceInsert(s, index, x), SpliceStart(index, |s|)) == s
  {
    var at := SpliceStart(index, |s|);
    var t := SpliceInsert(s, index, x);
    assert t[..at] == s[..at];
    assert t[at + 1..] == s[at..];
    assert s == s[..at] + s[at..];
  }

  /**
   * Reordering within one sequence (remove at `i`, then insert at `j` of what is left)
   * is undone by the reverse reorder from `j` back to `i`.
   */
  lemma ReorderRoundTrip<T>(s: seq<T>, i: nat, j: nat)
    requires i < |s| && j < |s|
    ensures var t := SpliceInsert(SpliceRemove(s, i), j, s[i]);
            SpliceInsert(SpliceRemove(t, j), i, t[j]) == s
  {
    var rest := SpliceRemove(s, i);
    var t := SpliceInsert(rest, j, s[i]);
    assert SpliceStart(j, |rest|) == j;
    InsertThenRemove(rest, j, s[i]);
    RemoveThenInsertBack(s, i);
  }
}
