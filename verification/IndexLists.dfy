/**
 Linked lists through an array, seen as the sequence of the indices they pass: indices stand for
 pointers, -1 for NULL.
 */
module IndexLists {

  const NULL: int := -1

  /** The pointer at place i of a list, NULL beyond its ends. */
  function At(c: seq<int>, i: int): int {
    if 0 <= i < |c| then c[i] else NULL
  }

  /** c without place p. */
  function Drop(c: seq<int>, p: nat): seq<int>
    requires p < |c|
  {
    c[..p] + c[p + 1..]
  }

  /** c points into the array. */
  ghost predicate Within<T>(elements: seq<T>, c: seq<int>) {
    forall i: nat | i < |c| :: 0 <= c[i] < |elements|
  }

  /** No element occurs twice. */
  ghost predicate Distinct<T>(c: seq<T>) {
    forall i: nat, j: nat | i < |c| && j < |c| && c[i] == c[j] :: i == j
  }
}
