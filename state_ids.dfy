/** How the array constructor of an objective state picks its ID: one pass over
    the existing IDs, bumping the candidate each time it meets it. */
module StateIds {
  import opened Int32s

  /** The single forward pass: starting from `start`, each element equal to the
      current candidate moves the candidate up by one. */
  function ScanId(start: int, ids: seq<Int32>): int
    decreases |ids|
  {
    if ids == [] then start
    else ScanId(if ids[0] as int == start then start + 1 else start, ids[1..])
  }

  predicate StrictlyAscending(ids: seq<Int32>) {
    forall i, j :: 0 <= i < j < |ids| ==> ids[i] < ids[j]
  }

  predicate Occurs(k: int, ids: seq<Int32>) {
    exists j :: 0 <= j < |ids| && ids[j] as int == k
  }

  /** `id` is the least non-negative integer that is not among `ids`. */
  predicate IsLeastFreeId(id: int, ids: seq<Int32>) {
    && 0 <= id
    && !Occurs(id, ids)
    && forall k :: 0 <= k < id ==> Occurs(k, ids)
  }

  /** The pass moves the candidate up at most once per element. */
  lemma {:induction false} ScanIdBounds(start: int, ids: seq<Int32>)
    ensures start <= ScanId(start, ids) <= start + |ids|
    decreases |ids|
  {
    if ids != [] {
      ScanIdBounds(if ids[0] as int == start then start + 1 else start, ids[1..]);
    }
  }

  /** On strictly ascending input the pass skips exactly the run of IDs
      `start, start + 1, ...` present in the input and stops on a free one. */
  lemma {:induction false} ScanIdFindsFreeId(start: int, ids: seq<Int32>)
    requires StrictlyAscending(ids)
    ensures !Occurs(ScanId(start, ids), ids)
    ensures forall k :: start <= k < ScanId(start, ids) ==> Occurs(k, ids)
    decreases |ids|
  {
    if ids != [] {
      var x, rest := ids[0] as int, ids[1..];
      var next := if x == start then start + 1 else start;
      var r := ScanId(next, rest);
      ScanIdFindsFreeId(next, rest);
      ScanIdBounds(next, rest);
      forall k | next <= k < r ensures Occurs(k, ids) {
        assert Occurs(k, rest);
        var j :| 0 <= j < |rest| && rest[j] as int == k;
        assert ids[j + 1] as int == k;
      }
      if x > start {
        // every later element exceeds x, so `start` is not among them and the pass stays put
        forall j | 0 <= j < |rest| ensures rest[j] as int != start {
          assert ids[0] < ids[j + 1];
        }
        assert !Occurs(start, rest);
      }
      assert r != x;
      forall j | 0 <= j < |ids| ensures ids[j] as int != r {
        if j > 0 {
          assert ids[j] == rest[j - 1];
        }
      }
      if x == start {
        assert ids[0] as int == start;
      }
    }
  }

  /** The constructor's ID never leaves the range [0, number of existing IDs]. */
  lemma PickedIdInRange(ids: seq<Int32>)
    ensures 0 <= ScanId(0, ids) <= |ids|
  {
    ScanIdBounds(0, ids);
  }

  /** When the existing IDs are strictly ascending, the constructor picks the
      least non-negative ID not already taken: [0, 1, 2] gives 3, [1, 2] gives 0. */
  lemma PickedIdIsLeastFreeWhenSorted(ids: seq<Int32>)
    requires StrictlyAscending(ids)
    ensures IsLeastFreeId(ScanId(0, ids), ids)
  {
    ScanIdFindsFreeId(0, ids);
    ScanIdBounds(0, ids);
  }

  /** Without ascending order the pass can land on a taken ID: [1, 0] gives 1. */
  lemma UnsortedIdsCanCollide()
    ensures ScanId(0, [1, 0]) == 1 && Occurs(1, [1, 0])
  {
    var ids: seq<Int32> := [1, 0];
    assert ids[0] as int == 1;
  }

  /** [0, 1, 2] gives 3 and [1, 2] gives 0. */
  lemma PickedIdExamples()
    ensures ScanId(0, [0, 1, 2]) == 3
    ensures ScanId(0, [1, 2]) == 0
  {
  }
}
