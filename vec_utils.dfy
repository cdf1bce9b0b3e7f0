/** The linear searches the flat interpreter uses to find a bracket:
    a search over an arbitrary sequence of indices, and its forward and
    backward instances. */
module VecUtils {
  import opened Wrappers

  /** The search over `indices`, in order: the first index that holds the
      needle, or nothing as soon as an index falls outside the haystack. */
  function Scan<T(==)>(haystack: seq<T>, needle: T, indices: seq<nat>): (r: Option<nat>)
    ensures r.Some? ==> r.value < |haystack| && haystack[r.value] == needle
  {
    if indices == [] then None
    else if indices[0] >= |haystack| then None
    else if haystack[indices[0]] == needle then Some(indices[0])
    else Scan(haystack, needle, indices[1..])
  }

  /** A found index is one of the indices searched. */
  lemma {:induction false} ScanFindsListedIndex<T>(haystack: seq<T>, needle: T, indices: seq<nat>)
    ensures Scan(haystack, needle, indices).Some? ==> Scan(haystack, needle, indices).value in indices
  {
    if indices != [] && indices[0] < |haystack| && haystack[indices[0]] != needle {
      ScanFindsListedIndex(haystack, needle, indices[1..]);
    }
  }

  /** `start..end`: the ascending indices from `start` up to, not including, `end`. */
  function Range(start: nat, end: nat): (r: seq<nat>)
    ensures |r| == if start < end then end - start else 0
    ensures forall k :: 0 <= k < |r| ==> r[k] == start + k
    decreases end - start
  {
    if start >= end then [] else [start] + Range(start + 1, end)
  }

  /** `(0..end).rev()`: the descending indices from `end - 1` down to 0. */
  function RevRange(end: nat): (r: seq<nat>)
    ensures |r| == end
    ensures forall k :: 0 <= k < |r| ==> r[k] == end - 1 - k
  {
    if end == 0 then [] else [end - 1] + RevRange(end - 1)
  }

  /** `find_within_indices` */
  method FindWithinIndices<T(==)>(haystack: seq<T>, needle: T, indices: seq<nat>) returns (r: Option<nat>)
    ensures r == Scan(haystack, needle, indices)
  {
    for k := 0 to |indices|
      invariant Scan(haystack, needle, indices) == Scan(haystack, needle, indices[k..])
    {
      var i := indices[k];
      assert indices[k..][1..] == indices[k + 1..];
      if i >= |haystack| {
        return None;
      } else if haystack[i] == needle {
        return Some(i);
      }
    }
    return None;
  }

  /** The search stops at the first index that is out of range or holds the
      needle: given that every index before position `k` is in range and
      misses, what is at position `k` decides the result. */
  lemma {:induction false} ScanStopsAt<T>(haystack: seq<T>, needle: T, indices: seq<nat>, k: nat)
    requires k <= |indices|
    requires forall j :: 0 <= j < k ==> indices[j] < |haystack| && haystack[indices[j]] != needle
    ensures k == |indices| ==> Scan(haystack, needle, indices) == None
    ensures k < |indices| && indices[k] >= |haystack| ==> Scan(haystack, needle, indices) == None
    ensures k < |indices| && indices[k] < |haystack| && haystack[indices[k]] == needle
            ==> Scan(haystack, needle, indices) == Some(indices[k])
  {
    if k > 0 {
      ScanStopsAt(haystack, needle, indices[1..], k - 1);
    }
  }

  /** Forward from `start`: the nearest index at or after `start` holding
      the needle, or nothing when there is none. */
  lemma {:induction false} ScanForward<T>(haystack: seq<T>, needle: T, start: nat)
    ensures var r := Scan(haystack, needle, Range(start, |haystack|));
      && (r.Some? ==> start <= r.value < |haystack| && haystack[r.value] == needle
                      && forall j :: start <= j < r.value ==> haystack[j] != needle)
      && (r.None? ==> forall j :: start <= j < |haystack| ==> haystack[j] != needle)
    decreases |haystack| - start
  {
    if start < |haystack| {
      assert Range(start, |haystack|)[1..] == Range(start + 1, |haystack|);
      ScanForward(haystack, needle, start + 1);
    }
  }

  /** Backward from `start`: the nearest index before `start` holding the
      needle. When `start` is past the end the very first index is out of
      range and the search gives up at once. */
  lemma ScanBackward<T>(haystack: seq<T>, needle: T, start: nat)
    ensures var r := Scan(haystack, needle, RevRange(start));
      && (r.Some? ==> r.value < start && haystack[r.value] == needle
                      && forall j :: r.value < j < start ==> haystack[j] != needle)
      && (start <= |haystack| && r.None? ==> forall j :: 0 <= j < start ==> haystack[j] != needle)
      && (start > |haystack| ==> r == None)
  {
    ScanBackwardFound(haystack, needle, start);
    ScanBackwardMissing(haystack, needle, start);
  }

  lemma {:induction false} ScanBackwardFound<T>(haystack: seq<T>, needle: T, start: nat)
    ensures var r := Scan(haystack, needle, RevRange(start));
      r.Some? ==> r.value < start && haystack[r.value] == needle
                  && forall j :: r.value < j < start ==> haystack[j] != needle
  {
    if start > 0 {
      var idx := RevRange(start);
      assert idx[0] == start - 1 && idx[1..] == RevRange(start - 1);
      ScanBackwardFound(haystack, needle, start - 1);
    }
  }

  lemma {:induction false} ScanBackwardMissing<T>(haystack: seq<T>, needle: T, start: nat)
    ensures var r := Scan(haystack, needle, RevRange(start));
      && (start <= |haystack| && r.None? ==> forall j :: 0 <= j < start ==> haystack[j] != needle)
      && (start > |haystack| ==> r == None)
  {
    if start > 0 {
      var idx := RevRange(start);
      assert idx[0] == start - 1 && idx[1..] == RevRange(start - 1);
      ScanBackwardMissing(haystack, needle, start - 1);
    }
  }

  /** `find_index`: the first index at or after `start` whose element is the
      needle. */
  method FindIndex<T(==)>(haystack: seq<T>, needle: T, start: nat) returns (r: Option<nat>)
    ensures r == Scan(haystack, needle, Range(start, |haystack|))
    ensures r.Some? ==> start <= r.value < |haystack| && haystack[r.value] == needle
    ensures r.Some? ==> forall j :: start <= j < r.value ==> haystack[j] != needle
    ensures r.None? ==> forall j :: start <= j < |haystack| ==> haystack[j] != needle
  {
    r := FindWithinIndices(haystack, needle, Range(start, |haystack|));
    ScanForward(haystack, needle, start);
  }

  /** `find_index_backwards`: the last index before `start` whose element is
      the needle. */
  method FindIndexBackwards<T(==)>(haystack: seq<T>, needle: T, start: nat) returns (r: Option<nat>)
    ensures r == Scan(haystack, needle, RevRange(start))
    ensures r.Some? ==> r.value < start && haystack[r.value] == needle
    ensures r.Some? ==> forall j :: r.value < j < start ==> haystack[j] != needle
    ensures start <= |haystack| && r.None? ==> forall j :: 0 <= j < start ==> haystack[j] != needle
    ensures start > |haystack| ==> r == None
  {
    r := FindWithinIndices(haystack, needle, RevRange(start));
    ScanBackward(haystack, needle, start);
  }
}
