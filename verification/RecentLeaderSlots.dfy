/** `RecentLeaderSlots` in its own form: the deque, and the estimate with its sort in place. */
module RecentLeaderSlots {
  import opened SlotWindow

  /** Where `Insert` puts `x`: after `s[j - 1]`, which does not exceed it, and before the rest, which does. */
  lemma {:induction false} InsertAt(s: seq<nat>, x: nat, j: nat)
    requires j <= |s| && (j > 0 ==> s[j - 1] <= x)
    requires forall k | j <= k < |s| :: s[k] > x
    ensures Insert(s, x) == s[..j] + [x] + s[j..]
  {
    var n := |s| - 1;
    if j < |s| {
      InsertAt(s[..n], x, j);
      assert s[..n][..j] == s[..j] && s[..n][j..] + [s[n]] == s[j..];
    } else {
      assert s[..j] == s && s[j..] == [];
    }
  }

  /** Moves `a[i]` down to its place among the sorted elements before it. */
  method InsertInPlace(a: array<nat>, i: nat)
    requires i < a.Length
    modifies a
    ensures a[..] == Insert(old(a[..i]), old(a[i])) + old(a[i + 1..])
  {
    ghost var before, rest := a[..i], a[i + 1..];
    var x := a[i];
    var j := i;
    while j > 0 && a[j - 1] > x
      invariant j <= i
      invariant forall k | 0 <= k < j :: a[k] == before[k]
      invariant a[j] == x
      invariant forall k | j < k <= i :: a[k] == before[k - 1] > x
      invariant forall k | i < k < a.Length :: a[k] == rest[k - i - 1]
    {
      a[j], a[j - 1] := a[j - 1], a[j];
      j := j - 1;
    }
    assert forall k | j <= k < i :: before[k] == a[k + 1];
    InsertAt(before, x, j);
    assert a[..] == before[..j] + [x] + before[j..] + rest;
  }

  lemma SortLength(w: seq<nat>)
    ensures |Sort(w)| == |w|
  {
    SortSorts(w);
  }

  /** `sort_unstable`: the code sorts with a library call; here it is an insertion sort. */
  method SortInPlace(a: array<nat>)
    modifies a
    ensures a[..] == Sort(old(a[..]))
  {
    ghost var before := a[..];
    var i := 0;
    while i < a.Length
      invariant i <= a.Length
      invariant a[..] == Sort(before[..i]) + before[i..]
    {
      SortLength(before[..i]);
      assert a[..i] == Sort(before[..i]) && a[i] == before[i] && a[i + 1..] == before[i + 1..];
      InsertInPlace(a, i);
      assert before[..i + 1][..i] == before[..i];
      i := i + 1;
    }
    assert before[..a.Length] == before;
    assert a[..] == Sort(before) + [];
  }

  lemma {:induction false} LastWithinPrefix(s: seq<nat>, bound: nat, i: nat)
    requires i < |s| && s[0] <= bound && s[i] <= bound && forall k | i < k < |s| :: s[k] > bound
    ensures LastWithin(s, bound) == s[i]
  {
    if i < |s| - 1 {
      LastWithinPrefix(s[..|s| - 1], bound, i);
    }
  }

  lemma EstimateAt(w: seq<nat>, s: seq<nat>, i: nat)
    requires w != [] && s == Sort(w) && |s| == |w| && i < |s|
    requires s[i] <= s[MedianIndex(|w|)] + (|w| - 1 - MedianIndex(|w|)) + MAX_SLOT_SKIP_DISTANCE
    requires forall k | i < k < |s| ::
               s[k] > s[MedianIndex(|w|)] + (|w| - 1 - MedianIndex(|w|)) + MAX_SLOT_SKIP_DISTANCE
    ensures Estimate(w) == s[i]
  {
    LeastIsWithin(w);
    LastWithinPrefix(s, MaxReasonable(w), i);
  }

  class RecentLeaderSlots {
    var slots: seq<nat>

    constructor (currentSlot: nat)
      ensures slots == [currentSlot]
    {
      slots := [currentSlot];
    }

    method RecordSlot(currentSlot: nat)
      modifies this
      ensures slots == Record(old(slots), currentSlot)
    {
      slots := slots + [currentSlot];
      ghost var pushed := slots;
      while |slots| > WINDOW
        invariant |slots| <= |pushed| && slots == pushed[|pushed| - |slots|..]
        invariant |pushed| >= WINDOW ==> |slots| >= WINDOW
        invariant |pushed| < WINDOW ==> slots == pushed
      {
        slots := slots[1..];
      }
    }

    /** The copy the estimate is taken from, sorted. */
    method SortedCopy() returns (recent: array<nat>)
      ensures fresh(recent) && recent[..] == Sort(slots)
    {
      var copy := slots;
      recent := new nat[|copy|](i requires 0 <= i < |copy| => copy[i]);
      assert recent[..] == copy;
      SortInPlace(recent);
    }

    /** The code asserts that the deque is not empty; it never is after the constructor. */
    method EstimatedCurrentSlot() returns (slot: nat)
      requires slots != []
      ensures slot == Estimate(slots)
    {
      var sorted := SortedCopy();
      var recent := sorted[..];
      SortLength(slots);
      var maxIndex := |recent| - 1;
      var medianIndex := maxIndex / 2;
      var medianRecentSlot := recent[medianIndex];
      var expectedCurrentSlot := medianRecentSlot + (maxIndex - medianIndex);
      var maxReasonableCurrentSlot := expectedCurrentSlot + MAX_SLOT_SKIP_DISTANCE;
      var i := maxIndex;
      while recent[i] > maxReasonableCurrentSlot
        invariant medianIndex <= i <= maxIndex
        invariant forall k | i < k < |recent| :: recent[k] > maxReasonableCurrentSlot
        decreases i
      {
        i := i - 1;
      }
      EstimateAt(slots, recent, i);
      return recent[i];
    }
  }
}
