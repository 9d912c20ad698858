/**
 The window of recent slots and the estimate taken from it, as functions: sorting, the
 median, the bound, the choice.
 */
module SlotWindow {

  const WINDOW: nat := 12
  const MAX_SLOT_SKIP_DISTANCE: nat := 48

  // ----- sorting

  ghost predicate Sorted(s: seq<nat>) {
    forall i, j | 0 <= i < j < |s| :: s[i] <= s[j]
  }

  /** `x` put after the elements of `s` that do not exceed it. */
  function Insert(s: seq<nat>, x: nat): seq<nat> {
    if s == [] || s[|s| - 1] <= x then s + [x]
    else Insert(s[..|s| - 1], x) + [s[|s| - 1]]
  }

  function Sort(s: seq<nat>): seq<nat> {
    if s == [] then [] else Insert(Sort(s[..|s| - 1]), s[|s| - 1])
  }

  lemma {:induction false} InsertBounded(s: seq<nat>, x: nat, bound: nat)
    requires x <= bound && forall k | 0 <= k < |s| :: s[k] <= bound
    ensures |Insert(s, x)| == |s| + 1
    ensures forall k | 0 <= k <= |s| :: Insert(s, x)[k] <= bound
  {
    if !(s == [] || s[|s| - 1] <= x) {
      InsertBounded(s[..|s| - 1], x, bound);
    }
  }

  lemma {:induction false} InsertSame(s: seq<nat>, x: nat)
    ensures multiset(Insert(s, x)) == multiset(s) + multiset{x}
  {
    if !(s == [] || s[|s| - 1] <= x) {
      InsertSame(s[..|s| - 1], x);
      assert s == s[..|s| - 1] + [s[|s| - 1]];
    }
  }

  lemma {:induction false} InsertIsSorted(s: seq<nat>, x: nat)
    requires Sorted(s)
    ensures Sorted(Insert(s, x))
  {
    if !(s == [] || s[|s| - 1] <= x) {
      InsertIsSorted(s[..|s| - 1], x);
      InsertBounded(s[..|s| - 1], x, s[|s| - 1]);
    }
  }

  lemma {:induction false} SortSorts(s: seq<nat>)
    ensures Sorted(Sort(s)) && multiset(Sort(s)) == multiset(s) && |Sort(s)| == |s|
  {
    assert |Sort(s)| == |multiset(Sort(s))| && |s| == |multiset(s)|;
    if s != [] {
      SortSorts(s[..|s| - 1]);
      InsertIsSorted(Sort(s[..|s| - 1]), s[|s| - 1]);
      InsertSame(Sort(s[..|s| - 1]), s[|s| - 1]);
      assert s == s[..|s| - 1] + [s[|s| - 1]];
    }
  }

  lemma SortedFront(s: seq<nat>)
    requires Sorted(s) && s != []
    ensures var front := s[..|s| - 1];
            Sorted(front) && s == front + [s[|s| - 1]] && (front != [] ==> front[|front| - 1] <= s[|s| - 1])
  {
  }

  lemma {:induction false} SortOfSorted(s: seq<nat>)
    requires Sorted(s)
    ensures Sort(s) == s
  {
    if s != [] {
      SortedFront(s);
      SortOfSorted(s[..|s| - 1]);
    }
  }

  lemma InSorted(s: seq<nat>, x: nat)
    ensures x in s <==> x in Sort(s)
  {
    SortSorts(s);
    assert x in s <==> x in multiset(s);
    assert x in Sort(s) <==> x in multiset(Sort(s));
  }

  // ----- the estimate

  function MedianIndex(n: nat): nat
    requires n > 0
  {
    (n - 1) / 2
  }

  function Median(w: seq<nat>): nat
    requires w != []
  {
    SortSorts(w);
    Sort(w)[MedianIndex(|w|)]
  }

  /** The highest slot that is in line with the recent progression. */
  function MaxReasonable(w: seq<nat>): nat
    requires w != []
  {
    Median(w) + (|w| - 1 - MedianIndex(|w|)) + MAX_SLOT_SKIP_DISTANCE
  }

  /** The last element of `s` that does not exceed `bound`. */
  function LastWithin(s: seq<nat>, bound: nat): nat
    requires s != [] && s[0] <= bound
  {
    if s[|s| - 1] <= bound then s[|s| - 1] else LastWithin(s[..|s| - 1], bound)
  }

  lemma LeastIsWithin(w: seq<nat>)
    requires w != []
    ensures |Sort(w)| == |w| && Sort(w)[0] <= MaxReasonable(w)
  {
    SortSorts(w);
  }

  function Estimate(w: seq<nat>): nat
    requires w != []
  {
    LeastIsWithin(w);
    LastWithin(Sort(w), MaxReasonable(w))
  }

  lemma {:induction false} LastWithinIsMax(s: seq<nat>, bound: nat)
    requires Sorted(s) && s != [] && s[0] <= bound
    ensures LastWithin(s, bound) in s && LastWithin(s, bound) <= bound
    ensures forall x | x in s && x <= bound :: x <= LastWithin(s, bound)
  {
    var front := s[..|s| - 1];
    assert s == front + [s[|s| - 1]];
    if s[|s| - 1] > bound {
      LastWithinIsMax(front, bound);
    }
  }

  /** The estimate without reference to any order: the greatest recorded slot within the bound. */
  lemma EstimateIsGreatestWithin(w: seq<nat>)
    requires w != []
    ensures MaxReasonable(w) == Median(w) + |w| / 2 + 48
    ensures Estimate(w) in w && Estimate(w) <= MaxReasonable(w)
    ensures forall x | x in w && x <= MaxReasonable(w) :: x <= Estimate(w)
  {
    LeastIsWithin(w);
    SortSorts(w);
    LastWithinIsMax(Sort(w), MaxReasonable(w));
    InSorted(w, Estimate(w));
    forall x | x in w && x <= MaxReasonable(w)
      ensures x <= Estimate(w)
    {
      InSorted(w, x);
    }
  }

  lemma EstimateAtLeast(w: seq<nat>, x: nat)
    requires w != [] && x in w && x <= MaxReasonable(w)
    ensures x <= Estimate(w)
  {
    EstimateIsGreatestWithin(w);
  }

  lemma EstimateWithin(w: seq<nat>)
    requires w != []
    ensures Estimate(w) in w && Estimate(w) <= MaxReasonable(w)
  {
    EstimateIsGreatestWithin(w);
  }

  lemma MaxReasonableOfSorted(w: seq<nat>)
    requires w != [] && Sorted(w)
    ensures MaxReasonable(w) == w[MedianIndex(|w|)] + |w| / 2 + MAX_SLOT_SKIP_DISTANCE
  {
    SortOfSorted(w);
  }

  // ----- the window

  /** `record_slot`: the slot goes in at the back; what is more than the window falls off the front. */
  function Record(w: seq<nat>, slot: nat): seq<nat> {
    Last(w + [slot], WINDOW)
  }

  /** The last `n` elements. */
  function Last<T>(s: seq<T>, n: nat): seq<T> {
    if |s| <= n then s else s[|s| - n..]
  }

  /** The window after starting at `w` and recording `feed`. */
  function RecordAll(w: seq<nat>, feed: seq<nat>): seq<nat> {
    if feed == [] then w else Record(RecordAll(w, feed[..|feed| - 1]), feed[|feed| - 1])
  }

  /** After any feed the window is the last twelve of the start slot and the records. */
  lemma {:induction false} WindowIsRecentHistory(start: nat, feed: seq<nat>)
    ensures RecordAll([start], feed) == Last([start] + feed, 12)
    ensures RecordAll([start], feed) != []
  {
    if feed != [] {
      var front := feed[..|feed| - 1];
      WindowIsRecentHistory(start, front);
      assert [start] + feed == ([start] + front) + [feed[|feed| - 1]];
    }
  }

  /** So many, and entry by entry: a record, or the start slot as long as that is still in the window. */
  lemma {:induction false} WindowContents(start: nat, feed: seq<nat>)
    ensures var w := RecordAll([start], feed);
            && |w| == (if |feed| < 11 then |feed| + 1 else 12)
            && forall k | 0 <= k < |w| ::
                 w[k] == if k + |feed| == |w| - 1 then start else feed[|feed| - |w| + k]
  {
    WindowIsRecentHistory(start, feed);
  }
}
