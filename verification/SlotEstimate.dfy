/**
 How far the estimate can be trusted: with a minority of bad reports, over a feed that
 moves forward, and after any history at all.  The thresholds are exact.
 */
module SlotEstimate {
  import opened SlotWindow

  // ----- counting in a sorted window

  lemma SubsetSize(a: multiset<nat>, b: multiset<nat>)
    requires a <= b
    ensures |a| <= |b|
  {
    assert b == a + (b - a);
  }

  /** More reports than there are entries before index `m`: one of them is not below the entry at `m`. */
  lemma SomeReportNotBelow(s: seq<nat>, reports: multiset<nat>, m: nat)
    requires Sorted(s) && reports <= multiset(s) && m < |s| && |reports| > m
    ensures exists h :: h in reports && h >= s[m]
  {
    if forall h | h in reports :: h < s[m] {
      assert s == s[..m] + s[m..];
      forall h | h in reports
        ensures reports[h] <= multiset(s[..m])[h]
      {
        assert h !in s[m..];
      }
      SubsetSize(reports, multiset(s[..m]));
    }
  }

  /** More reports than there are entries after index `m`: one of them is not above the entry at `m`. */
  lemma SomeReportNotAbove(s: seq<nat>, reports: multiset<nat>, m: nat)
    requires Sorted(s) && reports <= multiset(s) && m < |s| && |reports| > |s| - 1 - m
    ensures exists h :: h in reports && h <= s[m]
  {
    if forall h | h in reports :: h > s[m] {
      assert s == s[..m + 1] + s[m + 1..];
      assert forall i | 0 <= i <= m :: s[i] <= s[m];
      forall h | h in reports
        ensures reports[h] <= multiset(s[m + 1..])[h]
      {
        assert h !in s[..m + 1];
      }
      SubsetSize(reports, multiset(s[m + 1..]));
    }
  }

  // ----- misbehaving validators

  /**
   With at most half of the entries bad, and whatever the honest ones are, the estimate
   is at most the highest honest report plus a fixed distance.
   */
  lemma BadReportsCannotDragUp(w: seq<nat>, honest: multiset<nat>, maxHonest: nat)
    requires w != [] && honest <= multiset(w) && |w| - |honest| <= |w| / 2
    requires forall h | h in honest :: h <= maxHonest
    ensures Estimate(w) <= maxHonest + |w| / 2 + 48
  {
    SortSorts(w);
    SomeReportNotBelow(Sort(w), honest, MedianIndex(|w|));
    var h :| h in honest && h >= Median(w);
    EstimateWithin(w);
  }

  lemma HonestMedianFloor(w: seq<nat>, honest: multiset<nat>, minHonest: nat)
    requires w != [] && honest <= multiset(w) && |w| - |honest| <= (|w| - 1) / 2
    requires forall h | h in honest :: minHonest <= h
    ensures minHonest + |w| / 2 + MAX_SLOT_SKIP_DISTANCE <= MaxReasonable(w)
  {
    SortSorts(w);
    SomeReportNotAbove(Sort(w), honest, MedianIndex(|w|));
    var h :| h in honest && h <= Median(w);
  }

  /**
   With fewer bad entries than good ones, and the honest reports not too far apart, the
   estimate is not below any honest report.
   */
  lemma BadReportsCannotDragDown(w: seq<nat>, honest: multiset<nat>, minHonest: nat, maxHonest: nat)
    requires w != [] && honest <= multiset(w) && |w| - |honest| <= (|w| - 1) / 2
    requires forall h | h in honest :: minHonest <= h <= maxHonest
    requires maxHonest in honest && maxHonest - minHonest <= |w| / 2 + 48
    ensures maxHonest <= Estimate(w)
  {
    HonestMedianFloor(w, honest, minHonest);
    assert maxHonest in multiset(w);
    EstimateAtLeast(w, maxHonest);
  }

  /** `low` entries of one value and then `high` entries of another, not smaller. */
  function Split(low: nat, a: nat, high: nat, b: nat): (w: seq<nat>)
    requires a <= b
    ensures |w| == low + high && Sorted(w)
    ensures forall k | 0 <= k < |w| :: w[k] == if k < low then a else b
  {
    seq(low + high, k => if k < low then a else b)
  }

  lemma {:induction false} HighEntries(low: nat, a: nat, high: nat, b: nat)
    requires a < b
    ensures multiset(Split(low, a, high, b))[b] == high
    ensures multiset(Split(low, a, high, b))[a] == low
    decreases low + high
  {
    var w := Split(low, a, high, b);
    if high > 0 {
      HighEntries(low, a, high - 1, b);
      assert w == Split(low, a, high - 1, b) + [b];
    } else if low > 0 {
      HighEntries(low - 1, a, 0, b);
      assert w == Split(low - 1, a, 0, b) + [a];
    } else {
      assert w == [];
    }
  }

  /** One bad entry more, all low, and the estimate is below every honest report, in windows of every size. */
  lemma OneMoreDragsDown(n: nat) returns (w: seq<nat>, honest: multiset<nat>, report: nat)
    requires n >= 2
    ensures |w| == n && honest <= multiset(w) && |w| - |honest| == (n - 1) / 2 + 1
    ensures report in honest && forall h | h in honest :: h == report
    ensures Estimate(w) < report
  {
    var bad := (n - 1) / 2 + 1;
    report := n / 2 + MAX_SLOT_SKIP_DISTANCE + 1;
    w := Split(bad, 0, n - bad, report);
    HighEntries(bad, 0, n - bad, report);
    honest := multiset{}[report := n - bad];
    assert |honest| == n - bad;
    MaxReasonableOfSorted(w);
    EstimateWithin(w);
  }

  /** With no bad entry at all, reports one slot further apart put the estimate below one of them. */
  lemma OneMoreSlotOfSpread(n: nat) returns (w: seq<nat>, high: nat)
    requires n >= 2
    ensures |w| == n && high == n / 2 + 49
    ensures 0 in w && high in w && forall x | x in w :: x <= high
    ensures Estimate(w) < high
  {
    var low := (n - 1) / 2 + 1;
    high := n / 2 + MAX_SLOT_SKIP_DISTANCE + 1;
    w := Split(low, 0, n - low, high);
    MaxReasonableOfSorted(w);
    EstimateWithin(w);
    assert w[0] == 0 && w[n - 1] == high;
  }

  /** One bad entry more than half, all high, and the estimate is theirs, however high. */
  lemma OneMoreDragsUp(n: nat, target: nat) returns (w: seq<nat>, honest: multiset<nat>)
    requires n >= 3 && target > 0
    ensures |w| == n && honest <= multiset(w) && |w| - |honest| == n / 2 + 1
    ensures 0 in honest && forall h | h in honest :: h == 0
    ensures Estimate(w) == target
  {
    var bad := n / 2 + 1;
    w := Split(n - bad, 0, bad, target);
    HighEntries(n - bad, 0, bad, target);
    honest := multiset{}[0 := n - bad];
    assert |honest| == n - bad;
    MaxReasonableOfSorted(w);
    assert w[n - 1] == target;
    EstimateAtLeast(w, target);
    EstimateWithin(w);
  }

  // ----- a feed that moves forward

  lemma ForwardBound(w: seq<nat>, slot: nat)
    requires w != [] && |w| <= WINDOW && Sorted(w + [slot])
    ensures Sorted(w) && Sorted(Record(w, slot))
    ensures MaxReasonable(w) <= MaxReasonable(Record(w, slot))
  {
    var pushed, w' := w + [slot], Record(w, slot);
    assert forall i | 0 <= i < |w| :: w[i] == pushed[i];
    assert |w| == WINDOW ==> forall i | 0 <= i < |w'| :: w'[i] == pushed[i + 1];
    MaxReasonableOfSorted(w);
    MaxReasonableOfSorted(w');
  }

  /** Every slot of the window is still there after the record, or one that replaces it is no lower. */
  lemma ForwardStays(w: seq<nat>, slot: nat, x: nat)
    requires w != [] && |w| <= WINDOW && Sorted(w + [slot])
    requires x in w && w[MedianIndex(|w|)] <= x
    ensures x in Record(w, slot)
  {
    var pushed, w' := w + [slot], Record(w, slot);
    var i :| 0 <= i < |w| && w[i] == x;
    if |w| < WINDOW {
      assert w'[i] == x;
    } else if i > 0 {
      assert w'[i - 1] == x;
    } else {
      assert pushed[0] == w[0] && pushed[1] == w[1] && pushed[MedianIndex(WINDOW)] == w[MedianIndex(WINDOW)];
      assert w'[0] == w[1] == x;
    }
  }

  lemma ForwardStep(w: seq<nat>, slot: nat)
    requires w != [] && |w| <= WINDOW && Sorted(w + [slot])
    ensures Estimate(w) <= Estimate(Record(w, slot))
  {
    ForwardBound(w, slot);
    MaxReasonableOfSorted(w);
    EstimateWithin(w);
    EstimateAtLeast(w, w[MedianIndex(|w|)]);
    ForwardStays(w, slot, Estimate(w));
    EstimateAtLeast(Record(w, slot), Estimate(w));
  }

  /** If the recorded slots never decrease, neither does the estimate, at any two moments of the feed. */
  lemma {:induction false} ForwardFeedForwardEstimate(start: nat, feed: seq<nat>, i: nat, j: nat)
    requires Sorted([start] + feed) && i <= j <= |feed|
    ensures RecordAll([start], feed[..i]) != [] && RecordAll([start], feed[..j]) != []
    ensures Estimate(RecordAll([start], feed[..i])) <= Estimate(RecordAll([start], feed[..j]))
    decreases j - i
  {
    if i < j {
      ForwardFeedForwardEstimate(start, feed, i, j - 1);
      ForwardRecord(start, feed, j - 1);
    } else {
      WindowIsRecentHistory(start, feed[..i]);
    }
  }

  lemma ForwardRecord(start: nat, feed: seq<nat>, j: nat)
    requires Sorted([start] + feed) && j < |feed|
    ensures RecordAll([start], feed[..j]) != [] && RecordAll([start], feed[..j + 1]) != []
    ensures Estimate(RecordAll([start], feed[..j])) <= Estimate(RecordAll([start], feed[..j + 1]))
  {
    WindowIsRecentHistory(start, feed[..j]);
    var w := RecordAll([start], feed[..j]);
    assert feed[..j + 1][..j] == feed[..j];
    var whole, history := [start] + feed, [start] + feed[..j];
    var first := |history| - |w|;
    assert w == history[first..];
    assert Sorted(w + [feed[j]]) by {
      assert forall k | 0 <= k <= |w| :: (w + [feed[j]])[k] == whole[first + k];
    }
    ForwardStep(w, feed[j]);
  }

  // ----- recovery

  const QUORUM: nat := 7
  const MIN_SPREAD: nat := 52

  /**
   Whatever was recorded before, seven consecutive records not too far apart put the
   estimate at or a little above the highest of them.
   */
  lemma SevenRecordsRestoreTheEstimate(start: nat, feed: seq<nat>, low: nat, high: nat)
    requires |feed| >= 7
    requires var recent := feed[|feed| - 7..];
             high in recent && forall x | x in recent :: low <= x <= high
    requires high - low <= 52
    ensures RecordAll([start], feed) != []
    ensures high <= Estimate(RecordAll([start], feed)) <= high + 54
  {
    var recent := feed[|feed| - QUORUM..];
    QuorumInWindow(start, feed);
    QuorumDecides(RecordAll([start], feed), recent, low, high);
  }

  /** None of seven such records is above the estimate. */
  lemma NoneOfSevenIsAhead(start: nat, earlier: seq<nat>, recent: seq<nat>, low: nat, i: nat)
    requires |recent| == QUORUM && i < QUORUM
    requires forall j | 0 <= j < QUORUM :: low <= recent[j] <= low + MIN_SPREAD
    ensures RecordAll([start], earlier + recent) != []
    ensures recent[i] <= Estimate(RecordAll([start], earlier + recent))
  {
    var feed := earlier + recent;
    var high := Highest(recent);
    assert recent[i] in recent && feed[|feed| - QUORUM..] == recent;
    SevenRecordsRestoreTheEstimate(start, feed, low, high);
  }

  lemma {:induction false} Highest(s: seq<nat>) returns (high: nat)
    requires s != []
    ensures high in s && forall x | x in s :: x <= high
  {
    high := s[0];
    if |s| > 1 {
      var rest := Highest(s[1..]);
      high := if rest > s[0] then rest else s[0];
      assert s == [s[0]] + s[1..];
    }
  }

  lemma QuorumInWindow(start: nat, feed: seq<nat>)
    requires |feed| >= QUORUM
    ensures var w := RecordAll([start], feed);
            QUORUM < |w| <= WINDOW && w[|w| - QUORUM..] == feed[|feed| - QUORUM..]
  {
    WindowIsRecentHistory(start, feed);
    LastOfLast([start] + feed, WINDOW, QUORUM);
    TailOfConcat([start], feed, QUORUM);
  }

  lemma TailOfConcat(a: seq<nat>, b: seq<nat>, k: nat)
    requires k <= |b|
    ensures (a + b)[|a + b| - k..] == b[|b| - k..]
  {
  }

  lemma LastOfLast(s: seq<nat>, n: nat, k: nat)
    requires k <= n && k <= |s|
    ensures k <= |Last(s, n)| && Last(s, n)[|Last(s, n)| - k..] == s[|s| - k..]
  {
  }

  lemma QuorumDecides(w: seq<nat>, recent: seq<nat>, low: nat, high: nat)
    requires |recent| == QUORUM < |w| <= WINDOW && w[|w| - QUORUM..] == recent
    requires high in recent && (forall x | x in recent :: low <= x <= high) && high - low <= MIN_SPREAD
    ensures high <= Estimate(w) <= high + 54
  {
    assert w == w[..|w| - QUORUM] + recent;
    var honest := multiset(recent);
    assert forall h | h in honest :: h in recent;
    BadReportsCannotDragUp(w, honest, high);
    BadReportsCannotDragDown(w, honest, low, high);
  }
}
