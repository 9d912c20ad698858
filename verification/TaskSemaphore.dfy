/**
 `AsyncTaskSemaphore`: a counter under a mutex with a condition variable.  `acquire`
 counts the caller before it waits, so the counter includes the callers that are
 blocked.  This module gives the exact consequence: the semaphore keeps its bound
 always, and it serves the blocked callers exactly as long as there are no more of
 them than permits.
 */
module TaskSemaphore {

  /**
   `counter` and `permits` are the fields of the code.  The rest is where the callers
   are: `admitted` tasks returned from `acquire` and not released, `waiting` callers
   asleep on the condition variable, `woken` callers that have left it but not yet
   tested the counter again.
   */
  datatype Semaphore = Semaphore(permits: nat, counter: int, admitted: nat, woken: nat, waiting: nat)

  /**
   `Acquire`: a new caller counts itself and is admitted or falls asleep.  `Release`: an
   admitted task counts itself out and notifies one waiter.  `Wake`: a woken caller
   tests the counter again.  `SpuriousWake`: a waiter wakes without being notified.
   */
  datatype Step = Acquire | Release | Wake | SpuriousWake

  function New(permits: nat): Semaphore {
    Semaphore(permits, 0, 0, 0, 0)
  }

  predicate Enabled(s: Semaphore, e: Step) {
    match e
    case Acquire => true
    case Release => s.admitted > 0
    case Wake => s.woken > 0
    case SpuriousWake => s.waiting > 0
  }

  function Apply(s: Semaphore, e: Step): Semaphore
    requires Enabled(s, e)
  {
    match e
    case Acquire =>
      var s' := s.(counter := s.counter + 1);
      if s'.counter > s.permits then s'.(waiting := s.waiting + 1) else s'.(admitted := s.admitted + 1)
    case Release =>
      var s' := s.(counter := s.counter - 1, admitted := s.admitted - 1);
      if s.waiting > 0 then s'.(waiting := s.waiting - 1, woken := s.woken + 1) else s'
    case Wake =>
      var s' := s.(woken := s.woken - 1);
      if s.counter > s.permits then s'.(waiting := s.waiting + 1) else s'.(admitted := s.admitted + 1)
    case SpuriousWake =>
      s.(waiting := s.waiting - 1, woken := s.woken + 1)
  }

  predicate Legal(s: Semaphore, es: seq<Step>)
    decreases |es|
  {
    es == [] || (Enabled(s, es[0]) && Legal(Apply(s, es[0]), es[1..]))
  }

  function Run(s: Semaphore, es: seq<Step>): Semaphore
    requires Legal(s, es)
    decreases |es|
  {
    if es == [] then s else Run(Apply(s, es[0]), es[1..])
  }

  lemma {:induction false} RunAppend(s: Semaphore, es: seq<Step>, fs: seq<Step>)
    requires Legal(s, es) && Legal(Run(s, es), fs)
    ensures Legal(s, es + fs) && Run(s, es + fs) == Run(Run(s, es), fs)
    decreases |es|
  {
    if es == [] {
      assert es + fs == fs;
    } else {
      assert (es + fs)[0] == es[0] && (es + fs)[1..] == es[1..] + fs;
      RunAppend(Apply(s, es[0]), es[1..], fs);
    }
  }

  lemma RunSnoc(s: Semaphore, es: seq<Step>, e: Step)
    requires Legal(s, es) && Enabled(Run(s, es), e)
    ensures Legal(s, es + [e]) && Run(s, es + [e]) == Apply(Run(s, es), e)
  {
    assert [e][1..] == [];
    RunAppend(s, es, [e]);
  }

  // ----- safety

  function Blocked(s: Semaphore): nat {
    s.woken + s.waiting
  }

  ghost predicate Inv(s: Semaphore) {
    && s.counter == s.admitted + s.woken + s.waiting
    && s.admitted <= s.permits
    // a sleeper is somebody's to wake, or too many callers are counted
    && (s.waiting > 0 ==> s.admitted > 0 || s.woken > 0 || s.counter > s.permits)
  }

  /**
   In every state of every run the counter counts exactly the admitted and the blocked,
   no more tasks are admitted than permits, and no release takes the counter below zero.
   */
  lemma {:induction false} SafeForever(s: Semaphore, es: seq<Step>)
    requires Inv(s) && Legal(s, es)
    ensures Inv(Run(s, es)) && Run(s, es).permits == s.permits
    ensures Run(s, es).admitted > 0 ==> Run(s, es).counter > 0
    decreases |es|
  {
    if es != [] {
      SafeForever(Apply(s, es[0]), es[1..]);
    }
  }

  // ----- what each kind of step does, without reference to the steps

  /** `k` copies of a step. */
  function Times(e: Step, k: nat): (es: seq<Step>)
    ensures |es| == k
  {
    if k == 0 then [] else [e] + Times(e, k - 1)
  }

  /** No wake-up is lost: of `k` releases in a row each wakes a waiter as long as there is one. */
  lemma {:induction false} ReleasesInARow(s: Semaphore, k: nat)
    requires Inv(s) && k <= s.admitted
    ensures Legal(s, Times(Release, k))
    ensures var t := Run(s, Times(Release, k));
            var notified := if k <= s.waiting then k else s.waiting;
            && t.permits == s.permits && t.counter == s.counter - k && t.admitted == s.admitted - k
            && t.woken == s.woken + notified && t.waiting == s.waiting - notified
    decreases k
  {
    if k > 0 {
      assert Times(Release, k)[1..] == Times(Release, k - 1);
      ReleasesInARow(Apply(s, Release), k - 1);
    }
  }

  /** Of `k` callers that arrive as many are admitted as the counter leaves room for; the others sleep. */
  lemma {:induction false} AcquiresInARow(s: Semaphore, k: nat)
    requires Inv(s)
    ensures Legal(s, Times(Acquire, k))
    ensures var t := Run(s, Times(Acquire, k));
            var room := if s.counter + k <= s.permits then k
                        else if s.counter <= s.permits then s.permits - s.counter else 0;
            && t.permits == s.permits && t.counter == s.counter + k && t.woken == s.woken
            && t.admitted == s.admitted + room && t.waiting == s.waiting + k - room
    decreases k
  {
    if k > 0 {
      assert Times(Acquire, k)[1..] == Times(Acquire, k - 1);
      AcquiresInARow(Apply(s, Acquire), k - 1);
    }
  }

  /** Woken callers are all admitted if the counter does not exceed the permits, and all sleep again if it does. */
  lemma {:induction false} WakesInARow(s: Semaphore, k: nat)
    requires Inv(s) && k <= s.woken
    ensures Legal(s, Times(Wake, k))
    ensures var t := Run(s, Times(Wake, k));
            && t.permits == s.permits && t.counter == s.counter && t.woken == s.woken - k
            && t.admitted == s.admitted + (if s.counter <= s.permits then k else 0)
            && t.waiting == s.waiting + (if s.counter <= s.permits then 0 else k)
    decreases k
  {
    if k > 0 {
      assert Times(Wake, k)[1..] == Times(Wake, k - 1);
      WakesInARow(Apply(s, Wake), k - 1);
    }
  }

  /** Adding a step to a run. */
  lemma StepOn(s: Semaphore, es: seq<Step>, t: Semaphore, e: Step)
    requires Legal(s, es) && Run(s, es) == t && Inv(t) && Enabled(t, e)
    ensures Legal(s, es + [e]) && Run(s, es + [e]) == Apply(t, e) && Inv(Apply(t, e))
  {
    RunSnoc(s, es, e);
  }

  // ----- starvation

  /**
   Once more callers are blocked than there are permits nobody is ever admitted again,
   whatever arrives, is released or wakes.
   */
  lemma {:induction false} StarvedForever(s: Semaphore, es: seq<Step>)
    requires Inv(s) && Legal(s, es) && Blocked(s) > s.permits
    ensures Blocked(Run(s, es)) >= Blocked(s)
    ensures Run(s, es).admitted <= s.admitted
    decreases |es|
  {
    if es != [] {
      SafeForever(s, [es[0]]);
      StarvedForever(Apply(s, es[0]), es[1..]);
    }
  }

  /** Nobody admitted, nobody about to test the counter, somebody asleep. */
  predicate Dead(s: Semaphore) {
    s.admitted == 0 && s.woken == 0 && s.waiting > 0
  }

  /** A dead state is one with more callers blocked than permits, and it stays without an admitted task. */
  lemma DeadStaysDead(s: Semaphore, es: seq<Step>)
    requires Inv(s) && Legal(s, es) && Dead(s)
    ensures Blocked(s) > s.permits
    ensures Run(s, es).admitted == 0 && Blocked(Run(s, es)) > s.permits
  {
    StarvedForever(s, es);
  }

  // ----- draining

  predicate IsDrain(es: seq<Step>) {
    forall k | 0 <= k < |es| :: es[k] == Release || es[k] == Wake
  }

  /** No task left to release and no woken caller left to run. */
  predicate Quiet(s: Semaphore) {
    !Enabled(s, Release) && !Enabled(s, Wake)
  }

  /** Without arrivals a run of releases and wakes is finite, and it does not unblock more than the permits allow. */
  lemma {:induction false} DrainIsFinite(s: Semaphore, es: seq<Step>)
    requires Inv(s) && Legal(s, es) && IsDrain(es)
    ensures Inv(Run(s, es)) && Run(s, es).permits == s.permits
    ensures |es| <= 2 * s.counter + s.woken
    ensures Blocked(s) <= s.permits ==> Blocked(Run(s, es)) <= s.permits
    ensures Blocked(s) > s.permits ==> Blocked(Run(s, es)) == Blocked(s)
    decreases |es|
  {
    if es != [] {
      assert es[0] == Release || es[0] == Wake;
      assert Inv(Apply(s, es[0]));
      DrainIsFinite(Apply(s, es[0]), es[1..]);
    }
  }

  /**
   The exact condition.  When arrivals stop, letting tasks finish and woken callers run
   until nothing moves serves everybody, down to counter 0, if and only if no more
   callers were blocked than there are permits; otherwise all of those are left asleep.
   */
  lemma DrainsExactlyWhen(s: Semaphore, es: seq<Step>)
    requires Inv(s) && Legal(s, es) && IsDrain(es) && Quiet(Run(s, es))
    ensures Run(s, es).counter == 0 <==> Blocked(s) <= s.permits
    ensures Blocked(s) > s.permits ==> Dead(Run(s, es)) && Run(s, es).waiting == Blocked(s)
  {
    DrainIsFinite(s, es);
  }

  /** Such a run exists from every state. */
  lemma {:induction false} DrainExists(s: Semaphore) returns (es: seq<Step>)
    requires Inv(s)
    ensures Legal(s, es) && IsDrain(es) && Quiet(Run(s, es))
    decreases 2 * s.counter + s.woken
  {
    if Quiet(s) {
      es := [];
    } else {
      var e := if Enabled(s, Wake) then Wake else Release;
      assert Inv(Apply(s, e));
      var rest := DrainExists(Apply(s, e));
      es := [e] + rest;
    }
  }

  // ----- the bound on blocked callers is reached

  lemma {:induction false} ManyAcquires(s: Semaphore, n: nat) returns (es: seq<Step>)
    requires Inv(s) && s.woken == 0 && (s.waiting > 0 ==> s.counter > s.permits)
    ensures Legal(s, es) && |es| == n
    ensures forall k | 0 <= k < n :: es[k] == Acquire
    ensures var t := Run(s, es);
            && Inv(t) && t.permits == s.permits && t.woken == 0 && t.counter == s.counter + n
            && t.waiting == s.waiting + (if t.counter <= s.permits then 0
                                         else if s.counter <= s.permits then t.counter - s.permits else n)
    decreases n
  {
    if n == 0 {
      es := [];
    } else {
      var t := Apply(s, Acquire);
      var rest := ManyAcquires(t, n - 1);
      es := [Acquire] + rest;
    }
  }

  /** With `permits` tasks admitted and one caller more than that blocked, finishing the tasks leaves all those asleep. */
  lemma OneTooManyIsFatal(permits: nat) returns (arrivals: seq<Step>, es: seq<Step>)
    ensures |arrivals| == 2 * permits + 1 && forall k | 0 <= k < |arrivals| :: arrivals[k] == Acquire
    ensures Legal(New(permits), arrivals)
    ensures var full := Run(New(permits), arrivals);
            && full.admitted == permits && full.waiting == permits + 1
            && Legal(full, es) && IsDrain(es) && Dead(Run(full, es)) && Run(full, es).waiting == permits + 1
  {
    arrivals := ManyAcquires(New(permits), 2 * permits + 1);
    var full := Run(New(permits), arrivals);
    es := DrainExists(full);
    DrainsExactlyWhen(full, es);
  }
}
