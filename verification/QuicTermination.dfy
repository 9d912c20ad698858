/**
 Every call stops.  The reuse branch does not count as a try, so the loop bound alone
 proves nothing: the argument is over all calls at once.  Connections installed plus
 connects still allowed is a constant of the run, and no call uses a connection older
 than, or the same as, one that failed it.
 */
module QuicTermination {
  import opened QuicProtocol
  import opened QuicCalls

  // ----- sums over the calls

  function Sum(calls: seq<Call>, f: Call -> int): int {
    if calls == [] then 0 else Sum(calls[..|calls| - 1], f) + f(calls[|calls| - 1])
  }

  lemma {:induction false} SumUpdate(calls: seq<Call>, i: nat, c: Call, f: Call -> int)
    requires i < |calls|
    ensures Sum(calls[i := c], f) == Sum(calls, f) - f(calls[i]) + f(c)
  {
    var n := |calls| - 1;
    if i == n {
      assert calls[i := c][..n] == calls[..n];
    } else {
      assert calls[i := c][..n] == calls[..n][i := c];
      SumUpdate(calls[..n], i, c, f);
    }
  }

  lemma {:induction false} SumAtLeast(calls: seq<Call>, i: nat, f: Call -> int)
    requires i < |calls|
    requires forall j | 0 <= j < |calls| :: f(calls[j]) >= 0
    ensures Sum(calls, f) >= f(calls[i])
  {
    var n := |calls| - 1;
    SumNonNegative(calls[..n], f);
    if i < n {
      SumAtLeast(calls[..n], i, f);
    }
  }

  lemma {:induction false} SumNonNegative(calls: seq<Call>, f: Call -> int)
    requires forall j | 0 <= j < |calls| :: f(calls[j]) >= 0
    ensures Sum(calls, f) >= 0
  {
    if calls != [] {
      SumNonNegative(calls[..|calls| - 1], f);
    }
  }

  // ----- a conserved quantity

  function Credit(c: Call): int {
    MAX_CONNECTS - c.tryCount
  }

  /** Connections installed so far plus connects the calls may still make. */
  function Ceiling(s: System): int {
    |s.installed| + Sum(s.calls, Credit)
  }

  lemma CeilingConserved(s: System, e: Event)
    requires Enabled(s, e)
    ensures Ceiling(Apply(s, e)) == Ceiling(s)
  {
    var c' := Apply(s, e).calls[e.call];
    assert Apply(s, e).calls == s.calls[e.call := c'];
    SumUpdate(s.calls, e.call, c', Credit);
  }

  lemma CreditBound(s: System, i: nat)
    requires Inv(s) && i < |s.calls|
    ensures |s.installed| + Credit(s.calls[i]) <= Ceiling(s)
  {
    assert forall j | 0 <= j < |s.calls| :: CallInv(s.calls[j]);
    SumAtLeast(s.calls, i, Credit);
  }

  lemma InstalledBound(s: System)
    requires Inv(s)
    ensures |s.installed| <= Ceiling(s)
  {
    assert forall j | 0 <= j < |s.calls| :: CallInv(s.calls[j]);
    SumNonNegative(s.calls, Credit);
  }

  // ----- the measure

  /** No connection below this serial can be used by the call again. */
  function Floor(c: Call): nat {
    if c.phase.Sending? then c.phase.conn.serial + 1
    else if c.log == [] then 0
    else c.log[|c.log| - 1].conn.serial + 1
  }

  function Rank(c: Call, ceiling: int): int {
    match c.phase
    case Looping => 3 * (ceiling - Floor(c)) + 2 + |c.buffers|
    case Holding => 3 * (ceiling - Floor(c)) + 1 + |c.buffers|
    case Sending(_) => 3 * (ceiling - Floor(c)) + 3 + |c.buffers|
    case Batching(_, k) => |c.buffers| - k
    case Returned(_) => 0
  }

  function RankAt(ceiling: int): Call -> int {
    c => Rank(c, ceiling)
  }

  function SystemRank(s: System): int {
    Sum(s.calls, RankAt(Ceiling(s)))
  }

  lemma RankNonNegative(s: System, i: nat)
    requires Inv(s) && i < |s.calls|
    ensures Rank(s.calls[i], Ceiling(s)) >= 0
    ensures s.calls[i].phase.Returned? || Rank(s.calls[i], Ceiling(s)) > 0
  {
    var c := s.calls[i];
    InstalledBound(s);
    assert CallInv(c) && Known(s, c);
    if c.log != [] {
      assert Installed(s, c.log[|c.log| - 1].conn);
    }
  }

  lemma SystemRankNonNegative(s: System)
    requires Inv(s)
    ensures SystemRank(s) >= 0
  {
    forall i | 0 <= i < |s.calls|
      ensures RankAt(Ceiling(s))(s.calls[i]) >= 0
    {
      RankNonNegative(s, i);
    }
    SumNonNegative(s.calls, RankAt(Ceiling(s)));
  }

  lemma UseDecreases(c: Call, c0: Call, conn: Connection, ceiling: int)
    requires c0.phase.Holding? && CallInv(c0)
    requires c.buffers == c0.buffers && Floor(c0) <= conn.serial < ceiling
    ensures Rank(Use(c, conn), ceiling) < Rank(c0, ceiling)
  {
  }

  lemma FloorBounds(s: System, c: Call)
    requires SlotInv(s) && Known(s, c) && CallInv(c) && c.phase.Holding?
    ensures Floor(c) <= |s.installed|
    ensures s.slot.Some? && !Connects(c, s.slot) ==> Floor(c) <= s.slot.value.serial < |s.installed|
  {
  }

  lemma SettleDecreases(s: System, i: nat, outcome: ConnectOutcome)
    requires Inv(s) && i < |s.calls| && s.calls[i].phase.Holding?
    ensures Rank(SettleCall(s.calls[i], s.slot, |s.installed|, outcome), Ceiling(s)) < Rank(s.calls[i], Ceiling(s))
  {
    var c := s.calls[i];
    CreditBound(s, i);
    RankNonNegative(s, i);
    assert CallInv(c);
    FloorBounds(s, c);
    if !Connects(c, s.slot) {
      UseDecreases(c.(reuses := c.reuses + 1), c, s.slot.value, Ceiling(s));
    } else if outcome.Connected? {
      UseDecreases(c.(tryCount := c.tryCount + 1), c, Connection(|s.installed|, outcome.stableId), Ceiling(s));
    }
  }

  lemma SendDecreases(c: Call, o: SendOutcome, ceiling: int)
    requires CallInv(c) && (c.phase.Sending? || c.phase.Batching?)
    requires c.phase.Sending? ==> c.phase.conn.serial < ceiling
    ensures Rank(SendCall(c, o), ceiling) < Rank(c, ceiling)
  {
  }

  /** A step is progress for the call that takes it. */
  lemma {:induction false} RankDecreases(s: System, e: Event)
    requires Inv(s) && Enabled(s, e)
    ensures Rank(Apply(s, e).calls[e.call], Ceiling(s)) < Rank(s.calls[e.call], Ceiling(s))
  {
    var c := s.calls[e.call];
    RankNonNegative(s, e.call);
    match e
    case Lock(_) =>
    case Settle(_, outcome) => SettleDecreases(s, e.call, outcome);
    case Send(_, o) =>
      InstalledBound(s);
      assert CallInv(c) && Known(s, c);
      SendDecreases(c, o, Ceiling(s));
    case Cancel(_) =>
  }

  lemma SystemRankDecreases(s: System, e: Event)
    requires Inv(s) && Enabled(s, e)
    ensures SystemRank(Apply(s, e)) < SystemRank(s)
  {
    var c' := Apply(s, e).calls[e.call];
    assert Apply(s, e).calls == s.calls[e.call := c'];
    SumUpdate(s.calls, e.call, c', RankAt(Ceiling(s)));
    CeilingConserved(s, e);
    RankDecreases(s, e);
  }

  // ----- main results

  /** No run is longer than the rank of its first state. */
  lemma {:induction false} RunsAreFinite(s: System, es: seq<Event>)
    requires Inv(s) && Legal(s, es)
    ensures |es| + SystemRank(Run(s, es)) <= SystemRank(s)
    ensures |es| <= SystemRank(s)
    ensures Ceiling(Run(s, es)) == Ceiling(s)
    decreases |es|
  {
    if es == [] {
      SystemRankNonNegative(s);
    } else {
      var t := Apply(s, es[0]);
      StepInv(s, es[0]);
      SystemRankDecreases(s, es[0]);
      CeilingConserved(s, es[0]);
      RunsAreFinite(t, es[1..]);
    }
  }

  /** The connections in the slot at the start plus two for each call. */
  function Connections(s: System): nat {
    2 * |s.calls| + |s.installed|
  }

  function BufferCount(c: Call): int {
    |c.buffers|
  }

  lemma {:induction false} InitialSums(calls: seq<Call>, ceiling: nat)
    requires forall i | 0 <= i < |calls| :: calls[i] == NewCall(calls[i].buffers)
    ensures Sum(calls, Credit) == 2 * |calls|
    ensures Sum(calls, RankAt(ceiling)) <= |calls| * (3 * ceiling + 2) + Sum(calls, BufferCount)
  {
    if calls != [] {
      var n := |calls| - 1;
      InitialSums(calls[..n], ceiling);
      assert calls[n] == NewCall(calls[n].buffers);
      assert |calls| * (3 * ceiling + 2) == n * (3 * ceiling + 2) + (3 * ceiling + 2);
    }
  }

  lemma InitialRank(s: System)
    requires Initial(s)
    ensures Ceiling(s) == Connections(s)
    ensures SystemRank(s) <= |s.calls| * (3 * Connections(s) + 2) + Sum(s.calls, BufferCount)
  {
    InitialSums(s.calls, Connections(s));
  }

  /** From a fresh start the number of steps, of all calls together, is bounded in advance. */
  lemma EveryRunStops(s: System, es: seq<Event>)
    requires Initial(s) && Legal(s, es)
    ensures |es| <= |s.calls| * (3 * Connections(s) + 2) + Sum(s.calls, BufferCount)
  {
    InitialInv(s);
    InitialRank(s);
    RunsAreFinite(s, es);
  }

  /** Strictly increasing serials below a bound: there are no more of them than the bound. */
  lemma {:induction false} IncreasingIsAtLeastIndex(log: seq<Attempt>, n: nat, i: nat)
    requires FailedPrefix(log, n) && i < n
    ensures log[i].conn.serial >= i
  {
    if i > 0 {
      IncreasingIsAtLeastIndex(log, n, i - 1);
    }
  }

  lemma {:induction false} RunKeepsCalls(s: System, es: seq<Event>)
    requires Legal(s, es)
    ensures |Run(s, es).calls| == |s.calls|
    decreases |es|
  {
    if es != [] {
      StepInstalled(s, es[0]);
      RunKeepsCalls(Apply(s, es[0]), es[1..]);
    }
  }

  /**
   Among N calls no call goes round its loop, or tries to send its first buffer, more
   than 2N + 1 times (2N if the slot was empty at the start).
   */
  lemma AttemptsAreBounded(s: System, es: seq<Event>, i: nat)
    requires Initial(s) && Legal(s, es) && i < |s.calls|
    ensures |Run(s, es).calls| == |s.calls|
    ensures Run(s, es).calls[i].iterations <= Connections(s)
    ensures forall j | 0 <= j < |Run(s, es).calls[i].log| && Run(s, es).calls[i].log[j].buffer == 0
              :: j < Connections(s)
  {
    var t := Run(s, es);
    RunKeepsCalls(s, es);
    var c := t.calls[i];
    InitialInv(s);
    RunInv(s, es);
    RunsAreFinite(s, es);
    InitialRank(s);
    CreditBound(t, i);
    assert CallInv(c) && Known(t, c);
    RetriesBelowInstalled(t, c);
  }

  lemma NewerIsHigher(s: System, c: Call, conn: Connection)
    requires FailedPrefix(c.log, c.retries) && NewerThanFailures(c, conn) && Installed(s, conn)
    ensures c.retries < |s.installed|
  {
    if c.retries > 0 {
      IncreasingIsAtLeastIndex(c.log, c.retries, c.retries - 1);
    }
  }

  /** A call retries no more often than there are connections to fail it. */
  lemma RetriesBelowInstalled(s: System, c: Call)
    requires CallInv(c) && Known(s, c)
    ensures c.iterations <= |s.installed| + Credit(c)
    ensures forall j | 0 <= j < |c.log| && c.log[j].buffer == 0 :: j < |s.installed|
  {
    LastRound(c);
    if c.retries > 0 {
      IncreasingIsAtLeastIndex(c.log, c.retries, c.retries - 1);
      assert Installed(s, c.log[c.retries - 1].conn);
    }
    if |c.log| > c.retries {
      AfterRetries(c);
      NewerIsHigher(s, c, c.log[c.retries].conn);
    } else if c.connection.Some? && NewerThanFailures(c, c.connection.value) {
      NewerIsHigher(s, c, c.connection.value);
    } else if c.carrier.Some? && NewerThanFailures(c, c.carrier.value) {
      NewerIsHigher(s, c, c.carrier.value);
    }
  }
}
