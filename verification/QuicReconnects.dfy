/**
 When a connection is replaced, and by whom.  The code recognises "the problematic
 connection used before" by its stable id, so these results say what that comparison
 is worth: everything when ids are never reused, and exactly what otherwise.
 */
module QuicReconnects {
  import opened Wrappers
  import opened QuicProtocol
  import opened QuicCalls

  /** The call tried to open a stream on `conn` and got a connection error. */
  predicate FailedOn(c: Call, conn: Connection) {
    Attempt(conn, 0, OpenFailed) in c.log
  }

  // ----- the guard protects the slot

  /** While one call holds the guard, no step of another call touches the slot or the guard. */
  lemma GuardProtectsSlot(s: System, e: Event, i: nat)
    requires Inv(s) && Enabled(s, e) && s.holder == Some(i) && e.call != i
    ensures Apply(s, e).slot == s.slot && Apply(s, e).installed == s.installed
    ensures Apply(s, e).holder == s.holder && Apply(s, e).calls[i] == s.calls[i]
  {
  }

  /** The slot is filled once and never emptied, and only ever moves to a later connection. */
  lemma {:induction false} SlotMovesForward(s: System, es: seq<Event>)
    requires Inv(s) && Legal(s, es)
    ensures s.installed <= Run(s, es).installed
    ensures s.slot.Some? ==> Run(s, es).slot.Some? && s.slot.value.serial <= Run(s, es).slot.value.serial
    ensures s.slot.Some? && s.slot != Run(s, es).slot ==> s.slot.value.serial < Run(s, es).slot.value.serial
    decreases |es|
  {
    if es != [] {
      StepInv(s, es[0]);
      StepInstalled(s, es[0]);
      SlotMovesForward(Apply(s, es[0]), es[1..]);
    }
  }

  // ----- what comparing ids is worth

  /** The call's last attempt was on `conn` itself, not on another connection with its id. */
  predicate LastUsedIsInSlot(c: Call, conn: Connection) {
    c.log != [] && c.log[|c.log| - 1].conn.serial == conn.serial
  }

  /**
   Whatever the ids, a call that has failed on the slot's connection never reuses it.
   It has failed on it exactly when nobody has replaced the connection of its last
   attempt since.  So comparing ids decides rightly, here and for this call, if and only if
   an equal id means that the connection is still that one.
   */
  lemma FailedOnSlot(s: System, i: nat)
    requires Inv(s) && i < |s.calls| && s.calls[i].phase.Holding? && s.slot.Some?
    ensures FailedOn(s.calls[i], s.slot.value) ==> Connects(s.calls[i], s.slot)
    ensures FailedOn(s.calls[i], s.slot.value) <==>
              LastUsedIsInSlot(s.calls[i], s.slot.value)
    ensures (Connects(s.calls[i], s.slot) <==> FailedOn(s.calls[i], s.slot.value)) <==>
              (s.slot.value.stableId == s.calls[i].lastId ==> LastUsedIsInSlot(s.calls[i], s.slot.value))
  {
  }

  /** No two connections have had the same id, and none the initial value of `last_connection_id`. */
  ghost predicate UniqueIds(s: System) {
    && (forall k | 0 <= k < |s.installed| :: s.installed[k].stableId != 0)
    && (forall k, l | 0 <= k < l < |s.installed| :: s.installed[k].stableId != s.installed[l].stableId)
  }

  /** With unique ids a reconnect replaces a connection on which this very call had a connection error. */
  lemma ReconnectIsJustified(s: System, i: nat)
    requires Inv(s) && UniqueIds(s)
    requires i < |s.calls| && s.calls[i].phase.Holding? && s.slot.Some?
    ensures Connects(s.calls[i], s.slot) <==> FailedOn(s.calls[i], s.slot.value)
  {
  }

  /** Every connection but the one in the slot has failed some call. */
  ghost predicate ReplacedHaveFailed(s: System) {
    forall k | 0 <= k < |s.installed| - 1 :: exists i | 0 <= i < |s.calls| :: FailedOn(s.calls[i], s.installed[k])
  }

  lemma LogsGrow(s: System, e: Event, i: nat, conn: Connection)
    requires Enabled(s, e) && i < |s.calls| && FailedOn(s.calls[i], conn)
    ensures i < |Apply(s, e).calls| && FailedOn(Apply(s, e).calls[i], conn)
  {
  }

  lemma StepReplacedHaveFailed(s: System, e: Event)
    requires Inv(s) && UniqueIds(s) && ReplacedHaveFailed(s) && Enabled(s, e)
    ensures ReplacedHaveFailed(Apply(s, e))
  {
    var s' := Apply(s, e);
    StepInstalled(s, e);
    forall k | 0 <= k < |s'.installed| - 1
      ensures exists i | 0 <= i < |s'.calls| :: FailedOn(s'.calls[i], s'.installed[k])
    {
      if k < |s.installed| - 1 {
        var i :| 0 <= i < |s.calls| && FailedOn(s.calls[i], s.installed[k]);
        LogsGrow(s, e, i, s.installed[k]);
        assert FailedOn(s'.calls[i], s'.installed[k]);
      } else {
        assert s.slot == Some(s.installed[k]);
        ReconnectIsJustified(s, e.call);
        LogsGrow(s, e, e.call, s.installed[k]);
        assert FailedOn(s'.calls[e.call], s'.installed[k]);
      }
    }
  }

  lemma {:induction false} RunReplacedHaveFailed(s: System, es: seq<Event>)
    requires Inv(s) && ReplacedHaveFailed(s) && Legal(s, es) && UniqueIds(Run(s, es))
    ensures UniqueIds(s) && ReplacedHaveFailed(Run(s, es))
    decreases |es|
  {
    SlotMovesForward(s, es);
    assert forall k | 0 <= k < |s.installed| :: s.installed[k] == Run(s, es).installed[k];
    if es != [] {
      StepInv(s, es[0]);
      StepReplacedHaveFailed(s, es[0]);
      RunReplacedHaveFailed(Apply(s, es[0]), es[1..]);
    }
  }

  function FailedConnections(s: System): set<Connection> {
    set i, j | 0 <= i < |s.calls| && 0 <= j < |s.calls[i].log| && s.calls[i].log[j].outcome == OpenFailed
            :: s.calls[i].log[j].conn
  }

  lemma {:induction false} DistinctPrefixSize(conns: seq<Connection>, n: nat)
    requires n <= |conns|
    requires forall k | 0 <= k < |conns| :: conns[k].serial == k
    ensures |set k | 0 <= k < n :: conns[k]| == n
  {
    if n > 0 {
      var smaller := set k | 0 <= k < n - 1 :: conns[k];
      DistinctPrefixSize(conns, n - 1);
      assert (set k | 0 <= k < n :: conns[k]) == smaller + {conns[n - 1]};
      assert conns[n - 1] !in smaller;
    }
  }

  lemma SubsetSize<T>(a: set<T>, b: set<T>)
    requires a <= b
    ensures |a| <= |b|
  {
    assert b == a + (b - a);
  }

  /** The first `n` connections. */
  function FirstConnections(s: System, n: nat): set<Connection>
    requires n <= |s.installed|
  {
    set k | 0 <= k < n :: s.installed[k]
  }

  lemma ReplacedAreFailed(s: System)
    requires ReplacedHaveFailed(s) && s.installed != []
    ensures FirstConnections(s, |s.installed| - 1) <= FailedConnections(s)
  {
  }

  lemma ReplacedBound(s: System)
    requires SlotInv(s) && ReplacedHaveFailed(s)
    ensures |s.installed| <= 1 + |FailedConnections(s)|
  {
    if s.installed != [] {
      var n := |s.installed| - 1;
      DistinctPrefixSize(s.installed, n);
      ReplacedAreFailed(s);
      SubsetSize(FirstConnections(s, n), FailedConnections(s));
    }
  }

  /**
   However many calls fail on a connection it is replaced once: the connections ever
   installed are at most one more than the distinct connections that failed.
   */
  lemma ConnectsAreNotDuplicated(s: System, es: seq<Event>)
    requires Initial(s) && Legal(s, es) && UniqueIds(Run(s, es))
    ensures |Run(s, es).installed| <= 1 + |FailedConnections(Run(s, es))|
  {
    InitialInv(s);
    RunInv(s, es);
    RunReplacedHaveFailed(s, es);
    ReplacedBound(Run(s, es));
  }
}
