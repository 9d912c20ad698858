/**
 Runs that show the results about the protocol to be exact: the bound on the attempts
 of a call is reached for every number of calls, and a reused stable id makes a call
 replace a healthy connection.
 */
module QuicWitnesses {
  import opened Wrappers
  import opened QuicProtocol
  import opened QuicTermination
  import opened QuicReconnects

  /** Call `i` goes once round its loop and gets a connection error; `id` is used if it connects. */
  function Round(i: nat, id: nat): seq<Event> {
    [Lock(i), Settle(i, Connected(id)), Send(i, OpenFailed)]
  }

  /** The call after a round spent on `conn`. */
  function AfterRound(c: Call, conn: Connection): Call {
    c.(iterations := c.iterations + 1,
       connection := Some(conn), lastId := conn.stableId,
       lastError := Some(ConnectionError),
       retries := c.retries + 1,
       log := c.log + [Attempt(conn, 0, OpenFailed)])
  }

  ghost predicate CanGoRound(s: System, i: nat) {
    && i < |s.calls| && s.holder == None
    && s.calls[i].phase.Looping? && !HeadIsEmpty(s.calls[i]) && s.calls[i].tryCount < MAX_CONNECTS
  }

  lemma ThreeSteps(s: System, e0: Event, e1: Event, e2: Event)
    requires Enabled(s, e0) && Enabled(Apply(s, e0), e1) && Enabled(Apply(Apply(s, e0), e1), e2)
    ensures Legal(s, [e0, e1, e2])
    ensures Run(s, [e0, e1, e2]) == Apply(Apply(Apply(s, e0), e1), e2)
  {
    RunSnoc(s, [], e0);
    RunSnoc(s, [e0], e1);
    RunSnoc(s, [e0, e1], e2);
    assert [] + [e0] == [e0];
    assert [e0] + [e1] == [e0, e1];
    assert [e0, e1] + [e2] == [e0, e1, e2];
  }

  /** A connection error on `conn` right after the call chose it. */
  lemma UseThenFail(c: Call, conn: Connection)
    requires !HeadIsEmpty(c)
    ensures Use(c, conn).phase == Sending(conn)
    ensures SendCall(Use(c, conn), OpenFailed) ==
              c.(connection := Some(conn), lastId := conn.stableId, lastError := Some(ConnectionError),
                 retries := c.retries + 1, log := c.log + [Attempt(conn, 0, OpenFailed)],
                 phase := if c.tryCount < MAX_CONNECTS then Looping else Returned(Failed(ConnectionError)))
  {
  }

  /** The calls after a round that leaves call `i` with `Use(c, conn)` before the send. */
  lemma RoundOf(s: System, i: nat, id: nat, c: Call, conn: Connection, slot: Option<Connection>, installed: seq<Connection>)
    requires CanGoRound(s, i) && !HeadIsEmpty(c)
    requires var held := s.calls[i].(phase := Holding, iterations := s.calls[i].iterations + 1);
             SettleCall(held, s.slot, |s.installed|, Connected(id)) == Use(c, conn)
    requires slot == (if Connects(s.calls[i], s.slot) then Some(Connection(|s.installed|, id)) else s.slot)
    requires installed ==
               if Connects(s.calls[i], s.slot) then s.installed + [Connection(|s.installed|, id)] else s.installed
    ensures Legal(s, Round(i, id))
    ensures Run(s, Round(i, id)) ==
              System(slot, None, installed, s.calls[i := SendCall(Use(c, conn), OpenFailed)])
  {
    UseThenFail(c, conn);
    var s1 := Apply(s, Lock(i));
    var s2 := Apply(s1, Settle(i, Connected(id)));
    assert s2.calls == s.calls[i := Use(c, conn)];
    ThreeSteps(s, Lock(i), Settle(i, Connected(id)), Send(i, OpenFailed));
    assert Run(s, Round(i, id)).calls == s.calls[i := SendCall(Use(c, conn), OpenFailed)];
  }

  lemma ReuseRound(s: System, i: nat, id: nat)
    requires CanGoRound(s, i) && s.slot.Some? && !Connects(s.calls[i], s.slot)
    ensures Legal(s, Round(i, id))
    ensures Run(s, Round(i, id)) ==
              var c := s.calls[i];
              s.(calls := s.calls[i := AfterRound(c.(reuses := c.reuses + 1), s.slot.value)])
  {
    var c := s.calls[i];
    var c' := c.(phase := Holding, iterations := c.iterations + 1, reuses := c.reuses + 1);
    RoundOf(s, i, id, c', s.slot.value, s.slot, s.installed);
    UseThenFail(c', s.slot.value);
  }

  /** The call in a round that connects, with the connection it made. */
  lemma ConnectThenFail(c: Call, slot: Option<Connection>, conn: Connection)
    requires c.phase.Looping? && !HeadIsEmpty(c) && Connects(c, slot)
    ensures var c' := c.(phase := Holding, iterations := c.iterations + 1, tryCount := c.tryCount + 1);
            && SettleCall(c.(phase := Holding, iterations := c.iterations + 1), slot, conn.serial, Connected(conn.stableId)) ==
                 Use(c', conn)
            && SendCall(Use(c', conn), OpenFailed) ==
                 AfterRound(c.(tryCount := c.tryCount + 1,
                               phase := if c.tryCount + 1 < MAX_CONNECTS then Looping else Returned(Failed(ConnectionError))),
                            conn)
  {
  }

  lemma ConnectRound(s: System, i: nat, id: nat)
    requires CanGoRound(s, i) && Connects(s.calls[i], s.slot)
    ensures Legal(s, Round(i, id))
    ensures Run(s, Round(i, id)) ==
              var conn := Connection(|s.installed|, id);
              var c := s.calls[i].(tryCount := s.calls[i].tryCount + 1);
              s.(slot := Some(conn), installed := s.installed + [conn],
                 calls := s.calls[i := AfterRound(
                   c.(phase := if c.tryCount < MAX_CONNECTS then Looping else Returned(Failed(ConnectionError))),
                   conn)])
  {
    var c := s.calls[i];
    var conn := Connection(|s.installed|, id);
    var c' := c.(phase := Holding, iterations := c.iterations + 1, tryCount := c.tryCount + 1);
    ConnectThenFail(c, s.slot, conn);
    RoundOf(s, i, id, c', conn, Some(conn), s.installed + [conn]);
  }

  // ----- the bound on attempts is reached

  /** Call 0 has failed on every connection so far, the calls before `j` are done, the others not begun. */
  ghost predicate Trailing(s: System, j: nat) {
    && 0 < j <= |s.calls|
    && s.holder == None && s.slot.Some? && s.slot.value.stableId > 0
    && CanGoRound(s, 0)
    && s.calls[0].iterations == |s.installed|
    && s.calls[0].lastId == s.slot.value.stableId
    && forall k | j <= k < |s.calls| :: s.calls[k] == NewCall([[1]])
  }

  /** Call `j` spends its two connects; call 0 fails on both of the new connections. */
  lemma OneMoreCall(s: System, j: nat) returns (es: seq<Event>)
    requires Trailing(s, j) && j < |s.calls|
    ensures Legal(s, es) && Trailing(Run(s, es), j + 1)
    ensures |Run(s, es).installed| == |s.installed| + 2 && |Run(s, es).calls| == |s.calls|
    ensures Run(s, es).calls[0].tryCount == s.calls[0].tryCount
  {
    var id := s.slot.value.stableId;
    assert s.calls[j] == NewCall([[1]]);
    ReuseRound(s, j, 0);
    var s1 := Run(s, Round(j, 0));
    ConnectRound(s1, j, id + 1);
    var s2 := Run(s1, Round(j, id + 1));
    ReuseRound(s2, 0, 0);
    var s3 := Run(s2, Round(0, 0));
    ConnectRound(s3, j, id + 2);
    var s4 := Run(s3, Round(j, id + 2));
    ReuseRound(s4, 0, 0);
    RunAppend(s, Round(j, 0), Round(j, id + 1));
    RunAppend(s, Round(j, 0) + Round(j, id + 1), Round(0, 0));
    RunAppend(s, Round(j, 0) + Round(j, id + 1) + Round(0, 0), Round(j, id + 2));
    RunAppend(s, Round(j, 0) + Round(j, id + 1) + Round(0, 0) + Round(j, id + 2), Round(0, 0));
    es := Round(j, 0) + Round(j, id + 1) + Round(0, 0) + Round(j, id + 2) + Round(0, 0);
  }

  lemma {:induction false} AllOtherCalls(s: System, j: nat) returns (es: seq<Event>)
    requires Trailing(s, j)
    ensures Legal(s, es) && Trailing(Run(s, es), |s.calls|) && |Run(s, es).calls| == |s.calls|
    ensures |Run(s, es).installed| == |s.installed| + 2 * (|s.calls| - j)
    ensures Run(s, es).calls[0].tryCount == s.calls[0].tryCount
    decreases |s.calls| - j
  {
    if j == |s.calls| {
      es := [];
    } else {
      var first := OneMoreCall(s, j);
      var rest := AllOtherCalls(Run(s, first), j + 1);
      RunAppend(s, first, rest);
      es := first + rest;
    }
  }

  /** At the end call 0 uses up its own connects. */
  lemma {:induction false} LastConnects(s: System) returns (es: seq<Event>)
    requires CanGoRound(s, 0) && s.slot.Some? && s.calls[0].lastId == s.slot.value.stableId
    ensures Legal(s, es) && |Run(s, es).calls| == |s.calls|
    ensures Run(s, es).calls[0].iterations == s.calls[0].iterations + (MAX_CONNECTS - s.calls[0].tryCount)
    ensures Run(s, es).calls[0].phase == Returned(Failed(ConnectionError))
    decreases MAX_CONNECTS - s.calls[0].tryCount
  {
    ConnectRound(s, 0, 1);
    es := Round(0, 1);
    var t := Run(s, es);
    if t.calls[0].tryCount < MAX_CONNECTS {
      var rest := LastConnects(t);
      RunAppend(s, es, rest);
      es := es + rest;
    }
  }

  /** For every number of calls, and whether or not the slot starts empty, the bound is reached. */
  lemma AttemptBoundIsReached(n: nat, warm: bool) returns (s: System, es: seq<Event>)
    requires n > 0
    ensures Initial(s) && |s.calls| == n && |s.installed| == (if warm then 1 else 0)
    ensures Legal(s, es) && |Run(s, es).calls| == n
    ensures Run(s, es).calls[0].iterations == Connections(s) == 2 * n + (if warm then 1 else 0)
    ensures Run(s, es).calls[0].phase == Returned(Failed(ConnectionError))
  {
    var conn := Connection(0, 1);
    var calls := seq(n, i => NewCall([[1]]));
    s := if warm then System(Some(conn), None, [conn], calls) else System(None, None, [], calls);
    if warm {
      ReuseRound(s, 0, 1);
    } else {
      ConnectRound(s, 0, 1);
    }
    var s1 := Run(s, Round(0, 1));
    assert Trailing(s1, 1);
    var middle := AllOtherCalls(s1, 1);
    var s2 := Run(s1, middle);
    var last := LastConnects(s2);
    RunAppend(s, Round(0, 1), middle);
    RunAppend(s, Round(0, 1) + middle, last);
    es := Round(0, 1) + middle + last;
  }

  // ----- reused ids

  const TWO_CALLS := System(None, None, [], [NewCall([[1]]), NewCall([[1]])])

  /** Call 0 fails on a connection with id 7, and call 1 fails on it too. */
  const BOTH_FAIL: seq<Event> := Round(0, 7) + Round(1, 0)

  /** Call 1 replaces it twice, and id 7 comes back. */
  const ID_COMES_BACK: seq<Event> := Round(1, 9) + Round(1, 7)

  lemma BothFailRun()
    ensures Legal(TWO_CALLS, BOTH_FAIL)
    ensures var t := Run(TWO_CALLS, BOTH_FAIL);
            && |t.calls| == 2 && t.slot == Some(Connection(0, 7)) && t.installed == [Connection(0, 7)]
            && CanGoRound(t, 0) && CanGoRound(t, 1)
            && t.calls[0].lastId == 7 && t.calls[0].log == [Attempt(Connection(0, 7), 0, OpenFailed)]
            && t.calls[1].lastId == 7 && t.calls[1].tryCount == 0
  {
    ConnectRound(TWO_CALLS, 0, 7);
    ReuseRound(Run(TWO_CALLS, Round(0, 7)), 1, 0);
    RunAppend(TWO_CALLS, Round(0, 7), Round(1, 0));
  }

  lemma IdComesBackRun(s: System)
    requires |s.calls| == 2 && s.installed == [Connection(0, 7)] && s.slot == Some(Connection(0, 7))
    requires CanGoRound(s, 1) && s.calls[1].lastId == 7 && s.calls[1].tryCount == 0
    ensures Legal(s, ID_COMES_BACK)
    ensures Run(s, ID_COMES_BACK).slot == Some(Connection(2, 7)) && Run(s, ID_COMES_BACK).holder == None
    ensures |Run(s, ID_COMES_BACK).calls| == 2 && Run(s, ID_COMES_BACK).calls[0] == s.calls[0]
  {
    ConnectRound(s, 1, 9);
    ConnectRound(Run(s, Round(1, 9)), 1, 7);
    RunAppend(s, Round(1, 9), Round(1, 7));
  }

  /** With a reused id a call sets out to replace a connection on which it never failed. */
  lemma ReusedIdReplacesHealthyConnection() returns (s: System, es: seq<Event>)
    ensures Initial(s) && Legal(s, es)
    ensures var t := Run(s, es);
            && |t.calls| == 2 && t.calls[0].phase.Holding? && t.slot.Some?
            && Connects(t.calls[0], t.slot) && !FailedOn(t.calls[0], t.slot.value)
  {
    BothFailRun();
    var t := Run(TWO_CALLS, BOTH_FAIL);
    IdComesBackRun(t);
    RunAppend(TWO_CALLS, BOTH_FAIL, ID_COMES_BACK);
    RunSnoc(TWO_CALLS, BOTH_FAIL + ID_COMES_BACK, Lock(0));
    s, es := TWO_CALLS, BOTH_FAIL + ID_COMES_BACK + [Lock(0)];
  }
}
