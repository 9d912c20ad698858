/**
 The client in its own form: an object with the shared slot, `_send_buffer` with its
 retry loop, and `send_batch`.  Between any two actions of a call the other calls may
 take any steps they can.  Each method is proved to be a run of the protocol, so what
 is proved about runs holds of it; the loop terminates because the measure of the
 whole system does.
 */
module QuicClient {
  import opened Wrappers
  import opened QuicProtocol
  import opened QuicCalls
  import opened QuicTermination
  import opened QuicReconnects
  import opened QuicDelivery

  ghost predicate Ran(s: System, events: seq<Event>, t: System) {
    Legal(s, events) && Run(s, events) == t
  }

  /** Adding a step to a run. */
  lemma RanStep(s: System, events: seq<Event>, t: System, e: Event)
    requires Ran(s, events, t) && Inv(t) && Enabled(t, e)
    ensures Ran(s, events + [e], Apply(t, e))
    ensures Inv(Apply(t, e)) && 0 <= SystemRank(Apply(t, e)) < SystemRank(t)
  {
    RunSnoc(s, events, e);
    StepInv(t, e);
    SystemRankDecreases(t, e);
    SystemRankNonNegative(Apply(t, e));
  }

  /** Joining two runs. */
  lemma RanMore(s: System, es: seq<Event>, t: System, fs: seq<Event>, u: System)
    requires Ran(s, es, t) && Ran(t, fs, u)
    ensures Ran(s, es + fs, u)
  {
    RunAppend(s, es, fs);
  }

  /** `_send_buffer` has returned `conn` to `send_batch`, which goes on from buffer 1. */
  predicate CarriedBy(c: Call, conn: Connection) {
    && c.carrier == Some(conn)
    && c.phase == if |c.buffers| <= 1 then Returned(Delivered) else Batching(conn, 1)
  }

  /** What the guarded block leaves the call with, by branch. */
  lemma SettleFacts(c: Call, slot: Option<Connection>, serial: nat, outcome: ConnectOutcome)
    ensures var c' := SettleCall(c, slot, serial, outcome);
            var connects := Connects(c, slot);
            if connects && outcome.ConnectFailed? then
              c'.phase == Returned(Failed(outcome.error)) && c'.buffers == c.buffers
            else
              var conn := if connects then Connection(serial, outcome.stableId) else slot.value;
              && c'.buffers == c.buffers
              && c'.tryCount == c.tryCount + (if connects then 1 else 0)
              && (HeadIsEmpty(c') ==> CarriedBy(c', conn))
              && (!HeadIsEmpty(c') ==> c'.phase == Sending(conn) && c'.lastId == conn.stableId)
  {
  }

  /**
   What is out when a batch has returned: a prefix of the buffers and of their bytes, all the
   bytes if it succeeded, and all the buffers if and only if it did.
   */
  ghost predicate WroteBatch(c: Call, ok: bool) {
    && (FirstBuffer(c) < |c.buffers| ==> (ok <==> AllWritten(c)))
    && Written(c.log) == Range(FirstBuffer(c), FirstBuffer(c) + |Written(c.log)|)
    && (c.buffers != [] ==> FirstBuffer(c) + |Written(c.log)| <= |c.buffers|)
    && BytesOut(c.buffers, c.log) <= Concat(c.buffers)
    && (ok ==> BytesOut(c.buffers, c.log) == Concat(c.buffers))
  }

  lemma ReturnedBatch(c: Call, ok: bool)
    requires CallInv(c) && c.phase.Returned? && (ok <==> c.phase.result == Delivered)
    ensures WroteBatch(c, ok)
  {
    OkMeansEveryBufferWentOut(c);
    WrittenIsPrefix(c);
    BytesArePrefix(c);
  }

  /** What a send that came back leaves the call with. */
  ghost predicate AfterSend(c: Call, c': Call, o: SendOutcome) {
    && c'.buffers == c.buffers
    && match c.phase
       case Batching(conn, k) =>
         c'.phase == (if o != Sent then Returned(Failed(ErrorOf(o)))
                      else if k + 1 < |c.buffers| then Batching(conn, k + 1)
                      else Returned(Delivered))
       case Sending(conn) =>
         && c'.tryCount == c.tryCount && c'.lastId == c.lastId
         && (o == Sent ==> CarriedBy(c', conn))
         && (o.WriteFailed? ==> c'.phase == Returned(Failed(WriteError)))
         && (o == OpenFailed ==>
               c'.phase == if c.tryCount < MAX_CONNECTS then Looping else Returned(Failed(ConnectionError)))
       case _ => true
  }

  lemma SendFacts(c: Call, o: SendOutcome)
    requires c.phase.Sending? || c.phase.Batching?
    ensures AfterSend(c, SendCall(c, o), o)
  {
  }

  class QuicClient {
    /** The slot shared by all calls; `holder` is the owner of its guard. */
    var connection: Option<Connection>
    var holder: Option<nat>
    /** Every connection the slot has held. */
    var installed: seq<Connection>
    /** All the calls made on this client. */
    var calls: seq<Call>

    constructor (batches: seq<seq<Buffer>>)
      ensures Initial(State()) && Inv(State())
      ensures connection == None && installed == []
      ensures |calls| == |batches| && forall i | 0 <= i < |calls| :: calls[i] == NewCall(batches[i])
    {
      connection, holder, installed := None, None, [];
      calls := seq(|batches|, i requires 0 <= i < |batches| => NewCall(batches[i]));
      new;
      InitialInv(State());
    }

    function State(): System
      reads this
    {
      System(connection, holder, installed, calls)
    }

    /** A step of some call. */
    method Perform(e: Event)
      requires Enabled(State(), e)
      modifies this
      ensures State() == Apply(old(State()), e)
    {
      var s := Apply(State(), e);
      connection, holder, installed, calls := s.slot, s.holder, s.installed, s.calls;
    }

    /** Call `me` waits; any of the others take any steps. */
    method OthersRun(me: nat) returns (ghost events: seq<Event>)
      requires Inv(State()) && me < |calls|
      modifies this
      ensures Ran(old(State()), events, State()) && Inv(State())
      ensures |calls| == old(|calls|) && calls[me] == old(calls[me])
      ensures SystemRank(State()) <= old(SystemRank(State()))
      ensures old(holder) == Some(me) ==>
                connection == old(connection) && installed == old(installed) && holder == Some(me)
    {
      events := [];
      var goOn := *;
      while goOn
        invariant Ran(old(State()), events, State()) && Inv(State())
        invariant |calls| == old(|calls|) && calls[me] == old(calls[me])
        invariant SystemRank(State()) <= old(SystemRank(State()))
        invariant old(holder) == Some(me) ==>
                    connection == old(connection) && installed == old(installed) && holder == Some(me)
        decreases SystemRank(State()), goOn
      {
        var e: Event := *;
        goOn := *;
        if Enabled(State(), e) && e.call != me {
          ghost var t := State();
          if holder == Some(me) {
            GuardProtectsSlot(t, e, me);
          }
          StepInstalled(t, e);
          SystemRankNonNegative(t);
          RanStep(old(State()), events, t, e);
          events := events + [e];
          Perform(e);
        } else {
          goOn := false;
        }
      }
    }

    /** Until nobody has the guard: whoever has it leaves its block at some time. */
    method AwaitGuard(me: nat) returns (ghost events: seq<Event>)
      requires Inv(State()) && me < |calls| && calls[me].phase.Looping?
      modifies this
      ensures Ran(old(State()), events, State()) && Inv(State())
      ensures |calls| == old(|calls|) && calls[me] == old(calls[me]) && holder == None
      ensures SystemRank(State()) <= old(SystemRank(State()))
    {
      events := OthersRun(me);
      if holder.Some? {
        assert calls[holder.value].phase.Holding?;
        var outcome: ConnectOutcome := *;
        var e := Settle(holder.value, outcome);
        StepInstalled(State(), e);
        RanStep(old(State()), events, State(), e);
        events := events + [e];
        Perform(e);
      }
    }

    /** `self.connection.lock().await` */
    method LockSlot(me: nat) returns (ghost events: seq<Event>)
      requires Inv(State()) && me < |calls| && calls[me].phase.Looping?
      modifies this
      ensures Ran(old(State()), events, State()) && Inv(State())
      ensures |calls| == old(|calls|) && holder == Some(me)
      ensures calls[me] == old(calls[me]).(phase := Holding, iterations := old(calls[me]).iterations + 1)
      ensures SystemRank(State()) < old(SystemRank(State()))
    {
      events := AwaitGuard(me);
      RanStep(old(State()), events, State(), Lock(me));
      events := events + [Lock(me)];
      calls := calls[me := calls[me].(phase := Holding, iterations := calls[me].iterations + 1)];
      holder := Some(me);
    }

    /** `make_connection` and `make_connection_0rtt`: only a handshake that came through fills the slot. */
    method MakeConnection(outcome: ConnectOutcome) returns (r: Result<Connection, QuicError>)
      modifies this`connection, this`installed
      ensures match outcome
              case Connected(id) =>
                r == Ok(Connection(old(|installed|), id)) && connection == Some(r.value)
                && installed == old(installed) + [r.value]
              case ConnectFailed(e) =>
                r == Err(e) && connection == old(connection) && installed == old(installed)
    {
      match outcome {
        case Connected(id) =>
          var conn := Connection(|installed|, id);
          connection, installed := Some(conn), installed + [conn];
          r := Ok(conn);
        case ConnectFailed(e) =>
          r := Err(e);
      }
    }

    /**
     The guarded block: create, reuse or reconnect.  Others may run while a connect is
     awaited; the slot cannot change meanwhile, since this call holds the guard.
     */
    method PrepareConnection(me: nat, connectionTryCount: nat, lastConnectionId: nat)
      returns (r: Result<Connection, QuicError>, tryCount: nat, ghost events: seq<Event>)
      requires Inv(State()) && me < |calls| && calls[me].phase.Holding?
      requires calls[me].tryCount == connectionTryCount && calls[me].lastId == lastConnectionId
      modifies this
      ensures Ran(old(State()), events, State()) && Inv(State())
      ensures |calls| == old(|calls|) && SystemRank(State()) < old(SystemRank(State()))
      ensures calls[me].buffers == old(calls[me].buffers)
      ensures r.Err? ==> calls[me].phase == Returned(Failed(r.error))
      ensures r.Ok? ==> connection == Some(r.value) && calls[me].tryCount == tryCount
      ensures r.Ok? && HeadIsEmpty(calls[me]) ==> CarriedBy(calls[me], r.value)
      ensures r.Ok? && !HeadIsEmpty(calls[me]) ==>
                calls[me].phase == Sending(r.value) && calls[me].lastId == r.value.stableId
    {
      assert holder == Some(me) && calls[me].phase.Holding?;
      tryCount := connectionTryCount;
      var outcome: ConnectOutcome := *;
      events := OthersRun(me);
      ghost var t := State();
      SettleFacts(calls[me], connection, |installed|, outcome);
      var found, serial := connection, |installed|;
      match found {
        case Some(current) =>
          if current.stableId == lastConnectionId {
            // the connection that failed before: put a new one in its place
            r := MakeConnection(outcome);
            tryCount := if r.Ok? then tryCount + 1 else tryCount;
          } else {
            r := Ok(current);
          }
        case None =>
          r := MakeConnection(outcome);
          tryCount := if r.Ok? then tryCount + 1 else tryCount;
      }
      // the record of the call, and the guard dropped
      calls := calls[me := SettleCall(calls[me], found, serial, outcome)];
      holder := None;
      assert State() == Apply(t, Settle(me, outcome));
      RanStep(old(State()), events, t, Settle(me, outcome));
      events := events + [Settle(me, outcome)];
    }

    /** `_send_buffer_using_conn` as call `me` sees it. */
    method SendUsingConn(me: nat) returns (o: SendOutcome, ghost events: seq<Event>)
      requires Inv(State()) && me < |calls| && (calls[me].phase.Sending? || calls[me].phase.Batching?)
      modifies this
      ensures Ran(old(State()), events, State()) && Inv(State())
      ensures |calls| == old(|calls|) && SystemRank(State()) < old(SystemRank(State()))
      ensures AfterSend(old(calls[me]), calls[me], o)
    {
      events := OthersRun(me);
      o := *;
      SendFacts(calls[me], o);
      RanStep(old(State()), events, State(), Send(me, o));
      events := events + [Send(me, o)];
      calls := calls[me := SendCall(calls[me], o)];
    }

    /** `_send_buffer`: connect, reuse or reconnect until the buffer is sent or the tries are used up. */
    method SendBufferOnce(me: nat) returns (r: Result<Connection, QuicError>, ghost events: seq<Event>)
      requires Inv(State()) && me < |calls| && calls[me] == NewCall(calls[me].buffers) && calls[me].buffers != []
      modifies this
      ensures Ran(old(State()), events, State()) && Inv(State()) && |calls| == old(|calls|)
      ensures calls[me].buffers == old(calls[me].buffers)
      ensures r.Err? ==> calls[me].phase == Returned(Failed(r.error))
      ensures r.Ok? ==> CarriedBy(calls[me], r.value)
    {
      var buffers := calls[me].buffers;
      var connectionTryCount, lastConnectionId := 0, 0;
      var lastError: Option<QuicError> := None;
      events := [];
      while connectionTryCount < 2
        invariant Ran(old(State()), events, State()) && Inv(State()) && |calls| == old(|calls|)
        invariant calls[me].buffers == buffers
        invariant connectionTryCount < 2 ==>
                    calls[me].phase == Looping && calls[me].tryCount == connectionTryCount
                    && calls[me].lastId == lastConnectionId
        invariant connectionTryCount >= 2 ==>
                    lastError.Some? && calls[me].phase == Returned(Failed(lastError.value))
        decreases SystemRank(State())
      {
        SystemRankNonNegative(State());
        ghost var s := State();
        ghost var locked := LockSlot(me);
        RanMore(old(State()), events, s, locked, State());
        events := events + locked;

        s := State();
        var prepared, tryCount;
        ghost var settled;
        prepared, tryCount, settled := PrepareConnection(me, connectionTryCount, lastConnectionId);
        RanMore(old(State()), events, s, settled, State());
        events := events + settled;
        if prepared.Err? {
          return Err(prepared.error), events;
        }
        var conn := prepared.value;
        connectionTryCount := tryCount;

        if buffers[0] == [] {
          // only warms the connection
          return Ok(conn), events;
        }
        lastConnectionId := conn.stableId;

        s := State();
        var o;
        ghost var sent;
        o, sent := SendUsingConn(me);
        RanMore(old(State()), events, s, sent, State());
        events := events + sent;
        match o {
          case Sent => return Ok(conn), events;
          case OpenFailed => lastError := Some(ConnectionError);
          case WriteFailed(_) => return Err(WriteError), events;
        }
      }
      // last_error.expect(..)
      return Err(lastError.value), events;
    }

    /** The loop of `send_batch`: the buffers after buffer 0, without touching the slot. */
    method SendRest(me: nat, conn: Connection) returns (r: Result<(), QuicError>, ghost events: seq<Event>)
      requires Inv(State()) && me < |calls| && calls[me].buffers != [] && CarriedBy(calls[me], conn)
      modifies this
      ensures Ran(old(State()), events, State()) && Inv(State()) && |calls| == old(|calls|)
      ensures calls[me].buffers == old(calls[me].buffers)
      ensures calls[me].phase == Returned(match r case Ok(_) => Delivered case Err(e) => Failed(e))
    {
      var buffers := calls[me].buffers;
      events := [];
      for k := 1 to |buffers|
        invariant Ran(old(State()), events, State()) && Inv(State()) && |calls| == old(|calls|)
        invariant calls[me].buffers == buffers
        invariant calls[me].phase == if k == |buffers| then Returned(Delivered) else Batching(conn, k)
      {
        ghost var s := State();
        var o;
        ghost var sent;
        o, sent := SendUsingConn(me);
        RanMore(old(State()), events, s, sent, State());
        events := events + sent;
        if o != Sent {
          return Err(ErrorOf(o)), events;
        }
      }
      return Ok(()), events;
    }

    /**
     `send_batch`: buffer 0 proves the connection, the others follow on it without the slot.
     What is out at the end is a prefix of the batch, to the byte, and all of it if the result is Ok.
     */
    method SendBatch(me: nat) returns (r: Result<(), QuicError>, ghost events: seq<Event>)
      requires Inv(State()) && me < |calls| && calls[me] == NewCall(calls[me].buffers)
      modifies this
      ensures Ran(old(State()), events, State()) && Inv(State()) && |calls| == old(|calls|)
      ensures calls[me].buffers == old(calls[me].buffers)
      ensures calls[me].phase == Returned(match r case Ok(_) => Delivered case Err(e) => Failed(e))
      ensures WroteBatch(calls[me], r.Ok?)
    {
      r, events := SendAll(me);
      assert CallInv(calls[me]);
      ReturnedBatch(calls[me], r.Ok?);
    }

    method SendAll(me: nat) returns (r: Result<(), QuicError>, ghost events: seq<Event>)
      requires Inv(State()) && me < |calls| && calls[me] == NewCall(calls[me].buffers)
      modifies this
      ensures Ran(old(State()), events, State()) && Inv(State()) && |calls| == old(|calls|)
      ensures calls[me].buffers == old(calls[me].buffers)
      ensures calls[me].phase == Returned(match r case Ok(_) => Delivered case Err(e) => Failed(e))
    {
      var buffers := calls[me].buffers;
      if buffers == [] {
        return Ok(()), [];
      }
      var first;
      first, events := SendBufferOnce(me);
      if first.Err? {
        return Err(first.error), events;
      }
      ghost var s := State();
      ghost var rest;
      r, rest := SendRest(me, first.value);
      RanMore(old(State()), events, s, rest, State());
      events := events + rest;
    }
  }
}
