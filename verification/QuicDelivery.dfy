/** What a call has put on the wire, how it ends, and that it does end. */
module QuicDelivery {
  import opened Wrappers
  import opened QuicProtocol
  import opened QuicCalls
  import opened QuicTermination

  /** Buffer `k` has been fully written. */
  predicate WrittenOut(c: Call, k: nat) {
    exists i | 0 <= i < |c.log| :: c.log[i].buffer == k && c.log[i].outcome == Sent
  }

  /** Everything the batch has to put on the wire is there. */
  predicate AllWritten(c: Call) {
    forall k | FirstBuffer(c) <= k < |c.buffers| :: WrittenOut(c, k)
  }

  /** The buffers fully written, in the order they were. */
  function Written(log: seq<Attempt>): seq<nat> {
    if log == [] then []
    else
      var last := log[|log| - 1];
      Written(log[..|log| - 1]) + if last.outcome == Sent then [last.buffer] else []
  }

  function Range(lo: nat, hi: nat): (r: seq<nat>)
    requires lo <= hi
    ensures |r| == hi - lo && forall k | 0 <= k < |r| :: r[k] == lo + k
  {
    seq(hi - lo, k requires 0 <= k < hi - lo => lo + k)
  }

  /** What follows about a call satisfying `CallInv` holds of every call at every moment of every run. */
  lemma InvOfRun(s: System, es: seq<Event>, i: nat)
    requires Initial(s) && Legal(s, es) && i < |s.calls|
    ensures |Run(s, es).calls| == |s.calls|
    ensures CallInv(Run(s, es).calls[i]) && Known(Run(s, es), Run(s, es).calls[i])
  {
    InitialInv(s);
    RunInv(s, es);
    RunKeepsCalls(s, es);
  }

  // ----- order, at-most-once, one connection

  /**
   Only buffer 0 is tried again, and only after a failure to open a stream, so no
   buffer is ever written, even in part, on two streams.
   */
  lemma OnlyTheHeadIsRetried(c: Call, i: nat, j: nat)
    requires CallInv(c) && i < j < |c.log|
    ensures c.log[i].buffer <= c.log[j].buffer
    ensures c.log[i].buffer == c.log[j].buffer ==> c.log[i].buffer == 0 && c.log[i].outcome == OpenFailed
    ensures c.log[i].outcome == OpenFailed ==> c.log[i].conn.serial < c.log[j].conn.serial
    ensures !c.log[i].outcome.WriteFailed?
  {
    assert FailedPrefix(c.log, c.retries);
    if c.phase.Returned? && c.phase.result.Failed? && c.retries < |c.log| - 1 {
      assert BatchBroken(c, c.phase.result.error);
      assert c.log[..|c.log| - 1][i] == c.log[i];
      assert j < |c.log| - 1 ==> c.log[..|c.log| - 1][j] == c.log[j];
    }
  }

  /** Whatever the call got out after its retries went on the one connection `_send_buffer` returned. */
  lemma OneConnectionCarriesTheBatch(c: Call, i: nat)
    requires CallInv(c) && i < |c.log|
    requires c.log[i].buffer > 0 || c.log[i].outcome == Sent
    ensures c.carrier == Some(c.log[i].conn)
  {
  }

  lemma {:induction false} WrittenOfFailures(log: seq<Attempt>, n: nat)
    requires FailedPrefix(log, n) && |log| == n
    ensures Written(log) == []
  {
    if n > 0 {
      assert FailedPrefix(log[..n - 1], n - 1);
      WrittenOfFailures(log[..n - 1], n - 1);
    }
  }

  lemma {:induction false} WrittenOfSent(log: seq<Attempt>, n: nat, conn: Connection, lo: nat, hi: nat)
    requires FailedPrefix(log, n) && SentFrom(log, n, conn, lo, hi)
    ensures Written(log) == Range(lo, hi)
  {
    if lo == hi {
      WrittenOfFailures(log, n);
    } else {
      var front := log[..|log| - 1];
      assert FailedPrefix(front, n);
      assert SentFrom(front, n, conn, lo, hi - 1);
      WrittenOfSent(front, n, conn, lo, hi - 1);
      assert log[|log| - 1] == Attempt(conn, hi - 1, Sent);
      assert Range(lo, hi) == Range(lo, hi - 1) + [hi - 1];
    }
  }

  /** The attempts after the retries, as far as they went well. */
  lemma LogShape(c: Call) returns (conn: Connection, hi: nat)
    requires CallInv(c) && c.retries < |c.log|
    ensures FirstBuffer(c) <= hi <= |c.buffers|
    ensures SentFrom(c.log, c.retries, conn, FirstBuffer(c), hi)
         || (&& SentFrom(c.log[..|c.log| - 1], c.retries, conn, FirstBuffer(c), hi)
             && hi == c.log[|c.log| - 1].buffer < |c.buffers|
             && c.log[|c.log| - 1].outcome != Sent)
  {
    if c.phase.Returned? && c.phase.result.Failed? {
      if HeadUnwritten(c, c.phase.result.error) {
        conn, hi := c.log[c.retries].conn, 0;
      } else {
        assert BatchBroken(c, c.phase.result.error);
        conn, hi := c.carrier.value, c.log[|c.log| - 1].buffer;
      }
    } else {
      conn, hi := c.carrier.value, FirstBuffer(c) + (|c.log| - c.retries);
    }
  }

  lemma WrittenAfterRetries(c: Call) returns (hi: nat)
    requires CallInv(c) && c.retries < |c.log|
    ensures FirstBuffer(c) <= hi <= |c.buffers| && Written(c.log) == Range(FirstBuffer(c), hi)
  {
    var conn;
    conn, hi := LogShape(c);
    if SentFrom(c.log, c.retries, conn, FirstBuffer(c), hi) {
      WrittenOfSent(c.log, c.retries, conn, FirstBuffer(c), hi);
    } else {
      var front := c.log[..|c.log| - 1];
      assert FailedPrefix(front, c.retries);
      WrittenOfSent(front, c.retries, conn, FirstBuffer(c), hi);
    }
  }

  /** At every moment the buffers fully written are a prefix of the batch, in order. */
  lemma WrittenIsPrefix(c: Call)
    requires CallInv(c)
    ensures c.buffers != [] ==> FirstBuffer(c) + |Written(c.log)| <= |c.buffers|
    ensures Written(c.log) == Range(FirstBuffer(c), FirstBuffer(c) + |Written(c.log)|)
  {
    if |c.log| == c.retries {
      WrittenOfFailures(c.log, c.retries);
    } else {
      var hi := WrittenAfterRetries(c);
    }
  }

  // ----- bytes

  /** The bytes an attempt put on its stream. */
  function BytesOf(buffers: seq<Buffer>, a: Attempt): seq<Byte> {
    if a.buffer >= |buffers| then []
    else
      var data := buffers[a.buffer];
      match a.outcome
      case Sent => data
      case OpenFailed => []
      case WriteFailed(written) => if written <= |data| then data[..written] else data
  }

  /** All the bytes a call has put on streams, in the order it did. */
  function BytesOut(buffers: seq<Buffer>, log: seq<Attempt>): seq<Byte> {
    if log == [] then []
    else BytesOut(buffers, log[..|log| - 1]) + BytesOf(buffers, log[|log| - 1])
  }

  function Concat(buffers: seq<Buffer>): seq<Byte> {
    if buffers == [] then [] else Concat(buffers[..|buffers| - 1]) + buffers[|buffers| - 1]
  }

  lemma {:induction false} ConcatOfPrefix(buffers: seq<Buffer>, i: nat)
    requires i <= |buffers|
    ensures Concat(buffers[..i]) <= Concat(buffers)
  {
    if i == |buffers| {
      assert buffers[..i] == buffers;
    } else {
      ConcatOfPrefix(buffers[..|buffers| - 1], i);
      assert buffers[..|buffers| - 1][..i] == buffers[..i];
    }
  }

  lemma ConcatNext(buffers: seq<Buffer>, i: nat)
    requires i < |buffers|
    ensures Concat(buffers[..i + 1]) == Concat(buffers[..i]) + buffers[i]
  {
    assert buffers[..i + 1][..i] == buffers[..i];
  }

  lemma {:induction false} BytesOfFailures(buffers: seq<Buffer>, log: seq<Attempt>, n: nat)
    requires FailedPrefix(log, n) && |log| == n
    ensures BytesOut(buffers, log) == []
  {
    if n > 0 {
      assert FailedPrefix(log[..n - 1], n - 1);
      BytesOfFailures(buffers, log[..n - 1], n - 1);
    }
  }

  lemma {:induction false} BytesOfSent(
      buffers: seq<Buffer>, log: seq<Attempt>, n: nat, conn: Connection, lo: nat, hi: nat)
    requires FailedPrefix(log, n) && SentFrom(log, n, conn, lo, hi) && hi <= |buffers|
    requires Concat(buffers[..lo]) == []
    ensures BytesOut(buffers, log) == Concat(buffers[..hi])
  {
    if lo == hi {
      BytesOfFailures(buffers, log, n);
    } else {
      var front := log[..|log| - 1];
      assert FailedPrefix(front, n) && SentFrom(front, n, conn, lo, hi - 1);
      BytesOfSent(buffers, front, n, conn, lo, hi - 1);
      ConcatNext(buffers, hi - 1);
      assert log[|log| - 1] == Attempt(conn, hi - 1, Sent);
    }
  }

  /** An empty buffer 0 leaves out no bytes. */
  lemma NothingBeforeFirst(c: Call)
    requires FirstBuffer(c) <= |c.buffers|
    ensures Concat(c.buffers[..FirstBuffer(c)]) == []
  {
    if HeadIsEmpty(c) {
      ConcatNext(c.buffers, 0);
    }
  }

  lemma PrefixExtends(front: seq<Byte>, part: seq<Byte>, data: seq<Byte>, whole: seq<Byte>)
    requires part <= data && front + data <= whole
    ensures front + part <= whole
  {
    assert front + part == (front + data)[..|front| + |part|];
  }

  lemma NextIsWithin(buffers: seq<Buffer>, i: nat)
    requires i < |buffers|
    ensures Concat(buffers[..i]) + buffers[i] <= Concat(buffers)
  {
    ConcatNext(buffers, i);
    ConcatOfPrefix(buffers, i + 1);
  }

  lemma PartOfBuffer(buffers: seq<Buffer>, a: Attempt)
    requires a.buffer < |buffers|
    ensures BytesOf(buffers, a) <= buffers[a.buffer]
  {
  }

  lemma OneMoreAttempt(buffers: seq<Buffer>, a: Attempt)
    requires a.buffer < |buffers|
    ensures Concat(buffers[..a.buffer]) + BytesOf(buffers, a) <= Concat(buffers)
  {
    NextIsWithin(buffers, a.buffer);
    PartOfBuffer(buffers, a);
    PrefixExtends(Concat(buffers[..a.buffer]), BytesOf(buffers, a), buffers[a.buffer], Concat(buffers));
  }

  lemma BytesOfShape(buffers: seq<Buffer>, log: seq<Attempt>, n: nat, conn: Connection, lo: nat, hi: nat)
    requires FailedPrefix(log, n) && n < |log| && lo <= hi <= |buffers| && Concat(buffers[..lo]) == []
    requires SentFrom(log, n, conn, lo, hi)
          || (SentFrom(log[..|log| - 1], n, conn, lo, hi) && hi == log[|log| - 1].buffer < |buffers|)
    ensures BytesOut(buffers, log) <= Concat(buffers)
  {
    if SentFrom(log, n, conn, lo, hi) {
      BytesOfSent(buffers, log, n, conn, lo, hi);
      ConcatOfPrefix(buffers, hi);
    } else {
      assert FailedPrefix(log[..|log| - 1], n);
      BytesOfSent(buffers, log[..|log| - 1], n, conn, lo, hi);
      OneMoreAttempt(buffers, log[|log| - 1]);
    }
  }

  lemma BytesAfterRetries(c: Call)
    requires CallInv(c) && c.retries < |c.log|
    ensures BytesOut(c.buffers, c.log) <= Concat(c.buffers)
  {
    var conn, hi := LogShape(c);
    NothingBeforeFirst(c);
    BytesOfShape(c.buffers, c.log, c.retries, conn, FirstBuffer(c), hi);
  }

  /**
   Down to the bytes, partial writes included: what a call has put on the wire, over all its
   connections, is at every moment a prefix of the batch, and all of it if the result is Ok.
   */
  lemma BytesArePrefix(c: Call)
    requires CallInv(c)
    ensures BytesOut(c.buffers, c.log) <= Concat(c.buffers)
    ensures c.phase == Returned(Delivered) ==> BytesOut(c.buffers, c.log) == Concat(c.buffers)
  {
    if |c.log| == c.retries {
      BytesOfFailures(c.buffers, c.log, c.retries);
    } else {
      BytesAfterRetries(c);
    }
    if c.phase == Returned(Delivered) && c.buffers != [] {
      NothingBeforeFirst(c);
      BytesOfSent(c.buffers, c.log, c.retries, c.carrier.value, FirstBuffer(c), |c.buffers|);
      assert c.buffers[..|c.buffers|] == c.buffers;
    }
  }

  /** What the last attempt has put on its stream if it was not fully written. */
  function PartWritten(c: Call): seq<Byte> {
    if c.log != [] && c.log[|c.log| - 1].outcome != Sent then BytesOf(c.buffers, c.log[|c.log| - 1]) else []
  }

  lemma BytesOfExactShape(buffers: seq<Buffer>, log: seq<Attempt>, n: nat, conn: Connection, lo: nat, hi: nat)
    requires FailedPrefix(log, n) && n < |log| && lo <= hi <= |buffers| && Concat(buffers[..lo]) == []
    requires SentFrom(log, n, conn, lo, hi) || SentFrom(log[..|log| - 1], n, conn, lo, hi)
    requires SentFrom(log, n, conn, lo, hi) || log[|log| - 1].outcome != Sent
    ensures Written(log) == Range(lo, hi)
    ensures SentFrom(log, n, conn, lo, hi) ==> BytesOut(buffers, log) == Concat(buffers[..hi])
    ensures !SentFrom(log, n, conn, lo, hi) ==>
              BytesOut(buffers, log) == Concat(buffers[..hi]) + BytesOf(buffers, log[|log| - 1])
  {
    if SentFrom(log, n, conn, lo, hi) {
      BytesOfSent(buffers, log, n, conn, lo, hi);
      WrittenOfSent(log, n, conn, lo, hi);
    } else {
      assert FailedPrefix(log[..|log| - 1], n);
      BytesOfSent(buffers, log[..|log| - 1], n, conn, lo, hi);
      WrittenOfSent(log[..|log| - 1], n, conn, lo, hi);
    }
  }

  /** To the byte: the buffers fully written, and of one more the part that a failed write got out. */
  lemma BytesAreExact(c: Call) returns (hi: nat)
    requires CallInv(c) && c.buffers != []
    ensures FirstBuffer(c) <= hi <= |c.buffers| && Written(c.log) == Range(FirstBuffer(c), hi)
    ensures BytesOut(c.buffers, c.log) == Concat(c.buffers[..hi]) + PartWritten(c)
    ensures PartWritten(c) != [] ==> WroteInPart(c) && c.log[|c.log| - 1].buffer == hi
    ensures WroteInPart(c) ==>
              var written := c.log[|c.log| - 1].outcome.written;
              && hi < |c.buffers|
              && PartWritten(c) == if written <= |c.buffers[hi]| then c.buffers[hi][..written] else c.buffers[hi]
  {
    NothingBeforeFirst(c);
    if |c.log| == c.retries {
      hi := FirstBuffer(c);
      OnlyFailures(c);
    } else {
      var conn;
      conn, hi := LogShape(c);
      BytesOfExactShape(c.buffers, c.log, c.retries, conn, FirstBuffer(c), hi);
    }
  }

  lemma OnlyFailures(c: Call)
    requires FailedPrefix(c.log, c.retries) && |c.log| == c.retries
    ensures Written(c.log) == [] && BytesOut(c.buffers, c.log) == [] && PartWritten(c) == [] && !WroteInPart(c)
  {
    WrittenOfFailures(c.log, c.retries);
    BytesOfFailures(c.buffers, c.log, c.retries);
  }

  // ----- the result

  lemma DeliveredWroteAll(c: Call)
    requires CallInv(c) && c.phase == Returned(Delivered)
    ensures AllWritten(c)
  {
    if c.buffers != [] {
      forall k | FirstBuffer(c) <= k < |c.buffers|
        ensures WrittenOut(c, k)
      {
        assert c.log[c.retries + (k - FirstBuffer(c))] == Attempt(c.carrier.value, k, Sent);
      }
    }
  }

  /** A call that ended otherwise left its last buffer unwritten. */
  lemma OthersLeftTheLast(c: Call)
    requires CallInv(c) && c.phase.Returned? && c.phase.result != Delivered
    requires FirstBuffer(c) < |c.buffers|
    ensures !WrittenOut(c, |c.buffers| - 1)
  {
  }

  /**
   `send_batch` returns Ok exactly when every buffer went out.  When nothing has to go
   out (no buffers, or a single empty one) it returns Ok exactly when there was no
   buffer or a connection was found.
   */
  lemma OkMeansEveryBufferWentOut(c: Call)
    requires CallInv(c) && c.phase.Returned?
    ensures FirstBuffer(c) < |c.buffers| ==> (c.phase.result == Delivered <==> AllWritten(c))
    ensures FirstBuffer(c) >= |c.buffers| ==>
              c.log == [] && (c.phase.result == Delivered <==> c.buffers == [] || c.carrier.Some?)
  {
    if c.phase.result == Delivered {
      DeliveredWroteAll(c);
    } else if FirstBuffer(c) < |c.buffers| {
      OthersLeftTheLast(c);
    } else {
      assert c.retries == 0;
    }
  }

  /** An empty buffer 0 warms the connection: a stream is never opened for it. */
  lemma EmptyHeadIsNotSent(c: Call, i: nat)
    requires CallInv(c) && HeadIsEmpty(c) && i < |c.log|
    ensures c.log[i].buffer > 0
  {
  }

  /** How `_send_buffer` ends, seen from its own counters. */
  lemma OutcomeClassification(c: Call)
    requires CallInv(c) && c.phase.Returned? && c.buffers != []
    ensures c.failedConnects <= 1
    ensures c.phase.result != Cancelled ==> c.iterations == c.reuses + c.tryCount + c.failedConnects
    ensures c.phase.result == Delivered ==>
              c.carrier.Some? && (HeadIsEmpty(c) || Attempt(c.carrier.value, 0, Sent) in c.log)
    ensures c.phase.result.Failed? && c.carrier.None? && c.failedConnects == 0 && !WroteInPart(c) ==>
              c.tryCount == MAX_CONNECTS && c.phase.result.error == ConnectionError
    ensures c.phase.result.Failed? && c.phase.result.error == WriteError && c.failedConnects == 0 ==>
              WroteInPart(c)
  {
    if !HeadIsEmpty(c) && c.phase.result == Delivered {
      assert c.log[c.retries] == Attempt(c.carrier.value, 0, Sent);
    }
  }

  /**
   The error a call returns is that of its last attempt, unless a connect was refused: a write
   error if the stream was open, a connection error if it could not be opened.
   */
  lemma ErrorIsOfLastAttempt(c: Call)
    requires CallInv(c) && c.phase.Returned? && c.phase.result.Failed? && c.failedConnects == 0
    ensures c.log != []
    ensures c.phase.result.error == WriteError <==> c.log[|c.log| - 1].outcome.WriteFailed?
    ensures c.phase.result.error == ConnectionError <==> c.log[|c.log| - 1].outcome == OpenFailed
  {
  }

  /** A call that has returned has come to its end. */
  lemma {:induction false} ReturnedStays(s: System, es: seq<Event>, i: nat)
    requires Legal(s, es) && i < |s.calls| && s.calls[i].phase.Returned?
    ensures i < |Run(s, es).calls| && Run(s, es).calls[i] == s.calls[i]
    decreases |es|
  {
    if es != [] {
      ReturnedStays(Apply(s, es[0]), es[1..], i);
    }
  }

  lemma ConnectRefusedAt(s: System, e: Event, i: nat)
    requires Enabled(s, e) && i < |s.calls|
    ensures i < |Apply(s, e).calls|
    ensures Apply(s, e).calls[i].failedConnects != s.calls[i].failedConnects ==>
              && e.Settle? && e.call == i && e.outcome.ConnectFailed?
              && Apply(s, e).calls[i].phase == Returned(Failed(e.outcome.error))
  {
  }

  /** After a refused connect it is the very error of that connect, and nothing was tried after it. */
  lemma {:induction false} RefusalIsReported(s: System, es: seq<Event>, i: nat)
    requires Legal(s, es) && i < |s.calls| && s.calls[i].failedConnects == 0
    ensures i < |Run(s, es).calls|
    ensures var c := Run(s, es).calls[i];
            c.failedConnects > 0 ==>
              && c.phase.Returned? && c.phase.result.Failed?
              && Settle(i, ConnectFailed(c.phase.result.error)) in es
    decreases |es|
  {
    if es != [] {
      var s' := Apply(s, es[0]);
      ConnectRefusedAt(s, es[0], i);
      if s'.calls[i].failedConnects == 0 {
        RefusalIsReported(s', es[1..], i);
      } else {
        ReturnedStays(s', es[1..], i);
      }
    }
  }

  /** The last attempt got a stream but not the whole buffer. */
  predicate WroteInPart(c: Call) {
    c.log != [] && c.log[|c.log| - 1].outcome.WriteFailed?
  }

  // ----- every call returns

  predicate AllReturned(s: System) {
    forall i | 0 <= i < |s.calls| :: s.calls[i].phase.Returned?
  }

  /** Some call can go on, without one being dropped, as long as one has not returned. */
  lemma SomeCallCanStep(s: System) returns (e: Event)
    requires Inv(s) && !AllReturned(s)
    ensures Enabled(s, e) && !e.Cancel?
  {
    var i :| 0 <= i < |s.calls| && !s.calls[i].phase.Returned?;
    if s.calls[i].phase.Holding? {
      e := Settle(i, Connected(1));
    } else if !s.calls[i].phase.Looping? {
      e := Send(i, Sent);
    } else if s.holder == None {
      e := Lock(i);
    } else {
      assert s.calls[s.holder.value].phase.Holding?;
      e := Settle(s.holder.value, Connected(1));
    }
  }

  /** From any state of a run, going on as long as possible brings every call to its end. */
  lemma {:induction false} EveryCallReturns(s: System) returns (es: seq<Event>)
    requires Inv(s)
    ensures Legal(s, es) && AllReturned(Run(s, es))
    ensures forall k | 0 <= k < |es| :: !es[k].Cancel?
    decreases SystemRank(s)
  {
    if AllReturned(s) {
      es := [];
    } else {
      var e := SomeCallCanStep(s);
      StepInv(s, e);
      SystemRankDecreases(s, e);
      SystemRankNonNegative(Apply(s, e));
      SystemRankNonNegative(s);
      var rest := EveryCallReturns(Apply(s, e));
      es := [e] + rest;
    }
  }

  /** A run that cannot be continued has brought every call to its end. */
  lemma StuckMeansReturned(s: System, es: seq<Event>)
    requires Initial(s) && Legal(s, es)
    requires forall e: Event | Enabled(Run(s, es), e) :: e.Cancel?
    ensures AllReturned(Run(s, es))
  {
    InitialInv(s);
    RunInv(s, es);
    if !AllReturned(Run(s, es)) {
      var e := SomeCallCanStep(Run(s, es));
    }
  }
}
