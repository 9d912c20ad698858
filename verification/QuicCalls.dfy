/**
 What every reachable state says about one call, and about the slot: the invariant of
 the protocol, kept by every step whatever the interleaving and the outcomes.
 */
module QuicCalls {
  import opened Wrappers
  import opened QuicProtocol

  // ----- one call

  /** The first `n` attempts: buffer 0 failing to open a stream, each time on a later connection. */
  ghost predicate FailedPrefix(log: seq<Attempt>, n: nat) {
    && n <= |log|
    && (forall i | 0 <= i < n :: log[i].buffer == 0 && log[i].outcome == OpenFailed)
    && (forall i, j | 0 <= i < j < n :: log[i].conn.serial < log[j].conn.serial)
  }

  /** The attempts from position `n` on: buffers `lo..hi`, in order, all sent on `conn`. */
  ghost predicate SentFrom(log: seq<Attempt>, n: nat, conn: Connection, lo: nat, hi: nat) {
    && lo <= hi
    && |log| == n + (hi - lo)
    && forall i | n <= i < |log| :: log[i] == Attempt(conn, lo + (i - n), Sent)
  }

  /** Every connection that failed this call is older than `conn`. */
  ghost predicate NewerThanFailures(c: Call, conn: Connection) {
    forall i | 0 <= i < c.retries && i < |c.log| :: c.log[i].conn.serial < conn.serial
  }

  /** Before the call has a connection to send on. */
  ghost predicate Seeking(c: Call) {
    && c.buffers != []
    && c.carrier == None
    && |c.log| == c.retries
    && c.tryCount < MAX_CONNECTS
    && c.failedConnects == 0
    && c.retries == c.tryCount + c.reuses
    && c.lastError == (if c.log == [] then None else Some(ConnectionError))
    && c.lastId == (if c.log == [] then 0 else c.log[|c.log| - 1].conn.stableId)
    && (c.log != [] ==> !HeadIsEmpty(c))
  }

  ghost predicate SendingHead(c: Call, conn: Connection) {
    && !HeadIsEmpty(c)
    && c.carrier == None
    && |c.log| == c.retries
    && c.failedConnects == 0
    && c.iterations == c.retries + 1 == c.tryCount + c.reuses
    && c.lastId == conn.stableId
    && c.connection == Some(conn)
    && NewerThanFailures(c, conn)
  }

  /** `_send_buffer` returned `conn` and buffers up to `hi` have been handled. */
  ghost predicate Carrying(c: Call, conn: Connection, hi: nat) {
    && 1 <= hi <= |c.buffers|
    && c.carrier == Some(conn)
    && SentFrom(c.log, c.retries, conn, FirstBuffer(c), hi)
    && c.failedConnects == 0
    && c.iterations == c.retries + 1 == c.tryCount + c.reuses
    && NewerThanFailures(c, conn)
    && (c.retries > 0 ==> !HeadIsEmpty(c))
  }

  /** The four ways a call fails. */
  ghost predicate FailedCall(c: Call, e: QuicError) {
    || Exhausted(c, e)
    || ConnectRefused(c)
    || HeadUnwritten(c, e)
    || BatchBroken(c, e)
  }

  /** Two connects, and every attempt at buffer 0 was a connection error. */
  ghost predicate Exhausted(c: Call, e: QuicError) {
    && c.carrier == None && |c.log| == c.retries && c.failedConnects == 0
    && c.tryCount == MAX_CONNECTS && c.retries == c.iterations == c.tryCount + c.reuses
    && e == ConnectionError
    && !HeadIsEmpty(c)
  }

  /** A connect failed. */
  ghost predicate ConnectRefused(c: Call) {
    && c.carrier == None && |c.log| == c.retries && c.failedConnects == 1
    && c.tryCount < MAX_CONNECTS
    && c.retries == c.tryCount + c.reuses && c.iterations == c.retries + 1
    && (c.retries > 0 ==> !HeadIsEmpty(c))
  }

  /** Buffer 0 got a stream but was not fully written. */
  ghost predicate HeadUnwritten(c: Call, e: QuicError) {
    && c.carrier == None && |c.log| == c.retries + 1 && c.failedConnects == 0
    && c.iterations == c.retries + 1 == c.tryCount + c.reuses
    && e == WriteError
    && c.log[c.retries].buffer == 0 && c.log[c.retries].outcome.WriteFailed?
    && NewerThanFailures(c, c.log[c.retries].conn)
    && !HeadIsEmpty(c)
  }

  /** A later buffer failed on the connection that carried buffer 0. */
  ghost predicate BatchBroken(c: Call, e: QuicError) {
    && c.carrier.Some?
    && |c.log| > c.retries
    && var last := c.log[|c.log| - 1];
    && 1 <= last.buffer < |c.buffers|
    && last.conn == c.carrier.value
    && last.outcome != Sent && e == ErrorOf(last.outcome)
    && SentFrom(c.log[..|c.log| - 1], c.retries, c.carrier.value, FirstBuffer(c), last.buffer)
    && c.failedConnects == 0
    && c.iterations == c.retries + 1 == c.tryCount + c.reuses
    && NewerThanFailures(c, c.carrier.value)
    && (c.retries > 0 ==> !HeadIsEmpty(c))
  }

  /** A call dropped part of the way. */
  ghost predicate CancelledCall(c: Call) {
    && c.buffers != []
    && c.failedConnects == 0
    && (c.retries > 0 ==> !HeadIsEmpty(c))
    && match c.carrier
       case None =>
         && |c.log| == c.retries
         && c.retries <= c.tryCount + c.reuses <= c.iterations <= c.retries + 1
         && (c.iterations > c.tryCount + c.reuses ==> c.tryCount < MAX_CONNECTS)
         && (c.iterations == c.tryCount + c.reuses == c.retries + 1 ==>
               c.connection.Some? && NewerThanFailures(c, c.connection.value))
       case Some(conn) =>
         && |c.log| >= c.retries
         && FirstBuffer(c) + (|c.log| - c.retries) < |c.buffers|
         && Carrying(c, conn, FirstBuffer(c) + (|c.log| - c.retries))
  }

  ghost predicate PhaseInv(c: Call) {
    match c.phase
    case Looping => Seeking(c) && c.iterations == c.retries
    case Holding => Seeking(c) && c.iterations == c.retries + 1
    case Sending(conn) => SendingHead(c, conn)
    case Batching(conn, k) => Carrying(c, conn, k) && k < |c.buffers|
    case Returned(Delivered) =>
      if c.buffers == [] then c == NewCall([])
      else c.carrier.Some? && Carrying(c, c.carrier.value, |c.buffers|)
    case Returned(Failed(e)) => c.buffers != [] && FailedCall(c, e)
    case Returned(Cancelled) => CancelledCall(c)
  }

  ghost predicate CallInv(c: Call) {
    c.tryCount <= MAX_CONNECTS && FailedPrefix(c.log, c.retries) && PhaseInv(c)
  }

  lemma CarryKeeps(c: Call, conn: Connection)
    requires c.buffers != []
    requires FailedPrefix(c.log, c.retries) && c.tryCount <= MAX_CONNECTS
    requires SentFrom(c.log, c.retries, conn, FirstBuffer(c), 1)
    requires c.failedConnects == 0 && c.iterations == c.retries + 1 == c.tryCount + c.reuses
    requires NewerThanFailures(c, conn)
    requires c.retries > 0 ==> !HeadIsEmpty(c)
    ensures CallInv(Carry(c, conn))
  {
  }

  lemma ConnectKeeps(c: Call, conn: Connection)
    requires CallInv(c) && c.phase.Holding? && NewerThanFailures(c, conn)
    ensures CallInv(Use(c.(tryCount := c.tryCount + 1), conn))
  {
  }

  lemma ReuseKeeps(c: Call, conn: Connection)
    requires CallInv(c) && c.phase.Holding? && NewerThanFailures(c, conn)
    ensures CallInv(Use(c.(reuses := c.reuses + 1), conn))
  {
  }

  lemma RefusalKeeps(c: Call, e: QuicError)
    requires CallInv(c) && c.phase.Holding?
    ensures CallInv(c.(failedConnects := c.failedConnects + 1, phase := Returned(Failed(e))))
  {
  }

  /** The guarded block keeps the call's invariant, given that a connection with another id is newer. */
  lemma SettleKeeps(c: Call, slot: Option<Connection>, serial: nat, outcome: ConnectOutcome)
    requires CallInv(c) && c.phase.Holding?
    requires NewerThanFailures(c, Connection(serial, 0))
    requires slot.Some? && !Connects(c, slot) ==> NewerThanFailures(c, slot.value)
    ensures CallInv(SettleCall(c, slot, serial, outcome))
  {
    if !Connects(c, slot) {
      ReuseKeeps(c, slot.value);
    } else if outcome.Connected? {
      ConnectKeeps(c, Connection(serial, outcome.stableId));
    } else {
      RefusalKeeps(c, outcome.error);
    }
  }

  lemma RetryKeeps(c: Call, conn: Connection)
    requires CallInv(c) && c.phase == Sending(conn)
    ensures CallInv(Retry(c.(log := c.log + [Attempt(conn, 0, OpenFailed)])))
  {
  }

  lemma BatchSendKeeps(c: Call, conn: Connection, k: nat, o: SendOutcome)
    requires CallInv(c) && c.phase == Batching(conn, k)
    ensures CallInv(SendCall(c, o))
  {
    var c' := SendCall(c, o);
    if o == Sent {
      assert Carrying(c', conn, k + 1);
    } else {
      assert c'.log[..|c'.log| - 1] == c.log;
      assert BatchBroken(c', ErrorOf(o));
    }
  }

  lemma SendKeeps(c: Call, o: SendOutcome)
    requires CallInv(c) && (c.phase.Sending? || c.phase.Batching?)
    ensures CallInv(SendCall(c, o))
  {
    match c.phase
    case Sending(conn) =>
      if o == Sent {
        CarryKeeps(c.(log := c.log + [Attempt(conn, 0, o)]), conn);
      } else if o == OpenFailed {
        RetryKeeps(c, conn);
      } else {
        assert HeadUnwritten(SendCall(c, o), WriteError);
      }
    case Batching(conn, k) =>
      BatchSendKeeps(c, conn, k, o);
  }

  lemma CancelKeeps(c: Call)
    requires CallInv(c) && !c.phase.Returned?
    ensures CallInv(c.(phase := Returned(Cancelled)))
  {
  }

  /** After the retries at most one attempt is at buffer 0, on a newer connection. */
  lemma AfterRetries(c: Call)
    requires CallInv(c) && |c.log| > c.retries
    ensures NewerThanFailures(c, c.log[c.retries].conn)
    ensures forall i | c.retries < i < |c.log| :: c.log[i].buffer > 0
  {
    if c.phase.Returned? && c.phase.result.Failed? && !HeadUnwritten(c, c.phase.result.error) {
      assert BatchBroken(c, c.phase.result.error);
      var front := c.log[..|c.log| - 1];
      assert forall i | c.retries <= i < |front| :: front[i] == c.log[i];
    }
  }

  /** A call in its last round has a connection newer than all that failed it, or a connect to spare. */
  lemma LastRound(c: Call)
    requires CallInv(c)
    ensures c.iterations <= c.retries + 1
    ensures c.iterations > c.retries && c.tryCount == MAX_CONNECTS ==>
              || (c.connection.Some? && NewerThanFailures(c, c.connection.value))
              || (c.carrier.Some? && NewerThanFailures(c, c.carrier.value))
              || |c.log| > c.retries
  {
  }

  // ----- all calls and the slot

  ghost predicate Installed(s: System, conn: Connection) {
    conn.serial < |s.installed| && s.installed[conn.serial] == conn
  }

  /** The connections a call knows of are connections the slot has held. */
  ghost predicate Known(s: System, c: Call) {
    && (forall i | 0 <= i < |c.log| :: Installed(s, c.log[i].conn))
    && (c.carrier.Some? ==> Installed(s, c.carrier.value))
    && (c.connection.Some? ==> Installed(s, c.connection.value))
    && (c.phase.Sending? ==> Installed(s, c.phase.conn))
    && (c.phase.Batching? ==> Installed(s, c.phase.conn))
  }

  ghost predicate SlotInv(s: System) {
    && (forall k | 0 <= k < |s.installed| :: s.installed[k].serial == k)
    && s.slot == if s.installed == [] then None else Some(s.installed[|s.installed| - 1])
  }

  /** The guard has at most one owner, and it is the holder. */
  ghost predicate GuardInv(s: System) {
    && (forall i | 0 <= i < |s.calls| :: s.calls[i].phase.Holding? <==> s.holder == Some(i))
    && (s.holder.Some? ==> s.holder.value < |s.calls|)
  }

  ghost predicate CallsInv(s: System) {
    forall i | 0 <= i < |s.calls| :: CallInv(s.calls[i]) && Known(s, s.calls[i])
  }

  ghost predicate Inv(s: System) {
    SlotInv(s) && GuardInv(s) && CallsInv(s)
  }

  lemma InitialInv(s: System)
    requires Initial(s)
    ensures Inv(s)
  {
  }

  /** If the slot's connection has another id than the last one used, it is a later connection. */
  lemma OtherIdIsNewer(s: System, c: Call)
    requires SlotInv(s) && Known(s, c) && CallInv(c) && c.phase.Holding?
    ensures NewerThanFailures(c, Connection(|s.installed|, 0))
    ensures s.slot.Some? && !Connects(c, s.slot) ==> NewerThanFailures(c, s.slot.value)
  {
  }

  lemma LockKeeps(c: Call)
    requires CallInv(c) && c.phase.Looping?
    ensures CallInv(c.(phase := Holding, iterations := c.iterations + 1))
  {
  }

  lemma {:induction false} StepKeepsCall(s: System, e: Event)
    requires Inv(s) && Enabled(s, e)
    ensures CallInv(Apply(s, e).calls[e.call])
  {
    var c := s.calls[e.call];
    match e
    case Lock(_) => LockKeeps(c);
    case Settle(_, outcome) =>
      OtherIdIsNewer(s, c);
      SettleKeeps(c, s.slot, |s.installed|, outcome);
    case Send(_, o) => SendKeeps(c, o);
    case Cancel(_) => CancelKeeps(c);
  }

  /** Connections are only ever added to the list, at its end. */
  lemma StepInstalled(s: System, e: Event)
    requires Enabled(s, e)
    ensures s.installed <= Apply(s, e).installed
    ensures |Apply(s, e).calls| == |s.calls|
    ensures forall i | 0 <= i < |s.calls| && i != e.call :: Apply(s, e).calls[i] == s.calls[i]
  {
  }

  lemma KnownGrows(s: System, s': System, c: Call)
    requires Known(s, c) && s.installed <= s'.installed
    ensures Known(s', c)
  {
  }

  lemma SendKnown(s: System, c: Call, o: SendOutcome)
    requires Known(s, c) && (c.phase.Sending? || c.phase.Batching?)
    ensures Known(s, SendCall(c, o))
  {
  }

  lemma SettleKnown(s: System, s': System, c: Call, outcome: ConnectOutcome)
    requires SlotInv(s) && Known(s', c) && s.installed <= s'.installed
    requires Connects(c, s.slot) && outcome.Connected? ==>
               Installed(s', Connection(|s.installed|, outcome.stableId))
    ensures Known(s', SettleCall(c, s.slot, |s.installed|, outcome))
  {
  }

  lemma StepKnown(s: System, e: Event)
    requires SlotInv(s) && Enabled(s, e) && Known(s, s.calls[e.call])
    ensures Known(Apply(s, e), Apply(s, e).calls[e.call])
  {
    var s' := Apply(s, e);
    var c := s.calls[e.call];
    StepInstalled(s, e);
    KnownGrows(s, s', c);
    match e
    case Settle(_, outcome) => SettleKnown(s, s', c, outcome);
    case Send(_, o) => SendKnown(s', c, o);
    case _ =>
  }

  lemma StepSlot(s: System, e: Event)
    requires SlotInv(s) && Enabled(s, e)
    ensures SlotInv(Apply(s, e))
  {
  }

  lemma StepGuard(s: System, e: Event)
    requires GuardInv(s) && Enabled(s, e)
    ensures GuardInv(Apply(s, e))
  {
  }

  lemma {:induction false} StepInv(s: System, e: Event)
    requires Inv(s) && Enabled(s, e)
    ensures Inv(Apply(s, e))
  {
    var s' := Apply(s, e);
    StepSlot(s, e);
    StepGuard(s, e);
    StepInstalled(s, e);
    forall i | 0 <= i < |s'.calls|
      ensures CallInv(s'.calls[i]) && Known(s', s'.calls[i])
    {
      if i == e.call {
        StepKeepsCall(s, e);
        StepKnown(s, e);
      } else {
        KnownGrows(s, s', s.calls[i]);
      }
    }
  }

  /** Every state a run goes through satisfies the invariant. */
  lemma {:induction false} RunInv(s: System, es: seq<Event>)
    requires Inv(s) && Legal(s, es)
    ensures Inv(Run(s, es))
    decreases |es|
  {
    if es != [] {
      StepInv(s, es[0]);
      RunInv(Apply(s, es[0]), es[1..]);
    }
  }
}
