/**
 The connect / reuse / reconnect protocol of one `QuicClient`.

 Any number of calls to `send_batch` (and `send_buffer`, a batch of one buffer)
 share one mutex-protected connection slot.  This module gives the state of all of
 them together and the steps they take: the order of the steps and the outcome of
 every connect and every send are arbitrary.
 */
module QuicProtocol {
  import opened Wrappers

  datatype QuicError = WriteError | ConnectionError | ConnectError | ClosedStream

  /**
   `stableId` is what the code compares; a later connection may reuse it.  `serial`
   is the place of the connection in the order of installation.  It stands for the
   identity of the object: no decision of the code reads it.
   */
  datatype Connection = Connection(serial: nat, stableId: nat)

  /** What a handshake came to. */
  datatype ConnectOutcome = Connected(stableId: nat) | ConnectFailed(error: QuicError)

  /**
   `open_uni` failing is a `ConnectionError`; `write_all` failing is a `WriteError`, with
   the stream having taken the first `written` bytes.
   */
  datatype SendOutcome = Sent | OpenFailed | WriteFailed(written: nat)

  newtype Byte = x: int | 0 <= x < 256

  type Buffer = seq<Byte>

  /** One completed call of `_send_buffer_using_conn`: buffer number `buffer` on `conn`. */
  datatype Attempt = Attempt(conn: Connection, buffer: nat, outcome: SendOutcome)

  datatype CallResult = Delivered | Failed(error: QuicError) | Cancelled

  datatype Phase =
    | Looping                                // at the head of the retry loop
    | Holding                                // owns the guard of the slot
    | Sending(conn: Connection)              // sending buffer 0
    | Batching(conn: Connection, next: nat)  // sending the buffers after buffer 0
    | Returned(result: CallResult)

  /**
   One call of `send_batch`.  `tryCount`, `lastId`, `lastError` and `connection` are
   variables of the code, `carrier` is the connection `_send_buffer` returned; the other fields
   record what the call has done so far.
   */
  datatype Call = Call(
    buffers: seq<Buffer>,
    phase: Phase,
    tryCount: nat,
    lastId: nat,
    lastError: Option<QuicError>,
    connection: Option<Connection>,
    carrier: Option<Connection>,
    iterations: nat,
    reuses: nat,
    failedConnects: nat,
    retries: nat,
    log: seq<Attempt>)

  /** `installed` lists every connection the slot has held, in order. */
  datatype System = System(
    slot: Option<Connection>,
    holder: Option<nat>,
    installed: seq<Connection>,
    calls: seq<Call>)

  /** Steps.  A `Settle` whose branch is the reuse one does not look at the outcome. */
  datatype Event =
    | Lock(call: nat)
    | Settle(call: nat, outcome: ConnectOutcome)
    | Send(call: nat, sent: SendOutcome)
    | Cancel(call: nat)

  const MAX_CONNECTS: nat := 2

  function NewCall(buffers: seq<Buffer>): Call {
    Call(buffers, if buffers == [] then Returned(Delivered) else Looping,
         0, 0, None, None, None, 0, 0, 0, 0, [])
  }

  ghost predicate Initial(s: System) {
    && s.holder == None
    && (forall i | 0 <= i < |s.calls| :: s.calls[i] == NewCall(s.calls[i].buffers))
    && |s.installed| <= 1
    && (|s.installed| == 1 ==> s.installed[0].serial == 0)
    && s.slot == if s.installed == [] then None else Some(s.installed[0])
  }

  function ErrorOf(o: SendOutcome): QuicError {
    if o == OpenFailed then ConnectionError else WriteError
  }

  predicate HeadIsEmpty(c: Call) {
    c.buffers == [] || c.buffers[0] == []
  }

  /** The number of the first buffer that goes on the wire: an empty buffer 0 does not. */
  function FirstBuffer(c: Call): nat {
    if HeadIsEmpty(c) then 1 else 0
  }

  /** `_send_buffer` returned `conn`; the rest of the batch, if any, follows on it. */
  function Carry(c: Call, conn: Connection): Call {
    c.(carrier := Some(conn),
       phase := if |c.buffers| <= 1 then Returned(Delivered) else Batching(conn, 1))
  }

  /** The code between the release of the guard and the first send. */
  function Use(c: Call, conn: Connection): Call {
    var c' := c.(connection := Some(conn));
    if HeadIsEmpty(c) then Carry(c', conn)
    else c'.(lastId := conn.stableId, phase := Sending(conn))
  }

  /** True when the guarded block connects rather than reuses the slot. */
  predicate Connects(c: Call, slot: Option<Connection>) {
    slot.None? || slot.value.stableId == c.lastId
  }

  /** The guarded block, for the call's own state. */
  function SettleCall(c: Call, slot: Option<Connection>, serial: nat, outcome: ConnectOutcome): Call {
    if Connects(c, slot) then
      match outcome
      case Connected(id) => Use(c.(tryCount := c.tryCount + 1), Connection(serial, id))
      case ConnectFailed(e) => c.(failedConnects := c.failedConnects + 1, phase := Returned(Failed(e)))
    else
      Use(c.(reuses := c.reuses + 1), slot.value)
  }

  /** A connection error sends the call back to the head of the loop, or out of it. */
  function Retry(c: Call): Call {
    var c' := c.(lastError := Some(ConnectionError), retries := c.retries + 1);
    c'.(phase := if c'.tryCount < MAX_CONNECTS then Looping else Returned(Failed(c'.lastError.value)))
  }

  /** A send came back. */
  function SendCall(c: Call, o: SendOutcome): Call
    requires c.phase.Sending? || c.phase.Batching?
  {
    match c.phase
    case Sending(conn) =>
      var c' := c.(log := c.log + [Attempt(conn, 0, o)]);
      (match o
       case Sent => Carry(c', conn)
       case OpenFailed => Retry(c')
       case WriteFailed(_) => c'.(phase := Returned(Failed(WriteError))))
    case Batching(conn, k) =>
      c.(log := c.log + [Attempt(conn, k, o)],
         phase := if o != Sent then Returned(Failed(ErrorOf(o)))
                  else if k + 1 < |c.buffers| then Batching(conn, k + 1)
                  else Returned(Delivered))
  }

  predicate Enabled(s: System, e: Event) {
    && e.call < |s.calls|
    && var p := s.calls[e.call].phase;
       match e
       case Lock(_) => p.Looping? && s.holder == None
       case Settle(_, _) => p.Holding?
       case Send(_, _) => p.Sending? || p.Batching?
       case Cancel(_) => !p.Returned?
  }

  function Apply(s: System, e: Event): System
    requires Enabled(s, e)
  {
    var c := s.calls[e.call];
    match e
    case Lock(i) =>
      s.(holder := Some(i),
         calls := s.calls[i := c.(phase := Holding, iterations := c.iterations + 1)])
    case Settle(i, outcome) =>
      var s' := s.(holder := None,
                   calls := s.calls[i := SettleCall(c, s.slot, |s.installed|, outcome)]);
      if Connects(c, s.slot) && outcome.Connected? then
        var conn := Connection(|s.installed|, outcome.stableId);
        s'.(slot := Some(conn), installed := s.installed + [conn])
      else s'
    case Send(i, o) =>
      s.(calls := s.calls[i := SendCall(c, o)])
    case Cancel(i) =>
      // dropping the future drops the guard
      s.(holder := if s.holder == Some(i) then None else s.holder,
         calls := s.calls[i := c.(phase := Returned(Cancelled))])
  }

  predicate Legal(s: System, events: seq<Event>)
    decreases |events|
  {
    events == [] || (Enabled(s, events[0]) && Legal(Apply(s, events[0]), events[1..]))
  }

  function Run(s: System, events: seq<Event>): System
    requires Legal(s, events)
    decreases |events|
  {
    if events == [] then s else Run(Apply(s, events[0]), events[1..])
  }

  lemma {:induction false} RunAppend(s: System, es: seq<Event>, fs: seq<Event>)
    requires Legal(s, es) && Legal(Run(s, es), fs)
    ensures Legal(s, es + fs)
    ensures Run(s, es + fs) == Run(Run(s, es), fs)
    decreases |es|
  {
    if es == [] {
      assert es + fs == fs;
    } else {
      assert (es + fs)[0] == es[0] && (es + fs)[1..] == es[1..] + fs;
      RunAppend(Apply(s, es[0]), es[1..], fs);
    }
  }

  lemma RunSnoc(s: System, es: seq<Event>, e: Event)
    requires Legal(s, es) && Enabled(Run(s, es), e)
    ensures Legal(s, es + [e])
    ensures Run(s, es + [e]) == Apply(Run(s, es), e)
  {
    assert [e][1..] == [];
    RunAppend(s, es, [e]);
  }
}
