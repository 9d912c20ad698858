/**
 The batch endpoint: the transactions that decode go out in chunks of ten, each chunk to
 all leaders at once and again, up to ten times, until some leader has taken it.
 */
module BatchHandler {
  import opened Wrappers
  import opened QuicProtocol
  import opened QuicCalls
  import opened QuicDelivery

  const MAX_RETRIES: nat := 10
  const CHUNK: nat := 10

  datatype TransportError = NoSendsAttempted | SendFailed(leader: nat, error: QuicError)

  type LeaderResult = Result<(), TransportError>

  // ----- one send to all leaders

  predicate SomeAccepted(results: seq<LeaderResult>) {
    exists i | 0 <= i < |results| :: results[i].Ok?
  }

  /** The error of the first leader, when none accepted. */
  function FirstError(results: seq<LeaderResult>): TransportError {
    if results != [] && results[0].Err? then results[0].error else NoSendsAttempted
  }

  /**
   The fold in `try_send_wire_transaction_batch`.  Its comment promises the last error;
   what it keeps, and returns, is the first.
   */
  method FoldResults(results: seq<LeaderResult>) returns (r: LeaderResult)
    ensures r.Ok? <==> SomeAccepted(results)
    ensures r.Ok? <==> exists i | 0 <= i < |results| :: results[i].Ok?
    ensures r.Err? ==> r.error == FirstError(results)
    ensures r.Err? && results != [] ==> r == results[0]
    ensures results == [] ==> r == Err(NoSendsAttempted)
  {
    var lastError: Option<TransportError> := None;
    var someSuccess := false;
    for i := 0 to |results|
      invariant someSuccess <==> SomeAccepted(results[..i])
      invariant lastError.None? ==> forall j | 0 <= j < i :: results[j].Ok?
      invariant lastError.Some? ==> exists j | 0 <= j < i ::
                  results[j] == Err(lastError.value) && forall l | 0 <= l < j :: results[l].Ok?
    {
      assert results[..i + 1] == results[..i] + [results[i]];
      match results[i] {
        case Err(e) =>
          if lastError.None? {
            lastError := Some(e);
          }
        case Ok(_) =>
          assert results[..i + 1][i].Ok?;
          someSuccess := true;
      }
      assert SomeAccepted(results[..i + 1]) <==> SomeAccepted(results[..i]) || results[i].Ok? by {
        assert forall j | 0 <= j < i :: results[..i + 1][j] == results[..i][j];
      }
    }
    assert results[..|results|] == results;
    if !someSuccess {
      assert results != [] ==> results[0].Err?;
      return Err(if lastError.Some? then lastError.value else NoSendsAttempted);
    }
    return Ok(());
  }

  // ----- decoding and chunks

  /** The transactions that decode, in order. */
  function Decodable<T>(txns: seq<T>, decode: T -> Option<Buffer>): seq<Buffer> {
    if txns == [] then []
    else
      var last := decode(txns[|txns| - 1]);
      Decodable(txns[..|txns| - 1], decode) + if last.Some? then [last.value] else []
  }

  lemma {:induction false} DecodableOfConcat<T>(a: seq<T>, b: seq<T>, decode: T -> Option<Buffer>)
    ensures Decodable(a + b, decode) == Decodable(a, decode) + Decodable(b, decode)
  {
    if b == [] {
      assert a + b == a;
    } else {
      assert (a + b)[..|a + b| - 1] == a + b[..|b| - 1];
      DecodableOfConcat(a, b[..|b| - 1], decode);
    }
  }

  /** Each transaction that decodes is there as what it decodes to, after those before it. */
  lemma {:induction false} DecodedInPlace<T>(txns: seq<T>, decode: T -> Option<Buffer>, i: nat)
    requires i < |txns| && decode(txns[i]).Some?
    ensures |Decodable(txns[..i], decode)| < |Decodable(txns, decode)|
    ensures Decodable(txns, decode)[|Decodable(txns[..i], decode)|] == decode(txns[i]).value
  {
    var n := |txns| - 1;
    if i < n {
      DecodedInPlace(txns[..n], decode, i);
      assert txns[..n][..i] == txns[..i];
    }
  }

  /** Which of the first `n` decode. */
  function Decoding<T>(txns: seq<T>, decode: T -> Option<Buffer>, n: nat): set<nat>
    requires n <= |txns|
  {
    set i | 0 <= i < n && decode(txns[i]).Some?
  }

  /** And nothing else is. */
  lemma {:induction false} DecodedCount<T>(txns: seq<T>, decode: T -> Option<Buffer>, n: nat)
    requires n <= |txns|
    ensures |Decodable(txns[..n], decode)| == |Decoding(txns, decode, n)|
  {
    if n > 0 {
      DecodedCount(txns, decode, n - 1);
      assert txns[..n][..n - 1] == txns[..n - 1];
      assert Decoding(txns, decode, n) ==
               Decoding(txns, decode, n - 1) + if decode(txns[n - 1]).Some? then {n - 1} else {};
    }
  }

  /** `chunks`: as many elements as fit in each, the rest in the last. */
  function Chunks<T>(s: seq<T>): seq<seq<T>> {
    if |s| <= CHUNK then (if s == [] then [] else [s])
    else [s[..CHUNK]] + Chunks(s[CHUNK..])
  }

  function Flatten<T>(ss: seq<seq<T>>): seq<T> {
    if ss == [] then [] else ss[0] + Flatten(ss[1..])
  }

  /** The chunks are the sequence cut up: full ones, and a last one that is not empty. */
  lemma {:induction false} ChunksCutUp<T>(s: seq<T>)
    ensures Flatten(Chunks(s)) == s
    ensures forall k | 0 <= k < |Chunks(s)| ::
              0 < |Chunks(s)[k]| <= 10 && (k < |Chunks(s)| - 1 ==> |Chunks(s)[k]| == 10)
    decreases |s|
  {
    if |s| > CHUNK {
      ChunksCutUp(s[CHUNK..]);
      assert Chunks(s)[1..] == Chunks(s[CHUNK..]);
      assert s == s[..CHUNK] + s[CHUNK..];
      assert forall k | 1 <= k < |Chunks(s)| :: Chunks(s)[k] == Chunks(s[CHUNK..])[k - 1];
    } else if s != [] {
      assert Chunks(s)[1..] == [];
    }
  }

  // ----- attempts

  /** What the leaders answer to each attempt, counted over the whole request. */
  type Answers = nat -> seq<LeaderResult>

  /** The attempt after the first acceptance from attempt `t` on, or `stop` if there is none before it. */
  function Until(answers: Answers, t: nat, stop: nat): nat
    decreases stop - t
  {
    if t >= stop then t
    else if SomeAccepted(answers(t)) then t + 1
    else Until(answers, t + 1, stop)
  }

  /** The attempt at which chunk `k` begins. */
  function Start(answers: Answers, k: nat): nat {
    if k == 0 then 0 else Until(answers, Start(answers, k - 1), Start(answers, k - 1) + MAX_RETRIES)
  }

  /** Some attempt at chunk `k` was accepted by some leader. */
  predicate ChunkAccepted(answers: Answers, k: nat) {
    exists t | Start(answers, k) <= t < Start(answers, k + 1) :: SomeAccepted(answers(t))
  }

  lemma {:induction false} UntilFirstAcceptance(answers: Answers, t: nat, stop: nat)
    requires t < stop
    ensures t < Until(answers, t, stop) <= stop
    ensures forall u | t <= u < Until(answers, t, stop) - 1 :: !SomeAccepted(answers(u))
    ensures SomeAccepted(answers(Until(answers, t, stop) - 1)) || Until(answers, t, stop) == stop
    decreases stop - t
  {
    if !SomeAccepted(answers(t)) && t + 1 < stop {
      UntilFirstAcceptance(answers, t + 1, stop);
    }
  }

  /** A chunk is tried until the first acceptance and no longer, or ten times without one. */
  lemma ChunkEndsAtFirstAcceptance(answers: Answers, k: nat)
    ensures Start(answers, k) < Start(answers, k + 1) <= Start(answers, k) + 10
    ensures forall u | Start(answers, k) <= u < Start(answers, k + 1) - 1 :: !SomeAccepted(answers(u))
    ensures ChunkAccepted(answers, k) <==> SomeAccepted(answers(Start(answers, k + 1) - 1))
    ensures !ChunkAccepted(answers, k) ==> Start(answers, k + 1) == Start(answers, k) + 10
  {
    UntilFirstAcceptance(answers, Start(answers, k), Start(answers, k) + MAX_RETRIES);
  }

  /** Each chunk takes one to ten attempts. */
  lemma {:induction false} AttemptsPerChunk(answers: Answers, k: nat)
    ensures k <= Start(answers, k) <= 10 * k
  {
    if k > 0 {
      AttemptsPerChunk(answers, k - 1);
      ChunkEndsAtFirstAcceptance(answers, k - 1);
    }
  }

  /** The count of attempts reported when chunk `k` was taken by nobody. */
  lemma AttemptsOnFailure(answers: Answers, k: nat)
    requires !ChunkAccepted(answers, k)
    ensures k + 10 <= Start(answers, k + 1) <= 10 * (k + 1)
  {
    ChunkEndsAtFirstAcceptance(answers, k);
    AttemptsPerChunk(answers, k);
  }

  lemma {:induction false} UntilSkips(answers: Answers, t: nat, u: nat, stop: nat)
    requires t <= u <= stop
    requires forall v | t <= v < u :: !SomeAccepted(answers(v))
    ensures Until(answers, t, stop) == Until(answers, u, stop)
    decreases u - t
  {
    if t < u {
      UntilSkips(answers, t + 1, u, stop);
    }
  }

  datatype Response =
    | Success(attempts: nat)
    | Failure(batchIndex: nat, batchAttempts: nat, lastError: TransportError, attempts: nat)

  /** What the response to a request of `n` chunks tells about what the leaders answered. */
  ghost predicate Tells(response: Response, n: nat, answers: Answers) {
    match response
    case Success(attempts) =>
      && attempts == Start(answers, n)
      && forall k | 0 <= k < n :: ChunkAccepted(answers, k)
    case Failure(k, tries, error, attempts) =>
      && k < n && tries == 10
      && attempts == Start(answers, k) + 10 == Start(answers, k + 1)
      && (forall j | 0 <= j < k :: ChunkAccepted(answers, j)) && !ChunkAccepted(answers, k)
      && error == FirstError(answers(attempts - 1))
  }

  /** Attempt `t` was the sending of chunk `k`. */
  ghost predicate SentAsPlanned(sent: seq<seq<Buffer>>, chunks: seq<seq<Buffer>>, answers: Answers, k: nat)
    requires k < |chunks|
  {
    forall t | Start(answers, k) <= t < Start(answers, k + 1) && t < |sent| :: sent[t] == chunks[k]
  }

  /** No leader accepted any of the attempts `lo..hi`. */
  ghost predicate AllRejected(answers: Answers, lo: nat, hi: nat) {
    forall u | lo <= u < hi :: !SomeAccepted(answers(u))
  }

  lemma OneMoreRejected(answers: Answers, lo: nat, hi: nat)
    requires AllRejected(answers, lo, hi) && !SomeAccepted(answers(hi))
    ensures AllRejected(answers, lo, hi + 1)
  {
  }

  lemma AcceptanceEndsChunk(answers: Answers, k: nat, done: nat)
    requires done < MAX_RETRIES && SomeAccepted(answers(Start(answers, k) + done))
    requires AllRejected(answers, Start(answers, k), Start(answers, k) + done)
    ensures Start(answers, k + 1) == Start(answers, k) + done + 1 && ChunkAccepted(answers, k)
  {
    UntilSkips(answers, Start(answers, k), Start(answers, k) + done, Start(answers, k) + MAX_RETRIES);
  }

  lemma RejectionsEndChunk(answers: Answers, k: nat)
    requires AllRejected(answers, Start(answers, k), Start(answers, k) + MAX_RETRIES)
    ensures Start(answers, k + 1) == Start(answers, k) + MAX_RETRIES && !ChunkAccepted(answers, k)
  {
    UntilSkips(answers, Start(answers, k), Start(answers, k) + MAX_RETRIES, Start(answers, k) + MAX_RETRIES);
  }

  /** The retries for one chunk, from attempt `overallAttempt` on. */
  method SendChunk(chunk: seq<Buffer>, k: nat, overallAttempt: nat, answers: Answers)
    returns (accepted: bool, batchAttempt: nat, lastError: Option<TransportError>, ghost sent: seq<seq<Buffer>>)
    requires overallAttempt == Start(answers, k)
    ensures overallAttempt + batchAttempt == Start(answers, k + 1)
    ensures accepted <==> ChunkAccepted(answers, k)
    ensures !accepted ==> batchAttempt == 10
    ensures !accepted ==> lastError == Some(FirstError(answers(overallAttempt + 9)))
    ensures |sent| == batchAttempt && forall t | 0 <= t < |sent| :: sent[t] == chunk
  {
    batchAttempt, accepted, lastError, sent := 0, false, None, [];
    while batchAttempt < MAX_RETRIES
      invariant batchAttempt <= MAX_RETRIES
      invariant AllRejected(answers, overallAttempt, overallAttempt + batchAttempt)
      invariant batchAttempt > 0 ==> lastError == Some(FirstError(answers(overallAttempt + batchAttempt - 1)))
      invariant |sent| == batchAttempt && forall t | 0 <= t < |sent| :: sent[t] == chunk
    {
      var r := FoldResults(answers(overallAttempt + batchAttempt));
      batchAttempt := batchAttempt + 1;
      sent := sent + [chunk];
      match r {
        case Ok(_) =>
          AcceptanceEndsChunk(answers, k, batchAttempt - 1);
          return true, batchAttempt, lastError, sent;
        case Err(e) =>
          OneMoreRejected(answers, overallAttempt, overallAttempt + batchAttempt - 1);
          lastError := Some(e);
      }
    }
    RejectionsEndChunk(answers, k);
  }

  method DecodeAll<T>(txns: seq<T>, decode: T -> Option<Buffer>) returns (decoded: seq<Buffer>)
    ensures decoded == Decodable(txns, decode)
  {
    decoded := [];
    for i := 0 to |txns|
      invariant decoded == Decodable(txns[..i], decode)
    {
      assert txns[..i + 1][..i] == txns[..i];
      var d := decode(txns[i]);
      if d.Some? {
        decoded := decoded + [d.value];
      }
    }
    assert txns[..|txns|] == txns;
  }

  /** `handle_transactions_batched`, given what decoding and the leaders do. */
  method HandleTransactionsBatched<T>(txns: seq<T>, decode: T -> Option<Buffer>, answers: Answers)
    returns (response: Response, ghost sent: seq<seq<Buffer>>)
    ensures Tells(response, |Chunks(Decodable(txns, decode))|, answers)
    ensures |sent| == response.attempts
    ensures forall k | 0 <= k < |Chunks(Decodable(txns, decode))| ::
              SentAsPlanned(sent, Chunks(Decodable(txns, decode)), answers, k)
  {
    var decoded := DecodeAll(txns, decode);
    var chunks := Chunks(decoded);
    var overallAttempt := 0;
    sent := [];
    for k := 0 to |chunks|
      invariant overallAttempt == Start(answers, k) == |sent|
      invariant forall j | 0 <= j < k :: ChunkAccepted(answers, j)
      invariant forall j | 0 <= j < |chunks| :: SentAsPlanned(sent, chunks, answers, j)
    {
      var accepted, batchAttempt, lastError;
      ghost var more;
      accepted, batchAttempt, lastError, more := SendChunk(chunks[k], k, overallAttempt, answers);
      PlanGrows(sent, more, chunks, answers, k);
      overallAttempt := overallAttempt + batchAttempt;
      sent := sent + more;
      if !accepted {
        return Failure(k, batchAttempt, lastError.value, overallAttempt), sent;
      }
    }
    return Success(overallAttempt), sent;
  }

  lemma {:induction false} StartIncreases(answers: Answers, j: nat, k: nat)
    requires j <= k
    ensures Start(answers, j) <= Start(answers, k)
  {
    if j < k {
      StartIncreases(answers, j, k - 1);
      ChunkEndsAtFirstAcceptance(answers, k - 1);
    }
  }

  lemma PlanGrows(sent: seq<seq<Buffer>>, more: seq<seq<Buffer>>, chunks: seq<seq<Buffer>>, answers: Answers, k: nat)
    requires k < |chunks| && |sent| == Start(answers, k) && |sent| + |more| == Start(answers, k + 1)
    requires forall j | 0 <= j < |chunks| :: SentAsPlanned(sent, chunks, answers, j)
    requires forall t | 0 <= t < |more| :: more[t] == chunks[k]
    ensures forall j | 0 <= j < |chunks| :: SentAsPlanned(sent + more, chunks, answers, j)
  {
    forall j | 0 <= j < |chunks|
      ensures SentAsPlanned(sent + more, chunks, answers, j)
    {
      if j < k {
        StartIncreases(answers, j + 1, k);
        assert SentAsPlanned(sent, chunks, answers, j);
      } else if j > k {
        StartIncreases(answers, k + 1, j);
      }
    }
  }

  // ----- what was sent

  /** The chunks sent at the attempts `ts`. */
  function SentAt(sent: seq<seq<Buffer>>, ts: seq<nat>): seq<seq<Buffer>>
    requires forall k | 0 <= k < |ts| :: ts[k] < |sent|
  {
    seq(|ts|, k requires 0 <= k < |ts| => sent[ts[k]])
  }

  function ChunksAccepted(response: Response, n: nat): nat {
    match response
    case Success(_) => n
    case Failure(k, _, _, _) => k
  }

  /** The attempt that was accepted, for each of the first `n` chunks. */
  lemma AcceptedAttempts(sent: seq<seq<Buffer>>, chunks: seq<seq<Buffer>>, answers: Answers, n: nat)
    returns (ts: seq<nat>)
    requires n <= |chunks| && Start(answers, n) <= |sent|
    requires forall k | 0 <= k < |chunks| :: SentAsPlanned(sent, chunks, answers, k)
    requires forall k | 0 <= k < n :: ChunkAccepted(answers, k)
    ensures |ts| == n && forall k | 0 <= k < n :: ts[k] < Start(answers, n) && SomeAccepted(answers(ts[k]))
    ensures forall j, k | 0 <= j < k < n :: ts[j] < ts[k]
    ensures SentAt(sent, ts) == chunks[..n]
  {
    if n == 0 {
      ts := [];
    } else {
      ChunkEndsAtFirstAcceptance(answers, n - 1);
      var before := AcceptedAttempts(sent, chunks, answers, n - 1);
      var t := Start(answers, n) - 1;
      ts := before + [t];
      assert SentAsPlanned(sent, chunks, answers, n - 1);
      assert SentAt(sent, ts) == SentAt(sent, before) + [sent[t]];
    }
  }

  lemma {:induction false} FlattenOfFront(s: seq<Buffer>, k: nat)
    requires k < |Chunks(s)|
    ensures 10 * k <= |s| && Flatten(Chunks(s)[..k]) == s[..10 * k]
    decreases k
  {
    if k > 0 {
      FlattenOfFront(s[CHUNK..], k - 1);
      assert Chunks(s)[..k][1..] == Chunks(s[CHUNK..])[..k - 1];
      assert s[..10 * k] == s[..10] + s[10..][..10 * (k - 1)];
    }
  }

  /**
   What the answer says about the transactions themselves: there are attempts, each accepted by
   some leader, at which together exactly what decodes was sent, in order, and nothing
   twice; all of it after a success, the chunks before the one that failed otherwise.
   */
  lemma AcceptedTransactions<T>(
      txns: seq<T>, decode: T -> Option<Buffer>, answers: Answers, response: Response, sent: seq<seq<Buffer>>)
    returns (ts: seq<nat>)
    requires Tells(response, |Chunks(Decodable(txns, decode))|, answers) && |sent| == response.attempts
    requires forall k | 0 <= k < |Chunks(Decodable(txns, decode))| ::
               SentAsPlanned(sent, Chunks(Decodable(txns, decode)), answers, k)
    ensures forall k | 0 <= k < |ts| :: ts[k] < |sent| && SomeAccepted(answers(ts[k]))
    ensures forall j, k | 0 <= j < k < |ts| :: ts[j] < ts[k]
    ensures response.Success? ==> Flatten(SentAt(sent, ts)) == Decodable(txns, decode)
    ensures response.Failure? ==>
              && 10 * response.batchIndex < |Decodable(txns, decode)|
              && Flatten(SentAt(sent, ts)) == Decodable(txns, decode)[..10 * response.batchIndex]
  {
    var decoded := Decodable(txns, decode);
    var chunks := Chunks(decoded);
    var n := ChunksAccepted(response, |chunks|);
    ts := AcceptedAttempts(sent, chunks, answers, n);
    ChunksCutUp(decoded);
    if response.Success? {
      assert chunks[..n] == chunks;
    } else {
      FlattenOfFront(decoded, n);
      ChunkIsNotEmpty(decoded, n);
    }
  }

  lemma {:induction false} ChunkIsNotEmpty(s: seq<Buffer>, k: nat)
    requires k < |Chunks(s)|
    ensures 10 * k < |s|
  {
    if k > 0 {
      ChunkIsNotEmpty(s[CHUNK..], k - 1);
    }
  }

  /** If every transaction decodes, a success has sent each of them, as what it decodes to. */
  lemma SuccessSentEveryTransaction<T>(
      txns: seq<T>, decode: T -> Option<Buffer>, answers: Answers, response: Response, sent: seq<seq<Buffer>>)
    returns (ts: seq<nat>)
    requires Tells(response, |Chunks(Decodable(txns, decode))|, answers) && |sent| == response.attempts
    requires forall k | 0 <= k < |Chunks(Decodable(txns, decode))| ::
               SentAsPlanned(sent, Chunks(Decodable(txns, decode)), answers, k)
    requires response.Success? && forall i | 0 <= i < |txns| :: decode(txns[i]).Some?
    ensures forall k | 0 <= k < |ts| :: ts[k] < |sent| && SomeAccepted(answers(ts[k]))
    ensures |Flatten(SentAt(sent, ts))| == |txns|
    ensures forall i | 0 <= i < |txns| :: Flatten(SentAt(sent, ts))[i] == decode(txns[i]).value
  {
    ts := AcceptedTransactions(txns, decode, answers, response, sent);
    AllDecode(txns, decode);
  }

  lemma {:induction false} AllDecode<T>(txns: seq<T>, decode: T -> Option<Buffer>)
    requires forall i | 0 <= i < |txns| :: decode(txns[i]).Some?
    ensures |Decodable(txns, decode)| == |txns|
    ensures forall i | 0 <= i < |txns| :: Decodable(txns, decode)[i] == decode(txns[i]).value
  {
    if txns != [] {
      AllDecode(txns[..|txns| - 1], decode);
    }
  }

  // ----- what success means on the wire

  /**
   `calls(t, i)` is the call made on leader `i`'s client at attempt `t`: it was given the
   chunk of that attempt, it has returned, and its result is that leader's answer.
   */
  ghost predicate AnswersAreCalls(answers: Answers, calls: (nat, nat) -> Call, chunks: seq<seq<Buffer>>) {
    forall k, t, i |
      0 <= k < |chunks| && Start(answers, k) <= t < Start(answers, k + 1) && 0 <= i < |answers(t)| ::
      AnswerIsCall(answers(t)[i], calls(t, i), chunks[k])
  }

  ghost predicate AnswerIsCall(answer: LeaderResult, c: Call, chunk: seq<Buffer>) {
    && CallInv(c) && c.phase.Returned? && c.buffers == chunk
    && (answer.Ok? <==> c.phase.result == Delivered)
  }

  /**
   Down to the wire: for every chunk that was accepted there is an attempt and a leader
   whose connection carried the whole chunk, in order, on one connection, except that an
   empty first transaction is not sent at all.
   */
  lemma AcceptedChunkIsOnSomeWire(
      answers: Answers, calls: (nat, nat) -> Call, chunks: seq<seq<Buffer>>, k: nat) returns (t: nat, i: nat)
    requires AnswersAreCalls(answers, calls, chunks)
    requires k < |chunks| && chunks[k] != [] && ChunkAccepted(answers, k)
    ensures Start(answers, k) <= t < Start(answers, k + 1) && i < |answers(t)|
    ensures calls(t, i).buffers == chunks[k] && calls(t, i).carrier.Some?
    ensures Written(calls(t, i).log) == Range(if chunks[k][0] == [] then 1 else 0, |chunks[k]|)
    ensures BytesOut(chunks[k], calls(t, i).log) == Concat(chunks[k])
    ensures forall a | a in calls(t, i).log && a.outcome == Sent :: a.conn == calls(t, i).carrier.value
  {
    t :| Start(answers, k) <= t < Start(answers, k + 1) && SomeAccepted(answers(t));
    i :| 0 <= i < |answers(t)| && answers(t)[i].Ok?;
    var c := calls(t, i);
    assert AnswerIsCall(answers(t)[i], c, chunks[k]);
    DeliveredIsComplete(c);
    BytesArePrefix(c);
    forall a | a in c.log && a.outcome == Sent
      ensures a.conn == c.carrier.value
    {
      var n :| 0 <= n < |c.log| && c.log[n] == a;
      OneConnectionCarriesTheBatch(c, n);
    }
  }

  lemma DeliveredIsComplete(c: Call)
    requires CallInv(c) && c.phase == Returned(Delivered) && c.buffers != []
    ensures c.carrier.Some? && Written(c.log) == Range(FirstBuffer(c), |c.buffers|)
  {
    WrittenOfSent(c.log, c.retries, c.carrier.value, FirstBuffer(c), |c.buffers|);
  }

  lemma {:induction false} DecodableIsEmpty<T>(txns: seq<T>, decode: T -> Option<Buffer>)
    ensures Decodable(txns, decode) == [] <==> forall i | 0 <= i < |txns| :: decode(txns[i]).None?
  {
    if txns != [] {
      var front := txns[..|txns| - 1];
      DecodableIsEmpty(front, decode);
      assert forall i | 0 <= i < |front| :: front[i] == txns[i];
    }
  }

  /** A request is answered as a success without any attempt exactly when nothing in it decodes. */
  lemma NothingDecodableIsSuccess<T>(txns: seq<T>, decode: T -> Option<Buffer>, answers: Answers, response: Response)
    requires Tells(response, |Chunks(Decodable(txns, decode))|, answers)
    ensures response == Success(0) <==> forall i | 0 <= i < |txns| :: decode(txns[i]).None?
  {
    DecodableIsEmpty(txns, decode);
    AttemptsPerChunk(answers, |Chunks(Decodable(txns, decode))|);
  }
}
