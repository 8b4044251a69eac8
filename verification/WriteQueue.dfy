// The queue between the callers of `write` and the writer thread (native/src/writer.rs): its state
// under the lock, the critical sections on it, and the loop that writes one chunk.
module WriteQueue {
  import opened Base

  datatype ErrorKind =
    | Closed | WouldBlock | BrokenPipe | PermissionDenied | OutOfMemory | InvalidArgument
    | IoFailed | NativeError | Busy | Internal

  datatype Error = Error(kind: ErrorKind, message: string)

  const QUEUE_FULL := Error(WouldBlock, "PTY write queue is full")
  const RUNTIME_CLOSED := Error(Closed, "session runtime is closed")
  const ALLOCATION_FAILED := Error(OutOfMemory, "failed to allocate write chunk")
  const SESSION_CLOSED := Error(Closed, "session is closed")

  datatype Queue = Queue(chunks: seq<bytes>, queuedBytes: nat, closed: bool, failure: Option<Error>)

  const EMPTY := Queue([], 0, false, None)

  // A rejected caller gets its bytes back.
  datatype Verdict = Accepted | Rejected(error: Error, data: bytes)

  datatype Dequeued = Chunk(chunk: bytes) | Failed(error: Error) | Finished | MustWait

  predicate Valid(q: Queue, max: nat) {
    && q.queuedBytes == |Concat(q.chunks)|
    && q.queuedBytes <= max
    && (q.closed || q.failure.Some? ==> q.chunks == [])
    && forall i :: 0 <= i < |q.chunks| ==> q.chunks[i] != []
  }

  function ValidateEnqueue(q: Queue, max: nat, n: nat): Option<Error> {
    if q.failure.Some? then q.failure
    else if q.closed then Some(RUNTIME_CLOSED)
    else if SaturatingAdd(q.queuedBytes, n) > max then Some(QUEUE_FULL)
    else None
  }

  function Enqueued(q: Queue, max: nat, data: bytes): (Queue, Verdict) {
    if data == [] then (q, Accepted)
    else if |data| > max then (q, Rejected(QUEUE_FULL, data))
    else match ValidateEnqueue(q, max, |data|)
      case Some(error) => (q, Rejected(error, data))
      case None => (q.(chunks := q.chunks + [data], queuedBytes := q.queuedBytes + |data|), Accepted)
  }

  // One turn of the loop of `dequeue`, under the lock.
  function Taken(q: Queue): (Queue, Dequeued) {
    if q.chunks != [] then
      (q.(chunks := q.chunks[1..], queuedBytes := SaturatingSub(q.queuedBytes, |q.chunks[0]|)), Chunk(q.chunks[0]))
    else if q.failure.Some? then (q, Failed(q.failure.value))
    else if q.closed then (q, Finished)
    else (q, MustWait)
  }

  function Shut(q: Queue): Queue {
    q.(closed := true, chunks := [], queuedBytes := 0)
  }

  function Broken(q: Queue, error: Error): Queue {
    q.(failure := Some(error), chunks := [], queuedBytes := 0)
  }

  lemma ConcatCons(chunks: seq<bytes>)
    requires chunks != []
    ensures Concat(chunks) == chunks[0] + Concat(chunks[1..])
  {
    ConcatAppend([chunks[0]], chunks[1..]);
    assert [chunks[0]] + chunks[1..] == chunks;
    assert Concat([chunks[0]]) == Concat([]) + chunks[0];
  }

  // Enqueueing appends exactly the caller's chunk or changes nothing and hands it back; it is
  // refused exactly when the queue failed, closed or lacks the room, and the error says which.
  lemma EnqueueAppends(q: Queue, max: nat, data: bytes)
    requires Valid(q, max) && max < U64_MAX
    ensures var (t, verdict) := Enqueued(q, max, data);
      && Valid(t, max)
      && t.closed == q.closed && t.failure == q.failure
      && (verdict.Accepted? ==> Concat(t.chunks) == Concat(q.chunks) + data)
      && (verdict.Rejected? ==> t == q && verdict.data == data)
      && (verdict.Accepted? <==>
            data == [] || (q.failure.None? && !q.closed && |Concat(q.chunks)| + |data| <= max))
      && (verdict.Accepted? && data != [] ==> t.chunks == q.chunks + [data] && t.queuedBytes == q.queuedBytes + |data|)
      && (verdict.Rejected? ==>
            verdict.error ==
            if |data| > max then QUEUE_FULL
            else if q.failure.Some? then q.failure.value
            else if q.closed then RUNTIME_CLOSED
            else QUEUE_FULL)
  {
    ConcatSnoc(q.chunks, data);
  }

  // Dequeueing takes the oldest chunk whole, and waits only on an empty, open, sound queue.
  lemma DequeueTakesOldest(q: Queue, max: nat)
    requires Valid(q, max)
    ensures var (t, d) := Taken(q);
      && Valid(t, max)
      && t.closed == q.closed && t.failure == q.failure
      && (d.Chunk? ==> d.chunk != [] && d.chunk + Concat(t.chunks) == Concat(q.chunks)
                       && t.queuedBytes + |d.chunk| == q.queuedBytes)
      && (!d.Chunk? ==> t == q && q.chunks == [])
      && (d.MustWait? <==> q.chunks == [] && q.failure.None? && !q.closed)
      && (d.Failed? ==> q.failure == Some(d.error))
      && (d.Finished? ==> q.closed && q.failure.None?)
  {
    if q.chunks != [] {
      ConcatCons(q.chunks);
    }
  }

  // ---------------------------------------------------------------- other threads in between

  datatype Operation = OtherEnqueues(data: bytes) | OtherDequeues | OtherCloses | OtherFails(error: Error)

  function Changed(q: Queue, max: nat, op: Operation): Queue {
    match op
    case OtherEnqueues(data) => Enqueued(q, max, data).0
    case OtherDequeues => Taken(q).0
    case OtherCloses => Shut(q)
    case OtherFails(error) => Broken(q, error)
  }

  function After(q: Queue, max: nat, ops: seq<Operation>): Queue {
    if ops == [] then q else Changed(After(q, max, ops[..|ops| - 1]), max, ops[|ops| - 1])
  }

  lemma AfterSnoc(q: Queue, max: nat, ops: seq<Operation>, op: Operation)
    ensures After(q, max, ops + [op]) == Changed(After(q, max, ops), max, op)
    ensures After(q, max, [op]) == Changed(q, max, op)
  {
    assert (ops + [op])[..|ops|] == ops;
    assert [op][..0] == [];
  }

  function Refusal(verdict: Verdict): Option<Error> {
    if verdict.Rejected? then Some(verdict.error) else None
  }

  // What the early test finds out stays true: a queue that is closed or failed accepts nothing after
  // any further operations, and one that failed keeps an error. So a caller that is refused early for
  // one of these reasons would have been refused late as well, and only a lack of room can pass.
  lemma {:induction false} RefusalLasts(q: Queue, max: nat, ops: seq<Operation>, data: bytes)
    requires Valid(q, max) && max < U64_MAX && 0 < |data| <= max
    ensures var t := After(q, max, ops);
      && Valid(t, max)
      && (q.closed ==> t.closed)
      && (q.failure.Some? ==> t.failure.Some?)
      && (Enqueued(q, max, data).1.Rejected? && Enqueued(t, max, data).1.Accepted? ==>
            Enqueued(q, max, data).1.error == QUEUE_FULL && |Concat(t.chunks)| < |Concat(q.chunks)|)
  {
    if ops != [] {
      var last := |ops| - 1;
      RefusalLasts(q, max, ops[..last], data);
      var t := After(q, max, ops[..last]);
      match ops[last] {
        case OtherEnqueues(other) => EnqueueAppends(t, max, other);
        case OtherDequeues => DequeueTakesOldest(t, max);
        case OtherCloses =>
        case OtherFails(_) =>
      }
    }
    EnqueueAppends(q, max, data);
    EnqueueAppends(After(q, max, ops), max, data);
  }

  class WriteQueueShared {
    var chunks: seq<bytes>
    var queuedBytes: nat
    var closed: bool
    var failure: Option<Error>
    const maxBytes: nat

    function State(): Queue
      reads this
    {
      Queue(chunks, queuedBytes, closed, failure)
    }

    constructor (maxBytes: nat)
      ensures State() == EMPTY && this.maxBytes == maxBytes
    {
      this.maxBytes := maxBytes;
      chunks, queuedBytes, closed, failure := [], 0, false, None;
    }

    method EnqueueOwned(data: bytes) returns (verdict: Verdict)
      requires Valid(State(), maxBytes) && maxBytes < U64_MAX
      modifies this
      ensures (State(), verdict) == Enqueued(old(State()), maxBytes, data)
      ensures Valid(State(), maxBytes)
    {
      EnqueueAppends(State(), maxBytes, data);
      if data == [] {
        return Accepted;
      }
      if |data| > maxBytes {
        return Rejected(QUEUE_FULL, data);
      }
      var refused := ValidateEnqueue(State(), maxBytes, |data|);
      if refused.Some? {
        return Rejected(refused.value, data);
      }
      queuedBytes := queuedBytes + |data|;
      chunks := chunks + [data];
      verdict := Accepted;
    }

    method CheckEnqueueAllowed(byteCount: nat) returns (refused: Option<Error>)
      ensures refused == ValidateEnqueue(State(), maxBytes, byteCount)
    {
      if failure.Some? {
        return failure;
      }
      if closed {
        return Some(RUNTIME_CLOSED);
      }
      if SaturatingAdd(queuedBytes, byteCount) > maxBytes {
        return Some(QUEUE_FULL);
      }
      refused := None;
    }

    // Another thread's critical section on the queue.
    method Interfere(op: Operation)
      requires Valid(State(), maxBytes) && maxBytes < U64_MAX
      modifies this
      ensures State() == After(old(State()), maxBytes, [op]) && Valid(State(), maxBytes)
    {
      assert After(State(), maxBytes, [op][..0]) == State();
      match op {
        case OtherEnqueues(data) => var _ := EnqueueOwned(data);
        case OtherDequeues => var _ := TryDequeue();
        case OtherCloses => Close();
        case OtherFails(error) => Fail(error);
      }
    }

    // `enqueue_bytes` tests, drops the lock to copy the bytes, and tests again; `gap` is what other
    // threads do to the queue in between. The call acts as one critical section at one of the two
    // tests, and neither a refusal at the first nor a failure in the gap is forgotten.
    method EnqueueBytes(data: bytes, gap: seq<Operation>, allocates: bool) returns (refused: Option<Error>)
      requires Valid(State(), maxBytes) && maxBytes < U64_MAX
      modifies this
      ensures Valid(State(), maxBytes)
      ensures var q := old(State());
              var (early, now) := (Enqueued(q, maxBytes, data), After(q, maxBytes, gap));
        if data == [] || early.1.Rejected?
        then State() == q && refused == Refusal(early.1)
        else if !allocates then State() == q && refused == Some(ALLOCATION_FAILED)
        else State() == Enqueued(now, maxBytes, data).0 && refused == Refusal(Enqueued(now, maxBytes, data).1)
    {
      if data == [] {
        return None;
      }
      if |data| > maxBytes {
        return Some(QUEUE_FULL);
      }
      refused := CheckEnqueueAllowed(|data|);
      if refused.Some? {
        return;
      }
      if !allocates {
        return Some(ALLOCATION_FAILED);
      }
      ghost var q := State();
      assert gap[..0] == [];
      for i := 0 to |gap|
        invariant State() == After(q, maxBytes, gap[..i]) && Valid(State(), maxBytes)
      {
        AfterSnoc(q, maxBytes, gap[..i], gap[i]);
        assert gap[..i + 1] == gap[..i] + [gap[i]];
        Interfere(gap[i]);
      }
      assert gap[..|gap|] == gap;
      var verdict := EnqueueOwned(data);
      refused := Refusal(verdict);
    }

    method TryDequeue() returns (d: Dequeued)
      requires Valid(State(), maxBytes)
      modifies this
      ensures (State(), d) == Taken(old(State()))
      ensures Valid(State(), maxBytes)
    {
      DequeueTakesOldest(State(), maxBytes);
      if chunks != [] {
        var chunk := chunks[0];
        chunks := chunks[1..];
        queuedBytes := SaturatingSub(queuedBytes, |chunk|);
        return Chunk(chunk);
      }
      if failure.Some? {
        return Failed(failure.value);
      }
      d := if closed then Finished else MustWait;
    }

    method Close()
      modifies this
      ensures State() == Shut(old(State())) && Valid(State(), maxBytes)
    {
      closed := true;
      chunks := [];
      queuedBytes := 0;
    }

    method Fail(error: Error)
      modifies this
      ensures State() == Broken(old(State()), error) && Valid(State(), maxBytes)
    {
      failure := Some(error);
      chunks := [];
      queuedBytes := 0;
    }
  }

  // What the system answers while a chunk is written. Each turn of the loop first looks at the
  // closed flag, then writes, and waits for readiness when the descriptor is full.
  datatype Turn = Turn(closed: bool, answer: Answer)

  datatype Answer = Wrote(count: nat) | Interrupted | Full(ready: bool) | FullError(error: Error) | WriteError(error: Error)

  // The loop may also be cut short while a system call has not returned yet.
  datatype ChunkEnd = Complete | Abandoned | Broke(error: Error) | Unfinished

  // How many of `len` bytes are out after the first `k` turns: a successful write takes at least one
  // byte (none is an error) and at most what is left.
  function WrittenBy(len: nat, turns: seq<Turn>, k: nat): (written: nat)
    requires k <= |turns|
    ensures written <= len
  {
    if k == 0 then 0
    else
      var written := WrittenBy(len, turns, k - 1);
      var turn := turns[k - 1];
      if turn.closed || !turn.answer.Wrote? then written
      else Min(len, written + Max(turn.answer.count, 1))
  }

  // The bytes of the writes that went through.
  function Counts(turns: seq<Turn>): nat {
    if turns == [] then 0
    else
      var answer := turns[|turns| - 1].answer;
      Counts(turns[..|turns| - 1]) + if answer.Wrote? then answer.count else 0
  }

  // As long as no look finds the flag up and every write takes at least a byte, what is out is the sum
  // of what the writes took, up to the whole chunk; waits and interruptions add nothing, and neither
  // does a turn that finds the flag up.
  lemma {:induction false} WrittenIsTheSum(len: nat, turns: seq<Turn>)
    requires forall i :: 0 <= i < |turns| ==> !turns[i].closed && (turns[i].answer.Wrote? ==> turns[i].answer.count > 0)
    ensures WrittenBy(len, turns, |turns|) == Min(len, Counts(turns))
    ensures forall answer :: WrittenBy(len, turns + [Turn(true, answer)], |turns| + 1) == Min(len, Counts(turns))
  {
    forall answer
      ensures WrittenBy(len, turns + [Turn(true, answer)], |turns| + 1) == WrittenBy(len, turns, |turns|)
    {
      WrittenByFront(len, turns + [Turn(true, answer)], turns, |turns|);
    }
    if turns != [] {
      var last := |turns| - 1;
      WrittenIsTheSum(len, turns[..last]);
      WrittenByFront(len, turns, turns[..last], last);
    }
  }

  lemma {:induction false} WrittenByFront(len: nat, xs: seq<Turn>, ys: seq<Turn>, k: nat)
    requires k <= |xs| && k <= |ys| && xs[..k] == ys[..k]
    ensures WrittenBy(len, xs, k) == WrittenBy(len, ys, k)
  {
    if k > 0 {
      assert xs[..k][k - 1] == ys[..k][k - 1];
      assert xs[..k - 1] == xs[..k][..k - 1] && ys[..k - 1] == ys[..k][..k - 1];
      WrittenByFront(len, xs, ys, k - 1);
    }
  }

  function Fails(answer: Answer): Option<Error> {
    match answer
    case WriteError(error) => Some(error)
    case FullError(error) => Some(error)
    case _ => None
  }

  predicate GoesOn(turn: Turn) {
    !turn.closed && Fails(turn.answer).None?
  }

  // Only the flag and the two kinds of error end the loop.
  lemma LoopEndsOn(turn: Turn)
    ensures !GoesOn(turn) <==> turn.closed || turn.answer.FullError? || turn.answer.WriteError?
    ensures turn.answer.FullError? || turn.answer.WriteError? ==> Fails(turn.answer) == Some(turn.answer.error)
  {
  }

  // The loop has gone through these turns: none of them ended it, and the chunk was not out before any.
  predicate Ongoing(len: nat, turns: seq<Turn>, k: nat)
    requires k <= |turns|
  {
    k == 0 || (Ongoing(len, turns, k - 1) && GoesOn(turns[k - 1]) && WrittenBy(len, turns, k - 1) < len)
  }

  // `write_chunk` and `write_direct_chunk`: exactly the bytes the system took go out, in order and in
  // any number of pieces. A raised closed flag is noticed before the next write, an error ends the
  // loop, anything else goes on, and nothing is tried once the chunk is out.
  method WriteChunk(data: bytes, turns: seq<Turn>) returns (written: bytes, end: ChunkEnd, used: nat)
    ensures used <= |turns| && |written| == WrittenBy(|data|, turns, used) && written <= data
    ensures if end.Complete? || end.Unfinished? then Ongoing(|data|, turns, used)
            else used > 0 && Ongoing(|data|, turns, used - 1) && !GoesOn(turns[used - 1]) && written < data
    ensures end.Complete? <==> written == data
    ensures end.Unfinished? ==> used == |turns|
    ensures end.Abandoned? ==> turns[used - 1].closed
    ensures end.Broke? ==> !turns[used - 1].closed && Fails(turns[used - 1].answer) == Some(end.error)
  {
    var rest := data;
    used := 0;
    while rest != []
      invariant used <= |turns| && Ongoing(|data|, turns, used)
      invariant |rest| == |data| - WrittenBy(|data|, turns, used) && rest == data[|data| - |rest|..]
      decreases |turns| - used
    {
      if used == |turns| {
        return data[..|data| - |rest|], Unfinished, used;
      }
      var turn := turns[used];
      used := used + 1;
      if turn.closed {
        return data[..|data| - |rest|], Abandoned, used;
      }
      match turn.answer {
        case Wrote(count) =>
          var n := Min(Max(count, 1), |rest|);
          rest := rest[n..];
        case Interrupted =>
        case Full(ready) =>
          if !ready {
            continue;
          }
        case FullError(error) =>
          return data[..|data| - |rest|], Broke(error), used;
        case WriteError(error) =>
          return data[..|data| - |rest|], Broke(error), used;
      }
    }
    written, end := data, Complete;
  }
}
