// Terminal input (native/src/writer.rs and the callers in runtime.rs) as one transition system: any
// number of callers, the lazily started writer thread, its condition variable, and one close. Callers
// and close work under the lock of the runtime slot; the writer thread never touches it.
module Writer {
  import opened Base
  import opened WriteQueue

  datatype Pc =
    | NotStarted
    | Opening        // fetching the write context
    | Locking        // about to take the queue lock in `dequeue`
    | Sleeping       // waiting on the condition variable
    | Holding        // a chunk was taken; the session flag is still to be looked at
    | Checking       // head of the loop over the chunk
    | Writing        // the closed flag was down: about to write
    | Waiting        // waiting for the descriptor to become writable
    | Failing        // about to store the failure in the queue
    | Reporting      // about to post the error event
    | Exited

  // Who owns the runtime lock. A caller of `write` keeps it from its look at the slot to its return.
  datatype Owner = Free | Caller(step: Step) | Closer

  datatype Step = Entered | Ready | Leaving

  // What the runtime lock protects.
  datatype Runtime = Runtime(
    lock: Owner,
    slot: bool,              // the runtime is in its slot
    handle: bool,            // the writer's join handle is in its slot
    taken: bool,             // `join` emptied the handle's slot ...
    joining: bool)           // ... and found a handle there, on which it waits

  datatype State = State(
    q: Queue,
    pc: Pc,
    rest: bytes,             // what is left of the chunk in hand
    error: Error,
    wakes: nat,              // threads between unlocking the queue and notifying
    sessionClosed: bool,
    rt: Runtime,
    // history
    accepted: seq<bytes>,
    written: bytes,
    starts: nat,
    reported: seq<Error>,
    writesAfterClose: nat)

  const INITIAL :=
    State(EMPTY, NotStarted, [], SESSION_CLOSED, 0, false, Runtime(Free, true, false, false, false), [], [], 0, [], 0)

  datatype Action =
    // callers
    | Enter
    | EnsureStarted(ok: bool)
    | Enqueue(data: bytes)
    | Leave
    | Notify
    // close
    | CloseFlag
    | BeginClose
    | CloseQueue
    | TakeHandle
    | EmptySlot
    // writer thread
    | SpuriousWake
    | Open(refused: Option<Error>)
    | Lock
    | Begin(refused: Option<Error>)
    | Check
    | Write(count: nat)
    | WriteInterrupted
    | WriteFull
    | WriteFails(error: Error)
    | Writable(refused: Option<Error>)
    | StoreFailure
    | Report

  function Normalized(error: Error): Error {
    if error.kind == BrokenPipe then Error(Closed, error.message) else error
  }

  function Fails(s: State, error: Error): State {
    s.(pc := Failing, error := error)
  }

  function Locked(s: State): State {
    var (q, d) := Taken(s.q);
    match d
    case Chunk(chunk) => s.(q := q, pc := Holding, rest := chunk)
    case Failed(error) => s.(pc := Reporting, error := error)
    case Finished => s.(pc := Exited)
    case MustWait => s.(pc := Sleeping)
  }

  function Checked(s: State): State {
    if s.rest == [] then s.(pc := Locking)
    else if s.q.closed then s.(pc := Exited)
    else s.(pc := Writing)
  }

  function Written(s: State, n: nat): State
    requires n <= |s.rest|
  {
    s.(pc := Checking,
       rest := s.rest[n..],
       written := s.written + s.rest[..n],
       writesAfterClose := s.writesAfterClose + if s.q.closed then 1 else 0)
  }

  function WriterNext(s: State, a: Action): State {
    match a
    case SpuriousWake => if s.pc.Sleeping? then s.(pc := Locking) else s
    case Open(refused) =>
      if !s.pc.Opening? then s
      else if refused.Some? then Fails(s, refused.value)
      else s.(pc := Locking)
    case Lock => if s.pc.Locking? then Locked(s) else s
    case Begin(refused) =>
      if !s.pc.Holding? then s
      else if s.sessionClosed then Fails(s, SESSION_CLOSED)
      else if refused.Some? then Fails(s, Normalized(refused.value))
      else s.(pc := Checking)
    case Check => if s.pc.Checking? then Checked(s) else s
    case Write(n) => if s.pc.Writing? && 1 <= n <= |s.rest| then Written(s, n) else s
    case WriteInterrupted => if s.pc.Writing? then s.(pc := Checking) else s
    case WriteFull => if s.pc.Writing? then s.(pc := Waiting) else s
    case WriteFails(error) => if s.pc.Writing? then Fails(s, Normalized(error)) else s
    case Writable(refused) =>
      if !s.pc.Waiting? then s
      else if refused.Some? then Fails(s, Normalized(refused.value))
      else s.(pc := Checking)
    case StoreFailure =>
      if s.pc.Failing? then s.(q := Broken(s.q, s.error), pc := Reporting, wakes := s.wakes + 1) else s
    case Report => if s.pc.Reporting? then s.(pc := Exited, reported := s.reported + [s.error]) else s
    case _ => s
  }

  // The body of `ensure_started`.
  function Ensured(s: State, ok: bool): State {
    if s.rt.handle then s.(rt := s.rt.(lock := Caller(Ready)))
    else if !ok then s.(rt := s.rt.(lock := Caller(Leaving)))
    else s.(rt := s.rt.(lock := Caller(Ready), handle := true), starts := s.starts + 1, pc := Opening)
  }

  function Queued(max: nat, s: State, data: bytes): State {
    var (q, verdict) := Enqueued(s.q, max, data);
    if verdict.Accepted? && data != []
    then s.(rt := s.rt.(lock := Caller(Leaving)), q := q, accepted := s.accepted + [data], wakes := s.wakes + 1)
    else s.(rt := s.rt.(lock := Caller(Leaving)))
  }

  // A thread taken for joining lets the closer go on once it has ended.
  predicate Joinable(s: State) {
    s.rt.taken && (s.rt.joining ==> s.pc.Exited?)
  }

  function Notified(s: State): State {
    if s.wakes == 0 then s
    else s.(wakes := s.wakes - 1, pc := if s.pc.Sleeping? then Locking else s.pc)
  }

  function CloseBegun(s: State): State {
    if s.rt.lock.Free? && s.rt.slot then s.(rt := s.rt.(lock := Closer)) else s
  }

  function QueueClosed(s: State): State {
    if s.rt.lock.Closer? then s.(q := Shut(s.q), wakes := s.wakes + 1) else s
  }

  function HandleTaken(s: State): State {
    if s.rt.lock.Closer? && s.q.closed && !s.rt.taken
    then s.(rt := s.rt.(taken := true, joining := s.rt.handle, handle := false))
    else s
  }

  function SlotEmptied(s: State): State {
    if s.rt.lock.Closer? && Joinable(s) then s.(rt := s.rt.(slot := false, lock := Free)) else s
  }

  function CallerNext(max: nat, s: State, a: Action): State {
    match a
    case Enter => if s.rt.lock.Free? && s.rt.slot then s.(rt := s.rt.(lock := Caller(Entered))) else s
    case EnsureStarted(ok) => if s.rt.lock == Caller(Entered) then Ensured(s, ok) else s
    case Enqueue(data) => if s.rt.lock == Caller(Ready) then Queued(max, s, data) else s
    case Leave => if s.rt.lock == Caller(Leaving) then s.(rt := s.rt.(lock := Free)) else s
    case Notify => Notified(s)
    case CloseFlag => s.(sessionClosed := true)
    case BeginClose => CloseBegun(s)
    case CloseQueue => QueueClosed(s)
    case TakeHandle => HandleTaken(s)
    case EmptySlot => SlotEmptied(s)
    case _ => s
  }

  predicate IsCallerAction(a: Action) {
    a.Enter? || a.EnsureStarted? || a.Enqueue? || a.Leave? || a.Notify? || IsCloseAction(a)
  }

  predicate IsCloseAction(a: Action) {
    a.CloseFlag? || a.BeginClose? || a.CloseQueue? || a.TakeHandle? || a.EmptySlot?
  }

  function Next(max: nat, s: State, a: Action): State {
    if IsCallerAction(a) then CallerNext(max, s, a) else WriterNext(s, a)
  }

  function Run(max: nat, s: State, acts: seq<Action>): State {
    if acts == [] then s
    else Next(max, Run(max, s, acts[..|acts| - 1]), acts[|acts| - 1])
  }

  // ---------------------------------------------------------------- the invariant

  predicate InHand(s: State) {
    s.pc.Holding? || s.pc.Checking? || s.pc.Writing? || s.pc.Waiting?
  }

  // Nothing accepted is lost, duplicated or reordered; a close or a failure only cuts it short.
  predicate Fifo(max: nat, s: State) {
    && Valid(s.q, max)
    && (!s.q.closed && s.q.failure.None? ==>
          s.written + s.rest + Concat(s.q.chunks) == Concat(s.accepted))
    && s.written + s.rest <= Concat(s.accepted)
    && (s.rest != [] ==> InHand(s) || s.pc.Failing? || s.pc.Reporting? || s.pc.Exited?)
    && (s.pc.Exited? || s.pc.Reporting? ==> s.q.closed || s.q.failure.Some?)
    && (s.pc.Writing? || s.pc.Waiting? || s.pc.Holding? ==> s.rest != [])
    && |s.rest| <= max
  }

  predicate Waking(s: State) {
    s.pc.Sleeping? && (s.q.chunks != [] || s.q.closed || s.q.failure.Some?) ==> s.wakes > 0
  }

  // Only a caller starts the writer, only `close` ends the slot, and the lock keeps them apart.
  predicate Single(s: State) {
    && (s.pc.NotStarted? <==> s.starts == 0)
    && s.starts <= 1
    && (s.rt.handle <==> s.starts == 1 && !s.rt.taken)
    && (s.rt.taken ==> s.q.closed && (s.rt.joining <==> s.starts == 1))
    && (s.q.closed ==> s.rt.lock.Closer? || !s.rt.slot)
    && (!s.rt.lock.Free? ==> s.rt.slot)
    && (!s.rt.slot ==> Joinable(s))
    && (s.rt.lock == Caller(Ready) ==> s.rt.handle)
  }

  predicate Sticky(s: State) {
    && (s.q.failure.Some? ==> s.pc.Reporting? || s.pc.Exited?)
    && (s.pc.Reporting? ==> s.q.failure == Some(s.error) && s.reported == [])
    && (s.pc.Exited? && s.q.failure.Some? ==> s.reported == [s.q.failure.value])
    && (s.q.failure.None? ==> s.reported == [])
    && |s.reported| <= 1
  }

  predicate Closing(s: State) {
    && (!s.q.closed ==> s.writesAfterClose == 0)
    && s.writesAfterClose + (if s.pc.Writing? then 1 else 0) <= 1
  }

  predicate Inv(max: nat, s: State) {
    Fifo(max, s) && Waking(s) && Single(s) && Sticky(s) && Closing(s)
  }

  lemma InitialHolds(max: nat)
    ensures Inv(max, INITIAL)
  {
  }

  lemma LockKeeps(max: nat, s: State)
    requires Inv(max, s) && s.pc.Locking?
    ensures Inv(max, Locked(s))
  {
    DequeueTakesOldest(s.q, max);
    if s.q.chunks != [] {
      ConcatCons(s.q.chunks);
      assert s.written + s.rest + Concat(s.q.chunks) == s.written + s.q.chunks[0] + Concat(s.q.chunks[1..]);
    }
  }

  lemma WriteKeeps(max: nat, s: State, n: nat)
    requires Inv(max, s) && s.pc.Writing? && 1 <= n <= |s.rest|
    ensures Inv(max, Written(s, n))
  {
    assert s.rest == s.rest[..n] + s.rest[n..];
    assert (s.written + s.rest[..n]) + s.rest[n..] == s.written + s.rest;
  }

  lemma FailsKeeps(max: nat, s: State, error: Error)
    requires Inv(max, s) && (s.pc.Opening? || InHand(s))
    ensures Inv(max, Fails(s, error))
  {
  }

  lemma MoveKeeps(max: nat, s: State, a: Action)
    requires Inv(max, s) && (a.SpuriousWake? || a.Check? || a.WriteInterrupted? || a.WriteFull?)
    ensures Inv(max, WriterNext(s, a))
  {
    match a
    case SpuriousWake =>
    case Check =>
    case WriteInterrupted =>
    case WriteFull =>
  }

  lemma EndKeeps(max: nat, s: State, a: Action)
    requires Inv(max, s) && (a.StoreFailure? || a.Report?)
    ensures Inv(max, WriterNext(s, a))
  {
    match a
    case StoreFailure =>
    case Report =>
  }

  lemma WriterKeeps(max: nat, s: State, a: Action)
    requires Inv(max, s) && !IsCallerAction(a)
    ensures Inv(max, WriterNext(s, a))
  {
    match a {
      case Lock => if s.pc.Locking? { LockKeeps(max, s); }
      case Write(n) => if s.pc.Writing? && 1 <= n <= |s.rest| { WriteKeeps(max, s, n); }
      case Open(refused) => if s.pc.Opening? && refused.Some? { FailsKeeps(max, s, refused.value); }
      case Begin(refused) =>
        if s.pc.Holding? {
          FailsKeeps(max, s, if s.sessionClosed || refused.None? then SESSION_CLOSED else Normalized(refused.value));
        }
      case WriteFails(error) => if s.pc.Writing? { FailsKeeps(max, s, Normalized(error)); }
      case Writable(refused) =>
        if s.pc.Waiting? && refused.Some? { FailsKeeps(max, s, Normalized(refused.value)); }
      case StoreFailure => EndKeeps(max, s, a);
      case Report => EndKeeps(max, s, a);
      case _ => MoveKeeps(max, s, a);
    }
  }

  lemma EnqueueKeeps(max: nat, s: State, data: bytes)
    requires Inv(max, s) && max < U64_MAX
    ensures Inv(max, CallerNext(max, s, Enqueue(data)))
  {
    EnqueueAppends(s.q, max, data);
    ConcatSnoc(s.accepted, data);
    assert s.written + s.rest + (Concat(s.q.chunks) + data) == s.written + s.rest + Concat(s.q.chunks) + data;
  }

  lemma CallerKeeps(max: nat, s: State, a: Action)
    requires Inv(max, s) && max < U64_MAX && IsCallerAction(a)
    ensures Inv(max, CallerNext(max, s, a))
  {
    match a {
      case Enqueue(data) => EnqueueKeeps(max, s, data);
      case Enter =>
      case EnsureStarted(ok) =>
      case Leave =>
      case Notify =>
      case CloseFlag =>
      case BeginClose =>
      case CloseQueue =>
      case TakeHandle =>
      case EmptySlot =>
    }
  }

  lemma {:induction false} RunKeeps(max: nat, s: State, acts: seq<Action>)
    requires Inv(max, s) && max < U64_MAX
    ensures Inv(max, Run(max, s, acts))
  {
    if acts != [] {
      var last := |acts| - 1;
      RunKeeps(max, s, acts[..last]);
      var t := Run(max, s, acts[..last]);
      if IsCallerAction(acts[last]) {
        CallerKeeps(max, t, acts[last]);
      } else {
        WriterKeeps(max, t, acts[last]);
      }
    }
  }

  function Reach(max: nat, acts: seq<Action>): State {
    Run(max, INITIAL, acts)
  }

  // ---------------------------------------------------------------- theorems

  // The terminal receives the accepted chunks in acceptance order, each contiguous.
  lemma InputIsFaithful(max: nat, acts: seq<Action>)
    requires max < U64_MAX
    ensures var s := Reach(max, acts);
      && s.written <= Concat(s.accepted)
      && (!s.q.closed && s.q.failure.None? ==>
            s.written + s.rest + Concat(s.q.chunks) == Concat(s.accepted))
      && s.writesAfterClose <= 1
  {
    RunKeeps(max, INITIAL, acts);
  }

  // The counter is the sum of the queued lengths and never exceeds the limit, with at most one more
  // limit's worth in the writer's hand.
  lemma QueueIsAccounted(max: nat, acts: seq<Action>)
    requires max < U64_MAX
    ensures var s := Reach(max, acts);
      && s.q.queuedBytes == |Concat(s.q.chunks)| <= max
      && s.q.queuedBytes + |s.rest| <= 2 * max
      && (s.q.closed || s.q.failure.Some? ==> s.q.chunks == [] && s.q.queuedBytes == 0)
      && (s.q.chunks != [] ==> |s.q.chunks[0]| <= s.q.queuedBytes)
  {
    RunKeeps(max, INITIAL, acts);
    var s := Reach(max, acts);
    if s.q.chunks != [] {
      ConcatCons(s.q.chunks);
    }
  }

  lemma NoWakeupIsLost(max: nat, acts: seq<Action>)
    requires max < U64_MAX
    ensures var s := Reach(max, acts);
      s.pc.Sleeping? && s.wakes == 0 ==> s.q == EMPTY && s.rest == [] && s.written == Concat(s.accepted)
  {
    RunKeeps(max, INITIAL, acts);
    assert Concat([]) == [];
  }

  // One writer at most, one write error at most, and once the queue failed every caller gets the
  // very error that is posted, whatever else happens.
  lemma FailureIsSticky(max: nat, acts: seq<Action>, more: seq<Action>, data: bytes)
    requires max < U64_MAX
    ensures var s := Reach(max, acts);
            var t := Run(max, s, more);
      && s.starts <= 1
      && |s.reported| <= 1
      && (s.reported != [] ==> s.q.failure == Some(s.reported[0]))
      && (s.q.failure.Some? ==>
            && t.q.failure == s.q.failure
            && (data != [] && |data| <= max ==> Enqueued(t.q, max, data).1 == Rejected(s.q.failure.value, data))
            && (t.pc.Exited? ==> t.reported == [s.q.failure.value]))
  {
    RunKeeps(max, INITIAL, acts);
    var s := Reach(max, acts);
    RunKeeps(max, s, more);
    if s.q.failure.Some? {
      FailureStays(max, s, more);
    }
  }

  lemma {:induction false} FailureStays(max: nat, s: State, acts: seq<Action>)
    requires Inv(max, s) && max < U64_MAX && s.q.failure.Some?
    ensures Run(max, s, acts).q.failure == s.q.failure
  {
    if acts != [] {
      var last := |acts| - 1;
      FailureStays(max, s, acts[..last]);
      RunKeeps(max, s, acts[..last]);
      FailureFrame(max, Run(max, s, acts[..last]), acts[last]);
    }
  }

  lemma FailureFrame(max: nat, s: State, a: Action)
    requires Inv(max, s) && max < U64_MAX && s.q.failure.Some?
    ensures Next(max, s, a).q.failure == s.q.failure
  {
    match a
    case Lock => DequeueTakesOldest(s.q, max);
    case Enqueue(data) => EnqueueAppends(s.q, max, data);
    case StoreFailure =>
    case _ =>
  }

  // ---------------------------------------------------------------- a caller's write

  // A caller's chunk is queued, and a notification of the writer made due, if and only if the queue is
  // open, unfailed and has the room; otherwise nothing changes but that the caller leaves.
  lemma WriteIsQueuedIff(max: nat, acts: seq<Action>, data: bytes)
    requires max < U64_MAX && data != [] && Reach(max, acts).rt.lock == Caller(Ready)
    ensures var s := Reach(max, acts);
            var t := Next(max, s, Enqueue(data));
            var fits := !s.q.closed && s.q.failure.None? && |Concat(s.q.chunks)| + |data| <= max;
      && t.rt == s.rt.(lock := Caller(Leaving))
      && t.pc == s.pc && t.written == s.written && t.rest == s.rest && t.starts == s.starts
      && t.q.closed == s.q.closed && t.q.failure == s.q.failure
      && (fits ==> t.accepted == s.accepted + [data] && t.q.chunks == s.q.chunks + [data] && t.wakes == s.wakes + 1)
      && (!fits ==> t.accepted == s.accepted && t.q == s.q && t.wakes == s.wakes)
  {
    RunKeeps(max, INITIAL, acts);
    EnqueueAppends(Reach(max, acts).q, max, data);
  }

  // A caller gets as far as the queue unless the writer cannot be started: it finds the writer running
  // or starts it.
  lemma CallerReachesQueue(max: nat, acts: seq<Action>, ok: bool)
    requires max < U64_MAX && Reach(max, acts).rt.lock == Caller(Entered)
    ensures var s := Reach(max, acts);
            var t := Next(max, s, EnsureStarted(ok));
      && t.q == s.q && t.accepted == s.accepted && t.written == s.written
      && (t.rt.lock == Caller(Ready) <==> ok || s.starts == 1)
      && (t.rt.lock == Caller(Leaving) <==> !ok && s.starts == 0)
      && t.starts == (if ok then 1 else s.starts)
      && t.pc == (if s.starts == 0 && ok then Opening else s.pc)
  {
    RunKeeps(max, INITIAL, acts);
  }

  // The steps by which the system, or a session that is closing, makes the writer fail, and the error.
  function Failure(s: State, a: Action): Option<Error> {
    match a
    case Open(refused) => if s.pc.Opening? then refused else None
    case Begin(refused) => if !s.pc.Holding? then None else if s.sessionClosed then Some(SESSION_CLOSED) else refused
    case WriteFails(error) => if s.pc.Writing? then Some(error) else None
    case Writable(refused) => if s.pc.Waiting? then refused else None
    case _ => None
  }

  // What the system reports is what callers are told: the error is stored and posted with its own
  // message and its kind, but for a broken pipe while writing, which counts as closed.
  lemma FailureIsTold(s: State, a: Action)
    requires Failure(s, a).Some?
    ensures var error := Failure(s, a).value;
            var t := WriterNext(WriterNext(WriterNext(s, a), StoreFailure), Report);
      && t.pc.Exited?
      && t.q.failure.Some? && t.reported == s.reported + [t.q.failure.value]
      && t.q.failure.value.message == error.message
      && t.q.failure.value.kind == (if error.kind == BrokenPipe && !a.Open? then ErrorKind.Closed else error.kind)
      && t.written == s.written && t.accepted == s.accepted
  {
    match a
    case Open(_) =>
    case Begin(_) =>
    case WriteFails(_) =>
    case Writable(_) =>
  }

  // Nothing else makes the writer give up: a write that takes n bytes puts exactly these out, and an
  // interruption, a full descriptor or the end of a wait only bring it back to its look at the flag.
  lemma WriterTriesAgain(s: State, n: nat)
    ensures s.pc.Writing? ==> WriterNext(s, WriteInterrupted) == s.(pc := Checking)
    ensures s.pc.Writing? ==> WriterNext(s, WriteFull) == s.(pc := Waiting)
    ensures s.pc.Waiting? ==> WriterNext(s, Writable(None)) == s.(pc := Checking)
    ensures s.pc.Writing? && 1 <= n <= |s.rest| ==>
              var t := WriterNext(s, Write(n));
              t.pc.Checking? && t.written == s.written + s.rest[..n] && t.rest == s.rest[n..] && t.q == s.q
    ensures s.pc.Checking? && s.rest != [] ==>
              WriterNext(s, Check) == s.(pc := if s.q.closed then Exited else Writing)
  {
  }

  // The effect of each step of `close` on the queue, its lock and the writer.
  lemma CloseIsHeeded(max: nat, s: State)
    ensures Next(max, s, CloseFlag) == s.(sessionClosed := true)
    ensures s.rt.lock.Free? && s.rt.slot ==> Next(max, s, BeginClose) == s.(rt := s.rt.(lock := Closer))
    ensures s.rt.lock.Closer? ==>
              var t := Next(max, s, CloseQueue);
              && t.q.closed && t.q.chunks == [] && t.q.queuedBytes == 0 && t.q.failure == s.q.failure
              && t.wakes == s.wakes + 1 && t.written == s.written && t.rest == s.rest && t.pc == s.pc
    ensures s.pc.Failing? ==> Next(max, s, StoreFailure).wakes == s.wakes + 1
  {
  }

  // The writes of a run that put bytes out.
  function Outputs(max: nat, s: State, acts: seq<Action>): nat {
    if acts == [] then 0
    else
      var last := |acts| - 1;
      var t := Run(max, s, acts[..last]);
      Outputs(max, s, acts[..last]) + if Next(max, t, acts[last]).written != t.written then 1 else 0
  }

  lemma WriteNeedsOpenLook(max: nat, s: State, a: Action)
    requires s.q.closed && Single(s)
    ensures var t := Next(max, s, a);
      && (t.written != s.written ==> s.pc.Writing?)
      && (t.pc.Writing? ==> s.pc.Writing? && t.written == s.written)
      && t.q.closed
  {
    if IsCallerAction(a) {
      ShutCallersWait(max, s, a);
      CallersWriteNothing(max, s, a);
    } else {
      ThreadKeepsSlot(s, a);
      match a
      case Check =>
      case Write(_) =>
      case _ =>
    }
  }

  lemma CallersWriteNothing(max: nat, s: State, a: Action)
    requires IsCallerAction(a)
    ensures CallerNext(max, s, a).written == s.written
    ensures CallerNext(max, s, a).pc.Writing? ==> s.pc.Writing?
  {
  }

  // Once the queue is closed at most one more write succeeds: that of a writer which had looked at the
  // flag before.
  lemma {:induction false} OneWriteAfterClose(max: nat, acts: seq<Action>, more: seq<Action>)
    requires max < U64_MAX && Reach(max, acts).q.closed
    ensures var s := Reach(max, acts);
            var t := Run(max, s, more);
      && t.q.closed
      && Outputs(max, s, more) + (if t.pc.Writing? then 1 else 0) <= if s.pc.Writing? then 1 else 0
  {
    if more != [] {
      var last := |more| - 1;
      var s := Reach(max, acts);
      OneWriteAfterClose(max, acts, more[..last]);
      RunKeeps(max, INITIAL, acts);
      RunKeeps(max, s, more[..last]);
      WriteNeedsOpenLook(max, Run(max, s, more[..last]), more[last]);
    }
  }

  // ---------------------------------------------------------------- progress

  // A step of the writer thread whose system calls succeed.
  function Working(s: State): Action {
    match s.pc
    case Opening => Open(None)
    case Locking => Lock
    case Sleeping => SpuriousWake
    case Holding => Begin(None)
    case Checking => Check
    case Writing => Write(1)
    case Waiting => Writable(None)
    case Failing => StoreFailure
    case Reporting => Report
    case _ => Lock
  }

  // An open session whose writer is at work and has met no failure.
  predicate AtWork(s: State) {
    && !s.q.closed && s.q.failure.None? && !s.sessionClosed
    && !s.pc.NotStarted? && !s.pc.Failing? && !s.pc.Reporting? && !s.pc.Exited?
  }

  function Undone(s: State): nat {
    4 * |s.rest| + 8 * |Concat(s.q.chunks)| +
    (match s.pc
     case Opening => 3
     case Locking => 1
     case Sleeping => 2
     case Holding => 4
     case Checking => 2
     case Writing => 1
     case Waiting => 3
     case _ => 0)
  }

  predicate AllWritten(s: State) {
    s.q.chunks == [] && s.rest == [] && s.written == Concat(s.accepted)
  }

  lemma LockGetsOn(max: nat, s: State)
    requires Inv(max, s) && AtWork(s) && s.pc.Locking? && s.q.chunks != []
    ensures var t := WriterNext(s, Lock); AtWork(t) && Undone(t) < Undone(s) && t.accepted == s.accepted
  {
    ConcatCons(s.q.chunks);
  }

  lemma WorkGetsOn(max: nat, s: State)
    requires Inv(max, s) && AtWork(s) && !(s.pc.Locking? && s.q.chunks == [])
    ensures var t := WriterNext(s, Working(s)); AtWork(t) && Undone(t) < Undone(s) && t.accepted == s.accepted
  {
    match s.pc
    case Locking => LockGetsOn(max, s);
    case Checking =>
    case Writing =>
    case _ =>
  }

  lemma RunCons(max: nat, s: State, a: Action, acts: seq<Action>)
    ensures Run(max, s, [a] + acts) == Run(max, Next(max, s, a), acts)
  {
    if acts == [] {
      assert [a] + acts == [a] && [a][..0] == [];
      assert Run(max, s, [a]) == Next(max, Run(max, s, []), a);
    } else {
      var last := |acts| - 1;
      var all := [a] + acts;
      assert all[..|all| - 1] == [a] + acts[..last] && all[|all| - 1] == acts[last];
      RunCons(max, s, a, acts[..last]);
    }
  }

  lemma {:induction false} Finishes(max: nat, s: State) returns (more: seq<Action>)
    requires Inv(max, s) && max < U64_MAX && AtWork(s)
    ensures forall a :: a in more ==> !IsCallerAction(a)
    ensures var t := Run(max, s, more); AllWritten(t) && t.accepted == s.accepted
    decreases Undone(s)
  {
    if s.pc.Locking? && s.q.chunks == [] {
      more := [];
      assert Concat([]) == [];
    } else {
      var a := Working(s);
      WorkGetsOn(max, s);
      WriterKeeps(max, s, a);
      var rest := Finishes(max, WriterNext(s, a));
      RunCons(max, s, a, rest);
      more := [a] + rest;
    }
  }

  // Whatever has been accepted can be written: from every reachable state of an open session without a
  // failure the writer alone can bring all of it to the terminal.
  lemma AcceptedCanBeWritten(max: nat, acts: seq<Action>)
    requires max < U64_MAX && AtWork(Reach(max, acts))
    ensures var s := Reach(max, acts);
      exists more :: (forall a :: a in more ==> !IsCallerAction(a))
                     && AllWritten(Run(max, s, more)) && Run(max, s, more).accepted == s.accepted
  {
    RunKeeps(max, INITIAL, acts);
    var more := Finishes(max, Reach(max, acts));
  }

  // ---------------------------------------------------------------- the runtime lock

  // The writer thread works under the queue's lock alone: what the runtime lock protects neither
  // changes its steps nor is changed by them.
  lemma ThreadIgnoresTheLock(s: State, a: Action, rt: Runtime)
    requires !IsCallerAction(a)
    ensures WriterNext(s.(rt := rt), a) == WriterNext(s, a).(rt := rt)
  {
    match a
    case Lock =>
      if s.pc.Locking? {
        match Taken(s.q).1
        case Chunk(_) =>
        case Failed(_) =>
        case Finished =>
        case MustWait =>
      }
    case _ =>
  }

  lemma ThreadKeepsSlot(s: State, a: Action)
    requires !IsCallerAction(a)
    ensures var t := WriterNext(s, a);
      t.rt == s.rt && t.starts == s.starts && t.accepted == s.accepted && t.q.closed == s.q.closed
  {
  }

  lemma ShutCallersWait(max: nat, s: State, a: Action)
    requires IsCallerAction(a) && (s.rt.lock.Closer? || (!s.rt.slot && s.rt.lock.Free?))
    ensures var t := CallerNext(max, s, a);
      && t.accepted == s.accepted && t.starts == s.starts && !t.rt.lock.Caller?
      && (t.pc == s.pc || (s.pc.Sleeping? && t.pc.Locking?))
      && (s.q.closed ==> t.q.closed)
  {
  }

  // While `close` owns the runtime lock no caller gets in, and after it there is no runtime to get
  // into: the queue takes nothing more and no writer is started.
  lemma LockKeepsCallersOut(max: nat, acts: seq<Action>, a: Action)
    requires max < U64_MAX
    ensures var s := Reach(max, acts);
            var t := Next(max, s, a);
      && (s.rt.lock.Closer? || !s.rt.slot ==> t.accepted == s.accepted && t.starts == s.starts && !t.rt.lock.Caller?)
      && (s.q.closed ==> s.rt.lock.Closer? || !s.rt.slot)
  {
    RunKeeps(max, INITIAL, acts);
    var s := Reach(max, acts);
    if s.rt.lock.Closer? || !s.rt.slot {
      if IsCallerAction(a) {
        ShutCallersWait(max, s, a);
      } else {
        ThreadKeepsSlot(s, a);
      }
    }
  }

  lemma Extend(max: nat, acts: seq<Action>, a: Action)
    ensures Reach(max, acts + [a]) == Next(max, Reach(max, acts), a)
  {
    assert (acts + [a])[..|acts|] == acts;
  }

  lemma WriterStarted(max: nat) returns (acts: seq<Action>)
    ensures Reach(max, acts).rt == Runtime(Caller(Ready), true, true, false, false) && Reach(max, acts).starts == 1
  {
    Extend(max, [], Enter);
    Extend(max, [] + [Enter], EnsureStarted(true));
    acts := [] + [Enter] + [EnsureStarted(true)];
  }

  lemma CallerLeft(max: nat) returns (acts: seq<Action>)
    ensures Reach(max, acts).rt == Runtime(Free, true, true, false, false) && Reach(max, acts).starts == 1
  {
    var a := WriterStarted(max);
    Extend(max, a, Enqueue([]));
    Extend(max, a + [Enqueue([])], Leave);
    acts := a + [Enqueue([])] + [Leave];
  }

  // It is the lock that keeps the writer single: `join` empties the handle's slot before it waits,
  // and in that window `ensure_started` would start a second writer.
  lemma WindowNeedsTheLock(max: nat)
    ensures exists acts :: Reach(max, acts).rt.lock.Closer? && Ensured(Reach(max, acts), true).starts == 2
  {
    var a := CallerLeft(max);
    Extend(max, a, BeginClose);
    Extend(max, a + [BeginClose], CloseQueue);
    Extend(max, a + [BeginClose] + [CloseQueue], TakeHandle);
    var acts := a + [BeginClose] + [CloseQueue] + [TakeHandle];
    assert Ensured(Reach(max, acts), true).starts == 2;
  }

  // ---------------------------------------------------------------- shutdown

  // An upper bound on the moves the writer still makes once the queue is closed.
  function Remaining(pc: Pc): (moves: nat)
    ensures moves <= 12
  {
    match pc
    case NotStarted => 0
    case Opening => 8
    case Locking => 7
    case Sleeping => 8
    case Holding => 11
    case Checking => 10
    case Writing => 12
    case Waiting => 11
    case Failing => 6
    case Reporting => 5
    case Exited => 0
  }

  // The move of a closing writer whose system calls return.
  function Unblocked(s: State): Action {
    match s.pc
    case Opening => Open(None)
    case Sleeping => Notify
    case Holding => Begin(None)
    case Checking => Check
    case Writing => WriteInterrupted
    case Waiting => Writable(None)
    case Failing => StoreFailure
    case Reporting => Report
    case _ => Lock
  }

  function Moves(max: nat, s: State, acts: seq<Action>): nat {
    if acts == [] then 0
    else
      var last := |acts| - 1;
      var t := Run(max, s, acts[..last]);
      Moves(max, s, acts[..last]) + if Next(max, t, acts[last]).pc != t.pc then 1 else 0
  }

  lemma ClosedWriterDescends(max: nat, s: State, a: Action)
    requires Valid(s.q, max) && Single(s) && s.q.closed
    ensures var t := Next(max, s, a);
      t.q.closed && (t.pc != s.pc ==> Remaining(t.pc) < Remaining(s.pc))
  {
    if IsCallerAction(a) {
      ShutCallersWait(max, s, a);
    } else {
      ClosedThreadDescends(max, s, a);
    }
  }

  lemma ClosedThreadDescends(max: nat, s: State, a: Action)
    requires Valid(s.q, max) && s.q.closed && !IsCallerAction(a)
    ensures var t := WriterNext(s, a);
      t.q.closed && (t.pc != s.pc ==> Remaining(t.pc) < Remaining(s.pc))
  {
    ThreadKeepsSlot(s, a);
    match a
    case Lock => ClosedLockDescends(max, s);
    case Open(refused) =>
    case Begin(refused) =>
    case Check =>
    case Writable(refused) =>
    case _ =>
  }

  lemma ClosedLockDescends(max: nat, s: State)
    requires Valid(s.q, max) && s.q.closed
    ensures Remaining(Locked(s).pc) < Remaining(Locking)
  {
  }

  lemma {:induction false} MovesAreBounded(max: nat, s: State, acts: seq<Action>)
    requires Inv(max, s) && max < U64_MAX && s.q.closed
    ensures Run(max, s, acts).q.closed
    ensures Moves(max, s, acts) + Remaining(Run(max, s, acts).pc) <= Remaining(s.pc)
  {
    if acts != [] {
      var last := |acts| - 1;
      MovesAreBounded(max, s, acts[..last]);
      RunKeeps(max, s, acts[..last]);
      ClosedWriterDescends(max, Run(max, s, acts[..last]), acts[last]);
    }
  }

  // A writer that runs has a move to make, and one that does not can be joined.
  predicate CanMove(max: nat, s: State) {
    if s.pc.NotStarted? || s.pc.Exited?
    then !s.rt.slot || !Next(max, Next(max, s, TakeHandle), EmptySlot).rt.slot
    else Next(max, s, Unblocked(s)).pc != s.pc
  }

  lemma ClosedWriterMoves(max: nat, s: State)
    requires Inv(max, s) && s.q.closed
    ensures CanMove(max, s)
  {
    match s.pc
    case NotStarted =>
    case Opening =>
    case Locking =>
    case Sleeping =>
    case Holding =>
    case Checking =>
    case Writing =>
    case Waiting =>
    case Failing =>
    case Reporting =>
    case Exited =>
  }

  // A writer that `close` waits for has a move that brings its end nearer.
  lemma JoinedWriterDescends(max: nat, s: State)
    requires Inv(max, s) && s.q.closed && s.rt.taken && !Joinable(s)
    ensures Remaining(Next(max, s, Unblocked(s)).pc) < Remaining(s.pc)
  {
    ClosedWriterMoves(max, s);
    ClosedWriterDescends(max, s, Unblocked(s));
  }

  // After close the writer makes a bounded number of moves whatever the callers do ...
  lemma ClosedWriterFinishes(max: nat, acts: seq<Action>, more: seq<Action>)
    requires max < U64_MAX && Reach(max, acts).q.closed
    ensures Moves(max, Reach(max, acts), more) <= 12
  {
    RunKeeps(max, INITIAL, acts);
    MovesAreBounded(max, Reach(max, acts), more);
  }

  // ... and it is never asleep without a wake-up on its way, so it can move until it can be joined.
  lemma ClosedWriterIsNeverStuck(max: nat, acts: seq<Action>)
    requires max < U64_MAX && Reach(max, acts).q.closed
    ensures CanMove(max, Reach(max, acts))
  {
    RunKeeps(max, INITIAL, acts);
    ClosedWriterMoves(max, Reach(max, acts));
  }
}
