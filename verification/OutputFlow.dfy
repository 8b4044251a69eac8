// Output flow control (native/src/output.rs, reader.rs, message.rs, runtime.rs and
// lib/src/impl/session.dart) as one transition system. Each lock-protected section, system call,
// post, delivery, listener change, ack and finalizer is one atomic step, so a run is any
// interleaving of the reader thread, the isolate, finalizers, foreign acks and shutdown.
module OutputFlow {
  import opened Base
  import opened Isolate

  datatype Config = Config(
    requireAcks: bool,
    maxInflight: nat,
    readBufferSize: nat,
    batchMax: nat,
    batchDelay: nat,        // microseconds
    useExternal: bool,
    maxExternal: nat,
    usizeMax: nat,
    fdReads: bool)          // nonblocking fd path or blocking reader path

  predicate ValidConfig(c: Config) {
    && 1 <= c.maxInflight <= U64_MAX
    && 1 <= c.readBufferSize
    && 2 <= c.batchMax <= c.usizeMax
    && c.maxExternal <= U64_MAX
    && 0xFFFF_FFFF <= c.usizeMax <= U64_MAX
  }

  // The reader thread's program counter: the head of the read loop, the steps of `append` and the
  // atomic steps of `flush`.
  datatype Pc =
    | Start
    | Top
    | Read
    | Append
    | Appended
    | Poll
    | Flush
    | Capacity
    | Reserve
    | External
    | Post
    | Discard
    | Rollback
    | Close
    | Done

  // Where `flush` returns to when it succeeds: into `append`, to the loop head after a timed flush,
  // or out of the loop after the last flush, with or without an error event to post.
  datatype Return = ToAppend | ToTop | ToClose | ToCloseWithError

  datatype Reader = Reader(
    pc: Pc,
    ret: Return,
    rest: bytes,            // read, not yet taken by `append`
    batch: bytes,
    hand: bytes,            // moved out of the batch into an external buffer, not yet posted
    reserved: nat,          // credit reserved for a message not yet posted
    pendingSince: Option<nat>)

  datatype History = History(
    read: bytes,
    postFailed: bool,
    closedPosts: nat,
    errors: nat,
    postsAfterStop: nat,
    foreign: bool)          // some ack did not come from the isolate

  datatype State = State(
    r: Reader,
    inflight: nat,
    stop: bool,
    external: nat,
    peers: seq<nat>,        // lengths of the posted external buffers not yet finalized
    msgs: seq<Message>,     // everything posted on the output port; `msgs[taken..]` is still queued
    taken: nat,
    rx: Receiver,
    owed: seq<nat>,         // acks the isolate's running callback has still to send
    now: nat,
    h: History)

  const INITIAL_STATE :=
    State(Reader(Start, ToTop, [], [], [], 0, None), 0, false, 0, [], [], 0, INITIAL, [], 0,
          History([], false, 0, 0, 0, false))

  datatype Action =
    // reader thread
    | Begin(ok: bool)
    | Advance
    | ReadData(data: bytes)
    | ReadEof
    | ReadError
    | ReadWouldBlock
    | ReadInterrupted
    | PollTimeout
    | PollReady
    | PollError
    | PostOutput(ok: bool)
    | PostClosed(ok: bool)
    // isolate
    | Deliver
    | SendAck
    | ListenerChange(change: Change)
    | CloseSession
    // others
    | ForeignAck(byteCount: nat)
    | SetStop
    | Finalize(peer: nat)
    | Tick(micros: nat)

  // ---------------------------------------------------------------- reader thread

  // Bytes `append` moves in one turn of its loop: at least one, even into a full batch.
  function TakeLength(c: Config, batched: nat, rest: nat): nat {
    Min(rest, Max(SaturatingSub(c.batchMax, batched), 1))
  }

  predicate DelayElapsed(c: Config, r: Reader, now: nat) {
    r.pendingSince.Some? && now - r.pendingSince.value >= c.batchDelay
  }

  predicate ExternalFits(c: Config, outstanding: nat, len: nat) {
    && 0 < len <= Min(c.maxExternal, c.usizeMax)
    && outstanding + len <= Min(c.maxExternal, c.usizeMax)
  }

  // AtomicUsize::fetch_sub
  function FetchSub(c: Config, x: nat, n: nat): nat
    requires n <= c.usizeMax + 1
  {
    if n <= x then x - n else x + (c.usizeMax + 1) - n
  }

  function Reserved(c: Config, inflight: nat, n: nat): nat {
    if c.requireAcks then SaturatingAdd(inflight, n) else inflight
  }

  function Released(c: Config, inflight: nat, n: nat): nat {
    if c.requireAcks then SaturatingSub(inflight, n) else inflight
  }

  function Goto(s: State, pc: Pc): State {
    s.(r := s.r.(pc := pc))
  }

  function Call(s: State, ret: Return): State {
    s.(r := s.r.(pc := Flush, ret := ret))
  }

  // `flush` returned Ok.
  function FlushOk(s: State): State {
    match s.r.ret
    case ToAppend => Goto(s, Append)
    case ToTop => Goto(s, Top)
    case ToClose => Goto(s, Close)
    case ToCloseWithError => Goto(s.(h := s.h.(errors := s.h.errors + 1)), Close)
  }

  // `flush` returned an error: every caller leaves the loop, and all but one report it.
  function FlushErr(s: State): State {
    Goto(if s.r.ret == ToClose then s else s.(h := s.h.(errors := s.h.errors + 1)), Close)
  }

  function AppendTurn(c: Config, r: Reader, now: nat): Reader {
    if r.rest == [] then r.(pc := Appended)
    else
      var take := TakeLength(c, |r.batch|, |r.rest|);
      var batch := r.batch + r.rest[..take];
      r.(rest := r.rest[take..],
         batch := batch,
         pendingSince := if r.batch == [] then Some(now) else r.pendingSince,
         pc := if |batch| >= c.batchMax then Flush else Append,
         ret := ToAppend)
  }

  function AfterAppend(c: Config, s: State): State {
    if c.fdReads then Goto(s, if s.stop then Top else Read)
    else if DelayElapsed(c, s.r, s.now) then Call(s, ToTop)
    else Goto(s, Top)
  }

  function EnterFlush(s: State): State {
    if s.r.batch == [] then FlushOk(s.(r := s.r.(pendingSince := None))) else Goto(s, Capacity)
  }

  // One look at the counter under its lock; a reader without capacity keeps waiting here.
  function TestCapacity(c: Config, s: State): State {
    if c.requireAcks && s.stop then FlushOk(s)
    else if c.requireAcks && s.inflight >= c.maxInflight then s
    else Goto(s, Reserve)
  }

  function ReserveCredit(c: Config, s: State): State {
    s.(inflight := Reserved(c, s.inflight, |s.r.batch|), r := s.r.(pc := External, reserved := |s.r.batch|))
  }

  function ReserveBudget(c: Config, s: State): State {
    if c.useExternal && ExternalFits(c, s.external, |s.r.batch|)
    then s.(external := s.external + |s.r.batch|, r := s.r.(pc := Post, hand := s.r.batch, batch := []))
    else Goto(s, Post)
  }

  // The port took the message: its bytes are gone from the reader, its credit is the receiver's.
  function Accepted(s: State): State {
    s.(r := s.r.(batch := [], hand := [], reserved := 0, pendingSince := None),
       msgs := s.msgs + [Output(s.r.hand + s.r.batch)],
       peers := if s.r.hand != [] then s.peers + [|s.r.hand|] else s.peers,
       h := s.h.(postsAfterStop := s.h.postsAfterStop + if s.stop then 1 else 0))
  }

  function Posted(s: State): State {
    FlushOk(Accepted(s))
  }

  function PostRefused(s: State): State {
    s.(r := s.r.(pc := if s.r.hand != [] then Discard else Rollback), h := s.h.(postFailed := true))
  }

  // The peer of a message that was not posted is dropped by the reader itself.
  function DropPeer(c: Config, s: State): State {
    if |s.r.hand| <= c.usizeMax
    then s.(external := FetchSub(c, s.external, |s.r.hand|), r := s.r.(pc := Rollback, hand := []))
    else s
  }

  function RollBack(c: Config, s: State): State {
    FlushErr(s.(inflight := Released(c, s.inflight, s.r.reserved), r := s.r.(reserved := 0)))
  }

  function Advanced(c: Config, s: State): State {
    match s.r.pc
    case Top => if s.stop then Call(s, ToClose) else Goto(s, Read)
    case Append => s.(r := AppendTurn(c, s.r, s.now))
    case Appended => AfterAppend(c, s)
    case Flush => EnterFlush(s)
    case Capacity => TestCapacity(c, s)
    case Reserve => ReserveCredit(c, s)
    case External => ReserveBudget(c, s)
    case Discard => DropPeer(c, s)
    case Rollback => RollBack(c, s)
    case _ => s
  }

  function Started(s: State, ok: bool): State {
    if ok then Goto(s, Top) else Goto(s.(h := s.h.(errors := s.h.errors + 1)), Close)
  }

  function DataRead(s: State, data: bytes): State {
    s.(r := s.r.(pc := Append, rest := data), h := s.h.(read := s.h.read + data))
  }

  function PortsClosed(s: State, ok: bool): State {
    s.(r := s.r.(pc := Done),
       h := s.h.(closedPosts := s.h.closedPosts + 1),
       msgs := if ok then s.msgs + [Closed] else s.msgs)
  }

  predicate IsReaderAction(a: Action) {
    a.Begin? || a.Advance? || a.ReadData? || a.ReadEof? || a.ReadError? || a.ReadWouldBlock? ||
    a.ReadInterrupted? || a.PollTimeout? || a.PollReady? || a.PollError? || a.PostOutput? || a.PostClosed?
  }

  function ReaderNext(c: Config, s: State, a: Action): State
    requires IsReaderAction(a)
  {
    match a
    case Begin(ok) => if s.r.pc.Start? then Started(s, ok) else s
    case Advance => Advanced(c, s)
    case ReadData(data) => if s.r.pc.Read? && 1 <= |data| <= c.readBufferSize then DataRead(s, data) else s
    case ReadEof => if s.r.pc.Read? then Call(s, ToClose) else s
    case ReadError => if s.r.pc.Read? then Call(s, ToCloseWithError) else s
    case ReadWouldBlock => if s.r.pc.Read? && c.fdReads then Goto(s, Poll) else s
    case ReadInterrupted => if s.r.pc.Read? && !c.fdReads then Goto(s, Top) else s
    case PollTimeout => if s.r.pc.Poll? then Call(s, ToTop) else s
    case PollReady => if s.r.pc.Poll? then Goto(s, Top) else s
    case PollError => if s.r.pc.Poll? then Call(s, ToCloseWithError) else s
    case PostOutput(ok) => if !s.r.pc.Post? then s else if ok then Posted(s) else PostRefused(s)
    case PostClosed(ok) => if s.r.pc.Close? then PortsClosed(s, ok) else s
  }

  // ---------------------------------------------------------------- everyone else

  // The isolate runs one callback at a time: nothing else of it happens while acks are owed.
  function OtherNext(c: Config, s: State, a: Action): State
    requires !IsReaderAction(a)
  {
    match a
    case Deliver =>
      if s.owed == [] && s.taken < |s.msgs| then
        var (rx, acks) := Handled(s.rx, s.msgs[s.taken]);
        s.(taken := s.taken + 1, rx := rx, owed := acks)
      else s
    case SendAck =>
      if s.owed != [] then s.(inflight := Released(c, s.inflight, s.owed[0]), owed := s.owed[1..]) else s
    case ListenerChange(change) =>
      if s.owed == [] && Possible(s.rx, change) then
        var (rx, acks) := Changed(s.rx, change);
        s.(rx := rx, owed := acks)
      else s
    case CloseSession => if s.owed == [] then s.(rx := Shut(s.rx)) else s
    case ForeignAck(n) => s.(inflight := Released(c, s.inflight, n), h := s.h.(foreign := true))
    case SetStop => s.(stop := true)
    case Finalize(i) =>
      if i < |s.peers| && s.peers[i] <= c.usizeMax
      then s.(external := FetchSub(c, s.external, s.peers[i]), peers := s.peers[..i] + s.peers[i + 1..])
      else s
    case Tick(micros) => s.(now := s.now + micros)
  }

  // A step that is not enabled changes nothing, so every action list is a run.
  function Next(c: Config, s: State, a: Action): State {
    if IsReaderAction(a) then ReaderNext(c, s, a) else OtherNext(c, s, a)
  }

  function Run(c: Config, s: State, acts: seq<Action>): State {
    if acts == [] then s
    else Next(c, Run(c, s, acts[..|acts| - 1]), acts[|acts| - 1])
  }

  // ---------------------------------------------------------------- measures of a state

  function Bytes(m: Message): bytes {
    match m
    case Output(payload) => payload
    case Closed => []
  }

  function Payload(msgs: seq<Message>): bytes {
    if msgs == [] then [] else Payload(msgs[..|msgs| - 1]) + Bytes(msgs[|msgs| - 1])
  }

  function Port(s: State): seq<Message>
    requires s.taken <= |s.msgs|
  {
    s.msgs[s.taken..]
  }
}
