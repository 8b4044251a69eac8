// The inductive invariant of output flow control, one predicate per concern, and the proof that
// every atomic step keeps each of them.
module OutputInvariant {
  import opened Base
  import opened Isolate
  import opened OutputFlow

  // ---------------------------------------------------------------- the invariant

  // Which points of the program go with which buffers, and when the batch clock runs.
  predicate Shape(s: State) {
    var r := s.r;
    && s.taken <= |s.msgs|
    && (r.rest != [] ==> r.pc.Append? || r.ret.ToAppend?)
    && (r.rest != [] ==> !r.pc.Top? && !r.pc.Read? && !r.pc.Appended? && !r.pc.Poll? && !r.pc.Start?)
    && (r.pc.Close? || r.pc.Done? ==> s.h.postFailed || r.rest == [])
    && (r.hand != [] ==> r.pc.Post? || r.pc.Discard?)
    && (r.pc.Discard? ==> r.hand != [])
    && (r.pc.Capacity? || r.pc.Reserve? || r.pc.External? ==> r.batch != [])
    && (r.pc.Post? ==> (r.hand == [] <==> r.batch != []))
    && (r.pc.External? || r.pc.Post? ==> r.reserved == |r.hand| + |r.batch|)
    && (r.pc.Discard? ==> r.reserved == |r.hand|)
    && (s.h.postFailed ==> r.pc.Discard? || r.pc.Rollback? || r.pc.Close? || r.pc.Done?)
    && (r.pc.Discard? || r.pc.Rollback? ==> s.h.postFailed)
    && (r.pc.Start? ==> r.batch == [])
    && (!s.h.postFailed ==> (r.pendingSince.Some? <==> r.hand + r.batch != []))
    && (r.pendingSince.Some? ==> r.pendingSince.value <= s.now)
  }

  // Every byte read is posted, in hand, batched or still to be batched, in this order.
  predicate Stream(c: Config, s: State) {
    && (!s.h.postFailed ==> Payload(s.msgs) + s.r.hand + s.r.batch + s.r.rest == s.h.read)
    && Payload(s.msgs) <= s.h.read
    && (s.r.pc.Close? || s.r.pc.Done? ==> s.h.postFailed || (c.requireAcks && s.stop) || s.r.batch == [])
  }

  predicate MayOverfill(c: Config, s: State) {
    c.requireAcks && s.stop
  }

  predicate Sizes(c: Config, s: State) {
    var r := s.r;
    && |r.hand| + |r.batch| + |r.rest| <= c.batchMax - 1 + c.readBufferSize
    && (|r.batch| <= c.batchMax || MayOverfill(c, s))
    && (r.pc.Start? || r.pc.Read? || r.pc.Poll? ==> |r.batch| < c.batchMax)
    && (r.pc.Top? || r.pc.Append? || r.pc.Appended? ==> |r.batch| < c.batchMax || MayOverfill(c, s))
    && (r.pc.Reserve? || r.pc.External? || r.pc.Post? || r.pc.Discard? ==> |r.batch| + |r.hand| <= c.batchMax)
  }

  predicate PayloadSizes(c: Config, msgs: seq<Message>) {
    forall i :: 0 <= i < |msgs| && msgs[i].Output? ==> 1 <= |msgs[i].payload| <= c.batchMax
  }

  predicate ClosedIsLast(msgs: seq<Message>, done: bool) {
    forall i :: 0 <= i < |msgs| && msgs[i].Closed? ==> done && i == |msgs| - 1
  }

  // CLOSED is attempted once, when the reader is done, and nothing follows it.
  predicate Ending(s: State) {
    && s.h.closedPosts == (if s.r.pc.Done? then 1 else 0)
    && ClosedIsLast(s.msgs, s.r.pc.Done?)
    && s.h.errors <= 1
    && (s.h.errors == 1 ==> s.r.pc.Close? || s.r.pc.Done?)
  }

  predicate StopBound(c: Config, s: State) {
    && (!s.stop ==> s.h.postsAfterStop == 0)
    && (c.requireAcks ==>
          s.h.postsAfterStop + (if s.r.pc.Reserve? || s.r.pc.External? || s.r.pc.Post? then 1 else 0) <= 1)
  }

  predicate Budget(c: Config, s: State) {
    && s.external == Sum(s.peers) + |s.r.hand|
    && s.external <= Min(c.maxExternal, c.usizeMax)
  }

  predicate Bounded(c: Config, s: State) {
    && (c.requireAcks && s.r.pc.Reserve? ==> s.inflight < c.maxInflight)
    && s.inflight <= Min(c.maxInflight - 1 + c.batchMax, U64_MAX)
    && (!c.requireAcks ==> s.inflight == 0)
  }

  predicate Accounts(s: State)
    requires s.taken <= |s.msgs|
  {
    s.inflight + |Payload(s.msgs[..s.taken])|
      == s.r.reserved + |Payload(s.msgs)| + Sum(s.rx.pendingAcks) + Sum(s.owed)
  }

  // Acks of bytes never received and a counter at its end only take credit away: in an open session the
  // counter never holds more than someone has to give back.
  predicate Covered(s: State)
    requires s.taken <= |s.msgs|
  {
    s.inflight + |Payload(s.msgs[..s.taken])|
      <= s.r.reserved + |Payload(s.msgs)| + Sum(s.rx.pendingAcks) + Sum(s.owed)
  }

  predicate NeverSaturates(c: Config) {
    c.maxInflight - 1 + c.batchMax <= U64_MAX
  }

  predicate Credit(c: Config, s: State)
    requires s.taken <= |s.msgs|
  {
    && (s.r.reserved > 0 ==> s.r.pc.External? || s.r.pc.Post? || s.r.pc.Discard? || s.r.pc.Rollback?)
    && (c.requireAcks && NeverSaturates(c) && !s.h.foreign && !s.rx.closed ==> Accounts(s))
    && (c.requireAcks && NeverSaturates(c) && !s.h.foreign && s.rx.closed ==> s.r.reserved <= s.inflight)
    && (s.rx.closed ==> s.owed == [])
    && (!s.rx.closed ==> Covered(s))
  }

  predicate Receiving(rx: Receiver, msgs: seq<Message>, taken: nat)
    requires taken <= |msgs|
  {
    && (CanAck(rx) ==> rx.pendingAcks == [])
    && (rx.outputCancelled <==> rx.listener.Cancelled?)
    && (rx.closed ==> rx.outputDone)
    && (!rx.closed ==> (rx.outputDone <==> 0 < taken && msgs[taken - 1].Closed?))
    && (!rx.closed && !rx.outputCancelled ==> Concat(rx.added) == Payload(msgs[..taken]))
    && Concat(rx.added) <= Payload(msgs[..taken])
  }

  predicate Inv(c: Config, s: State) {
    && Shape(s)
    && Stream(c, s)
    && Sizes(c, s)
    && PayloadSizes(c, s.msgs)
    && Ending(s)
    && StopBound(c, s)
    && Budget(c, s)
    && Bounded(c, s)
    && Credit(c, s)
    && Receiving(s.rx, s.msgs, s.taken)
  }

  // ---------------------------------------------------------------- folds over the port

  lemma PayloadSnoc(msgs: seq<Message>, m: Message)
    ensures Payload(msgs + [m]) == Payload(msgs) + Bytes(m)
  {
    assert (msgs + [m])[..|msgs|] == msgs;
  }

  lemma {:induction false} PayloadAppend(xs: seq<Message>, ys: seq<Message>)
    ensures Payload(xs + ys) == Payload(xs) + Payload(ys)
  {
    if ys == [] {
      assert xs + ys == xs;
    } else {
      var last := |ys| - 1;
      var front := ys[..last];
      var m := ys[last];
      calc {
        Payload(xs + ys);
        { assert xs + ys == (xs + front) + [m]; PayloadSnoc(xs + front, m); }
        Payload(xs + front) + Bytes(m);
        { PayloadAppend(xs, front); }
        Payload(xs) + Payload(front) + Bytes(m);
        Payload(xs) + (Payload(front) + Bytes(m));
        Payload(xs) + Payload(ys);
      }
    }
  }

  lemma PayloadTaken(s: State)
    requires s.taken < |s.msgs|
    ensures Payload(s.msgs[..s.taken + 1]) ==
            Payload(s.msgs[..s.taken]) + Bytes(s.msgs[s.taken])
  {
    assert s.msgs[..s.taken + 1] == s.msgs[..s.taken] + [s.msgs[s.taken]];
    PayloadSnoc(s.msgs[..s.taken], s.msgs[s.taken]);
  }

  lemma PayloadPrefix(s: State)
    requires s.taken <= |s.msgs|
    ensures Payload(s.msgs) == Payload(s.msgs[..s.taken]) + Payload(Port(s))
  {
    assert s.msgs == s.msgs[..s.taken] + Port(s);
    PayloadAppend(s.msgs[..s.taken], Port(s));
  }

  lemma SumSnoc(xs: seq<nat>, x: nat)
    ensures Sum(xs + [x]) == Sum(xs) + x
  {
    SumAppend(xs, [x]);
  }

  // ---------------------------------------------------------------- steps of the reader

  lemma FlushOkKeeps(c: Config, s: State)
    requires ValidConfig(c) && Inv(c, s)
    requires s.r.pc.Flush? || s.r.pc.Capacity?
    requires s.r.batch == [] || (c.requireAcks && s.stop)
    ensures Inv(c, FlushOk(s))
  {
    match s.r.ret
    case ToAppend =>
    case ToTop =>
    case ToClose =>
    case ToCloseWithError =>
  }

  lemma EnterFlushKeeps(c: Config, s: State)
    requires ValidConfig(c) && Inv(c, s) && s.r.pc.Flush?
    ensures Inv(c, EnterFlush(s))
  {
    if s.r.batch == [] {
      assert s.r.pendingSince == None || s.h.postFailed;
      FlushOkKeeps(c, s);
    }
  }

  lemma TestCapacityKeeps(c: Config, s: State)
    requires ValidConfig(c) && Inv(c, s) && s.r.pc.Capacity?
    ensures Inv(c, TestCapacity(c, s))
  {
    if c.requireAcks && s.stop {
      FlushOkKeeps(c, s);
    }
  }

  lemma AppendTurnBuffers(c: Config, r: Reader, now: nat)
    requires ValidConfig(c) && r.rest != []
    ensures var t := AppendTurn(c, r, now);
      && t.batch + t.rest == r.batch + r.rest
      && |r.batch| < |t.batch| && |t.rest| < |r.rest|
      && (t.pc.Append? ==> |t.batch| < c.batchMax)
      && (|r.batch| < c.batchMax ==> |t.batch| <= c.batchMax)
  {
    var take := TakeLength(c, |r.batch|, |r.rest|);
    assert r.rest == r.rest[..take] + r.rest[take..];
  }

  lemma AppendTurnStream(c: Config, s: State)
    requires ValidConfig(c) && Shape(s) && Stream(c, s) && s.r.pc.Append? && s.r.rest != []
    ensures Stream(c, s.(r := AppendTurn(c, s.r, s.now)))
  {
    AppendTurnBuffers(c, s.r, s.now);
    var r := AppendTurn(c, s.r, s.now);
    var before := Payload(s.msgs) + s.r.hand;
    assert before + (r.batch + r.rest) == before + r.batch + r.rest;
    assert before + (s.r.batch + s.r.rest) == before + s.r.batch + s.r.rest;
  }

  lemma AppendTurnKeeps(c: Config, s: State)
    requires ValidConfig(c) && Inv(c, s) && s.r.pc.Append?
    ensures Inv(c, s.(r := AppendTurn(c, s.r, s.now)))
  {
    if s.r.rest != [] {
      AppendTurnStream(c, s);
      AppendTurnBuffers(c, s.r, s.now);
    }
  }

  lemma AfterAppendKeeps(c: Config, s: State)
    requires ValidConfig(c) && Inv(c, s) && s.r.pc.Appended?
    ensures Inv(c, AfterAppend(c, s))
  {
    if !c.fdReads {
      if DelayElapsed(c, s.r, s.now) {
      } else {
      }
    } else if s.stop {
    } else {
    }
  }

  lemma ReserveCreditKeeps(c: Config, s: State)
    requires ValidConfig(c) && Inv(c, s) && s.r.pc.Reserve?
    ensures Inv(c, ReserveCredit(c, s))
  {
  }

  // Moving the batch into an external buffer moves no byte in the stream ...
  lemma ReserveBudgetStream(c: Config, s: State)
    requires Shape(s) && Stream(c, s) && Sizes(c, s) && Ending(s) && s.r.pc.External?
    ensures var t := ReserveBudget(c, s); Shape(t) && Stream(c, t) && Sizes(c, t) && Ending(t)
  {
  }

  // ... and adds to the budget what it puts in hand.
  lemma ReserveBudgetCounters(c: Config, s: State)
    requires Shape(s) && StopBound(c, s) && Budget(c, s) && Bounded(c, s) && Credit(c, s) && s.r.pc.External?
    ensures var t := ReserveBudget(c, s); StopBound(c, t) && Budget(c, t) && Bounded(c, t) && Credit(c, t)
  {
  }

  lemma ReserveBudgetKeeps(c: Config, s: State)
    requires ValidConfig(c) && Inv(c, s) && s.r.pc.External?
    ensures Inv(c, ReserveBudget(c, s))
  {
    ReserveBudgetStream(c, s);
    ReserveBudgetCounters(c, s);
  }

  lemma PostGrows(c: Config, s: State, m: Message)
    requires s.taken <= |s.msgs| && Receiving(s.rx, s.msgs, s.taken)
    ensures Receiving(s.rx, s.msgs + [m], s.taken)
    ensures (s.msgs + [m])[..s.taken] == s.msgs[..s.taken]
    ensures Payload(s.msgs + [m]) == Payload(s.msgs) + Bytes(m)
  {
    PayloadSnoc(s.msgs, m);
    assert (s.msgs + [m])[..s.taken] == s.msgs[..s.taken];
  }

  lemma AcceptedStream(c: Config, s: State)
    requires Shape(s) && Stream(c, s) && Sizes(c, s) && PayloadSizes(c, s.msgs) && Ending(s) && s.r.pc.Post?
    ensures Stream(c, Accepted(s)) && PayloadSizes(c, Accepted(s).msgs) && Ending(Accepted(s))
  {
    PayloadSnoc(s.msgs, Output(s.r.hand + s.r.batch));
    assert Payload(s.msgs) + s.r.hand + s.r.batch == Payload(Accepted(s).msgs);
  }

  lemma AcceptedCounters(c: Config, s: State)
    requires Shape(s) && Receiving(s.rx, s.msgs, s.taken) && Budget(c, s) && Credit(c, s) && s.r.pc.Post?
    ensures var t := Accepted(s); Budget(c, t) && Credit(c, t) && Receiving(t.rx, t.msgs, t.taken)
  {
    PostGrows(c, s, Output(s.r.hand + s.r.batch));
    SumSnoc(s.peers, |s.r.hand|);
  }

  // A reader whose message was taken is where an empty `flush` would leave it.
  lemma AcceptedKeeps(c: Config, s: State)
    requires ValidConfig(c) && Inv(c, s) && s.r.pc.Post?
    ensures Inv(c, Goto(Accepted(s), Flush))
  {
    AcceptedStream(c, s);
    AcceptedCounters(c, s);
  }

  lemma PostedKeeps(c: Config, s: State)
    requires ValidConfig(c) && Inv(c, s) && s.r.pc.Post?
    ensures Inv(c, Posted(s))
  {
    var t := Goto(Accepted(s), Flush);
    assert Posted(s) == FlushOk(t);
    AcceptedKeeps(c, s);
    FlushOkKeeps(c, t);
  }

  lemma PostRefusedKeeps(c: Config, s: State)
    requires ValidConfig(c) && Inv(c, s) && s.r.pc.Post?
    ensures Inv(c, PostRefused(s))
  {
  }

  lemma DropPeerKeeps(c: Config, s: State)
    requires ValidConfig(c) && Inv(c, s) && s.r.pc.Discard?
    ensures Inv(c, DropPeer(c, s))
  {
  }

  lemma RollBackKeeps(c: Config, s: State)
    requires ValidConfig(c) && Inv(c, s) && s.r.pc.Rollback?
    ensures Inv(c, RollBack(c, s))
  {
    PayloadPrefix(s);
  }

  lemma PortsClosedOrder(c: Config, s: State, ok: bool)
    requires Shape(s) && Stream(c, s) && Sizes(c, s) && PayloadSizes(c, s.msgs) && Ending(s) && s.r.pc.Close?
    ensures var t := PortsClosed(s, ok);
      Shape(t) && Stream(c, t) && Sizes(c, t) && PayloadSizes(c, t.msgs) && Ending(t)
  {
    PayloadSnoc(s.msgs, Closed);
  }

  lemma PortsClosedCounters(c: Config, s: State, ok: bool)
    requires s.taken <= |s.msgs| && Receiving(s.rx, s.msgs, s.taken) && s.r.pc.Close?
    requires StopBound(c, s) && Budget(c, s) && Bounded(c, s) && Credit(c, s)
    ensures var t := PortsClosed(s, ok);
      StopBound(c, t) && Budget(c, t) && Bounded(c, t) && Credit(c, t) && Receiving(t.rx, t.msgs, t.taken)
  {
    PostGrows(c, s, Closed);
  }

  lemma PortsClosedKeeps(c: Config, s: State, ok: bool)
    requires ValidConfig(c) && Inv(c, s) && s.r.pc.Close?
    ensures Inv(c, PortsClosed(s, ok))
  {
    PortsClosedOrder(c, s, ok);
    PortsClosedCounters(c, s, ok);
  }

  lemma DataReadKeeps(c: Config, s: State, data: bytes)
    requires ValidConfig(c) && Inv(c, s) && s.r.pc.Read? && 1 <= |data| <= c.readBufferSize
    ensures Inv(c, DataRead(s, data))
  {
  }

  lemma TopKeeps(c: Config, s: State)
    requires ValidConfig(c) && Inv(c, s) && s.r.pc.Top?
    ensures Inv(c, Advanced(c, s))
  {
  }

  lemma AdvancedKeeps(c: Config, s: State)
    requires ValidConfig(c) && Inv(c, s)
    ensures Inv(c, Advanced(c, s))
  {
    match s.r.pc {
      case Top => TopKeeps(c, s);
      case Append => AppendTurnKeeps(c, s);
      case Appended => AfterAppendKeeps(c, s);
      case Flush => EnterFlushKeeps(c, s);
      case Capacity => TestCapacityKeeps(c, s);
      case Reserve => ReserveCreditKeeps(c, s);
      case External => ReserveBudgetKeeps(c, s);
      case Discard => DropPeerKeeps(c, s);
      case Rollback => RollBackKeeps(c, s);
      case _ =>
    }
  }

  // The steps that only move the program counter.
  lemma StartKeeps(c: Config, s: State, ok: bool)
    requires ValidConfig(c) && Inv(c, s) && s.r.pc.Start?
    ensures Inv(c, Started(s, ok))
  {
  }

  lemma ReadMoveKeeps(c: Config, s: State, a: Action)
    requires ValidConfig(c) && Inv(c, s)
    requires a.ReadEof? || a.ReadError? || a.ReadWouldBlock? || a.ReadInterrupted?
    ensures Inv(c, ReaderNext(c, s, a))
  {
    match a
    case ReadEof =>
    case ReadError =>
    case ReadWouldBlock =>
    case ReadInterrupted =>
  }

  lemma PollMoveKeeps(c: Config, s: State, a: Action)
    requires ValidConfig(c) && Inv(c, s)
    requires a.PollTimeout? || a.PollReady? || a.PollError?
    ensures Inv(c, ReaderNext(c, s, a))
  {
    match a
    case PollTimeout =>
    case PollReady =>
    case PollError =>
  }

  lemma ReaderKeeps(c: Config, s: State, a: Action)
    requires ValidConfig(c) && Inv(c, s) && IsReaderAction(a)
    ensures Inv(c, ReaderNext(c, s, a))
  {
    match a {
      case Advance => AdvancedKeeps(c, s);
      case ReadData(data) =>
        if s.r.pc.Read? && 1 <= |data| <= c.readBufferSize { DataReadKeeps(c, s, data); }
      case PostOutput(ok) =>
        if s.r.pc.Post? {
          if ok { PostedKeeps(c, s); } else { PostRefusedKeeps(c, s); }
        }
      case PostClosed(ok) =>
        if s.r.pc.Close? { PortsClosedKeeps(c, s, ok); }
      case Begin(ok) => if s.r.pc.Start? { StartKeeps(c, s, ok); }
      case ReadEof => ReadMoveKeeps(c, s, a);
      case ReadError => ReadMoveKeeps(c, s, a);
      case ReadWouldBlock => ReadMoveKeeps(c, s, a);
      case ReadInterrupted => ReadMoveKeeps(c, s, a);
      case PollTimeout => PollMoveKeeps(c, s, a);
      case PollReady => PollMoveKeeps(c, s, a);
      case PollError => PollMoveKeeps(c, s, a);
    }
  }

  // ---------------------------------------------------------------- steps of everyone else

  lemma HandledKeeps(s: State)
    requires Shape(s) && Ending(s) && Receiving(s.rx, s.msgs, s.taken) && s.taken < |s.msgs|
    ensures var (rx, acks) := Handled(s.rx, s.msgs[s.taken]);
      && Receiving(rx, s.msgs, s.taken + 1)
      && rx.closed == s.rx.closed
      && (!rx.closed ==> Sum(rx.pendingAcks) + Sum(acks) + |Payload(s.msgs[..s.taken])|
                         == Sum(s.rx.pendingAcks) + |Payload(s.msgs[..s.taken + 1])|)
  {
    PayloadTaken(s);
    var m := s.msgs[s.taken];
    if m.Output? {
      SumSnoc(s.rx.pendingAcks, |m.payload|);
      ConcatSnoc(s.rx.added, m.payload);
      assert Sum([|m.payload|]) == |m.payload|;
    }
  }

  lemma DeliverKeeps(c: Config, s: State)
    requires ValidConfig(c) && Inv(c, s) && s.owed == [] && s.taken < |s.msgs|
    ensures Inv(c, OtherNext(c, s, Deliver))
  {
    HandledKeeps(s);
  }

  lemma SendAckKeeps(c: Config, s: State)
    requires ValidConfig(c) && Inv(c, s) && s.owed != []
    ensures Inv(c, OtherNext(c, s, SendAck))
  {
    PayloadPrefix(s);
  }

  lemma ListenerKeeps(c: Config, s: State, change: Change)
    requires ValidConfig(c) && Inv(c, s) && s.owed == [] && Possible(s.rx, change)
    ensures Inv(c, OtherNext(c, s, ListenerChange(change)))
  {
  }

  lemma FinalizeKeeps(c: Config, s: State, i: nat)
    requires ValidConfig(c) && Inv(c, s) && i < |s.peers|
    ensures Inv(c, OtherNext(c, s, Finalize(i)))
  {
    SumRemove(s.peers, i);
  }

  // A session closes with its credit in balance, and reserved credit stays covered from then on.
  lemma CloseSessionKeeps(c: Config, s: State)
    requires ValidConfig(c) && Inv(c, s)
    ensures Inv(c, OtherNext(c, s, CloseSession))
  {
    PayloadPrefix(s);
  }

  lemma OutsideKeeps(c: Config, s: State, a: Action)
    requires ValidConfig(c) && Inv(c, s)
    requires a.ForeignAck? || a.SetStop? || a.Tick?
    ensures Inv(c, OtherNext(c, s, a))
  {
    match a
    case ForeignAck(n) =>
    case SetStop =>
    case Tick(micros) =>
  }

  lemma OtherKeeps(c: Config, s: State, a: Action)
    requires ValidConfig(c) && Inv(c, s) && !IsReaderAction(a)
    ensures Inv(c, OtherNext(c, s, a))
  {
    match a {
      case Deliver => if s.owed == [] && s.taken < |s.msgs| { DeliverKeeps(c, s); }
      case SendAck => if s.owed != [] { SendAckKeeps(c, s); }
      case ListenerChange(change) => if s.owed == [] && Possible(s.rx, change) { ListenerKeeps(c, s, change); }
      case Finalize(i) => if i < |s.peers| { FinalizeKeeps(c, s, i); }
      case CloseSession => CloseSessionKeeps(c, s);
      case _ => OutsideKeeps(c, s, a);
    }
  }

  lemma NextKeeps(c: Config, s: State, a: Action)
    requires ValidConfig(c) && Inv(c, s)
    ensures Inv(c, Next(c, s, a))
  {
    if IsReaderAction(a) { ReaderKeeps(c, s, a); } else { OtherKeeps(c, s, a); }
  }

  lemma {:induction false} RunKeeps(c: Config, s: State, acts: seq<Action>)
    requires ValidConfig(c) && Inv(c, s)
    ensures Inv(c, Run(c, s, acts))
  {
    if acts != [] {
      var last := |acts| - 1;
      RunKeeps(c, s, acts[..last]);
      NextKeeps(c, Run(c, s, acts[..last]), acts[last]);
    }
  }

  lemma InitialHolds(c: Config)
    requires ValidConfig(c)
    ensures Inv(c, INITIAL_STATE)
  {
    var msgs: seq<Message> := [];
    assert msgs[..0] == msgs;
  }

  lemma Reachable(c: Config, acts: seq<Action>)
    requires ValidConfig(c)
    ensures Inv(c, Run(c, INITIAL_STATE, acts))
  {
    InitialHolds(c);
    RunKeeps(c, INITIAL_STATE, acts);
  }
}
