// What output flow control reports and when it hurries: the error event of a run and its cause, the
// clock of the batch, and the flush that its deadline calls for.
module OutputEvents {
  import opened Base
  import Isolate
  import opened OutputFlow
  import opened OutputInvariant
  import opened OutputTheorems

  // ---------------------------------------------------------------- the error event

  predicate InFlush(pc: Pc) {
    pc.Flush? || pc.Capacity? || pc.Reserve? || pc.External? || pc.Post? || pc.Discard? || pc.Rollback?
  }

  predicate Leaving(pc: Pc) {
    pc.Close? || pc.Done?
  }

  // The reader is in its last flush, or has left its loop after it, and `errors` events have been or
  // will have been posted when it is done.
  predicate Leaves(s: State, ret: Return, errors: nat) {
    || (InFlush(s.r.pc) && s.r.ret == ret && s.h.errors == 0)
    || (Leaving(s.r.pc) && s.h.errors == errors)
  }

  lemma LastFlushStep(c: Config, s: State, a: Action, ret: Return)
    requires ret == ToClose || ret == ToCloseWithError
    requires Leaves(s, ret, if ret == ToClose then 0 else 1)
    ensures Leaves(Next(c, s, a), ret, if ret == ToClose then 0 else 1)
  {
    if a.Advance? {
      match s.r.pc
      case Flush =>
      case Capacity =>
      case Rollback =>
      case _ =>
    } else if IsReaderAction(a) {
    } else {
      OthersReportNothing(c, s, a);
    }
  }

  lemma OthersReportNothing(c: Config, s: State, a: Action)
    requires !IsReaderAction(a)
    ensures Next(c, s, a).r == s.r && Next(c, s, a).h.errors == s.h.errors && Next(c, s, a).h.postFailed == s.h.postFailed
  {
  }

  lemma {:induction false} LastFlushRun(c: Config, s: State, acts: seq<Action>, ret: Return)
    requires ret == ToClose || ret == ToCloseWithError
    requires Leaves(s, ret, if ret == ToClose then 0 else 1)
    ensures Leaves(Run(c, s, acts), ret, if ret == ToClose then 0 else 1)
  {
    if acts != [] {
      LastFlushRun(c, s, acts[..|acts| - 1], ret);
      LastFlushStep(c, Run(c, s, acts[..|acts| - 1]), acts[|acts| - 1], ret);
    }
  }

  // A reader that meets the end of the stream, or stop, ends without an error event, even if its last
  // flush fails.
  lemma PlainEndReportsNothing(c: Config, acts: seq<Action>, a: Action, more: seq<Action>)
    requires ValidConfig(c)
    requires var s := Reach(c, acts); (s.r.pc.Read? && a.ReadEof?) || (s.r.pc.Top? && s.stop && a.Advance?)
    ensures var t := Run(c, Next(c, Reach(c, acts), a), more);
      (InFlush(t.r.pc) || Leaving(t.r.pc)) && (Leaving(t.r.pc) ==> t.h.errors == 0)
  {
    Reachable(c, acts);
    LastFlushRun(c, Next(c, Reach(c, acts), a), more, ToClose);
  }

  // One that meets an error of the terminal posts exactly one.
  lemma BrokenEndReportsOnce(c: Config, acts: seq<Action>, a: Action, more: seq<Action>)
    requires ValidConfig(c)
    requires var s := Reach(c, acts); (s.r.pc.Read? && a.ReadError?) || (s.r.pc.Poll? && a.PollError?)
    ensures var t := Run(c, Next(c, Reach(c, acts), a), more);
      (InFlush(t.r.pc) || Leaving(t.r.pc)) && (Leaving(t.r.pc) ==> t.h.errors == 1)
  {
    Reachable(c, acts);
    LastFlushRun(c, Next(c, Reach(c, acts), a), more, ToCloseWithError);
  }

  // So does one that cannot begin, and it posts nothing else but CLOSED.
  lemma FailedStartIsReported(c: Config, s: State)
    requires s.r.pc.Start? && s.h.errors == 0
    ensures var t := Next(c, s, Begin(false)); t.r.pc.Close? && t.h.errors == 1 && t.msgs == s.msgs
    ensures Next(c, s, Begin(true)) == Goto(s, Top)
  {
  }

  // A post that the port refuses ends the run; unless it was the last flush on a plain way out, exactly
  // one error event is posted.
  lemma RefusedPostStep(c: Config, s: State, a: Action, errors: nat)
    requires s.h.postFailed && s.h.errors + (if Leaving(s.r.pc) then 0 else 1) <= 1
    requires Leaving(s.r.pc) ==> s.h.errors == errors
    requires !Leaving(s.r.pc) ==>
               (s.r.pc.Discard? || s.r.pc.Rollback?) && s.h.errors == 0 && errors == if s.r.ret == ToClose then 0 else 1
    ensures var t := Next(c, s, a);
      && t.h.postFailed
      && (Leaving(t.r.pc) ==> t.h.errors == errors)
      && (!Leaving(t.r.pc) ==>
            (t.r.pc.Discard? || t.r.pc.Rollback?) && t.h.errors == 0 && errors == if t.r.ret == ToClose then 0 else 1)
  {
    if !IsReaderAction(a) {
      OthersReportNothing(c, s, a);
    }
  }

  lemma {:induction false} RefusedPostRun(c: Config, s: State, acts: seq<Action>)
    requires s.h.postFailed && s.h.errors == 0 && (s.r.pc.Discard? || s.r.pc.Rollback?)
    ensures var t := Run(c, s, acts);
            var errors := if s.r.ret == ToClose then 0 else 1;
      && t.h.postFailed
      && (Leaving(t.r.pc) ==> t.h.errors == errors)
      && (!Leaving(t.r.pc) ==>
            (t.r.pc.Discard? || t.r.pc.Rollback?) && t.h.errors == 0 && errors == if t.r.ret == ToClose then 0 else 1)
  {
    if acts != [] {
      RefusedPostRun(c, s, acts[..|acts| - 1]);
      RefusedPostStep(c, Run(c, s, acts[..|acts| - 1]), acts[|acts| - 1], if s.r.ret == ToClose then 0 else 1);
    }
  }

  lemma RefusedPostIsReported(c: Config, acts: seq<Action>, more: seq<Action>)
    requires ValidConfig(c) && Reach(c, acts).r.pc.Post?
    ensures var s := Reach(c, acts);
            var t := Run(c, Next(c, s, PostOutput(false)), more);
      && !t.r.pc.Read?
      && (Leaving(t.r.pc) ==> t.h.errors == if s.r.ret == ToClose then 0 else 1)
  {
    Reachable(c, acts);
    RefusedPostRun(c, Next(c, Reach(c, acts), PostOutput(false)), more);
  }

  // ---------------------------------------------------------------- messages after stop

  function Outputs(msgs: seq<Isolate.Message>): nat {
    if msgs == [] then 0 else Outputs(msgs[..|msgs| - 1]) + if msgs[|msgs| - 1].Output? then 1 else 0
  }

  lemma OutputsSnoc(msgs: seq<Isolate.Message>, m: Isolate.Message)
    ensures Outputs(msgs + [m]) == Outputs(msgs) + if m.Output? then 1 else 0
  {
    assert (msgs + [m])[..|msgs|] == msgs;
  }

  lemma GateStep(c: Config, s: State, a: Action)
    requires c.requireAcks && s.stop
    ensures var t := Next(c, s, a);
      t.stop && Outputs(t.msgs) + (if PastTest(t.r) then 1 else 0) <= Outputs(s.msgs) + if PastTest(s.r) then 1 else 0
  {
    if a.PostOutput? {
      OutputsSnoc(s.msgs, Isolate.Output(s.r.hand + s.r.batch));
      PostedPayload(s);
      PostedMessage(s);
    } else if a.PostClosed? {
      OutputsSnoc(s.msgs, Isolate.Closed);
    } else {
      OnlyPostsPost(c, s, a);
      if !PastTest(s.r) { SuppressedStep(c, s, a); }
    }
    StopStays(c, s, a);
  }

  lemma PostedMessage(s: State)
    ensures Posted(s).msgs == s.msgs + [Isolate.Output(s.r.hand + s.r.batch)] && !PastTest(Posted(s).r)
  {
    match s.r.ret
    case ToAppend =>
    case ToTop =>
    case ToClose =>
    case ToCloseWithError =>
  }

  // After stop, with acks required, one OUTPUT message at most is still posted.
  lemma {:induction false} OneMessageAfterStop(c: Config, s: State, acts: seq<Action>)
    requires c.requireAcks && s.stop
    ensures var t := Run(c, s, acts);
      t.stop && Outputs(t.msgs) + (if PastTest(t.r) then 1 else 0) <= Outputs(s.msgs) + if PastTest(s.r) then 1 else 0
  {
    if acts != [] {
      OneMessageAfterStop(c, s, acts[..|acts| - 1]);
      GateStep(c, Run(c, s, acts[..|acts| - 1]), acts[|acts| - 1]);
    }
  }

  // ---------------------------------------------------------------- the clock of the batch

  predicate Holds(r: Reader) {
    r.hand != [] || r.batch != []
  }

  lemma ClockAdvances(c: Config, s: State)
    requires ValidConfig(c) && Shape(s) && Holds(s.r) && !s.h.postFailed
    ensures Holds(Advanced(c, s).r) && Advanced(c, s).r.pendingSince == s.r.pendingSince
  {
    match s.r.pc
    case Append => if s.r.rest != [] { AppendTurnBuffers(c, s.r, s.now); }
    case Flush =>
    case Capacity =>
    case _ =>
  }

  lemma ClockStep(c: Config, s: State, a: Action)
    requires ValidConfig(c) && Shape(s) && Holds(s.r) && !s.h.postFailed
    requires Next(c, s, a).msgs == s.msgs && !Next(c, s, a).h.postFailed
    ensures Holds(Next(c, s, a).r) && Next(c, s, a).r.pendingSince == s.r.pendingSince
  {
    if a.Advance? {
      ClockAdvances(c, s);
    } else if !IsReaderAction(a) {
      OthersReportNothing(c, s, a);
    } else {
      ClockMoves(c, s, a);
    }
  }

  lemma ClockMoves(c: Config, s: State, a: Action)
    requires Shape(s) && Holds(s.r) && IsReaderAction(a) && !a.Advance?
    requires Next(c, s, a).msgs == s.msgs && !Next(c, s, a).h.postFailed
    ensures Holds(Next(c, s, a).r) && Next(c, s, a).r.pendingSince == s.r.pendingSince
  {
    match a
    case Begin(_) =>
    case PostOutput(_) =>
    case PostClosed(_) =>
    case _ =>
  }

  lemma MsgsGrow(c: Config, s: State, a: Action)
    ensures s.msgs <= Next(c, s, a).msgs
    ensures s.h.postFailed ==> Next(c, s, a).h.postFailed
  {
    if a.Advance? {
      OnlyPostsPost(c, s, a);
    }
  }

  // The clock of a batch runs from its first byte: as long as nothing is posted, more bytes do not
  // renew it.
  lemma {:induction false} ClockStands(c: Config, acts: seq<Action>, more: seq<Action>)
    requires ValidConfig(c) && Holds(Reach(c, acts).r)
    ensures var s := Reach(c, acts);
            var t := Run(c, s, more);
      && s.msgs <= t.msgs && (s.h.postFailed ==> t.h.postFailed)
      && (t.msgs == s.msgs && !t.h.postFailed ==> Holds(t.r) && t.r.pendingSince == s.r.pendingSince)
  {
    if more != [] {
      var last := |more| - 1;
      var s := Reach(c, acts);
      var t := Run(c, s, more[..last]);
      ClockStands(c, acts, more[..last]);
      Reachable(c, acts);
      RunKeeps(c, s, more[..last]);
      MsgsGrow(c, t, more[last]);
      if Next(c, t, more[last]).msgs == s.msgs && !Next(c, t, more[last]).h.postFailed {
        ClockStep(c, t, more[last]);
      }
    }
  }

  // It starts when the first byte comes.
  lemma ClockStarts(c: Config, acts: seq<Action>)
    requires ValidConfig(c) && Reach(c, acts).r.pc.Append? && Reach(c, acts).r.rest != []
    ensures var s := Reach(c, acts);
      s.r.batch == [] ==> Next(c, s, Advance).r.pendingSince == Some(s.now)
  {
  }

  // A blocking reader that has taken its data and finds that the first byte of its batch has waited
  // the delay flushes; otherwise it reads on.
  lemma DelayCallsForFlush(c: Config, acts: seq<Action>)
    requires ValidConfig(c) && !c.fdReads
    ensures var s := Reach(c, acts);
      s.r.pc.Appended? && s.r.batch != [] ==>
        && s.r.pendingSince.Some?
        && (Next(c, s, Advance).r.pc.Flush? <==> s.now >= s.r.pendingSince.value + c.batchDelay)
        && (!Next(c, s, Advance).r.pc.Flush? ==> Next(c, s, Advance) == Goto(s, Top))
  {
    Reachable(c, acts);
  }

  // A direct reader reads on until it has to poll, a poll that times out makes it flush, and data that
  // does not fill the batch does not.
  lemma DirectReaderBatches(c: Config, s: State)
    ensures s.r.pc.Appended? && c.fdReads && !s.stop ==> Next(c, s, Advance) == Goto(s, Read)
    ensures s.r.pc.Poll? ==> Next(c, s, PollTimeout).r.pc.Flush? && Next(c, s, PollReady) == Goto(s, Top)
    ensures s.r.pc.Top? && !s.stop ==> Next(c, s, Advance) == Goto(s, Read)
    ensures s.r.pc.Append? && s.r.rest != [] && |s.r.batch| + |s.r.rest| < c.batchMax ==> Next(c, s, Advance).r.pc.Append?
  {
  }

  // An interrupted read of the blocking reader is tried again, after a look at the stop flag.
  lemma InterruptedReadIsRepeated(c: Config, s: State)
    ensures s.r.pc.Read? && !c.fdReads ==> Next(c, s, ReadInterrupted) == Goto(s, Top)
    ensures s.r.pc.Read? && c.fdReads ==> Next(c, s, ReadWouldBlock) == Goto(s, Poll)
  {
  }

  // ---------------------------------------------------------------- hand-over

  // A message goes as an external buffer exactly if that is enabled and its bytes fit what is left of
  // the budget; then the bytes are in hand and on the budget, otherwise nothing is.
  lemma GoesExternalIff(c: Config, acts: seq<Action>)
    requires ValidConfig(c) && Reach(c, acts).r.pc.External?
    ensures var s := Reach(c, acts);
            var t := Next(c, s, Advance);
            var fits := c.useExternal && s.external + |s.r.batch| <= Min(c.maxExternal, c.usizeMax);
      && t.r.pc.Post?
      && (fits ==> t.r.hand == s.r.batch && t.r.batch == [] && t.external == s.external + |s.r.batch|)
      && (!fits ==> t.r.hand == [] && t.r.batch == s.r.batch && t.external == s.external)
  {
    Reachable(c, acts);
  }

  // A finalizer gives back exactly the bytes of its buffer, which is not finalized again.
  lemma FinalizerGivesBack(c: Config, acts: seq<Action>, i: nat)
    requires ValidConfig(c) && i < |Reach(c, acts).peers|
    ensures var s := Reach(c, acts);
            var t := Next(c, s, Finalize(i));
      && t.external + s.peers[i] == s.external
      && multiset(t.peers) + multiset{s.peers[i]} == multiset(s.peers)
      && t.r == s.r && t.msgs == s.msgs && t.inflight == s.inflight
  {
    Reachable(c, acts);
    var s := Reach(c, acts);
    SumRemove(s.peers, i);
    assert s.peers == s.peers[..i] + [s.peers[i]] + s.peers[i + 1..];
  }

  // An ack from anyone lowers the counter by its amount, to zero at the least, if acks count at all.
  lemma AckLowersTheCounter(c: Config, s: State, n: nat)
    ensures var t := Next(c, s, ForeignAck(n));
      t.inflight == (if !c.requireAcks then s.inflight else if n <= s.inflight then s.inflight - n else 0) && t.r == s.r
    ensures s.owed != [] ==>
              var t := Next(c, s, SendAck);
              && t.owed == s.owed[1..] && t.rx == s.rx
              && t.inflight == if !c.requireAcks then s.inflight else if s.owed[0] <= s.inflight then s.inflight - s.owed[0] else 0
  {
  }

  // CLOSED is the last message if the port takes it.
  lemma ClosedIsPosted(c: Config, s: State, ok: bool)
    requires s.r.pc.Close?
    ensures var t := Next(c, s, PostClosed(ok));
      t.r.pc.Done? && t.msgs == (if ok then s.msgs + [Isolate.Closed] else s.msgs)
  {
  }

  // ---------------------------------------------------------------- the isolate of the system

  // The callback of the session object that a step of the system makes, if any.
  function CallbackOf(s: State, a: Action): Option<Isolate.Step> {
    if s.owed != [] then None
    else match a
      case Deliver => if s.taken < |s.msgs| then Some(Isolate.Take(s.msgs[s.taken])) else None
      case ListenerChange(change) => Some(Isolate.Change(change))
      case CloseSession => Some(Isolate.End)
      case _ => None
  }

  function Callbacks(c: Config, acts: seq<Action>): seq<Isolate.Step> {
    if acts == [] then []
    else
      var front := acts[..|acts| - 1];
      var step := CallbackOf(Reach(c, front), acts[|acts| - 1]);
      Callbacks(c, front) + if step.Some? then [step.value] else []
  }

  lemma ReaderLeavesIsolate(c: Config, s: State, a: Action)
    requires IsReaderAction(a)
    ensures Next(c, s, a).rx == s.rx
  {
    if a.Advance? {
      match s.r.pc
      case Flush =>
      case Capacity =>
      case Rollback =>
      case _ =>
    }
  }

  lemma StepIsCallback(c: Config, s: State, a: Action)
    ensures Next(c, s, a).rx ==
            if CallbackOf(s, a).Some? then Isolate.Stepped(s.rx, CallbackOf(s, a).value).0 else s.rx
  {
    if IsReaderAction(a) {
      ReaderLeavesIsolate(c, s, a);
    }
  }

  // In every run of the system the isolate is the session object, driven by the callbacks of the run:
  // what is proved of the object's listener, its stream and its parked acks holds there.
  lemma {:induction false} IsolateIsTheObject(c: Config, acts: seq<Action>)
    ensures Reach(c, acts).rx == Isolate.Driven(Callbacks(c, acts)).0
  {
    if acts != [] {
      var front := acts[..|acts| - 1];
      var a := acts[|acts| - 1];
      var s := Reach(c, front);
      IsolateIsTheObject(c, front);
      StepIsCallback(c, s, a);
      if CallbackOf(s, a).Some? {
        Isolate.DrivenSnoc(Callbacks(c, front), CallbackOf(s, a).value);
      } else {
        assert Callbacks(c, acts) == Callbacks(c, front);
      }
    }
  }
}
