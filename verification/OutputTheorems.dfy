// What output flow control promises over every run: conservation and bounds of the credit, safety
// and completeness of the byte stream, progress of a blocked reader, and shutdown.
module OutputTheorems {
  import opened Base
  import opened Isolate
  import opened OutputFlow
  import opened OutputInvariant

  function Reach(c: Config, acts: seq<Action>): State {
    Run(c, INITIAL_STATE, acts)
  }

  // ---------------------------------------------------------------- credit

  // No credit is lost or made up: what the native counter holds is reserved for a message about to
  // be posted, queued in the port, parked by the isolate, or about to be sent back by it.
  lemma CreditIsConserved(c: Config, acts: seq<Action>)
    requires ValidConfig(c) && c.requireAcks && NeverSaturates(c)
    ensures var s := Reach(c, acts);
      && s.taken <= |s.msgs|
      && (!s.h.foreign && !s.rx.closed ==>
            s.inflight == s.r.reserved + |Payload(Port(s))| + Sum(s.rx.pendingAcks) + Sum(s.owed))
  {
    Reachable(c, acts);
    PayloadPrefix(Reach(c, acts));
  }

  // The bound holds for acks of any size from anyone, although the lock is dropped between the
  // capacity test and the reservation, and for any limit.
  lemma InflightIsBounded(c: Config, acts: seq<Action>)
    requires ValidConfig(c)
    ensures Reach(c, acts).inflight <= Min(c.maxInflight - 1 + c.batchMax, U64_MAX)
  {
    Reachable(c, acts);
  }

  // An isolate that may ack holds nothing back, so a reader that waits for credit in an open session
  // always has someone to wait for, whoever else has acknowledged what and whatever the limit.
  lemma BlockedReaderHasCreditor(c: Config, acts: seq<Action>)
    requires ValidConfig(c) && c.requireAcks
    ensures CanAck(Reach(c, acts).rx) ==> Reach(c, acts).rx.pendingAcks == []
    ensures var s := Reach(c, acts);
      s.r.pc.Capacity? && TestCapacity(c, s) == s && !s.rx.closed ==>
        || s.owed != []
        || (s.taken < |s.msgs| && exists m :: m in Port(s) && m.Output?)
        || (!CanAck(s.rx) && s.rx.pendingAcks != [] && (s.rx.listener.NoListener? || s.rx.listener.Paused?))
  {
    Reachable(c, acts);
    var s := Reach(c, acts);
    PayloadPrefix(s);
    if s.r.pc.Capacity? && TestCapacity(c, s) == s && !s.rx.closed && Payload(Port(s)) != [] {
      PayloadHasOutput(Port(s));
    }
  }

  lemma {:induction false} PayloadHasOutput(msgs: seq<Message>)
    requires Payload(msgs) != []
    ensures exists m :: m in msgs && m.Output?
  {
    var last := msgs[|msgs| - 1];
    if last.Output? {
      assert last in msgs;
    } else {
      PayloadHasOutput(msgs[..|msgs| - 1]);
    }
  }

  // What the isolate does next if the application wants its output: send an owed ack, take a
  // message, or start listening again.
  function Willing(s: State): Option<Action> {
    if s.owed != [] then Some(SendAck)
    else if s.taken < |s.msgs| then Some(Deliver)
    else if s.rx.listener.NoListener? then Some(ListenerChange(Listen))
    else if s.rx.listener.Paused? then Some(ListenerChange(Resume))
    else None
  }

  function Work(s: State): int {
    3 * (|s.msgs| - s.taken) + 2 * |s.rx.pendingAcks| + |s.owed| + if CanAck(s.rx) then 0 else 1
  }

  lemma RunCons(c: Config, s: State, a: Action, acts: seq<Action>)
    ensures Run(c, s, [a] + acts) == Run(c, Next(c, s, a), acts)
  {
    if acts == [] {
      assert [a] + acts == [a];
      assert Run(c, s, [a]) == Next(c, Run(c, s, []), a);
    } else {
      var last := |acts| - 1;
      var all := [a] + acts;
      assert all[..|all| - 1] == [a] + acts[..last] && all[|all| - 1] == acts[last];
      RunCons(c, s, a, acts[..last]);
      assert Run(c, s, all) == Next(c, Run(c, s, all[..|all| - 1]), acts[last]);
    }
  }

  lemma DeliverWorks(c: Config, s: State)
    requires Shape(s) && Ending(s) && Receiving(s.rx, s.msgs, s.taken) && !s.rx.closed
    requires s.owed == [] && s.taken < |s.msgs|
    ensures var t := OtherNext(c, s, Deliver);
      t.r == s.r && !t.rx.closed && t.h == s.h && t.stop == s.stop && 0 <= Work(t) < Work(s)
  {
    match s.msgs[s.taken]
    case Closed =>
    case Output(payload) =>
  }

  lemma WillingWorks(c: Config, s: State)
    requires Shape(s) && Ending(s) && Receiving(s.rx, s.msgs, s.taken) && !s.rx.closed && Willing(s).Some?
    ensures var t := Next(c, s, Willing(s).value);
      t.r == s.r && !t.rx.closed && t.h == s.h && t.stop == s.stop && 0 <= Work(t) < Work(s)
  {
    if s.owed != [] {
    } else if s.taken < |s.msgs| {
      DeliverWorks(c, s);
    } else if s.rx.listener.NoListener? {
    } else {
    }
  }

  // From every reachable state of an open session the isolate alone can return all posted credit,
  // after which a reader blocked on capacity goes on.
  lemma {:induction false} Drains(c: Config, s: State) returns (acts: seq<Action>)
    requires ValidConfig(c) && c.requireAcks
    requires Inv(c, s) && !s.rx.closed
    ensures forall a: Action :: a in acts ==> a.SendAck? || a.Deliver? || a.ListenerChange?
    ensures Run(c, s, acts).inflight <= s.r.reserved
    ensures NeverSaturates(c) && !s.h.foreign ==> Run(c, s, acts).inflight == s.r.reserved
    ensures Run(c, s, acts).r == s.r && Run(c, s, acts).stop == s.stop
    decreases Work(s)
  {
    if Willing(s).None? {
      PayloadPrefix(s);
      assert Port(s) == [];
      acts := [];
    } else {
      var a := Willing(s).value;
      WillingWorks(c, s);
      NextKeeps(c, s, a);
      var more := Drains(c, Next(c, s, a));
      RunCons(c, s, a, more);
      acts := [a] + more;
    }
  }

  lemma BlockedReaderCanProceed(c: Config, acts: seq<Action>)
    requires ValidConfig(c) && c.requireAcks
    ensures var s := Reach(c, acts);
      s.r.pc.Capacity? && !s.stop && !s.rx.closed ==>
        exists more: seq<Action> :: (forall a: Action :: a in more ==> a.SendAck? || a.Deliver? || a.ListenerChange?)
                       && TestCapacity(c, Run(c, s, more)).r.pc.Reserve?
  {
    Reachable(c, acts);
    var s := Reach(c, acts);
    if s.r.pc.Capacity? && !s.stop && !s.rx.closed {
      var more := Drains(c, s);
    }
  }

  // ---------------------------------------------------------------- the byte stream

  // What was posted is what was read, in order, cut short only by shutdown or a refused post.
  lemma OutputIsFaithful(c: Config, acts: seq<Action>)
    requires ValidConfig(c)
    ensures var s := Reach(c, acts);
      && Payload(s.msgs) <= s.h.read
      && (s.r.pc.Done? && !s.h.postFailed && !(c.requireAcks && s.stop) ==> Payload(s.msgs) == s.h.read)
      && forall i :: 0 <= i < |s.msgs| && s.msgs[i].Output? ==> 1 <= |s.msgs[i].payload| <= c.batchMax
  {
    Reachable(c, acts);
  }

  // The application sees a prefix of the terminal's bytes, and all of them once the stream closed
  // in an open session that never cancelled.
  lemma DeliveryIsFaithful(c: Config, acts: seq<Action>)
    requires ValidConfig(c)
    ensures var s := Reach(c, acts);
      && Concat(s.rx.added) <= s.h.read
      && (s.rx.outputDone && !s.rx.closed ==>
            && s.r.pc.Done?
            && s.taken == |s.msgs|
            && (!s.rx.outputCancelled && !s.h.postFailed && !(c.requireAcks && s.stop) ==>
                  Concat(s.rx.added) == s.h.read))
  {
    Reachable(c, acts);
    var s := Reach(c, acts);
    PayloadPrefix(s);
    if s.rx.outputDone && !s.rx.closed {
      assert s.msgs[..s.taken] == s.msgs;
    }
  }

  // CLOSED is attempted exactly once on every way out, nothing is posted after it, and at most one
  // output error is reported.
  lemma ClosedIsPostedOnce(c: Config, acts: seq<Action>, more: seq<Action>)
    requires ValidConfig(c)
    ensures var s := Reach(c, acts);
      && s.h.errors <= 1
      && (s.h.closedPosts == if s.r.pc.Done? then 1 else 0)
      && (forall i :: 0 <= i < |s.msgs| && s.msgs[i].Closed? ==> i == |s.msgs| - 1)
      && (s.r.pc.Done? ==> Run(c, s, more).r == s.r && Run(c, s, more).msgs == s.msgs)
  {
    Reachable(c, acts);
    var s := Reach(c, acts);
    if s.r.pc.Done? {
      DoneIsFinal(c, s, more);
    }
  }

  lemma {:induction false} DoneIsFinal(c: Config, s: State, acts: seq<Action>)
    requires s.r.pc.Done?
    ensures Run(c, s, acts).r == s.r && Run(c, s, acts).msgs == s.msgs
  {
    if acts != [] {
      DoneIsFinal(c, s, acts[..|acts| - 1]);
    }
  }

  // Even when shutdown suppresses flushing, one read is the most a batch takes past its limit.
  lemma BatchIsBounded(c: Config, acts: seq<Action>)
    requires ValidConfig(c)
    ensures var s := Reach(c, acts);
      && |s.r.batch| <= c.batchMax - 1 + c.readBufferSize
      && (|s.r.batch| > c.batchMax ==> c.requireAcks && s.stop)
      && (s.r.pc.Appended? && !(c.requireAcks && s.stop) ==> |s.r.batch| < c.batchMax)
  {
    Reachable(c, acts);
  }

  // ---------------------------------------------------------------- external budget

  lemma ExternalBudgetIsConserved(c: Config, acts: seq<Action>)
    requires ValidConfig(c)
    ensures var s := Reach(c, acts);
      && s.external == Sum(s.peers) + |s.r.hand|
      && s.external <= c.maxExternal
      && (forall i :: 0 <= i < |s.peers| ==> s.peers[i] <= s.external)
      && (s.r.pc.Discard? ==> |s.r.hand| <= s.external)
  {
    Reachable(c, acts);
    var s := Reach(c, acts);
    forall i | 0 <= i < |s.peers|
      ensures s.peers[i] <= s.external
    {
      SumRemove(s.peers, i);
    }
  }

  // ---------------------------------------------------------------- batch delay

  const IDLE_POLL_INTERVAL: nat := 50_000

  // `poll_timeout` in microseconds.
  function PollWait(c: Config, s: State): nat {
    match s.r.pendingSince
    case None => IDLE_POLL_INTERVAL
    case Some(since) => SaturatingSub(c.batchDelay, SaturatingSub(s.now, since))
  }

  const POLL_MAX_MS: nat := 0x7FFF_FFFF

  // `duration_to_poll_timeout_ms`
  function PollMillis(micros: nat): nat {
    if micros == 0 then 0 else Min(Max(micros / 1000, 1), POLL_MAX_MS)
  }

  // The timeout a reader with bytes in its batch passes to poll ends by their deadline and less than a
  // millisecond before it, or after a millisecond if less is left, and not later than now if none is; a
  // timeout makes it try to flush them. The idle interval is for an empty batch only.
  lemma PollMeetsDeadline(c: Config, acts: seq<Action>)
    requires ValidConfig(c)
    ensures var s := Reach(c, acts);
      s.r.pc.Poll? ==>
        && (s.r.batch == [] <==> s.r.pendingSince.None?)
        && (s.r.batch == [] ==> PollMillis(PollWait(c, s)) == 50)
        && (s.r.batch != [] ==>
              && s.now + 1000 * PollMillis(PollWait(c, s)) <= Max(s.now + 1000, s.r.pendingSince.value + c.batchDelay)
              && (PollMillis(PollWait(c, s)) == 0 <==> s.now >= s.r.pendingSince.value + c.batchDelay)
              && (PollMillis(PollWait(c, s)) < POLL_MAX_MS ==>
                    s.now + 1000 * PollMillis(PollWait(c, s)) > s.r.pendingSince.value + c.batchDelay - 1000)
              && EnterFlush(Next(c, s, PollTimeout)) == Goto(Next(c, s, PollTimeout), Capacity))
  {
    Reachable(c, acts);
  }

  // ---------------------------------------------------------------- shutdown

  lemma OneOutputAfterStop(c: Config, acts: seq<Action>)
    requires ValidConfig(c) && c.requireAcks
    ensures Reach(c, acts).h.postsAfterStop <= 1
  {
    Reachable(c, acts);
  }

  predicate PastTest(r: Reader) {
    r.pc.Reserve? || r.pc.External? || r.pc.Post?
  }

  lemma OnlyPostsPost(c: Config, s: State, a: Action)
    requires !a.PostOutput? && !a.PostClosed?
    ensures Next(c, s, a).msgs == s.msgs
  {
    if a.Advance? {
      match s.r.pc
      case Flush =>
      case Capacity =>
      case Rollback =>
      case _ =>
    }
  }

  lemma TestStaysShut(c: Config, s: State)
    requires c.requireAcks && s.stop && !PastTest(s.r)
    ensures !PastTest(Advanced(c, s).r)
  {
    match s.r.pc
    case Flush =>
    case Capacity =>
    case Rollback =>
    case _ =>
  }

  lemma ClosingAddsNothing(s: State, ok: bool)
    ensures var t := PortsClosed(s, ok);
      Payload(t.msgs) == Payload(s.msgs) && t.r == s.r.(pc := Done) && t.stop == s.stop
  {
    PayloadSnoc(s.msgs, Closed);
  }

  lemma SuppressedStep(c: Config, s: State, a: Action)
    requires c.requireAcks && s.stop && !PastTest(s.r)
    ensures var t := Next(c, s, a); t.stop && !PastTest(t.r) && Payload(t.msgs) == Payload(s.msgs)
  {
    if a.PostClosed? {
      ClosingAddsNothing(s, a.ok);
    } else if a.Advance? {
      StopStays(c, s, a);
      OnlyPostsPost(c, s, a);
      TestStaysShut(c, s);
    } else if !a.PostOutput? {
      OnlyPostsPost(c, s, a);
      NoTestElsewhere(c, s, a);
    }
  }

  lemma NoTestElsewhere(c: Config, s: State, a: Action)
    requires !a.Advance? && !a.PostOutput? && !a.PostClosed? && !PastTest(s.r)
    ensures !PastTest(Next(c, s, a).r) && (s.stop ==> Next(c, s, a).stop)
  {
  }

  lemma {:induction false} NoOutputAfterStop(c: Config, s: State, acts: seq<Action>)
    requires c.requireAcks && s.stop && !PastTest(s.r)
    ensures var t := Run(c, s, acts); t.stop && !PastTest(t.r) && Payload(t.msgs) == Payload(s.msgs)
  {
    if acts != [] {
      var last := |acts| - 1;
      NoOutputAfterStop(c, s, acts[..last]);
      SuppressedStep(c, Run(c, s, acts[..last]), acts[last]);
    }
  }

  lemma PostedPayload(s: State)
    ensures |Payload(Posted(s).msgs)| == |Payload(s.msgs)| + |s.r.hand| + |s.r.batch|
    ensures var r := Posted(s).r; r.hand == [] && r.batch == [] && r.rest == s.r.rest && !r.pc.Read?
  {
    var m := Output(s.r.hand + s.r.batch);
    PayloadSnoc(s.msgs, m);
    assert |Payload(s.msgs + [m])| == |Payload(s.msgs)| + |s.r.hand| + |s.r.batch|;
    assert Accepted(s).msgs == s.msgs + [m];
    match s.r.ret
    case ToAppend =>
    case ToTop =>
    case ToClose =>
    case ToCloseWithError =>
  }

  lemma OnToThePost(c: Config, s: State)
    requires s.r.pc.Reserve? || s.r.pc.External?
    ensures var t := Advanced(c, s);
      && (s.r.pc.Reserve? ==> t.r.pc.External? && t.r.batch == s.r.batch)
      && (s.r.pc.External? ==> t.r.pc.Post? && |t.r.hand| + |t.r.batch| >= |s.r.batch|)
      && t.msgs == s.msgs
  {
  }

  lemma FromPost(c: Config, s: State)
    requires s.r.pc.Post? && |s.r.hand| + |s.r.batch| > 0
    ensures |Payload(Run(c, s, [PostOutput(true)]).msgs)| > |Payload(s.msgs)|
  {
    PostedPayload(s);
    RunCons(c, s, PostOutput(true), []);
    assert [PostOutput(true)] + [] == [PostOutput(true)];
  }

  lemma FromExternal(c: Config, s: State)
    requires s.r.pc.External? && s.r.batch != []
    ensures |Payload(Run(c, s, [Advance, PostOutput(true)]).msgs)| > |Payload(s.msgs)|
  {
    OnToThePost(c, s);
    FromPost(c, Advanced(c, s));
    RunCons(c, s, Advance, [PostOutput(true)]);
    assert [Advance] + [PostOutput(true)] == [Advance, PostOutput(true)];
  }

  lemma FromReserve(c: Config, s: State)
    requires s.r.pc.Reserve? && s.r.batch != []
    ensures |Payload(Run(c, s, [Advance, Advance, PostOutput(true)]).msgs)| > |Payload(s.msgs)|
  {
    OnToThePost(c, s);
    FromExternal(c, Advanced(c, s));
    RunCons(c, s, Advance, [Advance, PostOutput(true)]);
    assert [Advance] + [Advance, PostOutput(true)] == [Advance, Advance, PostOutput(true)];
  }

  // Up to the post from where the capacity test was passed.
  lemma OutputStillComes(c: Config, s: State) returns (more: seq<Action>)
    requires Shape(s) && PastTest(s.r)
    ensures Payload(Run(c, s, more).msgs) != Payload(s.msgs)
  {
    if s.r.pc.Post? {
      FromPost(c, s);
      more := [PostOutput(true)];
    } else if s.r.pc.External? {
      FromExternal(c, s);
      more := [Advance, PostOutput(true)];
    } else {
      FromReserve(c, s);
      more := [Advance, Advance, PostOutput(true)];
    }
  }

  // After stop, with acks required, an OUTPUT can still come exactly if the reader had passed the
  // capacity test.
  lemma OutputAfterStopIff(c: Config, acts: seq<Action>)
    requires ValidConfig(c) && c.requireAcks && Reach(c, acts).stop
    ensures var s := Reach(c, acts);
      (exists more :: Payload(Run(c, s, more).msgs) != Payload(s.msgs)) <==> PastTest(s.r)
  {
    Reachable(c, acts);
    var s := Reach(c, acts);
    if PastTest(s.r) {
      var more := OutputStillComes(c, s);
    } else {
      forall more
        ensures Payload(Run(c, s, more).msgs) == Payload(s.msgs)
      {
        NoOutputAfterStop(c, s, more);
      }
    }
  }

  // The bytes a stopped reader may still post: those it has, and those of a read under way.
  function Left(c: Config, r: Reader): nat {
    |r.hand| + |r.batch| + |r.rest| + if r.pc.Read? then c.readBufferSize else 0
  }

  lemma AdvanceLeaves(c: Config, s: State)
    requires ValidConfig(c) && s.stop
    ensures Left(c, Advanced(c, s).r) <= Left(c, s.r)
  {
    match s.r.pc
    case Append => if s.r.rest != [] { AppendTurnBuffers(c, s.r, s.now); }
    case Flush =>
    case Capacity =>
    case Rollback =>
    case _ =>
  }

  lemma MoveLeaves(c: Config, s: State, a: Action)
    requires ValidConfig(c) && Shape(s) && s.stop && !a.Advance? && !a.PostOutput? && !a.PostClosed?
    ensures Left(c, Next(c, s, a).r) <= Left(c, s.r)
  {
    if !IsReaderAction(a) {
      StopStays(c, s, a);
    }
  }

  // What is posted and what is left to post do not grow together.
  predicate NoMore(c: Config, s: State, t: State) {
    |Payload(t.msgs)| + Left(c, t.r) <= |Payload(s.msgs)| + Left(c, s.r)
  }

  lemma PostLeaves(c: Config, s: State)
    ensures NoMore(c, s, Posted(s)) && NoMore(c, s, PostRefused(s))
  {
    PostedPayload(s);
    assert PostRefused(s).msgs == s.msgs;
  }

  lemma CloseLeaves(c: Config, s: State, ok: bool)
    ensures NoMore(c, s, PortsClosed(s, ok))
  {
    ClosingAddsNothing(s, ok);
  }

  lemma StepLeaves(c: Config, s: State, a: Action)
    requires ValidConfig(c) && Shape(s) && s.stop
    ensures NoMore(c, s, Next(c, s, a))
  {
    if a.PostOutput? {
      PostLeaves(c, s);
    } else if a.PostClosed? {
      CloseLeaves(c, s, a.ok);
    } else {
      OnlyPostsPost(c, s, a);
      if a.Advance? {
        AdvanceLeaves(c, s);
      } else {
        MoveLeaves(c, s, a);
      }
    }
  }

  lemma {:induction false} RunLeaves(c: Config, s: State, acts: seq<Action>)
    requires ValidConfig(c) && Inv(c, s) && s.stop
    ensures var t := Run(c, s, acts); t.stop && |Payload(t.msgs)| + Left(c, t.r) <= |Payload(s.msgs)| + Left(c, s.r)
  {
    if acts != [] {
      var last := |acts| - 1;
      RunLeaves(c, s, acts[..last]);
      RunKeeps(c, s, acts[..last]);
      StepLeaves(c, Run(c, s, acts[..last]), acts[last]);
      StopStays(c, Run(c, s, acts[..last]), acts[last]);
    }
  }

  // After stop, with or without acks, the payloads still posted hold no more than a batch less one
  // byte and one read.
  lemma FewBytesAfterStop(c: Config, acts: seq<Action>, more: seq<Action>)
    requires ValidConfig(c) && Reach(c, acts).stop
    ensures var s := Reach(c, acts);
            var t := Run(c, s, more);
      |Payload(t.msgs)| - |Payload(s.msgs)| <= Left(c, s.r) <= c.batchMax - 1 + c.readBufferSize
  {
    Reachable(c, acts);
    RunLeaves(c, Reach(c, acts), more);
  }

  function ReturnRank(ret: Return, rest: nat): nat {
    match ret
    case ToAppend => 20 + 10 * rest
    case ToTop => 10
    case ToClose => 1
    case ToCloseWithError => 1
  }

  // An upper bound on the steps the reader still takes once the stop flag is up.
  function Remaining(c: Config, r: Reader): nat {
    match r.pc
    case Start => 11
    case Top => 10
    case Read => 30 + 10 * c.readBufferSize
    case Append => 20 + 10 * |r.rest|
    case Appended => 19
    case Poll => 19
    case Flush => ReturnRank(r.ret, |r.rest|) + 8
    case Capacity => ReturnRank(r.ret, |r.rest|) + 7
    case Reserve => ReturnRank(r.ret, |r.rest|) + 6
    case External => ReturnRank(r.ret, |r.rest|) + 5
    case Post => ReturnRank(r.ret, |r.rest|) + 4
    case Discard => ReturnRank(r.ret, |r.rest|) + 3
    case Rollback => ReturnRank(r.ret, |r.rest|) + 2
    case Close => 1
    case Done => 0
  }

  lemma FlushWindsDown(c: Config, s: State)
    requires s.stop && (s.r.pc.Flush? || s.r.pc.Capacity? || s.r.pc.Post?)
    ensures Remaining(c, FlushOk(s).r) < Remaining(c, s.r)
  {
    match s.r.ret
    case ToAppend =>
    case ToTop =>
    case ToClose =>
    case ToCloseWithError =>
  }

  lemma AdvanceWindsDown(c: Config, s: State)
    requires ValidConfig(c) && s.stop && Advanced(c, s) != s
    ensures Remaining(c, Advanced(c, s).r) < Remaining(c, s.r)
  {
    match s.r.pc {
      case Flush => FlushWindsDown(c, s.(r := s.r.(pendingSince := None)));
      case Capacity => FlushWindsDown(c, s);
      case _ =>
    }
  }

  lemma ReaderWindsDown(c: Config, s: State, a: Action)
    requires ValidConfig(c) && s.stop && IsReaderAction(a) && Next(c, s, a) != s
    ensures Remaining(c, Next(c, s, a).r) < Remaining(c, s.r)
  {
    match a {
      case Advance => AdvanceWindsDown(c, s);
      case PostOutput(ok) =>
        if ok {
          var t := Accepted(s);
          FlushWindsDown(c, t);
          assert Remaining(c, t.r) == Remaining(c, s.r);
        }
      case _ =>
    }
  }

  // The step a stopped reader takes if its system calls return: it is never blocked on credit.
  function Unblocked(s: State): Action {
    match s.r.pc
    case Start => Begin(true)
    case Read => ReadEof
    case Poll => PollReady
    case Post => PostOutput(false)
    case Close => PostClosed(false)
    case _ => Advance
  }

  lemma StoppedReaderMoves(c: Config, s: State)
    requires ValidConfig(c) && Shape(s) && Sizes(c, s) && s.stop && !s.r.pc.Done?
    ensures Next(c, s, Unblocked(s)) != s
  {
    if s.r.pc.Append? && s.r.rest != [] {
      AppendTurnBuffers(c, s.r, s.now);
    }
  }

  // The number of steps in which the reader did something.
  function ReaderSteps(c: Config, s: State, acts: seq<Action>): nat {
    if acts == [] then 0
    else
      var last := |acts| - 1;
      var t := Run(c, s, acts[..last]);
      ReaderSteps(c, s, acts[..last]) + if IsReaderAction(acts[last]) && Next(c, t, acts[last]) != t then 1 else 0
  }

  lemma {:induction false} StepsAreBounded(c: Config, s: State, acts: seq<Action>)
    requires ValidConfig(c) && s.stop
    ensures Run(c, s, acts).stop
    ensures ReaderSteps(c, s, acts) + Remaining(c, Run(c, s, acts).r) <= Remaining(c, s.r)
  {
    if acts != [] {
      var last := |acts| - 1;
      var t := Run(c, s, acts[..last]);
      StepsAreBounded(c, s, acts[..last]);
      StopStays(c, t, acts[last]);
      if IsReaderAction(acts[last]) && Next(c, t, acts[last]) != t {
        ReaderWindsDown(c, t, acts[last]);
      }
    }
  }

  lemma StopStays(c: Config, s: State, a: Action)
    requires s.stop
    ensures Next(c, s, a).stop
    ensures !IsReaderAction(a) ==> Next(c, s, a).r == s.r
  {
  }

  lemma DoneIsTheEnd(c: Config, r: Reader)
    ensures r.pc.Done? <==> Remaining(c, r) == 0
  {
  }

  // After stop the reader takes a bounded number of steps whatever the others do, and it always has
  // one to take until it is done: joining it cannot hang on credit or the isolate.
  lemma StoppedReaderFinishes(c: Config, acts: seq<Action>, more: seq<Action>)
    requires ValidConfig(c) && Reach(c, acts).stop
    ensures var s := Reach(c, acts);
            var t := Run(c, s, more);
      && ReaderSteps(c, s, more) + Remaining(c, t.r) <= Remaining(c, s.r)
      && (t.r.pc.Done? <==> Remaining(c, t.r) == 0)
      && (!t.r.pc.Done? ==> Next(c, t, Unblocked(t)) != t)
  {
    var s := Reach(c, acts);
    Reachable(c, acts);
    RunKeeps(c, s, more);
    StepsAreBounded(c, s, more);
    DoneIsTheEnd(c, Run(c, s, more).r);
    if !Run(c, s, more).r.pc.Done? {
      StoppedReaderMoves(c, Run(c, s, more));
    }
  }
}
