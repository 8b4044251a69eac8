// Runs that go to the limits. `max_inflight` is not clamped, so the counter's saturating addition can
// lose credit: some run does if and only if the limit leaves less room below u64::MAX than one batch
// needs. The same run attains the bound on in-flight bytes, and another the bound on the batch.
module OutputLimits {
  import opened Base
  import opened Isolate
  import opened OutputFlow
  import opened OutputInvariant
  import opened OutputTheorems

  // The reservation about to be made is exact, and so is the release, unless someone else has
  // acknowledged bytes it never received.
  predicate Exact(c: Config, s: State) {
    && (s.r.pc.Reserve? ==> s.inflight + |s.r.batch| <= U64_MAX)
    && (s.r.pc.Rollback? && !s.h.foreign ==> s.r.reserved <= s.inflight)
    && (s.owed != [] && !s.h.foreign ==> s.owed[0] <= s.inflight)
  }

  // The reader is about to read, with nothing left over but `batch`.
  predicate Between(s: State) {
    && s.r.pc.Read?
    && s.r.rest == [] && s.r.hand == [] && s.r.reserved == 0
    && (s.r.batch == [] || s.r.pendingSince == Some(s.now))
    && !s.stop
  }

  lemma Extend(c: Config, acts: seq<Action>, a: Action)
    ensures Reach(c, acts + [a]) == Next(c, Reach(c, acts), a)
  {
    assert (acts + [a])[..|acts|] == acts;
  }

  // One byte read and taken into a batch that it does not fill.
  lemma TakeByte(c: Config, acts: seq<Action>) returns (more: seq<Action>)
    requires ValidConfig(c) && Between(Reach(c, acts)) && |Reach(c, acts).r.batch| < c.batchMax - 1
    ensures var s := Reach(c, acts);
            var t := Reach(c, more);
      && t.r.pc.Appended? && t.r.rest == [] && t.r.hand == [] && t.r.reserved == 0
      && |t.r.batch| == |s.r.batch| + 1
      && t.r.pendingSince == Some(t.now)
      && !t.stop && t.inflight == s.inflight
  {
    var s := Reach(c, acts);
    Extend(c, acts, ReadData([0]));
    var a1 := acts + [ReadData([0])];
    var s1 := Reach(c, a1);
    assert s1.r == s.r.(pc := Append, rest := [0]);
    Extend(c, a1, Advance);
    var a2 := a1 + [Advance];
    var s2 := Reach(c, a2);
    assert s2 == s1.(r := AppendTurn(c, s1.r, s1.now));
    assert s2.r.batch == s.r.batch + [0] && s2.r.rest == [] && s2.r.pc.Append?;
    Extend(c, a2, Advance);
    more := a2 + [Advance];
  }

  // Another byte in the batch, and back to reading.
  lemma FillByte(c: Config, acts: seq<Action>) returns (more: seq<Action>)
    requires ValidConfig(c) && 1 <= c.batchDelay
    requires Between(Reach(c, acts)) && |Reach(c, acts).r.batch| < c.batchMax - 1
    ensures Between(Reach(c, more))
    ensures |Reach(c, more).r.batch| == |Reach(c, acts).r.batch| + 1
    ensures Reach(c, more).inflight == Reach(c, acts).inflight
  {
    more := TakeByte(c, acts);
    Extend(c, more, Advance);
    more := more + [Advance];
    if !c.fdReads {
      Extend(c, more, Advance);
      more := more + [Advance];
    }
  }

  lemma {:induction false} Fill(c: Config, acts: seq<Action>) returns (more: seq<Action>)
    requires ValidConfig(c) && 1 <= c.batchDelay
    requires Between(Reach(c, acts)) && |Reach(c, acts).r.batch| <= c.batchMax - 1
    ensures Between(Reach(c, more)) && |Reach(c, more).r.batch| == c.batchMax - 1
    ensures Reach(c, more).inflight == Reach(c, acts).inflight
    decreases c.batchMax - |Reach(c, acts).r.batch|
  {
    more := acts;
    if |Reach(c, acts).r.batch| < c.batchMax - 1 {
      var next := FillByte(c, acts);
      more := Fill(c, next);
    }
  }

  // From the entry of a timed flush to the next read, the batch becomes unacknowledged credit.
  lemma FlushBatch(c: Config, acts: seq<Action>) returns (more: seq<Action>)
    requires ValidConfig(c) && c.requireAcks
    requires var s := Reach(c, acts);
      && s.r.pc.Flush? && s.r.ret.ToTop? && !s.stop
      && s.r.rest == [] && s.r.hand == [] && s.r.batch != []
      && s.inflight < c.maxInflight && s.inflight + |s.r.batch| <= U64_MAX
    ensures Between(Reach(c, more)) && Reach(c, more).r.batch == []
    ensures Reach(c, more).inflight == Reach(c, acts).inflight + |Reach(c, acts).r.batch|
  {
    var s := Reach(c, acts);
    Extend(c, acts, Advance);
    var a1 := acts + [Advance];
    assert Reach(c, a1) == Goto(s, Capacity);
    Extend(c, a1, Advance);
    var a2 := a1 + [Advance];
    assert Reach(c, a2) == Goto(s, Reserve);
    Extend(c, a2, Advance);
    var a3 := a2 + [Advance];
    var s3 := Reach(c, a3);
    assert s3 == ReserveCredit(c, Goto(s, Reserve));
    Extend(c, a3, Advance);
    var a4 := a3 + [Advance];
    var s4 := Reach(c, a4);
    assert s4 == ReserveBudget(c, s3);
    assert s4.r.pc.Post? && s4.r.ret.ToTop? && s4.r.rest == [] && !s4.stop;
    Extend(c, a4, PostOutput(true));
    var a5 := a4 + [PostOutput(true)];
    assert Reach(c, a5) == Posted(s4);
    Extend(c, a5, Advance);
    more := a5 + [Advance];
  }

  // One byte read and posted alone.
  lemma PumpByte(c: Config, acts: seq<Action>) returns (more: seq<Action>)
    requires ValidConfig(c) && c.requireAcks
    requires Between(Reach(c, acts)) && Reach(c, acts).r.batch == []
    requires Reach(c, acts).inflight < c.maxInflight - 1
    ensures Between(Reach(c, more)) && Reach(c, more).r.batch == []
    ensures Reach(c, more).inflight == Reach(c, acts).inflight + 1
  {
    var a1 := TakeByte(c, acts);
    var s1 := Reach(c, a1);
    var a2;
    if c.fdReads {
      Extend(c, a1, Advance);
      a2 := a1 + [Advance];
      assert Reach(c, a2) == Goto(s1, Read);
      Extend(c, a2, ReadWouldBlock);
      a2 := a2 + [ReadWouldBlock];
      assert Reach(c, a2) == Goto(s1, Poll);
      Extend(c, a2, PollTimeout);
      a2 := a2 + [PollTimeout];
    } else {
      Extend(c, a1, Tick(c.batchDelay));
      a2 := a1 + [Tick(c.batchDelay)];
      assert Reach(c, a2) == s1.(now := s1.now + c.batchDelay);
      Extend(c, a2, Advance);
      a2 := a2 + [Advance];
    }
    more := FlushBatch(c, a2);
  }

  lemma {:induction false} Pump(c: Config, acts: seq<Action>) returns (more: seq<Action>)
    requires ValidConfig(c) && c.requireAcks
    requires Between(Reach(c, acts)) && Reach(c, acts).r.batch == []
    requires Reach(c, acts).inflight <= c.maxInflight - 1
    ensures Between(Reach(c, more)) && Reach(c, more).r.batch == []
    ensures Reach(c, more).inflight == c.maxInflight - 1
    decreases c.maxInflight - Reach(c, acts).inflight
  {
    more := acts;
    if Reach(c, acts).inflight < c.maxInflight - 1 {
      var next := PumpByte(c, acts);
      more := Pump(c, next);
    }
  }

  // A run that stands before the largest reservation there is: a full batch on top of one byte less
  // than the limit.
  lemma LargestReservation(c: Config) returns (acts: seq<Action>)
    requires ValidConfig(c) && c.requireAcks && 1 <= c.batchDelay
    ensures var s := Reach(c, acts);
      s.r.pc.Reserve? && s.inflight == c.maxInflight - 1 && |s.r.batch| == c.batchMax
  {
    Extend(c, [], Begin(true));
    var a1 := [] + [Begin(true)];
    assert Reach(c, []) == INITIAL_STATE;
    Extend(c, a1, Advance);
    var a2 := Pump(c, a1 + [Advance]);
    var a3 := Fill(c, a2);
    var s3 := Reach(c, a3);
    Extend(c, a3, ReadData([0]));
    var a4 := a3 + [ReadData([0])];
    var s4 := Reach(c, a4);
    assert s4.r == s3.r.(pc := Append, rest := [0]);
    Extend(c, a4, Advance);
    var a5 := a4 + [Advance];
    var s5 := Reach(c, a5);
    assert s5 == s4.(r := AppendTurn(c, s4.r, s4.now));
    assert s5.r.pc.Flush? && |s5.r.batch| == c.batchMax;
    Extend(c, a5, Advance);
    var a6 := a5 + [Advance];
    assert Reach(c, a6) == Goto(s5, Capacity);
    Extend(c, a6, Advance);
    acts := a6 + [Advance];
  }

  lemma CounterIsExactIff(c: Config)
    requires ValidConfig(c) && c.requireAcks && 1 <= c.batchDelay
    ensures (forall acts :: Exact(c, Reach(c, acts))) <==> NeverSaturates(c)
  {
    if NeverSaturates(c) {
      forall acts
        ensures Exact(c, Reach(c, acts))
      {
        Reachable(c, acts);
        PayloadPrefix(Reach(c, acts));
      }
    } else {
      var acts := LargestReservation(c);
      assert !Exact(c, Reach(c, acts));
    }
  }

  // `InflightIsBounded` cannot be improved: the limit itself is passed by a batch less one byte, or up
  // to the end of the counter.
  lemma InflightBoundIsAttained(c: Config)
    requires ValidConfig(c) && c.requireAcks && 1 <= c.batchDelay
    ensures exists acts :: Reach(c, acts).inflight == Min(c.maxInflight - 1 + c.batchMax, U64_MAX)
  {
    var acts := LargestReservation(c);
    Extend(c, acts, Advance);
    assert Reach(c, acts + [Advance]).inflight == Min(c.maxInflight - 1 + c.batchMax, U64_MAX);
  }

  // So in-flight output keeps to `max_inflight` over every run exactly when nothing is counted or the
  // counter cannot go further.
  lemma InflightKeepsLimitIff(c: Config)
    requires ValidConfig(c) && 1 <= c.batchDelay
    ensures (forall acts :: Reach(c, acts).inflight <= c.maxInflight) <==> (!c.requireAcks || c.maxInflight == U64_MAX)
  {
    if c.requireAcks && c.maxInflight < U64_MAX {
      InflightBoundIsAttained(c);
    } else {
      forall acts
        ensures Reach(c, acts).inflight <= c.maxInflight
      {
        Reachable(c, acts);
      }
    }
  }

  // ---------------------------------------------------------------- the batch after stop

  // One turn of `append` after stop: a byte goes into a batch that is full with it, and the flush it
  // calls for is suppressed.
  lemma SuppressedTurn(c: Config, acts: seq<Action>) returns (more: seq<Action>)
    requires ValidConfig(c) && c.requireAcks
    requires var s := Reach(c, acts);
      s.stop && s.r.pc.Append? && s.r.rest != [] && |s.r.batch| >= c.batchMax - 1
    ensures var s := Reach(c, acts);
            var t := Reach(c, more);
      t.stop && t.r.pc.Append? && |t.r.batch| == |s.r.batch| + 1 && |t.r.rest| == |s.r.rest| - 1
  {
    var s := Reach(c, acts);
    Extend(c, acts, Advance);
    var a1 := acts + [Advance];
    var s1 := Reach(c, a1);
    assert s1 == s.(r := AppendTurn(c, s.r, s.now));
    assert s1.r.pc.Flush? && s1.r.ret.ToAppend? && |s1.r.batch| == |s.r.batch| + 1;
    Extend(c, a1, Advance);
    var a2 := a1 + [Advance];
    assert Reach(c, a2) == Goto(s1, Capacity);
    Extend(c, a2, Advance);
    more := a2 + [Advance];
    assert Reach(c, more) == Goto(s1, Append);
  }

  lemma {:induction false} Overfill(c: Config, acts: seq<Action>) returns (more: seq<Action>)
    requires ValidConfig(c) && c.requireAcks
    requires var s := Reach(c, acts); s.stop && s.r.pc.Append? && |s.r.batch| >= c.batchMax - 1
    ensures |Reach(c, more).r.batch| == |Reach(c, acts).r.batch| + |Reach(c, acts).r.rest|
    decreases |Reach(c, acts).r.rest|
  {
    more := acts;
    if Reach(c, acts).r.rest != [] {
      var next := SuppressedTurn(c, acts);
      more := Overfill(c, next);
    }
  }

  // `BatchIsBounded` cannot be improved: a read that was under way when stop was raised goes whole
  // on top of a batch that lacked one byte.
  lemma BatchBoundIsAttained(c: Config)
    requires ValidConfig(c) && c.requireAcks && 1 <= c.batchDelay
    ensures exists acts :: |Reach(c, acts).r.batch| == c.batchMax - 1 + c.readBufferSize
  {
    Extend(c, [], Begin(true));
    var a1 := [] + [Begin(true)];
    assert Reach(c, []) == INITIAL_STATE;
    Extend(c, a1, Advance);
    var a2 := Fill(c, a1 + [Advance]);
    Extend(c, a2, SetStop);
    var a3 := a2 + [SetStop];
    assert Reach(c, a3) == Reach(c, a2).(stop := true);
    var data := seq(c.readBufferSize, _ => 0 as byte);
    Extend(c, a3, ReadData(data));
    var acts := Overfill(c, a3 + [ReadData(data)]);
  }

  // So the batch keeps to its limit over every run exactly when acks are not required: only then is
  // no flush ever suppressed. (A read of a single byte cannot pass the limit.)
  lemma BatchKeepsLimitIff(c: Config)
    requires ValidConfig(c) && 1 <= c.batchDelay && 2 <= c.readBufferSize
    ensures (forall acts :: |Reach(c, acts).r.batch| <= c.batchMax) <==> !c.requireAcks
  {
    if c.requireAcks {
      BatchBoundIsAttained(c);
    } else {
      forall acts
        ensures |Reach(c, acts).r.batch| <= c.batchMax
      {
        BatchIsBounded(c, acts);
      }
    }
  }
}
