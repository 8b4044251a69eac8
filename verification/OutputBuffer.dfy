// The reader's output buffer (native/src/output.rs) as the object it is: `append` and `flush` run to
// completion here, and what other threads do to the shared counters while no lock is held is an
// argument. `OutputFlow` has the same steps interleaved freely; both use the same definitions.
module OutputBuffer {
  import opened Base
  import opened OutputFlow
  import opened OutputInvariant

  // Between two looks at the counter: acks that arrived, and whether the stop flag is up.
  datatype Look = Look(acked: nat, stop: bool)

  // What surrounds one `flush`: the looks while it waits for capacity, the acks between the test and
  // the reservation (the lock is dropped there), whether the port takes the message, and the acks
  // that arrive before a refused post is rolled back.
  datatype Surroundings = Surroundings(looks: seq<Look>, between: nat, taken: bool, late: nat)

  datatype Waited = Room | Stopped | StillWaiting

  datatype Flushed = Empty | Suppressed | Sent | Refused | Blocked

  datatype Buffer = Buffer(
    inflight: nat,
    stop: bool,             // never lowered
    external: nat,
    batch: bytes,
    pendingSince: Option<nat>,
    posted: seq<bytes>,
    peers: seq<nat>)        // lengths of the external buffers handed to the port

  // ---------------------------------------------------------------- waiting

  // The counter after the acks of these looks.
  function Level(c: Config, inflight: nat, looks: seq<Look>): nat {
    if looks == [] then inflight
    else Released(c, Level(c, inflight, looks[..|looks| - 1]), looks[|looks| - 1].acked)
  }

  // The look numbered i, counting from 1, found neither room nor stop.
  predicate StillFull(c: Config, inflight: nat, looks: seq<Look>, i: int)
    requires 0 < i <= |looks|
  {
    !looks[i - 1].stop && Level(c, inflight, looks[..i]) >= c.maxInflight
  }

  // No look found room or stop.
  predicate NoRoom(c: Config, inflight: nat, looks: seq<Look>) {
    forall i :: 0 < i <= |looks| ==> StillFull(c, inflight, looks, i)
  }

  // The first look that found room or stop.
  predicate Decides(c: Config, inflight: nat, looks: seq<Look>, i: int) {
    0 < i <= |looks| && !StillFull(c, inflight, looks, i) && forall j :: 0 < j < i ==> StillFull(c, inflight, looks, j)
  }

  // How a wait with acks required and stop down ends, and the counter then.
  function WaitedBy(c: Config, inflight: nat, looks: seq<Look>): (Waited, nat) {
    if looks == [] then (StillWaiting, inflight)
    else
      var last := |looks| - 1;
      var (w, level) := WaitedBy(c, inflight, looks[..last]);
      if !w.StillWaiting? then (w, level)
      else
        var now := Released(c, level, looks[last].acked);
        (if looks[last].stop then Stopped else if now < c.maxInflight then Room else StillWaiting, now)
  }

  lemma PrefixAgrees(c: Config, inflight: nat, looks: seq<Look>, n: nat)
    requires n <= |looks|
    ensures forall i :: 0 < i <= n ==> (StillFull(c, inflight, looks[..n], i) <==> StillFull(c, inflight, looks, i))
    ensures looks[..|looks|] == looks
  {
    forall i | 0 < i <= n
      ensures StillFull(c, inflight, looks[..n], i) <==> StillFull(c, inflight, looks, i)
    {
      assert looks[..n][..i] == looks[..i];
    }
  }

  // The wait goes on exactly while no look finds room or stop; meanwhile the counter moves by the acks
  // alone.
  lemma {:induction false} WaitGoesOn(c: Config, inflight: nat, looks: seq<Look>)
    ensures var (w, level) := WaitedBy(c, inflight, looks);
      && level <= inflight
      && (w.Room? ==> level < c.maxInflight)
      && (w.StillWaiting? <==> NoRoom(c, inflight, looks))
      && (w.StillWaiting? ==> level == Level(c, inflight, looks))
  {
    if looks != [] {
      var last := |looks| - 1;
      var front := looks[..last];
      WaitGoesOn(c, inflight, front);
      PrefixAgrees(c, inflight, looks, last);
      assert NoRoom(c, inflight, looks) <==> NoRoom(c, inflight, front) && StillFull(c, inflight, looks, last + 1);
    }
  }

  lemma {:induction false} WaitIsOver(c: Config, inflight: nat, looks: seq<Look>, n: nat)
    requires n <= |looks| && !WaitedBy(c, inflight, looks[..n]).0.StillWaiting?
    ensures WaitedBy(c, inflight, looks) == WaitedBy(c, inflight, looks[..n])
  {
    if n == |looks| {
      assert looks[..n] == looks;
    } else {
      assert looks[..|looks| - 1][..n] == looks[..n];
      WaitIsOver(c, inflight, looks[..|looks| - 1], n);
    }
  }

  // The first look that finds room or stop decides how it ends.
  lemma DecidingLook(c: Config, inflight: nat, looks: seq<Look>, i: int)
    requires Decides(c, inflight, looks, i)
    ensures WaitedBy(c, inflight, looks) == (if looks[i - 1].stop then Stopped else Room, Level(c, inflight, looks[..i]))
  {
    var front := looks[..i - 1];
    assert looks[..i][..i - 1] == front;
    PrefixAgrees(c, inflight, looks, i - 1);
    assert NoRoom(c, inflight, front);
    WaitGoesOn(c, inflight, front);
    WaitIsOver(c, inflight, looks, i);
  }

  lemma {:induction false} SomeLookDecides(c: Config, inflight: nat, looks: seq<Look>) returns (i: int)
    requires !NoRoom(c, inflight, looks)
    ensures Decides(c, inflight, looks, i)
  {
    var last := |looks| - 1;
    PrefixAgrees(c, inflight, looks, last);
    if NoRoom(c, inflight, looks[..last]) {
      i := last + 1;
    } else {
      i := SomeLookDecides(c, inflight, looks[..last]);
    }
  }

  // ---------------------------------------------------------------- flush

  predicate GoesExternal(c: Config, outstanding: nat, len: nat) {
    c.useExternal && ExternalFits(c, outstanding, len)
  }

  // A flush that passed the capacity test.
  function PostedBy(c: Config, s: Buffer, env: Surroundings): (Buffer, Flushed) {
    var len := |s.batch|;
    var hand := GoesExternal(c, s.external, len);
    var reserved := Reserved(c, Released(c, s.inflight, env.between), len);
    if env.taken then
      (s.(inflight := reserved, batch := [], pendingSince := None, posted := s.posted + [s.batch],
          external := s.external + (if hand then len else 0), peers := s.peers + (if hand then [len] else [])),
       Sent)
    else
      (s.(inflight := Released(c, Released(c, reserved, env.late), len), batch := if hand then [] else s.batch), Refused)
  }

  function FlushedBy(c: Config, s: Buffer, env: Surroundings): (Buffer, Flushed) {
    if s.batch == [] then (s.(pendingSince := None), Empty)
    else if !c.requireAcks then PostedBy(c, s, env)
    else if s.stop then (s, Suppressed)
    else
      match WaitedBy(c, s.inflight, env.looks)
      case (Stopped, level) => (s.(inflight := level, stop := true), Suppressed)
      case (StillWaiting, level) => (s.(inflight := level), Blocked)
      case (Room, level) => PostedBy(c, s.(inflight := level), env)
  }

  // The counter when the wait of a flush ended.
  function LevelAt(c: Config, s: Buffer, env: Surroundings): nat {
    if c.requireAcks && !s.stop then WaitedBy(c, s.inflight, env.looks).1 else s.inflight
  }

  // When a flush has which outcome: it is blocked exactly while no look finds room or stop, and a look
  // that finds room before any stop sends the batch or has it refused, as the port decides.
  lemma FlushOutcome(c: Config, s: Buffer, env: Surroundings)
    ensures var f := FlushedBy(c, s, env).1;
      && (f.Empty? <==> s.batch == [])
      && (f.Blocked? <==> s.batch != [] && c.requireAcks && !s.stop && NoRoom(c, s.inflight, env.looks))
      && (f.Suppressed? <==> s.batch != [] && c.requireAcks
                             && (s.stop || exists i :: Decides(c, s.inflight, env.looks, i) && env.looks[i - 1].stop))
      && (f.Sent? || f.Refused? <==>
            s.batch != []
            && (!c.requireAcks
                || (!s.stop && exists i :: Decides(c, s.inflight, env.looks, i) && !env.looks[i - 1].stop)))
      && (f.Sent? ==> env.taken) && (f.Refused? ==> !env.taken)
  {
    WaitGoesOn(c, s.inflight, env.looks);
    if !NoRoom(c, s.inflight, env.looks) {
      var i := SomeLookDecides(c, s.inflight, env.looks);
    }
    forall i | Decides(c, s.inflight, env.looks, i)
      ensures WaitedBy(c, s.inflight, env.looks).0 == if env.looks[i - 1].stop then Stopped else Room
    {
      DecidingLook(c, s.inflight, env.looks, i);
    }
  }

  // What a flush does: it sends the whole batch or keeps it, never part of it; a refused post gives
  // back all it reserved, except that an external buffer takes the batch with it.
  lemma FlushTells(c: Config, s: Buffer, env: Surroundings)
    requires ValidConfig(c)
    ensures var (t, f) := FlushedBy(c, s, env);
            var level := LevelAt(c, s, env);
      && level <= s.inflight && (s.stop ==> t.stop)
      && (f.Sent? ==> t.posted == s.posted + [s.batch] && t.batch == [] && t.pendingSince == None)
      && (f.Sent? ==> t.inflight == Reserved(c, Released(c, level, env.between), |s.batch|))
      && (f.Sent? ==>
            var hand := c.useExternal && s.external + |s.batch| <= Min(c.maxExternal, c.usizeMax);
            && t.external == s.external + (if hand then |s.batch| else 0)
            && t.peers == s.peers + (if hand then [|s.batch|] else []))
      && (!f.Sent? ==> t.posted == s.posted && t.external == s.external && t.peers == s.peers)
      && (f.Empty? ==> t == s.(pendingSince := None))
      && (f.Suppressed? || f.Blocked? ==> t.batch == s.batch && t.pendingSince == s.pendingSince && t.inflight == level)
      && (f.Suppressed? ==> t.stop)
      && (f.Blocked? ==> !t.stop)
      && (f.Refused? ==> t.pendingSince == s.pendingSince)
      && (f.Refused? ==>
            t.batch == if c.useExternal && s.external + |s.batch| <= Min(c.maxExternal, c.usizeMax) then [] else s.batch)
      && (f.Refused? && env.late == 0 && level + |s.batch| <= U64_MAX ==> t.inflight == Released(c, level, env.between))
      && (c.requireAcks && (f.Sent? || f.Refused?) ==> level < c.maxInflight && !t.stop)
      && (s.external <= c.maxExternal ==> t.external <= c.maxExternal)
  {
    WaitGoesOn(c, s.inflight, env.looks);
    SumAppend(s.peers, [|s.batch|]);
    assert Sum([|s.batch|]) == |s.batch|;
    assert s.peers + [] == s.peers;
  }

  // The counter stays within one batch of the limit whatever the acks do in between.
  lemma FlushIsBounded(c: Config, s: Buffer, env: Surroundings)
    requires ValidConfig(c) && (|s.batch| <= c.batchMax || (c.requireAcks && s.stop))
    requires c.requireAcks ==> s.inflight <= c.maxInflight - 1 + c.batchMax
    ensures c.requireAcks ==> FlushedBy(c, s, env).0.inflight <= c.maxInflight - 1 + c.batchMax
    ensures s.inflight <= U64_MAX ==> FlushedBy(c, s, env).0.inflight <= U64_MAX
  {
    WaitGoesOn(c, s.inflight, env.looks);
  }

  // ---------------------------------------------------------------- append

  // One turn of the loop of `append`, up to the flush, is the turn of `OutputFlow`.
  function Turned(c: Config, s: Buffer, rest: bytes, now: nat): (Buffer, bytes) {
    var r := AppendTurn(c, Reader(Pc.Append, ToAppend, rest, s.batch, [], 0, s.pendingSince), now);
    (s.(batch := r.batch, pendingSince := r.pendingSince), r.rest)
  }

  lemma TurnTells(c: Config, s: Buffer, rest: bytes, now: nat)
    requires ValidConfig(c) && rest != []
    ensures var (t, left) := Turned(c, s, rest, now);
      && t.batch + left == s.batch + rest
      && |left| < |rest|
      && (|s.batch| < c.batchMax ==> |t.batch| <= c.batchMax)
      && t.batch != [] && t.pendingSince == (if s.batch != [] then s.pendingSince else Some(now))
      && (left != [] ==> |t.batch| >= c.batchMax)
  {
    AppendTurnBuffers(c, Reader(Pc.Append, ToAppend, rest, s.batch, [], 0, s.pendingSince), now);
  }

  datatype AppendEnd = AllTaken | PortRefused | NoCredit

  // `append`, with the surroundings of its flushes in order; also how many flushes it made.
  function AppendedBy(c: Config, s: Buffer, data: bytes, now: nat, envs: seq<Surroundings>): (Buffer, AppendEnd, nat)
    requires ValidConfig(c) && |envs| >= |data|
    decreases |data|
  {
    if data == [] then (s, AllTaken, 0)
    else
      TurnTells(c, s, data, now);
      var (t, left) := Turned(c, s, data, now);
      if |t.batch| < c.batchMax then AppendedBy(c, t, left, now, envs)
      else
        var (u, f) := FlushedBy(c, t, envs[0]);
        if f.Refused? then (u, PortRefused, 1)
        else if f.Blocked? then (u, NoCredit, 1)
        else
          var (v, a, n) := AppendedBy(c, u, left, now, envs[1..]);
          (v, a, n + 1)
  }

  // What is left of a call of `append`, seen from its start.
  predicate Remains(c: Config, start: Buffer, data: bytes, now: nat, envs: seq<Surroundings>, s: Buffer, rest: bytes, used: nat)
    requires ValidConfig(c) && |envs| >= |data|
  {
    && used + |rest| <= |data|
    && var (t, a, n) := AppendedBy(c, s, rest, now, envs[used..]);
       AppendedBy(c, start, data, now, envs) == (t, a, used + n)
  }

  lemma AppendGoesOn(c: Config, start: Buffer, data: bytes, now: nat, envs: seq<Surroundings>, s: Buffer, rest: bytes, used: nat)
    requires ValidConfig(c) && |envs| >= |data| && rest != []
    requires Remains(c, start, data, now, envs, s, rest, used)
    ensures var (t, left) := Turned(c, s, rest, now);
      && |left| < |rest|
      && (|t.batch| < c.batchMax ==> Remains(c, start, data, now, envs, t, left, used))
      && (|t.batch| >= c.batchMax ==>
            var (u, f) := FlushedBy(c, t, envs[used]);
            if f.Refused? then AppendedBy(c, start, data, now, envs) == (u, PortRefused, used + 1)
            else if f.Blocked? then AppendedBy(c, start, data, now, envs) == (u, NoCredit, used + 1)
            else Remains(c, start, data, now, envs, u, left, used + 1))
  {
    TurnTells(c, s, rest, now);
    assert envs[used..][0] == envs[used] && envs[used..][1..] == envs[used + 1..];
  }

  predicate Within(c: Config, s: Buffer) {
    && (|s.batch| < c.batchMax || (c.requireAcks && s.stop))
    && (c.requireAcks ==> s.inflight <= c.maxInflight - 1 + c.batchMax)
    && s.external <= c.maxExternal && s.inflight <= U64_MAX
    && (s.pendingSince.Some? <==> s.batch != [])
  }

  // Whatever the counter was when these looks began, it was full all the time.
  predicate Starved(c: Config, env: Surroundings) {
    exists inflight: nat :: inflight <= U64_MAX && NoRoom(c, inflight, env.looks)
  }

  // A flush of a batch that is not empty, as the callers see it.
  lemma FlushStep(c: Config, s: Buffer, env: Surroundings)
    requires ValidConfig(c) && s.batch != []
    requires |s.batch| <= c.batchMax || (c.requireAcks && s.stop)
    requires c.requireAcks ==> s.inflight <= c.maxInflight - 1 + c.batchMax
    requires s.external <= c.maxExternal && s.inflight <= U64_MAX && s.pendingSince.Some?
    ensures var (t, f) := FlushedBy(c, s, env);
      && !f.Empty? && (s.stop ==> t.stop)
      && (f.Sent? ==> Concat(t.posted) == Concat(s.posted) + s.batch && t.batch == [] && Within(c, t))
      && (!f.Sent? ==> t.posted == s.posted)
      && (f.Suppressed? ==> t.batch == s.batch && Within(c, t) && c.requireAcks && t.stop)
      && (f.Refused? ==> !env.taken)
      && (f.Blocked? ==> c.requireAcks && !t.stop && NoRoom(c, s.inflight, env.looks))
  {
    FlushOutcome(c, s, env);
    FlushTells(c, s, env);
    FlushIsBounded(c, s, env);
    ConcatSnoc(s.posted, s.batch);
  }

  // `append` puts every byte into the batch in order and sends full batches. Unless stop suppressed a
  // flush the batch it leaves is below its limit.
  lemma {:induction false} AppendKeepsBytes(c: Config, s: Buffer, data: bytes, now: nat, envs: seq<Surroundings>)
    requires ValidConfig(c) && |envs| >= |data| && Within(c, s)
    ensures var (t, a, used) := AppendedBy(c, s, data, now, envs);
      && (s.stop ==> t.stop)
      && (a.AllTaken? ==> Concat(t.posted) + t.batch == Concat(s.posted) + s.batch + data && Within(c, t))
      && (a.AllTaken? ==> |t.batch| <= |s.batch| + |data|)
      && Concat(t.posted) <= Concat(s.posted) + s.batch + data
    decreases |data|
  {
    if data == [] {
      assert Concat(s.posted) + s.batch + data == Concat(s.posted) + s.batch;
    } else {
      TurnTells(c, s, data, now);
      var (t, left) := Turned(c, s, data, now);
      assert Concat(s.posted) + (t.batch + left) == Concat(s.posted) + t.batch + left;
      assert Concat(s.posted) + (s.batch + data) == Concat(s.posted) + s.batch + data;
      if |t.batch| < c.batchMax {
        AppendKeepsBytes(c, t, left, now, envs);
      } else {
        FlushStep(c, t, envs[0]);
        var (u, f) := FlushedBy(c, t, envs[0]);
        if f.Sent? || f.Suppressed? {
          assert Concat(u.posted) + u.batch == Concat(t.posted) + t.batch;
          AppendKeepsBytes(c, u, left, now, envs[1..]);
        } else {
          assert Concat(u.posted) <= Concat(u.posted) + t.batch + left;
        }
      }
    }
  }

  // It flushes at most once for every byte, and fails only in a flush that the port refused or that
  // found no room at any look; data that does not fill the batch is only kept.
  lemma {:induction false} AppendOutcome(c: Config, s: Buffer, data: bytes, now: nat, envs: seq<Surroundings>)
    requires ValidConfig(c) && |envs| >= |data| && Within(c, s)
    ensures var (t, a, used) := AppendedBy(c, s, data, now, envs);
      && used <= |data|
      && (a.PortRefused? ==> used > 0 && !envs[used - 1].taken)
      && (a.NoCredit? ==> used > 0 && c.requireAcks && !t.stop && Starved(c, envs[used - 1]))
      && (|s.batch| + |data| < c.batchMax ==>
            && a.AllTaken? && used == 0 && t.batch == s.batch + data && t.posted == s.posted && t.inflight == s.inflight
            && t.pendingSince == if s.batch != [] || data == [] then s.pendingSince else Some(now))
    decreases |data|
  {
    if data != [] {
      TurnTells(c, s, data, now);
      var (t, left) := Turned(c, s, data, now);
      if |t.batch| < c.batchMax {
        AppendOutcome(c, t, left, now, envs);
      } else {
        FlushStep(c, t, envs[0]);
        var (u, f) := FlushedBy(c, t, envs[0]);
        if f.Sent? || f.Suppressed? {
          AppendOutcome(c, u, left, now, envs[1..]);
        }
      }
    }
  }

  // Unless stop is seen, every flush but the last one of a call was taken by the port.
  lemma {:induction false} EarlierFlushesWereSent(c: Config, s: Buffer, data: bytes, now: nat, envs: seq<Surroundings>)
    requires ValidConfig(c) && |envs| >= |data| && Within(c, s)
    ensures var (t, a, used) := AppendedBy(c, s, data, now, envs);
      used <= |data| && (s.stop ==> t.stop) && (forall i :: 0 <= i < used - 1 && !t.stop ==> envs[i].taken)
    decreases |data|
  {
    if data != [] {
      TurnTells(c, s, data, now);
      var (t, left) := Turned(c, s, data, now);
      if |t.batch| < c.batchMax {
        EarlierFlushesWereSent(c, t, left, now, envs);
      } else {
        FlushStep(c, t, envs[0]);
        FlushOutcome(c, t, envs[0]);
        var (u, f) := FlushedBy(c, t, envs[0]);
        if f.Sent? || f.Suppressed? {
          EarlierFlushesWereSent(c, u, left, now, envs[1..]);
        }
      }
    }
  }

  // ---------------------------------------------------------------- the object

  class OutputBuffer {
    const c: Config
    var inflight: nat
    var stop: bool
    var external: nat
    var batch: bytes
    var pendingSince: Option<nat>
    var posted: seq<bytes>
    var peers: seq<nat>

    function State(): Buffer
      reads this
    {
      Buffer(inflight, stop, external, batch, pendingSince, posted, peers)
    }

    constructor (c: Config)
      ensures this.c == c && State() == Buffer(0, false, 0, [], None, [], [])
    {
      this.c := c;
      inflight, external, stop := 0, 0, false;
      batch, pendingSince, posted, peers := [], None, [], [];
    }

    // `ack_output` and `release_inflight`
    method Release(byteCount: nat)
      modifies this`inflight
      ensures inflight == Released(c, old(inflight), byteCount)
    {
      if !c.requireAcks {
        return;
      }
      inflight := SaturatingSub(inflight, byteCount);
    }

    method ReserveInflight(len: nat)
      modifies this`inflight
      ensures inflight == Reserved(c, old(inflight), len)
    {
      if !c.requireAcks {
        return;
      }
      inflight := SaturatingAdd(inflight, len);
    }

    method ReserveExternal(len: nat) returns (ok: bool)
      modifies this`external
      ensures ok <==> 0 < len && old(external) + len <= Min(c.maxExternal, c.usizeMax)
      ensures external == if ok then old(external) + len else old(external)
    {
      var max := Min(c.maxExternal, c.usizeMax);
      if len == 0 || len > max || external + len > max {
        return false;
      }
      external := external + len;
      ok := true;
    }

    // `wait_for_inflight_capacity`
    method WaitForCapacity(looks: seq<Look>) returns (w: Waited)
      modifies this`inflight, this`stop
      ensures !c.requireAcks ==> w == Room && State() == old(State())
      ensures c.requireAcks && old(stop) ==> w == Stopped && State() == old(State())
      ensures c.requireAcks && !old(stop) ==>
                (w, inflight) == WaitedBy(c, old(inflight), looks) && (stop <==> w.Stopped?)
    {
      if !c.requireAcks {
        return Room;
      }
      if stop {
        return Stopped;
      }
      assert looks[..0] == [];
      for used := 0 to |looks|
        invariant (StillWaiting, inflight) == WaitedBy(c, old(inflight), looks[..used]) && !stop
      {
        assert looks[..used + 1][..used] == looks[..used];
        Release(looks[used].acked);
        stop := looks[used].stop;
        if stop || inflight < c.maxInflight {
          WaitIsOver(c, old(inflight), looks, used + 1);
          return if stop then Stopped else Room;
        }
      }
      assert looks[..|looks|] == looks;
      w := StillWaiting;
    }

    method Flush(env: Surroundings) returns (f: Flushed)
      modifies this
      ensures (State(), f) == FlushedBy(c, old(State()), env)
    {
      if batch == [] {
        pendingSince := None;
        return Empty;
      }
      var w := WaitForCapacity(env.looks);
      if w.Stopped? {
        return Suppressed;
      }
      if w.StillWaiting? {
        return Blocked;
      }
      Release(env.between);
      var len := |batch|;
      ReserveInflight(len);
      var hand := false;
      if c.useExternal {
        hand := ReserveExternal(len);
      }
      if env.taken {
        posted := posted + [batch];
        peers := peers + if hand then [len] else [];
        batch := [];
        pendingSince := None;
        return Sent;
      }
      if hand {
        batch := [];
        external := FetchSub(c, external, len);
      }
      Release(env.late);
      Release(len);
      f := Refused;
    }

    // One turn of the loop of `append`, up to the flush.
    method Take(rest: bytes, now: nat) returns (left: bytes)
      requires ValidConfig(c) && rest != []
      modifies this`batch, this`pendingSince
      ensures (State(), left) == Turned(c, old(State()), rest, now)
    {
      if batch == [] {
        pendingSince := Some(now);
      }
      var take := TakeLength(c, |batch|, |rest|);
      batch, left := batch + rest[..take], rest[take..];
    }

    method Append(data: bytes, now: nat, envs: seq<Surroundings>) returns (a: AppendEnd, used: nat)
      requires ValidConfig(c) && |envs| >= |data|
      modifies this
      ensures (State(), a, used) == AppendedBy(c, old(State()), data, now, envs)
    {
      var rest := data;
      used := 0;
      while rest != []
        invariant Remains(c, old(State()), data, now, envs, State(), rest, used)
        decreases |rest|
      {
        AppendGoesOn(c, old(State()), data, now, envs, State(), rest, used);
        rest := Take(rest, now);
        if |batch| >= c.batchMax {
          var f := Flush(envs[used]);
          used := used + 1;
          if f.Refused? {
            return PortRefused, used;
          }
          if f.Blocked? {
            return NoCredit, used;
          }
        }
      }
      a := AllTaken;
    }
  }
}
