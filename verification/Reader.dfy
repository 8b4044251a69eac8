// The reader thread's two loops (native/src/reader.rs), run to completion over an output buffer. The
// system calls' answers, and what other threads do during each flush, are arguments.
module Reader {
  import opened Base
  import opened OutputFlow
  import opened OutputBuffer

  datatype Polled = Timeout | Ready | PollFailed

  // The answer to one read. `flushes` surround the flushes of `append`, in order; `around` surrounds
  // the flush that follows a poll timeout, an elapsed delay, the end of the stream or an error.
  datatype Answer =
    | Data(data: bytes, flushes: seq<Surroundings>)
    | WouldBlock(polled: Polled)
    | Interrupted
    | Eof
    | ReadFailed

  datatype Event = Event(stop: bool, now: nat, answer: Answer, around: Surroundings)

  // How a run ended: by stop, by the end of the stream, by an error of the terminal, because the
  // port refused a message, or not yet: still running, or waiting for credit inside a flush.
  datatype Ending = StopSeen | AtEof | Broken | PortGone | Running | Stuck

  // `direct`: reads from the descriptor, which retry an interrupted call themselves.
  predicate Answers(c: Config, direct: bool, e: Event) {
    && (e.answer.Data? ==> 1 <= |e.answer.data| <= c.readBufferSize && |e.answer.flushes| >= |e.answer.data|)
    && (direct ==> !e.answer.Interrupted?)
  }

  predicate Readable(c: Config, direct: bool, events: seq<Event>) {
    forall i :: 0 <= i < |events| ==> Answers(c, direct, events[i])
  }

  // ---------------------------------------------------------------- what the loops do

  function After(f: Flushed, end: Ending): Ending {
    if f.Refused? then PortGone else if f.Blocked? then Stuck else end
  }

  function Flushes(c: Config, s: Buffer, env: Surroundings, data: bytes, end: Ending): (Buffer, bytes, Ending) {
    var (t, f) := FlushedBy(c, s, env);
    (t, data, After(f, end))
  }

  predicate Elapsed(c: Config, s: Buffer, now: nat) {
    s.pendingSince.Some? && now - s.pendingSince.value >= c.batchDelay
  }

  function TakesData(c: Config, direct: bool, s: Buffer, e: Event): (Buffer, bytes, Ending)
    requires ValidConfig(c) && e.answer.Data? && Answers(c, direct, e)
  {
    var data := e.answer.data;
    var (t, a, _) := AppendedBy(c, s, data, e.now, e.answer.flushes);
    if a.PortRefused? then (t, data, PortGone)
    else if a.NoCredit? then (t, data, Stuck)
    else if !direct && Elapsed(c, t, e.now) then Flushes(c, t, e.around, data, Running)
    else (t, data, Running)
  }

  // One round: the look at the stop flag, the read, and what follows it.
  function Round(c: Config, direct: bool, s: Buffer, e: Event): (Buffer, bytes, Ending)
    requires ValidConfig(c) && Answers(c, direct, e)
  {
    if s.stop || e.stop then Flushes(c, s.(stop := true), e.around, [], StopSeen)
    else match e.answer
      case Data(_, _) => TakesData(c, direct, s, e)
      case WouldBlock(polled) =>
        if !direct || polled.PollFailed? then Flushes(c, s, e.around, [], Broken)
        else if polled.Timeout? then Flushes(c, s, e.around, [], Running)
        else (s, [], Running)
      case Interrupted => (s, [], Running)
      case Eof => Flushes(c, s, e.around, [], AtEof)
      case ReadFailed => Flushes(c, s, e.around, [], Broken)
  }

  // A whole run: the buffer, the bytes read, how it ended and how many events it used.
  function Rounds(c: Config, direct: bool, s: Buffer, events: seq<Event>): (Buffer, bytes, Ending, nat)
    requires ValidConfig(c) && Readable(c, direct, events)
    decreases |events|
  {
    if events == [] then (s, [], Running, 0)
    else
      var (t, data, end) := Round(c, direct, s, events[0]);
      if !end.Running? then (t, data, end, 1)
      else
        var (u, more, last, used) := Rounds(c, direct, t, events[1..]);
        (u, data + more, last, used + 1)
  }

  // ---------------------------------------------------------------- what they promise

  // At the head of a loop: every byte read is posted or in the batch.
  predicate AtHead(c: Config, s: Buffer, read: bytes) {
    && ValidConfig(c)
    && Within(c, s)
    && Concat(s.posted) + s.batch == read
    && |s.batch| <= c.batchMax - 1 + c.readBufferSize
  }

  // On every way out a prefix of what was read is posted, and all of it unless stop or the port cut
  // it short.
  predicate Delivered(c: Config, s: Buffer, read: bytes, end: Ending) {
    && Concat(s.posted) <= read
    && (end.StopSeen? || end.AtEof? || end.Broken? ==> Concat(s.posted) == read || (c.requireAcks && s.stop))
  }

  function DataIn(e: Event): bytes {
    if e.answer.Data? then e.answer.data else []
  }

  function DataOf(events: seq<Event>): bytes {
    if events == [] then [] else DataIn(events[0]) + DataOf(events[1..])
  }

  // How a round ends if neither stop nor the port gets in its way.
  function Plain(direct: bool, answer: Answer): Ending {
    match answer
    case Data(_, _) => Running
    case WouldBlock(polled) => if !direct || polled.PollFailed? then Broken else Running
    case Interrupted => Running
    case Eof => AtEof
    case ReadFailed => Broken
  }

  predicate RefusedIn(e: Event) {
    !e.around.taken || (e.answer.Data? && exists i :: 0 <= i < |e.answer.flushes| && !e.answer.flushes[i].taken)
  }

  predicate StarvedIn(c: Config, e: Event) {
    Starved(c, e.around) || (e.answer.Data? && exists i :: 0 <= i < |e.answer.flushes| && Starved(c, e.answer.flushes[i]))
  }

  // Why a run that began with the flag at `stopped` ended as it did with this event.
  predicate Explained(c: Config, direct: bool, e: Event, stopped: bool, t: Buffer, end: Ending) {
    && (end.PortGone? ==> RefusedIn(e))
    && (end.Stuck? ==> c.requireAcks && !t.stop && StarvedIn(c, e))
    && (end.StopSeen? ==> stopped && t.stop)
    && (!end.PortGone? && !end.Stuck? ==> end == if stopped then StopSeen else Plain(direct, e.answer))
  }

  lemma FlushesTell(c: Config, s: Buffer, env: Surroundings, data: bytes, end: Ending, read: bytes)
    requires AtHead(c, s, read)
    ensures var (t, d, r) := Flushes(c, s, env, data, end);
      && d == data && (s.stop ==> t.stop)
      && (r.PortGone? && r != end ==> !env.taken)
      && (r.Stuck? && r != end ==> c.requireAcks && !t.stop && Starved(c, env))
      && (r == end || r.PortGone? || r.Stuck?)
      && Concat(t.posted) <= read
      && (r == end && !end.PortGone? && !end.Stuck? ==>
            AtHead(c, t, read) && (t.batch == [] || (c.requireAcks && t.stop)))
  {
    if s.batch != [] && (|s.batch| <= c.batchMax || (c.requireAcks && s.stop)) {
      FlushStep(c, s, env);
    }
    assert Concat(s.posted) + s.batch == read;
  }

  lemma TakesDataTells(c: Config, direct: bool, s: Buffer, e: Event, read: bytes)
    requires AtHead(c, s, read) && !s.stop && !e.stop && Answers(c, direct, e) && e.answer.Data?
    ensures var (t, d, end) := TakesData(c, direct, s, e);
      && d == e.answer.data
      && (end.Running? ==> AtHead(c, t, read + d))
      && Delivered(c, t, read + d, end)
      && Explained(c, direct, e, false, t, end)
  {
    var data := e.answer.data;
    AppendKeepsBytes(c, s, data, e.now, e.answer.flushes);
    AppendOutcome(c, s, data, e.now, e.answer.flushes);
    var (t, a, used) := AppendedBy(c, s, data, e.now, e.answer.flushes);
    if a.AllTaken? {
      assert AtHead(c, t, read + data);
      FlushesTell(c, t, e.around, data, Running, read + data);
    }
  }

  lemma LastFlushTells(c: Config, direct: bool, s: Buffer, e: Event, read: bytes, stopped: bool, end: Ending)
    requires AtHead(c, s, read) && (end.StopSeen? || end.AtEof? || end.Broken? || end.Running?)
    requires if stopped then s.stop && end.StopSeen? else end == Plain(direct, e.answer)
    ensures var (t, d, r) := Flushes(c, s, e.around, [], end);
      && d == [] && (s.stop ==> t.stop)
      && (r.Running? ==> AtHead(c, t, read))
      && Delivered(c, t, read, r)
      && Explained(c, direct, e, stopped, t, r)
  {
    FlushesTell(c, s, e.around, [], end, read);
  }

  // After which answers without data a round flushes.
  predicate FlushesAfter(direct: bool, answer: Answer) {
    !answer.Data? && (!Plain(direct, answer).Running? || (answer.WouldBlock? && answer.polled.Timeout?))
  }

  // What a round promises of its outcome.
  predicate Kept(c: Config, direct: bool, s: Buffer, e: Event, read: bytes, t: Buffer, d: bytes, end: Ending) {
    && d == (if s.stop || e.stop then [] else DataIn(e))
    && (end.Running? ==> AtHead(c, t, read + d))
    && Delivered(c, t, read + d, end)
    && Explained(c, direct, e, s.stop || e.stop, t, end)
  }

  lemma StoppedRoundTells(c: Config, direct: bool, s: Buffer, e: Event, read: bytes)
    requires AtHead(c, s, read) && (s.stop || e.stop)
    ensures var (t, d, end) := Flushes(c, s.(stop := true), e.around, [], StopSeen); Kept(c, direct, s, e, read, t, d, end)
  {
    assert read + [] == read;
    LastFlushTells(c, direct, s.(stop := true), e, read, true, StopSeen);
  }

  lemma FlushRoundTells(c: Config, direct: bool, s: Buffer, e: Event, read: bytes)
    requires AtHead(c, s, read) && !s.stop && !e.stop && FlushesAfter(direct, e.answer)
    ensures var (t, d, end) := Flushes(c, s, e.around, [], Plain(direct, e.answer)); Kept(c, direct, s, e, read, t, d, end)
  {
    assert read + [] == read;
    LastFlushTells(c, direct, s, e, read, false, Plain(direct, e.answer));
  }

  lemma RoundTells(c: Config, direct: bool, s: Buffer, e: Event, read: bytes)
    requires AtHead(c, s, read) && Answers(c, direct, e)
    ensures var (t, d, end) := Round(c, direct, s, e); Kept(c, direct, s, e, read, t, d, end)
  {
    if s.stop || e.stop {
      StoppedRoundTells(c, direct, s, e, read);
    } else if e.answer.Data? {
      TakesDataTells(c, direct, s, e, read);
    } else if FlushesAfter(direct, e.answer) {
      FlushRoundTells(c, direct, s, e, read);
    } else {
      assert read + [] == read;
    }
  }

  // A round that goes on although a poll of the direct reader timed out, or that leaves the blocking
  // reader with a batch that has waited the delay, has posted every byte read, unless stop suppressed
  // the flush: bytes do not lie in the batch past their time.
  lemma WaitingBatchGoesOut(c: Config, direct: bool, s: Buffer, e: Event, read: bytes)
    requires AtHead(c, s, read) && Answers(c, direct, e) && !s.stop && !e.stop
    requires (direct && e.answer == WouldBlock(Timeout)) || (!direct && e.answer.Data?)
    ensures var (t, d, end) := Round(c, direct, s, e);
      || end.PortGone?
      || end.Stuck?
      || (c.requireAcks && t.stop)
      || (t.batch == [] && Concat(t.posted) == read + d)
      || (!direct && t.pendingSince.Some? && e.now - t.pendingSince.value < c.batchDelay)
  {
    RoundTells(c, direct, s, e, read);
    if direct {
      FlushesTell(c, s, e.around, [], Running, read);
      assert read + [] == read;
    } else {
      BlockingBatchGoesOut(c, s, e, read);
    }
  }

  lemma BlockingBatchGoesOut(c: Config, s: Buffer, e: Event, read: bytes)
    requires AtHead(c, s, read) && Answers(c, false, e) && e.answer.Data? && !s.stop
    ensures var (t, d, end) := TakesData(c, false, s, e);
      || end.PortGone?
      || end.Stuck?
      || (c.requireAcks && t.stop)
      || (t.batch == [] && Concat(t.posted) == read + d)
      || (t.pendingSince.Some? && e.now - t.pendingSince.value < c.batchDelay)
  {
    var data := e.answer.data;
    AppendKeepsBytes(c, s, data, e.now, e.answer.flushes);
    var (t, a, _) := AppendedBy(c, s, data, e.now, e.answer.flushes);
    if a.AllTaken? {
      assert AtHead(c, t, read + data);
      FlushesTell(c, t, e.around, data, Running, read + data);
    }
  }

  // Nothing is posted when there is nothing to read yet or the call was interrupted, and data that does
  // not fill the batch is only kept: by the direct reader always, by the blocking one until the delay
  // has passed since the first byte of the batch.
  lemma NothingGoesOutEarly(c: Config, direct: bool, s: Buffer, e: Event, read: bytes)
    requires AtHead(c, s, read) && Answers(c, direct, e) && !s.stop && !e.stop
    ensures var (t, d, end) := Round(c, direct, s, e);
      && ((direct && e.answer == WouldBlock(Ready)) || e.answer.Interrupted? ==> t == s && d == [] && end.Running?)
      && (e.answer.Data? && |s.batch| + |e.answer.data| < c.batchMax
            && (direct || e.now - (if s.batch != [] then s.pendingSince.value else e.now) < c.batchDelay) ==>
            && t.posted == s.posted && t.batch == s.batch + d && end.Running? && t.inflight == s.inflight
            && t.pendingSince == Some(if s.batch != [] then s.pendingSince.value else e.now))
  {
    if e.answer.Data? {
      AppendOutcome(c, s, e.answer.data, e.now, e.answer.flushes);
    }
  }

  // Every byte read is posted in order, as far as the run got.
  lemma {:induction false} RoundsDeliver(c: Config, direct: bool, s: Buffer, events: seq<Event>, read: bytes)
    requires AtHead(c, s, read) && Readable(c, direct, events)
    ensures var (t, d, end, used) := Rounds(c, direct, s, events);
      && Delivered(c, t, read + d, end)
      && (end.Running? ==> AtHead(c, t, read + d))
    decreases |events|
  {
    if events == [] {
      assert read + [] == read;
    } else {
      RoundTells(c, direct, s, events[0], read);
      var (t, data, end) := Round(c, direct, s, events[0]);
      if end.Running? {
        var more := Rounds(c, direct, t, events[1..]).1;
        assert read + data + more == read + (data + more);
        RoundsDeliver(c, direct, t, events[1..], read + data);
      }
    }
  }

  lemma DataOfTail(events: seq<Event>, n: nat)
    requires 0 < n <= |events|
    ensures DataOf(events[..n]) == DataIn(events[0]) + DataOf(events[1..][..n - 1])
  {
    assert events[..n][1..] == events[1..][..n - 1];
  }

  // The event that ended a run, and what the run had read then; `stopped` is whether stop was seen at
  // its head.
  predicate EndsWith(c: Config, direct: bool, events: seq<Event>, used: nat, t: Buffer, d: bytes, end: Ending, stopped: bool) {
    && 0 < used <= |events|
    && (events[used - 1].stop ==> stopped)
    && Explained(c, direct, events[used - 1], stopped, t, end)
    && d == DataOf(events[..if stopped then used - 1 else used])
  }

  // What a run reads is what the terminal gave in the events it used, except for one at whose head stop
  // was seen. It uses all events unless one of them ends it, and the one that does says how.
  lemma {:induction false} RoundsTell(c: Config, direct: bool, s: Buffer, events: seq<Event>, read: bytes)
    requires AtHead(c, s, read) && Readable(c, direct, events)
    ensures var (t, d, end, used) := Rounds(c, direct, s, events);
      && used <= |events|
      && (end.Running? ==> used == |events| && d == DataOf(events))
      && (forall i :: 0 <= i < used && (end.Running? || i < used - 1) ==>
            !events[i].stop && Plain(direct, events[i].answer).Running?)
      && (!end.Running? ==>
            || EndsWith(c, direct, events, used, t, d, end, true)
            || EndsWith(c, direct, events, used, t, d, end, false))
    decreases |events|
  {
    if events != [] {
      RoundTells(c, direct, s, events[0], read);
      var (t, data, end) := Round(c, direct, s, events[0]);
      DataOfTail(events, 1);
      if end.Running? {
        var tail := events[1..];
        RoundsTell(c, direct, t, tail, read + data);
        var (u, more, last, used) := Rounds(c, direct, t, tail);
        assert forall i :: 0 <= i < used ==> tail[i] == events[i + 1];
        DataOfTail(events, used + 1);
        if used > 0 { DataOfTail(events, used); }
      } else {
        EndsAtOnce(c, direct, s, events, read);
      }
    }
  }

  lemma EndsAtOnce(c: Config, direct: bool, s: Buffer, events: seq<Event>, read: bytes)
    requires AtHead(c, s, read) && Readable(c, direct, events) && events != []
    requires !Round(c, direct, s, events[0]).2.Running?
    ensures var (t, d, end) := Round(c, direct, s, events[0]);
      EndsWith(c, direct, events, 1, t, d, end, s.stop || events[0].stop)
  {
    RoundTells(c, direct, s, events[0], read);
    DataOfTail(events, 1);
    assert DataOf(events[1..][..0]) == [] && DataOf(events[..0]) == [];
  }

  // The state of a loop after some rounds, seen from its start.
  predicate GoesOn(c: Config, direct: bool, start: Buffer, events: seq<Event>, s: Buffer, read: bytes, end: Ending, used: nat)
    requires ValidConfig(c) && Readable(c, direct, events)
  {
    && used <= |events|
    && Rounds(c, direct, start, events) ==
       if end.Running? then
         var (t, more, last, n) := Rounds(c, direct, s, events[used..]);
         (t, read + more, last, used + n)
       else (s, read, end, used)
  }

  lemma RoundsGoOn(c: Config, direct: bool, start: Buffer, events: seq<Event>, s: Buffer, read: bytes, used: nat)
    requires ValidConfig(c) && Readable(c, direct, events) && used < |events|
    requires GoesOn(c, direct, start, events, s, read, Running, used)
    ensures var (t, data, end) := Round(c, direct, s, events[used]);
      GoesOn(c, direct, start, events, t, read + data, end, used + 1)
  {
    assert events[used..][0] == events[used] && events[used..][1..] == events[used + 1..];
    var (t, data, end) := Round(c, direct, s, events[used]);
    if end.Running? {
      var more := Rounds(c, direct, t, events[used + 1..]).1;
      assert read + (data + more) == read + data + more;
    }
  }

  lemma GoingStarts(c: Config, direct: bool, s: Buffer, events: seq<Event>)
    requires ValidConfig(c) && Readable(c, direct, events)
    ensures GoesOn(c, direct, s, events, s, [], Running, 0)
  {
    assert events[0..] == events;
    var more := Rounds(c, direct, s, events).1;
    assert [] + more == more;
  }

  lemma GoingEnds(c: Config, direct: bool, start: Buffer, events: seq<Event>, s: Buffer, read: bytes, end: Ending, used: nat)
    requires ValidConfig(c) && Readable(c, direct, events)
    requires GoesOn(c, direct, start, events, s, read, end, used) && (used == |events| || !end.Running?)
    ensures Rounds(c, direct, start, events) == (s, read, end, used)
  {
    if end.Running? {
      assert events[used..] == [] && read + [] == read;
    }
  }

  // ---------------------------------------------------------------- the loops

  method FlushOut(out: OutputBuffer, env: Surroundings, end: Ending) returns (r: Ending)
    modifies out
    ensures (out.State(), [], r) == Flushes(out.c, old(out.State()), env, [], end)
  {
    var f := out.Flush(env);
    r := After(f, end);
  }

  method AppendAndFlush(out: OutputBuffer, direct: bool, e: Event) returns (end: Ending)
    requires ValidConfig(out.c) && Answers(out.c, direct, e) && e.answer.Data?
    modifies out
    ensures (out.State(), e.answer.data, end) == TakesData(out.c, direct, old(out.State()), e)
  {
    var a, _ := out.Append(e.answer.data, e.now, e.answer.flushes);
    end := if a.PortRefused? then PortGone else if a.NoCredit? then Stuck else Running;
    if end.Running? && !direct && out.pendingSince.Some? && e.now - out.pendingSince.value >= out.c.batchDelay {
      end := FlushOut(out, e.around, Running);
    }
  }

  // One round of `read_unix_fd`: read until the descriptor is drained, then poll no longer than the
  // batch may wait.
  method DirectRound(out: OutputBuffer, e: Event) returns (data: bytes, end: Ending)
    requires ValidConfig(out.c) && Answers(out.c, true, e)
    modifies out
    ensures (out.State(), data, end) == Round(out.c, true, old(out.State()), e)
  {
    data, end := [], Running;
    out.stop := out.stop || e.stop;
    if out.stop {
      end := FlushOut(out, e.around, StopSeen);
      return;
    }
    match e.answer {
      case Data(bytes, _) =>
        data := bytes;
        end := AppendAndFlush(out, true, e);
      case WouldBlock(polled) =>
        match polled {
          case Ready =>
          case PollFailed => end := FlushOut(out, e.around, Broken);
          case Timeout => end := FlushOut(out, e.around, Running);
        }
      case Eof => end := FlushOut(out, e.around, AtEof);
      case ReadFailed => end := FlushOut(out, e.around, Broken);
    }
  }

  // One round of `read_blocking`: after each read a batch that waited long enough goes out.
  method BlockingRound(out: OutputBuffer, e: Event) returns (data: bytes, end: Ending)
    requires ValidConfig(out.c) && Answers(out.c, false, e)
    modifies out
    ensures (out.State(), data, end) == Round(out.c, false, old(out.State()), e)
  {
    data, end := [], Running;
    out.stop := out.stop || e.stop;
    if out.stop {
      end := FlushOut(out, e.around, StopSeen);
      return;
    }
    match e.answer {
      case Data(bytes, _) =>
        data := bytes;
        end := AppendAndFlush(out, false, e);
      case Interrupted =>
      case Eof => end := FlushOut(out, e.around, AtEof);
      case WouldBlock(_) => end := FlushOut(out, e.around, Broken);
      case ReadFailed => end := FlushOut(out, e.around, Broken);
    }
  }

  method ReadUnixFd(out: OutputBuffer, events: seq<Event>) returns (read: bytes, end: Ending, used: nat)
    requires AtHead(out.c, out.State(), []) && Readable(out.c, true, events)
    modifies out
    ensures Delivered(out.c, out.State(), read, end)
    ensures (out.State(), read, end, used) == Rounds(out.c, true, old(out.State()), events)
  {
    read, end, used := [], Running, 0;
    GoingStarts(out.c, true, out.State(), events);
    RoundsDeliver(out.c, true, out.State(), events, []);
    while used < |events| && end.Running?
      invariant used <= |events|
      invariant end.Running? ==> AtHead(out.c, out.State(), read)
      invariant GoesOn(out.c, true, old(out.State()), events, out.State(), read, end, used)
    {
      RoundTells(out.c, true, out.State(), events[used], read);
      RoundsGoOn(out.c, true, old(out.State()), events, out.State(), read, used);
      var data, e := DirectRound(out, events[used]);
      read, end, used := read + data, e, used + 1;
    }
    GoingEnds(out.c, true, old(out.State()), events, out.State(), read, end, used);
    assert [] + read == read;
  }

  method ReadBlocking(out: OutputBuffer, events: seq<Event>) returns (read: bytes, end: Ending, used: nat)
    requires AtHead(out.c, out.State(), []) && Readable(out.c, false, events)
    modifies out
    ensures Delivered(out.c, out.State(), read, end)
    ensures (out.State(), read, end, used) == Rounds(out.c, false, old(out.State()), events)
  {
    read, end, used := [], Running, 0;
    GoingStarts(out.c, false, out.State(), events);
    RoundsDeliver(out.c, false, out.State(), events, []);
    while used < |events| && end.Running?
      invariant used <= |events|
      invariant end.Running? ==> AtHead(out.c, out.State(), read)
      invariant GoesOn(out.c, false, old(out.State()), events, out.State(), read, end, used)
    {
      RoundTells(out.c, false, out.State(), events[used], read);
      RoundsGoOn(out.c, false, old(out.State()), events, out.State(), read, used);
      var data, e := BlockingRound(out, events[used]);
      read, end, used := read + data, e, used + 1;
    }
    GoingEnds(out.c, false, old(out.State()), events, out.State(), read, end, used);
    assert [] + read == read;
  }
}
