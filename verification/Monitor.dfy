// The Linux monitor (native/src/process_linux.rs): the process between the session and the program,
// what it reports, and what `spawn` and `wait` make of the report.
module Monitor {
  import opened Base
  import opened MonitorWire

  const MONITOR_PID: byte := 1
  const MONITOR_EXIT: byte := 2
  const MONITOR_EXEC_ERROR: byte := 3

  // ---------------------------------------------------------------- wait statuses

  predicate Exited(status: nat) {
    status % 128 == 0
  }

  // The sign trick of WIFSIGNALED: 0 means exited and 127 means stopped or continued.
  predicate Signaled(status: nat) {
    1 <= status % 128 <= 126
  }

  function ExitCode(status: nat): i32 {
    if Exited(status) then status / 256 % 256
    else if Signaled(status) then 128 + status % 128
    else 1
  }

  datatype WaitAnswer = Reaped(status: nat) | WaitInterrupted | WaitFailed

  // `wait_for_pid_raw`; None while no call has given a final answer.
  function WaitedFor(answers: seq<WaitAnswer>): Option<i32> {
    if answers == [] then None
    else match answers[0]
      case Reaped(status) => Some(ExitCode(status))
      case WaitInterrupted => WaitedFor(answers[1..])
      case WaitFailed => Some(1)
  }

  method WaitForPid(answers: seq<WaitAnswer>) returns (code: Option<i32>)
    ensures code == WaitedFor(answers)
  {
    var k := 0;
    while k < |answers|
      invariant k <= |answers|
      invariant WaitedFor(answers[k..]) == WaitedFor(answers)
    {
      match answers[k] {
        case Reaped(status) => return Some(ExitCode(status));
        case WaitFailed => return Some(1);
        case WaitInterrupted =>
      }
      assert answers[k..][1..] == answers[k + 1..];
      k := k + 1;
    }
    code := None;
  }

  // After any number of interruptions the reported code is the program's own exit code, or 128 plus
  // the signal that ended it, with or without a core dump.
  // A child that is only stopped or continued counts as failed.
  lemma {:induction false} CodeIsDecoded(
      interrupted: seq<WaitAnswer>, rest: seq<WaitAnswer>, exit: nat, signal: nat, core: nat)
    requires forall i :: 0 <= i < |interrupted| ==> interrupted[i].WaitInterrupted?
    requires exit < 256 && 1 <= signal <= 126 && core <= 1
    ensures WaitedFor(interrupted + [Reaped(exit * 256)] + rest) == Some(exit)
    ensures WaitedFor(interrupted + [Reaped(signal + 128 * core)] + rest) == Some(128 + signal)
    ensures WaitedFor(interrupted + [Reaped(signal * 256 + 127)] + rest) == Some(1)
    ensures WaitedFor(interrupted + [WaitFailed] + rest) == Some(1)
    ensures WaitedFor(interrupted) == None
  {
    if interrupted != [] {
      CodeIsDecoded(interrupted[1..], rest, exit, signal, core);
      assert forall a :: (interrupted + [a] + rest)[1..] == interrupted[1..] + [a] + rest;
    } else {
      assert forall a: WaitAnswer :: [] + [a] + rest == [a] + rest;
    }
  }

  lemma {:induction false} CodeInRange(answers: seq<WaitAnswer>)
    ensures WaitedFor(answers).Some? ==> 0 <= WaitedFor(answers).value <= 255
  {
    if answers != [] {
      CodeInRange(answers[1..]);
    }
  }

  // ---------------------------------------------------------------- the monitor

  // What the monitor meets: errors of its own set-up, what the child left in the exec pipe, the
  // program's end.
  datatype World = World(
    pipeErrno: Option<i32>,
    forkErrno: Option<i32>,
    childPid: i32,
    execPipe: bytes,
    execAnswers: seq<ReadAnswer>,
    readErrno: i32,         // errno after a read of the exec pipe that made no sense
    waits: seq<WaitAnswer>)

  // Every system call of the run has returned.
  predicate Completed(w: World) {
    ExecReported(w.execPipe, w.execAnswers).Some? && WaitedFor(w.waits).Some?
  }

  predicate Launched(w: World) {
    w.pipeErrno.None? && w.forkErrno.None? && ExecReported(w.execPipe, w.execAnswers) == Some(Started)
  }

  function LaunchError(w: World): i32
    requires Completed(w) && !Launched(w)
  {
    if w.pipeErrno.Some? then w.pipeErrno.value
    else if w.forkErrno.Some? then w.forkErrno.value
    else match ExecReported(w.execPipe, w.execAnswers).value
      case NotStarted(errno) => errno
      case _ => w.readErrno
  }

  // The messages of a completed run: one launch error, or the pid and then the exit code.
  function Events(w: World): seq<Message>
    requires Completed(w)
  {
    if Launched(w)
    then [Message(MONITOR_PID, w.childPid), Message(MONITOR_EXIT, WaitedFor(w.waits).value)]
    else [Message(MONITOR_EXEC_ERROR, LaunchError(w))]
  }

  // What a completed run reports: the first of its own errors, or what the exec pipe said, and only after
  // a clean end of that pipe the pid and the exit code.
  lemma EventsTellTheWorld(w: World)
    requires Completed(w)
    ensures w.pipeErrno.Some? ==> Events(w) == [Message(3, w.pipeErrno.value)]
    ensures w.pipeErrno.None? && w.forkErrno.Some? ==> Events(w) == [Message(3, w.forkErrno.value)]
    ensures w.pipeErrno.None? && w.forkErrno.None? ==>
              var report := ExecReported(w.execPipe, w.execAnswers).value;
              && (report.Started? ==> Events(w) == [Message(1, w.childPid), Message(2, WaitedFor(w.waits).value)])
              && (report.NotStarted? ==> Events(w) == [Message(3, report.errno)])
              && (report.Garbled? ==> Events(w) == [Message(3, w.readErrno)])
  {
  }

  // `run_monitor`: the bytes it leaves in the event pipe. The results of its writes are not looked
  // at, so a message cut short by a failing write does not keep the next one back.
  method RunMonitor(w: World, first: seq<WriteAnswer>, second: seq<WriteAnswer>)
    returns (events: bytes, complete: bool)
    requires Completed(w)
    ensures Launched(w) ==>
              events == Frame(Events(w)[0])[..SentBy(FRAME, 0, first)] + Frame(Events(w)[1])[..SentBy(FRAME, 0, second)]
    ensures !Launched(w) ==> events == Frame(Events(w)[0])[..SentBy(FRAME, 0, first)]
    ensures complete ==> events == Frames(Events(w))
  {
    FewFrames(Events(w)[0], Events(w)[|Events(w)| - 1]);
    var error := if w.pipeErrno.Some? then w.pipeErrno else w.forkErrno;
    if error.None? {
      var report := ReadI32OrEof(w.execPipe, w.execAnswers);
      match report.value {
        case NotStarted(errno) => error := Some(errno);
        case Garbled => error := Some(w.readErrno);
        case Started =>
      }
    }
    if error.Some? {
      var sent, ok, _ := WriteAll(Frame(Message(MONITOR_EXEC_ERROR, error.value)), first);
      return sent, ok;
    }
    var pid, pidSent, _ := WriteAll(Frame(Message(MONITOR_PID, w.childPid)), first);
    var code := WaitForPid(w.waits);
    var exit, exitSent, _ := WriteAll(Frame(Message(MONITOR_EXIT, code.value)), second);
    events, complete := pid + exit, pidSent && exitSent;
  }

  // ---------------------------------------------------------------- spawn

  datatype Spawned =
    | Child(pid: i32, events: bytes)
    | ExecFailed(errno: i32)
    | InvalidMessage
    | NoMessage          // the read failed or the monitor left without a whole message
    | Blocked

  // The dispatch of `spawn` on the first message.
  function Spawn(pipe: bytes, answers: seq<ReadAnswer>): Spawned {
    var (r, rest) := Receive(pipe, answers);
    match r
    case Ok(m) =>
      if m.tag == MONITOR_PID then Child(m.value, rest)
      else if m.tag == MONITOR_EXEC_ERROR then ExecFailed(m.value)
      else InvalidMessage
    case Pending => Blocked
    case _ => NoMessage
  }

  // How `spawn` ends follows from how the read of the first message ended and from its tag.
  lemma SpawnOutcome(pipe: bytes, answers: seq<ReadAnswer>)
    ensures var spawned := Spawn(pipe, answers);
            var end := ReadBy(pipe, FRAME, 0, answers).0;
      && (spawned.Blocked? <==> end.Unfinished?)
      && (spawned.NoMessage? <==> end.Eof? || end.Failed?)
      && (end.Full? ==>
            && (spawned.Child? <==> pipe[0] == 1)
            && (spawned.ExecFailed? <==> pipe[0] == 3)
            && (spawned.InvalidMessage? <==> pipe[0] != 1 && pipe[0] != 3)
            && (spawned.Child? ==> spawned.pid == BytesI32(pipe[4..FRAME]) && spawned.events == pipe[FRAME..])
            && (spawned.ExecFailed? ==> spawned.errno == BytesI32(pipe[4..FRAME])))
  {
    ReadIsExact(pipe, FRAME, 0, answers);
    if ReadBy(pipe, FRAME, 0, answers).0.Full? {
      assert pipe[..FRAME][4..] == pipe[4..FRAME];
    }
  }

  // `spawn` succeeds exactly when the program was started, with its pid, and otherwise reports why.
  lemma SpawnTellsLaunch(w: World, answers: seq<ReadAnswer>)
    requires Completed(w) && Delivers(answers)
    ensures Spawn(Frames(Events(w)), answers) ==
            if Launched(w) then Child(w.childPid, Frames(Events(w)[1..])) else ExecFailed(LaunchError(w))
  {
    var ms := Events(w);
    DeliversAll(Frames(ms), FRAME, answers);
    ReceiveFirst(ms[0], Frames(ms[1..]), answers);
  }

  // A program that could not be executed is reported with its error number, unless the child could
  // not even write the first byte of it: a silent failure is taken for a start.
  lemma FailedExecIsReported(w: World, errno: i32, cut: nat, answers: seq<ReadAnswer>)
    requires w.pipeErrno.None? && w.forkErrno.None? && cut <= 4 && w.execPipe == I32Bytes(errno)[..cut]
    requires Delivers(w.execAnswers) && Delivers(answers) && Completed(w)
    ensures var spawned := Spawn(Frames(Events(w)), answers);
      && (spawned.Child? <==> cut == 0)
      && (cut == 4 ==> spawned == ExecFailed(errno))
      && (0 < cut < 4 ==> spawned == ExecFailed(w.readErrno))
  {
    ExecPipeDistinguishes(errno, cut, w.execAnswers);
    SpawnTellsLaunch(w, answers);
  }

  // What is in the event pipe when the writes of a run broke off: the first message up to `first`
  // bytes and, if there is one, the second up to `second`.
  function CutEvents(w: World, first: nat, second: nat): bytes
    requires Completed(w) && first <= FRAME && second <= FRAME
  {
    if Launched(w) then Frame(Events(w)[0])[..first] + Frame(Events(w)[1])[..second] else Frame(Events(w)[0])[..first]
  }

  // With writes that may break off, the message `spawn` calls invalid can show up: exactly when a
  // launched run's pid message failed before its first byte and its exit message went out whole. A
  // cut launch error is never taken for anything else.
  lemma InvalidMessageIff(w: World, first: nat, second: nat, answers: seq<ReadAnswer>)
    requires Completed(w) && Delivers(answers)
    requires first <= FRAME && second <= FRAME
    ensures var spawned := Spawn(CutEvents(w, first, second), answers);
      && (spawned.InvalidMessage? <==> Launched(w) && first == 0 && second == FRAME)
      && (spawned.NoMessage? <==> first + (if Launched(w) then second else 0) < FRAME)
      && (spawned.Child? <==> Launched(w) && 0 < first && FRAME <= first + second)
      && (spawned.ExecFailed? <==> !Launched(w) && first == FRAME)
      && (spawned.ExecFailed? ==> spawned.errno == LaunchError(w))
  {
    var pipe := CutEvents(w, first, second);
    DeliversAll(pipe, FRAME, answers);
    if |pipe| >= FRAME {
      assert Unframe(pipe[..FRAME]).tag == pipe[0];
      if first == FRAME {
        FrameRoundTrip(Events(w)[0]);
        assert pipe[..FRAME] == Frame(Events(w)[0]);
      }
    }
  }

  function Pow256(n: nat): (p: nat)
    ensures p > 0
  {
    if n == 0 then 1 else 256 * Pow256(n - 1)
  }

  // The pid that a message made of `cut` bytes of the pid message and the head of the exit message
  // shows is the right one only by chance: the bytes that were lost happen to be those of the tag
  // or of the exit code that took their place.
  predicate LuckyPid(pid: i32, code: i32, cut: nat)
    requires 0 < cut < FRAME
  {
    if cut < 4 then Unsigned(pid) == code * Pow256(cut) else Unsigned(pid) / Pow256(cut - 4) == 2
  }

  // What four bytes in little-endian order say about their value.
  lemma BytesTell(v: i32, b: bytes)
    requires |b| == 4
    ensures BytesI32(b) == v <==> I32Bytes(v) == b
  {
    I32RoundTrip(v, b);
  }

  // The bytes of the value that `spawn` reads when the two messages run together.
  function MixedValue(pid: i32, code: i32, cut: nat): (b: bytes)
    requires 0 < cut < FRAME
    ensures |b| == 4
  {
    (Frame(Message(MONITOR_PID, pid))[..cut] + Frame(Message(MONITOR_EXIT, code))[..FRAME - cut])[4..]
  }

  lemma MixedBytes(pid: i32, code: i32, cut: nat)
    requires 0 < cut < FRAME && 0 <= code <= 255
    ensures var m := MixedValue(pid, code, cut);
            var b := I32Bytes(pid);
      if cut < 4 then m == seq(4, i => if i == cut then code as byte else 0)
      else m == seq(4, i requires 0 <= i < 4 => if i < cut - 4 then b[i] else if i == cut - 4 then MONITOR_EXIT else 0)
  {
    var b := I32Bytes(pid);
    assert Frame(Message(MONITOR_EXIT, code)) == [2, 0, 0, 0, code, 0, 0, 0];
    assert Frame(Message(MONITOR_PID, pid)) == [1, 0, 0, 0, b[0], b[1], b[2], b[3]];
  }

  lemma MixedIsLuckyIff(pid: i32, code: i32, cut: nat)
    requires 0 < cut < FRAME && 0 <= code <= 255
    ensures MixedValue(pid, code, cut) == I32Bytes(pid) <==> LuckyPid(pid, code, cut)
  {
    var b, m := I32Bytes(pid), MixedValue(pid, code, cut);
    MixedBytes(pid, code, cut);
    assert m == b <==> m[0] == b[0] && m[1] == b[1] && m[2] == b[2] && m[3] == b[3];
    assert Pow256(0) == 1 && Pow256(1) == 256 && Pow256(2) == 65536 && Pow256(3) == 16777216;
    if cut < 4 {
      LowBytes(pid, code, cut);
    } else {
      HighBytes(pid, cut - 4);
    }
  }

  lemma LowBytes(pid: i32, code: i32, k: nat)
    requires 0 <= code <= 255 && 1 <= k <= 3
    ensures I32Bytes(pid) == seq(4, i => if i == k then code as byte else 0) <==> Unsigned(pid) == code * Pow256(k)
  {
    var t: bytes := seq(4, i => if i == k then code as byte else 0);
    assert Pow256(1) == 256 && Pow256(2) == 65536 && Pow256(3) == 16777216;
    assert Assembled(t) == code * Pow256(k);
    assert Signed(Unsigned(pid)) == pid && Unsigned(BytesI32(t)) == Assembled(t);
    BytesTell(pid, t);
  }

  lemma HighBytes(pid: i32, k: nat)
    requires k <= 3
    ensures (forall i :: k <= i < 4 ==> I32Bytes(pid)[i] == if i == k then 2 else 0) <==> Unsigned(pid) / Pow256(k) == 2
  {
    var b := I32Bytes(pid);
    assert Pow256(0) == 1 && Pow256(1) == 256 && Pow256(2) == 65536 && Pow256(3) == 16777216;
    assert Unsigned(pid) == b[0] as int + 256 * b[1] as int + 65536 * b[2] as int + 16777216 * b[3] as int;
    if k == 0 {
    } else if k == 1 {
    } else if k == 2 {
    } else {
    }
  }

  // When `spawn` returns a child, its pid is the program's exactly when the pid message went out
  // whole, or by chance; and without both messages whole `wait` on that child tells no status.
  lemma ChildIsRightIff(w: World, first: nat, second: nat, answers: seq<ReadAnswer>, splittings: seq<seq<ReadAnswer>>)
    requires Completed(w) && Delivers(answers) && first <= FRAME && second <= FRAME
    requires Spawn(CutEvents(w, first, second), answers).Child?
    ensures var child := Spawn(CutEvents(w, first, second), answers);
      && (child.pid == w.childPid <==> first == FRAME || LuckyPid(w.childPid, WaitedFor(w.waits).value, first))
      && (ExitFrom(child.events, splittings).0.Status? ==> first == FRAME && second == FRAME)
  {
    InvalidMessageIff(w, first, second, answers);
    CodeInRange(w.waits);
    var pid, exit := Frame(Events(w)[0]), Frame(Events(w)[1]);
    var pipe := CutEvents(w, first, second);
    DeliversAll(pipe, FRAME, answers);
    if first == FRAME {
      FrameRoundTrip(Events(w)[0]);
      assert pipe[..FRAME] == pid;
    } else {
      var code := WaitedFor(w.waits).value;
      assert pipe[..FRAME] == pid[..first] + exit[..FRAME - first];
      MixedIsLuckyIff(w.childPid, code, first);
      BytesTell(w.childPid, MixedValue(w.childPid, code, first));
    }
    if splittings != [] {
      ReadIsExact(pipe[FRAME..], FRAME, 0, splittings[0]);
    }
  }

  // ---------------------------------------------------------------- wait

  datatype Waited = Status(code: i32) | WaitError | StillRunning

  // `read_exit_status`: messages are skipped until the exit message.
  function ExitFrom(pipe: bytes, splittings: seq<seq<ReadAnswer>>): (Waited, bytes)
    decreases |splittings|
  {
    if splittings == [] then (StillRunning, pipe)
    else
      var (r, rest) := Receive(pipe, splittings[0]);
      match r
      case Ok(m) => if m.tag == MONITOR_EXIT then (Status(m.value), rest) else ExitFrom(rest, splittings[1..])
      case Pending => (StillRunning, rest)
      case _ => (WaitError, rest)
  }

  // Messages of any other kind are skipped, one read each, up to the exit message, and what follows it
  // stays in the pipe.
  lemma {:induction false} WaitSkipsOthers(ms: seq<Message>, code: i32, more: bytes, splittings: seq<seq<ReadAnswer>>)
    requires forall m :: m in ms ==> m.tag != MONITOR_EXIT
    requires |splittings| > |ms| && forall a :: a in splittings ==> Delivers(a)
    ensures ExitFrom(Frames(ms) + Frame(Message(MONITOR_EXIT, code)) + more, splittings) == (Status(code), more)
    decreases |ms|
  {
    var exit := Frame(Message(MONITOR_EXIT, code));
    var pipe := Frames(ms) + exit + more;
    assert splittings[0] in splittings;
    DeliversAll(pipe, FRAME, splittings[0]);
    if ms == [] {
      assert pipe == exit + more;
      ReceiveFirst(Message(MONITOR_EXIT, code), more, splittings[0]);
    } else {
      var rest := Frames(ms[1..]) + exit + more;
      assert pipe == Frame(ms[0]) + rest;
      ReceiveFirst(ms[0], rest, splittings[0]);
      assert ms[0] in ms;
      WaitSkipsOthers(ms[1..], code, more, splittings[1..]);
    }
  }

  // A read that fails, or finds the pipe at its end, makes `wait` fail; one that has not returned leaves
  // it waiting. Neither forgets what it took from the pipe.
  lemma WaitFailsWithItsRead(pipe: bytes, splittings: seq<seq<ReadAnswer>>)
    requires splittings != []
    ensures var (end, taken) := ReadBy(pipe, FRAME, 0, splittings[0]);
      && (end.Eof? || end.Failed? ==> ExitFrom(pipe, splittings) == (WaitError, pipe[taken..]))
      && (end.Unfinished? ==> ExitFrom(pipe, splittings) == (StillRunning, pipe[taken..]))
  {
    ReceiveTakesWhatItRead(pipe, splittings[0]);
  }

  class SupervisedChild {
    const pid: i32
    var events: bytes
    var cached: Option<i32>

    constructor (pid: i32, events: bytes)
      ensures this.pid == pid && this.events == events && cached == None
    {
      this.pid, this.events, cached := pid, events, None;
    }

    method ReadExitStatus(splittings: seq<seq<ReadAnswer>>) returns (r: Waited)
      modifies this
      ensures (r, events) == ExitFrom(old(events), splittings)
      ensures cached == if r.Status? then Some(r.code) else old(cached)
    {
      var k := 0;
      while k < |splittings|
        invariant k <= |splittings| && cached == old(cached)
        invariant ExitFrom(events, splittings[k..]) == ExitFrom(old(events), splittings)
      {
        var (received, rest) := Receive(events, splittings[k]);
        assert splittings[k..][1..] == splittings[k + 1..];
        events := rest;
        k := k + 1;
        match received {
          case Ok(m) =>
            if m.tag == MONITOR_EXIT {
              cached := Some(m.value);
              return Status(m.value);
            }
          case Pending => return StillRunning;
          case _ => return WaitError;
        }
      }
      r := StillRunning;
    }

    // The first status is kept: later calls return it and read nothing.
    method Wait(splittings: seq<seq<ReadAnswer>>) returns (r: Waited)
      modifies this
      ensures old(cached).Some? ==> r == Status(old(cached).value) && cached == old(cached) && events == old(events)
      ensures old(cached).None? ==> (r, events) == ExitFrom(old(events), splittings)
      ensures old(cached).None? ==> cached == if r.Status? then Some(r.code) else None
    {
      if cached.Some? {
        return Status(cached.value);
      }
      r := ReadExitStatus(splittings);
    }

    // `poll` says whether the pipe is readable, or fails.
    method TryWait(readable: Option<bool>, splittings: seq<seq<ReadAnswer>>) returns (r: Waited)
      modifies this
      ensures old(cached).Some? ==> r == Status(old(cached).value) && cached == old(cached) && events == old(events)
      ensures old(cached).None? && readable != Some(true) ==>
                r == (if readable.Some? then StillRunning else WaitError) && cached == None && events == old(events)
      ensures old(cached).None? && readable == Some(true) ==> (r, events) == ExitFrom(old(events), splittings)
      ensures old(cached).None? ==> cached == if r.Status? then Some(r.code) else None
    {
      if cached.Some? {
        return Status(cached.value);
      }
      match readable {
        case None => r := WaitError;
        case Some(ready) =>
          if ready {
            r := ReadExitStatus(splittings);
          } else {
            r := StillRunning;
          }
      }
    }
  }

  // What `wait` returns on a started program is its decoded exit code, whatever the splittings.
  lemma WaitTellsExit(w: World, spawnAnswers: seq<ReadAnswer>, splittings: seq<seq<ReadAnswer>>)
    requires Completed(w) && Launched(w) && Delivers(spawnAnswers)
    ensures var child := Spawn(Frames(Events(w)), spawnAnswers);
      && child.Child? && child.pid == w.childPid
      && var (r, rest) := ExitFrom(child.events, splittings);
      && (r.Status? ==> r.code == WaitedFor(w.waits).value && 0 <= r.code <= 255 && rest == [])
      && (splittings != [] && Delivers(splittings[0]) ==> r.Status?)
  {
    SpawnTellsLaunch(w, spawnAnswers);
    var exit := Events(w)[1];
    assert Events(w)[1..] == [exit];
    var pipe := Frames([exit]);
    assert pipe == Frame(exit) + Frames([]);
    CodeInRange(w.waits);
    if splittings != [] {
      ReceiveFirst(exit, [], splittings[0]);
      if Delivers(splittings[0]) {
        DeliversAll(pipe, FRAME, splittings[0]);
      }
    }
  }
}
