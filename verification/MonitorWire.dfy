// The pipes of the Linux monitor (native/src/process_linux.rs): eight-byte messages on the event
// pipe and a four-byte error number on the exec pipe, moved by loops that survive partial transfers
// and interrupted calls.
module MonitorWire {
  import opened Base

  type i32 = v: int | -0x8000_0000 <= v < 0x8000_0000

  // ---------------------------------------------------------------- encoding

  function Unsigned(v: i32): nat {
    if v < 0 then v + 0x1_0000_0000 else v
  }

  function Signed(u: nat): i32
    requires u < 0x1_0000_0000
  {
    if u < 0x8000_0000 then u else u - 0x1_0000_0000
  }

  // i32::to_ne_bytes on a little-endian machine
  function I32Bytes(v: i32): (b: bytes)
    ensures |b| == 4
  {
    var u0 := Unsigned(v);
    var u1 := u0 / 256;
    var u2 := u1 / 256;
    [u0 % 256, u1 % 256, u2 % 256, u2 / 256]
  }

  function Assembled(b: bytes): (u: nat)
    requires |b| == 4
    ensures u < 0x1_0000_0000
  {
    b[0] as int + 256 * (b[1] as int + 256 * (b[2] as int + 256 * b[3] as int))
  }

  function BytesI32(b: bytes): i32
    requires |b| == 4
  {
    Signed(Assembled(b))
  }

  lemma I32RoundTrip(v: i32, b: bytes)
    requires |b| == 4
    ensures BytesI32(I32Bytes(v)) == v
    ensures I32Bytes(BytesI32(b)) == b
  {
    var w := Assembled(b);
    assert Unsigned(BytesI32(b)) == w;
    var w1 := w / 256;
    assert w1 == b[1] as int + 256 * (b[2] as int + 256 * b[3] as int);
    var w2 := w1 / 256;
    assert w2 == b[2] as int + 256 * b[3] as int;
  }

  datatype Message = Message(tag: byte, value: i32)

  const FRAME: nat := 8

  function Frame(m: Message): (b: bytes)
    ensures |b| == FRAME
  {
    [m.tag, 0, 0, 0] + I32Bytes(m.value)
  }

  function Unframe(b: bytes): Message
    requires |b| == FRAME
  {
    Message(b[0], BytesI32(b[4..]))
  }

  lemma FrameRoundTrip(m: Message)
    ensures Unframe(Frame(m)) == m
  {
    I32RoundTrip(m.value, I32Bytes(m.value));
    assert Frame(m)[4..] == I32Bytes(m.value);
  }

  function Frames(ms: seq<Message>): bytes {
    if ms == [] then [] else Frame(ms[0]) + Frames(ms[1..])
  }

  lemma FewFrames(a: Message, b: Message)
    ensures Frames([a]) == Frame(a)
    ensures Frames([a, b]) == Frame(a) + Frame(b)
  {
    assert Frames([a]) == Frame(a) + Frames([]);
    assert [a, b][1..] == [b];
    assert Frames([b]) == Frame(b) + Frames([]);
  }

  // ---------------------------------------------------------------- writing

  // What `write` answers: a count (clipped to what was offered), EINTR, or another error.
  datatype WriteAnswer = Wrote(count: nat) | WriteInterrupted | WriteFailed

  // The bytes of `data` in the pipe after these answers.
  function SentBy(len: nat, offset: nat, answers: seq<WriteAnswer>): (sent: nat)
    requires offset <= len
    ensures offset <= sent <= len
    decreases |answers|
  {
    if offset == len || answers == [] || answers[0].WriteFailed? then offset
    else if answers[0].Wrote? then SentBy(len, offset + Min(answers[0].count, len - offset), answers[1..])
    else SentBy(len, offset, answers[1..])
  }

  function Counts(answers: seq<WriteAnswer>): nat {
    if answers == [] then 0 else (if answers[0].Wrote? then answers[0].count else 0) + Counts(answers[1..])
  }

  // What is in the pipe is the sum of what the writes took, up to the whole, as long as none failed:
  // interruptions and empty writes neither add anything nor end the loop. A failing write ends it.
  lemma {:induction false} SentIsTheSum(len: nat, offset: nat, answers: seq<WriteAnswer>, rest: seq<WriteAnswer>)
    requires offset <= len && forall i :: 0 <= i < |answers| ==> !answers[i].WriteFailed?
    ensures SentBy(len, offset, answers) == Min(len, offset + Counts(answers))
    ensures SentBy(len, offset, answers + [WriteFailed] + rest) == SentBy(len, offset, answers)
    decreases |answers|
  {
    if answers == [] {
      assert answers + [WriteFailed] + rest == [WriteFailed] + rest;
    } else {
      var all := answers + [WriteFailed] + rest;
      assert all[0] == answers[0] && all[1..] == answers[1..] + [WriteFailed] + rest;
      if offset < len {
        var next := if answers[0].Wrote? then offset + Min(answers[0].count, len - offset) else offset;
        SentIsTheSum(len, next, answers[1..], rest);
      }
    }
  }

  // `write_all_raw`; `returned` is false while the last call has not answered.
  method WriteAll(data: bytes, answers: seq<WriteAnswer>) returns (sent: bytes, ok: bool, returned: bool)
    ensures |sent| == SentBy(|data|, 0, answers) && |sent| <= |data| && sent == data[..|sent|]
    ensures ok <==> sent == data
    ensures !returned ==> !ok
  {
    var offset: nat, k: nat := 0, 0;
    while offset < |data|
      invariant offset <= |data| && k <= |answers|
      invariant SentBy(|data|, offset, answers[k..]) == SentBy(|data|, 0, answers)
      decreases |answers| - k
    {
      if k == |answers| {
        return data[..offset], false, false;
      }
      var answer := answers[k];
      assert answers[k..][1..] == answers[k + 1..];
      k := k + 1;
      match answer {
        case WriteInterrupted => continue;
        case WriteFailed => return data[..offset], false, true;
        case Wrote(count) => offset := offset + Min(count, |data| - offset);
      }
    }
    sent, ok, returned := data[..offset], true, true;
  }

  // ---------------------------------------------------------------- reading

  // What `read` answers while the pipe has bytes or writers: a count (at least one, clipped to what
  // is there; none at the end of the stream), EINTR, or another error.
  datatype ReadAnswer = Got(count: nat) | ReadInterrupted | ReadFailed

  datatype ReadEnd = Full | Eof | Failed | Unfinished

  // A loop that fills `len` bytes from a pipe whose whole remaining stream is `pipe`.
  function ReadBy(pipe: bytes, len: nat, got: nat, answers: seq<ReadAnswer>): (r: (ReadEnd, nat))
    requires got <= Min(len, |pipe|)
    ensures got <= r.1 <= Min(len, |pipe|) && (r.0.Full? <==> r.1 == len)
    decreases |answers|
  {
    if got == len then (Full, got)
    else if answers == [] then (Unfinished, got)
    else if answers[0].ReadFailed? then (Failed, got)
    else if answers[0].ReadInterrupted? then ReadBy(pipe, len, got, answers[1..])
    else if got == |pipe| then (Eof, got)
    else ReadBy(pipe, len, got + Min(Max(answers[0].count, 1), Min(len, |pipe|) - got), answers[1..])
  }

  // Whatever the splitting, the loop fills the buffer exactly when the stream is long enough, and
  // reports the end of the stream exactly at its end.
  lemma {:induction false} ReadIsExact(pipe: bytes, len: nat, got: nat, answers: seq<ReadAnswer>)
    requires got <= Min(len, |pipe|)
    ensures var (end, taken) := ReadBy(pipe, len, got, answers);
      && (end.Eof? ==> taken == |pipe| < len)
      && (end.Failed? ==> exists i :: 0 <= i < |answers| && answers[i].ReadFailed?)
      && (end.Unfinished? ==> |answers| < len - got + Interruptions(answers))
    decreases |answers|
  {
    if got < len && answers != [] && !answers[0].ReadFailed? {
      if answers[0].ReadInterrupted? {
        ReadIsExact(pipe, len, got, answers[1..]);
      } else if got < |pipe| {
        ReadIsExact(pipe, len, got + Min(Max(answers[0].count, 1), Min(len, |pipe|) - got), answers[1..]);
      }
    }
  }

  // The bytes that these reads would take from an endless pipe.
  function Amounts(answers: seq<ReadAnswer>): nat {
    if answers == [] then 0 else (if answers[0].Got? then Max(answers[0].count, 1) else 0) + Amounts(answers[1..])
  }

  // What is taken is the sum of what the reads gave, up to the length asked for or the end of the
  // stream; interruptions take nothing and end nothing, and a failing call ends the loop there.
  lemma {:induction false} TakenIsTheSum(pipe: bytes, len: nat, got: nat, answers: seq<ReadAnswer>, rest: seq<ReadAnswer>)
    requires got <= Min(len, |pipe|) && forall i :: 0 <= i < |answers| ==> !answers[i].ReadFailed?
    ensures ReadBy(pipe, len, got, answers).1 == Min(Min(len, |pipe|), got + Amounts(answers))
    ensures var failed := ReadBy(pipe, len, got, answers + [ReadFailed] + rest);
      && failed.1 == ReadBy(pipe, len, got, answers).1
      && (ReadBy(pipe, len, got, answers).0.Unfinished? ==> failed.0.Failed?)
    decreases |answers|
  {
    if answers == [] {
      assert answers + [ReadFailed] + rest == [ReadFailed] + rest;
    } else {
      var all := answers + [ReadFailed] + rest;
      assert all[0] == answers[0] && all[1..] == answers[1..] + [ReadFailed] + rest;
      if got < len {
        if answers[0].ReadInterrupted? {
          TakenIsTheSum(pipe, len, got, answers[1..], rest);
        } else if got < |pipe| {
          TakenIsTheSum(pipe, len, got + Min(Max(answers[0].count, 1), Min(len, |pipe|) - got), answers[1..], rest);
        }
      }
    }
  }

  function Interruptions(answers: seq<ReadAnswer>): nat {
    if answers == [] then 0
    else (if answers[0].ReadInterrupted? then 1 else 0) + Interruptions(answers[1..])
  }

  // `read_exact_fd`, and the loop of `read_i32_or_eof_raw`.
  method ReadExact(pipe: bytes, buffer: array<byte>, answers: seq<ReadAnswer>) returns (end: ReadEnd, taken: nat)
    modifies buffer
    ensures (end, taken) == ReadBy(pipe, buffer.Length, 0, answers)
    ensures taken <= Min(buffer.Length, |pipe|) && buffer[..taken] == pipe[..taken]
    ensures buffer[taken..] == old(buffer[..])[taken..]
  {
    ReadIsExact(pipe, buffer.Length, 0, answers);
    taken := 0;
    var k := 0;
    while taken < buffer.Length
      invariant taken <= Min(buffer.Length, |pipe|) && k <= |answers|
      invariant ReadBy(pipe, buffer.Length, taken, answers[k..]) == ReadBy(pipe, buffer.Length, 0, answers)
      invariant buffer[..taken] == pipe[..taken]
      invariant buffer[taken..] == old(buffer[..])[taken..]
      decreases |answers| - k
    {
      if k == |answers| {
        return Unfinished, taken;
      }
      var answer := answers[k];
      assert answers[k..][1..] == answers[k + 1..];
      k := k + 1;
      if answer.ReadInterrupted? {
        continue;
      }
      if answer.ReadFailed? {
        return Failed, taken;
      }
      if taken == |pipe| {
        return Eof, taken;
      }
      var n := Min(Max(answer.count, 1), Min(buffer.Length, |pipe|) - taken);
      forall i | taken <= i < taken + n {
        buffer[i] := pipe[i];
      }
      taken := taken + n;
    }
    end := Full;
  }

  // ---------------------------------------------------------------- messages

  datatype Received = Ok(message: Message) | Closed | Error | Pending

  // `read_message` and what it leaves in the pipe.
  function Receive(pipe: bytes, answers: seq<ReadAnswer>): (Received, bytes) {
    ReadIsExact(pipe, FRAME, 0, answers);
    var (end, taken) := ReadBy(pipe, FRAME, 0, answers);
    match end
    case Full => (Ok(Unframe(pipe[..FRAME])), pipe[FRAME..])
    case Eof => (Closed, pipe[taken..])
    case Failed => (Error, pipe[taken..])
    case Unfinished => (Pending, pipe[taken..])
  }

  // Reading message after message, one splitting each, until a read does not deliver one.
  function ReceiveAll(pipe: bytes, splittings: seq<seq<ReadAnswer>>): (seq<Message>, Received)
    decreases |splittings|
  {
    if splittings == [] then ([], Pending)
    else
      var (r, rest) := Receive(pipe, splittings[0]);
      if r.Ok? then
        var (ms, end) := ReceiveAll(rest, splittings[1..]);
        ([r.message] + ms, end)
      else ([], r)
  }

  // However a read ends, the bytes it took are gone from the pipe and no others, and its outcome is told
  // apart from the others.
  lemma ReceiveTakesWhatItRead(pipe: bytes, answers: seq<ReadAnswer>)
    ensures var (r, rest) := Receive(pipe, answers);
            var (end, taken) := ReadBy(pipe, FRAME, 0, answers);
      && pipe == pipe[..taken] + rest && |rest| == |pipe| - taken
      && (r.Ok? <==> end.Full?) && (r.Closed? <==> end.Eof?) && (r.Error? <==> end.Failed?)
      && (r.Pending? <==> end.Unfinished?)
  {
    ReadIsExact(pipe, FRAME, 0, answers);
  }

  lemma ReceiveFirst(m: Message, more: bytes, answers: seq<ReadAnswer>)
    ensures var (r, rest) := Receive(Frame(m) + more, answers);
      && !r.Closed?
      && (r.Ok? ==> r.message == m && rest == more)
  {
    var pipe := Frame(m) + more;
    ReadIsExact(pipe, FRAME, 0, answers);
    FrameRoundTrip(m);
    assert pipe[..FRAME] == Frame(m) && pipe[FRAME..] == more;
  }

  // Every message sequence comes back exactly, for every splitting of every read; the end of the
  // stream shows only after the last one.
  lemma {:induction false} DecodesExactly(ms: seq<Message>, splittings: seq<seq<ReadAnswer>>)
    ensures var (got, end) := ReceiveAll(Frames(ms), splittings);
      && got <= ms
      && (end.Closed? ==> got == ms)
      && (end.Ok? ==> false)
      && (end.Pending? || end.Error? || end.Closed?)
      && (|splittings| > |ms| && (forall a :: a in splittings ==> Delivers(a)) ==> end.Closed?)
    decreases |splittings|
  {
    if splittings != [] {
      if ms == [] {
        ReadIsExact([], FRAME, 0, splittings[0]);
        if Delivers(splittings[0]) {
          DeliversAll([], FRAME, splittings[0]);
        }
      } else {
        ReceiveFirst(ms[0], Frames(ms[1..]), splittings[0]);
        DecodesExactly(ms[1..], splittings[1..]);
        assert ms == [ms[0]] + ms[1..];
        if Delivers(splittings[0]) {
          DeliversAll(Frames(ms), FRAME, splittings[0]);
        }
      }
    }
  }

  // Enough answers for one message, none of them an error.
  predicate Delivers(answers: seq<ReadAnswer>) {
    && (forall i :: 0 <= i < |answers| ==> !answers[i].ReadFailed?)
    && |answers| >= FRAME + Interruptions(answers)
  }

  lemma DeliversAll(pipe: bytes, len: nat, answers: seq<ReadAnswer>)
    requires Delivers(answers) && len <= FRAME
    ensures ReadBy(pipe, len, 0, answers).0 == if |pipe| >= len then Full else Eof
  {
    ReadIsExact(pipe, len, 0, answers);
  }

  // ---------------------------------------------------------------- the exec pipe

  datatype ExecReport = Started | NotStarted(errno: i32) | Garbled

  // `read_i32_or_eof_raw` on the stream the child left in the exec pipe before it closed it; None
  // while a read has not returned.
  function ExecReported(pipe: bytes, answers: seq<ReadAnswer>): Option<ExecReport> {
    var (end, taken) := ReadBy(pipe, 4, 0, answers);
    match end
    case Full => Some(NotStarted(BytesI32(pipe[..4])))
    case Eof => if taken == 0 then Some(Started) else Some(Garbled)
    case Failed => Some(Garbled)
    case Unfinished => None
  }

  method ReadI32OrEof(pipe: bytes, answers: seq<ReadAnswer>) returns (report: Option<ExecReport>)
    ensures report == ExecReported(pipe, answers)
  {
    var buffer := new byte[4](_ => 0);
    var end, taken := ReadExact(pipe, buffer, answers);
    match end {
      case Full =>
        assert buffer[..] == buffer[..4] == pipe[..4];
        report := Some(NotStarted(BytesI32(buffer[..])));
      case Eof => report := if taken == 0 then Some(Started) else Some(Garbled);
      case Failed => report := Some(Garbled);
      case Unfinished => report := None;
    }
  }

  // A failing read of the exec pipe is no clean end, whatever came before it, and a read that has not
  // returned tells nothing yet.
  lemma FailedExecReadIsGarbled(pipe: bytes, answers: seq<ReadAnswer>)
    ensures ReadBy(pipe, 4, 0, answers).0.Failed? ==> ExecReported(pipe, answers) == Some(Garbled)
    ensures ReadBy(pipe, 4, 0, answers).0.Unfinished? <==> ExecReported(pipe, answers) == None
    ensures ExecReported(pipe, answers) == Some(Started) ==> pipe == []
  {
    ReadIsExact(pipe, 4, 0, answers);
  }

  // The four bytes of an error number arrive whole, not at all, or cut, and the reader tells these
  // apart whatever its splitting: `cut` is how far the child got with them.
  lemma ExecPipeDistinguishes(errno: i32, cut: nat, answers: seq<ReadAnswer>)
    requires cut <= 4 && Delivers(answers)
    ensures ExecReported(I32Bytes(errno)[..cut], answers) ==
            Some(if cut == 4 then NotStarted(errno) else if cut == 0 then Started else Garbled)
  {
    var pipe := I32Bytes(errno)[..cut];
    DeliversAll(pipe, 4, answers);
    ReadIsExact(pipe, 4, 0, answers);
    I32RoundTrip(errno, I32Bytes(errno));
    if cut == 4 {
      assert pipe[..4] == I32Bytes(errno);
    }
  }
}
