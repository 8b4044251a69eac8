// The limits the other modules rely on: what the C ABI makes of a caller's options
// (`runtime_config_from_options` in native/src/abi.rs), and the owned write buffers it hands over.
module Config {
  import opened Base
  import OutputFlow
  import WriteQueue

  const KIB: nat := 1024
  const MIB: nat := 1024 * 1024

  const DEFAULT_READ_BUFFER_SIZE: nat := 256 * KIB
  const DEFAULT_OUTPUT_BATCH_MAX_BYTES: nat := 128 * KIB
  const DEFAULT_OUTPUT_BATCH_DELAY_US: nat := 1_000
  const DEFAULT_MAX_INFLIGHT_BYTES: nat := 4 * MIB
  const DEFAULT_MAX_EXTERNAL_OUTPUT_BYTES: nat := 64 * MIB
  const DEFAULT_WRITE_QUEUE_MAX_BYTES: nat := 64 * MIB

  const MIN_OUTPUT_BATCH_DELAY_US: nat := 1
  const MAX_OUTPUT_BATCH_DELAY_US: nat := 1_000_000
  const MIN_READ_BUFFER_SIZE: nat := 4 * KIB
  const MAX_READ_BUFFER_SIZE: nat := MIB
  const MIN_OUTPUT_BATCH_MAX_BYTES: nat := 64 * KIB
  const MAX_OUTPUT_BATCH_MAX_BYTES: nat := 256 * KIB
  const MIN_WRITE_QUEUE_MAX_BYTES: nat := 64 * KIB
  const MAX_WRITE_QUEUE_MAX_BYTES: nat := 512 * MIB

  type u32 = v: nat | v < 0x1_0000_0000
  type u64 = v: nat | v <= U64_MAX

  datatype Options = Options(
    requireAcks: bool,
    externalTypedData: bool,
    readBufferSize: u32,
    outputBatchMaxBytes: u32,
    outputBatchMaxDelayUs: u32,
    maxInflightBytes: u64,
    maxExternalOutputBytes: u64,
    writeQueueMaxBytes: u64)

  function Default(value: nat, default: nat): nat {
    if value == 0 then default else value
  }

  function Clamp(value: nat, low: nat, high: nat): nat
    requires low <= high
  {
    Max(low, Min(value, high))
  }

  // `usizeMax` is the platform's; `fdReads` is whether the PTY backend offers a descriptor.
  function OutputConfig(o: Options, usizeMax: nat, fdReads: bool): OutputFlow.Config {
    OutputFlow.Config(
      o.requireAcks,
      Default(o.maxInflightBytes, DEFAULT_MAX_INFLIGHT_BYTES),
      Clamp(Default(o.readBufferSize, DEFAULT_READ_BUFFER_SIZE), MIN_READ_BUFFER_SIZE, MAX_READ_BUFFER_SIZE),
      Clamp(Default(o.outputBatchMaxBytes, DEFAULT_OUTPUT_BATCH_MAX_BYTES),
            MIN_OUTPUT_BATCH_MAX_BYTES, MAX_OUTPUT_BATCH_MAX_BYTES),
      Clamp(Default(o.outputBatchMaxDelayUs, DEFAULT_OUTPUT_BATCH_DELAY_US),
            MIN_OUTPUT_BATCH_DELAY_US, MAX_OUTPUT_BATCH_DELAY_US),
      o.externalTypedData,
      Default(o.maxExternalOutputBytes, DEFAULT_MAX_EXTERNAL_OUTPUT_BYTES),
      usizeMax,
      fdReads)
  }

  function WriteQueueMax(o: Options, usizeMax: nat): nat {
    Clamp(Min(Default(o.writeQueueMaxBytes, DEFAULT_WRITE_QUEUE_MAX_BYTES), usizeMax),
          MIN_WRITE_QUEUE_MAX_BYTES, MAX_WRITE_QUEUE_MAX_BYTES)
  }

  // Every option block yields limits under which the theorems of the other modules apply, on 32-bit
  // and 64-bit platforms; `max_inflight` alone is taken as given, so only it can make the counter
  // saturate, and it does so exactly within one batch of u64::MAX.
  lemma OptionsAreMadeSound(o: Options, usizeMax: nat, fdReads: bool)
    requires 0xFFFF_FFFF <= usizeMax <= U64_MAX
    ensures var c := OutputConfig(o, usizeMax, fdReads);
      && OutputFlow.ValidConfig(c)
      && 1 <= c.batchDelay <= 1_000_000
      && c.requireAcks == o.requireAcks && c.useExternal == o.externalTypedData
      && c.usizeMax == usizeMax && c.fdReads == fdReads
      && (o.maxInflightBytes != 0 ==> c.maxInflight == o.maxInflightBytes)
      && (o.maxExternalOutputBytes != 0 ==> c.maxExternal == o.maxExternalOutputBytes)
      && 4 * KIB <= c.readBufferSize && c.batchMax - 1 + c.readBufferSize < usizeMax
      && (c.maxInflight - 1 + c.batchMax > U64_MAX ==> o.maxInflightBytes > U64_MAX - 256 * KIB)
      && 64 * KIB <= WriteQueueMax(o, usizeMax) <= 512 * MIB < usizeMax
  {
  }

  // A value that lies within its limits is taken as it is, one beyond them is brought to the nearest, and
  // zero stands for the default.
  lemma OptionsAreHeeded(o: Options, usizeMax: nat, fdReads: bool)
    requires 0xFFFF_FFFF <= usizeMax <= U64_MAX
    ensures var c := OutputConfig(o, usizeMax, fdReads);
      && (4 * KIB <= o.readBufferSize <= MIB ==> c.readBufferSize == o.readBufferSize)
      && (64 * KIB <= o.outputBatchMaxBytes <= 256 * KIB ==> c.batchMax == o.outputBatchMaxBytes)
      && (1 <= o.outputBatchMaxDelayUs <= 1_000_000 ==> c.batchDelay == o.outputBatchMaxDelayUs)
      && (64 * KIB <= o.writeQueueMaxBytes <= 512 * MIB ==> WriteQueueMax(o, usizeMax) == o.writeQueueMaxBytes)
      && (0 < o.readBufferSize < 4 * KIB ==> c.readBufferSize == 4 * KIB)
      && (o.readBufferSize > MIB ==> c.readBufferSize == MIB)
      && (0 < o.outputBatchMaxBytes < 64 * KIB ==> c.batchMax == 64 * KIB)
      && (o.outputBatchMaxBytes > 256 * KIB ==> c.batchMax == 256 * KIB)
      && (o.outputBatchMaxDelayUs > 1_000_000 ==> c.batchDelay == 1_000_000)
      && (0 < o.writeQueueMaxBytes < 64 * KIB ==> WriteQueueMax(o, usizeMax) == 64 * KIB)
      && (o.writeQueueMaxBytes > 512 * MIB ==> WriteQueueMax(o, usizeMax) == 512 * MIB)
    ensures var c := OutputConfig(Options(o.requireAcks, o.externalTypedData, 0, 0, 0, 0, 0, 0), usizeMax, fdReads);
      && c.readBufferSize == 256 * KIB && c.batchMax == 128 * KIB && c.batchDelay == 1_000
      && c.maxInflight == 4 * MIB && c.maxExternal == 64 * MIB
    ensures WriteQueueMax(Options(o.requireAcks, o.externalTypedData, 0, 0, 0, 0, 0, 0), usizeMax) == 64 * MIB
  {
  }

  // ---------------------------------------------------------------- owned buffers

  const LENGTH_EXCEEDS_CAPACITY := WriteQueue.Error(WriteQueue.InvalidArgument, "write length exceeds buffer capacity")

  // What `write_owned` meets before it reaches the queue.
  datatype Session = Session(closed: bool, running: bool, writer: Option<WriteQueue.Error>)

  // The error of the first obstacle, if any.
  function Obstacle(s: Session): Option<WriteQueue.Error> {
    if s.closed then Some(WriteQueue.SESSION_CLOSED)
    else if !s.running then Some(WriteQueue.RUNTIME_CLOSED)
    else s.writer
  }

  // An owned write buffer: `released` says whether its owner is the native side.
  class OwnedBuffer {
    var contents: bytes
    var released: bool

    constructor (contents: bytes)
      ensures this.contents == contents && !released
    {
      this.contents, released := contents, false;
    }

    // `ptyx_write_owned`: the bytes move, they are never in two places or none. Either the buffer is
    // gone and its first `length` bytes are the last chunk of the queue, or the queue is as it was and
    // the caller owns the buffer again, cut to `length` if that was a length it could be cut to.
    method WriteOwned(length: nat, session: Session, queue: WriteQueue.WriteQueueShared)
      returns (refused: Option<WriteQueue.Error>)
      requires !released && WriteQueue.Valid(queue.State(), queue.maxBytes) && queue.maxBytes < U64_MAX
      modifies this, queue
      ensures WriteQueue.Valid(queue.State(), queue.maxBytes) && queue.closed == old(queue.closed)
      ensures refused.None? <==>
                && length <= |old(contents)|
                && !session.closed && session.running && session.writer.None?
                && (length == 0 ||
                    (old(queue.failure).None? && !old(queue.closed) && old(queue.queuedBytes) + length <= queue.maxBytes))
      ensures Concat(queue.chunks) + contents ==
              Concat(old(queue.chunks)) + (if length <= |old(contents)| then old(contents)[..length] else old(contents))
      ensures released <==> refused.None?
      ensures if released then contents == [] else queue.State() == old(queue.State())
      ensures length <= |old(contents)| && session.closed ==> refused == Some(WriteQueue.SESSION_CLOSED)
      ensures length <= |old(contents)| && !session.closed && !session.running ==>
                refused == Some(WriteQueue.RUNTIME_CLOSED)
      ensures length <= |old(contents)| && !session.closed && session.running && session.writer.Some? ==>
                refused == session.writer
      ensures 0 < length <= Min(|old(contents)|, queue.maxBytes) && Obstacle(session).None? && old(queue.failure).Some? ==>
                refused == old(queue.failure)
    {
      if length > |contents| {
        return Some(LENGTH_EXCEEDS_CAPACITY);
      }
      contents := contents[..length];
      var data := contents;
      contents := [];
      refused := Obstacle(session);
      if refused.None? {
        WriteQueue.EnqueueAppends(queue.State(), queue.maxBytes, data);
        var verdict := queue.EnqueueOwned(data);
        refused := WriteQueue.Refusal(verdict);
      }
      if refused.Some? {
        contents := data;
      } else {
        released := true;
      }
    }
  }
}
