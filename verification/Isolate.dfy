// The receiving isolate (lib/src/impl/session.dart): which OUTPUT messages reach the stream
// controller, and when their credit is given back to the native side.
module Isolate {
  import opened Base

  datatype Message = Output(payload: bytes) | Closed

  // What the stream controller reports through `hasListener` and `isPaused`.
  datatype Listener = NoListener | Listening | Paused | Cancelled

  datatype Receiver = Receiver(
    listener: Listener,
    outputDone: bool,
    outputCancelled: bool,
    closed: bool,
    pendingAcks: seq<nat>,
    added: seq<bytes>)  // every chunk handed to the stream controller

  datatype Change = Listen | Pause | Resume | Cancel

  const INITIAL := Receiver(NoListener, false, false, false, [], [])

  predicate CanAck(r: Receiver) {
    r.outputCancelled || r.listener == Listening
  }

  // Acks that reach the native side: none once the session is closed.
  function Sent(r: Receiver, acks: seq<nat>): seq<nat> {
    if r.closed then [] else acks
  }

  function Flushed(r: Receiver): (Receiver, seq<nat>) {
    if CanAck(r) then (r.(pendingAcks := []), Sent(r, r.pendingAcks)) else (r, [])
  }

  function Handled(r: Receiver, m: Message): (Receiver, seq<nat>) {
    if r.closed then (r, [])
    else match m
      case Closed => (r.(outputDone := true), [])
      case Output(payload) =>
        if r.outputDone then (r, [])
        else if r.outputCancelled then (r, [|payload|])
        else
          var shown := r.(added := r.added + [payload]);
          if CanAck(r) then (shown, [|payload|])
          else (shown.(pendingAcks := r.pendingAcks + [|payload|]), [])
  }

  predicate Possible(r: Receiver, change: Change) {
    match change
    case Listen => r.listener == NoListener
    case Pause => r.listener == Listening
    case Resume => r.listener == Paused
    case Cancel => r.listener == Listening || r.listener == Paused
  }

  // A transition of the listener, with the callback the session registered for it.
  function Changed(r: Receiver, change: Change): (Receiver, seq<nat>)
    requires Possible(r, change)
  {
    match change
    case Listen => Flushed(r.(listener := Listening))
    case Pause => (r.(listener := Paused), [])
    case Resume => Flushed(r.(listener := Listening))
    case Cancel => Flushed(r.(listener := Cancelled, outputCancelled := true))
  }

  // `close()`: the flag is raised before the native session is freed.
  function Shut(r: Receiver): Receiver {
    if r.closed then r else r.(closed := true, outputDone := true)
  }

  // The session object. `sent` is every call it makes to the native `ack_output`.
  class NativeSession {
    var listener: Listener
    var outputDone: bool
    var outputCancelled: bool
    var closed: bool
    var pendingAcks: seq<nat>
    var added: seq<bytes>
    var sent: seq<nat>

    function State(): Receiver
      reads this
    {
      Receiver(listener, outputDone, outputCancelled, closed, pendingAcks, added)
    }

    constructor ()
      ensures State() == INITIAL && sent == []
    {
      listener, outputDone, outputCancelled, closed := NoListener, false, false, false;
      pendingAcks, added, sent := [], [], [];
    }

    method Ack(byteCount: nat)
      modifies this`sent
      ensures sent == old(sent) + Sent(State(), [byteCount])
    {
      if closed {
        return;
      }
      sent := sent + [byteCount];
    }

    method FlushAcks()
      modifies this`sent, this`pendingAcks
      ensures State() == Flushed(old(State())).0
      ensures sent == old(sent) + Flushed(old(State())).1
    {
      if !CanAck(State()) {
        return;
      }
      for i := 0 to |pendingAcks|
        invariant pendingAcks == old(pendingAcks)
        invariant sent == old(sent) + Sent(State(), pendingAcks[..i])
      {
        Ack(pendingAcks[i]);
        assert pendingAcks[..i + 1] == pendingAcks[..i] + [pendingAcks[i]];
      }
      assert pendingAcks[..|pendingAcks|] == pendingAcks;
      pendingAcks := [];
    }

    method HandleOutput(m: Message)
      modifies this
      ensures State() == Handled(old(State()), m).0
      ensures sent == old(sent) + Handled(old(State()), m).1
    {
      if closed {
        return;
      }
      match m {
        case Closed => outputDone := true;
        case Output(payload) =>
          if outputDone {
            return;
          }
          if outputCancelled {
            Ack(|payload|);
            return;
          }
          added := added + [payload];
          if CanAck(State()) {
            Ack(|payload|);
          } else {
            pendingAcks := pendingAcks + [|payload|];
          }
      }
    }

    // The stream controller changes and runs the callback registered for the change.
    method ChangeListener(change: Change)
      requires Possible(State(), change)
      modifies this
      ensures State() == Changed(old(State()), change).0
      ensures sent == old(sent) + Changed(old(State()), change).1
    {
      match change {
        case Listen =>
          listener := Listening;
          FlushAcks();
        case Pause =>
          listener := Paused;
        case Resume =>
          listener := Listening;
          FlushAcks();
        case Cancel =>
          listener := Cancelled;
          outputCancelled := true;
          FlushAcks();
      }
    }

    method Close()
      modifies this
      ensures State() == Shut(old(State())) && sent == old(sent)
    {
      if closed {
        return;
      }
      closed := true;
      outputDone := true;
    }
  }

  // ---------------------------------------------------------------- a session on its own

  datatype Step = Take(m: Message) | Change(change: Change) | End

  // One callback, and the acks it sends; a listener change that is not possible does not happen.
  function Stepped(r: Receiver, step: Step): (Receiver, seq<nat>) {
    match step
    case Take(m) => Handled(r, m)
    case Change(change) => if Possible(r, change) then Changed(r, change) else (r, [])
    case End => (Shut(r), [])
  }

  // A session that is driven by the port and the application, and all it sends back.
  function Driven(steps: seq<Step>): (Receiver, seq<nat>) {
    if steps == [] then (INITIAL, [])
    else
      var (r, sent) := Driven(steps[..|steps| - 1]);
      var (t, acks) := Stepped(r, steps[|steps| - 1]);
      (t, sent + acks)
  }

  lemma DrivenSnoc(steps: seq<Step>, step: Step)
    ensures Driven(steps + [step]).0 == Stepped(Driven(steps).0, step).0
  {
    assert (steps + [step])[..|steps|] == steps;
  }

  // ---------------------------------------------------------------- what the steps mean

  // Where the listener is after these steps, by the rules of a stream subscription alone: it is listened
  // to once, pauses and resumes, and is cancelled for good.
  function ListenerAfter(steps: seq<Step>): Listener {
    if steps == [] then NoListener
    else
      var before := ListenerAfter(steps[..|steps| - 1]);
      match steps[|steps| - 1]
      case Change(Listen) => if before == NoListener then Listening else before
      case Change(Pause) => if before == Listening then Paused else before
      case Change(Resume) => if before == Paused then Listening else before
      case Change(Cancel) => if before == Listening || before == Paused then Cancelled else before
      case _ => before
  }

  predicate Cancels(steps: seq<Step>, i: int)
    requires 0 <= i < |steps|
  {
    steps[i] == Change(Cancel) && (ListenerAfter(steps[..i]) == Listening || ListenerAfter(steps[..i]) == Paused)
  }

  // Neither CLOSED nor a cancel nor the end of the session has come.
  predicate Open(steps: seq<Step>) {
    forall i :: 0 <= i < |steps| ==> steps[i] != Take(Closed) && steps[i] != End && !Cancels(steps, i)
  }

  // The payloads that came while all was open.
  function OpenPayloads(steps: seq<Step>): bytes {
    if steps == [] then []
    else
      var front := steps[..|steps| - 1];
      var step := steps[|steps| - 1];
      if step.Take? && step.m.Output? && Open(front) then OpenPayloads(front) + step.m.payload else OpenPayloads(front)
  }

  // The lengths of the chunks that came, while all was open, since the listener last stopped listening
  // or has never listened.
  function SincePause(steps: seq<Step>): seq<nat> {
    if steps == [] then []
    else
      var front := steps[..|steps| - 1];
      var step := steps[|steps| - 1];
      var listener := ListenerAfter(steps);
      if listener == Listening || listener == Cancelled then []
      else if step.Take? && step.m.Output? && Open(front) then SincePause(front) + [|step.m.payload|]
      else SincePause(front)
  }

  // The lengths of the chunks that came before CLOSED.
  function Taken(steps: seq<Step>): seq<nat> {
    if steps == [] then []
    else
      var front := steps[..|steps| - 1];
      var step := steps[|steps| - 1];
      Taken(front) + if step.Take? && step.m.Output? && Take(Closed) !in front then [|step.m.payload|] else []
  }

  lemma OpenFront(steps: seq<Step>)
    requires steps != []
    ensures var front := steps[..|steps| - 1];
      && (Open(steps) <==> Open(front) && steps[|steps| - 1] != Take(Closed) && steps[|steps| - 1] != End
                           && !Cancels(steps, |steps| - 1))
      && (forall i :: 0 <= i < |front| ==> (Cancels(steps, i) <==> Cancels(front, i)))
  {
    var front := steps[..|steps| - 1];
    assert forall i :: 0 <= i < |front| ==> front[..i] == steps[..i];
  }

  // The listener is the one that the last possible change names.
  lemma {:induction false} ListenerIsHeeded(steps: seq<Step>)
    ensures Driven(steps).0.listener == ListenerAfter(steps)
  {
    if steps != [] {
      ListenerIsHeeded(steps[..|steps| - 1]);
    }
  }

  // The output counts as cancelled exactly if a possible cancel came.
  lemma {:induction false} CancelIsHeeded(steps: seq<Step>)
    ensures Driven(steps).0.outputCancelled <==> exists i :: 0 <= i < |steps| && Cancels(steps, i)
  {
    if steps != [] {
      var last := |steps| - 1;
      CancelIsHeeded(steps[..last]);
      ListenerIsHeeded(steps[..last]);
      OpenFront(steps);
      var r := Driven(steps[..last]).0;
      if Driven(steps).0.outputCancelled && !r.outputCancelled {
        assert Cancels(steps, last);
      }
    }
  }

  // It is done exactly if CLOSED or the end of the session came.
  lemma {:induction false} EndIsHeeded(steps: seq<Step>)
    ensures var r := Driven(steps).0;
      (r.closed <==> End in steps) && (r.outputDone <==> Take(Closed) in steps || End in steps)
  {
    if steps != [] {
      var front := steps[..|steps| - 1];
      EndIsHeeded(front);
      assert steps == front + [steps[|steps| - 1]];
    }
  }

  lemma OpenIsHeeded(steps: seq<Step>)
    ensures Open(steps) <==> !Driven(steps).0.outputDone && !Driven(steps).0.outputCancelled
  {
    CancelIsHeeded(steps);
    EndIsHeeded(steps);
    if !Open(steps) {
      var i :| 0 <= i < |steps| && !(steps[i] != Take(Closed) && steps[i] != End && !Cancels(steps, i));
    }
  }

  // The application is shown exactly the payloads that came while all was open, in order.
  lemma {:induction false} ShownIsOpenPayloads(steps: seq<Step>)
    ensures Concat(Driven(steps).0.added) == OpenPayloads(steps)
  {
    if steps != [] {
      var front := steps[..|steps| - 1];
      var step := steps[|steps| - 1];
      ShownIsOpenPayloads(front);
      OpenIsHeeded(front);
      EndIsHeeded(front);
      if step.Take? && step.m.Output? {
        ConcatSnoc(Driven(front).0.added, step.m.payload);
      }
    }
  }

  // What is parked is exactly the chunks since the listener stopped listening.
  lemma {:induction false} ParkedIsSincePause(steps: seq<Step>)
    ensures Driven(steps).0.pendingAcks == SincePause(steps)
  {
    if steps != [] {
      var front := steps[..|steps| - 1];
      ParkedIsSincePause(front);
      ListenerIsHeeded(front);
      ListenerIsHeeded(steps);
      OpenIsHeeded(front);
      EndIsHeeded(front);
      CancelledForGood(front);
    }
  }

  lemma {:induction false} CancelledForGood(steps: seq<Step>)
    ensures Driven(steps).0.outputCancelled <==> ListenerAfter(steps) == Cancelled
    ensures CanAck(Driven(steps).0) ==> Driven(steps).0.pendingAcks == []
  {
    if steps != [] {
      CancelledForGood(steps[..|steps| - 1]);
      ListenerIsHeeded(steps[..|steps| - 1]);
    }
  }

  // Until the session ends, the credit of every chunk that came before CLOSED is sent back once, in
  // order and in one piece, but for what is parked.
  lemma {:induction false} AcksAnswerChunks(steps: seq<Step>)
    requires End !in steps
    ensures Driven(steps).1 + Driven(steps).0.pendingAcks == Taken(steps)
  {
    if steps != [] {
      var front := steps[..|steps| - 1];
      assert steps == front + [steps[|steps| - 1]];
      AcksAnswerChunks(front);
      EndIsHeeded(front);
      CancelledForGood(front);
    }
  }

  // A closed session acknowledges nothing and shows nothing any more.
  lemma {:induction false} ClosedSessionIsSilent(steps: seq<Step>, more: seq<Step>)
    requires End in steps
    ensures Driven(steps).0.closed && Driven(steps + more).0.closed
    ensures Driven(steps + more).1 == Driven(steps).1 && Driven(steps + more).0.added == Driven(steps).0.added
  {
    EndCloses(steps);
    if more == [] {
      assert steps + more == steps;
    } else {
      var last := |more| - 1;
      ClosedSessionIsSilent(steps, more[..last]);
      assert (steps + more)[..|steps| + last] == steps + more[..last];
    }
  }

  lemma {:induction false} EndCloses(steps: seq<Step>)
    requires End in steps
    ensures Driven(steps).0.closed
  {
    var last := |steps| - 1;
    if steps[last] != End {
      assert steps == steps[..last] + [steps[last]];
      EndCloses(steps[..last]);
    }
  }
}
