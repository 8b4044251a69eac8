// Closing a session (session::close and close_runtime of native/src): the reader, the exit threads, the
// mode watcher and the writer of the other modules side by side, with the lock of the runtime slot,
// the callers that need it, and the one thread that closes.
module Shutdown {
  import opened Base
  import OutputFlow
  import OutputInvariant
  import OutputTheorems
  import Exit
  import ModeWatcher
  import Writer
  import WriteQueue

  datatype Setup = Setup(c: OutputFlow.Config, maxQueue: nat, interval: nat, modeEvents: bool)

  predicate ValidSetup(p: Setup) {
    OutputFlow.ValidConfig(p.c) && p.maxQueue < U64_MAX
  }

  datatype Thread = TheReader | TheWaiter | TheWatcher

  // The steps of `close` in their order. A join first takes the handle out of its slot and then waits.
  type Stage = n: nat | n <= 19

  const IDLE: Stage := 0
  const FLAGGING: Stage := 1        // raise the session flag
  const KILLING: Stage := 2         // look for a cached exit
  const SIGNALLING: Stage := 3
  const ACQUIRING: Stage := 4       // take the runtime lock
  const STOPPING: Stage := 5        // raise the stop flag
  const CLOSING_QUEUE: Stage := 6
  const WAKING_WRITER: Stage := 7
  const WAKING_READER: Stage := 8
  const TAKING_READER: Stage := 9
  const JOINING_READER: Stage := 10
  const TAKING_WAITER: Stage := 11
  const JOINING_WAITER: Stage := 12
  const TAKING_WATCHER: Stage := 13
  const JOINING_WATCHER: Stage := 14
  const TAKING_WRITER: Stage := 15
  const JOINING_WRITER: Stage := 16
  const EMPTYING: Stage := 17       // empty the slot and return, which frees the lock
  const JOINING_CHILD: Stage := 18
  const CLOSED: Stage := 19

  datatype State = State(
    o: OutputFlow.State,
    e: Exit.State,
    m: ModeWatcher.State,
    w: Writer.State,
    close: Stage,
    handles: set<Thread>,
    looked: nat)            // acks that found the runtime in its slot and have not been counted yet

  function Initial(p: Setup): State {
    State(OutputFlow.INITIAL_STATE, Exit.INITIAL, if p.modeEvents then ModeWatcher.INITIAL else ModeWatcher.ABSENT,
          Writer.INITIAL, IDLE, {TheReader, TheWaiter} + (if p.modeEvents then {TheWatcher} else {}), 0)
  }

  datatype Action =
    | ReaderStep(o: OutputFlow.Action)
    | IsolateStep(i: OutputFlow.Action)     // and finalizers, foreign acks, the clock
    | AckLook                               // `ack_output` under the lock
    | ExitStep(x: Exit.Action)
    | WatcherStep(m: ModeWatcher.Action)
    | WriterStep(w: Writer.Action)
    | CallerStep(w: Writer.Action)
    | CloseStep

  function IsolateNext(p: Setup, s: State, a: OutputFlow.Action): State {
    if OutputFlow.IsReaderAction(a) || a.SetStop? then s
    else if a.SendAck? || a.ForeignAck? then
      if s.looked == 0 then s else s.(o := OutputFlow.OtherNext(p.c, s.o, a), looked := s.looked - 1)
    else s.(o := OutputFlow.OtherNext(p.c, s.o, a))
  }

  function Goto(s: State, close: Stage): State {
    s.(close := close)
  }

  function Caller(p: Setup, s: State, a: Writer.Action): State {
    s.(w := Writer.CallerNext(p.maxQueue, s.w, a))
  }

  function Take(s: State, t: Thread, found: Stage, absent: Stage): State {
    if t in s.handles then Goto(s.(handles := s.handles - {t}), found) else Goto(s, absent)
  }

  // The one flag that the reader, the exit threads and the watcher all look at.
  function StopRaised(p: Setup, s: State): State {
    s.(o := OutputFlow.OtherNext(p.c, s.o, OutputFlow.SetStop),
       e := Exit.Next(s.e, Exit.SetStop),
       m := ModeWatcher.Next(s.m, p.interval, ModeWatcher.SetStop))
  }

  // Up to the runtime lock.
  function Begins(p: Setup, s: State): State {
    match s.close
    case IDLE => Goto(s, FLAGGING)
    case FLAGGING => Goto(s.(w := s.w.(sessionClosed := true)), KILLING)
    case KILLING =>
      Goto(s.(e := Exit.Next(s.e, Exit.BeginKill(CLOSER))), if s.e.result.Some? then ACQUIRING else SIGNALLING)
    case SIGNALLING => Goto(s.(e := Exit.Next(s.e, Exit.Signal(CLOSER))), ACQUIRING)
    case ACQUIRING =>
      if !s.w.rt.lock.Free? then s
      else Goto(s.(w := Writer.CloseBegun(s.w)), if s.w.rt.slot then STOPPING else JOINING_CHILD)
    case _ => s
  }

  // Telling everyone.
  function Stops(p: Setup, s: State): State {
    match s.close
    case STOPPING => Goto(StopRaised(p, s), CLOSING_QUEUE)
    case CLOSING_QUEUE => Goto(s.(w := Writer.QueueClosed(s.w)), WAKING_WRITER)
    case WAKING_WRITER => Goto(s.(w := Writer.Notified(s.w)), WAKING_READER)
    case WAKING_READER => Goto(s, TAKING_READER)
    case _ => s
  }

  // Waiting for everyone.
  function Joins(p: Setup, s: State): State {
    match s.close
    case TAKING_READER => Take(s, TheReader, JOINING_READER, TAKING_WAITER)
    case JOINING_READER => if s.o.r.pc.Done? then Goto(s, TAKING_WAITER) else s
    case TAKING_WAITER => Take(s, TheWaiter, JOINING_WAITER, TAKING_WATCHER)
    case JOINING_WAITER => if s.e.reporter.Reported? then Goto(s, TAKING_WATCHER) else s
    case TAKING_WATCHER => Take(s, TheWatcher, JOINING_WATCHER, TAKING_WRITER)
    case JOINING_WATCHER => if s.m.pc.Ended? then Goto(s, TAKING_WRITER) else s
    case _ => s
  }

  function Ends(p: Setup, s: State): State {
    match s.close
    case TAKING_WRITER => Goto(s.(w := Writer.HandleTaken(s.w)), JOINING_WRITER)
    case JOINING_WRITER => if Writer.Joinable(s.w) then Goto(s, EMPTYING) else s
    case EMPTYING => Goto(s.(w := Writer.SlotEmptied(s.w)), JOINING_CHILD)
    case JOINING_CHILD => if s.e.filler.Filled? then Goto(s, CLOSED) else s
    case _ => s
  }

  function Closes(p: Setup, s: State): State {
    if s.close <= ACQUIRING then Begins(p, s)
    else if s.close <= WAKING_READER then Stops(p, s)
    else if s.close <= JOINING_WATCHER then Joins(p, s)
    else Ends(p, s)
  }

  // The kill of `close` among those of other callers.
  const CLOSER: nat := 0

  predicate IsClosers(x: Exit.Action) {
    x.SetStop? || x == Exit.BeginKill(CLOSER) || x == Exit.Signal(CLOSER)
  }

  function Next(p: Setup, s: State, a: Action): State {
    match a
    case ReaderStep(o) => if OutputFlow.IsReaderAction(o) then s.(o := OutputFlow.ReaderNext(p.c, s.o, o)) else s
    case IsolateStep(i) => IsolateNext(p, s, i)
    case AckLook => if s.w.rt.lock.Free? && s.w.rt.slot then s.(looked := s.looked + 1) else s
    case ExitStep(x) => if IsClosers(x) then s else s.(e := Exit.Next(s.e, x))
    case WatcherStep(m) => if m.SetStop? then s else s.(m := ModeWatcher.Next(s.m, p.interval, m))
    case WriterStep(w) => if Writer.IsCallerAction(w) then s else s.(w := Writer.WriterNext(s.w, w))
    case CallerStep(w) => if Writer.IsCallerAction(w) && !Writer.IsCloseAction(w) then Caller(p, s, w) else s
    case CloseStep => Closes(p, s)
  }

  function Run(p: Setup, s: State, acts: seq<Action>): State {
    if acts == [] then s else Next(p, Run(p, s, acts[..|acts| - 1]), acts[|acts| - 1])
  }

  function Reach(p: Setup, acts: seq<Action>): State {
    Run(p, Initial(p), acts)
  }

  // ---------------------------------------------------------------- the invariant

  // The flags, the lock and the slot say how far `close` has got.
  predicate Synchronized(s: State) {
    && (s.o.stop <==> s.close > STOPPING)
    && (s.e.stop <==> s.close > STOPPING)
    && (s.m.stop <==> s.close > STOPPING)
    && (s.w.sessionClosed <==> s.close > FLAGGING)
    && (s.w.q.closed <==> s.close > CLOSING_QUEUE)
    && (s.w.rt.lock.Closer? <==> ACQUIRING < s.close <= EMPTYING)
    && (s.w.rt.slot <==> s.close <= EMPTYING)
    && (s.w.rt.taken <==> s.close > TAKING_WRITER)
  }

  // Whoever was to be joined has ended.
  predicate Joined(s: State) {
    && (s.close <= TAKING_READER ==> TheReader in s.handles)
    && (s.close <= TAKING_WAITER ==> TheWaiter in s.handles)
    && (s.close <= TAKING_WATCHER && TheWatcher !in s.handles ==> s.m.pc.Ended?)
    && (s.close > JOINING_READER ==> s.o.r.pc.Done?)
    && (s.close > JOINING_WAITER ==> s.e.reporter.Reported?)
    && (s.close > JOINING_WATCHER ==> s.m.pc.Ended?)
    && (s.close > JOINING_WRITER ==> Writer.Joinable(s.w))
  }

  predicate Ordered(s: State) {
    Synchronized(s) && Joined(s)
  }

  // Each part keeps its own invariant.
  predicate Parts(p: Setup, s: State) {
    && OutputInvariant.Inv(p.c, s.o)
    && Exit.Inv(s.e)
    && ModeWatcher.Inv(s.m)
    && Writer.Inv(p.maxQueue, s.w)
  }

  predicate Inv(p: Setup, s: State) {
    Parts(p, s) && Ordered(s)
  }

  lemma OutputKeepsParts(p: Setup, s: State, a: Action)
    requires ValidSetup(p) && Parts(p, s) && (a.ReaderStep? || a.IsolateStep?)
    ensures Parts(p, Next(p, s, a))
  {
    OutputInvariant.NextKeeps(p.c, s.o, if a.ReaderStep? then a.o else a.i);
  }

  lemma OtherKeepsParts(p: Setup, s: State, a: Action)
    requires ValidSetup(p) && Parts(p, s)
    requires a.AckLook? || a.ExitStep? || a.WatcherStep? || a.WriterStep? || a.CallerStep?
    ensures Parts(p, Next(p, s, a))
  {
    match a
    case AckLook =>
    case ExitStep(x) => Exit.NextKeeps(s.e, x);
    case WatcherStep(m) => ModeWatcher.NextKeeps(s.m, p.interval, m);
    case WriterStep(w) => if !Writer.IsCallerAction(w) { Writer.WriterKeeps(p.maxQueue, s.w, w); }
    case CallerStep(w) => if Writer.IsCallerAction(w) { Writer.CallerKeeps(p.maxQueue, s.w, w); }
  }

  lemma StoppingKeepsParts(p: Setup, s: State)
    requires ValidSetup(p) && Parts(p, s)
    ensures Parts(p, StopRaised(p, s))
  {
    OutputInvariant.OtherKeeps(p.c, s.o, OutputFlow.SetStop);
    Exit.NextKeeps(s.e, Exit.SetStop);
    ModeWatcher.NextKeeps(s.m, p.interval, ModeWatcher.SetStop);
  }

  lemma BeginsKeepsParts(p: Setup, s: State)
    requires ValidSetup(p) && Parts(p, s)
    ensures Parts(p, Begins(p, s))
  {
    match s.close
    case FLAGGING => Writer.CallerKeeps(p.maxQueue, s.w, Writer.CloseFlag);
    case KILLING => Exit.NextKeeps(s.e, Exit.BeginKill(CLOSER));
    case SIGNALLING => Exit.NextKeeps(s.e, Exit.Signal(CLOSER));
    case ACQUIRING => Writer.CallerKeeps(p.maxQueue, s.w, Writer.BeginClose);
    case _ =>
  }

  lemma StopsKeepsParts(p: Setup, s: State)
    requires ValidSetup(p) && Parts(p, s)
    ensures Parts(p, Stops(p, s))
  {
    match s.close
    case STOPPING => StoppingKeepsParts(p, s);
    case CLOSING_QUEUE => Writer.CallerKeeps(p.maxQueue, s.w, Writer.CloseQueue);
    case WAKING_WRITER => Writer.CallerKeeps(p.maxQueue, s.w, Writer.Notify);
    case _ =>
  }

  lemma EndsKeepsParts(p: Setup, s: State)
    requires ValidSetup(p) && Parts(p, s)
    ensures Parts(p, Ends(p, s))
  {
    match s.close
    case TAKING_WRITER => Writer.CallerKeeps(p.maxQueue, s.w, Writer.TakeHandle);
    case EMPTYING => Writer.CallerKeeps(p.maxQueue, s.w, Writer.EmptySlot);
    case _ =>
  }

  lemma JoinsKeepsParts(p: Setup, s: State)
    requires Parts(p, s)
    ensures Parts(p, Joins(p, s))
  {
    assert var t := Joins(p, s); t.o == s.o && t.e == s.e && t.m == s.m && t.w == s.w;
  }

  lemma CloseKeepsParts(p: Setup, s: State)
    requires ValidSetup(p) && Parts(p, s)
    ensures Parts(p, Closes(p, s))
  {
    if s.close <= ACQUIRING {
      BeginsKeepsParts(p, s);
    } else if s.close <= WAKING_READER {
      StopsKeepsParts(p, s);
    } else if s.close <= JOINING_WATCHER {
      JoinsKeepsParts(p, s);
    } else {
      EndsKeepsParts(p, s);
    }
  }

  lemma OutputKeepsOrder(p: Setup, s: State, a: Action)
    requires Ordered(s) && (a.ReaderStep? || a.IsolateStep?)
    ensures Ordered(Next(p, s, a))
  {
    match a
    case ReaderStep(o) => if OutputFlow.IsReaderAction(o) { ReaderFrame(p.c, s.o, o); }
    case IsolateStep(i) => if !OutputFlow.IsReaderAction(i) && !i.SetStop? { IsolateFrame(p.c, s.o, i); }
  }

  lemma ReaderFrame(c: OutputFlow.Config, o: OutputFlow.State, a: OutputFlow.Action)
    requires OutputFlow.IsReaderAction(a)
    ensures OutputFlow.ReaderNext(c, o, a).stop == o.stop
    ensures o.r.pc.Done? ==> OutputFlow.ReaderNext(c, o, a) == o
  {
  }

  lemma IsolateFrame(c: OutputFlow.Config, o: OutputFlow.State, a: OutputFlow.Action)
    requires !OutputFlow.IsReaderAction(a) && !a.SetStop?
    ensures var t := OutputFlow.OtherNext(c, o, a); t.stop == o.stop && t.r == o.r && t.msgs == o.msgs
  {
  }

  lemma OtherKeepsOrder(p: Setup, s: State, a: Action)
    requires Ordered(s) && (a.AckLook? || a.ExitStep? || a.WatcherStep? || a.WriterStep?)
    ensures Ordered(Next(p, s, a))
  {
    match a
    case AckLook =>
    case ExitStep(x) =>
    case WatcherStep(m) =>
    case WriterStep(w) =>
      if !Writer.IsCallerAction(w) {
        Writer.ThreadKeepsSlot(s.w, w);
        ExitedStays(s.w, w);
      }
  }

  lemma ExitedStays(s: Writer.State, w: Writer.Action)
    requires !Writer.IsCallerAction(w)
    ensures s.pc.Exited? ==> Writer.WriterNext(s, w) == s
  {
  }

  lemma CallerKeepsOrder(p: Setup, s: State, w: Writer.Action)
    requires Ordered(s) && Writer.Single(s.w)
    ensures Ordered(Next(p, s, CallerStep(w)))
  {
  }

  lemma BeginsKeepsOrder(p: Setup, s: State)
    requires Ordered(s) && s.close <= ACQUIRING
    ensures Ordered(Begins(p, s))
  {
    match s.close
    case KILLING =>
    case ACQUIRING =>
    case _ =>
  }

  lemma StopsKeepsOrder(p: Setup, s: State)
    requires Ordered(s)
    ensures Ordered(Stops(p, s))
  {
    match s.close
    case STOPPING =>
    case CLOSING_QUEUE =>
    case WAKING_WRITER =>
    case WAKING_READER =>
    case _ =>
  }

  lemma JoinsKeepsOrder(p: Setup, s: State)
    requires Ordered(s)
    ensures Ordered(Joins(p, s))
  {
    match s.close
    case TAKING_READER =>
    case JOINING_READER =>
    case TAKING_WAITER =>
    case JOINING_WAITER =>
    case TAKING_WATCHER =>
    case JOINING_WATCHER =>
    case _ =>
  }

  lemma EndsKeepsOrder(p: Setup, s: State)
    requires Ordered(s)
    ensures Ordered(Ends(p, s))
  {
    match s.close
    case TAKING_WRITER =>
    case JOINING_WRITER =>
    case EMPTYING =>
    case JOINING_CHILD =>
    case _ =>
  }

  lemma CloseKeepsOrder(p: Setup, s: State)
    requires Ordered(s)
    ensures Ordered(Closes(p, s))
  {
    if s.close <= ACQUIRING {
      BeginsKeepsOrder(p, s);
    } else if s.close <= WAKING_READER {
      StopsKeepsOrder(p, s);
    } else if s.close <= JOINING_WATCHER {
      JoinsKeepsOrder(p, s);
    } else {
      EndsKeepsOrder(p, s);
    }
  }

  lemma NextKeeps(p: Setup, s: State, a: Action)
    requires ValidSetup(p) && Inv(p, s)
    ensures Inv(p, Next(p, s, a))
  {
    match a {
      case ReaderStep(_) => OutputKeepsParts(p, s, a); OutputKeepsOrder(p, s, a);
      case IsolateStep(_) => OutputKeepsParts(p, s, a); OutputKeepsOrder(p, s, a);
      case CallerStep(w) => OtherKeepsParts(p, s, a); CallerKeepsOrder(p, s, w);
      case CloseStep => CloseKeepsParts(p, s); CloseKeepsOrder(p, s);
      case _ => OtherKeepsParts(p, s, a); OtherKeepsOrder(p, s, a);
    }
  }

  lemma {:induction false} RunKeeps(p: Setup, s: State, acts: seq<Action>)
    requires ValidSetup(p) && Inv(p, s)
    ensures Inv(p, Run(p, s, acts))
  {
    if acts != [] {
      var last := |acts| - 1;
      RunKeeps(p, s, acts[..last]);
      NextKeeps(p, Run(p, s, acts[..last]), acts[last]);
    }
  }

  lemma Reachable(p: Setup, acts: seq<Action>)
    requires ValidSetup(p)
    ensures Inv(p, Reach(p, acts))
  {
    OutputInvariant.Reachable(p.c, []);
    Writer.InitialHolds(p.maxQueue);
    RunKeeps(p, Initial(p), acts);
  }

  // ---------------------------------------------------------------- the runtime lock

  predicate IsThreadStep(a: Action) {
    a.ReaderStep? || a.ExitStep? || a.WatcherStep? || (a.WriterStep? && !Writer.IsCallerAction(a.w))
  }

  function WithRuntime(s: State, rt: Writer.Runtime): State {
    s.(w := s.w.(rt := rt))
  }

  // No thread that is joined ever waits for the runtime lock: whoever owns it, and whatever it
  // protects, each of their steps does the same, and none of them takes the lock or frees it.
  lemma ThreadsIgnoreTheLock(p: Setup, s: State, a: Action, rt: Writer.Runtime)
    requires IsThreadStep(a)
    ensures Next(p, WithRuntime(s, rt), a) == WithRuntime(Next(p, s, a), rt)
  {
    if a.WriterStep? {
      Writer.ThreadIgnoresTheLock(s.w, a.w, rt);
    }
  }

  lemma ShutOutStep(p: Setup, s: State, a: Action)
    requires s.close > ACQUIRING && (s.w.rt.lock.Closer? || (s.w.rt.lock.Free? && !s.w.rt.slot))
    ensures var t := Next(p, s, a); t.w.accepted == s.w.accepted && t.w.starts == s.w.starts && t.looked <= s.looked
  {
    match a
    case CallerStep(w) =>
      if Writer.IsCallerAction(w) && !Writer.IsCloseAction(w) { Writer.ShutCallersWait(p.maxQueue, s.w, w); }
    case WriterStep(w) => if !Writer.IsCallerAction(w) { Writer.ThreadKeepsSlot(s.w, w); }
    case _ =>
  }

  // From the moment `close` owns the lock, and for ever after, no caller gets in: nothing is queued,
  // no writer is started, and no ack finds the runtime.
  lemma {:induction false} CallersAreShutOut(p: Setup, acts: seq<Action>, more: seq<Action>)
    requires ValidSetup(p) && Reach(p, acts).close > ACQUIRING
    ensures var s := Reach(p, acts);
            var t := Run(p, s, more);
      && t.close > ACQUIRING
      && t.w.accepted == s.w.accepted && t.w.starts == s.w.starts <= 1 && t.looked <= s.looked
  {
    Reachable(p, acts);
    var s := Reach(p, acts);
    if more != [] {
      var last := |more| - 1;
      CallersAreShutOut(p, acts, more[..last]);
      RunKeeps(p, s, more[..last]);
      var t := Run(p, s, more[..last]);
      ShutOutStep(p, t, more[last]);
      CloseGoesOn(p, t, more[last]);
    }
  }

  lemma CloseGoesOn(p: Setup, s: State, a: Action)
    ensures Next(p, s, a).close >= s.close
  {
  }

  // An ack that finds the lock free and the runtime in its slot gets through, in two steps; one that
  // does not find them so has no effect.
  lemma AckGetsThrough(p: Setup, s: State)
    ensures s.w.rt.lock.Free? && s.w.rt.slot ==>
              var t := Next(p, Next(p, s, AckLook), IsolateStep(OutputFlow.SendAck));
              t.o == OutputFlow.OtherNext(p.c, s.o, OutputFlow.SendAck) && t.looked == s.looked
    ensures !s.w.rt.lock.Free? || !s.w.rt.slot ==> Next(p, s, AckLook) == s
    ensures s.looked == 0 ==> Next(p, s, IsolateStep(OutputFlow.SendAck)) == s
  {
  }

  // ---------------------------------------------------------------- the child is killed

  function Count(xs: seq<nat>, x: nat): nat {
    multiset(xs)[x]
  }

  // Where the kill of `close` stands: not begun, begun on a child whose exit is not known, or done, by
  // one signal or by one refusal on a known exit.
  predicate Killed(e: Exit.State, close: Stage) {
    var refused, signalled := Count(e.refusals, CLOSER), Count(e.signals, CLOSER);
    && (CLOSER in e.passed <==> close == SIGNALLING)
    && (close <= KILLING ==> refused == 0 && signalled == 0)
    && (close == SIGNALLING ==> refused == 0 && signalled == 0)
    && (close > SIGNALLING ==> refused + signalled == 1)
    && (refused == 1 ==> e.result.Some?)
  }

  lemma OthersKill(e: Exit.State, x: Exit.Action, close: Stage)
    requires Exit.Inv(e) && Killed(e, close) && !IsClosers(x)
    ensures Killed(Exit.Next(e, x), close)
  {
  }

  lemma CloserLooks(p: Setup, s: State)
    requires Killed(s.e, s.close) && s.close == KILLING
    ensures Killed(Begins(p, s).e, Begins(p, s).close)
  {
  }

  lemma CloserSignals(p: Setup, s: State)
    requires Killed(s.e, s.close) && s.close == SIGNALLING
    ensures Killed(Begins(p, s).e, Begins(p, s).close)
  {
  }

  predicate SameKills(e: Exit.State, f: Exit.State) {
    f.refusals == e.refusals && f.signals == e.signals && f.passed == e.passed && f.result == e.result
  }

  lemma CloserKillsElsewhere(p: Setup, s: State)
    requires s.close != KILLING && s.close != SIGNALLING
    ensures var t := Closes(p, s);
      SameKills(s.e, t.e) && (s.close < KILLING ==> t.close <= KILLING) && (s.close > SIGNALLING ==> t.close > SIGNALLING)
  {
    if s.close <= ACQUIRING {
      assert SameKills(s.e, Begins(p, s).e);
    } else if s.close <= WAKING_READER {
      assert SameKills(s.e, Stops(p, s).e);
    }
  }

  lemma CloserKills(p: Setup, s: State)
    requires Killed(s.e, s.close)
    ensures Killed(Closes(p, s).e, Closes(p, s).close)
  {
    if s.close == KILLING {
      CloserLooks(p, s);
    } else if s.close == SIGNALLING {
      CloserSignals(p, s);
    } else {
      CloserKillsElsewhere(p, s);
    }
  }

  lemma {:induction false} KillIsKept(p: Setup, acts: seq<Action>)
    requires ValidSetup(p)
    ensures Killed(Reach(p, acts).e, Reach(p, acts).close)
  {
    if acts != [] {
      var last := |acts| - 1;
      KillIsKept(p, acts[..last]);
      Reachable(p, acts[..last]);
      var s := Reach(p, acts[..last]);
      match acts[last] {
        case ExitStep(x) => if !IsClosers(x) { OthersKill(s.e, x, s.close); }
        case CloseStep => CloserKills(p, s);
        case _ => OthersLeaveExit(p, s, acts[last]);
      }
    }
  }

  lemma OthersLeaveExit(p: Setup, s: State, a: Action)
    requires !a.ExitStep? && !a.CloseStep?
    ensures Next(p, s, a).e == s.e && Next(p, s, a).close == s.close
  {
  }

  lemma RefusalStep(p: Setup, s: State, a: Action)
    requires s.close > KILLING
    ensures var t := Next(p, s, a); t.close > KILLING && Count(t.e.refusals, CLOSER) == Count(s.e.refusals, CLOSER)
  {
    match a
    case ExitStep(x) =>
    case CloseStep => if s.close != SIGNALLING { CloserKillsElsewhere(p, s); }
    case _ => OthersLeaveExit(p, s, a);
  }

  // Past its look, the kill of `close` is refused no more.
  lemma {:induction false} RefusalIsOver(p: Setup, s: State, acts: seq<Action>)
    requires s.close > KILLING
    ensures var t := Run(p, s, acts); t.close > KILLING && Count(t.e.refusals, CLOSER) == Count(s.e.refusals, CLOSER)
  {
    if acts != [] {
      RefusalIsOver(p, s, acts[..|acts| - 1]);
      RefusalStep(p, Run(p, s, acts[..|acts| - 1]), acts[|acts| - 1]);
    }
  }

  lemma RefusingStep(p: Setup, s: State, a: Action)
    requires Exit.Inv(s.e) && Killed(s.e, s.close) && s.e.result.Some?
    requires s.close <= KILLING || (s.close > SIGNALLING && Count(s.e.refusals, CLOSER) == 1)
    ensures var t := Next(p, s, a);
      t.e.result.Some? && (t.close <= KILLING || (t.close > SIGNALLING && Count(t.e.refusals, CLOSER) == 1))
  {
    match a {
      case ExitStep(x) =>
      case CloseStep => if s.close != KILLING { CloserKillsElsewhere(p, s); }
      case _ => OthersLeaveExit(p, s, a);
    }
  }

  // A close that begins its kill on a known exit is refused.
  lemma {:induction false} RefusalComes(p: Setup, acts: seq<Action>, more: seq<Action>)
    requires ValidSetup(p) && Reach(p, acts).close <= KILLING && Reach(p, acts).e.result.Some?
    ensures var t := Run(p, Reach(p, acts), more);
      t.e.result.Some? && (t.close <= KILLING || (t.close > SIGNALLING && Count(t.e.refusals, CLOSER) == 1))
  {
    if more != [] {
      var last := |more| - 1;
      RefusalComes(p, acts, more[..last]);
      RunAppend(p, Initial(p), acts, more[..last]);
      KillIsKept(p, acts + more[..last]);
      Reachable(p, acts + more[..last]);
      RefusingStep(p, Run(p, Reach(p, acts), more[..last]), more[last]);
    }
  }

  // Every close kills the child once: when it has passed its kill it has either sent exactly one signal
  // or been refused exactly once on a stored result, and it signals if and only if no result was stored
  // when it looked.
  lemma CloseKillsTheChild(p: Setup, acts: seq<Action>, more: seq<Action>)
    requires ValidSetup(p)
    ensures var s := Reach(p, acts);
            var t := Run(p, s, more);
            var refused, signalled := Count(t.e.refusals, CLOSER), Count(t.e.signals, CLOSER);
      && (t.close > SIGNALLING ==> (refused == 1 && signalled == 0 && t.e.result.Some?) || (refused == 0 && signalled == 1))
      && (s.close <= KILLING && s.e.result.Some? && t.close > SIGNALLING ==> refused == 1)
      && (s.close > KILLING && s.e.result.None? && t.close > SIGNALLING ==> signalled == 1)
  {
    RunAppend(p, Initial(p), acts, more);
    KillIsKept(p, acts + more);
    KillIsKept(p, acts);
    var s := Reach(p, acts);
    if s.close > KILLING {
      RefusalIsOver(p, s, more);
    } else if s.e.result.Some? {
      RefusalComes(p, acts, more);
    }
  }

  lemma {:induction false} RunAppend(p: Setup, s: State, xs: seq<Action>, ys: seq<Action>)
    ensures Run(p, s, xs + ys) == Run(p, Run(p, s, xs), ys)
  {
    if ys == [] {
      assert xs + ys == xs;
    } else {
      var last := |ys| - 1;
      RunAppend(p, s, xs, ys[..last]);
      assert (xs + ys)[..|xs| + last] == xs + ys[..last];
    }
  }

  // ---------------------------------------------------------------- the writer is woken

  lemma WokenStep(p: Setup, s: State, a: Action)
    requires Synchronized(s) && Writer.Waking(s.w) && (s.close > WAKING_WRITER ==> !s.w.pc.Sleeping?)
    ensures var t := Next(p, s, a); t.close > WAKING_WRITER ==> !t.w.pc.Sleeping?
  {
    if s.close > WAKING_WRITER {
      match a
      case WriterStep(w) => if !Writer.IsCallerAction(w) { ClosedWriterDoesNotSleep(p.maxQueue, s.w, w); }
      case CallerStep(w) => if Writer.IsCallerAction(w) { CallersPutNobodyToSleep(p.maxQueue, s.w, w); }
      case _ =>
    } else if a.CloseStep? {
      CloserWakes(p, s);
    } else {
      OthersLeaveClose(p, s, a);
    }
  }

  lemma OthersLeaveClose(p: Setup, s: State, a: Action)
    requires !a.CloseStep?
    ensures Next(p, s, a).close == s.close
  {
  }

  lemma CloserWakes(p: Setup, s: State)
    requires s.close <= WAKING_WRITER && Synchronized(s) && Writer.Waking(s.w)
    ensures Closes(p, s).close > WAKING_WRITER ==> !Closes(p, s).w.pc.Sleeping?
  {
  }

  lemma ClosedWriterDoesNotSleep(max: nat, w: Writer.State, a: Writer.Action)
    requires !Writer.IsCallerAction(a) && w.q.closed && !w.pc.Sleeping?
    ensures !Writer.WriterNext(w, a).pc.Sleeping?
  {
  }

  lemma CallersPutNobodyToSleep(max: nat, w: Writer.State, a: Writer.Action)
    requires Writer.IsCallerAction(a) && !w.pc.Sleeping?
    ensures !Writer.CallerNext(max, w, a).pc.Sleeping?
  {
  }

  // Once `close` has notified the writer it is not asleep, and never sleeps again.
  lemma {:induction false} WriterIsWoken(p: Setup, acts: seq<Action>)
    requires ValidSetup(p)
    ensures Reach(p, acts).close > WAKING_WRITER ==> !Reach(p, acts).w.pc.Sleeping?
  {
    if acts != [] {
      var last := |acts| - 1;
      WriterIsWoken(p, acts[..last]);
      Reachable(p, acts[..last]);
      WokenStep(p, Reach(p, acts[..last]), acts[last]);
    }
  }

  // ---------------------------------------------------------------- closing ends

  // An upper bound on the steps of the closer and of all the threads it joins, once everyone has been
  // told to stop.
  function Remaining(p: Setup, s: State): nat {
    (CLOSED - s.close)
    + OutputTheorems.Remaining(p.c, s.o.r)
    + Exit.Remaining(s.e)
    + ModeWatcher.Remaining(s.m)
    + Writer.Remaining(s.w.pc)
  }

  // Some joined thread or the closer itself got ahead.
  predicate Moved(s: State, t: State) {
    t.close != s.close || t.o.r != s.o.r || Exit.Moved(s.e, t.e) || t.m.pc != s.m.pc || t.w.pc != s.w.pc
  }

  lemma OutputDescends(p: Setup, s: State, a: Action)
    requires ValidSetup(p) && s.o.stop && (a.ReaderStep? || a.IsolateStep?)
    ensures var t := Next(p, s, a);
      Remaining(p, t) <= Remaining(p, s) && (Moved(s, t) ==> Remaining(p, t) < Remaining(p, s))
  {
    match a
    case ReaderStep(o) =>
      if OutputFlow.IsReaderAction(o) && OutputFlow.Next(p.c, s.o, o) != s.o {
        OutputTheorems.ReaderWindsDown(p.c, s.o, o);
      }
    case IsolateStep(i) =>
      if !OutputFlow.IsReaderAction(i) && !i.SetStop? { IsolateFrame(p.c, s.o, i); }
  }

  // A step that changes one of the other threads changes its summand alone.
  lemma ThreadDescends(p: Setup, s: State, t: State)
    requires t.close == s.close && t.o.r == s.o.r
    requires Exit.Remaining(t.e) <= Exit.Remaining(s.e)
    requires Exit.Moved(s.e, t.e) ==> Exit.Remaining(t.e) < Exit.Remaining(s.e)
    requires ModeWatcher.Remaining(t.m) <= ModeWatcher.Remaining(s.m)
    requires t.m.pc != s.m.pc ==> ModeWatcher.Remaining(t.m) < ModeWatcher.Remaining(s.m)
    requires t.w.pc != s.w.pc ==> Writer.Remaining(t.w.pc) < Writer.Remaining(s.w.pc)
    ensures Remaining(p, t) <= Remaining(p, s) && (Moved(s, t) ==> Remaining(p, t) < Remaining(p, s))
  {
  }

  lemma OtherDescends(p: Setup, s: State, a: Action)
    requires Exit.Inv(s.e) && s.m.stop && s.w.q.closed && WriteQueue.Valid(s.w.q, p.maxQueue) && Writer.Single(s.w)
    requires a.AckLook? || a.ExitStep? || a.WatcherStep? || a.WriterStep? || a.CallerStep?
    ensures var t := Next(p, s, a);
      Remaining(p, t) <= Remaining(p, s) && (Moved(s, t) ==> Remaining(p, t) < Remaining(p, s))
  {
    match a {
      case AckLook =>
      case ExitStep(x) => Exit.WindsDown(s.e, x);
      case WatcherStep(m) => ModeWatcher.WindsDown(s.m, p.interval, m);
      case WriterStep(w) => Writer.ClosedWriterDescends(p.maxQueue, s.w, w);
      case CallerStep(w) => Writer.ClosedWriterDescends(p.maxQueue, s.w, w);
    }
    ThreadDescends(p, s, Next(p, s, a));
  }

  lemma CloseDescends(p: Setup, s: State)
    requires s.close > CLOSING_QUEUE
    ensures var t := Closes(p, s);
      Remaining(p, t) <= Remaining(p, s) && (Moved(s, t) ==> Remaining(p, t) < Remaining(p, s))
  {
  }

  // What the bound needs to know about a session whose threads have been told to stop.
  predicate Told(p: Setup, s: State) {
    && s.close > CLOSING_QUEUE
    && s.o.stop && s.m.stop && s.w.q.closed
    && Exit.Inv(s.e)
    && WriteQueue.Valid(s.w.q, p.maxQueue) && Writer.Single(s.w)
  }

  lemma StepDescends(p: Setup, s: State, a: Action)
    requires ValidSetup(p) && Told(p, s)
    ensures var t := Next(p, s, a);
      Remaining(p, t) <= Remaining(p, s) && (Moved(s, t) ==> Remaining(p, t) < Remaining(p, s))
  {
    match a {
      case ReaderStep(_) => OutputDescends(p, s, a);
      case IsolateStep(_) => OutputDescends(p, s, a);
      case CloseStep => CloseDescends(p, s);
      case _ => OtherDescends(p, s, a);
    }
  }

  function Moves(p: Setup, s: State, acts: seq<Action>): nat {
    if acts == [] then 0
    else
      var last := |acts| - 1;
      var t := Run(p, s, acts[..last]);
      Moves(p, s, acts[..last]) + if Moved(t, Next(p, t, acts[last])) then 1 else 0
  }

  lemma {:induction false} MovesAreBounded(p: Setup, s: State, acts: seq<Action>)
    requires ValidSetup(p) && Inv(p, s) && s.close > CLOSING_QUEUE
    ensures Run(p, s, acts).close > CLOSING_QUEUE
    ensures Moves(p, s, acts) + Remaining(p, Run(p, s, acts)) <= Remaining(p, s)
  {
    if acts != [] {
      var last := |acts| - 1;
      MovesAreBounded(p, s, acts[..last]);
      RunKeeps(p, s, acts[..last]);
      StepDescends(p, Run(p, s, acts[..last]), acts[last]);
      CloseGoesOn(p, Run(p, s, acts[..last]), acts[last]);
    }
  }

  // What gets a close ahead whose system calls return: the closer, the thread it waits for, or the
  // caller that still owns the runtime lock.
  function Unblocked(s: State): Action {
    if s.close == ACQUIRING && s.w.rt.lock.Caller? then
      match s.w.rt.lock.step
      case Entered => CallerStep(Writer.EnsureStarted(false))
      case Ready => CallerStep(Writer.Enqueue([]))
      case Leaving => CallerStep(Writer.Leave)
    else if s.close == JOINING_READER && !s.o.r.pc.Done? then ReaderStep(OutputTheorems.Unblocked(s.o))
    else if s.close == JOINING_WAITER && !s.e.reporter.Reported? then ExitStep(Exit.Unblocked(s.e))
    else if s.close == JOINING_WATCHER && !s.m.pc.Ended? then WatcherStep(ModeWatcher.Unblocked(s.m))
    else if s.close == JOINING_WRITER && !Writer.Joinable(s.w) then
      if s.w.pc.Sleeping? then CallerStep(Writer.Notify) else WriterStep(Writer.Unblocked(s.w))
    else CloseStep
  }

  lemma ReaderIsNotStuck(p: Setup, s: State)
    requires ValidSetup(p) && s.o.stop && OutputInvariant.Shape(s.o) && OutputInvariant.Sizes(p.c, s.o)
    requires s.close == JOINING_READER && !s.o.r.pc.Done?
    ensures Remaining(p, Next(p, s, Unblocked(s))) < Remaining(p, s)
  {
    OutputTheorems.StoppedReaderMoves(p.c, s.o);
    OutputTheorems.ReaderWindsDown(p.c, s.o, OutputTheorems.Unblocked(s.o));
  }

  lemma WaiterIsNotStuck(p: Setup, s: State)
    requires Exit.Inv(s.e) && s.close == JOINING_WAITER && !s.e.reporter.Reported?
    ensures Remaining(p, Next(p, s, Unblocked(s))) < Remaining(p, s)
  {
    Exit.NeverStuck(s.e);
  }

  lemma WatcherIsNotStuck(p: Setup, s: State)
    requires s.m.stop && s.close == JOINING_WATCHER && !s.m.pc.Ended?
    ensures Remaining(p, Next(p, s, Unblocked(s))) < Remaining(p, s)
  {
    ModeWatcher.NeverStuck(s.m, p.interval);
  }

  lemma WriterIsNotStuck(p: Setup, s: State)
    requires Writer.Remaining(Writer.Next(p.maxQueue, s.w, Writer.Unblocked(s.w)).pc) < Writer.Remaining(s.w.pc)
    requires s.close == JOINING_WRITER && !Writer.Joinable(s.w)
    ensures Remaining(p, Next(p, s, Unblocked(s))) < Remaining(p, s)
  {
  }

  // The thread that `close` waits for has not ended.
  predicate MustWait(s: State) {
    || (s.close == JOINING_READER && !s.o.r.pc.Done?)
    || (s.close == JOINING_WAITER && !s.e.reporter.Reported?)
    || (s.close == JOINING_WATCHER && !s.m.pc.Ended?)
    || (s.close == JOINING_WRITER && !Writer.Joinable(s.w))
  }

  lemma CloserIsNotStuck(p: Setup, s: State)
    requires CLOSING_QUEUE < s.close < CLOSED && !MustWait(s) && (s.close == JOINING_CHILD ==> s.e.filler.Filled?)
    ensures Remaining(p, Next(p, s, Unblocked(s))) < Remaining(p, s)
  {
    assert Closes(p, s).close > s.close;
    CloseDescends(p, s);
  }

  lemma NeverStuck(p: Setup, s: State)
    requires ValidSetup(p) && Inv(p, s) && CLOSING_QUEUE < s.close < CLOSED
    ensures Remaining(p, Next(p, s, Unblocked(s))) < Remaining(p, s)
  {
    if !MustWait(s) {
      CloserIsNotStuck(p, s);
    } else if s.close == JOINING_READER {
      ReaderIsNotStuck(p, s);
    } else if s.close == JOINING_WAITER {
      WaiterIsNotStuck(p, s);
    } else if s.close == JOINING_WATCHER {
      WatcherIsNotStuck(p, s);
    } else {
      Writer.JoinedWriterDescends(p.maxQueue, s.w);
      WriterIsNotStuck(p, s);
    }
  }

  // Once everyone has been told, `close` and the threads it joins make a bounded number of moves
  // whatever the isolate, the callers and the clock do, and until it is done one of them has a move
  // to make that brings the end nearer.
  lemma CloseIsBounded(p: Setup, acts: seq<Action>, more: seq<Action>)
    requires ValidSetup(p) && Reach(p, acts).close > CLOSING_QUEUE
    ensures var s := Reach(p, acts);
            var t := Run(p, s, more);
      && Moves(p, s, more) + Remaining(p, t) <= Remaining(p, s)
      && (t.close < CLOSED ==> Remaining(p, Next(p, t, Unblocked(t))) < Remaining(p, t))
  {
    Reachable(p, acts);
    var s := Reach(p, acts);
    MovesAreBounded(p, s, more);
    RunKeeps(p, s, more);
    if Run(p, s, more).close < CLOSED {
      NeverStuck(p, Run(p, s, more));
    }
  }

  lemma RunCons(p: Setup, s: State, a: Action, acts: seq<Action>)
    ensures Run(p, s, [a] + acts) == Run(p, Next(p, s, a), acts)
  {
    if acts == [] {
      assert [a] + acts == [a] && [a][..0] == [];
      assert Run(p, s, [a]) == Next(p, Run(p, s, []), a);
    } else {
      var last := |acts| - 1;
      var all := [a] + acts;
      assert all[..|all| - 1] == [a] + acts[..last] && all[|all| - 1] == acts[last];
      RunCons(p, s, a, acts[..last]);
    }
  }

  // The closer's wait for the runtime lock, in steps of the caller that owns it.
  function LockWait(s: State): nat {
    match s.w.rt.lock
    case Free => 0
    case Closer => 0
    case Caller(step) =>
      match step
      case Entered => 3
      case Ready => 2
      case Leaving => 1
  }

  lemma CallerLeaves(p: Setup, s: State)
    requires s.close == ACQUIRING && s.w.rt.lock.Caller?
    ensures var t := Next(p, s, Unblocked(s)); t.close == ACQUIRING && LockWait(t) < LockWait(s)
  {
    match s.w.rt.lock.step
    case Entered =>
    case Ready =>
    case Leaving =>
  }

  lemma CloserBegins(p: Setup, s: State)
    requires Synchronized(s) && s.close <= CLOSING_QUEUE && (s.close == ACQUIRING ==> !s.w.rt.lock.Caller?)
    ensures Next(p, s, Unblocked(s)).close > s.close
  {
    if s.close <= ACQUIRING {
      assert Begins(p, s).close > s.close;
    } else {
      assert Stops(p, s).close > s.close;
    }
  }

  // From every state a session can be in, a close that no system call holds up reaches its end: first
  // the caller that owns the lock leaves, then everyone is told, then everyone ends.
  lemma {:induction false} Completion(p: Setup, s: State) returns (more: seq<Action>)
    requires ValidSetup(p) && Inv(p, s)
    ensures Run(p, s, more).close == CLOSED
    ensures s.close > CLOSING_QUEUE ==> |more| <= Remaining(p, s)
    decreases if s.close > CLOSING_QUEUE then 0 else 1 + CLOSING_QUEUE - s.close, LockWait(s), Remaining(p, s)
  {
    if s.close == CLOSED {
      more := [];
    } else {
      var a := Unblocked(s);
      NextKeeps(p, s, a);
      if s.close > CLOSING_QUEUE {
        StepDescends(p, s, a);
        CloseGoesOn(p, s, a);
        NeverStuck(p, s);
      } else if s.close == ACQUIRING && s.w.rt.lock.Caller? {
        CallerLeaves(p, s);
      } else {
        CloserBegins(p, s);
      }
      var rest := Completion(p, Next(p, s, a));
      RunCons(p, s, a, rest);
      more := [a] + rest;
    }
  }

  lemma CloseCanComplete(p: Setup, acts: seq<Action>)
    requires ValidSetup(p)
    ensures var s := Reach(p, acts);
      exists more :: Run(p, s, more).close == CLOSED && (s.close > CLOSING_QUEUE ==> |more| <= Remaining(p, s))
  {
    Reachable(p, acts);
    var more := Completion(p, Reach(p, acts));
  }

  // ---------------------------------------------------------------- after close

  // What the session has sent to its two ports and written to the terminal.
  predicate SameTraffic(s: State, t: State) {
    && t.o.msgs == s.o.msgs && t.o.h.errors == s.o.h.errors && t.o.h.closedPosts == s.o.h.closedPosts
    && t.e.events == s.e.events
    && t.m.posted == s.m.posted && t.m.errors == s.m.errors
    && t.w.reported == s.w.reported && t.w.written == s.w.written && t.w.accepted == s.w.accepted
  }

  // `close_runtime` has returned.
  predicate Returned(p: Setup, s: State) {
    && s.close > EMPTYING
    && s.o.r.pc.Done? && s.o.stop
    && s.e.reporter.Reported?
    && s.m.pc.Ended?
    && (s.w.pc.Exited? || s.w.pc.NotStarted?) && !s.w.rt.slot && s.w.rt.lock.Free?
  }

  lemma JoinedHaveReturned(p: Setup, s: State)
    requires Inv(p, s) && s.close > EMPTYING
    ensures Returned(p, s) && s.o.h.closedPosts == 1
  {
  }

  lemma QuietStep(p: Setup, s: State, a: Action)
    requires Returned(p, s)
    ensures Returned(p, Next(p, s, a)) && SameTraffic(s, Next(p, s, a))
  {
    match a
    case ReaderStep(o) => if OutputFlow.IsReaderAction(o) { ReaderFrame(p.c, s.o, o); }
    case IsolateStep(i) => if !OutputFlow.IsReaderAction(i) && !i.SetStop? { IsolateIsQuiet(p.c, s.o, i); }
    case WriterStep(w) => if !Writer.IsCallerAction(w) { ExitedStays(s.w, w); NotStartedStays(s.w, w); }
    case CallerStep(w) =>
      if Writer.IsCallerAction(w) && !Writer.IsCloseAction(w) {
        Writer.ShutCallersWait(p.maxQueue, s.w, w);
        ShutCallersAreQuiet(p.maxQueue, s.w, w);
      }
    case _ =>
  }

  lemma IsolateIsQuiet(c: OutputFlow.Config, o: OutputFlow.State, a: OutputFlow.Action)
    requires !OutputFlow.IsReaderAction(a) && !a.SetStop?
    ensures var t := OutputFlow.OtherNext(c, o, a);
      t.stop == o.stop && t.r == o.r && t.msgs == o.msgs && t.h.errors == o.h.errors && t.h.closedPosts == o.h.closedPosts
  {
  }

  lemma NotStartedStays(s: Writer.State, w: Writer.Action)
    requires !Writer.IsCallerAction(w)
    ensures s.pc.NotStarted? ==> Writer.WriterNext(s, w) == s
  {
  }

  lemma ShutCallersAreQuiet(max: nat, s: Writer.State, w: Writer.Action)
    requires Writer.IsCallerAction(w) && !Writer.IsCloseAction(w) && s.rt.lock.Free? && !s.rt.slot
    ensures var t := Writer.CallerNext(max, s, w); t.rt == s.rt && t.reported == s.reported && t.written == s.written
  {
  }

  lemma {:induction false} QuietRun(p: Setup, s: State, acts: seq<Action>)
    requires Returned(p, s)
    ensures Returned(p, Run(p, s, acts)) && SameTraffic(s, Run(p, s, acts))
  {
    if acts != [] {
      var last := |acts| - 1;
      QuietRun(p, s, acts[..last]);
      QuietStep(p, Run(p, s, acts[..last]), acts[last]);
    }
  }

  lemma OutputStepLeaves(p: Setup, s: State, a: Action)
    requires ValidSetup(p) && OutputInvariant.Shape(s.o) && s.o.stop
    ensures var t := Next(p, s, a);
      && t.o.stop
      && |OutputFlow.Payload(t.o.msgs)| + OutputTheorems.Left(p.c, t.o.r)
         <= |OutputFlow.Payload(s.o.msgs)| + OutputTheorems.Left(p.c, s.o.r)
  {
    match a
    case ReaderStep(o) =>
      if OutputFlow.IsReaderAction(o) { OutputTheorems.StepLeaves(p.c, s.o, o); ReaderFrame(p.c, s.o, o); }
    case IsolateStep(i) =>
      if !OutputFlow.IsReaderAction(i) && !i.SetStop? { IsolateFrame(p.c, s.o, i); }
    case _ =>
  }

  lemma {:induction false} OutputLeaves(p: Setup, s: State, acts: seq<Action>)
    requires ValidSetup(p) && Inv(p, s) && s.o.stop
    ensures var t := Run(p, s, acts);
      && t.o.stop
      && |OutputFlow.Payload(t.o.msgs)| + OutputTheorems.Left(p.c, t.o.r)
         <= |OutputFlow.Payload(s.o.msgs)| + OutputTheorems.Left(p.c, s.o.r)
  {
    if acts != [] {
      var last := |acts| - 1;
      OutputLeaves(p, s, acts[..last]);
      RunKeeps(p, s, acts[..last]);
      OutputStepLeaves(p, Run(p, s, acts[..last]), acts[last]);
    }
  }

  // Between the stop flag and the end little is still posted: OUTPUT bytes of one batch less a byte and
  // one read, in a single message if acks are required; one output error, one exit event, one mode
  // event or error and one write error.
  lemma LittleIsPostedAfterStop(p: Setup, acts: seq<Action>, more: seq<Action>)
    requires ValidSetup(p) && Reach(p, acts).o.stop
    ensures var s := Reach(p, acts);
            var t := Run(p, s, more);
      && |OutputFlow.Payload(t.o.msgs)| - |OutputFlow.Payload(s.o.msgs)| <= p.c.batchMax - 1 + p.c.readBufferSize
      && (p.c.requireAcks ==> t.o.h.postsAfterStop <= 1)
      && t.o.h.errors <= 1
      && t.m.postsAfterStop <= 1
      && |t.e.events| <= 1
      && |t.w.reported| <= 1 && t.w.writesAfterClose <= 1
  {
    Reachable(p, acts);
    RunKeeps(p, Reach(p, acts), more);
    OutputLeaves(p, Reach(p, acts), more);
  }

  // When `close_runtime` has returned, CLOSED was attempted, every thread has ended, the lock is free
  // and the slot empty; and from then on nothing is posted to either port, written to the terminal or
  // accepted for it, whatever anyone does.
  lemma ClosedIsQuiet(p: Setup, acts: seq<Action>, more: seq<Action>)
    requires ValidSetup(p) && Reach(p, acts).close > EMPTYING
    ensures var s := Reach(p, acts); Returned(p, s) && s.o.h.closedPosts == 1 && SameTraffic(s, Run(p, s, more))
  {
    Reachable(p, acts);
    JoinedHaveReturned(p, Reach(p, acts));
    QuietRun(p, Reach(p, acts), more);
  }
}
