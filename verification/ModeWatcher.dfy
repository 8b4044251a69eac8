// The terminal mode watcher (mode_loop and sleep_interruptibly of native/src/runtime.rs): the loop run
// to completion, and the thread interleaved with the clock and the stop flag.
module ModeWatcher {
  import opened Base

  datatype TermMode = TermMode(canonical: Option<bool>, echo: Option<bool>, signals: Option<bool>)

  // ---------------------------------------------------------------- the loop

  // One turn of `mode_loop`: the stop flag at its head, the snapshot, whether the event is taken.
  datatype ModeTurn = ModeTurn(stop: bool, snapshot: Option<TermMode>, taken: bool)

  // The values of a sequence where it differs from the one before.
  function Changes(modes: seq<TermMode>): seq<TermMode> {
    if modes == [] then []
    else
      var last := |modes| - 1;
      if last > 0 && modes[last] == modes[last - 1] then Changes(modes[..last]) else Changes(modes[..last]) + [modes[last]]
  }

  lemma {:induction false} ChangesDiffer(modes: seq<TermMode>)
    ensures var ch := Changes(modes);
      && (modes == [] <==> ch == [])
      && (modes != [] ==> ch[|ch| - 1] == modes[|modes| - 1])
      && forall i :: 0 < i < |ch| ==> ch[i] != ch[i - 1]
  {
    if modes != [] {
      ChangesDiffer(modes[..|modes| - 1]);
    }
  }

  lemma ChangesSnoc(modes: seq<TermMode>, mode: TermMode)
    ensures Changes(modes + [mode]) ==
            if modes != [] && modes[|modes| - 1] == mode then Changes(modes) else Changes(modes) + [mode]
  {
    assert (modes + [mode])[..|modes|] == modes;
  }

  datatype ModeEnd = Stopped | SnapshotFailed | PortClosed | Watching

  // The watcher posts exactly the changes of what it saw, up to a refused post, and looks at nothing
  // once it saw stop.
  method ModeLoop(turns: seq<ModeTurn>) returns (posted: seq<TermMode>, seen: seq<TermMode>, end: ModeEnd)
    ensures |seen| <= |turns|
    ensures forall i :: 0 <= i < |seen| ==> !turns[i].stop && turns[i].snapshot == Some(seen[i])
    ensures !end.PortClosed? ==> posted == Changes(seen)
    ensures end.PortClosed? ==> seen != [] && !turns[|seen| - 1].taken
                                && posted == Changes(seen[..|seen| - 1]) && Changes(seen) == posted + [seen[|seen| - 1]]
    ensures end.Stopped? ==> |seen| < |turns| && turns[|seen|].stop
    ensures end.SnapshotFailed? ==> |seen| < |turns| && !turns[|seen|].stop && turns[|seen|].snapshot.None?
    ensures end.Watching? ==> |seen| == |turns|
  {
    posted, seen := [], [];
    var lastMode: Option<TermMode> := None;
    for i := 0 to |turns|
      invariant |seen| == i
      invariant forall j :: 0 <= j < i ==> !turns[j].stop && turns[j].snapshot == Some(seen[j])
      invariant posted == Changes(seen)
      invariant lastMode == if seen == [] then None else Some(seen[i - 1])
    {
      if turns[i].stop {
        return posted, seen, Stopped;
      }
      match turns[i].snapshot {
        case None =>
          return posted, seen, SnapshotFailed;
        case Some(mode) =>
          ChangesSnoc(seen, mode);
          assert (seen + [mode])[..|seen|] == seen;
          seen := seen + [mode];
          if lastMode != Some(mode) {
            if !turns[i].taken {
              return posted, seen, PortClosed;
            }
            posted := posted + [mode];
            lastMode := Some(mode);
          }
      }
    }
    end := Watching;
  }

  // ---------------------------------------------------------------- the thread

  const SLEEP_STEP: nat := 10_000   // microseconds

  datatype Pc =
    | Head                       // about to look at the stop flag
    | Snapshot                   // asking the terminal
    | Posting(mode: TermMode)
    | Failing                    // about to post the error
    | Resting                    // about to compute the end of the pause
    | Checking(deadline: nat)    // about to look at the stop flag within the pause
    | Timing(deadline: nat)      // about to look at the clock
    | Napping(deadline: nat, until: nat)
    | Ended

  datatype State = State(
    pc: Pc,
    last: Option<TermMode>,
    stop: bool,
    now: nat,
    // history
    seen: seq<TermMode>,
    posted: seq<TermMode>,
    refused: bool,
    errors: nat,
    postsAfterStop: nat)         // modes and errors

  const INITIAL := State(Head, None, false, 0, [], [], false, 0, 0)

  // The state of a session without mode events, whose watcher is never started.
  const ABSENT := INITIAL.(pc := Ended)

  datatype Action =
    | Advance
    | SnapshotTaken(mode: TermMode)
    | SnapshotFails
    | Post(ok: bool)
    | Wake
    | Tick(micros: nat)
    | SetStop

  function Advanced(s: State, interval: nat): State {
    match s.pc
    case Head => s.(pc := if s.stop then Ended else Snapshot)
    case Failing => s.(pc := Ended, errors := s.errors + 1, postsAfterStop := s.postsAfterStop + if s.stop then 1 else 0)
    case Resting => s.(pc := Checking(s.now + interval))
    case Checking(deadline) => s.(pc := if s.stop then Head else Timing(deadline))
    case Timing(deadline) =>
      s.(pc := if s.now >= deadline then Head else Napping(deadline, s.now + Min(deadline - s.now, SLEEP_STEP)))
    case _ => s
  }

  function Seen(s: State, mode: TermMode): State {
    s.(pc := if s.last == Some(mode) then Resting else Posting(mode), seen := s.seen + [mode])
  }

  function Posted(s: State, mode: TermMode, ok: bool): State {
    if ok
    then s.(pc := Resting, last := Some(mode), posted := s.posted + [mode],
            postsAfterStop := s.postsAfterStop + if s.stop then 1 else 0)
    else s.(pc := Ended, refused := true)
  }

  function Next(s: State, interval: nat, a: Action): State {
    match a
    case Advance => Advanced(s, interval)
    case SnapshotTaken(mode) => if s.pc.Snapshot? then Seen(s, mode) else s
    case SnapshotFails => if s.pc.Snapshot? then s.(pc := Failing) else s
    case Post(ok) => if s.pc.Posting? then Posted(s, s.pc.mode, ok) else s
    case Wake => if s.pc.Napping? && s.now >= s.pc.until then s.(pc := Checking(s.pc.deadline)) else s
    case Tick(micros) => s.(now := s.now + micros)
    case SetStop => s.(stop := true)
  }

  function Run(s: State, interval: nat, acts: seq<Action>): State {
    if acts == [] then s else Next(Run(s, interval, acts[..|acts| - 1]), interval, acts[|acts| - 1])
  }

  // What was posted is the changes of what was seen, but for a mode about to be posted or refused.
  predicate Faithful(s: State) {
    && (!s.pc.Posting? && !s.refused ==>
          s.posted == Changes(s.seen) && s.last == if s.seen == [] then None else Some(s.seen[|s.seen| - 1]))
    && (s.pc.Posting? || s.refused ==> s.seen != [] && Changes(s.seen) == s.posted + [s.seen[|s.seen| - 1]])
    && (s.pc.Posting? ==> s.pc.mode == s.seen[|s.seen| - 1] && !s.refused)
    && (s.refused ==> s.pc.Ended?)
  }

  predicate Bounded(s: State) {
    && s.errors <= 1 && (s.errors > 0 ==> s.pc.Ended?)
    && (!s.stop ==> s.postsAfterStop == 0)
    && s.postsAfterStop + (if s.pc.Snapshot? || s.pc.Posting? || s.pc.Failing? then 1 else 0) <= 1
    && (s.pc.Napping? ==> s.pc.until <= s.now + SLEEP_STEP && s.pc.until <= s.pc.deadline)
  }

  predicate Inv(s: State) {
    Faithful(s) && Bounded(s)
  }

  lemma SeenKeeps(s: State, mode: TermMode)
    requires Faithful(s) && s.pc.Snapshot?
    ensures Faithful(Seen(s, mode))
  {
    ChangesSnoc(s.seen, mode);
  }

  lemma NextKeepsFaithful(s: State, interval: nat, a: Action)
    requires Faithful(s)
    ensures Faithful(Next(s, interval, a))
  {
    match a
    case SnapshotTaken(mode) => if s.pc.Snapshot? { SeenKeeps(s, mode); }
    case Advance =>
    case Post(ok) =>
    case _ =>
  }

  lemma NextKeepsBounded(s: State, interval: nat, a: Action)
    requires Bounded(s)
    ensures Bounded(Next(s, interval, a))
  {
  }

  lemma NextKeeps(s: State, interval: nat, a: Action)
    requires Inv(s)
    ensures Inv(Next(s, interval, a))
  {
    NextKeepsFaithful(s, interval, a);
    NextKeepsBounded(s, interval, a);
  }

  lemma {:induction false} RunKeeps(s: State, interval: nat, acts: seq<Action>)
    requires Inv(s)
    ensures Inv(Run(s, interval, acts))
  {
    if acts != [] {
      RunKeeps(s, interval, acts[..|acts| - 1]);
      NextKeeps(Run(s, interval, acts[..|acts| - 1]), interval, acts[|acts| - 1]);
    }
  }

  // Under every interleaving the events are the changes of what was seen, but for one about to be
  // posted or refused; after stop at most one more event goes out, and a nap that is under way ends
  // within ten milliseconds.
  lemma ModesAreFaithful(interval: nat, acts: seq<Action>)
    ensures var s := Run(INITIAL, interval, acts);
      && (if s.pc.Posting? || s.refused
          then s.seen != [] && Changes(s.seen) == s.posted + [s.seen[|s.seen| - 1]]
          else s.posted == Changes(s.seen))
      && s.errors <= 1
      && s.postsAfterStop <= 1
      && (s.pc.Napping? ==> s.pc.until <= s.now + SLEEP_STEP)
  {
    RunKeeps(INITIAL, interval, acts);
  }

  // The watcher pauses for `interval` from where `since` was the time: not less, unless stop cuts it
  // short, and no nap goes beyond its end.
  predicate Pausing(s: State, interval: nat, since: nat) {
    && s.now >= since
    && (s.stop || s.now >= since + interval || s.pc.Resting?
        || (s.pc.Checking? && s.pc.deadline >= since + interval)
        || (s.pc.Timing? && s.pc.deadline >= since + interval)
        || (s.pc.Napping? && s.pc.deadline >= since + interval))
    && (s.pc.Checking? || s.pc.Timing? || s.pc.Napping? ==> s.pc.deadline <= s.now + interval)
  }

  lemma {:induction false} PauseStands(s: State, interval: nat, acts: seq<Action>)
    requires s.pc.Resting?
    ensures Pausing(Run(s, interval, acts), interval, s.now)
  {
    if acts != [] {
      PauseStands(s, interval, acts[..|acts| - 1]);
    }
  }

  // Between two looks at the terminal at least the interval passes unless stop is raised, and a pause
  // never reaches further than the interval from now.
  lemma PauseLastsTheInterval(s: State, interval: nat, acts: seq<Action>)
    requires s.pc.Resting?
    ensures var t := Run(s, interval, acts);
      && (t.pc.Snapshot? ==> t.stop || t.now >= s.now + interval)
      && (t.pc.Checking? || t.pc.Timing? || t.pc.Napping? ==> t.pc.deadline <= t.now + interval)
  {
    PauseStands(s, interval, acts);
  }

  // A look at the clock ends the pause when its time has come, and otherwise starts a nap that ends at
  // most ten milliseconds later and not after the pause; a nap ends when its time has come.
  lemma PauseEnds(s: State, interval: nat)
    ensures s.pc.Timing? ==>
              var t := Next(s, interval, Advance);
              if s.now >= s.pc.deadline then t.pc.Head?
              else t.pc.Napping? && t.pc.deadline == s.pc.deadline
                   && t.pc.until == (if s.pc.deadline <= s.now + 10_000 then s.pc.deadline else s.now + 10_000)
    ensures s.pc.Napping? ==>
              Next(s, interval, Wake).pc == if s.now < s.pc.until then s.pc else Checking(s.pc.deadline)
    ensures s.pc.Checking? ==>
              Next(s, interval, Advance).pc == if s.stop then Head else Timing(s.pc.deadline)
  {
  }

  predicate AboutToPost(pc: Pc) {
    pc.Snapshot? || pc.Posting? || pc.Failing?
  }

  predicate SameEvents(s: State, t: State) {
    t.posted == s.posted && t.errors == s.errors
  }

  lemma {:induction false} StopSilences(s: State, interval: nat, acts: seq<Action>)
    requires s.stop && !AboutToPost(s.pc)
    ensures var t := Run(s, interval, acts); t.stop && !AboutToPost(t.pc) && SameEvents(s, t)
  {
    if acts != [] {
      StopSilences(s, interval, acts[..|acts| - 1]);
    }
  }

  // And then it is one event at most.
  lemma {:induction false} OneEventAfterStop(s: State, interval: nat, acts: seq<Action>)
    requires s.stop
    ensures var t := Run(s, interval, acts);
      t.stop
      && |t.posted| + t.errors + (if AboutToPost(t.pc) then 1 else 0)
         <= |s.posted| + s.errors + if AboutToPost(s.pc) then 1 else 0
  {
    if acts != [] {
      OneEventAfterStop(s, interval, acts[..|acts| - 1]);
    }
  }

  lemma RunTwo(s: State, interval: nat, a: Action, b: Action)
    ensures Run(s, interval, [a]) == Next(s, interval, a)
    ensures Run(s, interval, [a, b]) == Next(Next(s, interval, a), interval, b)
  {
    assert [a][..0] == [] && [a, b][..1] == [a];
    assert Run(s, interval, [a][..0]) == s;
  }

  // After stop a mode or an error can still come exactly if the watcher had passed its look at the
  // flag and not yet posted.
  lemma EventAfterStopIff(s: State, interval: nat)
    requires s.stop
    ensures (exists acts :: !SameEvents(s, Run(s, interval, acts))) <==> AboutToPost(s.pc)
  {
    RunTwo(s, interval, SnapshotFails, Advance);
    RunTwo(s, interval, Post(true), Wake);
    RunTwo(s, interval, Advance, Wake);
    if s.pc.Snapshot? {
      assert !SameEvents(s, Run(s, interval, [SnapshotFails, Advance]));
    } else if s.pc.Posting? {
      assert !SameEvents(s, Run(s, interval, [Post(true)]));
    } else if s.pc.Failing? {
      assert !SameEvents(s, Run(s, interval, [Advance]));
    } else {
      forall acts
        ensures SameEvents(s, Run(s, interval, acts))
      {
        StopSilences(s, interval, acts);
      }
    }
  }

  // ---------------------------------------------------------------- shutdown

  // An upper bound on the steps the watcher still takes once the stop flag is up; a nap that is not
  // over counts the passing of its time.
  function Remaining(s: State): (steps: nat)
    ensures steps <= 6
  {
    match s.pc
    case Head => 1
    case Snapshot => 6
    case Posting(_) => 5
    case Failing => 1
    case Resting => 4
    case Checking(_) => 2
    case Timing(_) => 5
    case Napping(_, until) => if s.now < until then 4 else 3
    case Ended => 0
  }

  lemma WindsDown(s: State, interval: nat, a: Action)
    requires s.stop
    ensures var t := Next(s, interval, a);
      t.stop && Remaining(t) <= Remaining(s) && (t.pc != s.pc ==> Remaining(t) < Remaining(s))
  {
  }

  // The step of a stopped watcher.
  function Unblocked(s: State): Action {
    match s.pc
    case Snapshot => SnapshotFails
    case Posting(_) => Post(false)
    case Napping(_, until) => if s.now < until then Tick(until - s.now) else Wake
    case _ => Advance
  }

  lemma NeverStuck(s: State, interval: nat)
    requires s.stop && !s.pc.Ended?
    ensures Remaining(Next(s, interval, Unblocked(s))) < Remaining(s)
  {
  }
}
