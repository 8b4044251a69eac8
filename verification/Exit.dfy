// Exit observation (native/src/process.rs and wait_loop of runtime.rs): the cell that holds the exit
// result, the thread that fills it, the thread that reports it, and signalling.
module Exit {
  import opened Base

  datatype Outcome = Exited(code: int) | Unobserved(message: string)

  // The exit cell.
  class WaitState {
    var result: Option<Outcome>

    constructor ()
      ensures result == None
    {
      result := None;
    }

    method Complete(next: Outcome)
      modifies this
      ensures old(result).Some? ==> result == old(result)
      ensures old(result).None? ==> result == Some(next)
      ensures result == Stored(old(result), next)
    {
      if result.None? {
        result := Some(next);
      }
    }

    // `wait`: each turn looks at the cell under its lock and otherwise sleeps; `meanwhile[i]` is what
    // someone stores during sleep i, or nothing if it ends for no reason. None if the sleeps are over.
    // Whoever waits gets the first outcome ever stored, and so does everyone who looks later.
    method Wait(meanwhile: seq<Option<Outcome>>) returns (r: Option<Outcome>)
      modifies this
      ensures result == r
      ensures old(result).Some? ==> r == old(result)
      ensures old(result).None? && r.Some? ==>
                exists i :: 0 <= i < |meanwhile| && meanwhile[i] == r && forall j :: 0 <= j < i ==> meanwhile[j] == None
      ensures r.None? ==> forall i :: 0 <= i < |meanwhile| ==> meanwhile[i] == None
    {
      var turn := 0;
      while turn < |meanwhile| && result.None?
        invariant turn <= |meanwhile|
        invariant result.None? ==> forall i :: 0 <= i < turn ==> meanwhile[i] == None
        invariant old(result).Some? ==> result == old(result)
        invariant old(result).None? && result.Some? ==>
                    turn > 0 && meanwhile[turn - 1] == result && forall j :: 0 <= j < turn - 1 ==> meanwhile[j] == None
      {
        if meanwhile[turn].Some? {
          Complete(meanwhile[turn].value);
        }
        turn := turn + 1;
      }
      r := result;
    }
  }

  function Stored(result: Option<Outcome>, next: Outcome): Option<Outcome> {
    if result.None? then Some(next) else result
  }

  // ---------------------------------------------------------------- threads around the cell

  datatype Filler = Waiting | Storing(outcome: Outcome) | Filled

  // `wait_loop` looks at the stop flag first and posts afterwards.
  datatype Reporter = Testing | Sleeping | Woken(outcome: Outcome) | Posting(outcome: Outcome) | Reported

  datatype State = State(
    result: Option<Outcome>,
    filler: Filler,
    reporter: Reporter,
    stop: bool,
    passed: set<nat>,           // whose kills found no result and have not signalled yet
    // history
    events: seq<Outcome>,
    answers: seq<Outcome>,      // what `wait` returned, to anyone
    refusals: seq<nat>,         // whose kills returned false without a system call
    signals: seq<nat>,          // whose kills signalled
    lateSignals: nat)           // signals sent after the result was stored

  const INITIAL := State(None, Waiting, Testing, false, {}, [], [], [], [], 0)

  datatype Action =
    | ChildEnds(outcome: Outcome)
    | Store
    | Test
    | SpuriousWake
    | Look
    | Post
    | AnyoneWaits
    | BeginKill(who: nat)
    | Signal(who: nat)
    | SetStop

  function Next(s: State, a: Action): State {
    match a
    case ChildEnds(outcome) => if s.filler.Waiting? then s.(filler := Storing(outcome)) else s
    case Store =>
      if s.filler.Storing?
      then s.(result := Stored(s.result, s.filler.outcome), filler := Filled,
              reporter := if s.reporter.Sleeping? then Testing else s.reporter)
      else s
    case Test =>
      if !s.reporter.Testing? then s
      else if s.result.None? then s.(reporter := Sleeping)
      else s.(reporter := Woken(s.result.value), answers := s.answers + [s.result.value])
    case SpuriousWake => if s.reporter.Sleeping? then s.(reporter := Testing) else s
    case Look =>
      if s.reporter.Woken? then s.(reporter := if s.stop then Reported else Posting(s.reporter.outcome)) else s
    case Post =>
      if s.reporter.Posting? then s.(reporter := Reported, events := s.events + [s.reporter.outcome]) else s
    case AnyoneWaits => if s.result.Some? then s.(answers := s.answers + [s.result.value]) else s
    case BeginKill(who) =>
      if who in s.passed then s
      else if s.result.Some? then s.(refusals := s.refusals + [who])
      else s.(passed := s.passed + {who})
    case Signal(who) =>
      if who !in s.passed then s
      else s.(passed := s.passed - {who}, signals := s.signals + [who],
              lateSignals := s.lateSignals + if s.result.Some? then 1 else 0)
    case SetStop => s.(stop := true)
  }

  function Run(s: State, acts: seq<Action>): State {
    if acts == [] then s else Next(Run(s, acts[..|acts| - 1]), acts[|acts| - 1])
  }

  predicate Inv(s: State) {
    && (s.filler.Filled? <==> s.result.Some?)
    && (forall o :: o in s.answers ==> s.result == Some(o))
    && (forall o :: o in s.events ==> s.result == Some(o))
    && |s.events| <= 1
    && (s.reporter.Woken? || s.reporter.Posting? ==> s.result == Some(s.reporter.outcome))
    && (!s.reporter.Reported? ==> s.events == [])
    && (s.reporter.Sleeping? ==> s.result.None?)
    && (s.reporter.Reported? ==> s.result.Some? && (s.stop || s.events != []))
    && (s.result.None? ==> s.lateSignals == 0 && s.refusals == [])
  }

  lemma NextKeeps(s: State, a: Action)
    requires Inv(s)
    ensures Inv(Next(s, a))
  {
  }

  lemma {:induction false} RunKeeps(s: State, acts: seq<Action>)
    requires Inv(s)
    ensures Inv(Run(s, acts))
  {
    if acts != [] {
      RunKeeps(s, acts[..|acts| - 1]);
      NextKeeps(Run(s, acts[..|acts| - 1]), acts[|acts| - 1]);
    }
  }

  // What no step changes once the result is stored.
  predicate Settled(s: State, t: State) {
    && t.result == s.result
    && t.passed <= s.passed
    && |t.passed| + t.lateSignals == |s.passed| + s.lateSignals
    && |t.signals| - |s.signals| == t.lateSignals - s.lateSignals
  }

  lemma StepSettles(s: State, a: Action)
    requires Inv(s) && s.result.Some?
    ensures Settled(s, Next(s, a))
  {
  }

  lemma {:induction false} ResultStays(s: State, acts: seq<Action>)
    requires Inv(s) && s.result.Some?
    ensures Settled(s, Run(s, acts))
  {
    if acts != [] {
      var last := |acts| - 1;
      ResultStays(s, acts[..last]);
      RunKeeps(s, acts[..last]);
      StepSettles(Run(s, acts[..last]), acts[last]);
    }
  }

  // A kill begun on a stored result returns false and signals nothing, now or later.
  lemma {:induction false} LateKillsAreRefused(s: State, who: nat, acts: seq<Action>)
    requires Inv(s) && s.result.Some? && who !in s.passed
    ensures Next(s, BeginKill(who)) == s.(refusals := s.refusals + [who])
    ensures who !in Run(s, acts).passed
    ensures forall i :: |s.signals| <= i < |Run(s, acts).signals| ==> Run(s, acts).signals[i] != who
    ensures s.signals <= Run(s, acts).signals && Run(s, acts).result == s.result
  {
    if acts != [] {
      var last := |acts| - 1;
      LateKillsAreRefused(s, who, acts[..last]);
      RunKeeps(s, acts[..last]);
    }
  }

  // The result is written once and every answer and event is that result. The only signals still to
  // come then are those of kills that had already looked.
  lemma ExitIsWriteOnce(acts: seq<Action>, more: seq<Action>)
    ensures var s := Run(INITIAL, acts);
            var t := Run(s, more);
      && |t.events| <= 1
      && (s.result.Some? ==>
            && t.result == s.result
            && (forall o :: o in t.answers ==> o == s.result.value)
            && (forall o :: o in t.events ==> o == s.result.value)
            && |t.signals| - |s.signals| == t.lateSignals - s.lateSignals <= |s.passed|)
  {
    RunKeeps(INITIAL, acts);
    var s := Run(INITIAL, acts);
    RunKeeps(s, more);
    if s.result.Some? {
      ResultStays(s, more);
    }
  }

  // The outcome the child ended with first.
  function FirstEnd(acts: seq<Action>): Option<Outcome> {
    if acts == [] then None
    else if FirstEnd(acts[..|acts| - 1]).Some? then FirstEnd(acts[..|acts| - 1])
    else if acts[|acts| - 1].ChildEnds? then Some(acts[|acts| - 1].outcome)
    else None
  }

  // What is stored, answered and reported is what the child ended with, and nothing before it ended.
  lemma {:induction false} ResultIsTheChilds(acts: seq<Action>)
    ensures var s := Run(INITIAL, acts);
      && (s.filler.Waiting? <==> FirstEnd(acts).None?)
      && (s.filler.Storing? ==> FirstEnd(acts) == Some(s.filler.outcome) && s.result.None?)
      && (s.filler.Filled? ==> s.result == FirstEnd(acts))
      && (s.result.Some? ==> s.filler.Filled?)
  {
    if acts != [] {
      ResultIsTheChilds(acts[..|acts| - 1]);
    }
  }

  // Whoever waits is answered with the stored result, and not before it is stored; a reporter that is
  // woken for nothing looks again.
  lemma WaitersAreAnswered(s: State)
    ensures Next(s, AnyoneWaits).answers == s.answers + if s.result.Some? then [s.result.value] else []
    ensures s.reporter.Testing? ==>
              Next(s, Test).answers == s.answers + if s.result.Some? then [s.result.value] else []
    ensures s.reporter.Sleeping? ==> Next(s, SpuriousWake) == s.(reporter := Testing)
  {
  }

  // A kill that finds no result signals once, when it comes to it.
  lemma EarlyKillSignals(s: State, who: nat, acts: seq<Action>)
    requires s.result.None? && who !in s.passed
    requires forall i :: 0 <= i < |acts| ==> acts[i] != Signal(who)
    ensures var t := Run(Next(s, BeginKill(who)), acts);
      && who in t.passed
      && (forall i :: 0 <= i < |t.signals| && t.signals[i] == who ==> i < |s.signals|)
      && Next(t, Signal(who)).signals == t.signals + [who] && who !in Next(t, Signal(who)).passed
  {
    var s1 := Next(s, BeginKill(who));
    EarlyKillWaits(s1, who, acts);
  }

  lemma {:induction false} EarlyKillWaits(s: State, who: nat, acts: seq<Action>)
    requires who in s.passed
    requires forall i :: 0 <= i < |acts| ==> acts[i] != Signal(who)
    ensures var t := Run(s, acts);
      who in t.passed && |t.signals| >= |s.signals|
      && (forall i :: 0 <= i < |t.signals| && t.signals[i] == who ==> i < |s.signals|)
  {
    if acts != [] {
      EarlyKillWaits(s, who, acts[..|acts| - 1]);
    }
  }

  lemma RunOne(s: State, a: Action)
    ensures Run(s, [a]) == Next(s, a)
  {
    assert Run(s, [a][..0]) == s;
  }

  lemma RunFour(s: State, a: Action, b: Action, c: Action, d: Action)
    ensures Run(s, [a, b, c, d]) == Next(Next(Next(Next(s, a), b), c), d)
  {
    assert [a, b, c, d][..3] == [a, b, c] && [a, b, c][..2] == [a, b] && [a, b][..1] == [a];
    RunOne(s, a);
    assert Run(s, [a, b]) == Next(Next(s, a), b);
  }

  // Once the result is stored a signal can still be sent exactly while a kill has looked and not yet
  // signalled.
  lemma LateSignalIff(acts: seq<Action>)
    requires Run(INITIAL, acts).result.Some?
    ensures var s := Run(INITIAL, acts);
      (exists more :: Run(s, more).lateSignals > s.lateSignals) <==> s.passed != {}
  {
    var s := Run(INITIAL, acts);
    if s.passed != {} {
      var who :| who in s.passed;
      RunOne(s, Signal(who));
    }
    forall more | Run(s, more).lateSignals > s.lateSignals
      ensures s.passed != {}
    {
      ExitIsWriteOnce(acts, more);
    }
  }

  // The look at the cell and the signal are separate, so such a signal does happen.
  lemma SignalCanBeLate(o: Outcome)
    ensures exists acts :: Run(INITIAL, acts).lateSignals == 1
  {
    RunFour(INITIAL, BeginKill(0), ChildEnds(o), Store, Signal(0));
    assert Run(INITIAL, [BeginKill(0), ChildEnds(o), Store, Signal(0)]).lateSignals == 1;
  }

  // The reporter never sleeps through the result; once it is stored three of its steps finish it,
  // with an event exactly when its look at the stop flag finds it down.
  lemma ReporterFinishes(acts: seq<Action>)
    ensures var s := Run(INITIAL, acts);
            var t := Next(Next(Next(s, Test), Look), Post);
      s.result.Some? ==>
        && !s.reporter.Sleeping?
        && t.reporter.Reported?
        && (s.reporter.Testing? || s.reporter.Woken? ==> t.events == if s.stop then [] else [s.result.value])
        && (s.reporter.Posting? ==> t.events == [s.result.value])
        && (s.reporter.Reported? ==> t.events == s.events)
  {
    RunKeeps(INITIAL, acts);
  }

  lemma {:induction false} StopStays(s: State, acts: seq<Action>)
    requires s.stop && !s.reporter.Posting?
    ensures var t := Run(s, acts); t.stop && !t.reporter.Posting? && t.events == s.events
  {
    if acts != [] {
      StopStays(s, acts[..|acts| - 1]);
    }
  }

  // After stop an exit event can still come exactly if the reporter had looked at the flag before it
  // was raised and stands before its post; then it is one event at most, of the stored result.
  lemma EventAfterStopIff(acts: seq<Action>)
    requires Run(INITIAL, acts).stop
    ensures var s := Run(INITIAL, acts);
      && ((exists more :: Run(s, more).events != s.events) <==> s.reporter.Posting?)
      && (s.reporter.Posting? ==>
            s.result.Some? && forall more :: Run(s, more).events == [] || Run(s, more).events == [s.result.value])
  {
    var s := Run(INITIAL, acts);
    RunKeeps(INITIAL, acts);
    if s.reporter.Posting? {
      RunOne(s, Post);
      forall more
        ensures Run(s, more).events == [] || Run(s, more).events == [s.result.value]
      {
        RunKeeps(s, more);
        ResultStays(s, more);
        var events := Run(s, more).events;
        assert events != [] ==> events[0] in events && events == [events[0]];
      }
    } else {
      forall more
        ensures Run(s, more).events == s.events
      {
        StopStays(s, more);
      }
    }
  }

  // Such an event does come: the look and the post are separate.
  lemma EventCanFollowStop(o: Outcome)
    ensures exists acts, more :: Run(INITIAL, acts).stop && Run(INITIAL, acts).events == []
                                 && Run(Run(INITIAL, acts), more).events == [o]
  {
    RunFour(INITIAL, ChildEnds(o), Store, Test, Look);
    var acts := [ChildEnds(o), Store, Test, Look, SetStop];
    assert acts[..4] == [ChildEnds(o), Store, Test, Look];
    RunOne(Run(INITIAL, acts), Post);
    assert Run(Run(INITIAL, acts), [Post]).events == [o];
  }

  // ---------------------------------------------------------------- shutdown

  // An upper bound on the steps left to the two threads: a reporter that waits for the result is as
  // far from its end awake as asleep.
  function Remaining(s: State): nat {
    (match s.filler
     case Waiting => 2
     case Storing(_) => 1
     case Filled => 0)
    +
    (match s.reporter
     case Testing => 3
     case Sleeping => 3
     case Woken(_) => 2
     case Posting(_) => 1
     case Reported => 0)
  }

  // A step of one of the two threads that gets it closer to its end, rather than waking it for
  // nothing or sending it to sleep again.
  predicate Moved(s: State, t: State) {
    t.filler != s.filler || (t.reporter != s.reporter && s.result.Some?)
  }

  lemma WindsDown(s: State, a: Action)
    requires Inv(s)
    ensures Remaining(Next(s, a)) <= Remaining(s)
    ensures Moved(s, Next(s, a)) ==> Remaining(Next(s, a)) < Remaining(s)
  {
  }

  // What brings the reporter to its end once the child has gone.
  function Unblocked(s: State): Action {
    match s.filler
    case Waiting => ChildEnds(Exited(0))
    case Storing(_) => Store
    case Filled =>
      if s.reporter.Testing? then Test
      else if s.reporter.Woken? then Look
      else Post
  }

  lemma NeverStuck(s: State)
    requires Inv(s) && (!s.reporter.Reported? || !s.filler.Filled?)
    ensures Remaining(Next(s, Unblocked(s))) < Remaining(s)
  {
  }
}
