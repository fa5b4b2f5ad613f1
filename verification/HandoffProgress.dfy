/** The wait loop ends: deadlock freedom and termination under a fair scheduler. */
module HandoffProgress {
  import opened Marshalling
  import opened Handoff
  import opened HandoffRuns
  import opened HandoffHeap
  import Dispatch

  function ProducerWeight(p: Producer): nat {
    match p
    case Waiting => 0
    case Packed => 15
    case Ready => 14
    case Recorded => 13
    case Stored => 12
  }

  function ConsumerWeight(c: Consumer): nat {
    match c
    case Idle => 0
    case Cleared => 9
    case LoadedOnce(_) => 8
    case Taken(_, _) => 7
    case NameToFree(_) => 6
    case ArgsToFree(_) => 5
    case RecordToFree(_) => 4
    case Exited => 0
  }

  predicate Sane(reqs: seq<Callback>, s: State) {
    s.arrived <= |reqs| && (s.producer.Waiting? || s.arrived > 0)
  }

  /** The work left: requests to come and steps of the requests under way. */
  function Measure(reqs: seq<Callback>, s: State): nat
    requires s.arrived <= |reqs|
  {
    if s.fault then 0 else
      1 + 16 * (|reqs| - s.arrived) + ProducerWeight(s.producer) + (if s.pending then 11 else 0)
        + ConsumerWeight(s.consumer)
  }

  /** t has less work left than s. */
  predicate Lighter(reqs: seq<Callback>, t: State, s: State)
    requires s.arrived <= |reqs|
  {
    Sane(reqs, t) && Measure(reqs, t) < Measure(reqs, s)
  }

  lemma ProducerUsesWork(reqs: seq<Callback>, s: State)
    requires Sane(reqs, s) && !s.fault
    ensures DoPack(reqs, s) == s || Lighter(reqs, DoPack(reqs, s), s)
    ensures DoSpin(s) == s || Lighter(reqs, DoSpin(s), s)
    ensures DoNewRecord(reqs, s) == s || Lighter(reqs, DoNewRecord(reqs, s), s)
    ensures DoStore(s) == s || Lighter(reqs, DoStore(s), s)
    ensures forall x :: DoSend(s, x) == s || Lighter(reqs, DoSend(s, x), s)
  {
    hide Slots, RecordFor, ReceivedText;
  }

  lemma ClearUsesWork(reqs: seq<Callback>, s: State)
    requires Sane(reqs, s) && !s.fault
    ensures DoClear(s) == s || Lighter(reqs, DoClear(s), s)
  {
  }

  lemma Load1UsesWork(reqs: seq<Callback>, s: State)
    requires Sane(reqs, s) && !s.fault
    ensures DoLoad1(s) == s || Lighter(reqs, DoLoad1(s), s)
  {
  }

  lemma Load2UsesWork(reqs: seq<Callback>, s: State)
    requires Sane(reqs, s) && !s.fault
    ensures DoLoad2(s) == s || Lighter(reqs, DoLoad2(s), s)
  {
  }

  lemma CallUsesWork(reqs: seq<Callback>, s: State, fatal: bool)
    requires Sane(reqs, s) && !s.fault
    ensures DoCall(s, fatal) == s || Lighter(reqs, DoCall(s, fatal), s)
  {
    hide Unpack, Dispatch.Called;
  }

  lemma FreesUseWork(reqs: seq<Callback>, s: State)
    requires Sane(reqs, s) && !s.fault
    ensures DoFreeName(s) == s || Lighter(reqs, DoFreeName(s), s)
    ensures DoFreeArgs(s) == s || Lighter(reqs, DoFreeArgs(s), s)
    ensures DoFreeRecord(s) == s || Lighter(reqs, DoFreeRecord(s), s)
  {
  }

  lemma TakeUsesWork(reqs: seq<Callback>, s: State)
    requires Sane(reqs, s) && !s.fault
    ensures Step(reqs, s, Take) == s || Lighter(reqs, Step(reqs, s, Take), s)
  {
    if s.consumer.Idle? && s.pending {
      var t := DoClear(s);
      ClearUsesWork(reqs, s);
      Load1UsesWork(reqs, t);
      if !DoLoad1(t).fault {
        Load2UsesWork(reqs, DoLoad1(t));
      }
    }
  }

  /** A step that does anything uses up work; only turns of the wait loop, and actions
      that are not possible, do nothing. */
  lemma StepUsesWork(reqs: seq<Callback>, s: State, a: Action)
    requires Sane(reqs, s)
    ensures Sane(reqs, Step(reqs, s, a))
    ensures Step(reqs, s, a) == s || Measure(reqs, Step(reqs, s, a)) < Measure(reqs, s)
  {
    hide Step, Measure;
    StepLighter(reqs, s, a);
  }

  lemma StepLighter(reqs: seq<Callback>, s: State, a: Action)
    requires Sane(reqs, s)
    ensures Step(reqs, s, a) == s || Lighter(reqs, Step(reqs, s, a), s)
  {
    hide DoPack, DoSpin, DoNewRecord, DoStore, DoSend, DoCall, DoFreeName, DoFreeArgs, DoFreeRecord, Measure, Lighter;
    if !s.fault {
      ProducerUsesWork(reqs, s);
      ClearUsesWork(reqs, s);
      Load1UsesWork(reqs, s);
      Load2UsesWork(reqs, s);
      if a.Call? {
        CallUsesWork(reqs, s, a.fatal);
      }
      FreesUseWork(reqs, s);
      TakeUsesWork(reqs, s);
    }
  }

  /** An action that moves a state forward; `atomic` chooses Take for the clear. */
  function Helpful(s: State, atomic: bool): Action {
    match s.consumer
    case Cleared => Load1
    case LoadedOnce(_) => Load2
    case Taken(_, _) => Call(false)
    case NameToFree(_) => FreeName
    case ArgsToFree(_) => FreeArgs
    case RecordToFree(_) => FreeRecord
    case Idle | Exited =>
      if s.pending then (if atomic then Take else Clear) else
        match s.producer
        case Waiting => Pack
        case Packed => Spin
        case Ready => NewRecord
        case Recorded => Store
        case Stored => Send([])
  }

  /** No state is stuck before its end, whatever the environment chooses. */
  lemma NoDeadlock(reqs: seq<Callback>, s: State, a: Action, atomic: bool)
    requires Sane(reqs, s) && !Ended(reqs, s) && Kind(a) == Kind(Helpful(s, atomic))
    ensures Step(reqs, s, a) != s
  {
    hide Slots, RecordFor, ReceivedText, Unpack, Dispatch.Called;
    if s.consumer.Taken? {
      assert DoCall(s, a.fatal).fault || DoCall(s, a.fatal).consumer != s.consumer;
    }
  }

  /** In every reachable state that is not final some action other than a turn of the
      wait loop makes progress, and progress is bounded by the work left. */
  lemma NeverStuck(reqs: seq<Callback>, schedule: seq<Action>)
    requires !Ended(reqs, Run(reqs, schedule))
    ensures Run(reqs, schedule).arrived <= |reqs|
    ensures exists a: Action :: (
      && !a.Take?
      && Run(reqs, schedule + [a]) != Run(reqs, schedule)
      && Run(reqs, schedule + [a]).arrived <= |reqs|
      && Measure(reqs, Run(reqs, schedule + [a])) < Measure(reqs, Run(reqs, schedule)))
  {
    hide Step, Measure, Ended, Helpful;
    var s := Run(reqs, schedule);
    RunUsesWork(reqs, INITIAL, schedule);
    var a := Helpful(s, false);
    NoDeadlock(reqs, s, a, false);
    HelpfulIsFine(s);
    StepUsesWork(reqs, s, a);
    RunFromConcat(reqs, INITIAL, schedule, [a]);
    assert [a][1..] == [];
    assert Run(reqs, schedule + [a]) == Step(reqs, s, a);
  }

  lemma HelpfulIsFine(s: State)
    ensures !Helpful(s, false).Take?
  {
  }

  // ---- Fair schedules ----

  /** The actions of the fine model, or those of the model with an atomic take. */
  predicate Needed(a: Action, atomic: bool) { if atomic then IsAtomic(a) else !a.Take? }

  /** A stretch of a schedule in which every action gets a turn, in any order and any
      number of times. */
  ghost predicate Fair(round: seq<Action>, atomic: bool) {
    forall a: Action :: Needed(a, atomic) ==> HasTurn(round, a)
  }

  /** An action of this kind gets a turn; its environment may choose as it likes. */
  predicate HasTurn(round: seq<Action>, a: Action) {
    exists i :: 0 <= i < |round| && Kind(round[i]) == Kind(a)
  }

  function Flatten<T>(rounds: seq<seq<T>>): seq<T> {
    if rounds == [] then [] else rounds[0] + Flatten(rounds[1..])
  }

  lemma {:induction false} FlattenSnoc<T>(rounds: seq<seq<T>>, last: seq<T>)
    ensures Flatten(rounds + [last]) == Flatten(rounds) + last
  {
    if rounds == [] {
      assert Flatten([last][1..]) == [];
    } else {
      assert (rounds + [last])[1..] == rounds[1..] + [last];
      FlattenSnoc(rounds[1..], last);
    }
  }

  lemma {:induction false} RunFromConcat(reqs: seq<Callback>, s: State, x: seq<Action>, y: seq<Action>)
    ensures RunFrom(reqs, s, x + y) == RunFrom(reqs, RunFrom(reqs, s, x), y)
    decreases |x|
  {
    hide Step;
    if x == [] {
      assert x + y == y;
    } else {
      assert (x + y)[1..] == x[1..] + y;
      RunFromConcat(reqs, Step(reqs, s, x[0]), x[1..], y);
    }
  }

  lemma {:induction false} RunUsesWork(reqs: seq<Callback>, s: State, schedule: seq<Action>)
    requires Sane(reqs, s)
    ensures Sane(reqs, RunFrom(reqs, s, schedule))
    ensures Measure(reqs, RunFrom(reqs, s, schedule)) <= Measure(reqs, s)
    decreases |schedule|
  {
    hide Step, Sane;
    SaneArrived(reqs, s);
    if schedule != [] {
      StepUsesWork(reqs, s, schedule[0]);
      RunUsesWork(reqs, Step(reqs, s, schedule[0]), schedule[1..]);
    }
  }

  lemma SaneArrived(reqs: seq<Callback>, s: State)
    requires Sane(reqs, s)
    ensures s.arrived <= |reqs|
  {
  }

  /** A schedule in which a possible action gets a turn uses up work. */
  lemma {:induction false} TurnUsesWork(reqs: seq<Callback>, s: State, schedule: seq<Action>, a: Action)
    requires Sane(reqs, s) && a in schedule && Step(reqs, s, a) != s
    ensures Sane(reqs, RunFrom(reqs, s, schedule))
    ensures Measure(reqs, RunFrom(reqs, s, schedule)) < Measure(reqs, s)
    decreases |schedule|
  {
    hide Step, Sane;
    var t := Step(reqs, s, schedule[0]);
    SaneArrived(reqs, s);
    StepUsesWork(reqs, s, schedule[0]);
    if t == s {
      TurnUsesWork(reqs, s, schedule[1..], a);
    } else {
      RunUsesWork(reqs, t, schedule[1..]);
    }
  }

  ghost predicate Rounds(rounds: seq<seq<Action>>, atomic: bool) {
    forall i :: 0 <= i < |rounds| ==> Fair(rounds[i], atomic) && (atomic ==> Atomic(rounds[i]))
  }

  lemma {:induction false} FairRunFrom(reqs: seq<Callback>, s: State, rounds: seq<seq<Action>>, atomic: bool)
    requires Sane(reqs, s) && Rounds(rounds, atomic) && (atomic ==> Outside(s))
    requires |rounds| >= Measure(reqs, s)
    ensures Ended(reqs, RunFrom(reqs, s, Flatten(rounds)))
    decreases |rounds|
  {
    hide Step, Sane, Measure, Ended, Fair, Atomic, Outside;
    SaneArrived(reqs, s);
    if Ended(reqs, s) {
      EndedStays(reqs, s, Flatten(rounds));
    } else {
      NotDone(reqs, s);
      var t := RunFrom(reqs, s, rounds[0]);
      RoundUsesWork(reqs, s, rounds[0], atomic);
      RunFromConcat(reqs, s, rounds[0], Flatten(rounds[1..]));
      if atomic {
        AtomicRunFrom(reqs, s, rounds[0]);
      }
      FairRunFrom(reqs, t, rounds[1..], atomic);
    }
  }

  lemma NotDone(reqs: seq<Callback>, s: State)
    requires s.arrived <= |reqs| && !Ended(reqs, s)
    ensures Measure(reqs, s) > 0
  {
  }

  lemma RoundUsesWork(reqs: seq<Callback>, s: State, round: seq<Action>, atomic: bool)
    requires Sane(reqs, s) && !Ended(reqs, s) && Fair(round, atomic) && (atomic ==> Outside(s))
    ensures Sane(reqs, RunFrom(reqs, s, round))
    ensures Measure(reqs, RunFrom(reqs, s, round)) < Measure(reqs, s)
  {
    hide Step, Sane, Measure, Ended;
    SaneArrived(reqs, s);
    HelpfulIsNeeded(reqs, s, atomic);
    assert HasTurn(round, Helpful(s, atomic));
    var i :| 0 <= i < |round| && Kind(round[i]) == Kind(Helpful(s, atomic));
    NoDeadlock(reqs, s, round[i], atomic);
    TurnUsesWork(reqs, s, round, round[i]);
  }

  lemma HelpfulIsNeeded(reqs: seq<Callback>, s: State, atomic: bool)
    requires !Ended(reqs, s) && (atomic ==> Outside(s))
    ensures Needed(Helpful(s, atomic), atomic)
  {
  }

  lemma {:induction false} EndedStays(reqs: seq<Callback>, s: State, schedule: seq<Action>)
    requires Ended(reqs, s)
    ensures RunFrom(reqs, s, schedule) == s
    decreases |schedule|
  {
    if schedule != [] {
      EndedStep(reqs, s, schedule[0]);
      EndedStays(reqs, s, schedule[1..]);
    }
  }

  lemma EndedStep(reqs: seq<Callback>, s: State, a: Action)
    requires Ended(reqs, s)
    ensures Step(reqs, s, a) == s
  {
  }

  /** The number of effective steps a session of n requests can take. */
  function WorkFor(reqs: seq<Callback>): nat { 1 + 16 * |reqs| }

  /** Under any fair scheduler every session comes to its end: all requests are dealt
      with or a handler has ended the process. The wait loop exits each time, unless a
      store has intruded and the slot has been read through. */
  lemma FairRunsFinish(reqs: seq<Callback>, rounds: seq<seq<Action>>, atomic: bool)
    requires Rounds(rounds, atomic) && |rounds| >= WorkFor(reqs)
    ensures
      var s := Run(reqs, Flatten(rounds));
      && Ended(reqs, s)
      && (s.intruded || (Final(reqs, s) && Delivered(reqs, s)))
      && (atomic ==> !s.intruded)
  {
    hide Step;
    assert Measure(reqs, INITIAL) == WorkFor(reqs);
    FairRunFrom(reqs, INITIAL, rounds, atomic);
    ExactlyOnceIff(reqs, Flatten(rounds));
    if atomic {
      FlattenAtomic(rounds);
      AtomicTakeDelivers(reqs, Flatten(rounds));
    }
  }

  lemma {:induction false} FlattenAtomic(rounds: seq<seq<Action>>)
    requires Rounds(rounds, true)
    ensures Atomic(Flatten(rounds))
  {
    if rounds != [] {
      FlattenAtomic(rounds[1..]);
    }
  }

  /** With an atomic take and a fair scheduler, every session in which no handler ends
      the process delivers all its requests in order and frees everything but what Init
      and Destroy keep; else it delivers them up to the one that does. */
  lemma FairAtomicRunsDeliver(reqs: seq<Callback>, rounds: seq<seq<Action>>)
    requires Rounds(rounds, true) && |rounds| >= WorkFor(reqs)
    ensures
      var s := Run(reqs, Flatten(rounds));
      && !s.fault
      && Calls(s.log) <= reqs
      && (!s.consumer.Exited? ==>
        && Calls(s.log) == reqs
        && LiveArrays(reqs, s) == {} && LiveRecords(reqs, s) == {} && s.names == map[])
  {
    FairRunsFinish(reqs, rounds, true);
    FlattenAtomic(rounds);
    AtomicTakeDelivers(reqs, Flatten(rounds));
    HeapConservation(reqs, Flatten(rounds));
  }
}
