/** What the handoff guarantees over whole schedules. */
module HandoffRuns {
  import opened Marshalling
  import opened Handoff
  import Dispatch

  lemma StepKeeps(reqs: seq<Callback>, s: State, a: Action)
    requires Inv(reqs, s) && !Step(reqs, s, a).intruded
    ensures Inv(reqs, Step(reqs, s, a))
  {
    hide Inv, DoPack, DoSpin, DoNewRecord, DoSend, DoClear, DoLoad1, DoLoad2, DoCall, DoFreeName, DoFreeArgs, DoFreeRecord;
    NotFaulty(reqs, s);
    match a
    case Pack => PackKeeps(reqs, s);
    case Spin => SpinKeeps(reqs, s);
    case NewRecord => NewRecordKeeps(reqs, s);
    case Store => StoreKeeps(reqs, s);
    case Send(leftover) => SendKeeps(reqs, s, leftover);
    case Clear => ClearKeeps(reqs, s);
    case Load1 => Load1Keeps(reqs, s);
    case Load2 => Load2Keeps(reqs, s);
    case Take =>
      ClearKeeps(reqs, s);
      Load1Keeps(reqs, DoClear(s));
      Load2Keeps(reqs, DoLoad1(DoClear(s)));
    case Call(fatal) => CallKeeps(reqs, s, fatal);
    case FreeName => FreeNameKeeps(reqs, s);
    case FreeArgs => FreeArgsKeeps(reqs, s);
    case FreeRecord => FreeRecordKeeps(reqs, s);
  }

  lemma NotFaulty(reqs: seq<Callback>, s: State)
    requires Inv(reqs, s)
    ensures !s.fault
  {
  }

  // ---- After an intrusion ----

  predicate Holds(c: Consumer, j: nat) {
    match c
    case Taken(_, r) => r == j
    case NameToFree(r) => r == j
    case ArgsToFree(r) => r == j
    case RecordToFree(r) => r == j
    case Idle | Cleared | LoadedOnce(_) | Exited => false
  }

  /** Record j has been overwritten in the slot before its second load: it is still
      allocated but in nobody's hands, it has not been dispatched, and the calls made
      instead of it are not its own. */
  ghost predicate Lost(s: State, j: nat) {
    && s.slot.Some? && j < s.slot.value < s.arrived
    && !Holds(s.consumer, j)
    && (forall i :: 0 <= i < |s.log| ==> s.log[i].record != j)
    && j in s.records
    && j <= |s.log| && (s.consumer.Exited? ==> j < |s.log|)
  }

  lemma IntrusionLoses(reqs: seq<Callback>, s: State)
    requires Inv(reqs, s) && !s.intruded && DoStore(s).intruded
    ensures Lost(DoStore(s), s.begun - 1)
  {
    hide ArraysAre, RecordsAre, NamesAre, Slots, OpOf, FreedSoFar;
    RecordLive(reqs, s.records, RecordsDone(s), RecordCount(s), s.begun - 1);
  }

  lemma LostAfterCall(s: State, fatal: bool, j: nat)
    requires Lost(s, j)
    ensures Lost(DoCall(s, fatal), j)
  {
    hide Unpack, Dispatch.Called;
  }

  lemma LostAfterFreeName(s: State, j: nat)
    requires Lost(s, j)
    ensures Lost(DoFreeName(s), j)
  {
  }

  lemma LostAfterFreeArgs(s: State, j: nat)
    requires Lost(s, j)
    ensures Lost(DoFreeArgs(s), j)
  {
  }

  lemma LostAfterFreeRecord(s: State, j: nat)
    requires Lost(s, j)
    ensures Lost(DoFreeRecord(s), j)
  {
  }

  lemma LostForGood(reqs: seq<Callback>, s: State, a: Action, j: nat)
    requires Lost(s, j)
    ensures Lost(Step(reqs, s, a), j)
  {
    hide Slots, RecordFor, ReceivedText, DoCall, DoFreeName, DoFreeArgs, DoFreeRecord;
    if a.Call? {
      LostAfterCall(s, a.fatal, j);
    }
    LostAfterFreeName(s, j);
    LostAfterFreeArgs(s, j);
    LostAfterFreeRecord(s, j);
  }

  // ---- Every reachable state ----

  ghost predicate Good(reqs: seq<Callback>, s: State) {
    if s.intruded then exists j: nat :: Lost(s, j) else Inv(reqs, s)
  }

  lemma StepGood(reqs: seq<Callback>, s: State, a: Action)
    requires Good(reqs, s)
    ensures Good(reqs, Step(reqs, s, a))
  {
    hide Inv, Lost, DoPack, DoSpin, DoNewRecord, DoSend, DoStore, DoClear, DoLoad1, DoLoad2, DoCall, DoFreeName, DoFreeArgs, DoFreeRecord;
    var t := Step(reqs, s, a);
    IntrudedByStore(reqs, s, a);
    if s.intruded {
      var j: nat :| Lost(s, j);
      LostForGood(reqs, s, a, j);
    } else if t.intruded {
      NotFaulty(reqs, s);
      StoreFindsRecord(reqs, s);
      IntrusionLoses(reqs, s);
    } else {
      StepKeeps(reqs, s, a);
    }
  }

  lemma StoreFindsRecord(reqs: seq<Callback>, s: State)
    requires Inv(reqs, s) && !s.intruded && DoStore(s).intruded
    ensures s.begun > 0
  {
  }

  lemma IntrudedByStore(reqs: seq<Callback>, s: State, a: Action)
    ensures s.intruded ==> Step(reqs, s, a).intruded
    ensures a != Store ==> Step(reqs, s, a).intruded == s.intruded
    ensures Step(reqs, s, a).intruded && !s.intruded ==> Step(reqs, s, a) == DoStore(s)
  {
    hide Slots, OpOf, RecordFor, Unpack, Dispatch.Called, Dispatch.Name;
  }

  lemma {:induction false} RunGood(reqs: seq<Callback>, s: State, schedule: seq<Action>)
    requires Good(reqs, s)
    ensures Good(reqs, RunFrom(reqs, s, schedule))
    decreases |schedule|
  {
    hide Good, Step;
    if schedule != [] {
      StepGood(reqs, s, schedule[0]);
      RunGood(reqs, Step(reqs, s, schedule[0]), schedule[1..]);
    }
  }

  lemma Reachable(reqs: seq<Callback>, schedule: seq<Action>)
    ensures Good(reqs, Run(reqs, schedule))
  {
    InitialInv(reqs);
    RunGood(reqs, INITIAL, schedule);
  }

  // ---- Delivery ----

  function Calls(log: seq<Dispatched>): seq<Callback> {
    seq(|log|, i requires 0 <= i < |log| => log[i].call)
  }

  /** Every request has been dealt with and nothing is under way. */
  predicate AtRest(reqs: seq<Callback>, s: State) {
    !s.fault && s.arrived == |reqs| && s.producer.Waiting? && !s.pending && s.consumer.Idle?
  }

  /** Nothing is left to do, or a handler has ended the process. */
  predicate Final(reqs: seq<Callback>, s: State) {
    !s.fault && (s.consumer.Exited? || AtRest(reqs, s))
  }

  /** Final, or nothing can be known any more. */
  predicate Ended(reqs: seq<Callback>, s: State) { s.fault || Final(reqs, s) }

  /** Each request dispatched once, from its own record, in the order of arrival, up to
      the one whose handler has ended the process, if any. */
  predicate Delivered(reqs: seq<Callback>, s: State) {
    && !s.fault
    && |s.log| <= |reqs| && s.log == Expected(reqs, |s.log|)
    && (s.consumer.Exited? || |s.log| == |reqs|)
  }

  /** Every schedule in which no store falls between a clear and the second load after
      it delivers exactly once, in order, and never touches freed memory; a Lookup is
      called with its own name, whatever the receive buffer holds by then. */
  lemma DeliveredUnlessIntruded(reqs: seq<Callback>, schedule: seq<Action>)
    requires !Run(reqs, schedule).intruded
    ensures
      var s := Run(reqs, schedule);
      && !s.fault
      && |s.log| <= s.arrived <= |reqs|
      && s.log == Expected(reqs, |s.log|)
      && Calls(s.log) == reqs[..|s.log|]
      && (Final(reqs, s) ==> Delivered(reqs, s))
  {
    Reachable(reqs, schedule);
    LogOfInv(reqs, Run(reqs, schedule));
  }

  lemma LogOfInv(reqs: seq<Callback>, s: State)
    requires Inv(reqs, s)
    ensures !s.fault && |s.log| <= s.arrived <= |reqs|
    ensures s.log == Expected(reqs, |s.log|)
    ensures Calls(s.log) == reqs[..|s.log|]
    ensures Final(reqs, s) ==> Delivered(reqs, s)
  {
    hide ArraysAre, RecordsAre, NamesAre, FreedSoFar;
  }

  /** An intruded run never delivers everything, however it continues. */
  lemma IntrudedLoses(reqs: seq<Callback>, schedule: seq<Action>)
    requires Run(reqs, schedule).intruded
    ensures !Delivered(reqs, Run(reqs, schedule))
  {
    var s := Run(reqs, schedule);
    Reachable(reqs, schedule);
    var j: nat :| Lost(s, j);
    ArrivedBound(reqs, INITIAL, schedule);
    LostNotDelivered(reqs, s, j);
  }

  lemma LostNotDelivered(reqs: seq<Callback>, s: State, j: nat)
    requires s.arrived <= |reqs| && Lost(s, j)
    ensures !Delivered(reqs, s)
  {
    if j < |s.log| <= |reqs| {
      assert s.log[j].record != Expected(reqs, |s.log|)[j].record;
    }
  }

  lemma {:induction false} ArrivedBound(reqs: seq<Callback>, s: State, schedule: seq<Action>)
    requires s.arrived <= |reqs|
    ensures RunFrom(reqs, s, schedule).arrived <= |reqs|
    decreases |schedule|
  {
    hide Step;
    if schedule != [] {
      ArrivedStep(reqs, s, schedule[0]);
      ArrivedBound(reqs, Step(reqs, s, schedule[0]), schedule[1..]);
    }
  }

  lemma ArrivedStep(reqs: seq<Callback>, s: State, a: Action)
    requires s.arrived <= |reqs|
    ensures Step(reqs, s, a).arrived <= |reqs|
  {
    hide DoCall, DoFreeName, DoFreeArgs, DoFreeRecord, Slots, RecordFor, ReceivedText;
    if a.Call? {
      CallSide(s, a.fatal);
    }
    FreesSide(s);
  }

  /** The session thread's side is not touched by the call and the frees. */
  lemma CallSide(s: State, fatal: bool)
    ensures
      var t := DoCall(s, fatal);
      t.producer == s.producer && t.arrived == s.arrived && t.slot == s.slot && t.pending == s.pending
  {
    hide Unpack, Dispatch.Called, AfterCall;
  }

  lemma FreeNameSide(s: State)
    ensures
      var t := DoFreeName(s);
      t.producer == s.producer && t.arrived == s.arrived && t.slot == s.slot && t.pending == s.pending
  {
  }

  lemma FreeArgsSide(s: State)
    ensures
      var t := DoFreeArgs(s);
      t.producer == s.producer && t.arrived == s.arrived && t.slot == s.slot && t.pending == s.pending
  {
  }

  lemma FreesSide(s: State)
    ensures
      var t := DoFreeName(s);
      t.producer == s.producer && t.arrived == s.arrived && t.slot == s.slot && t.pending == s.pending
    ensures
      var t := DoFreeArgs(s);
      t.producer == s.producer && t.arrived == s.arrived && t.slot == s.slot && t.pending == s.pending
    ensures
      var t := DoFreeRecord(s);
      t.producer == s.producer && t.arrived == s.arrived && t.slot == s.slot && t.pending == s.pending
  {
    hide DoFreeName, DoFreeArgs;
    FreeNameSide(s);
    FreeArgsSide(s);
  }

  /** The exact condition: a run that has ended has delivered every request exactly
      once, in order, with its own operation and arguments, if and only if no store fell
      between a clear and the second load after it. */
  lemma ExactlyOnceIff(reqs: seq<Callback>, schedule: seq<Action>)
    requires Ended(reqs, Run(reqs, schedule))
    ensures Delivered(reqs, Run(reqs, schedule)) <==> !Run(reqs, schedule).intruded
  {
    if Run(reqs, schedule).intruded {
      IntrudedLoses(reqs, schedule);
    } else {
      DeliveredUnlessIntruded(reqs, schedule);
    }
  }

  // ---- The base model: the take is one step ----

  predicate IsAtomic(a: Action) { !a.Clear? && !a.Load1? && !a.Load2? }

  ghost predicate Atomic(schedule: seq<Action>) {
    forall i :: 0 <= i < |schedule| ==> IsAtomic(schedule[i])
  }

  predicate Outside(s: State) {
    !s.intruded && (s.fault || !(s.consumer.Cleared? || s.consumer.LoadedOnce?))
  }

  lemma AtomicStep(reqs: seq<Callback>, s: State, a: Action)
    requires Outside(s) && IsAtomic(a)
    ensures Outside(Step(reqs, s, a))
  {
    hide Slots, OpOf, RecordFor, Unpack, Dispatch.Called, Dispatch.Name;
  }

  lemma {:induction false} AtomicRunFrom(reqs: seq<Callback>, s: State, schedule: seq<Action>)
    requires Outside(s) && Atomic(schedule)
    ensures Outside(RunFrom(reqs, s, schedule))
    decreases |schedule|
  {
    hide Step;
    if schedule != [] {
      AtomicStep(reqs, s, schedule[0]);
      AtomicRunFrom(reqs, Step(reqs, s, schedule[0]), schedule[1..]);
    }
  }

  /** For every interleaving with an atomic take, the dispatched callbacks are always a
      prefix of FUSE's, each once and in order, and equal them when nothing is left. */
  lemma AtomicTakeDelivers(reqs: seq<Callback>, schedule: seq<Action>)
    requires Atomic(schedule)
    ensures
      var s := Run(reqs, schedule);
      && !s.fault && !s.intruded
      && Calls(s.log) <= reqs
      && (AtRest(reqs, s) ==> Calls(s.log) == reqs)
  {
    AtomicRunFrom(reqs, INITIAL, schedule);
    DeliveredUnlessIntruded(reqs, schedule);
  }

  /** The name a Lookup's handler receives is the requested one, for every sequence of
      later contents of the receive buffer. */
  lemma LookupNameIsolated(reqs: seq<Callback>, schedule: seq<Action>, k: nat)
    requires !Run(reqs, schedule).intruded && k < |Run(reqs, schedule).log|
    ensures k < |reqs|
    ensures reqs[k].Lookup? ==>
      var call := Run(reqs, schedule).log[k].call;
      call.Lookup? && call.name == reqs[k].name
  {
    DeliveredUnlessIntruded(reqs, schedule);
  }
}
