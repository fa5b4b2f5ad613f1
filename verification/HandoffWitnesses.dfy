/** Schedules that show the limits of the handoff: what goes wrong without an atomic
    take, that the heap bounds are reached, and that the name copy is needed. */
module HandoffWitnesses {
  import opened Numbers
  import opened Marshalling
  import opened Handoff
  import opened HandoffRuns
  import opened HandoffHeap
  import opened HandoffProgress

  lemma Then(reqs: seq<Callback>, trace: seq<Action>, s: State, a: Action)
    requires Run(reqs, trace) == s
    ensures Run(reqs, trace + [a]) == Step(reqs, s, a)
  {
    hide Step;
    RunFromConcat(reqs, INITIAL, trace, [a]);
    assert [a][1..] == [];
  }

  /** One request from its arrival to the signal. */
  function Publication(leftover: Text): seq<Action> {
    [Pack, Spin, NewRecord, Store, Send(leftover)]
  }

  const PUBLISH: seq<Action> := Publication([])

  /** What one publication changes while no signal is pending. */
  lemma Publish(reqs: seq<Callback>, trace: seq<Action>, s: State, leftover: Text) returns (t: State)
    requires Run(reqs, trace) == s && !s.fault && !s.consumer.Exited?
    requires s.producer.Waiting? && !s.pending && s.arrived < |reqs|
    ensures Run(reqs, trace + Publication(leftover)) == t && !t.fault && t.received == leftover
    ensures t.producer.Waiting? && t.pending && t.arrived == s.arrived + 1 && t.slot == Some(s.arrived)
    ensures t.consumer == s.consumer && t.log == s.log && t.names == DoPack(reqs, s).names
    ensures t.arrays == s.arrays[s.arrived := Slots(reqs[s.arrived], s.arrived)]
    ensures t.records == s.records[s.arrived := RecordFor(reqs[s.arrived], s.arrived)]
    ensures t.intruded == (s.intruded || s.consumer.Cleared? || s.consumer.LoadedOnce?)
  {
    hide Slots, RecordFor, ReceivedText;
    var a := DoPack(reqs, s);
    var b := DoSpin(a);
    var c := DoNewRecord(reqs, b);
    var d := DoStore(c);
    t := DoSend(d, leftover);
    assert a.producer.Packed? && b.producer.Ready? && c.producer.Recorded? && d.producer.Stored?;
    PublishRun(reqs, trace, s, a, b, c, d, t, leftover);
  }

  lemma PublishRun(reqs: seq<Callback>, trace: seq<Action>, s: State, a: State, b: State, c: State, d: State, t: State, leftover: Text)
    requires Run(reqs, trace) == s
    requires Step(reqs, s, Pack) == a && Step(reqs, a, Spin) == b && Step(reqs, b, NewRecord) == c
    requires Step(reqs, c, Store) == d && Step(reqs, d, Send(leftover)) == t
    ensures Run(reqs, trace + Publication(leftover)) == t
  {
    hide Step;
    Then(reqs, trace, s, Pack);
    Then(reqs, trace + [Pack], a, Spin);
    Then(reqs, trace + [Pack] + [Spin], b, NewRecord);
    Then(reqs, trace + [Pack] + [Spin] + [NewRecord], c, Store);
    Then(reqs, trace + [Pack] + [Spin] + [NewRecord] + [Store], d, Send(leftover));
    assert trace + Publication(leftover) == trace + [Pack] + [Spin] + [NewRecord] + [Store] + [Send(leftover)];
  }

  /** The event loop has cleared `pending` but not yet loaded the record when the next
      one is stored. */
  const RACE: seq<Action> := PUBLISH + [Clear] + PUBLISH

  /** Every session of two or more requests has a schedule, split loads allowed, whose
      first request is lost for good. */
  lemma SplitLoadsCanLose(reqs: seq<Callback>, rest: seq<Action>)
    requires |reqs| >= 2
    ensures !Delivered(reqs, Run(reqs, RACE + rest))
  {
    hide Step, Good;
    var s := Publish(reqs, [], INITIAL, []);
    assert [] + PUBLISH == PUBLISH;
    Then(reqs, PUBLISH, s, Clear);
    ClearIs(reqs, s);
    var t := Publish(reqs, PUBLISH + [Clear], Step(reqs, s, Clear), []);
    RunFromConcat(reqs, INITIAL, RACE, rest);
    StaysIntruded(reqs, t, rest);
    IntrudedLoses(reqs, RACE + rest);
  }

  lemma ClearIs(reqs: seq<Callback>, s: State)
    requires !s.fault && s.consumer.Idle? && s.pending
    ensures Step(reqs, s, Clear) == s.(consumer := Cleared, pending := false, begun := s.begun + 1)
  {
  }

  lemma {:induction false} StaysIntruded(reqs: seq<Callback>, s: State, schedule: seq<Action>)
    requires s.intruded
    ensures RunFrom(reqs, s, schedule).intruded
    decreases |schedule|
  {
    hide Step;
    if schedule != [] {
      IntrudedByStore(reqs, s, schedule[0]);
      StaysIntruded(reqs, Step(reqs, s, schedule[0]), schedule[1..]);
    }
  }

  lemma TakeIs(reqs: seq<Callback>, s: State)
    requires !s.fault && s.consumer.Idle? && s.pending
    requires s.slot.Some? && s.slot.value in s.records
    ensures
      Step(reqs, s, Take) == s.(consumer := Taken(s.records[s.slot.value].op, s.slot.value),
                                pending := false, begun := s.begun + 1)
  {
  }

  /** The bounds of three arrays and two records are reached: one request in its
      handler, one in the slot, one packed and waiting. */
  lemma BoundsReached(reqs: seq<Callback>)
    requires |reqs| >= 3 && !Kept(reqs[0]) && !Kept(reqs[1]) && !Kept(reqs[2])
    ensures
      var s := Run(reqs, PUBLISH + [Take] + PUBLISH + [Pack]);
      LiveArrays(reqs, s) == {0, 1, 2} && LiveRecords(reqs, s) == {0, 1}
  {
    hide Step, Slots, RecordFor;
    var s := Publish(reqs, [], INITIAL, []);
    assert [] + PUBLISH == PUBLISH;
    Then(reqs, PUBLISH, s, Take);
    TakeIs(reqs, s);
    var t := Publish(reqs, PUBLISH + [Take], Step(reqs, s, Take), []);
    Then(reqs, PUBLISH + [Take] + PUBLISH, t, Pack);
    PackIs(reqs, t);
    assert (PUBLISH + [Take]) + PUBLISH == PUBLISH + [Take] + PUBLISH;
  }

  lemma PackIs(reqs: seq<Callback>, s: State)
    requires !s.fault && !s.consumer.Exited? && s.producer.Waiting? && s.arrived < |reqs|
    ensures Step(reqs, s, Pack) == DoPack(reqs, s)
  {
    hide Slots;
  }

  /** Whatever comes into the receive buffer while a Lookup waits for its handler, the
      handler gets the name that was asked for. */
  lemma NameSurvivesOverwriting(reqs: seq<Callback>, leftover: Text)
    requires |reqs| >= 1 && reqs[0].Lookup?
    ensures
      var waiting := Run(reqs, Publication(leftover));
      var served := Run(reqs, Publication(leftover) + [Take] + [Call(false)]);
      && waiting.received == leftover && waiting.log == []
      && served.log == [Dispatched(0, reqs[0])]
  {
    hide Step, Slots, RecordFor, Inv;
    var s := Publish(reqs, [], INITIAL, leftover);
    assert [] + Publication(leftover) == Publication(leftover);
    TakeIs(reqs, s);
    Then(reqs, Publication(leftover), s, Take);
    var t := Step(reqs, s, Take);
    FirstTaken(reqs, Publication(leftover) + [Take], t);
    Then(reqs, Publication(leftover) + [Take], t, Call(false));
  }

  /** The call of the first request, once its record is taken. */
  lemma FirstTaken(reqs: seq<Callback>, trace: seq<Action>, t: State)
    requires Run(reqs, trace) == t && Atomic(trace)
    requires t.consumer.Taken? && t.log == []
    ensures |reqs| >= 1 && Step(reqs, t, Call(false)).log == [Dispatched(0, reqs[0])]
  {
    hide Run, DoCall, Inv, Atomic;
    AtomicTakeDelivers(reqs, trace);
    Reachable(reqs, trace);
    TakenCount(reqs, t);
    CallIs(reqs, t, false);
  }

  lemma TakenCount(reqs: seq<Callback>, t: State)
    requires Inv(reqs, t) && t.consumer.Taken? && t.log == []
    ensures t.begun == 1 <= |reqs|
  {
    hide ArraysAre, RecordsAre, NamesAre, FreedSoFar;
  }
}
