/** The two threads as the code writes them, each method tied to the steps of Handoff.
    Where the other thread can run in between, a method takes the steps it makes there. */
module AsyncChannel {
  import opened Numbers
  import opened Marshalling
  import opened Handoff
  import opened HandoffRuns
  import opened HandoffProgress
  import Dispatch

  /** `strcpy` into a fresh block. */
  method CopyName(name: Text) returns (copy: array<CodeUnit>)
    ensures fresh(copy) && copy[..] == name
  {
    copy := new CodeUnit[|name|](_ => 0);
    var i := 0;
    while i < |name|
      invariant 0 <= i <= |name|
      invariant copy[..i] == name[..i]
    {
      copy[i] := name[i];
      i := i + 1;
    }
  }

  /** The contents of the fresh blocks, under which the session's heap keeps them. */
  method NameCopy(name: Text) returns (copy: Text)
    ensures copy == name
  {
    var block := CopyName(name);
    copy := block[..];
  }

  method ArgumentArray(cb: Callback, block: nat) returns (slots: seq<Slot>)
    ensures slots == Slots(cb, block)
  {
    var args := Marshalling.Pack(cb, block);
    slots := args[..];
  }

  class Session {
    /** The callbacks FUSE makes, in order. */
    const reqs: seq<Callback>

    var arrived: nat
    var producer: Producer
    var consumer: Consumer
    var pending: bool
    var data: Option<nat>
    var received: Text
    var arrays: map<nat, seq<Slot>>
    var records: map<nat, Record>
    var names: map<nat, Text>
    var begun: nat
    var freed: seq<Block>
    var log: seq<Dispatched>
    var intruded: bool
    var fault: bool

    ghost function View(): State
      reads this
    {
      State(arrived, producer, consumer, pending, data, received, arrays, records, names,
            begun, freed, log, intruded, fault)
    }

    constructor (reqs: seq<Callback>)
      ensures this.reqs == reqs && View() == INITIAL
    {
      this.reqs := reqs;
      arrived, producer, consumer, pending, data := 0, Waiting, Idle, false, None;
      received, arrays, records, names := [], map[], map[], map[];
      begun, freed, log, intruded, fault := 0, [], [], false, false;
    }

    // ---- Steps of the FUSE session thread ----

    /** The next callback arrives and its packer fills an argument array; Lookup first
        copies the name out of the receive buffer. */
    method PackRequest()
      requires !fault && !consumer.Exited?
      modifies this
      ensures View() == Step(reqs, old(View()), Action.Pack)
    {
      hide Step, Slots, OpOf, ReceivedText;
      PackStep(reqs, View());
      if !producer.Waiting? || arrived >= |reqs| {
        return;
      }
      var k := arrived;
      var name := ReceivedText(reqs[k]);
      var copy: Text := [];
      if reqs[k].Lookup? {
        copy := NameCopy(name);
      }
      var args := ArgumentArray(reqs[k], k);
      received := name;
      if reqs[k].Lookup? {
        names := names[k := copy];
      }
      arrays := arrays[k := args];
      arrived := k + 1;
      producer := Packed;
    }

    /** The test of the wait loop. */
    method LeaveLoop()
      requires !fault && !consumer.Exited?
      modifies this
      ensures View() == Step(reqs, old(View()), Spin)
    {
      if producer.Packed? && !pending {
        producer := Ready;
      }
    }

    /** `new ThreadFunData()`, its name and its array. */
    method FillRecord()
      requires !fault && !consumer.Exited?
      modifies this
      ensures View() == Step(reqs, old(View()), NewRecord)
    {
      hide RecordFor;
      if producer.Ready? && 0 < arrived <= |reqs| {
        records := records[arrived - 1 := RecordFor(reqs[arrived - 1], arrived - 1)];
        producer := Recorded;
      }
    }

    /** `async->data = data`. */
    method StoreRecord()
      requires !fault && !consumer.Exited?
      modifies this
      ensures View() == Step(reqs, old(View()), Store)
    {
      if producer.Recorded? && 0 < arrived {
        data := Some(arrived - 1);
        intruded := intruded || consumer.Cleared? || consumer.LoadedOnce?;
        producer := Stored;
      }
    }

    /** `uv_async_send`; then the callback returns and the receive buffer is used again. */
    method SendSignal(leftover: Text)
      requires !fault && !consumer.Exited?
      modifies this
      ensures View() == Step(reqs, old(View()), Send(leftover))
    {
      if producer.Stored? {
        pending := true;
        producer := Waiting;
        received := leftover;
      }
    }

    // ---- Steps of the event loop ----

    /** libuv clears `pending` before it runs AsyncCallback. */
    method ClearPending()
      requires !fault && !consumer.Exited?
      modifies this
      ensures View() == Step(reqs, old(View()), Clear)
    {
      if consumer.Idle? && pending {
        pending := false;
        begun := begun + 1;
        consumer := Cleared;
      }
    }

    /** `argument = handle->data`. */
    method LoadFirst()
      requires !fault && !consumer.Exited?
      modifies this
      ensures View() == Step(reqs, old(View()), Load1)
    {
      if !consumer.Cleared? {
        return;
      }
      if data.None? {
        fault := true;
        return;
      }
      consumer := LoadedOnce(data.value);
    }

    /** `argument->op` and `handle->data` once more. */
    method LoadSecond()
      requires !fault && !consumer.Exited?
      modifies this
      ensures View() == Step(reqs, old(View()), Load2)
    {
      if !consumer.LoadedOnce? {
        return;
      }
      if consumer.first !in records || data.None? {
        fault := true;
        return;
      }
      consumer := Taken(records[consumer.first].op, data.value);
    }

    /** All three without a step of the other thread in between. */
    method TakeRecord()
      requires !fault && !consumer.Exited?
      modifies this
      ensures View() == Step(reqs, old(View()), Take)
    {
      if !consumer.Idle? || !pending {
        return;
      }
      ClearPending();
      LoadFirst();
      if !fault {
        LoadSecond();
      }
    }

    /** `Proxy::Call` and the handler's unpacking; then the handler, which may end the
        process. */
    method CallHandler(fatal: bool)
      requires !fault && !consumer.Exited?
      modifies this
      ensures View() == Step(reqs, old(View()), Call(fatal))
    {
      hide DoPack, DoSpin, DoNewRecord, DoStore, DoSend, DoClear, DoLoad1, DoLoad2, DoFreeName, DoFreeArgs,
        DoFreeRecord, Unpack, Dispatch.Called;
      if !consumer.Taken? {
        return;
      }
      var r := consumer.record;
      var handlers := Dispatch.Called(consumer.opName);
      if handlers == [] {
        consumer := Idle;
        return;
      }
      if r !in records || records[r].args !in arrays {
        fault := true;
        return;
      }
      var call := Unpack(handlers[0], arrays[records[r].args], names);
      if call.None? {
        fault := true;
        return;
      }
      log := log + [Dispatched(r, call.value)];
      if fatal {
        consumer := Exited;
      } else if Keeps(handlers[0]) {
        consumer := Idle;
      } else if handlers[0].Lookup? {
        consumer := NameToFree(r);
      } else {
        consumer := ArgsToFree(r);
      }
    }

    /** `delete (char *)argument->args[2]`. */
    method FreeName()
      requires !fault && !consumer.Exited?
      modifies this
      ensures View() == Step(reqs, old(View()), Action.FreeName)
    {
      hide Step, DoFreeArgs, DoFreeRecord;
      FreeStep(reqs, View());
      if !consumer.NameToFree? {
        return;
      }
      var r := consumer.record;
      if r !in records || records[r].args !in arrays {
        fault := true;
        return;
      }
      var args := arrays[records[r].args];
      if |args| <= 2 || !args[2].NameAt? || args[2].block !in names {
        fault := true;
        return;
      }
      names := names - {args[2].block};
      freed := freed + [NameBlock(args[2].block)];
      consumer := ArgsToFree(r);
    }

    /** FREE_ARGUMENTS: the array ... */
    method FreeArgs()
      requires !fault && !consumer.Exited?
      modifies this
      ensures View() == Step(reqs, old(View()), Action.FreeArgs)
    {
      hide Step, DoFreeName, DoFreeRecord;
      FreeStep(reqs, View());
      if !consumer.ArgsToFree? {
        return;
      }
      var r := consumer.record;
      if r !in records || records[r].args !in arrays {
        fault := true;
        return;
      }
      var args := records[r].args;
      arrays := arrays - {args};
      freed := freed + [ArgsBlock(args)];
      consumer := RecordToFree(r);
    }

    /** ... and the record. */
    method FreeRecord()
      requires !fault && !consumer.Exited?
      modifies this
      ensures View() == Step(reqs, old(View()), Action.FreeRecord)
    {
      hide Step, DoFreeName, DoFreeArgs;
      FreeStep(reqs, View());
      if !consumer.RecordToFree? {
        return;
      }
      var r := consumer.record;
      if r !in records {
        fault := true;
        return;
      }
      records := records - {r};
      freed := freed + [RecordBlock(r)];
      consumer := Idle;
    }

    /** Any one step; none after a fault or an exit. */
    method Perform(a: Action)
      modifies this
      ensures View() == Step(reqs, old(View()), a)
    {
      hide DoPack, DoSpin, DoNewRecord, DoStore, DoSend, DoClear, DoLoad1, DoLoad2, DoCall, DoFreeName,
        DoFreeArgs, DoFreeRecord;
      if fault || consumer.Exited? {
        return;
      }
      match a
      case Pack => PackRequest();
      case Spin => LeaveLoop();
      case NewRecord => FillRecord();
      case Store => StoreRecord();
      case Send(leftover) => SendSignal(leftover);
      case Clear => ClearPending();
      case Load1 => LoadFirst();
      case Load2 => LoadSecond();
      case Take => TakeRecord();
      case Call(fatal) => CallHandler(fatal);
      case FreeName => FreeName();
      case FreeArgs => FreeArgs();
      case FreeRecord => FreeRecord();
    }

    /** A turn of one thread: some steps in a row. */
    method Turn(turn: seq<Action>)
      modifies this
      ensures View() == RunFrom(reqs, old(View()), turn)
    {
      hide Step;
      var i := 0;
      while i < |turn|
        invariant 0 <= i <= |turn|
        invariant View() == RunFrom(reqs, old(View()), turn[..i])
      {
        Longer(reqs, old(View()), turn, i);
        Perform(turn[i]);
        i := i + 1;
      }
      assert turn[..i] == turn;
    }

    // ---- FileSystem::Proxy ----

    /** The wait loop, then the record, the store and the signal. The event loop runs
        during every sleep (`turns`) and between the later steps (`gaps`), with any
        steps of its own in any order; if each of its turns during a sleep is fair, the
        loop ends. */
    method Proxy(turns: seq<seq<Action>>, gaps: seq<seq<Action>>, leftover: Text) returns (ghost trace: seq<Action>)
      requires Good(reqs, View()) && Sane(reqs, View()) && producer.Packed?
      requires |turns| >= Measure(reqs, View()) && FairTurns(turns)
      requires |gaps| == 3 && forall i :: 0 <= i < 3 ==> OnlyEventLoop(gaps[i])
      modifies this
      ensures View() == RunFrom(reqs, old(View()), trace) && Good(reqs, View())
      ensures fault || consumer.Exited? ||
        (producer.Waiting? && pending && data == Some(arrived - 1) && arrived == old(arrived))
      ensures !intruded && !consumer.Exited? ==> LastRecordLive(reqs, View())
    {
      hide Step, Good, Measure, Publishing, Sane, RunFrom, LastRecordLive;
      ghost var start := View();
      NoSteps(reqs, start);
      trace := [];
      var i := 0;
      Begin(reqs, start);
      while pending && !fault && !consumer.Exited?
        invariant 0 <= i <= |turns|
        invariant View() == RunFrom(reqs, start, trace) && Sane(reqs, View())
        invariant SaneWork(reqs, View()) <= |turns| - i
        invariant Waits(View(), start.arrived)
        decreases |turns| - i
      {
        StillWork(reqs, View());
        FairTurnUsesWork(reqs, View(), turns[i]);
        EventLoopTurn(reqs, View(), turns[i]);
        RunFromConcat(reqs, start, trace, turns[i]);
        trace := trace + turns[i];
        Turn(turns[i]);
        i := i + 1;
      }
      LoopLeft(View(), start.arrived);
      SaneArrived(reqs, start);
      ghost var tail := Publish(reqs, start, View(), trace, gaps, leftover);
      Perform(Spin);
      Turn(gaps[0]);
      Perform(NewRecord);
      Turn(gaps[1]);
      Perform(Store);
      Turn(gaps[2]);
      Perform(Send(leftover));
      trace := trace + tail;
      RunGood(reqs, start, trace);
    }

    // ---- Fuse::AsyncCallback ----

    /** One run of the callback, with the loads apart and any steps of the session thread
        in between: unless a store intrudes, the next request is dispatched once, with its
        own operation and arguments, and its memory is released before the callback
        returns, unless Init or Destroy keeps it or the handler ends the process. */
    method AsyncCallback(gaps: seq<seq<Action>>, fatal: bool) returns (ghost trace: seq<Action>)
      requires Good(reqs, View()) && consumer.Idle? && pending && !fault
      requires |gaps| == 6 && forall i :: 0 <= i < 6 ==> OnlySession(gaps[i])
      modifies this
      ensures View() == RunFrom(reqs, old(View()), trace) && Good(reqs, View())
      ensures intruded || (
        && !fault && begun == old(begun) + 1 <= |reqs|
        && log == old(log) + [Dispatched(begun - 1, reqs[begun - 1])]
        && consumer == if fatal then Exited else Idle)
    {
      hide Step, Good, During, RunFrom, OnlySession;
      ghost var start := View();
      trace := RunCallback(reqs, start, gaps, fatal);
      Perform(Clear);
      Turn(gaps[0]);
      Perform(Load1);
      Turn(gaps[1]);
      Perform(Load2);
      Turn(gaps[2]);
      Perform(Call(fatal));
      Turn(gaps[3]);
      Perform(Action.FreeName);
      Turn(gaps[4]);
      Perform(Action.FreeArgs);
      Turn(gaps[5]);
      Perform(Action.FreeRecord);
    }
  }

  lemma PackStep(reqs: seq<Callback>, s: State)
    requires !s.fault && !s.consumer.Exited?
    ensures Step(reqs, s, Action.Pack) == DoPack(reqs, s)
  {
    hide DoPack;
  }

  lemma FreeStep(reqs: seq<Callback>, s: State)
    requires !s.fault && !s.consumer.Exited?
    ensures Step(reqs, s, Action.FreeName) == DoFreeName(s)
    ensures Step(reqs, s, Action.FreeArgs) == DoFreeArgs(s)
    ensures Step(reqs, s, Action.FreeRecord) == DoFreeRecord(s)
  {
    hide DoFreeName, DoFreeArgs, DoFreeRecord;
  }

  // ---- Which thread an action belongs to ----

  predicate IsEventLoop(a: Action) {
    a.Clear? || a.Load1? || a.Load2? || a.Take? || a.Call? || a.FreeName? || a.FreeArgs? || a.FreeRecord?
  }

  predicate OnlyEventLoop(turn: seq<Action>) { forall i :: 0 <= i < |turn| ==> IsEventLoop(turn[i]) }

  predicate OnlySession(turn: seq<Action>) { forall i :: 0 <= i < |turn| ==> !IsEventLoop(turn[i]) }

  /** Turns of the event loop in which each of its steps gets its chance. */
  ghost predicate FairTurns(turns: seq<seq<Action>>) {
    forall i :: 0 <= i < |turns| ==> FairTurn(turns[i])
  }

  ghost predicate FairTurn(turn: seq<Action>) {
    && OnlyEventLoop(turn)
    && forall a: Action :: IsEventLoop(a) && !a.Take? ==> HasTurn(turn, a)
  }

  lemma NoSteps(reqs: seq<Callback>, s: State)
    ensures RunFrom(reqs, s, []) == s
  {
  }

  lemma OneStep(reqs: seq<Callback>, s: State, a: Action)
    ensures RunFrom(reqs, s, [a]) == Step(reqs, s, a)
  {
    hide Step;
    assert [a][1..] == [];
  }

  lemma Longer(reqs: seq<Callback>, s: State, turn: seq<Action>, i: nat)
    requires i < |turn|
    ensures RunFrom(reqs, s, turn[..i + 1]) == Step(reqs, RunFrom(reqs, s, turn[..i]), turn[i])
  {
    hide Step;
    assert turn[..i + 1] == turn[..i] + [turn[i]];
    RunFromConcat(reqs, s, turn[..i], [turn[i]]);
    OneStep(reqs, RunFrom(reqs, s, turn[..i]), turn[i]);
  }

  // ---- What the event loop leaves alone ----

  /** The session thread's side of the state. */
  predicate SameSide(t: State, s: State) {
    && t.producer == s.producer && t.arrived == s.arrived && t.slot == s.slot
    && (t.pending ==> s.pending)
    && (s.fault || s.consumer.Exited? ==> t == s)
  }

  lemma Load1Side(s: State)
    ensures DoClear(s).producer == s.producer && DoClear(s).arrived == s.arrived && DoClear(s).slot == s.slot
    ensures DoLoad1(s).producer == s.producer && DoLoad1(s).arrived == s.arrived && DoLoad1(s).slot == s.slot
    ensures DoClear(s).pending ==> s.pending
    ensures DoLoad1(s).pending == s.pending
  {
  }

  lemma Load2Side(s: State)
    ensures DoLoad2(s).producer == s.producer && DoLoad2(s).arrived == s.arrived && DoLoad2(s).slot == s.slot
    ensures DoLoad2(s).pending == s.pending
  {
  }

  lemma EventLoopStep(reqs: seq<Callback>, s: State, a: Action)
    requires IsEventLoop(a)
    ensures SameSide(Step(reqs, s, a), s)
  {
    hide DoPack, DoSpin, DoNewRecord, DoStore, DoSend, DoClear, DoLoad1, DoLoad2, DoCall, DoFreeName,
      DoFreeArgs, DoFreeRecord;
    Load1Side(s);
    Load1Side(DoClear(s));
    Load2Side(s);
    Load2Side(DoLoad1(DoClear(s)));
    FreesSide(s);
    if a.Call? {
      CallSide(s, a.fatal);
    }
  }

  lemma {:induction false} EventLoopTurn(reqs: seq<Callback>, s: State, turn: seq<Action>)
    requires OnlyEventLoop(turn)
    ensures SameSide(RunFrom(reqs, s, turn), s)
    decreases |turn|
  {
    hide Step;
    if turn != [] {
      EventLoopStep(reqs, s, turn[0]);
      EventLoopTurn(reqs, Step(reqs, s, turn[0]), turn[1..]);
    }
  }

  // ---- The wait loop ends ----

  ghost function SaneWork(reqs: seq<Callback>, s: State): nat {
    if s.arrived <= |reqs| then Measure(reqs, s) else 0
  }

  lemma StillWork(reqs: seq<Callback>, s: State)
    requires Sane(reqs, s) && !s.fault
    ensures SaneWork(reqs, s) > 0
  {
  }

  /** While a signal is pending the event loop has something to do. */
  lemma FairTurnUsesWork(reqs: seq<Callback>, s: State, turn: seq<Action>)
    requires Sane(reqs, s) && s.pending && !s.fault && !s.consumer.Exited? && FairTurn(turn)
    ensures Sane(reqs, RunFrom(reqs, s, turn))
    ensures SaneWork(reqs, RunFrom(reqs, s, turn)) < SaneWork(reqs, s)
  {
    hide Step, Sane, Measure;
    SaneArrived(reqs, s);
    assert HasTurn(turn, Helpful(s, false));
    var i :| 0 <= i < |turn| && Kind(turn[i]) == Kind(Helpful(s, false));
    NoDeadlock(reqs, s, turn[i], false);
    TurnUsesWork(reqs, s, turn, turn[i]);
    SaneArrived(reqs, RunFrom(reqs, s, turn));
  }

  /** The session thread is in the wait loop with request n - 1. */
  predicate Waits(s: State, n: nat) {
    s.fault || s.consumer.Exited? || (s.producer.Packed? && s.arrived == n && n > 0)
  }

  lemma Begin(reqs: seq<Callback>, s: State)
    requires Sane(reqs, s) && s.producer.Packed?
    ensures Waits(s, s.arrived) && SaneWork(reqs, s) == Measure(reqs, s)
  {
    hide Measure;
  }

  /** The session thread has left the loop and reached this stage with request n - 1. */
  predicate Publishing(s: State, stage: Producer, n: nat) {
    s.fault || s.consumer.Exited? || (
      && s.producer == stage && s.arrived == n && n > 0 && !s.pending
      && (stage.Stored? ==> s.slot == Some(n - 1)))
  }

  lemma LoopLeft(s: State, n: nat)
    requires Waits(s, n) && (!s.pending || s.fault || s.consumer.Exited?)
    ensures Publishing(s, Packed, n)
  {
  }

  lemma PublishingTurn(reqs: seq<Callback>, s: State, turn: seq<Action>, stage: Producer, n: nat)
    requires Publishing(s, stage, n) && OnlyEventLoop(turn)
    ensures Publishing(RunFrom(reqs, s, turn), stage, n)
  {
    hide Step, RunFrom;
    EventLoopTurn(reqs, s, turn);
  }

  lemma PublishingStep(reqs: seq<Callback>, s: State, n: nat)
    requires n <= |reqs|
    ensures Publishing(s, Packed, n) ==> Publishing(Step(reqs, s, Spin), Ready, n)
    ensures Publishing(s, Ready, n) ==> Publishing(Step(reqs, s, NewRecord), Recorded, n)
    ensures Publishing(s, Recorded, n) ==> Publishing(Step(reqs, s, Store), Stored, n)
  {
    hide RecordFor;
  }

  lemma PublishingEnds(reqs: seq<Callback>, s: State, leftover: Text, n: nat)
    requires Publishing(s, Stored, n)
    ensures
      var t := Step(reqs, s, Send(leftover));
      t.fault || t.consumer.Exited? ||
        (t.producer.Waiting? && t.pending && t.arrived == n && n > 0 && t.slot == Some(n - 1))
  {
  }

  /** One step and then a turn of the other thread, appended to a run. */
  lemma Extend(reqs: seq<Callback>, start: State, s: State, trace: seq<Action>, a: Action, turn: seq<Action>)
    returns (t: State, longer: seq<Action>)
    requires s == RunFrom(reqs, start, trace)
    ensures t == RunFrom(reqs, Step(reqs, s, a), turn)
    ensures longer == trace + [a] + turn && t == RunFrom(reqs, start, longer)
  {
    hide Step, RunFrom;
    OneStep(reqs, s, a);
    RunFromConcat(reqs, start, trace, [a]);
    RunFromConcat(reqs, start, trace + [a], turn);
    t, longer := RunFrom(reqs, Step(reqs, s, a), turn), trace + [a] + turn;
  }

  /** The steps after the wait loop. */
  lemma Publish(reqs: seq<Callback>, start: State, s: State, trace: seq<Action>, gaps: seq<seq<Action>>, leftover: Text)
    returns (tail: seq<Action>)
    requires s == RunFrom(reqs, start, trace) && Good(reqs, start)
    requires |gaps| == 3 && forall i :: 0 <= i < 3 ==> OnlyEventLoop(gaps[i])
    requires start.arrived <= |reqs| && Publishing(s, Packed, start.arrived)
    ensures
      var a := RunFrom(reqs, Step(reqs, s, Spin), gaps[0]);
      var b := RunFrom(reqs, Step(reqs, a, NewRecord), gaps[1]);
      var c := RunFrom(reqs, Step(reqs, b, Store), gaps[2]);
      var t := Step(reqs, c, Send(leftover));
      && t == RunFrom(reqs, start, trace + tail)
      && (t.fault || t.consumer.Exited? ||
        (t.producer.Waiting? && t.pending && t.arrived == start.arrived && t.arrived > 0 && t.slot == Some(t.arrived - 1)))
      && (!t.intruded && !t.consumer.Exited? ==> LastRecordLive(reqs, t))
  {
    hide Step, RunFrom, Publishing, Good, LastRecordLive, OnlyEventLoop;
    var n := start.arrived;
    PublishingStep(reqs, s, n);
    var a, x := Extend(reqs, start, s, trace, Spin, gaps[0]);
    PublishingTurn(reqs, Step(reqs, s, Spin), gaps[0], Ready, n);
    PublishingStep(reqs, a, n);
    var b, y := Extend(reqs, start, a, x, NewRecord, gaps[1]);
    PublishingTurn(reqs, Step(reqs, a, NewRecord), gaps[1], Recorded, n);
    PublishingStep(reqs, b, n);
    var c, z := Extend(reqs, start, b, y, Store, gaps[2]);
    PublishingTurn(reqs, Step(reqs, b, Store), gaps[2], Stored, n);
    PublishingEnds(reqs, c, leftover, n);
    var t, w := Extend(reqs, start, c, z, Send(leftover), []);
    NoSteps(reqs, Step(reqs, c, Send(leftover)));
    RunGood(reqs, start, w);
    SentRecordLive(reqs, t);
    tail := w[|trace|..];
    assert w == trace + tail;
  }

  /** The record in the slot is allocated and is the last request's. */
  predicate LastRecordLive(reqs: seq<Callback>, t: State) {
    && 0 < t.arrived <= |reqs| && t.arrived - 1 in t.records
    && t.records[t.arrived - 1] == RecordFor(reqs[t.arrived - 1], t.arrived - 1)
  }

  lemma SentRecordLive(reqs: seq<Callback>, t: State)
    requires Good(reqs, t)
    requires t.fault || t.consumer.Exited? || (t.producer.Waiting? && t.pending)
    ensures !t.intruded && !t.consumer.Exited? ==> LastRecordLive(reqs, t)
  {
    hide RecordFor, ArraysAre, NamesAre, FreedSoFar;
  }

  // ---- A run of the callback ----

  /** The callback has dispatched, or is about to dispatch, request start.begun. */
  ghost predicate During(reqs: seq<Callback>, start: State, s: State, stage: nat, fatal: bool) {
    Good(reqs, s) && (s.intruded || (
      && s.begun == start.begun + 1 <= |reqs|
      && (if stage <= 2 then s.log == start.log
          else s.log == start.log + [Dispatched(start.begun, reqs[start.begun])])
      && (stage == 0 ==> s.consumer.Cleared?)
      && (stage == 1 ==> s.consumer.LoadedOnce?)
      && (stage == 2 ==> s.consumer.Taken?)
      && (stage >= 3 && fatal ==> s.consumer.Exited?)
      && (stage == 3 && !fatal ==> s.consumer.Idle? || s.consumer.NameToFree? || s.consumer.ArgsToFree?)
      && (stage == 4 && !fatal ==> s.consumer.Idle? || s.consumer.ArgsToFree?)
      && (stage == 5 && !fatal ==> s.consumer.Idle? || s.consumer.RecordToFree?)
      && (stage >= 6 && !fatal ==> s.consumer.Idle?)))
  }

  lemma SessionStep(reqs: seq<Callback>, s: State, a: Action)
    requires !IsEventLoop(a)
    ensures
      var t := Step(reqs, s, a);
      t.consumer == s.consumer && t.begun == s.begun && t.log == s.log
  {
    hide Slots, RecordFor, ReceivedText, DoClear, DoLoad1, DoLoad2, DoCall, DoFreeName, DoFreeArgs, DoFreeRecord;
  }

  lemma {:induction false} DuringTurn(reqs: seq<Callback>, start: State, s: State, turn: seq<Action>, stage: nat, fatal: bool)
    requires During(reqs, start, s, stage, fatal) && OnlySession(turn)
    ensures During(reqs, start, RunFrom(reqs, s, turn), stage, fatal)
    decreases |turn|
  {
    hide Step, Good;
    if turn != [] {
      var t := Step(reqs, s, turn[0]);
      SessionStep(reqs, s, turn[0]);
      StepGood(reqs, s, turn[0]);
      IntrudedByStore(reqs, s, turn[0]);
      DuringTurn(reqs, start, t, turn[1..], stage, fatal);
    }
  }

  /** The action of the callback that follows a stage. */
  function CallbackAction(stage: nat, fatal: bool): Action {
    match stage
    case 0 => Load1
    case 1 => Load2
    case 2 => Call(fatal)
    case 3 => Action.FreeName
    case 4 => Action.FreeArgs
    case _ => Action.FreeRecord
  }

  lemma DuringStarts(reqs: seq<Callback>, start: State, fatal: bool)
    requires Good(reqs, start) && start.consumer.Idle? && start.pending && !start.fault
    ensures During(reqs, start, Step(reqs, start, Clear), 0, fatal)
  {
    hide Good, Inv;
    StepGood(reqs, start, Clear);
    IntrudedByStore(reqs, start, Clear);
    if !start.intruded {
      GoodIsInv(reqs, Step(reqs, start, Clear));
      BegunBound(reqs, Step(reqs, start, Clear));
    }
  }

  lemma GoodIsInv(reqs: seq<Callback>, s: State)
    requires Good(reqs, s) && !s.intruded
    ensures Inv(reqs, s) && !s.fault
  {
  }

  lemma BegunBound(reqs: seq<Callback>, s: State)
    requires Inv(reqs, s)
    ensures s.begun <= |reqs|
    ensures s.consumer.Taken? ==> s.begun > 0
  {
    hide ArraysAre, RecordsAre, NamesAre, FreedSoFar;
  }

  /** The next step of the callback either fails or moves to the next stage. */
  lemma Load1Moves(s: State)
    ensures
      var t := DoLoad1(s);
      t.fault || (t.log == s.log && t.begun == s.begun && (s.consumer.Cleared? ==> t.consumer.LoadedOnce?))
  {
  }

  lemma Load2Moves(s: State)
    ensures
      var t := DoLoad2(s);
      t.fault || (t.log == s.log && t.begun == s.begun && (s.consumer.LoadedOnce? ==> t.consumer.Taken?))
  {
  }

  /** The free steps move on to the next one, unless they fail. */
  lemma FreesMove(s: State)
    ensures
      var t := DoFreeName(s);
      t.fault || (t.begun == s.begun && t.log == s.log
        && t.consumer == if s.consumer.NameToFree? then ArgsToFree(s.consumer.record) else s.consumer)
    ensures
      var t := DoFreeArgs(s);
      t.fault || (t.begun == s.begun && t.log == s.log
        && t.consumer == if s.consumer.ArgsToFree? then RecordToFree(s.consumer.record) else s.consumer)
    ensures
      var t := DoFreeRecord(s);
      t.fault || (t.begun == s.begun && t.log == s.log
        && t.consumer == if s.consumer.RecordToFree? then Idle else s.consumer)
  {
  }

  lemma LoadStep(reqs: seq<Callback>, s: State)
    requires !s.fault && !s.consumer.Exited?
    ensures Step(reqs, s, Load1) == DoLoad1(s) && Step(reqs, s, Load2) == DoLoad2(s)
  {
    hide DoLoad1, DoLoad2;
  }

  lemma ExitedStep(reqs: seq<Callback>, s: State, a: Action)
    requires s.consumer.Exited?
    ensures Step(reqs, s, a) == s
  {
  }

  lemma DuringStep(reqs: seq<Callback>, start: State, s: State, stage: nat, fatal: bool)
    requires stage < 6 && During(reqs, start, s, stage, fatal)
    ensures During(reqs, start, Step(reqs, s, CallbackAction(stage, fatal)), stage + 1, fatal)
  {
    hide Good, Step, Inv, DoLoad1, DoLoad2, DoCall, DoFreeName, DoFreeArgs, DoFreeRecord;
    var a := CallbackAction(stage, fatal);
    StepGood(reqs, s, a);
    IntrudedByStore(reqs, s, a);
    if !s.intruded {
      GoodIsInv(reqs, s);
      GoodIsInv(reqs, Step(reqs, s, a));
      if stage == 2 {
        CallIs(reqs, s, fatal);
        CallIsStep(reqs, s, fatal);
      } else if s.consumer.Exited? {
        ExitedStep(reqs, s, a);
      } else {
        LoadStep(reqs, s);
        Load1Moves(s);
        Load2Moves(s);
        FreeStep(reqs, s);
        FreesMove(s);
      }
    }
  }

  lemma CallIsStep(reqs: seq<Callback>, s: State, fatal: bool)
    requires !s.fault && s.consumer.Taken?
    ensures Step(reqs, s, Call(fatal)) == DoCall(s, fatal)
  {
    hide DoCall;
  }

  /** One stage of the callback and a turn of the session thread after it. */
  lemma NextStage(reqs: seq<Callback>, start: State, s: State, trace: seq<Action>, stage: nat, fatal: bool, turn: seq<Action>)
    returns (t: State, longer: seq<Action>)
    requires stage < 6 && During(reqs, start, s, stage, fatal) && OnlySession(turn)
    requires s == RunFrom(reqs, start, trace)
    ensures t == RunFrom(reqs, Step(reqs, s, CallbackAction(stage, fatal)), turn)
    ensures t == RunFrom(reqs, start, longer) && During(reqs, start, t, stage + 1, fatal)
  {
    hide Good, Step, During, RunFrom, CallbackAction;
    var a := CallbackAction(stage, fatal);
    DuringStep(reqs, start, s, stage, fatal);
    DuringTurn(reqs, start, Step(reqs, s, a), turn, stage + 1, fatal);
    t, longer := Extend(reqs, start, s, trace, a, turn);
  }

  /** All stages of the callback. */
  lemma RunCallback(reqs: seq<Callback>, start: State, gaps: seq<seq<Action>>, fatal: bool) returns (trace: seq<Action>)
    requires Good(reqs, start) && start.consumer.Idle? && start.pending && !start.fault
    requires |gaps| == 6 && forall i :: 0 <= i < 6 ==> OnlySession(gaps[i])
    ensures
      var s0 := RunFrom(reqs, Step(reqs, start, Clear), gaps[0]);
      var s1 := RunFrom(reqs, Step(reqs, s0, Load1), gaps[1]);
      var s2 := RunFrom(reqs, Step(reqs, s1, Load2), gaps[2]);
      var s3 := RunFrom(reqs, Step(reqs, s2, Call(fatal)), gaps[3]);
      var s4 := RunFrom(reqs, Step(reqs, s3, Action.FreeName), gaps[4]);
      var s5 := RunFrom(reqs, Step(reqs, s4, Action.FreeArgs), gaps[5]);
      var t := Step(reqs, s5, Action.FreeRecord);
      && t == RunFrom(reqs, start, trace) && Good(reqs, t)
      && (t.intruded || (
        && !t.fault && t.begun == start.begun + 1 <= |reqs|
        && t.log == start.log + [Dispatched(start.begun, reqs[start.begun])]
        && t.consumer == if fatal then Exited else Idle))
  {
    hide Good, Step, During, RunFrom, OnlySession;
    NoSteps(reqs, start);
    DuringStarts(reqs, start, fatal);
    DuringTurn(reqs, start, Step(reqs, start, Clear), gaps[0], 0, fatal);
    var s0, t0 := Extend(reqs, start, start, [], Clear, gaps[0]);
    var s1, t1 := NextStage(reqs, start, s0, t0, 0, fatal, gaps[1]);
    var s2, t2 := NextStage(reqs, start, s1, t1, 1, fatal, gaps[2]);
    var s3, t3 := NextStage(reqs, start, s2, t2, 2, fatal, gaps[3]);
    var s4, t4 := NextStage(reqs, start, s3, t3, 3, fatal, gaps[4]);
    var s5, t5 := NextStage(reqs, start, s4, t4, 4, fatal, gaps[5]);
    NoTurn();
    var t, t6 := NextStage(reqs, start, s5, t5, 5, fatal, []);
    NoSteps(reqs, Step(reqs, s5, Action.FreeRecord));
    trace := t6;
    DuringEnds(reqs, start, t, fatal);
  }

  lemma NoTurn()
    ensures OnlySession([])
  {
  }

  lemma DuringEnds(reqs: seq<Callback>, start: State, t: State, fatal: bool)
    requires During(reqs, start, t, 6, fatal)
    ensures Good(reqs, t)
    ensures t.intruded || (
      && !t.fault && t.begun == start.begun + 1 <= |reqs|
      && t.log == start.log + [Dispatched(start.begun, reqs[start.begun])]
      && t.consumer == if fatal then Exited else Idle)
  {
    hide Good;
    if !t.intruded {
      GoodIsInv(reqs, t);
    }
  }
}
