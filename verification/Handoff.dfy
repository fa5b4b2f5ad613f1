/** The handoff of requests from the FUSE session thread to the event loop: one
    producer, one consumer, a single `async->data` slot and libuv's `pending` flag.

    Every atomic step of either thread is an action; a schedule is any sequence of
    actions, and an action that is not possible in a state leaves it unchanged (so a
    turn of the wait loop is the action Spin while `pending` is set). Heap blocks are
    numbered by the request they were allocated for. A handler that raises ends the
    process: after that neither thread moves. */
module Handoff {
  import opened Numbers
  import opened Marshalling
  import Dispatch

  /** ThreadFunData. */
  datatype Record = Record(op: string, args: nat)

  datatype Block = NameBlock(n: nat) | ArgsBlock(n: nat) | RecordBlock(n: nat)

  datatype Dispatched = Dispatched(record: nat, call: Callback)

  /** Between its steps, the producer's current request is number arrived - 1. */
  datatype Producer = Waiting | Packed | Ready | Recorded | Stored

  datatype Consumer =
    | Idle
    | Cleared
    | LoadedOnce(first: nat)
    | Taken(opName: string, record: nat)
    | NameToFree(record: nat)
    | ArgsToFree(record: nat)
    | RecordToFree(record: nat)
    /** FatalException has ended the process. */
    | Exited

  datatype State = State(
    arrived: nat,
    producer: Producer,
    consumer: Consumer,
    pending: bool,
    slot: Option<nat>,
    /** libfuse's receive buffer: the request that has arrived, and after its callback
        has returned whatever was received next. */
    received: Text,
    arrays: map<nat, seq<Slot>>,
    records: map<nat, Record>,
    names: map<nat, Text>,
    // history
    begun: nat,
    freed: seq<Block>,
    log: seq<Dispatched>,
    /** A store has fallen between a clear and the second load after it. */
    intruded: bool,
    /** Freed or foreign memory has been used: nothing is known any more. */
    fault: bool)

  const INITIAL: State :=
    State(0, Waiting, Idle, false, None, [], map[], map[], map[], 0, [], [], false, false)

  /** `leftover` is what the receive buffer holds once the callback has returned;
      `fatal` is whether the handler ends the process. */
  datatype Action =
    | Pack | Spin | NewRecord | Store | Send(leftover: Text)
    | Clear | Load1 | Load2 | Take
    | Call(fatal: bool) | FreeName | FreeArgs | FreeRecord

  /** The action without what its environment chooses. */
  function Kind(a: Action): Action {
    match a
    case Send(_) => Send([])
    case Call(_) => Call(false)
    case Pack | Spin | NewRecord | Store | Clear | Load1 | Load2 | Take | FreeName | FreeArgs | FreeRecord => a
  }

  /** Init and Destroy leave their array and record allocated. */
  predicate Keeps(op: Op) { op.Init? || op.Destroy? }

  predicate Kept(cb: Callback) { cb.Init? || cb.Destroy? }

  /** The bytes of a request that matter here: a Lookup's name. */
  function ReceivedText(cb: Callback): Text {
    if cb.Lookup? then cb.name else []
  }

  // ---- Producer steps ----

  function DoPack(reqs: seq<Callback>, s: State): State {
    if s.producer.Waiting? && s.arrived < |reqs| then
      var k := s.arrived;
      var received := ReceivedText(reqs[k]);
      s.(arrived := k + 1, producer := Packed, received := received,
         names := if reqs[k].Lookup? then s.names[k := received] else s.names,
         arrays := s.arrays[k := Slots(reqs[k], k)])
    else s
  }

  function DoSpin(s: State): State {
    if s.producer.Packed? && !s.pending then s.(producer := Ready) else s
  }

  function DoNewRecord(reqs: seq<Callback>, s: State): State {
    if s.producer.Ready? && 0 < s.arrived <= |reqs| then
      var k := s.arrived - 1;
      s.(producer := Recorded, records := s.records[k := RecordFor(reqs[k], k)])
    else s
  }

  function DoStore(s: State): State {
    if s.producer.Recorded? && 0 < s.arrived then
      s.(producer := Stored, slot := Some(s.arrived - 1),
         intruded := s.intruded || s.consumer.Cleared? || s.consumer.LoadedOnce?)
    else s
  }

  /** uv_async_send: a signal while one is pending coalesces. */
  function DoSend(s: State, leftover: Text): State {
    if s.producer.Stored? then s.(producer := Waiting, pending := true, received := leftover) else s
  }

  // ---- Consumer steps ----

  function DoClear(s: State): State {
    if s.consumer.Idle? && s.pending
    then s.(consumer := Cleared, pending := false, begun := s.begun + 1)
    else s
  }

  /** `argument = handle->data`. */
  function DoLoad1(s: State): State {
    if s.consumer.Cleared? then
      match s.slot
      case None => s.(fault := true)
      case Some(r) => s.(consumer := LoadedOnce(r))
    else s
  }

  /** `argument->op` and the second `handle->data`. */
  function DoLoad2(s: State): State {
    if s.consumer.LoadedOnce? then
      if s.consumer.first in s.records && s.slot.Some?
      then s.(consumer := Taken(s.records[s.consumer.first].op, s.slot.value))
      else s.(fault := true)
    else s
  }

  /** The dispatch, the unpacking and the handler. An exception reaches FatalException
      before anything is freed. */
  function DoCall(s: State, fatal: bool): State {
    if s.consumer.Taken? then
      var r := s.consumer.record;
      var handlers := Dispatch.Called(s.consumer.opName);
      if handlers == [] then s.(consumer := Idle)
      else if r !in s.records || s.records[r].args !in s.arrays then s.(fault := true)
      else
        match Unpack(handlers[0], s.arrays[s.records[r].args], s.names)
        case None => s.(fault := true)
        case Some(call) =>
          s.(log := s.log + [Dispatched(r, call)],
             consumer := AfterCall(handlers[0], r, fatal))
    else s
  }

  function AfterCall(op: Op, r: nat, fatal: bool): Consumer {
    if fatal then Exited
    else if Keeps(op) then Idle
    else if op.Lookup? then NameToFree(r)
    else ArgsToFree(r)
  }

  /** `delete (char *)argument->args[2]`. */
  function DoFreeName(s: State): State {
    if s.consumer.NameToFree? then
      var r := s.consumer.record;
      if r in s.records && s.records[r].args in s.arrays then
        var a := s.arrays[s.records[r].args];
        if 2 < |a| && a[2].NameAt? && a[2].block in s.names
        then s.(consumer := ArgsToFree(r), names := s.names - {a[2].block}, freed := s.freed + [NameBlock(a[2].block)])
        else s.(fault := true)
      else s.(fault := true)
    else s
  }

  /** FREE_ARGUMENTS, first the array ... */
  function DoFreeArgs(s: State): State {
    if s.consumer.ArgsToFree? then
      var r := s.consumer.record;
      if r in s.records && s.records[r].args in s.arrays
      then s.(consumer := RecordToFree(r), arrays := s.arrays - {s.records[r].args},
              freed := s.freed + [ArgsBlock(s.records[r].args)])
      else s.(fault := true)
    else s
  }

  /** ... then the record. */
  function DoFreeRecord(s: State): State {
    if s.consumer.RecordToFree? then
      var r := s.consumer.record;
      if r in s.records
      then s.(consumer := Idle, records := s.records - {r}, freed := s.freed + [RecordBlock(r)])
      else s.(fault := true)
    else s
  }

  /** One step; Take is the clear and both loads in one. */
  function Step(reqs: seq<Callback>, s: State, a: Action): State {
    if s.fault || s.consumer.Exited? then s else
      match a
      case Pack => DoPack(reqs, s)
      case Spin => DoSpin(s)
      case NewRecord => DoNewRecord(reqs, s)
      case Store => DoStore(s)
      case Send(leftover) => DoSend(s, leftover)
      case Clear => DoClear(s)
      case Load1 => DoLoad1(s)
      case Load2 => DoLoad2(s)
      case Take =>
        if s.consumer.Idle? && s.pending then
          var t := DoLoad1(DoClear(s));
          if t.fault then t else DoLoad2(t)
        else s
      case Call(fatal) => DoCall(s, fatal)
      case FreeName => DoFreeName(s)
      case FreeArgs => DoFreeArgs(s)
      case FreeRecord => DoFreeRecord(s)
  }

  function RunFrom(reqs: seq<Callback>, s: State, schedule: seq<Action>): State
    decreases |schedule|
  {
    if schedule == [] then s else RunFrom(reqs, Step(reqs, s, schedule[0]), schedule[1..])
  }

  function Run(reqs: seq<Callback>, schedule: seq<Action>): State {
    RunFrom(reqs, INITIAL, schedule)
  }

  // ---- What holds while no store has intruded ----

  function Sent(s: State): int { s.arrived - (if s.producer.Waiting? then 0 else 1) }

  function StoredCount(s: State): int { if s.producer.Stored? then Sent(s) + 1 else Sent(s) }

  function RecordCount(s: State): int {
    if s.producer.Packed? || s.producer.Ready? then s.arrived - 1 else s.arrived
  }

  /** Requests dispatched. */
  function CalledCount(s: State): int {
    if s.consumer.Cleared? || s.consumer.LoadedOnce? || s.consumer.Taken? then s.begun - 1 else s.begun
  }

  /** Requests whose name, array, record have been freed (where they are freed). */
  function NamesDone(s: State): int {
    if s.consumer.NameToFree? || s.consumer.Exited? then s.begun - 1 else CalledCount(s)
  }

  function ArgsDone(s: State): int {
    if s.consumer.ArgsToFree? then s.begun - 1 else NamesDone(s)
  }

  function RecordsDone(s: State): int {
    if s.consumer.RecordToFree? then s.begun - 1 else ArgsDone(s)
  }

  ghost predicate Control(reqs: seq<Callback>, s: State) {
    && !s.fault
    && s.arrived <= |reqs|
    && (s.producer.Waiting? || s.arrived > 0)
    && Sent(s) == (if s.pending then s.begun + 1 else s.begun)
    && (s.producer.Ready? || s.producer.Recorded? || s.producer.Stored? ==> !s.pending)
    && s.slot == (if StoredCount(s) == 0 then None else Some(StoredCount(s) - 1))
    && (!s.consumer.Idle? ==> s.begun > 0)
    && (s.consumer.Cleared? || s.consumer.LoadedOnce? ==> StoredCount(s) == s.begun)
    && (s.consumer.LoadedOnce? ==> s.consumer.first == s.begun - 1)
    && (s.consumer.Taken? ==>
      s.consumer.record == s.begun - 1 && s.consumer.opName == Dispatch.Name(OpOf(reqs[s.begun - 1])))
    && (s.consumer.NameToFree? ==> s.consumer.record == s.begun - 1 && reqs[s.begun - 1].Lookup?)
    && (s.consumer.ArgsToFree? || s.consumer.RecordToFree? ==>
      s.consumer.record == s.begun - 1 && !Kept(reqs[s.begun - 1]))
  }

  /** The arrays of the requests lo..hi, and those kept before lo. */
  ghost predicate ArraysAre(reqs: seq<Callback>, arrays: map<nat, seq<Slot>>, lo: int, hi: int) {
    && hi <= |reqs|
    && (forall k :: k in arrays <==> 0 <= k < hi && (k >= lo || Kept(reqs[k])))
    && (forall k :: k in arrays ==> arrays[k] == Slots(reqs[k], k))
  }

  function RecordFor(cb: Callback, k: nat): Record { Record(Dispatch.Name(OpOf(cb)), k) }

  ghost predicate RecordsAre(reqs: seq<Callback>, records: map<nat, Record>, lo: int, hi: int) {
    && hi <= |reqs|
    && (forall k :: k in records <==> 0 <= k < hi && (k >= lo || Kept(reqs[k])))
    && (forall k :: k in records ==> records[k] == RecordFor(reqs[k], k))
  }

  /** The private name copies of the Lookups among lo..hi. */
  ghost predicate NamesAre(reqs: seq<Callback>, names: map<nat, Text>, lo: int, hi: int) {
    && hi <= |reqs|
    && (forall k :: k in names <==> 0 <= k < hi && k >= lo && reqs[k].Lookup?)
    && (forall k :: k in names ==> names[k] == reqs[k].name)
  }

  /** The first n requests, each dispatched from its own record. */
  function Expected(reqs: seq<Callback>, n: nat): seq<Dispatched>
    requires n <= |reqs|
  {
    seq(n, i requires 0 <= i < n => Dispatched(i, reqs[i]))
  }

  function FreedName(reqs: seq<Callback>, k: nat): seq<Block>
    requires k < |reqs|
  {
    if reqs[k].Lookup? then [NameBlock(k)] else []
  }

  /** The blocks freed for the first n requests, in order. */
  function FreeLog(reqs: seq<Callback>, n: nat): seq<Block>
    requires n <= |reqs|
  {
    if n == 0 then []
    else if Kept(reqs[n - 1]) then FreeLog(reqs, n - 1)
    else FreeLog(reqs, n - 1) + FreedName(reqs, n - 1) + [ArgsBlock(n - 1), RecordBlock(n - 1)]
  }

  /** The blocks freed in state s. */
  function FreedSoFar(reqs: seq<Callback>, s: State): seq<Block>
    requires 0 <= RecordsDone(s) <= s.begun <= |reqs| && (!s.consumer.Idle? ==> s.begun > 0)
  {
    FreeLog(reqs, RecordsDone(s))
    + (if s.consumer.ArgsToFree? || s.consumer.RecordToFree? then FreedName(reqs, s.begun - 1) else [])
    + (if s.consumer.RecordToFree? then [ArgsBlock(s.begun - 1)] else [])
  }

  ghost predicate Inv(reqs: seq<Callback>, s: State) {
    && Control(reqs, s)
    && ArraysAre(reqs, s.arrays, ArgsDone(s), s.arrived)
    && RecordsAre(reqs, s.records, RecordsDone(s), RecordCount(s))
    && NamesAre(reqs, s.names, NamesDone(s), s.arrived)
    && s.log == Expected(reqs, CalledCount(s))
    && s.freed == FreedSoFar(reqs, s)
  }

  lemma InitialInv(reqs: seq<Callback>)
    ensures Inv(reqs, INITIAL)
  {
  }

  // One more block, or one fewer, at a time.

  lemma ArraysGrow(reqs: seq<Callback>, m: map<nat, seq<Slot>>, lo: int, hi: nat)
    requires ArraysAre(reqs, m, lo, hi) && hi < |reqs| && lo <= hi
    ensures ArraysAre(reqs, m[hi := Slots(reqs[hi], hi)], lo, hi + 1)
  {
    hide Slots;
  }

  lemma ArraysShrink(reqs: seq<Callback>, m: map<nat, seq<Slot>>, lo: nat, hi: int)
    requires ArraysAre(reqs, m, lo, hi) && lo < hi
    ensures ArraysAre(reqs, if Kept(reqs[lo]) then m else m - {lo}, lo + 1, hi)
  {
    hide Slots;
  }

  lemma RecordsGrow(reqs: seq<Callback>, m: map<nat, Record>, lo: int, hi: nat)
    requires RecordsAre(reqs, m, lo, hi) && hi < |reqs| && lo <= hi
    ensures RecordsAre(reqs, m[hi := RecordFor(reqs[hi], hi)], lo, hi + 1)
  {
    hide RecordFor;
  }

  lemma RecordsShrink(reqs: seq<Callback>, m: map<nat, Record>, lo: nat, hi: int)
    requires RecordsAre(reqs, m, lo, hi) && lo < hi
    ensures RecordsAre(reqs, if Kept(reqs[lo]) then m else m - {lo}, lo + 1, hi)
  {
    hide RecordFor;
  }

  lemma NamesGrow(reqs: seq<Callback>, m: map<nat, Text>, lo: int, hi: nat)
    requires NamesAre(reqs, m, lo, hi) && hi < |reqs| && lo <= hi
    ensures NamesAre(reqs, if reqs[hi].Lookup? then m[hi := reqs[hi].name] else m, lo, hi + 1)
  {
  }

  lemma NamesShrink(reqs: seq<Callback>, m: map<nat, Text>, lo: nat, hi: int)
    requires NamesAre(reqs, m, lo, hi) && lo < hi
    ensures NamesAre(reqs, if reqs[lo].Lookup? then m - {lo} else m, lo + 1, hi)
  {
  }

  lemma ArrayLive(reqs: seq<Callback>, m: map<nat, seq<Slot>>, lo: int, hi: int, k: nat)
    requires ArraysAre(reqs, m, lo, hi) && lo <= k < hi
    ensures k in m && m[k] == Slots(reqs[k], k)
  {
    hide Slots;
  }

  lemma RecordLive(reqs: seq<Callback>, m: map<nat, Record>, lo: int, hi: int, k: nat)
    requires RecordsAre(reqs, m, lo, hi) && lo <= k < hi
    ensures k in m && m[k] == RecordFor(reqs[k], k)
  {
    hide RecordFor;
  }

  lemma NameLive(reqs: seq<Callback>, m: map<nat, Text>, lo: int, hi: int, k: nat)
    requires NamesAre(reqs, m, lo, hi) && lo <= k < hi && reqs[k].Lookup?
    ensures k in m && m[k] == reqs[k].name
  {
  }

  lemma LookupSlots(cb: Callback, k: nat)
    requires cb.Lookup?
    ensures |Slots(cb, k)| == 3 && Slots(cb, k)[2] == NameAt(k)
  {
  }

  lemma OpFacts(cb: Callback)
    ensures Keeps(OpOf(cb)) == Kept(cb) && OpOf(cb).Lookup? == cb.Lookup?
  {
  }

  // ---- Each step keeps the invariant ----

  lemma PackKeeps(reqs: seq<Callback>, s: State)
    requires Inv(reqs, s)
    ensures Inv(reqs, DoPack(reqs, s))
  {
    hide Slots, OpOf, Dispatch.Name, ArraysAre, RecordsAre, NamesAre;
    if s.producer.Waiting? && s.arrived < |reqs| {
      ArraysGrow(reqs, s.arrays, ArgsDone(s), s.arrived);
      NamesGrow(reqs, s.names, NamesDone(s), s.arrived);
    }
  }

  lemma SpinKeeps(reqs: seq<Callback>, s: State)
    requires Inv(reqs, s)
    ensures Inv(reqs, DoSpin(s))
  {
    hide Slots, OpOf, Dispatch.Name, ArraysAre, RecordsAre, NamesAre;
  }

  lemma NewRecordKeeps(reqs: seq<Callback>, s: State)
    requires Inv(reqs, s)
    ensures Inv(reqs, DoNewRecord(reqs, s))
  {
    hide Slots, OpOf, Dispatch.Name, ArraysAre, RecordsAre, NamesAre;
    if s.producer.Ready? {
      RecordsGrow(reqs, s.records, RecordsDone(s), s.arrived - 1);
    }
  }

  lemma StoreKeeps(reqs: seq<Callback>, s: State)
    requires Inv(reqs, s) && !DoStore(s).intruded
    ensures Inv(reqs, DoStore(s))
  {
    hide Slots, OpOf, Dispatch.Name, ArraysAre, RecordsAre, NamesAre;
  }

  lemma SendKeeps(reqs: seq<Callback>, s: State, leftover: Text)
    requires Inv(reqs, s)
    ensures Inv(reqs, DoSend(s, leftover))
  {
    hide Slots, OpOf, Dispatch.Name, ArraysAre, RecordsAre, NamesAre;
  }

  lemma ClearKeeps(reqs: seq<Callback>, s: State)
    requires Inv(reqs, s)
    ensures Inv(reqs, DoClear(s))
  {
    hide Slots, OpOf, Dispatch.Name, ArraysAre, RecordsAre, NamesAre;
  }

  lemma Load1Keeps(reqs: seq<Callback>, s: State)
    requires Inv(reqs, s)
    ensures Inv(reqs, DoLoad1(s))
  {
    hide Slots, OpOf, Dispatch.Name, ArraysAre, RecordsAre, NamesAre;
  }

  lemma Load2Keeps(reqs: seq<Callback>, s: State)
    requires Inv(reqs, s)
    ensures Inv(reqs, DoLoad2(s))
  {
    hide Slots, OpOf, Dispatch.Name, ArraysAre, NamesAre;
  }

  /** What the call step of an unintruded run does. */
  lemma CallIs(reqs: seq<Callback>, s: State, fatal: bool)
    requires Inv(reqs, s) && s.consumer.Taken?
    ensures
      var k := s.begun - 1;
      DoCall(s, fatal) == s.(log := s.log + [Dispatched(k, reqs[k])],
        consumer := if fatal then Exited
                    else if Kept(reqs[k]) then Idle
                    else if reqs[k].Lookup? then NameToFree(k) else ArgsToFree(k))
  {
    hide Slots, OpOf, Dispatch.Name, Dispatch.Called, Unpack, ArraysAre, RecordsAre, NamesAre;
    var k := s.begun - 1;
    Dispatch.DispatchByName(s.consumer.opName);
    RecordLive(reqs, s.records, RecordsDone(s), RecordCount(s), k);
    ArrayLive(reqs, s.arrays, ArgsDone(s), s.arrived, k);
    if reqs[k].Lookup? {
      NameLive(reqs, s.names, NamesDone(s), s.arrived, k);
    }
    RoundTrip(reqs[k], k, s.names);
    OpFacts(reqs[k]);
  }

  lemma CallKeeps(reqs: seq<Callback>, s: State, fatal: bool)
    requires Inv(reqs, s)
    ensures Inv(reqs, DoCall(s, fatal))
  {
    hide Slots, OpOf, Dispatch.Name, Dispatch.Called, Unpack, ArraysAre, RecordsAre, NamesAre;
    if s.consumer.Taken? {
      var k := s.begun - 1;
      CallIs(reqs, s, fatal);
      assert Expected(reqs, k + 1) == Expected(reqs, k) + [Dispatched(k, reqs[k])];
      if !fatal && !reqs[k].Lookup? {
        NamesShrink(reqs, s.names, k, s.arrived);
      }
      if !fatal && Kept(reqs[k]) {
        ArraysShrink(reqs, s.arrays, k, s.arrived);
        RecordsShrink(reqs, s.records, k, RecordCount(s));
      }
    }
  }

  lemma FreeNameKeeps(reqs: seq<Callback>, s: State)
    requires Inv(reqs, s)
    ensures Inv(reqs, DoFreeName(s))
  {
    hide Slots, OpOf, Dispatch.Name, ArraysAre, RecordsAre, NamesAre;
    if s.consumer.NameToFree? {
      var k := s.begun - 1;
      RecordLive(reqs, s.records, RecordsDone(s), RecordCount(s), k);
      ArrayLive(reqs, s.arrays, ArgsDone(s), s.arrived, k);
      NameLive(reqs, s.names, NamesDone(s), s.arrived, k);
      LookupSlots(reqs[k], k);
      NamesShrink(reqs, s.names, k, s.arrived);
    }
  }

  lemma FreeArgsKeeps(reqs: seq<Callback>, s: State)
    requires Inv(reqs, s)
    ensures Inv(reqs, DoFreeArgs(s))
  {
    hide Slots, OpOf, Dispatch.Name, ArraysAre, RecordsAre, NamesAre;
    if s.consumer.ArgsToFree? {
      var k := s.begun - 1;
      RecordLive(reqs, s.records, RecordsDone(s), RecordCount(s), k);
      ArrayLive(reqs, s.arrays, ArgsDone(s), s.arrived, k);
      ArraysShrink(reqs, s.arrays, k, s.arrived);
    }
  }

  lemma FreeLogEnds(reqs: seq<Callback>, k: nat)
    requires k < |reqs| && !Kept(reqs[k])
    ensures FreeLog(reqs, k + 1) == FreeLog(reqs, k) + FreedName(reqs, k) + [ArgsBlock(k), RecordBlock(k)]
  {
  }

  lemma FreeRecordKeeps(reqs: seq<Callback>, s: State)
    requires Inv(reqs, s)
    ensures Inv(reqs, DoFreeRecord(s))
  {
    hide Slots, OpOf, Dispatch.Name, ArraysAre, RecordsAre, NamesAre, FreeLog, FreedName, Expected;
    if s.consumer.RecordToFree? {
      var k := s.begun - 1;
      FreeLogEnds(reqs, k);
      RecordLive(reqs, s.records, RecordsDone(s), RecordCount(s), k);
      RecordsShrink(reqs, s.records, k, RecordCount(s));
    }
  }
}
