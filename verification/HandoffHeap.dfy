/** Conservation of the handoff's heap blocks over whole schedules. */
module HandoffHeap {
  import opened Marshalling
  import opened Handoff
  import opened HandoffRuns
  import Dispatch

  function LiveArrays(reqs: seq<Callback>, s: State): set<nat> {
    set k | k in s.arrays && k < |reqs| && !Kept(reqs[k])
  }

  function LiveRecords(reqs: seq<Callback>, s: State): set<nat> {
    set k | k in s.records && k < |reqs| && !Kept(reqs[k])
  }

  lemma {:induction false} SmallSet(a: set<nat>, lo: nat, hi: int)
    requires forall k :: k in a ==> lo <= k < hi
    ensures |a| <= if lo <= hi then hi - lo else 0
    decreases hi - lo
  {
    if lo < hi {
      assert a <= (a - {lo}) + {lo};
      SmallSet(a - {lo}, lo + 1, hi);
    } else {
      assert a == {};
    }
  }

  /** At most three arrays and two records are live, leaving aside those kept forever. */
  lemma LiveBounds(reqs: seq<Callback>, s: State)
    requires Inv(reqs, s)
    ensures |LiveArrays(reqs, s)| <= 3 && |LiveRecords(reqs, s)| <= 2
  {
    SmallSet(LiveArrays(reqs, s), ArgsDone(s), s.arrived);
    SmallSet(LiveRecords(reqs, s), RecordsDone(s), RecordCount(s));
  }

  // ---- Each block is freed at most once ----

  /** The blocks the first n requests have for freeing. */
  predicate Owed(reqs: seq<Callback>, n: nat, b: Block) {
    b.n < n && b.n < |reqs| && !Kept(reqs[b.n]) && (b.NameBlock? ==> reqs[b.n].Lookup?)
  }

  lemma Append(x: seq<Block>, y: seq<Block>, b: Block)
    ensures multiset(x + y)[b] == multiset(x)[b] + multiset(y)[b]
  {
  }

  /** The blocks freed for request k alone. */
  function FreedFor(reqs: seq<Callback>, k: nat): seq<Block>
    requires k < |reqs|
  {
    if Kept(reqs[k]) then [] else FreedName(reqs, k) + [ArgsBlock(k), RecordBlock(k)]
  }

  lemma FreeLogStep(reqs: seq<Callback>, k: nat)
    requires k < |reqs|
    ensures FreeLog(reqs, k + 1) == FreeLog(reqs, k) + FreedFor(reqs, k)
  {
  }

  lemma FreeLogEmpty(reqs: seq<Callback>)
    ensures FreeLog(reqs, 0) == []
  {
  }

  lemma {:induction false} FreeLogCounts(reqs: seq<Callback>, n: nat, b: Block)
    requires n <= |reqs|
    ensures multiset(FreeLog(reqs, n))[b] == if Owed(reqs, n, b) then 1 else 0
  {
    hide FreeLog, FreedFor;
    if n == 0 {
      FreeLogEmpty(reqs);
    } else {
      FreeLogCounts(reqs, n - 1, b);
      FreeLogStep(reqs, n - 1);
      Append(FreeLog(reqs, n - 1), FreedFor(reqs, n - 1), b);
      CountOne(reqs, n - 1, b);
    }
  }

  /** The blocks of one request, counted. */
  lemma CountOne(reqs: seq<Callback>, k: nat, b: Block)
    requires k < |reqs|
    ensures multiset(FreedFor(reqs, k))[b] ==
      if b.n == k && !Kept(reqs[k]) && (b.NameBlock? ==> reqs[k].Lookup?) then 1 else 0
  {
    if reqs[k].Lookup? {
      assert FreedFor(reqs, k) == [NameBlock(k), ArgsBlock(k), RecordBlock(k)];
    } else if !Kept(reqs[k]) {
      assert FreedFor(reqs, k) == [ArgsBlock(k), RecordBlock(k)];
    }
  }

  lemma FreedWithin(reqs: seq<Callback>, s: State)
    requires Inv(reqs, s)
    ensures s.begun <= |reqs| && s.freed <= FreeLog(reqs, s.begun)
  {
    hide ArraysAre, RecordsAre, NamesAre, Slots, OpOf, Dispatch.Name, FreeLog, Expected;
    if !s.consumer.Idle? {
      FreeLogStep(reqs, s.begun - 1);
    }
  }

  lemma PrefixCounts(a: seq<Block>, b: seq<Block>, x: Block)
    requires a <= b
    ensures multiset(a)[x] <= multiset(b)[x]
  {
    assert b == a + b[|a|..];
  }

  /** What has become of the blocks of request k when nothing is under way any more. */
  ghost predicate BlocksSettled(cb: Callback, s: State, k: nat) {
    if cb.Init? || cb.Destroy? then
      && k in s.arrays && k in s.records
      && multiset(s.freed)[ArgsBlock(k)] == multiset(s.freed)[RecordBlock(k)] == multiset(s.freed)[NameBlock(k)] == 0
    else
      && k !in s.arrays && k !in s.records
      && multiset(s.freed)[ArgsBlock(k)] == multiset(s.freed)[RecordBlock(k)] == 1
      && multiset(s.freed)[NameBlock(k)] == if cb.Lookup? then 1 else 0
  }

  /** In every run without intrusion no freed block is used again (that would be a
      fault), none is freed twice, the live blocks are bounded, and at rest exactly the
      array, the record and, for a Lookup, the name of every request have been freed,
      each once, but for Init and Destroy, whose array and record remain. */
  lemma HeapConservation(reqs: seq<Callback>, schedule: seq<Action>)
    requires !Run(reqs, schedule).intruded
    ensures
      var s := Run(reqs, schedule);
      && !s.fault
      && (forall b :: multiset(s.freed)[b] <= 1)
      && |LiveArrays(reqs, s)| <= 3 && |LiveRecords(reqs, s)| <= 2
      && (AtRest(reqs, s) ==>
        && LiveArrays(reqs, s) == {} && LiveRecords(reqs, s) == {} && s.names == map[]
        && forall k :: 0 <= k < |reqs| ==> BlocksSettled(reqs[k], s, k))
  {
    var s := Run(reqs, schedule);
    Reachable(reqs, schedule);
    LiveBounds(reqs, s);
    FreedWithin(reqs, s);
    forall b
      ensures multiset(s.freed)[b] <= 1
    {
      PrefixCounts(s.freed, FreeLog(reqs, s.begun), b);
      FreeLogCounts(reqs, s.begun, b);
    }
    if AtRest(reqs, s) {
      RestingHeap(reqs, s);
    }
  }

  lemma RestingHeap(reqs: seq<Callback>, s: State)
    requires Inv(reqs, s) && AtRest(reqs, s)
    ensures LiveArrays(reqs, s) == {} && LiveRecords(reqs, s) == {} && s.names == map[]
    ensures forall k :: 0 <= k < |reqs| ==> BlocksSettled(reqs[k], s, k)
  {
    hide FreeLog;
    assert s.freed == FreeLog(reqs, |reqs|);
    forall k | 0 <= k < |reqs|
      ensures BlocksSettled(reqs[k], s, k)
    {
      FreeLogCounts(reqs, |reqs|, NameBlock(k));
      FreeLogCounts(reqs, |reqs|, ArgsBlock(k));
      FreeLogCounts(reqs, |reqs|, RecordBlock(k));
    }
  }

  // ---- Leaks ----

  ghost predicate CalledFor(s: State, k: nat) {
    exists i :: 0 <= i < |s.log| && s.log[i].record == k
  }

  /** Every record that is still allocated is one whose handler has run and keeps it. */
  ghost predicate LeakFree(reqs: seq<Callback>, s: State) {
    && !s.fault
    && forall k :: k in s.records ==> k < |reqs| && (reqs[k].Init? || reqs[k].Destroy?) && CalledFor(s, k)
  }

  /** A session that has ended without an exit leaks no record, and has used no foreign
      one, if and only if no store intruded. */
  lemma LeakFreeIff(reqs: seq<Callback>, schedule: seq<Action>)
    requires Ended(reqs, Run(reqs, schedule)) && !Run(reqs, schedule).consumer.Exited?
    ensures LeakFree(reqs, Run(reqs, schedule)) <==> !Run(reqs, schedule).intruded
  {
    var s := Run(reqs, schedule);
    Reachable(reqs, schedule);
    if s.intruded {
      var j: nat :| Lost(s, j);
      assert j in s.records && !CalledFor(s, j);
    } else {
      NotFaulty(reqs, s);
      RestingRecords(reqs, s);
    }
  }

  lemma RestingRecords(reqs: seq<Callback>, s: State)
    requires Inv(reqs, s) && AtRest(reqs, s)
    ensures LeakFree(reqs, s)
  {
    forall k | k in s.records
      ensures CalledFor(s, k)
    {
      assert s.log[k].record == k;
    }
  }
}
